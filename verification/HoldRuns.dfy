/** How long a gap is waited for, over whole runs of the gaps seen and the delays
    predicted: a quarter more than any gap of the last two seconds took, where neither
    the prediction is longer nor the cap shorter. */
module HoldRuns {
  import opened Reseq

  /** A gap told, and the paths' delays predicted and capped anew. */
  datatype Event = Seen(d: nat, at: int) | Predicted(hold: int, max: int, at: int)

  function Step(g: GapClock, e: Event): GapClock {
    match e
    case Seen(d, at) => g.Observe(d, at)
    case Predicted(hold, max, at) => g.Predict(hold, max, at)
  }

  function Run(g: GapClock, events: seq<Event>): GapClock {
    if events == [] then g else Step(Run(g, events[..|events| - 1]), events[|events| - 1])
  }

  function Begin(hold: int, max: int): GapClock {
    GapClock(hold, max, hold, 0, 0, 0)
  }

  /** The last prediction, and its cap. */
  function Prediction(events: seq<Event>, hold: int): int {
    if events == [] then hold
    else
      var e := events[|events| - 1];
      if e.Predicted? then e.hold else Prediction(events[..|events| - 1], hold)
  }

  function Cap(events: seq<Event>, max: int): int {
    if events == [] then max
    else
      var e := events[|events| - 1];
      if e.Predicted? then e.max else Cap(events[..|events| - 1], max)
  }

  predicate InTime(events: seq<Event>) {
    && (forall i :: 0 <= i < |events| ==> 0 <= events[i].at)
    && forall i, j :: 0 <= i < j < |events| ==> events[i].at <= events[j].at
  }

  function Clock(events: seq<Event>): int {
    if events == [] then 0 else events[|events| - 1].at
  }

  // ----- what the clock remembers

  predicate OneRemembered(g: GapClock, e: Event, now: int) {
    e.Seen? ==>
      && (e.at >= g.windowAt ==> e.at < g.windowAt + 2_000_000_000 && (g.cur >= e.d || now - e.at >= 2_000_000_000))
      && (e.at < g.windowAt ==> g.prev >= e.d || now - e.at >= 2_000_000_000)
  }

  predicate SomeSeen(events: seq<Event>, d: nat) {
    exists i :: 0 <= i < |events| && events[i] == Seen(d, events[i].at)
  }

  predicate WindowSeen(events: seq<Event>, at: int) {
    exists i :: 0 <= i < |events| && events[i].Seen? && at <= events[i].at
  }

  predicate Remembers(g: GapClock, events: seq<Event>) {
    && (forall i :: 0 <= i < |events| ==> OneRemembered(g, events[i], Clock(events)))
    && (g.windowAt == 0 || WindowSeen(events, g.windowAt))
    && (g.cur == 0 || SomeSeen(events, g.cur)) && (g.prev == 0 || SomeSeen(events, g.prev))
  }

  /** The hold in force is a quarter more than the longest gap remembered, or what is
      predicted, and no more than the cap. */
  predicate Settled(g: GapClock) {
    var d := if g.prev > g.cur then g.prev else g.cur;
    var wanted := if d * 5 / 4 > g.predicted then d * 5 / 4 else g.predicted;
    g.hold == if wanted > g.maxHold then g.maxHold else wanted
  }

  lemma SeenOn(events: seq<Event>, e: Event, d: nat)
    ensures SomeSeen(events, d) ==> SomeSeen(events + [e], d)
    ensures e.Seen? && e.d == d ==> SomeSeen(events + [e], d)
    ensures forall at :: WindowSeen(events, at) ==> WindowSeen(events + [e], at)
  {
    var all := events + [e];
    assert all[|events|] == e;
    if SomeSeen(events, d) {
      var i :| 0 <= i < |events| && events[i] == Seen(d, events[i].at);
      assert all[i] == events[i];
    }
    forall at | WindowSeen(events, at) ensures WindowSeen(all, at) {
      var i :| 0 <= i < |events| && events[i].Seen? && at <= events[i].at;
      assert all[i] == events[i];
    }
  }

  lemma OneOn(g: GapClock, was: Event, now: int, e: Event)
    requires OneRemembered(g, was, now) && was.at <= now <= e.at
    ensures OneRemembered(Step(g, e), was, e.at)
  {
  }

  lemma NewRemembered(g: GapClock, e: Event)
    requires g.windowAt <= e.at
    ensures OneRemembered(Step(g, e), e, e.at) && Settled(Step(g, e))
  {
  }

  lemma StepRemembers(g: GapClock, events: seq<Event>, e: Event)
    requires Remembers(g, events) && InTime(events + [e]) && g.windowAt <= Clock(events)
    ensures Remembers(Step(g, e), events + [e]) && Settled(Step(g, e))
    ensures Step(g, e).windowAt <= e.at
  {
    var z, all := Step(g, e), events + [e];
    assert all[|events|] == e;
    assert forall i :: 0 <= i < |events| ==> all[i] == events[i];
    assert Clock(events) <= e.at by {
      if events != [] {
        assert all[|events| - 1].at <= all[|events|].at;
      } else {
        assert 0 <= all[0].at;
      }
    }
    forall i | 0 <= i < |all| ensures OneRemembered(z, all[i], e.at) {
      if i < |events| {
        assert all[i].at <= Clock(events) by { assert i < |events| - 1 ==> all[i].at <= all[|events| - 1].at; }
        OneOn(g, events[i], Clock(events), e);
      } else {
        NewRemembered(g, e);
      }
    }
    NewRemembered(g, e);
    SeenOn(events, e, z.cur);
    SeenOn(events, e, z.prev);
    if e.Seen? {
      assert WindowSeen(all, e.at) by { assert all[|events|].Seen? && e.at <= all[|events|].at; }
    }
  }

  lemma StepKeepsSettings(g: GapClock, e: Event)
    ensures Step(g, e).predicted == (if e.Predicted? then e.hold else g.predicted)
    ensures Step(g, e).maxHold == (if e.Predicted? then e.max else g.maxHold)
  {
  }

  lemma BeginRemembers(hold: int, max: int)
    ensures Remembers(Begin(hold, max), [])
  {
  }

  lemma {:induction false} RunRemembers(hold: int, max: int, events: seq<Event>)
    requires InTime(events)
    ensures var g := Run(Begin(hold, max), events);
            && Remembers(g, events) && g.windowAt <= Clock(events) && (events != [] ==> Settled(g))
            && g.predicted == Prediction(events, hold) && g.maxHold == Cap(events, max)
  {
    hide Remembers, Settled, Step;
    if events == [] {
      BeginRemembers(hold, max);
    } else {
      var last := |events| - 1;
      var before := events[..last];
      assert InTime(before) by { assert forall i :: 0 <= i < last ==> before[i] == events[i]; }
      RunRemembers(hold, max, before);
      assert events == before + [events[last]];
      StepKeepsSettings(Run(Begin(hold, max), before), events[last]);
      StepRemembers(Run(Begin(hold, max), before), before, events[last]);
    }
  }

  // ----- the hold

  /** In every run the hold is within the cap, and, unless it is the cap, no less than
      predicted and a quarter more than any gap told in the last two seconds. */
  lemma HoldCoversRecent(hold: int, max: int, events: seq<Event>, i: nat)
    requires InTime(events) && i < |events|
    ensures var z := Run(Begin(hold, max), events).hold;
            && z <= Cap(events, max)
            && (z == Cap(events, max)
                || (z >= Prediction(events, hold)
                    && (events[i].Seen? && events[|events| - 1].at - events[i].at < 2_000_000_000 ==>
                          z >= events[i].d * 5 / 4)))
  {
    RunRemembers(hold, max, events);
    assert OneRemembered(Run(Begin(hold, max), events), events[i], Clock(events));
  }

  /** And it is never longer than something asks for: the prediction, or a quarter more
      than some gap that was told. */
  lemma HoldIsAskedFor(hold: int, max: int, events: seq<Event>)
    requires InTime(events) && events != []
    ensures var z := Run(Begin(hold, max), events).hold;
            z <= Prediction(events, hold) || z <= 0 || exists i :: 0 <= i < |events| && events[i].Seen? && z <= events[i].d * 5 / 4
  {
    RunRemembers(hold, max, events);
    var g := Run(Begin(hold, max), events);
    var d := if g.prev > g.cur then g.prev else g.cur;
    if d > 0 {
      var i :| 0 <= i < |events| && events[i] == Seen(d, events[i].at);
    }
  }

  /** With every gap told four seconds old, nothing is remembered that counts. */
  lemma AllOld(g: GapClock, events: seq<Event>, now: int)
    requires Remembers(g, events) && InTime(events)
    requires forall i :: 0 <= i < |events| && events[i].Seen? ==> now - events[i].at >= 4_000_000_000
    ensures now - g.windowAt >= 4_000_000_000 || (g.cur == 0 && g.prev == 0)
  {
    if g.windowAt != 0 {
      var i :| 0 <= i < |events| && events[i].Seen? && g.windowAt <= events[i].at;
    } else {
      if g.cur != 0 {
        var i :| 0 <= i < |events| && events[i] == Seen(g.cur, events[i].at);
        assert OneRemembered(g, events[i], Clock(events));
      }
      if g.prev != 0 {
        var i :| 0 <= i < |events| && events[i] == Seen(g.prev, events[i].at);
        assert OneRemembered(g, events[i], Clock(events));
      }
    }
  }

  lemma PredictsAlone(g: GapClock, hold: int, max: int, now: int)
    requires now - g.windowAt >= 4_000_000_000 || (g.cur == 0 && g.prev == 0)
    ensures var h := if hold < 0 then 0 else hold; g.Predict(hold, max, now).hold == if h > max then max else h
  {
  }

  /** A prediction made once every gap told is four seconds old is the hold, but for the
      cap. */
  lemma HoldForgets(hold: int, max: int, events: seq<Event>)
    requires InTime(events) && events != [] && events[|events| - 1].Predicted?
    requires forall i :: 0 <= i < |events| && events[i].Seen? ==> events[|events| - 1].at - events[i].at >= 4_000_000_000
    ensures var e := events[|events| - 1];
            var h := if e.hold < 0 then 0 else e.hold;
            Run(Begin(hold, max), events).hold == if h > e.max then e.max else h
  {
    hide Remembers;
    var last := |events| - 1;
    var e, before := events[last], events[..last];
    RunRemembers(hold, max, before);
    assert forall i :: 0 <= i < |before| ==> before[i] == events[i];
    AllOld(Run(Begin(hold, max), before), before, e.at);
    PredictsAlone(Run(Begin(hold, max), before), e.hold, e.max, e.at);
  }
}
