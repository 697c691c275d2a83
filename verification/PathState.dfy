/** The three-state machine of one path (internal/relay/pathstate.go): down, unstable
    and stable, and how slowly it changes its mind. */
module PathState {
  datatype State = Down | Unstable | Stable

  /** What the machine reads about a path. */
  datatype Metric = Metric(
    managed: bool,
    bound: bool,
    silentFor: int,
    sentSinceHeard: nat,
    unusable: bool,
    thin: bool,
    loss: real,
    queueMs: real,
    jitterMs: real)

  datatype Config = Config(
    downSilence: int,
    downProbePackets: nat,
    unstableLoss: real,
    unstableQueueMs: real,
    unstableJitterMs: real,
    demoteIntervals: int,
    promoteIntervals: int,
    flapWindow: int,
    flapThreshold: int,
    unstablePenalty: real,
    flapPenalty: real)

  datatype Machine = Machine(
    state: State,
    reason: string,
    changedAt: int,
    breaching: int,
    clean: int,
    transitions: seq<int>,
    demoteUntil: int)

  const NEW := Machine(Down, "", 0, 0, 0, [], 0)

  /** The threshold a path fails first, or none. */
  function Breach(p: Metric, c: Config): string {
    if p.loss > c.unstableLoss then "loss"
    else if p.queueMs > c.unstableQueueMs then "queue delay"
    else if p.jitterMs > c.unstableJitterMs then "jitter"
    else ""
  }

  // ----- what an evaluation is

  /** The one thing an evaluation finds, in the order the source looks. */
  datatype Finding = Unbound | Silent | Recovering | BelowFloor | HeldDown | Thin | Breaching | Clean

  function Find(m: Machine, now: int, p: Metric, c: Config): Finding {
    if p.managed && !p.bound then Unbound
    else if p.silentFor >= c.downSilence && p.sentSinceHeard >= c.downProbePackets then Silent
    else if m.state == Down then Recovering
    else if p.unusable then BelowFloor
    else if now < m.demoteUntil then HeldDown
    else if p.thin then Thin
    else if Breach(p, c) != "" then Breaching
    else Clean
  }

  /** The counters an evaluation leaves; the source keeps them inside assess, which
      its comment says changes nothing. */
  function BreachingAfter(m: Machine, f: Finding): int {
    match f
    case Unbound | Silent | Recovering | Thin | Clean => 0
    case BelowFloor | HeldDown => m.breaching
    case Breaching => m.breaching + 1
  }

  function CleanAfter(m: Machine, f: Finding): int {
    if f == Clean then m.clean + 1 else 0
  }

  /** The state an evaluation wants. */
  function Wants(m: Machine, f: Finding, c: Config): State {
    match f
    case Unbound | Silent => Down
    case Recovering | BelowFloor => Unstable
    case HeldDown => if m.state == Stable then Unstable else m.state
    case Thin => m.state
    case Breaching => if m.breaching + 1 >= c.demoteIntervals && m.state == Stable then Unstable else m.state
    case Clean => if m.clean + 1 >= c.promoteIntervals && m.state == Unstable then Stable else m.state
  }

  function Why(m: Machine, f: Finding, p: Metric, c: Config): string {
    match f
    case Unbound => "link down"
    case Silent => "silent while being probed"
    case Recovering => "recovering"
    case BelowFloor => "below the tunnel floor"
    case HeldDown => "out-of-band signal"
    case Thin => m.reason
    case Breaching => Breach(p, c)
    case Clean => "clean"
  }

  /** State changes no longer inside the window are dropped from the front. */
  function Pruned(times: seq<int>, now: int, window: int): seq<int> {
    if times != [] && now - times[0] > window then Pruned(times[1..], now, window) else times
  }

  function Evaluate(m: Machine, now: int, p: Metric, c: Config): Machine {
    var f := Find(m, now, p, c);
    var a := m.(breaching := BreachingAfter(m, f), clean := CleanAfter(m, f));
    if Wants(m, f, c) == m.state then a
    else
      a.(state := Wants(m, f, c), reason := Why(m, f, p, c), changedAt := now,
         transitions := Pruned(m.transitions + [now], now, c.flapWindow))
  }

  function Demote(m: Machine, now: int, hold: int): Machine {
    m.(demoteUntil := if now + hold > m.demoteUntil then now + hold else m.demoteUntil)
  }

  // ----- runs

  /** One evaluation: what it found, and the state it found and left. */
  datatype Eval = Eval(found: Finding, from: State, to: State)

  datatype Event =
    | Evaluated(now: int, p: Metric, c: Config)
    | Signalled(now: int, hold: int)
    | Asked(now: int, c: Config)

  /** A machine and its past: every evaluation, every time its state changed, and
      when the flap window was last pruned to. */
  datatype Past = Past(m: Machine, evals: seq<Eval>, changes: seq<int>, clock: int, prunedAt: int)

  const START := Past(NEW, [], [], 0, 0)

  function Step(h: Past, e: Event): Past {
    match e
    case Evaluated(now, p, c) =>
      var m := Evaluate(h.m, now, p, c);
      var changed := m.state != h.m.state;
      Past(m, h.evals + [Eval(Find(h.m, now, p, c), h.m.state, m.state)],
           if changed then h.changes + [now] else h.changes, now, if changed then now else h.prunedAt)
    case Signalled(now, hold) => h.(m := Demote(h.m, now, hold), clock := now)
    case Asked(now, c) =>
      h.(m := h.m.(transitions := Pruned(h.m.transitions, now, c.flapWindow)), clock := now, prunedAt := now)
  }

  function NowOf(e: Event): int {
    e.now
  }

  // ----- what is found, in terms of the measurements

  /** Gone: its link is down, or it has been silent long enough while probed often
      enough. */
  predicate Gone(p: Metric, c: Config) {
    (p.managed && !p.bound) || (p.silentFor >= c.downSilence && p.sentSinceHeard >= c.downProbePackets)
  }

  /** Over one of the three thresholds. */
  predicate Over(p: Metric, c: Config) {
    p.loss > c.unstableLoss || p.queueMs > c.unstableQueueMs || p.jitterMs > c.unstableJitterMs
  }

  /** What each finding means: the first that applies of a path gone, one coming back,
      one below the floor, one held down from outside, one with too little traffic to
      judge, one over a threshold; and clean is none of them. */
  lemma FindsExactly(m: Machine, now: int, p: Metric, c: Config)
    ensures var f := Find(m, now, p, c);
            var judged := !Gone(p, c) && m.state != Down && !p.unusable && now >= m.demoteUntil && !p.thin;
            && (f == Unbound <==> p.managed && !p.bound)
            && (f == Unbound || f == Silent <==> Gone(p, c))
            && (f == Recovering <==> !Gone(p, c) && m.state == Down)
            && (f == BelowFloor <==> !Gone(p, c) && m.state != Down && p.unusable)
            && (f == HeldDown <==> !Gone(p, c) && m.state != Down && !p.unusable && now < m.demoteUntil)
            && (f == Thin <==> !Gone(p, c) && m.state != Down && !p.unusable && now >= m.demoteUntil && p.thin)
            && (f == Breaching <==> judged && Over(p, c))
            && (f == Clean <==> judged && !Over(p, c))
  {
  }

  /** And where it leaves the machine. */
  lemma EvaluateSays(m: Machine, now: int, p: Metric, c: Config)
    ensures var z := Evaluate(m, now, p, c);
            var judged := !Gone(p, c) && m.state != Down && !p.unusable && now >= m.demoteUntil && !p.thin;
            && (Gone(p, c) ==> z.state == Down && z.breaching == 0 && z.clean == 0)
            && (!Gone(p, c) && m.state == Down ==> z.state == Unstable && z.breaching == 0 && z.clean == 0)
            && (!Gone(p, c) && m.state != Down && p.unusable ==> z.state == Unstable && z.breaching == m.breaching && z.clean == 0)
            && (!Gone(p, c) && m.state != Down && !p.unusable && now < m.demoteUntil ==>
                  z.state == Unstable && z.breaching == m.breaching && z.clean == 0)
            && (!Gone(p, c) && m.state != Down && !p.unusable && now >= m.demoteUntil && p.thin ==>
                  z.state == m.state && z.breaching == 0 && z.clean == 0)
            && (judged && Over(p, c) ==>
                  && z.breaching == m.breaching + 1 && z.clean == 0
                  && z.state == if m.breaching + 1 >= c.demoteIntervals then Unstable else m.state)
            && (judged && !Over(p, c) ==>
                  && z.breaching == 0 && z.clean == m.clean + 1
                  && z.state == if m.clean + 1 >= c.promoteIntervals then Stable else m.state)
            && (z.state == m.state ==>
                  z == m.(breaching := z.breaching, clean := z.clean))
            && (z.state != m.state ==>
                  && z.changedAt == now && z.demoteUntil == m.demoteUntil
                  && z.reason == (if p.managed && !p.bound then "link down"
                                  else if Gone(p, c) then "silent while being probed"
                                  else if m.state == Down then "recovering"
                                  else if p.unusable then "below the tunnel floor"
                                  else if now < m.demoteUntil then "out-of-band signal"
                                  else if p.loss > c.unstableLoss then "loss"
                                  else if p.queueMs > c.unstableQueueMs then "queue delay"
                                  else if p.jitterMs > c.unstableJitterMs then "jitter"
                                  else "clean"))
  {
    FindsExactly(m, now, p, c);
  }

  // ----- trust is earned slowly

  /** How many evaluations up to now, without a break, found f while in state s. */
  function Trailing(evals: seq<Eval>, f: Finding, s: State): nat {
    if evals == [] then 0
    else
      var last := evals[|evals| - 1];
      if last.found == f && last.from == s then Trailing(evals[..|evals| - 1], f, s) + 1 else 0
  }

  /** The counters count what they are trusted to count. */
  predicate Counted(h: Past) {
    && (h.m.state == Unstable ==> h.m.clean == Trailing(h.evals, Clean, Unstable))
    && (h.m.state == Stable ==> h.m.breaching == Trailing(h.evals, Breaching, Stable))
  }

  lemma TrailingOn(evals: seq<Eval>, x: Eval, f: Finding, s: State)
    ensures Trailing(evals + [x], f, s) == if x.found == f && x.from == s then Trailing(evals, f, s) + 1 else 0
  {
    assert (evals + [x])[..|evals|] == evals;
  }

  lemma StepCounted(h: Past, e: Event)
    requires Counted(h)
    ensures Counted(Step(h, e))
  {
    if e.Evaluated? {
      var x := Step(h, e).evals[|h.evals|];
      TrailingOn(h.evals, x, Clean, Unstable);
      TrailingOn(h.evals, x, Breaching, Stable);
    }
  }

  /** A path becomes stable exactly when it was unstable and has now been found
      clean as many times running as the configuration asks, all of them while
      unstable; never straight from down. */
  lemma PromotedExactly(h: Past, now: int, p: Metric, c: Config)
    requires Counted(h)
    ensures var z := Step(h, Evaluated(now, p, c));
            z.m.state == Stable && h.m.state != Stable
            <==> h.m.state == Unstable && Find(h.m, now, p, c) == Clean
                 && Trailing(z.evals, Clean, Unstable) >= c.promoteIntervals
  {
    var x := Step(h, Evaluated(now, p, c)).evals[|h.evals|];
    TrailingOn(h.evals, x, Clean, Unstable);
  }

  /** A stable path leaves stable exactly when it is dead, below the tunnel floor or
      held down from outside, or has now breached a threshold as many times running
      as the configuration asks, all of them while stable. */
  lemma DemotedExactly(h: Past, now: int, p: Metric, c: Config)
    requires Counted(h) && h.m.state == Stable
    ensures var z := Step(h, Evaluated(now, p, c));
            var f := Find(h.m, now, p, c);
            && (z.m.state == Down <==> f == Unbound || f == Silent)
            && (z.m.state == Unstable
                <==> f == BelowFloor || f == HeldDown
                     || (f == Breaching && Trailing(z.evals, Breaching, Stable) >= c.demoteIntervals))
  {
    var x := Step(h, Evaluated(now, p, c)).evals[|h.evals|];
    TrailingOn(h.evals, x, Breaching, Stable);
  }

  /** An outside signal may demote and may never promote: until its hold is over no
      evaluation leaves the path stable, and a longer hold is never cut short. */
  lemma SignalOnlyDemotes(h: Past, at: int, hold: int, now: int, p: Metric, c: Config)
    requires now < at + hold
    ensures var z := Step(h, Signalled(at, hold));
            && z.m.state == h.m.state && z.m.demoteUntil >= h.m.demoteUntil
            && Step(z, Evaluated(now, p, c)).m.state != Stable
  {
  }

  /** A signal holds a path out of stable for so long, or as long as it is held already. */
  lemma DemoteSays(m: Machine, now: int, hold: int)
    ensures var z := Demote(m, now, hold);
            && z == m.(demoteUntil := z.demoteUntil) && z.demoteUntil >= now + hold && z.demoteUntil >= m.demoteUntil
            && (z.demoteUntil == now + hold || z.demoteUntil == m.demoteUntil)
  {
  }

  function Run(h: Past, events: seq<Event>): Past
    decreases |events|
  {
    if events == [] then h else Run(Step(h, events[0]), events[1..])
  }

  lemma {:induction false} RunJoin(h: Past, events: seq<Event>, e: Event)
    ensures Run(h, events + [e]) == Step(Run(h, events), e)
    decreases |events|
  {
    hide Step;
    var all := events + [e];
    if events == [] {
      assert all[1..] == [];
      assert Run(Step(h, e), []) == Step(h, e);
    } else {
      assert all[1..] == events[1..] + [e];
      RunJoin(Step(h, events[0]), events[1..], e);
    }
  }

  lemma {:induction false} RunCounted(h: Past, events: seq<Event>)
    requires Counted(h)
    ensures Counted(Run(h, events))
    decreases |events|
  {
    if events != [] {
      StepCounted(h, events[0]);
      RunCounted(Step(h, events[0]), events[1..]);
    }
  }

  /** In every run from a new path: wherever it turned stable, the evaluations just
      before and including that one were all clean and spent unstable, as many as
      were asked for; and the path before that was never down. */
  lemma EveryPromotionEarned(events: seq<Event>, now: int, p: Metric, c: Config, k: nat)
    requires var h := Run(START, events);
             h.m.state != Stable && Step(h, Evaluated(now, p, c)).m.state == Stable
    requires k < c.promoteIntervals
    ensures var evals := Step(Run(START, events), Evaluated(now, p, c)).evals;
            && k < |evals|
            && evals[|evals| - 1 - k].found == Clean && evals[|evals| - 1 - k].from == Unstable
  {
    hide Run, Step, Find, Counted;
    RunCounted(START, events);
    PromotedExactly(Run(START, events), now, p, c);
    TrailingAt(Step(Run(START, events), Evaluated(now, p, c)).evals, Clean, Unstable, k);
  }

  lemma EveryDemotionEarned(events: seq<Event>, now: int, p: Metric, c: Config, k: nat)
    requires var h := Run(START, events);
             && h.m.state == Stable && Find(h.m, now, p, c) == Breaching
             && Step(h, Evaluated(now, p, c)).m.state != Stable
    requires k < c.demoteIntervals
    ensures var evals := Step(Run(START, events), Evaluated(now, p, c)).evals;
            && k < |evals|
            && evals[|evals| - 1 - k].found == Breaching && evals[|evals| - 1 - k].from == Stable
  {
    hide Run, Step, Find, Counted;
    RunCounted(START, events);
    DemotedExactly(Run(START, events), now, p, c);
    TrailingAt(Step(Run(START, events), Evaluated(now, p, c)).evals, Breaching, Stable, k);
  }

  lemma {:induction false} TrailingAt(evals: seq<Eval>, f: Finding, s: State, k: nat)
    requires k < Trailing(evals, f, s)
    ensures k < |evals| && evals[|evals| - 1 - k].found == f && evals[|evals| - 1 - k].from == s
  {
    if k > 0 {
      TrailingAt(evals[..|evals| - 1], f, s, k - 1);
    }
  }

  // ----- the flap window

  /** The times inside the window. */
  function Recent(times: seq<int>, now: int, window: int): seq<int> {
    if times == [] then []
    else if now - times[0] <= window then [times[0]] + Recent(times[1..], now, window)
    else Recent(times[1..], now, window)
  }

  predicate Sorted(times: seq<int>, clock: int) {
    && (forall i, j :: 0 <= i < j < |times| ==> times[i] <= times[j])
    && (forall i :: 0 <= i < |times| ==> times[i] <= clock)
  }

  /** Dropping from the front is keeping the recent ones, times being in order. */
  lemma {:induction false} PrunedIsRecent(times: seq<int>, now: int, window: int)
    requires Sorted(times, now)
    ensures Pruned(times, now, window) == Recent(times, now, window)
  {
    if times != [] {
      if now - times[0] > window {
        PrunedIsRecent(times[1..], now, window);
      } else {
        AllRecent(times, now, window);
      }
    }
  }

  lemma {:induction false} AllRecent(times: seq<int>, now: int, window: int)
    requires forall i :: 0 <= i < |times| ==> now - times[i] <= window
    ensures Recent(times, now, window) == times
  {
    if times != [] {
      AllRecent(times[1..], now, window);
    }
  }

  lemma RecentStep(x: int, rest: seq<int>, now: int, window: int)
    ensures Recent([x] + rest, now, window)
            == if now - x <= window then [x] + Recent(rest, now, window) else Recent(rest, now, window)
  {
    assert ([x] + rest)[1..] == rest;
  }

  lemma {:induction false} RecentLater(times: seq<int>, before: int, now: int, window: int)
    requires before <= now
    ensures Recent(Recent(times, before, window), now, window) == Recent(times, now, window)
  {
    if times != [] {
      RecentLater(times[1..], before, now, window);
      RecentStep(times[0], Recent(times[1..], before, window), now, window);
    }
  }

  lemma {:induction false} RecentOn(times: seq<int>, x: int, now: int, window: int)
    requires now - x <= window
    ensures Recent(times + [x], now, window) == Recent(times, now, window) + [x]
  {
    if times == [] {
      assert times + [x] == [x] + [];
      RecentStep(x, [], now, window);
    } else {
      assert times + [x] == [times[0]] + (times[1..] + [x]);
      RecentStep(times[0], times[1..] + [x], now, window);
      RecentOn(times[1..], x, now, window);
    }
  }

  lemma {:induction false} RecentSorted(times: seq<int>, now: int, window: int, clock: int)
    requires Sorted(times, clock)
    ensures Sorted(Recent(times, now, window), clock)
    ensures times != [] ==> forall i :: 0 <= i < |Recent(times, now, window)| ==> times[0] <= Recent(times, now, window)[i]
  {
    if times != [] {
      RecentSorted(times[1..], now, window, clock);
    }
  }

  /** What is remembered is what was recent when it was last pruned. */
  predicate Remembered(h: Past, window: int) {
    h.prunedAt <= h.clock && Sorted(h.changes, h.clock)
    && h.m.transitions == Recent(h.changes, h.prunedAt, window)
  }

  predicate Windowed(e: Event, clock: int, window: int) {
    && clock <= NowOf(e)
    && (e.Evaluated? || e.Asked? ==> e.c.flapWindow == window)
  }

  lemma PruneRemembers(changes: seq<int>, prunedAt: int, clock: int, now: int, window: int)
    requires Sorted(changes, clock) && prunedAt <= now && clock <= now
    ensures Pruned(Recent(changes, prunedAt, window), now, window) == Recent(changes, now, window)
  {
    RecentSorted(changes, prunedAt, window, clock);
    PrunedIsRecent(Recent(changes, prunedAt, window), now, window);
    RecentLater(changes, prunedAt, now, window);
  }

  lemma StepRemembered(h: Past, e: Event, window: int)
    requires Remembered(h, window) && Windowed(e, h.clock, window) && window >= 0
    ensures Remembered(Step(h, e), window)
  {
    if e.Asked? {
      PruneRemembers(h.changes, h.prunedAt, h.clock, e.now, window);
    } else if e.Evaluated? && Step(h, e).m.state != h.m.state {
      RecentOn(h.changes, e.now, h.prunedAt, window);
      PruneRemembers(h.changes + [e.now], h.prunedAt, e.now, e.now, window);
    }
  }

  predicate AllWindowed(h: Past, events: seq<Event>, window: int)
    decreases |events|
  {
    events == [] || (Windowed(events[0], h.clock, window) && AllWindowed(Step(h, events[0]), events[1..], window))
  }

  lemma {:induction false} RunRemembered(h: Past, events: seq<Event>, window: int)
    requires Remembered(h, window) && AllWindowed(h, events, window) && window >= 0
    ensures Remembered(Run(h, events), window)
    decreases |events|
  {
    if events != [] {
      StepRemembered(h, events[0], window);
      RunRemembered(Step(h, events[0]), events[1..], window);
    }
  }

  function Flapping(m: Machine, now: int, c: Config): bool {
    |Pruned(m.transitions, now, c.flapWindow)| >= c.flapThreshold
  }

  /** In every run under one window, a path is called flapping exactly when it has
      changed state the threshold number of times inside the window, however often
      and whenever the question was asked before. */
  lemma FlappingExactly(events: seq<Event>, now: int, c: Config)
    requires c.flapWindow >= 0 && AllWindowed(START, events, c.flapWindow) && Run(START, events).clock <= now
    ensures var h := Run(START, events);
            Flapping(h.m, now, c) <==> |Recent(h.changes, now, c.flapWindow)| >= c.flapThreshold
  {
    RunRemembered(START, events, c.flapWindow);
    var h := Run(START, events);
    PruneRemembers(h.changes, h.prunedAt, h.clock, now, c.flapWindow);
  }
}
