/** What one evaluation decides, case by case, told of the eligible paths by their places
    in the ranking. */
module SchedulerChoices {
  import opened Collections
  import opened Ids
  import opened Scheduler
  import opened SchedulerRuns

  /** The path stands at place i. */
  predicate At(eligible: seq<Scored>, i: int, id: Path) {
    0 <= i < |eligible| && eligible[i].id == id
  }

  predicate Within(eligible: seq<Scored>, i: int, primary: Path) {
    0 <= i < |eligible| && eligible[i].id != primary && eligible[i].green
  }

  lemma {:induction false} PathAt(eligible: seq<Scored>, i: nat, id: Path)
    requires At(eligible, i, id) && DistinctIds(eligible)
    ensures PathOf(id, eligible) == Some(eligible[i])
  {
    if i > 0 {
      assert eligible[0].id != eligible[i].id;
      assert DistinctIds(eligible[1..]) by { assert forall k :: 0 <= k < |eligible| - 1 ==> eligible[1..][k] == eligible[k + 1]; }
      PathAt(eligible[1..], i - 1, id);
    }
  }

  lemma PathNowhere(eligible: seq<Scored>, id: Path)
    requires forall i :: !At(eligible, i, id)
    ensures PathOf(id, eligible) == None
  {
    if PathOf(id, eligible).Some? {
      var i :| 0 <= i < |eligible| && eligible[i] == PathOf(id, eligible).value;
      assert At(eligible, i, id);
    }
  }

  // ----- where real-time goes

  /** An eligible path other than the primary, within budget. */
  ghost predicate Listed(eligible: seq<Scored>, primary: Path, id: Path) {
    exists i :: Within(eligible, i, primary) && eligible[i].id == id
  }

  /** Two of them, the first ranked before the second. */
  ghost predicate Ahead(eligible: seq<Scored>, primary: Path, p: Path, q: Path) {
    exists i, j :: i < j && Within(eligible, i, primary) && Within(eligible, j, primary)
                   && eligible[i].id == p && eligible[j].id == q
  }

  /** All of them, in the order of the ranking. */
  ghost predicate InRanking(ids: seq<Path>, eligible: seq<Scored>, primary: Path) {
    && (forall id: Path :: id in ids <==> Listed(eligible, primary, id))
    && (forall k, m :: 0 <= k < m < |ids| ==> Ahead(eligible, primary, ids[k], ids[m]))
  }

  lemma ListedOn(all: seq<Scored>, primary: Path, id: Path)
    requires all != []
    ensures Listed(all, primary, id) <==> (Within(all, 0, primary) && all[0].id == id) || Listed(all[1..], primary, id)
  {
    if i :| Within(all, i, primary) && all[i].id == id {
      if i > 0 {
        assert Within(all[1..], i - 1, primary) && all[1..][i - 1].id == id;
      }
    }
    if i :| Within(all[1..], i, primary) && all[1..][i].id == id {
      assert Within(all, i + 1, primary) && all[i + 1].id == id;
    }
  }

  lemma AheadOn(all: seq<Scored>, primary: Path, p: Path, q: Path)
    requires all != []
    ensures Ahead(all[1..], primary, p, q) ==> Ahead(all, primary, p, q)
    ensures Within(all, 0, primary) && all[0].id == p && Listed(all[1..], primary, q) ==> Ahead(all, primary, p, q)
  {
    var rest := all[1..];
    if i, j :| i < j && Within(rest, i, primary) && Within(rest, j, primary) && rest[i].id == p && rest[j].id == q {
      assert Within(all, i + 1, primary) && Within(all, j + 1, primary) && all[i + 1].id == p && all[j + 1].id == q;
    }
    if j :| Within(rest, j, primary) && rest[j].id == q {
      assert Within(all, j + 1, primary) && all[j + 1].id == q;
    }
  }

  lemma RanksOn(ids: seq<Path>, all: seq<Scored>, primary: Path)
    requires all != [] && InRanking(ids, all[1..], primary)
    ensures InRanking((if Within(all, 0, primary) then [all[0].id] else []) + ids, all, primary)
  {
    hide Listed, Ahead;
    var more := (if Within(all, 0, primary) then [all[0].id] else []) + ids;
    var d := |more| - |ids|;
    forall id: Path ensures id in more <==> Listed(all, primary, id) {
      ListedOn(all, primary, id);
    }
    forall k, m | 0 <= k < m < |more| ensures Ahead(all, primary, more[k], more[m]) {
      assert more[m] == ids[m - d] && ids[m - d] in ids;
      AheadOn(all, primary, more[k], more[m]);
      if k >= d {
        assert more[k] == ids[k - d];
      }
    }
  }

  lemma {:induction false} SparesRank(primary: Path, eligible: seq<Scored>)
    ensures InRanking(Spares(primary, eligible), eligible, primary)
  {
    if eligible != [] {
      SparesRank(primary, eligible[1..]);
      RanksOn(Spares(primary, eligible[1..]), eligible, primary);
    }
  }

  /** The first of them. */
  ghost predicate IsFirst(eligible: seq<Scored>, primary: Path, id: Path) {
    exists i :: Within(eligible, i, primary) && eligible[i].id == id && forall j :: 0 <= j < i ==> !Within(eligible, j, primary)
  }

  lemma FirstOn(all: seq<Scored>, primary: Path, id: Path)
    requires all != [] && !Within(all, 0, primary) && IsFirst(all[1..], primary, id)
    ensures IsFirst(all, primary, id)
  {
    var rest := all[1..];
    var i :| Within(rest, i, primary) && rest[i].id == id && forall j :: 0 <= j < i ==> !Within(rest, j, primary);
    assert Within(all, i + 1, primary) && all[i + 1].id == id;
    forall j | 0 <= j < i + 1 ensures !Within(all, j, primary) {
      assert j > 0 ==> !Within(rest, j - 1, primary);
    }
  }

  lemma NoneOn(all: seq<Scored>, primary: Path)
    requires all != [] && !Within(all, 0, primary) && forall i :: !Within(all[1..], i, primary)
    ensures forall i :: !Within(all, i, primary)
  {
    forall i ensures !Within(all, i, primary) {
      assert !Within(all[1..], i - 1, primary);
    }
  }

  lemma {:induction false} SparesFirst(primary: Path, eligible: seq<Scored>)
    ensures Spares(primary, eligible) == [] ==> forall i :: !Within(eligible, i, primary)
    ensures Spares(primary, eligible) != [] ==> IsFirst(eligible, primary, Spares(primary, eligible)[0])
  {
    if eligible != [] {
      SparesFirst(primary, eligible[1..]);
      if Within(eligible, 0, primary) {
        assert Spares(primary, eligible)[0] == eligible[0].id;
        assert IsFirst(eligible, primary, eligible[0].id);
      } else {
        assert Spares(primary, eligible) == Spares(primary, eligible[1..]);
        if Spares(primary, eligible) != [] {
          FirstOn(eligible, primary, Spares(primary, eligible)[0]);
        } else {
          NoneOn(eligible, primary);
        }
      }
    }
  }

  /** With no handover to see through, never duplicating: the primary alone. */
  lemma SingleSays(s: Sched, in_: Input)
    requires in_.eligible != [] && s.havePrimary && !(s.switching && s.switchingTo in in_.sendable) && in_.c.mode == Single
    ensures BuildTx(s, in_) == Decision([s.primary], s.primary, true, false)
  {
  }

  /** Always duplicating: the primary, and then every other eligible path within budget, in
      the order of the ranking. */
  lemma AlwaysSays(s: Sched, in_: Input)
    requires in_.eligible != [] && s.havePrimary && !(s.switching && s.switchingTo in in_.sendable) && in_.c.mode == Always
    ensures var d := BuildTx(s, in_);
            && d.tx != [] && d.tx[0] == s.primary && InRanking(d.tx[1..], in_.eligible, s.primary)
            && d == Decision(d.tx, s.primary, true, false)
  {
    SparesRank(s.primary, in_.eligible);
    assert ([s.primary] + Spares(s.primary, in_.eligible))[1..] == Spares(s.primary, in_.eligible);
  }

  /** Duplicating when unstable: a second path if and only if the primary is unstable and
      another eligible path is within budget; and then the first such. */
  lemma WhenUnstableSays(s: Sched, in_: Input)
    requires in_.eligible != [] && s.havePrimary && !(s.switching && s.switchingTo in in_.sendable) && in_.c.mode == WhenUnstable
    ensures var d := BuildTx(s, in_);
            && d == Decision(d.tx, s.primary, true, false) && 1 <= |d.tx| <= 2 && d.tx[0] == s.primary
            && (|d.tx| == 2 <==> s.primary in in_.unstable && exists i :: Within(in_.eligible, i, s.primary))
            && (|d.tx| == 2 ==> IsFirst(in_.eligible, s.primary, d.tx[1]))
  {
    SparesFirst(s.primary, in_.eligible);
  }

  /** During a handover: both its ends, and nothing else. */
  lemma HandoverSends(s: Sched, in_: Input)
    requires in_.eligible != [] && s.havePrimary && s.switching && s.switchingTo in in_.sendable
    ensures BuildTx(s, in_) == Decision([s.primary, s.switchingTo], s.primary, true, false)
  {
  }

  /** With no path eligible, or no primary: everything that can be sent on, in order. */
  lemma BlindSays(s: Sched, in_: Input)
    requires in_.eligible == [] || !s.havePrimary
    ensures var d := BuildTx(s, in_);
            && (forall id: Path :: id in d.tx <==> id in in_.sendable && id.id < 256)
            && (forall k, m :: 0 <= k < m < |d.tx| ==> d.tx[k].id < d.tx[m].id)
            && d == Decision(d.tx, s.primary, s.havePrimary, d.tx != [])
  {
    AscendingHas(in_.sendable, 256);
    forall id: Path ensures id in Ascending(in_.sendable, 256) <==> id in in_.sendable && id.id < 256 {
    }
  }

  // ----- the primary

  /** Within budget, and not measured too small for the load with its headroom. */
  predicate Fits(p: Scored, load: real, c: Config) {
    p.green && (p.shapedKbps > 0.0 ==> (p.sendKbps + load) * (1.0 + c.headroomPercent / 100.0) <= p.shapedKbps)
  }

  /** With nothing eligible the primary is kept, and any handover given up. */
  lemma NothingEligibleSays(s: Sched, in_: Input)
    requires in_.eligible == []
    ensures Choose(s, in_) == s.(switching := false)
  {
  }

  /** With no primary, or none eligible, the best is taken as it is. */
  lemma NoPrimarySays(s: Sched, in_: Input)
    requires in_.eligible != [] && !s.switching && (!s.havePrimary || forall i :: !At(in_.eligible, i, s.primary))
    ensures Choose(s, in_)
            == s.(primary := in_.eligible[0].id, havePrimary := true, switching := false, challengerFor := 0)
  {
    if s.havePrimary {
      PathNowhere(in_.eligible, s.primary);
      assert !At(in_.eligible, 0, s.primary);
    }
  }

  /** A handover is over exactly when the target has been confirmed since it began and
      the least overlap is past, or the most is, or the path being left is gone: the
      target is the primary then. With the target gone it is given up, and otherwise it
      goes on. */
  lemma HandoverSays(s: Sched, in_: Input)
    requires in_.eligible != [] && s.switching && DistinctIds(in_.eligible)
    ensures var z, c := Choose(s, in_), in_.c;
            var most := if c.mbbMaxMs < c.mbbMinMs then c.mbbMinMs else c.mbbMaxMs;
            && ((forall i :: !At(in_.eligible, i, s.switchingTo)) ==> z == s.(switching := false))
            && (forall i :: At(in_.eligible, i, s.switchingTo) ==>
                  z == if || (in_.eligible[i].confirmedAt > s.since && in_.now - s.since >= c.mbbMinMs * 1_000_000)
                          || in_.now - s.since >= most * 1_000_000
                          || forall k :: !At(in_.eligible, k, s.switchFrom)
                       then s.(primary := s.switchingTo, havePrimary := true, switching := false) else s)
  {
    if forall i :: !At(in_.eligible, i, s.switchingTo) {
      PathNowhere(in_.eligible, s.switchingTo);
    } else {
      var i :| At(in_.eligible, i, s.switchingTo);
      PathAt(in_.eligible, i, s.switchingTo);
      if k :| At(in_.eligible, k, s.switchFrom) {
        PathAt(in_.eligible, k, s.switchFrom);
      } else {
        PathNowhere(in_.eligible, s.switchFrom);
      }
      forall k | At(in_.eligible, k, s.switchingTo) ensures k == i {
      }
    }
  }

  /** The primary stands at place i, is no longer good enough, and something is better. */
  predicate FallsShort(s: Sched, in_: Input, i: nat)
    requires At(in_.eligible, i, s.primary)
  {
    i > 0 && in_.eligible[i].score < in_.c.minAcceptable && in_.eligible[0].score > in_.eligible[i].score
  }

  /** The best beats the primary, at place i, by more than the margin, and can carry its
      load. */
  predicate Outdone(s: Sched, in_: Input, i: nat)
    requires At(in_.eligible, i, s.primary)
  {
    && i > 0 && !FallsShort(s, in_, i)
    && in_.eligible[0].score > in_.eligible[i].score + in_.c.switchMargin
    && Fits(in_.eligible[0], in_.eligible[i].sendKbps, in_.c)
  }

  /** A path better than a failing primary, and able to take its load. */
  predicate Able(s: Sched, in_: Input, i: nat, k: int)
    requires At(in_.eligible, i, s.primary)
  {
    && 0 <= k < |in_.eligible| && k != i && in_.eligible[k].score > in_.eligible[i].score
    && Fits(in_.eligible[k], in_.eligible[i].sendKbps, in_.c)
  }

  /** While no handover is on: a failing primary is left for the first able path, or for
      the best where none is; a working one only for a best path that has outdone it
      often enough running; and nothing else moves it. */
  lemma SettledSays(s: Sched, in_: Input, i: nat)
    requires s.havePrimary && !s.switching && DistinctIds(in_.eligible) && At(in_.eligible, i, s.primary)
    ensures var z, best := Choose(s, in_), in_.eligible[0].id;
            var times := if s.challenger == best then s.challengerFor + 1 else 1;
            && (FallsShort(s, in_, i) ==>
                  && z == s.(switching := true, switchFrom := s.primary, switchingTo := z.switchingTo, since := in_.now,
                             challengerFor := 0)
                  && ((exists k :: Able(s, in_, i, k) && in_.eligible[k].id == z.switchingTo
                                   && forall m :: 0 <= m < k ==> !Able(s, in_, i, m))
                      || (z.switchingTo == best && forall k :: !Able(s, in_, i, k))))
            && (Outdone(s, in_, i) ==>
                  z == if times >= in_.c.switchHold
                       then s.(challenger := best, switching := true, switchFrom := s.primary, switchingTo := best,
                               since := in_.now, challengerFor := 0)
                       else s.(challenger := best, challengerFor := times))
            && (!FallsShort(s, in_, i) && !Outdone(s, in_, i) ==> z == s.(challengerFor := 0))
  {
    PathAt(in_.eligible, i, s.primary);
    assert in_.eligible[0].id != s.primary <==> i > 0;
    if FallsShort(s, in_, i) {
      EscapesAt(s, in_, i);
    }
  }

  lemma EscapesAt(s: Sched, in_: Input, i: nat)
    requires s.havePrimary && DistinctIds(in_.eligible) && At(in_.eligible, i, s.primary)
    ensures var to := EscapeTo(s, in_.eligible[i].score, in_.eligible, in_.c);
            || (exists k :: Able(s, in_, i, k) && in_.eligible[k].id == to && forall m :: 0 <= m < k ==> !Able(s, in_, i, m))
            || (to == in_.eligible[0].id && forall k :: !Able(s, in_, i, k))
  {
    PathAt(in_.eligible, i, s.primary);
    var cur, load := in_.eligible[i].score, in_.eligible[i].sendKbps;
    EscapeIsFirst(s.primary, cur, load, in_.eligible, in_.c);
    forall k | 0 <= k < |in_.eligible|
      ensures Able(s, in_, i, k) <==> SchedulerRuns.Able(in_.eligible[k], s.primary, cur, load, in_.c)
    {
      assert in_.eligible[k].id == s.primary <==> k == i;
    }
    match Escape(s.primary, cur, load, in_.eligible, in_.c)
    case Some(id) =>
      var k: nat :| FirstAble(in_.eligible, k, s.primary, cur, load, in_.c) && in_.eligible[k].id == id;
      assert Able(s, in_, i, k);
    case None =>
  }

  // ----- a path that goes on outdoing the primary gets it

  /** At this evaluation the best, q, outdid the primary, with no handover on. */
  ghost predicate Outdid(k: Tick, q: Path) {
    && k.before.havePrimary && !k.before.switching && k.in_.eligible != [] && k.in_.eligible[0].id == q
    && exists i: nat :: At(k.in_.eligible, i, k.before.primary) && Outdone(k.before, k.in_, i)
  }

  /** How many evaluations running, the last one among them. */
  ghost function Streak(ticks: seq<Tick>, q: Path): nat {
    if ticks == [] || !Outdid(ticks[|ticks| - 1], q) then 0 else Streak(ticks[..|ticks| - 1], q) + 1
  }

  lemma StreakOn(ticks: seq<Tick>, k: Tick, q: Path)
    ensures Streak(ticks + [k], q) == if Outdid(k, q) then Streak(ticks, q) + 1 else 0
  {
    assert (ticks + [k])[..|ticks|] == ticks;
  }

  /** A streak is counted until it is acted on. */
  ghost predicate Followed(t: Trace, q: Path) {
    && t.s.challengerFor >= 0
    && (Streak(t.ticks, q) > 0 ==>
          (t.s.switching && t.s.switchingTo == q)
          || (!t.s.switching && t.s.challenger == q
              && Streak(t.ticks, q) <= t.s.challengerFor < t.ticks[|t.ticks| - 1].in_.c.switchHold))
  }

  lemma StepFollowed(t: Trace, in_: Input, q: Path)
    requires Followed(t, q) && Proper(in_)
    ensures Followed(Step(t, in_), q)
  {
    var z := Step(t, in_);
    var k := z.ticks[|t.ticks|];
    StreakOn(t.ticks, k, q);
    if Outdid(k, q) {
      var i: nat :| At(in_.eligible, i, t.s.primary) && Outdone(t.s, in_, i);
      SettledSays(t.s, in_, i);
    }
  }

  lemma {:induction false} RunFollowed(t: Trace, ins: seq<Input>, q: Path)
    requires Followed(t, q) && AllProper(ins)
    ensures Followed(Run(t, ins), q)
    decreases |ins|
  {
    hide Step, Followed;
    if ins != [] {
      StepFollowed(t, ins[0], q);
      RunFollowed(Step(t, ins[0]), ins[1..], q);
    }
  }

  /** In every run, once a path has outdone the primary for as many evaluations running as
      the configuration asks, the call is being handed to it. */
  lemma SustainedIsFollowed(ins: seq<Input>, q: Path)
    requires AllProper(ins) && ins != []
    requires var t := Run(START, ins);
             |t.ticks| > 0 && Streak(t.ticks, q) > 0 && Streak(t.ticks, q) >= t.ticks[|t.ticks| - 1].in_.c.switchHold
    ensures var t := Run(START, ins); t.s.switching && t.s.switchingTo == q
  {
    hide Run;
    RunFollowed(START, ins, q);
  }
}
