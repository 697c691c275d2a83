/** Whole runs of the scheduler: make-before-break, stickiness, and never silent. */
module SchedulerRuns {
  import opened Collections
  import opened Ids
  import opened Scheduler

  /** One evaluation: the state it found, what it was given, and what it published. */
  datatype Tick = Tick(before: Sched, in_: Input, d: Decision)

  /** A scheduler and every evaluation so far; began is where the latest handover
      started. */
  datatype Trace = Trace(s: Sched, ticks: seq<Tick>, began: nat)

  const START := Trace(NEW, [], 0)

  /** Eligible paths are distinct, and can all be transmitted on. */
  predicate Proper(in_: Input) {
    && DistinctIds(in_.eligible)
    && (forall i :: 0 <= i < |in_.eligible| ==> in_.eligible[i].id in in_.sendable)
    && (forall id :: id in in_.sendable ==> id.id < PATHS)
  }

  function Step(t: Trace, in_: Input): Trace {
    var s := Choose(t.s, in_);
    var ticks := t.ticks + [Tick(t.s, in_, BuildTx(s, in_))];
    Trace(s, ticks, if s.switching && !t.s.switching then |t.ticks| else t.began)
  }

  function Run(t: Trace, ins: seq<Input>): Trace
    decreases |ins|
  {
    if ins == [] then t else Run(Step(t, ins[0]), ins[1..])
  }

  predicate AllProper(ins: seq<Input>) {
    forall i :: 0 <= i < |ins| ==> Proper(ins[i])
  }

  lemma {:induction false} RunJoin(t: Trace, ins: seq<Input>, in_: Input)
    ensures Run(t, ins + [in_]) == Step(Run(t, ins), in_)
    decreases |ins|
  {
    hide Step;
    var all := ins + [in_];
    if ins == [] {
      assert all[1..] == [];
      assert Run(Step(t, in_), []) == Step(t, in_);
    } else {
      assert all[1..] == ins[1..] + [in_];
      RunJoin(Step(t, ins[0]), ins[1..], in_);
    }
  }

  // ----- make before break

  /** While a handover is on, every decision since it began sends real-time on
      exactly the path being left and the one being taken. */
  predicate Overlapping(t: Trace) {
    t.s.switching ==>
      && t.s.havePrimary && t.s.switchFrom == t.s.primary && t.s.switchingTo != t.s.primary
      && t.began < |t.ticks| && t.ticks[t.began].in_.now == t.s.since
      && forall k :: t.began <= k < |t.ticks| ==> t.ticks[k].d.tx == [t.s.primary, t.s.switchingTo]
  }

  /** Better than the failing primary, and able to take its load. */
  predicate Able(p: Scored, primary: Path, cur: real, load: real, c: Config) {
    p.id != primary && p.score > cur && CanTake(p, load, c)
  }

  /** The first able path, where there is one. */
  predicate FirstAble(eligible: seq<Scored>, i: nat, primary: Path, cur: real, load: real, c: Config) {
    i < |eligible| && Able(eligible[i], primary, cur, load, c)
    && forall j :: 0 <= j < i ==> !Able(eligible[j], primary, cur, load, c)
  }

  lemma {:induction false} EscapeIsFirst(primary: Path, cur: real, load: real, eligible: seq<Scored>, c: Config)
    ensures var r := Escape(primary, cur, load, eligible, c);
            match r
            case Some(id) => exists i: nat :: FirstAble(eligible, i, primary, cur, load, c) && eligible[i].id == id
            case None => forall i :: 0 <= i < |eligible| ==> !Able(eligible[i], primary, cur, load, c)
  {
    if eligible != [] {
      if Able(eligible[0], primary, cur, load, c) {
        assert FirstAble(eligible, 0, primary, cur, load, c);
      } else {
        EscapeIsFirst(primary, cur, load, eligible[1..], c);
        var r := Escape(primary, cur, load, eligible[1..], c);
        if r.Some? {
          var i: nat :| FirstAble(eligible[1..], i, primary, cur, load, c) && eligible[1..][i].id == r.value;
          assert FirstAble(eligible, i + 1, primary, cur, load, c);
        }
      }
    }
  }

  lemma {:induction false} FoundIsEligible(id: Path, eligible: seq<Scored>, i: nat)
    requires i < |eligible| && eligible[i].id == id
    ensures Eligible(id, eligible)
  {
  }

  /** A handover goes to an eligible path that is not the primary. */
  lemma BeginsElsewhere(s: Sched, in_: Input)
    requires in_.eligible != [] && !s.switching && Choose(s, in_).switching
    ensures var z := Choose(s, in_);
            && z.havePrimary && z.switchFrom == z.primary == s.primary && z.switchingTo != z.primary && z.since == in_.now
            && Eligible(z.primary, in_.eligible) && Eligible(z.switchingTo, in_.eligible)
  {
    if Failing(s, in_) {
      var cur := PathOf(s.primary, in_.eligible).value.score;
      var load := Offered(s, in_.eligible);
      EscapeIsFirst(s.primary, cur, load, in_.eligible, in_.c);
      var to := Choose(s, in_).switchingTo;
      if Escape(s.primary, cur, load, in_.eligible, in_.c).Some? {
        var i: nat :| FirstAble(in_.eligible, i, s.primary, cur, load, in_.c) && in_.eligible[i].id == to;
        FoundIsEligible(to, in_.eligible, i);
      }
    }
  }

  /** While a handover is on after an evaluation, both its ends are eligible. */
  lemma BothEndsEligible(t: Trace, in_: Input)
    requires Overlapping(t) && Choose(t.s, in_).switching
    ensures var z := Choose(t.s, in_);
            in_.eligible != [] && Eligible(z.primary, in_.eligible) && Eligible(z.switchingTo, in_.eligible)
  {
    if !t.s.switching && in_.eligible != [] {
      BeginsElsewhere(t.s, in_);
    }
  }

  lemma StepOverlapping(t: Trace, in_: Input)
    requires Overlapping(t) && Proper(in_)
    ensures Overlapping(Step(t, in_))
  {
    var z := Step(t, in_);
    if z.s.switching {
      BothEndsEligible(t, in_);
      assert z.s.switchingTo in in_.sendable;
      if !t.s.switching {
        BeginsElsewhere(t.s, in_);
      }
    }
  }

  lemma {:induction false} RunOverlapping(t: Trace, ins: seq<Input>)
    requires Overlapping(t) && AllProper(ins)
    ensures Overlapping(Run(t, ins))
    decreases |ins|
  {
    if ins != [] {
      StepOverlapping(t, ins[0]);
      RunOverlapping(Step(t, ins[0]), ins[1..]);
    }
  }

  /** The primary leaves an eligible path only out of a handover, once the overlap is
      over. */
  lemma LeftAfterOverlap(t: Trace, in_: Input)
    requires Overlapping(t) && t.s.havePrimary && Eligible(t.s.primary, in_.eligible)
    requires Choose(t.s, in_).primary != t.s.primary
    ensures t.s.switching && Choose(t.s, in_).primary == t.s.switchingTo
    ensures in_.now - t.s.since >= in_.c.MbbMin() && Eligible(t.s.switchingTo, in_.eligible)
    ensures PathOf(t.s.switchingTo, in_.eligible).value.confirmedAt > t.s.since || in_.now - t.s.since >= in_.c.MbbMax()
  {
  }

  /** Make before break, in every run: the primary leaves a path that is still
      eligible only for one it has been sending on beside it, and on nothing else,
      in every decision since a handover began at least the minimum overlap ago;
      and the other end has confirmed it since then, or the maximum is over. */
  lemma MadeBeforeBroken(ins: seq<Input>, in_: Input, t: Trace)
    requires AllProper(ins) && Proper(in_) && t == Run(START, ins)
    requires t.s.havePrimary && Eligible(t.s.primary, in_.eligible) && Choose(t.s, in_).primary != t.s.primary
    ensures var p, q := t.s.primary, Choose(t.s, in_).primary;
            && t.s.switching && t.began < |t.ticks|
            && in_.now - t.ticks[t.began].in_.now >= in_.c.MbbMin()
            && (forall k :: t.began <= k < |t.ticks| ==> t.ticks[k].d.tx == [p, q])
            && Eligible(q, in_.eligible)
            && (PathOf(q, in_.eligible).value.confirmedAt > t.ticks[t.began].in_.now
                || in_.now - t.ticks[t.began].in_.now >= in_.c.MbbMax())
  {
    hide Choose;
    RunOverlapping(START, ins);
    LeftAfterOverlap(t, in_);
  }

  // ----- stickiness

  /** At this evaluation the best path was q, better than the primary by the margin
      and able to take its load. */
  predicate Favours(k: Tick, q: Path) {
    k.in_.eligible != [] && Challenges(k.before, k.in_) && k.in_.eligible[0].id == q
  }

  /** For how many evaluations running q has been favoured, not counting those with
      nothing eligible. */
  function Favoured(ticks: seq<Tick>, q: Path): nat {
    if ticks == [] then 0
    else
      var last, rest := ticks[|ticks| - 1], ticks[..|ticks| - 1];
      if last.in_.eligible == [] then Favoured(rest, q)
      else if Favours(last, q) then Favoured(rest, q) + 1
      else 0
  }

  predicate Counted(t: Trace) {
    && t.s.challengerFor <= Favoured(t.ticks, t.s.challenger)
    && (t.s.switching ==> t.s.challengerFor == 0)
  }

  lemma FavouredOn(ticks: seq<Tick>, k: Tick, q: Path)
    ensures Favoured(ticks + [k], q)
            == if k.in_.eligible == [] then Favoured(ticks, q) else if Favours(k, q) then Favoured(ticks, q) + 1 else 0
  {
    assert (ticks + [k])[..|ticks|] == ticks;
  }

  lemma StepCounted(t: Trace, in_: Input)
    requires Counted(t)
    ensures Counted(Step(t, in_))
  {
    FavouredOn(t.ticks, Tick(t.s, in_, BuildTx(Choose(t.s, in_), in_)), Choose(t.s, in_).challenger);
  }

  lemma {:induction false} RunCounted(t: Trace, ins: seq<Input>)
    requires Counted(t)
    ensures Counted(Run(t, ins))
    decreases |ins|
  {
    if ins != [] {
      StepCounted(t, ins[0]);
      RunCounted(Step(t, ins[0]), ins[1..]);
    }
  }

  /** Stickiness, in every run: while the primary works well enough, a handover
      begins only to a path that has been better by the margin, and able to take
      the load, for as many evaluations running as the configuration asks. */
  lemma MovedOnlyForSustained(ins: seq<Input>, in_: Input)
    requires var t := Run(START, ins);
             && in_.eligible != [] && !t.s.switching && Choose(t.s, in_).switching && !Failing(t.s, in_)
    ensures var z := Step(Run(START, ins), in_);
            && z.s.switchingTo == in_.eligible[0].id
            && Favoured(z.ticks, z.s.switchingTo) >= in_.c.switchHold
  {
    RunCounted(START, ins);
    var t := Run(START, ins);
    FavouredOn(t.ticks, Tick(t.s, in_, BuildTx(Choose(t.s, in_), in_)), in_.eligible[0].id);
  }

  /** And while it is failing, to the first better path that can take the load, or
      to the best where none can. */
  lemma EscapesToTheFirstAble(s: Sched, in_: Input)
    requires in_.eligible != [] && Failing(s, in_)
    ensures var z := Choose(s, in_);
            var cur := PathOf(s.primary, in_.eligible).value;
            && z.switching
            && ((exists i: nat :: FirstAble(in_.eligible, i, s.primary, cur.score, cur.sendKbps, in_.c)
                             && in_.eligible[i].id == z.switchingTo)
                || (z.switchingTo == in_.eligible[0].id
                    && forall i :: 0 <= i < |in_.eligible| ==>
                         !Able(in_.eligible[i], s.primary, cur.score, cur.sendKbps, in_.c)))
  {
    var cur := PathOf(s.primary, in_.eligible).value;
    EscapeIsFirst(s.primary, cur.score, cur.sendKbps, in_.eligible, in_.c);
  }

  // ----- never silent

  lemma {:induction false} AscendingHas(ids: set<Path>, n: nat)
    ensures forall i :: 0 <= i < |Ascending(ids, n)| ==> Ascending(ids, n)[i].id < n && Ascending(ids, n)[i] in ids
    ensures forall i, j :: 0 <= i < j < |Ascending(ids, n)| ==> Ascending(ids, n)[i].id < Ascending(ids, n)[j].id
    ensures forall id: Path :: id.id < n && id in ids ==> id in Ascending(ids, n)
  {
    if n > 0 {
      AscendingHas(ids, n - 1);
    }
  }

  /** An eligible path other than the primary, within budget. */
  predicate Spare(primary: Path, eligible: seq<Scored>, id: Path) {
    id != primary && exists i :: 0 <= i < |eligible| && eligible[i].id == id && eligible[i].green
  }

  predicate AllSpare(primary: Path, eligible: seq<Scored>, ids: seq<Path>) {
    forall k :: 0 <= k < |ids| ==> Spare(primary, eligible, ids[k])
  }

  lemma SpareAlso(primary: Path, first: Scored, rest: seq<Scored>, ids: seq<Path>)
    requires AllSpare(primary, rest, ids) && DistinctIds([first] + rest)
    ensures AllSpare(primary, [first] + rest, ids)
    ensures forall k :: 0 <= k < |ids| ==> ids[k] != first.id
  {
    var all := [first] + rest;
    forall k | 0 <= k < |ids| ensures Spare(primary, all, ids[k]) && ids[k] != first.id {
      assert Spare(primary, rest, ids[k]);
      var i :| 0 <= i < |rest| && rest[i].id == ids[k] && rest[i].green;
      assert all[0] == first && all[i + 1] == rest[i];
    }
  }

  lemma {:induction false} SparesAre(primary: Path, eligible: seq<Scored>)
    requires DistinctIds(eligible)
    ensures AllSpare(primary, eligible, Spares(primary, eligible)) && Distinct(Spares(primary, eligible))
    ensures forall i :: 0 <= i < |eligible| && eligible[i].green && eligible[i].id != primary ==>
              eligible[i].id in Spares(primary, eligible)
  {
    if eligible != [] {
      var first, rest := eligible[0], eligible[1..];
      assert eligible == [first] + rest;
      SparesAre(primary, rest);
      SpareAlso(primary, first, rest, Spares(primary, rest));
      if first.id != primary && first.green {
        assert Spare(primary, eligible, first.id);
        assert Spares(primary, eligible) == [first.id] + Spares(primary, rest);
      } else {
        assert Spares(primary, eligible) == Spares(primary, rest);
      }
    }
  }

  /** With anything to send on, real-time is sent on something; where a path is
      eligible, on the primary first, and where none is, on every path there is. */
  lemma NeverSilent(t: Trace, in_: Input)
    requires Overlapping(t) && Proper(in_) && in_.sendable != {}
    ensures var d := BuildTx(Choose(t.s, in_), in_);
            && d.tx != []
            && (in_.eligible != [] ==> !d.blind && d.havePrimary && d.tx[0] == d.primary)
            && (in_.eligible == [] ==> d.blind && forall id: Path :: id in in_.sendable ==> id in d.tx)
  {
    if in_.eligible == [] {
      AscendingHas(in_.sendable, PATHS);
      var id: Path :| id in in_.sendable;
      assert id in Ascending(in_.sendable, PATHS);
    } else if !t.s.switching && Choose(t.s, in_).switching {
      BeginsElsewhere(t.s, in_);
    }
  }

  /** The copies beside the primary's are the handover's or within budget. */
  predicate Copies(s: Sched, eligible: seq<Scored>, tx: seq<Path>) {
    forall k :: 1 <= k < |tx| ==> (s.switching && tx[k] == s.switchingTo) || Spare(s.primary, eligible, tx[k])
  }

  lemma BesidePrimary(s: Sched, eligible: seq<Scored>, spares: seq<Path>)
    requires Distinct(spares) && AllSpare(s.primary, eligible, spares)
    ensures Distinct([s.primary] + spares) && Copies(s, eligible, [s.primary] + spares)
    ensures spares != [] ==> Distinct([s.primary, spares[0]]) && Copies(s, eligible, [s.primary, spares[0]])
  {
  }

  /** No path is sent the same packet twice, and every copy beside the primary's is
      the handover's or within budget. */
  lemma SentOnce(t: Trace, in_: Input)
    requires Overlapping(t) && Proper(in_)
    ensures Distinct(BuildTx(Choose(t.s, in_), in_).tx)
    ensures in_.eligible != [] ==> Copies(Choose(t.s, in_), in_.eligible, BuildTx(Choose(t.s, in_), in_).tx)
  {
    if in_.eligible != [] {
      Settles(t, in_);
    }
    OnceEach(Choose(t.s, in_), in_);
  }

  predicate Settled(s: Sched) {
    s.havePrimary && (s.switching ==> s.switchingTo != s.primary)
  }

  lemma Settles(t: Trace, in_: Input)
    requires Overlapping(t) && Proper(in_) && in_.eligible != []
    ensures Settled(Choose(t.s, in_))
  {
    if !t.s.switching && Choose(t.s, in_).switching {
      BeginsElsewhere(t.s, in_);
    }
  }

  lemma {:induction false} AscendingDistinct(ids: set<Path>, n: nat)
    ensures Distinct(Ascending(ids, n)) && forall p: Path :: p in Ascending(ids, n) ==> p.id < n
  {
    if n > 0 {
      AscendingDistinct(ids, n - 1);
      var last := if Path(n - 1) in ids then [Path(n - 1)] else [];
      DistinctJoin(Ascending(ids, n - 1), last);
    }
  }

  lemma OnceEach(s: Sched, in_: Input)
    requires Proper(in_) && (in_.eligible != [] ==> Settled(s))
    ensures Distinct(BuildTx(s, in_).tx)
    ensures in_.eligible != [] ==> Copies(s, in_.eligible, BuildTx(s, in_).tx)
  {
    hide BuildTx, Ascending, Spares, Distinct, Copies;
    SparesAre(s.primary, in_.eligible);
    BesidePrimary(s, in_.eligible, Spares(s.primary, in_.eligible));
    InHandover(s, in_.eligible);
    AscendingDistinct(in_.sendable, PATHS);
    TxForms(s, in_);
  }

  lemma InHandover(s: Sched, eligible: seq<Scored>)
    ensures Distinct([s.primary]) && Copies(s, eligible, [s.primary])
    ensures s.switching && s.switchingTo != s.primary ==>
              Distinct([s.primary, s.switchingTo]) && Copies(s, eligible, [s.primary, s.switchingTo])
  {
    assert [s.primary, s.switchingTo][1..] == [s.switchingTo];
  }

  lemma TxForms(s: Sched, in_: Input)
    requires in_.eligible != [] ==> s.havePrimary
    ensures var tx, spares := BuildTx(s, in_).tx, Spares(s.primary, in_.eligible);
            if in_.eligible == [] then tx == Ascending(in_.sendable, PATHS)
            else
              || (s.switching && tx == [s.primary, s.switchingTo])
              || tx == [s.primary] + spares || tx == [s.primary]
              || (spares != [] && tx == [s.primary, spares[0]])
  {
  }

  /** With a path eligible, the primary published is eligible - except, exactly, at
      an evaluation that abandons a handover because its target is gone when the
      path being left is gone too. */
  lemma PrimaryIsAlive(t: Trace, in_: Input)
    requires Overlapping(t) && in_.eligible != []
    ensures Eligible(Choose(t.s, in_).primary, in_.eligible)
            <==> !(t.s.switching && !Eligible(t.s.switchingTo, in_.eligible) && !Eligible(t.s.primary, in_.eligible))
  {
    FoundIsEligible(in_.eligible[0].id, in_.eligible, 0);
  }

  /** The next evaluation with an eligible path repairs it. */
  lemma DeadPrimaryIsRepaired(t: Trace, in_: Input, next: Input)
    requires Overlapping(t) && in_.eligible != [] && next.eligible != []
    requires !Eligible(Choose(t.s, in_).primary, in_.eligible)
    ensures Eligible(Choose(Choose(t.s, in_), next).primary, next.eligible)
  {
    FoundIsEligible(next.eligible[0].id, next.eligible, 0);
  }

  function Fine(id: nat, score: real): Scored {
    Scored(Path(id), score, 0, 0.0, 0.0, true)
  }

  /** Path 0 is adopted; it fails, and the call is being handed to path 1 when both
      vanish, path 2 being fine. */
  function Vanishing(c: Config): seq<Input> {
    [Input(100, c, [Fine(0, 90.0)], {Path(0), Path(1)}, {}),
     Input(120, c, [Fine(1, 90.0), Fine(0, 10.0)], {Path(0), Path(1)}, {}),
     Input(140, c, [Fine(2, 90.0)], {Path(2)}, {})]
  }

  /** That evaluation happens: at the third of these, from the start, real-time is
      sent on path 0 alone, which is gone. */
  lemma BothEndsVanish(c: Config)
    requires c.mode == Single && 10.0 < c.minAcceptable
    ensures var ins := Vanishing(c);
            var z := Run(START, ins);
            && AllProper(ins) && |z.ticks| == 3
            && z.ticks[2].d == Decision([Path(0)], Path(0), true, false)
            && !Eligible(Path(0), ins[2].eligible)
  {
    var ins := Vanishing(c);
    var t1 := Step(START, ins[0]);
    assert t1.s == NEW.(primary := Path(0), havePrimary := true);
    var t2 := Step(t1, ins[1]);
    Begins(t1.s, ins[1]);
    var t3 := Step(t2, ins[2]);
    assert !Eligible(Path(1), ins[2].eligible) && !Eligible(Path(0), ins[2].eligible);
    assert ins[1..][1..] == [ins[2]] && [ins[2]][1..] == [];
    assert Run(t2, [ins[2]]) == t3;
    assert Run(t1, ins[1..]) == t3;
  }

  lemma Begins(s: Sched, in_: Input)
    requires s == NEW.(primary := Path(0), havePrimary := true)
    requires in_.eligible == [Fine(1, 90.0), Fine(0, 10.0)] && 10.0 < in_.c.minAcceptable
    ensures Choose(s, in_) == s.(switching := true, switchFrom := Path(0), switchingTo := Path(1), since := in_.now)
  {
    assert PathOf(Path(0), in_.eligible) == Some(Fine(0, 10.0)) by {
      assert PathOf(Path(0), in_.eligible[1..]) == Some(Fine(0, 10.0));
    }
  }
}
