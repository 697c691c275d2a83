/** The resequencer of internal/relay/reseq.go: four thousand buckets, the bound on
    what they hold together, and the sweep. */
module Reseq {
  import opened Bytes
  import opened Collections
  import opened Serial
  import opened FlowBucket
  import opened FlowMoves
  import opened FlowTimes
  import opened FlowRuns
  import opened Ring
  import opened RingBucket
  import opened BucketTable

  const MAX_BUFFERED := 16384
  const MAX_PATHS := 256

  // ----- the hold

  /** What gaps were predicted and observed to need, and the hold that gives. */
  datatype GapClock = GapClock(predicted: int, maxHold: int, hold: int, cur: nat, prev: nat, windowAt: int) {
    function Recompute(now: int): (r: GapClock)
      ensures r.hold <= r.maxHold
    {
      var g := if now - windowAt >= 2 * GAP_WINDOW then this.(prev := 0, cur := 0) else this;
      var observed := if g.prev > g.cur then g.prev else g.cur;
      var o := observed * 5 / 4;
      var wanted := if o > predicted then o else predicted;
      g.(hold := if wanted > maxHold then maxHold else wanted)
    }

    function Observe(d: int, now: int): (r: GapClock)
      ensures r.hold <= r.maxHold
    {
      var g := if now - windowAt >= GAP_WINDOW then this.(prev := cur, cur := 0, windowAt := now) else this;
      g.(cur := if d > g.cur then d else g.cur).Recompute(now)
    }

    /** The delays of the paths predict a hold, and the settings cap it. */
    function Predict(hold: int, max: int, now: int): GapClock {
      this.(predicted := hold, maxHold := max).Recompute(now)
    }

    function Hear(told: Gap, now: int): GapClock {
      match told
      case Untold => this
      case Took(d) => Observe(d, now)
    }
  }

  /** A gap just seen is held for with a quarter to spare, unless the cap is less. */
  lemma HoldCoversGap(g: GapClock, d: int, now: int)
    requires 0 <= d
    ensures var h := g.Observe(d, now).hold;
            h == g.maxHold || (h >= d * 5 / 4 && h >= g.predicted)
  {
  }

  /** One entry for each of the 256 paths. */
  predicate Seen(p: Paths) {
    |p.seen| == MAX_PATHS && p.maxPath < MAX_PATHS
  }

  // ----- all the buckets' histories

  function HeldIn(hist: seq<Hist>): nat {
    if hist == [] then 0 else |hist[0].b.held| + HeldIn(hist[1..])
  }

  function BucketsOf(hist: seq<Hist>): seq<Bucket> {
    if hist == [] then [] else [hist[0].b] + BucketsOf(hist[1..])
  }

  /** The buckets holding something. */
  function WaitingIn(hist: seq<Hist>): (r: set<nat>)
    ensures forall i :: i in r ==> i < |hist|
  {
    set i: nat | i < |hist| && hist[i].b.held != map[]
  }

  /** A bucket's history is good and its times are not ahead of the clock. */
  ghost predicate Sane(h: Hist, clock: int) {
    Good(h) && h.b.Timed(clock)
  }

  ghost predicate AllSane(hist: seq<Hist>, clock: int) {
    hist == [] || (Sane(hist[0], clock) && AllSane(hist[1..], clock))
  }

  lemma {:induction false} SaneAt(hist: seq<Hist>, clock: int, i: nat)
    requires i < |hist| && AllSane(hist, clock)
    ensures Sane(hist[i], clock)
  {
    hide Sane;
    if i > 0 {
      SaneAt(hist[1..], clock, i - 1);
    }
  }

  lemma {:induction false} BucketsAt(hist: seq<Hist>)
    ensures |BucketsOf(hist)| == |hist|
    ensures forall i :: 0 <= i < |hist| ==> BucketsOf(hist)[i] == hist[i].b
  {
    if hist != [] {
      BucketsAt(hist[1..]);
    }
  }

  // One bucket moves on: the rest keep their share of every total.

  lemma {:induction false} SaneMoves(hist: seq<Hist>, clock: int, i: nat, h: Hist)
    requires i < |hist| && AllSane(hist, clock) && Sane(h, clock)
    ensures AllSane(hist[i := h], clock)
  {
    hide Sane;
    if i == 0 {
      assert hist[0 := h][1..] == hist[1..];
    } else {
      assert hist[i := h][1..] == hist[1..][i - 1 := h];
      SaneMoves(hist[1..], clock, i - 1, h);
    }
  }

  lemma {:induction false} HeldMoves(hist: seq<Hist>, i: nat, h: Hist)
    requires i < |hist|
    ensures HeldIn(hist[i := h]) == HeldIn(hist) - |hist[i].b.held| + |h.b.held|
  {
    if i == 0 {
      assert hist[0 := h][1..] == hist[1..];
    } else {
      assert hist[i := h][1..] == hist[1..][i - 1 := h];
      HeldMoves(hist[1..], i - 1, h);
    }
  }

  lemma BucketsMove(hist: seq<Hist>, i: nat, h: Hist)
    requires i < |hist|
    ensures |BucketsOf(hist)| == |hist| && BucketsOf(hist[i := h]) == BucketsOf(hist)[i := h.b]
  {
    BucketsAt(hist);
    BucketsAt(hist[i := h]);
  }

  lemma WaitingMoves(hist: seq<Hist>, i: nat, h: Hist)
    requires i < |hist|
    ensures WaitingIn(hist[i := h]) == if h.b.held == map[] then WaitingIn(hist) - {i} else WaitingIn(hist) + {i}
  {
  }

  /** Nothing has happened to any bucket. */
  predicate AllStart(hist: seq<Hist>) {
    forall i :: 0 <= i < |hist| ==> hist[i] == START
  }

  lemma {:induction false} StartSane(hist: seq<Hist>)
    requires AllStart(hist)
    ensures AllSane(hist, 0) && HeldIn(hist) == 0
  {
    StartGood();
    if hist != [] {
      StartSane(hist[1..]);
    }
  }

  class Resequencer {
    const table: Table
    var waiting: set<nat>
    var buffered: int
    var gap: GapClock
    var paths: Paths
    var delivered: nat
    /** What has been written to the tunnel. */
    var written: seq<Payload>

    /** Each bucket's history, and the latest time any operation was given. */
    ghost var hist: seq<Hist>
    ghost var clock: int

    /** The total is the sum over the buckets, and the waiting set is exactly the
        buckets holding something. */
    ghost predicate Core()
      reads this, table, table.buckets, table.Repr
    {
      && this !in table.Repr && table in table.Repr && table.Valid()
      && |hist| == FLOW_BUCKETS && BucketsOf(hist) == table.views
      && buffered == HeldIn(hist)
      && waiting == WaitingIn(hist)
      && Seen(paths)
    }

    ghost predicate Valid()
      reads this, table, table.buckets, table.Repr
    {
      Core() && AllSane(hist, clock) && buffered <= MAX_BUFFERED
    }

    constructor (hold: int, maxHold: int)
      ensures Valid() && fresh(table.Repr) && written == [] && |hist| == FLOW_BUCKETS && AllStart(hist) && clock == 0
    {
      hide AllSane;
      table := new Table();
      waiting, buffered, delivered, written := {}, 0, 0, [];
      gap := GapClock(hold, maxHold, hold, 0, 0, 0);
      paths := Paths(seq(MAX_PATHS, _ => 0), 0);
      hist, clock := seq(FLOW_BUCKETS, _ => START), 0;
      new;
      StartSane(hist);
      BucketsAt(hist);
    }

    /** Hands payloads to the tunnel. */
    method Write(texts: seq<Payload>)
      modifies this`written, this`delivered
      ensures written == old(written) + texts && delivered == old(delivered) + |texts|
    {
      written, delivered := written + texts, delivered + |texts|;
    }

    /** Brings the total and the waiting set up to date with bucket i, which held
        this many before and has moved on to h. */
    method Recount(i: nat, before: nat, ghost h: Hist)
      requires this !in table.Repr && table in table.Repr && table.Valid()
      requires |hist| == FLOW_BUCKETS && i < FLOW_BUCKETS
      requires |BucketsOf(hist)| == FLOW_BUCKETS && table.views == BucketsOf(hist)[i := h.b]
      requires before == |hist[i].b.held|
      requires buffered == HeldIn(hist) && waiting == WaitingIn(hist) && Seen(paths)
      modifies this`buffered, this`waiting, this`hist
      ensures Core() && hist == old(hist)[i := h]
      ensures buffered == old(buffered) - before + |h.b.held|
    {
      hide Table.Valid, BucketsOf, HeldIn, WaitingIn, Seen;
      var held := table.HeldBy(i);
      HeldMoves(hist, i, h);
      BucketsMove(hist, i, h);
      WaitingMoves(hist, i, h);
      hist := hist[i := h];
      buffered := buffered - before + held;
      if held == 0 {
        NoneAbove(h.b.held);
        waiting := waiting - {i};
      } else {
        waiting := waiting + {i};
      }
    }

    /** Gives up on the gap at the front of bucket i. */
    method GiveUpOn(i: nat)
      requires Core() && i in waiting
      modifies this`written, this`delivered, this`buffered, this`waiting, this`hist, table.Repr
      ensures Core() && fresh(table.Repr - old(table.Repr)) && table.buckets[..] == old(table.buckets[..])
      ensures hist == old(hist)[i := GaveUp(old(hist)[i])]
      ensures written == old(written) + Texts(ResumeOut(old(hist)[i].b, Lowest(old(hist)[i].b.held)))
    {
      hide Table.Valid, BucketsOf, HeldIn, Seen;
      ghost var g := GaveUp(hist[i]);
      assert table.views[i] == hist[i].b by { BucketsAt(hist); }
      BucketsMove(hist, i, g);
      var before := table.HeldBy(i);
      var texts := table.SkipToHeld(i);
      Write(texts);
      Recount(i, before, g);
    }

    /** An arrival at bucket i. */
    method Take(i: nat, now: int, path: nat, n: FlowSeq, payload: Payload)
      returns (told: Gap, done: bool, kept: bool)
      requires Core() && i < FLOW_BUCKETS && table.buckets[i] != null
      modifies this`written, this`delivered, this`buffered, this`waiting, this`hist, table.Repr
      ensures Core() && fresh(table.Repr - old(table.Repr))
      ensures table.buckets[i] != null
      ensures var h := old(hist)[i];
              var a := Arrive(h.b, now, path, n, payload);
              && hist == old(hist)[i := Arrives(h, now, path, n, payload)]
              && written == old(written) + Texts(a.closing + a.out)
              && done == a.done && kept == a.kept
              && told == GapTold(Touched(h.b, now, path, n), now, PositionOf(Wake(h.b, now), n))
    {
      hide Table.Valid, BucketsOf, HeldIn, WaitingIn, Seen, Arrive, PositionOf, Wake, GapTold, Touched;
      ghost var g := Arrives(hist[i], now, path, n, payload);
      assert table.views[i] == hist[i].b by { BucketsAt(hist); }
      BucketsMove(hist, i, g);
      var before := table.HeldBy(i);
      var texts;
      texts, told, done, kept := table.Arrive(i, now, path, n, payload);
      Write(texts);
      Recount(i, before, g);
    }

    /** Gives up on the passed gaps of bucket i. */
    method CheckGaps(i: nat, now: int)
      requires Core() && i < FLOW_BUCKETS && table.buckets[i] != null
      modifies this`written, this`delivered, this`buffered, this`waiting, this`hist, table.Repr
      ensures Core() && fresh(table.Repr - old(table.Repr)) && table.buckets[..] == old(table.buckets[..])
      ensures var h := old(hist)[i];
              && hist == old(hist)[i := GapsChecked(h, now, paths)]
              && written == old(written) + Texts(PassOut(h.b, paths, now))
    {
      hide PassOut, Table.Valid, BucketsOf, HeldIn, WaitingIn;
      ghost var g := GapsChecked(hist[i], now, paths);
      assert table.views[i] == hist[i].b by { BucketsAt(hist); }
      BucketsMove(hist, i, g);
      var before := table.HeldBy(i);
      var texts := table.SkipPassedGaps(i, paths, now);
      Write(texts);
      Recount(i, before, g);
    }

    method SweepBucket(i: nat, now: int)
      requires Valid() && i in waiting
      modifies this`written, this`delivered, this`buffered, this`waiting, this`hist, table.Repr
      ensures Valid() && fresh(table.Repr - old(table.Repr)) && table.buckets[..] == old(table.buckets[..])
      ensures hist == old(hist)[i := Swept(old(hist)[i], now, gap.hold)]
      ensures written == old(written) + Texts(TimeOutOut(old(hist)[i].b, now, gap.hold))
    {
      hide Swept, TimeOutOut, AllSane, Table.Valid, BucketsOf, HeldIn;
      SweepKeeps(hist, clock, i, now, gap.hold);
      Present(i);
      TimeOut(i, now);
    }

    /** A waiting bucket is there. */
    lemma Present(i: nat)
      requires Core() && i in waiting
      ensures table.buckets[i] != null
    {
      BucketsAt(hist);
      assert table.SlotOk(i);
    }

    method TimeOut(i: nat, now: int)
      requires Core() && i < FLOW_BUCKETS && table.buckets[i] != null
      modifies this`written, this`delivered, this`buffered, this`waiting, this`hist, table.Repr
      ensures Core() && fresh(table.Repr - old(table.Repr)) && table.buckets[..] == old(table.buckets[..])
      ensures hist == old(hist)[i := Swept(old(hist)[i], now, gap.hold)]
      ensures written == old(written) + Texts(TimeOutOut(old(hist)[i].b, now, gap.hold))
    {
      hide TimeOutOut, Table.Valid, BucketsOf, HeldIn, WaitingIn, Seen;
      ghost var g := Swept(hist[i], now, gap.hold);
      assert table.views[i] == hist[i].b by { BucketsAt(hist); }
      BucketsMove(hist, i, g);
      var before := table.HeldBy(i);
      var texts := table.TimeOut(i, now, gap.hold);
      Write(texts);
      Recount(i, before, g);
    }

    method ResetBucket(i: nat)
      requires Valid() && i < FLOW_BUCKETS
      modifies this`written, this`delivered, this`buffered, this`waiting, this`hist, table.Repr
      ensures Valid() && fresh(table.Repr - old(table.Repr))
      ensures hist == old(hist)[i := Closed(old(hist)[i])]
      ensures written == old(written) + Texts(FlushOut(old(hist)[i].b))
    {
      ClosedKeeps(hist, clock, i);
      Close(i);
    }

    method Close(i: nat)
      requires Core() && i < FLOW_BUCKETS
      modifies this`written, this`delivered, this`buffered, this`waiting, this`hist, table.Repr
      ensures Core() && fresh(table.Repr - old(table.Repr))
      ensures hist == old(hist)[i := Closed(old(hist)[i])]
      ensures written == old(written) + Texts(FlushOut(old(hist)[i].b))
    {
      hide Table.Valid, BucketsOf, HeldIn, WaitingIn, Seen;
      ghost var g := Closed(hist[i]);
      assert table.views[i] == hist[i].b by { BucketsAt(hist); }
      BucketsMove(hist, i, g);
      var before := table.HeldBy(i);
      var texts := table.Reset(i);
      Write(texts);
      Recount(i, before, g);
    }

    // ----- the operations

    /** The waiting bucket whose gap has been waited on longest. */
    method Oldest() returns (j: nat)
      requires Core() && waiting != {}
      ensures j in waiting && forall k :: k in waiting ==> hist[j].b.gapSince <= hist[k].b.gapSince
    {
      BucketsAt(hist);
      j :| j in waiting;
      var _, least := FrontOf(j);
      var todo := waiting - {j};
      while todo != {}
        invariant todo <= waiting && j in waiting && least == hist[j].b.gapSince
        invariant forall k :: k in waiting && k !in todo ==> least <= hist[k].b.gapSince
      {
        var k :| k in todo;
        var _, since := FrontOf(k);
        if since < least {
          j, least := k, since;
        }
        todo := todo - {k};
      }
    }

    method FrontOf(i: nat) returns (held: nat, since: int)
      requires Core() && i in waiting
      ensures held == |hist[i].b.held| && since == hist[i].b.gapSince
    {
      BucketsAt(hist);
      assert table.SlotOk(i);
      held, since := table.Front(i);
    }

    /** Gives up on the gap that has been waited on longest. */
    method ForceOldest() returns (ghost j: nat)
      requires Core() && AllSane(hist, clock) && buffered > MAX_BUFFERED
      modifies this`written, this`delivered, this`buffered, this`waiting, this`hist, table.Repr
      ensures Core() && AllSane(hist, clock) && buffered < old(buffered)
      ensures fresh(table.Repr - old(table.Repr)) && table.buckets[..] == old(table.buckets[..])
      ensures IsForced(old(hist), ForcedOn(j))
      ensures hist == AfterForce(old(hist), ForcedOn(j))
      ensures written == old(written) + Texts(ForceOut(old(hist), ForcedOn(j)))
    {
      hide GaveUp, ResumeOut, Table.Valid, BucketsOf, AllSane, Seen;
      SomethingWaits(hist);
      var oldest := Oldest();
      j := oldest;
      GiveUpKeeps(hist, clock, j);
      GiveUpOn(oldest);
    }

    /** While the bound is broken, the oldest gap is given up on. One packet more
        than the bound allows is the most there ever is, so one gap is enough. */
    method StayInBound() returns (ghost forced: Forced)
      requires Core() && AllSane(hist, clock) && buffered <= MAX_BUFFERED + 1
      modifies this`written, this`delivered, this`buffered, this`waiting, this`hist, table.Repr
      ensures Valid() && fresh(table.Repr - old(table.Repr)) && table.buckets[..] == old(table.buckets[..])
      ensures IsForced(old(hist), forced)
      ensures hist == AfterForce(old(hist), forced)
      ensures written == old(written) + Texts(ForceOut(old(hist), forced))
    {
      forced := NotForced;
      while buffered > MAX_BUFFERED
        invariant Core() && AllSane(hist, clock) && buffered <= MAX_BUFFERED + 1
        invariant fresh(table.Repr - old(table.Repr)) && table.buckets[..] == old(table.buckets[..])
        invariant forced.ForcedOn? ==> buffered <= MAX_BUFFERED && IsForced(old(hist), forced)
        invariant hist == AfterForce(old(hist), forced)
        invariant written == old(written) + Texts(ForceOut(old(hist), forced))
        decreases buffered
      {
        var j := ForceOldest();
        forced := ForcedOn(j);
      }
    }

    method SetPredictedHold(hold: int, max: int, now: int)
      requires Valid()
      modifies this`gap
      ensures Valid() && gap == old(gap).Predict(hold, max, now)
    {
      gap := gap.Predict(hold, max, now);
    }

    /** Learns from an arrival: how long its gap took, and that its path is
        carrying spread bulk. */
    method Learn(path: nat, now: int, told: Gap)
      requires Core() && path < MAX_PATHS
      modifies this`gap, this`paths
      ensures Core() && gap == old(gap).Hear(told, now)
      ensures paths == Saw(old(paths), path, now)
    {
      gap := gap.Hear(told, now);
      paths := Saw(paths, path, now);
    }

    /** The arrival, before the bound and the passed gaps are seen to. */
    method Admit(i: nat, now: int, path: nat, n: FlowSeq, payload: Payload) returns (done: bool, ghost t: Taking)
      requires Core() && i < FLOW_BUCKETS && path < MAX_PATHS
      modifies this`written, this`delivered, this`buffered, this`waiting, this`hist, this`gap, this`paths, table.Repr
      ensures Core() && fresh(table.Repr - old(table.Repr)) && table.buckets[i] != null
      ensures paths == Saw(old(paths), path, now)
      ensures gap == old(gap).Hear(t.told, now)
      ensures t == Taken(old(hist), i, now, path, n, payload)
      ensures hist == t.hist && written == old(written) + t.texts && done == t.done
    {
      t := Taken(hist, i, now, path, n, payload);
      table.BucketAt(i);
      var told, kept;
      told, done, kept := Take(i, now, path, n, payload);
      Learn(path, now, told);
    }

    /** After an arrival: back inside the bound, then past what every path has
        passed. */
    method Relieve(i: nat, now: int, done: bool) returns (ghost forced: Forced)
      requires Core() && AllSane(hist, clock) && buffered <= MAX_BUFFERED + 1
      requires i < FLOW_BUCKETS && table.buckets[i] != null
      modifies this`written, this`delivered, this`buffered, this`waiting, this`hist, table.Repr
      ensures Valid() && fresh(table.Repr - old(table.Repr))
      ensures IsForced(old(hist), forced)
      ensures hist == Relieved(old(hist), i, now, done, forced, paths)
      ensures written == RelievedTexts(old(written), old(hist), i, now, done, forced, paths)
    {
      hide IsForced, AfterForce, ForceOut, GapsChecked, PassOut, BucketsOf, HeldIn, WaitingIn, AllSane;
      forced := StayInBound();
      if !done {
        CheckKeeps(hist, clock, i, now, paths);
        CheckGaps(i, now);
      }
    }

    /** The arrival as a step of the clock. */
    method Enter(i: nat, now: int, path: nat, n: FlowSeq, payload: Payload) returns (done: bool, ghost t: Taking)
      requires Valid() && i < FLOW_BUCKETS && path < MAX_PATHS && clock <= now
      modifies this, table.Repr
      ensures Core() && fresh(table.Repr - old(table.Repr)) && table.buckets[i] != null
      ensures clock == now && AllSane(hist, clock) && buffered <= MAX_BUFFERED + 1
      ensures t == Taken(old(hist), i, now, path, n, payload)
      ensures hist == t.hist && written == old(written) + t.texts && done == t.done
      ensures paths == Saw(old(paths), path, now) && gap == old(gap).Hear(t.told, now)
    {
      hide Taken, Saw, GapClock.Hear, Table.Valid, BucketsOf, HeldIn, WaitingIn, AllSane;
      TakenKeeps(hist, clock, i, now, path, n, payload);
      done, t := Admit(i, now, path, n, payload);
      clock := now;
    }

    /** Accepts one bulk payload that carried a flow sequence, and delivers it and
        anything it releases. */
    method Push(pathID: nat, bucket: nat, sequence: Seq32, payload: Payload, now: int)
      returns (ghost t: Taking, ghost forced: Forced)
      requires Valid() && pathID < MAX_PATHS && clock <= now
      modifies this, table.Repr
      ensures Valid() && fresh(table.Repr - old(table.Repr)) && clock == now
      ensures paths == Saw(old(paths), pathID, now) && gap == old(gap).Hear(t.told, now)
      ensures t == Taken(old(hist), bucket % FLOW_BUCKETS, now, pathID, sequence % FLOW_SPACE, payload)
      ensures IsForced(t.hist, forced)
      ensures hist == Relieved(t.hist, bucket % FLOW_BUCKETS, now, t.done, forced, paths)
      ensures written
              == RelievedTexts(old(written) + t.texts, t.hist, bucket % FLOW_BUCKETS, now, t.done, forced, paths)
    {
      // What the two steps promise is passed on as it stands.
      hide Taken, Relieved, RelievedTexts, Table.Valid, BucketsOf, HeldIn, WaitingIn, AllSane;
      var i := bucket % FLOW_BUCKETS;
      var done;
      done, t := Enter(i, now, pathID, sequence % FLOW_SPACE, payload);
      forced := Relieve(i, now, done);
    }

    /** Time passes. */
    ghost method Tick(now: int)
      requires Valid() && clock <= now
      modifies this`clock
      ensures Valid() && clock == now
    {
      AllLater(hist, clock, now);
      clock := now;
    }

    /** Gives up on every gap that has waited out the hold. The waiting buckets
        come in no particular order: order is the one taken. */
    method SweepOnce(now: int) returns (ghost order: seq<nat>)
      requires Valid() && clock <= now
      modifies this, table.Repr
      ensures Valid() && fresh(table.Repr - old(table.Repr)) && clock == now
      ensures |order| == |old(waiting)| && forall i: nat :: i in order <==> i in old(waiting)
      ensures hist == SweptAll(old(hist), order, now, gap.hold) && gap == old(gap) && paths == old(paths)
      ensures written == SweptTexts(old(written), old(hist), order, now, gap.hold)
    {
      hide SweptAll, SweptTexts, Table.Valid, BucketsOf, HeldIn, WaitingIn, AllSane;
      Tick(now);
      order := SweepWaiting(now);
    }

    method SweepWaiting(now: int) returns (ghost order: seq<nat>)
      requires Valid()
      modifies this`written, this`delivered, this`buffered, this`waiting, this`hist, table.Repr
      ensures Valid() && fresh(table.Repr - old(table.Repr))
      ensures |order| == |old(waiting)| && forall i: nat :: i in order <==> i in old(waiting)
      ensures hist == SweptAll(old(hist), order, now, gap.hold)
      ensures written == SweptTexts(old(written), old(hist), order, now, gap.hold)
    {
      hide Swept, TimeOutOut, Table.Valid, BucketsOf, AllSane, HeldIn, WaitingIn;
      order := [];
      var todo := waiting;
      while todo != {}
        invariant Valid() && fresh(table.Repr - old(table.Repr))
        invariant todo <= waiting && todo <= old(waiting)
        invariant |order| + |todo| == |old(waiting)|
        invariant forall i: nat :: i in order <==> i in old(waiting) && i !in todo
        invariant hist == SweptAll(old(hist), order, now, gap.hold)
        invariant written == SweptTexts(old(written), old(hist), order, now, gap.hold)
      {
        var i :| i in todo;
        SweptOn(old(written), old(hist), order, i, now, gap.hold);
        WaitingMoves(hist, i, Swept(hist[i], now, gap.hold));
        SweepBucket(i, now);
        order, todo := order + [i], todo - {i};
      }
    }

    /** Abandons every expectation, delivering what is held: the peer's counters
        start again. */
    method Reset()
      requires Valid()
      modifies this, table.Repr
      ensures Valid() && fresh(table.Repr - old(table.Repr)) && clock == old(clock)
      ensures hist == ClosedUpTo(old(hist), FLOW_BUCKETS) && gap == old(gap) && paths == old(paths)
      ensures written == ClosedTexts(old(written), old(hist), FLOW_BUCKETS)
    {
      hide Closed, Table.Valid, BucketsOf, WaitingIn, HeldIn, AllSane;
      for i := 0 to FLOW_BUCKETS
        invariant Valid() && fresh(table.Repr - old(table.Repr)) && clock == old(clock)
        invariant gap == old(gap) && paths == old(paths)
        invariant hist == ClosedUpTo(old(hist), i)
        invariant written == ClosedTexts(old(written), old(hist), i)
      {
        ClosedUpToStep(old(hist), i);
        ResetBucket(i);
      }
    }

    /** Forgets the buckets that have been idle too long. */
    method Expire(now: int)
      requires Valid()
      modifies this, table.Repr
      ensures Valid() && fresh(table.Repr - old(table.Repr)) && clock == old(clock)
      ensures hist == ExpiredUpTo(old(hist), FLOW_BUCKETS, now) && gap == old(gap) && paths == old(paths)
      ensures written == old(written) && buffered == old(buffered)
    {
      hide Expired, Table.Valid, BucketsOf, WaitingIn, HeldIn, AllSane, Seen;
      for i := 0 to FLOW_BUCKETS
        invariant Valid() && fresh(table.Repr - old(table.Repr)) && clock == old(clock)
        invariant gap == old(gap) && paths == old(paths)
        invariant hist == ExpiredUpTo(old(hist), i, now)
        invariant written == old(written) && buffered == old(buffered)
      {
        ExpiredUpToStep(old(hist), i, now);
        ExpiredKeeps(hist, clock, i, now);
        ExpireBucket(i, now);
      }
    }

    method ExpireBucket(i: nat, now: int)
      requires Core() && i < FLOW_BUCKETS
      modifies this`buffered, this`waiting, this`hist, table.Repr
      ensures Core() && fresh(table.Repr - old(table.Repr)) && buffered == old(buffered)
      ensures hist == old(hist)[i := Expired(old(hist)[i], now)]
    {
      hide Table.Valid, BucketsOf, HeldIn, WaitingIn, Seen;
      ghost var g := Expired(hist[i], now);
      assert table.views[i] == hist[i].b by { BucketsAt(hist); }
      BucketsMove(hist, i, g);
      var before := table.HeldBy(i);
      table.Expire(i, now);
      Recount(i, before, g);
    }
  }

  // ----- one push, on the buckets' histories

  datatype Forced = NotForced | ForcedOn(j: nat)

  /** A gap is forced exactly when the bound is broken, and it is one waited on
      longest. */
  ghost predicate IsForced(hist: seq<Hist>, forced: Forced) {
    && (forced.ForcedOn? <==> HeldIn(hist) > 16384)
    && (forced.ForcedOn? ==>
          && forced.j in WaitingIn(hist)
          && forall k :: k in WaitingIn(hist) ==> hist[forced.j].b.gapSince <= hist[k].b.gapSince)
  }

  ghost function AfterForce(hist: seq<Hist>, forced: Forced): (r: seq<Hist>)
    ensures |r| == |hist|
  {
    if forced.ForcedOn? && forced.j in WaitingIn(hist) then hist[forced.j := GaveUp(hist[forced.j])] else hist
  }

  ghost function ForceOut(hist: seq<Hist>, forced: Forced): seq<Out> {
    if forced.ForcedOn? && forced.j in WaitingIn(hist)
    then ResumeOut(hist[forced.j].b, Lowest(hist[forced.j].b.held)) else []
  }

  /** The histories just after an arrival, and what it wrote. */
  datatype Taking = Taking(hist: seq<Hist>, texts: seq<Payload>, done: bool, told: Gap)

  ghost function Taken(hist: seq<Hist>, i: nat, now: int, path: nat, n: FlowSeq, payload: Payload): Taking
    requires i < |hist|
  {
    var a := Arrive(hist[i].b, now, path, n, payload);
    Taking(hist[i := Arrives(hist[i], now, path, n, payload)], Texts(a.closing + a.out), a.done,
           GapTold(Touched(hist[i].b, now, path, n), now, PositionOf(Wake(hist[i].b, now), n)))
  }

  /** What follows the arrival: the forced gap, then the passed ones. */
  ghost function Relieved(hist: seq<Hist>, i: nat, now: int, done: bool, forced: Forced, paths: Paths): seq<Hist>
    requires i < |hist| && paths.maxPath < |paths.seen|
  {
    var after := AfterForce(hist, forced);
    if done then after else after[i := GapsChecked(after[i], now, paths)]
  }

  /** What the tunnel has been given by then. */
  ghost function RelievedTexts(written: seq<Payload>, hist: seq<Hist>, i: nat, now: int, done: bool, forced: Forced,
                               paths: Paths): seq<Payload>
    requires i < |hist| && paths.maxPath < |paths.seen|
  {
    var w := written + Texts(ForceOut(hist, forced));
    if done then w else w + Texts(PassOut(AfterForce(hist, forced)[i].b, paths, now))
  }

  // ----- the operations on every bucket

  ghost function SweptAll(hist: seq<Hist>, order: seq<nat>, now: int, hold: int): (r: seq<Hist>)
    ensures |r| == |hist|
  {
    if order == [] then hist
    else
      var last := |order| - 1;
      var r := SweptAll(hist, order[..last], now, hold);
      if order[last] < |hist| then r[order[last] := Swept(r[order[last]], now, hold)] else r
  }

  ghost function SweptTexts(written: seq<Payload>, hist: seq<Hist>, order: seq<nat>, now: int, hold: int): seq<Payload>
  {
    if order == [] then written
    else
      var last := |order| - 1;
      var r := SweptAll(hist, order[..last], now, hold);
      var w := SweptTexts(written, hist, order[..last], now, hold);
      if order[last] < |hist| then w + Texts(TimeOutOut(r[order[last]].b, now, hold)) else w
  }

  lemma SweptOn(written: seq<Payload>, hist: seq<Hist>, order: seq<nat>, i: nat, now: int, hold: int)
    requires i < |hist|
    ensures var r := SweptAll(hist, order, now, hold);
            && SweptAll(hist, order + [i], now, hold) == r[i := Swept(r[i], now, hold)]
            && SweptTexts(written, hist, order + [i], now, hold)
               == SweptTexts(written, hist, order, now, hold) + Texts(TimeOutOut(r[i].b, now, hold))
  {
    assert (order + [i])[..|order|] == order;
  }

  /** After a sweep the packet nearest to next has waited less than the hold in
      every bucket, and a second sweep at the same time finds nothing to do. */
  lemma {:induction false} SweepEnforcesHold(hist: seq<Hist>, order: seq<nat>, now: int, hold: int, k: nat)
    requires k < |hist| && AllSane(hist, now)
    requires k in order || hist[k].b.held == map[]
    ensures var b := SweptAll(hist, order, now, hold)[k].b;
            && b.Timed(now)
            && (b.held != map[] ==> now - b.gapSince < hold && now - b.held[Lowest(b.held)].at < hold)
            && TimeOut(b, now, hold) == b
  {
    SaneAt(hist, now, k);
    SweptAt(hist, order, now, hold, k);
    if k in order {
      SweptInTime(hist[k].b, now, hold, now);
      TimeOutStops(hist[k].b, now, hold);
    }
  }

  lemma {:induction false} TimeOutStops(b: Bucket, now: int, hold: int)
    ensures var r := TimeOut(b, now, hold);
            (r.held != map[] ==> now - r.gapSince < hold) && TimeOut(r, now, hold) == r
    decreases b.held.Keys
  {
    if b.held != map[] && now - b.gapSince >= hold {
      TimeOutStops(SkipToHeld(b.(lastSkipAt := now, lastSkipHold := hold)), now, hold);
    }
  }

  lemma {:induction false} SweptAt(hist: seq<Hist>, order: seq<nat>, now: int, hold: int, k: nat)
    requires k < |hist|
    ensures k !in order ==> SweptAll(hist, order, now, hold)[k] == hist[k]
    ensures k in order ==> SweptAll(hist, order, now, hold)[k].b == TimeOut(hist[k].b, now, hold)
  {
    if order != [] {
      var last := |order| - 1;
      SweptAt(hist, order[..last], now, hold, k);
      assert order == order[..last] + [order[last]];
      TimeOutStops(hist[k].b, now, hold);
    }
  }

  function ClosedUpTo(hist: seq<Hist>, n: nat): (r: seq<Hist>)
    requires n <= |hist|
    ensures |r| == |hist|
  {
    if n == 0 then hist else ClosedUpTo(hist, n - 1)[n - 1 := Closed(hist[n - 1])]
  }

  function ClosedTexts(written: seq<Payload>, hist: seq<Hist>, n: nat): seq<Payload>
    requires n <= |hist|
  {
    if n == 0 then written else ClosedTexts(written, hist, n - 1) + Texts(FlushOut(hist[n - 1].b))
  }

  lemma {:induction false} ClosedUpToRest(hist: seq<Hist>, n: nat, k: nat)
    requires n <= k < |hist|
    ensures ClosedUpTo(hist, n)[k] == hist[k]
  {
    if n > 0 {
      ClosedUpToRest(hist, n - 1, k);
    }
  }

  lemma ClosedUpToStep(hist: seq<Hist>, n: nat)
    requires n < |hist|
    ensures ClosedUpTo(hist, n)[n] == hist[n]
    ensures ClosedUpTo(hist, n + 1) == ClosedUpTo(hist, n)[n := Closed(hist[n])]
  {
    ClosedUpToRest(hist, n, n);
  }

  function ExpiredUpTo(hist: seq<Hist>, n: nat, now: int): (r: seq<Hist>)
    requires n <= |hist|
    ensures |r| == |hist|
  {
    if n == 0 then hist else ExpiredUpTo(hist, n - 1, now)[n - 1 := Expired(hist[n - 1], now)]
  }

  lemma {:induction false} ExpiredUpToRest(hist: seq<Hist>, n: nat, k: nat, now: int)
    requires n <= k < |hist|
    ensures ExpiredUpTo(hist, n, now)[k] == hist[k]
  {
    if n > 0 {
      ExpiredUpToRest(hist, n - 1, k, now);
    }
  }

  lemma ExpiredUpToStep(hist: seq<Hist>, n: nat, now: int)
    requires n < |hist|
    ensures ExpiredUpTo(hist, n, now)[n] == hist[n]
    ensures ExpiredUpTo(hist, n + 1, now) == ExpiredUpTo(hist, n, now)[n := Expired(hist[n], now)]
  {
    ExpiredUpToRest(hist, n, n, now);
  }

  lemma {:induction false} SomethingWaits(hist: seq<Hist>)
    requires HeldIn(hist) > 0
    ensures WaitingIn(hist) != {}
  {
    if hist[0].b.held == map[] {
      SomethingWaits(hist[1..]);
      var k :| k in WaitingIn(hist[1..]);
      assert k + 1 in WaitingIn(hist);
    } else {
      assert 0 in WaitingIn(hist);
    }
  }

  // ----- what each operation keeps in all the buckets

  lemma {:induction false} AllLater(hist: seq<Hist>, clock: int, now: int)
    requires AllSane(hist, clock) && clock <= now
    ensures AllSane(hist, now)
  {
    if hist != [] {
      AllLater(hist[1..], clock, now);
    }
  }

  lemma ArrivalSane(h: Hist, now: int, path: nat, n: FlowSeq, payload: Payload)
    requires Sane(h, now)
    ensures Sane(Arrives(h, now, path, n, payload), now)
    ensures |Arrives(h, now, path, n, payload).b.held|
            <= |h.b.held| + (if Arrive(h.b, now, path, n, payload).kept then 1 else 0)
  {
    GoodIsValid(h);
    ArrivalGood(h, now, path, n, payload);
    ArriveTimed(h.b, now, now, path, n, payload);
    ArriveHeld(h.b, now, path, n, payload);
    hide Good, Arrive;
  }

  lemma ArrivalKeeps(hist: seq<Hist>, i: nat, now: int, path: nat, n: FlowSeq, payload: Payload)
    requires i < |hist| && AllSane(hist, now)
    ensures AllSane(hist[i := Arrives(hist[i], now, path, n, payload)], now)
    ensures HeldIn(hist[i := Arrives(hist[i], now, path, n, payload)])
            <= HeldIn(hist) + (if Arrive(hist[i].b, now, path, n, payload).kept then 1 else 0)
  {
    SaneAt(hist, now, i);
    ArrivalSane(hist[i], now, path, n, payload);
    hide Sane, Arrive, Arrives;
    SaneMoves(hist, now, i, Arrives(hist[i], now, path, n, payload));
    HeldMoves(hist, i, Arrives(hist[i], now, path, n, payload));
  }

  lemma TakenKeeps(hist: seq<Hist>, clock: int, i: nat, now: int, path: nat, n: FlowSeq, payload: Payload)
    requires i < |hist| && AllSane(hist, clock) && clock <= now
    ensures AllSane(Taken(hist, i, now, path, n, payload).hist, now)
    ensures HeldIn(Taken(hist, i, now, path, n, payload).hist) <= HeldIn(hist) + 1
  {
    AllLater(hist, clock, now);
    ArrivalKeeps(hist, i, now, path, n, payload);
  }

  lemma GiveUpSane(h: Hist, clock: int)
    requires Sane(h, clock) && h.b.held != map[]
    ensures h.b.Valid() && Sane(GaveUp(h), clock)
  {
    GoodIsValid(h);
    GiveUpGood(h);
    hide Good;
    ResumeTimed(h.b, Lowest(h.b.held), clock);
  }

  lemma GiveUpFewer(h: Hist)
    requires h.b.Valid() && h.b.held != map[]
    ensures |GaveUp(h).b.held| < |h.b.held|
  {
    SkipShrinks(h.b);
  }

  lemma GiveUpKeeps(hist: seq<Hist>, clock: int, i: nat)
    requires i < |hist| && AllSane(hist, clock) && hist[i].b.held != map[]
    ensures AllSane(hist[i := GaveUp(hist[i])], clock)
    ensures HeldIn(hist[i := GaveUp(hist[i])]) < HeldIn(hist)
  {
    var h := hist[i];
    SaneAt(hist, clock, i);
    GiveUpSane(h, clock);
    GiveUpFewer(h);
    hide Sane, GaveUp;
    SaneMoves(hist, clock, i, GaveUp(h));
    HeldMoves(hist, i, GaveUp(h));
  }

  lemma CheckSane(h: Hist, clock: int, now: int, paths: Paths)
    requires Sane(h, clock) && paths.maxPath < |paths.seen|
    ensures Sane(GapsChecked(h, now, paths), clock)
  {
    hide Good;
    PassCheckGood(h, now, paths);
    PassGapsTimed(h.b, paths, now, clock);
  }

  lemma CheckFewer(h: Hist, now: int, paths: Paths)
    requires h.b.Valid() && paths.maxPath < |paths.seen|
    ensures |GapsChecked(h, now, paths).b.held| <= |h.b.held|
  {
    PassGapsMoves(h.b, paths, now);
    FewerEntries(PassGaps(h.b, paths, now).held, h.b.held);
  }

  lemma CheckKeeps(hist: seq<Hist>, clock: int, i: nat, now: int, paths: Paths)
    requires i < |hist| && AllSane(hist, clock) && paths.maxPath < |paths.seen|
    ensures AllSane(hist[i := GapsChecked(hist[i], now, paths)], clock)
    ensures HeldIn(hist[i := GapsChecked(hist[i], now, paths)]) <= HeldIn(hist)
  {
    SaneAt(hist, clock, i);
    CheckSane(hist[i], clock, now, paths);
    CheckFewer(hist[i], now, paths);
    SaneMoves(hist, clock, i, GapsChecked(hist[i], now, paths));
    HeldMoves(hist, i, GapsChecked(hist[i], now, paths));
  }

  lemma SweepSane(h: Hist, clock: int, now: int, hold: int)
    requires Sane(h, clock)
    ensures Sane(Swept(h, now, hold), clock)
  {
    hide Good, TimeOut, TimeOutOut;
    SweepGood(h, now, hold);
    SweptInTime(h.b, now, hold, clock);
  }

  lemma SweepFewer(h: Hist, now: int, hold: int)
    requires h.b.Valid()
    ensures |Swept(h, now, hold).b.held| <= |h.b.held|
  {
    TimeOutMoves(h.b, now, hold);
    FewerEntries(TimeOut(h.b, now, hold).held, h.b.held);
  }

  lemma SweepKeeps(hist: seq<Hist>, clock: int, i: nat, now: int, hold: int)
    requires i < |hist| && AllSane(hist, clock)
    ensures AllSane(hist[i := Swept(hist[i], now, hold)], clock)
    ensures HeldIn(hist[i := Swept(hist[i], now, hold)]) <= HeldIn(hist)
  {
    SaneAt(hist, clock, i);
    SweepSane(hist[i], clock, now, hold);
    SweepFewer(hist[i], now, hold);
    SaneMoves(hist, clock, i, Swept(hist[i], now, hold));
    HeldMoves(hist, i, Swept(hist[i], now, hold));
  }

  lemma ClosedKeeps(hist: seq<Hist>, clock: int, i: nat)
    requires i < |hist| && AllSane(hist, clock)
    ensures AllSane(hist[i := Closed(hist[i])], clock)
    ensures HeldIn(hist[i := Closed(hist[i])]) <= HeldIn(hist)
  {
    SaneAt(hist, clock, i);
    ResetGood(hist[i]);
    SaneMoves(hist, clock, i, Closed(hist[i]));
    HeldMoves(hist, i, Closed(hist[i]));
  }

  lemma ExpiredKeeps(hist: seq<Hist>, clock: int, i: nat, now: int)
    requires i < |hist| && AllSane(hist, clock)
    ensures AllSane(hist[i := Expired(hist[i], now)], clock)
    ensures HeldIn(hist[i := Expired(hist[i], now)]) == HeldIn(hist)
  {
    SaneAt(hist, clock, i);
    if hist[i].b.held == map[] {
      ExpireGood(hist[i]);
    }
    SaneMoves(hist, clock, i, Expired(hist[i], now));
    HeldMoves(hist, i, Expired(hist[i], now));
  }

  /** Every push ends inside the bound: at most one packet more than it can be held
      after the arrival, and then the oldest gap is given up. */
  lemma PushKeepsBound(hist: seq<Hist>, clock: int, i: nat, now: int, path: nat, n: FlowSeq, payload: Payload,
                       forced: Forced, paths: Paths)
    requires i < |hist| && AllSane(hist, clock) && clock <= now && paths.maxPath < |paths.seen|
    requires HeldIn(hist) <= 16384
    requires IsForced(Taken(hist, i, now, path, n, payload).hist, forced)
    ensures var t := Taken(hist, i, now, path, n, payload);
            && HeldIn(t.hist) <= 16385
            && AllSane(Relieved(t.hist, i, now, t.done, forced, paths), now)
            && HeldIn(Relieved(t.hist, i, now, t.done, forced, paths)) <= 16384
  {
    TakenKeeps(hist, clock, i, now, path, n, payload);
    RelievedBound(Taken(hist, i, now, path, n, payload).hist, now, i, now,
                  Taken(hist, i, now, path, n, payload).done, forced, paths);
  }

  lemma RelievedBound(hist: seq<Hist>, clock: int, i: nat, now: int, done: bool, forced: Forced, paths: Paths)
    requires i < |hist| && AllSane(hist, clock) && paths.maxPath < |paths.seen|
    requires HeldIn(hist) <= MAX_BUFFERED + 1 && IsForced(hist, forced)
    ensures AllSane(Relieved(hist, i, now, done, forced, paths), clock)
    ensures HeldIn(Relieved(hist, i, now, done, forced, paths)) <= MAX_BUFFERED
  {
    if forced.ForcedOn? {
      GiveUpKeeps(hist, clock, forced.j);
    }
    CheckKeeps(AfterForce(hist, forced), clock, i, now, paths);
  }
}
