/** When a bucket gives a gap up, and what it tells of one, in the numbers of the source:
    a mark counts for a second, a sequence is young for its first second, and a skip is
    remembered for two. */
module FlowGaps {
  import opened Bytes
  import opened Collections
  import opened Serial
  import opened FlowBucket
  import opened FlowMoves
  import opened FlowArrivals
  import opened RingBucket

  // ----- gaps every path has passed

  /** A mark of the last second. */
  predicate Recent(m: Mark, now: int) {
    now - m.at <= 1_000_000_000
  }

  /** The mark stands after next, by the shorter way round. */
  predicate Ahead(m: Mark, next: int) {
    0 < (m.pos - next) % 1_048_576 < 524_288
  }

  /** A path that has carried spread bulk of any flow in the last second. */
  predicate Spreading(paths: Paths, id: nat, now: int)
    requires paths.maxPath < |paths.seen|
  {
    id <= paths.maxPath && paths.seen[id] != 0 && now - paths.seen[id] <= 1_000_000_000
  }

  ghost predicate AllPast(b: Bucket, paths: Paths, now: int)
    requires paths.maxPath < |paths.seen|
  {
    && (exists i :: 0 <= i < |b.marks| && Recent(b.marks[i], now))
    && (forall i :: 0 <= i < |b.marks| && Recent(b.marks[i], now) ==> Ahead(b.marks[i], b.next))
    && (now - b.startAt <= 1_000_000_000 ==>
          forall id: nat :: Spreading(paths, id, now) ==>
            exists i :: 0 <= i < |b.marks| && b.marks[i].id == id && Recent(b.marks[i], now))
  }

  lemma ReadsAhead(b: Bucket, now: int)
    ensures (exists m :: m in b.marks && Active(m, now)) <==> exists i :: 0 <= i < |b.marks| && Recent(b.marks[i], now)
    ensures (forall m :: m in b.marks && Active(m, now) ==> FlowNearest(m.pos - b.next) > 0)
            <==> forall i :: 0 <= i < |b.marks| && Recent(b.marks[i], now) ==> Ahead(b.marks[i], b.next)
  {
    forall i | 0 <= i < |b.marks|
      ensures b.marks[i] in b.marks && (Active(b.marks[i], now) <==> Recent(b.marks[i], now))
      ensures FlowNearest(b.marks[i].pos - b.next) > 0 <==> Ahead(b.marks[i], b.next)
    {
      AheadByHalf(b.marks[i].pos - b.next);
    }
    if i :| 0 <= i < |b.marks| && Recent(b.marks[i], now) {
      assert b.marks[i] in b.marks && Active(b.marks[i], now);
    }
    forall m | m in b.marks ensures exists i :: 0 <= i < |b.marks| && b.marks[i] == m {
    }
  }

  lemma MarkedLately(b: Bucket, id: nat, now: int)
    ensures HasMark(b.marks, id, now) <==> exists i :: 0 <= i < |b.marks| && b.marks[i].id == id && Recent(b.marks[i], now)
  {
    if i :| 0 <= i < |b.marks| && b.marks[i].id == id && Recent(b.marks[i], now) {
      assert Active(b.marks[i], now);
    }
    if i :| 0 <= i < |b.marks| && b.marks[i].id == id && Active(b.marks[i], now) {
      assert Recent(b.marks[i], now);
    }
  }

  lemma PassedIsAllPast(b: Bucket, paths: Paths, now: int)
    requires paths.maxPath < |paths.seen|
    ensures Passed(b, paths, now) <==> AllPast(b, paths, now)
  {
    ReadsAhead(b, now);
    forall id: nat
      ensures HasMark(b.marks, id, now) <==> exists i :: 0 <= i < |b.marks| && b.marks[i].id == id && Recent(b.marks[i], now)
    {
      MarkedLately(b, id, now);
    }
    hide HasMark, Recent, Ahead, FlowNearest, Active;
    if AllPast(b, paths, now) && now - b.startAt <= 1_000_000_000 {
      forall id | 0 <= id <= paths.maxPath && paths.seen[id] != 0 && now - paths.seen[id] <= PATH_ACTIVE
        ensures HasMark(b.marks, id, now)
      {
        assert Spreading(paths, id, now);
      }
    }
  }

  /** Exactly which gaps are given up at once: there is a packet behind the gap, some path
      delivered for the flow in the last second, every one that did stands past next,
      and, while the flow is young, every path spreading any flow is one of them. */
  lemma GapPassedExactly(b: Bucket, paths: Paths, now: int)
    requires b.Valid() && paths.maxPath < |paths.seen|
    ensures var z := PassGaps(b, paths, now);
            && (b.held != map[] && AllPast(b, paths, now) ==>
                  (forall p :: p in b.held && (forall q :: q in b.held ==> p <= q) ==> z.next > p)
                  && |z.held| < |b.held|)
            && (b.held == map[] || !AllPast(b, paths, now) ==> z == b && PassOut(b, paths, now) == [])
  {
    PassedIsAllPast(b, paths, now);
    if b.held != map[] && Passed(b, paths, now) {
      var c := SkipToHeld(b);
      SkipMoves(b);
      PassGapsMoves(c, paths, now);
      FewerHeld(c.held, b.held);
      FewerEntries(PassGaps(c, paths, now).held, c.held);
    }
  }

  /** So an old flow waits for no path that does not carry it: with every recent mark at
      or beyond the first packet held, and within half the space, the gap is given up
      whatever the table of paths says. */
  lemma OldFlowWaitsForNone(b: Bucket, paths: Paths, now: int, first: int)
    requires b.Valid() && paths.maxPath < |paths.seen| && now - b.startAt > 1_000_000_000
    requires first in b.held && forall q :: q in b.held ==> first <= q
    requires exists i :: 0 <= i < |b.marks| && now - b.marks[i].at <= 1_000_000_000
    requires forall i :: 0 <= i < |b.marks| && now - b.marks[i].at <= 1_000_000_000 ==>
               first <= b.marks[i].pos && b.marks[i].pos - b.next < 524_288
    ensures PassGaps(b, paths, now).next > first
  {
    MarksAreAhead(b, now, first);
    GapPassedExactly(b, paths, now);
  }

  lemma MarksAreAhead(b: Bucket, now: int, first: int)
    requires b.next < first
    requires exists i :: 0 <= i < |b.marks| && now - b.marks[i].at <= 1_000_000_000
    requires forall i :: 0 <= i < |b.marks| && now - b.marks[i].at <= 1_000_000_000 ==>
               first <= b.marks[i].pos && b.marks[i].pos - b.next < 524_288
    ensures exists i :: 0 <= i < |b.marks| && Recent(b.marks[i], now)
    ensures forall i :: 0 <= i < |b.marks| && Recent(b.marks[i], now) ==> Ahead(b.marks[i], b.next)
  {
    var i :| 0 <= i < |b.marks| && now - b.marks[i].at <= 1_000_000_000;
    assert Recent(b.marks[i], now);
  }

  /** And a young one only for the paths that have spread bulk in the last second. */
  lemma YoungFlowWaitsForTheSpreading(b: Bucket, paths: Paths, now: int, first: int)
    requires b.Valid() && paths.maxPath < |paths.seen|
    requires first in b.held && forall q :: q in b.held ==> first <= q
    requires exists i :: 0 <= i < |b.marks| && now - b.marks[i].at <= 1_000_000_000
    requires forall i :: 0 <= i < |b.marks| && now - b.marks[i].at <= 1_000_000_000 ==>
               first <= b.marks[i].pos && b.marks[i].pos - b.next < 524_288
    requires forall id: nat :: id <= paths.maxPath && paths.seen[id] != 0 && now - paths.seen[id] <= 1_000_000_000 ==>
               exists i :: 0 <= i < |b.marks| && b.marks[i].id == id && now - b.marks[i].at <= 1_000_000_000
    ensures PassGaps(b, paths, now).next > first
  {
    MarksAreAhead(b, now, first);
    forall id: nat | Spreading(paths, id, now)
      ensures exists i :: 0 <= i < |b.marks| && b.marks[i].id == id && Recent(b.marks[i], now)
    {
      var i :| 0 <= i < |b.marks| && b.marks[i].id == id && now - b.marks[i].at <= 1_000_000_000;
      assert Recent(b.marks[i], now);
    }
    GapPassedExactly(b, paths, now);
  }

  /** What the table of paths remembers: when each last spread, and the highest. */
  lemma SawSays(p: Paths, path: nat, now: int, id: nat)
    requires path < |p.seen| && id < |p.seen|
    ensures var q := Saw(p, path, now);
            && |q.seen| == |p.seen| && q.seen[id] == (if id == path then now else p.seen[id])
            && q.maxPath >= path && q.maxPath >= p.maxPath && (q.maxPath == path || q.maxPath == p.maxPath)
  {
  }

  // ----- gaps that have waited out the hold

  /** A sweep gives a gap up exactly when it has waited the hold, and then notes when, and
      after how long. */
  lemma GapTimesOutExactly(b: Bucket, now: int, hold: int)
    requires b.Valid()
    ensures var z := TimeOut(b, now, hold);
            && (b.held == map[] || now - b.gapSince < hold ==> z == b && TimeOutOut(b, now, hold) == [])
            && (b.held != map[] && now - b.gapSince >= hold ==>
                  z.lastSkipAt == now && z.lastSkipHold == hold
                  && forall p :: p in b.held && (forall q :: q in b.held ==> p <= q) ==> z.next > p)
  {
    if b.held != map[] && now - b.gapSince >= hold {
      var c := SkipToHeld(b.(lastSkipAt := now, lastSkipHold := hold));
      NotedSkipMoves(b, now, hold);
      SkipMoves(b.(lastSkipAt := now, lastSkipHold := hold));
      TimeOutMoves(c, now, hold);
      NotedOnce(c, now, hold);
    }
  }

  lemma {:induction false} NotedOnce(b: Bucket, now: int, hold: int)
    requires b.lastSkipAt == now && b.lastSkipHold == hold
    ensures TimeOut(b, now, hold).lastSkipAt == now && TimeOut(b, now, hold).lastSkipHold == hold
    decreases b.held.Keys
  {
    if b.held != map[] && now - b.gapSince >= hold {
      NotedOnce(SkipToHeld(b.(lastSkipAt := now, lastSkipHold := hold)), now, hold);
    }
  }

  // ----- what a gap is told to have needed

  /** Which arrivals tell how long a gap took: the packet that fills one with something
      behind it, for as long as the gap was timed; and one up to 262144 late within two
      seconds of the skip that left it behind, for the hold and the time since. */
  lemma GapToldExactly(b: Bucket, now: int, pos: int)
    ensures GapTold(b, now, pos)
            == if pos == b.next && b.held != map[] then Took(now - b.gapSince)
               else if pos < b.next && b.next - pos <= 262_144 && b.lastSkipAt != 0 && now - b.lastSkipAt < 2_000_000_000
               then Took(b.lastSkipHold + (now - b.lastSkipAt))
               else Untold
  {
  }
}
