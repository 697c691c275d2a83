/** Inputs on which a flow bucket does less than its comments say: each is a run of
    pushes from a bucket never used, with the table of paths the resequencer keeps
    beside it. */
module FlowInputs {
  import opened Serial
  import opened FlowBucket
  import opened FlowMoves
  import opened FlowTimes
  import opened FlowRuns

  /** A bucket's history, and when each path last delivered any spread bulk. */
  datatype Flow = Flow(h: Hist, paths: Paths)

  const UNUSED := Flow(START, Paths(seq(256, _ => 0), 0))

  predicate Tabled(f: Flow) {
    f.paths.maxPath < |f.paths.seen| == 256
  }

  /** A packet: of this bucket, or of another, which only the table of paths shows. */
  datatype Arriving = Here(now: int, path: nat, n: FlowSeq) | Elsewhere(now: int, path: nat)

  /** What push does about it: the arrival, and then the passed gaps. */
  ghost function Pushed(f: Flow, a: Arriving): (r: Flow)
    requires Tabled(f) && a.path < 256
    ensures Tabled(r)
  {
    var paths := Saw(f.paths, a.path, a.now);
    match a
    case Elsewhere(_, _) => Flow(f.h, paths)
    case Here(now, path, n) =>
      var h := Arrives(f.h, now, path, n, []);
      Flow(if Arrive(f.h.b, now, path, n, []).done then h else GapsChecked(h, now, paths), paths)
  }

  ghost function PushedAll(f: Flow, arrivals: seq<Arriving>): (r: Flow)
    requires Tabled(f) && forall i :: 0 <= i < |arrivals| ==> arrivals[i].path < 256
    ensures Tabled(r)
    decreases |arrivals|
  {
    if arrivals == [] then f else PushedAll(Pushed(f, arrivals[0]), arrivals[1..])
  }

  /** The bucket after a push whose arrival leaves it so, with no gap passed. */
  lemma Leaves(f: Flow, a: Arriving, b: Bucket)
    requires Tabled(f) && a.Here? && a.path < 256
    requires Arrive(f.h.b, a.now, a.path, a.n, []).b == b
    requires b.held == map[] || !Passed(b, Saw(f.paths, a.path, a.now), a.now)
    ensures Pushed(f, a).h.b == b
  {
  }

  lemma NotSeenHere(b: Bucket, paths: Paths, now: int, id: nat)
    requires id <= paths.maxPath < |paths.seen| && now - b.startAt <= PATH_ACTIVE
    requires paths.seen[id] != 0 && now - paths.seen[id] <= PATH_ACTIVE && !HasMark(b.marks, id, now)
    ensures !Passed(b, paths, now)
  {
  }

  lemma NotPast(b: Bucket, paths: Paths, now: int, m: Mark)
    requires paths.maxPath < |paths.seen|
    requires m in b.marks && Active(m, now) && FlowNearest(m.pos - b.next) <= 0
    ensures !Passed(b, paths, now)
  {
  }

  // ----- a packet further back waits longer than the hold

  /** Path 1 is carrying another flow; packet 6 comes at 2 and packet 3 at 35, by path
      0; packet 1 at 40, by path 1. */
  const FAR := [Elsewhere(1, 1), Here(1, 0, 0), Here(2, 0, 6), Here(35, 0, 3), Here(40, 1, 1)]

  const FAR1 := Bucket(true, 1, map[], 1, 1, 0, 0, 0, [Mark(0, 0, 1)])
  const FAR2 := Bucket(true, 1, map[6 := Held([], 2)], 2, 1, 2, 0, 0, [Mark(0, 6, 2)])
  const FAR3 := Bucket(true, 1, map[6 := Held([], 2), 3 := Held([], 35)], 35, 1, 2, 0, 0, [Mark(0, 6, 35)])
  const FAR4 :=
    Bucket(true, 2, map[6 := Held([], 2), 3 := Held([], 35)], 40, 1, 35, 0, 0, [Mark(0, 6, 35), Mark(1, 1, 40)])

  predicate OtherPathSeen(f: Flow) {
    Tabled(f) && f.paths.maxPath == 1 && f.paths.seen[1] == 1
  }

  lemma FarStep1(f: Flow)
    requires OtherPathSeen(f) && f.h.b == NO_BUCKET
    ensures OtherPathSeen(Pushed(f, Here(1, 0, 0))) && Pushed(f, Here(1, 0, 0)).h.b == FAR1
  {
    Leaves(f, Here(1, 0, 0), FAR1);
  }

  lemma FarStep2(f: Flow)
    requires OtherPathSeen(f) && f.h.b == FAR1
    ensures OtherPathSeen(Pushed(f, Here(2, 0, 6))) && Pushed(f, Here(2, 0, 6)).h.b == FAR2
  {
    NotSeenHere(FAR2, Saw(f.paths, 0, 2), 2, 1);
    Leaves(f, Here(2, 0, 6), FAR2);
  }

  lemma FarStep3(f: Flow)
    requires OtherPathSeen(f) && f.h.b == FAR2
    ensures OtherPathSeen(Pushed(f, Here(35, 0, 3))) && Pushed(f, Here(35, 0, 3)).h.b == FAR3
  {
    hide Passed, PassGaps, Lowest, Above;
    assert 6 in FAR2.held && FAR2.held[3 := Held([], 35)] == FAR3.held;
    NotSeenHere(FAR3, Saw(f.paths, 0, 35), 35, 1);
    Leaves(f, Here(35, 0, 3), FAR3);
  }

  lemma FarStep4(f: Flow)
    requires Tabled(f) && f.h.b == FAR3
    ensures Pushed(f, Here(40, 1, 1)).h.b == FAR4
  {
    assert 3 in FAR4.held && Lowest(FAR4.held) == 3;
    assert Above(FAR3.held, 2) == FAR3.held;
    NotPast(FAR4, Saw(f.paths, 1, 40), 40, FAR4.marks[1]);
    Leaves(f, Here(40, 1, 1), FAR4);
  }

  /** The gap is timed from the nearest packet behind it: swept at 60 with a hold of
      50, the gap before packet 3 has waited 25, and packet 6 waits on, though it has
      waited 58. */
  lemma FartherPacketsWaitLonger()
    ensures var b := PushedAll(UNUSED, FAR).h.b;
            TimeOut(b, 60, 50) == b && 6 in b.held && 60 - b.held[6].at >= 50
  {
    hide Pushed;
    var f0 := Pushed(UNUSED, FAR[0]);
    assert OtherPathSeen(f0) && f0.h.b == NO_BUCKET by { FarStep0(); }
    FarStep1(f0);
    var f1 := Pushed(f0, FAR[1]);
    FarStep2(f1);
    var f2 := Pushed(f1, FAR[2]);
    FarStep3(f2);
    var f3 := Pushed(f2, FAR[3]);
    FarStep4(f3);
    FiveOf(UNUSED, FAR);
  }

  lemma FarStep0()
    ensures OtherPathSeen(Pushed(UNUSED, Elsewhere(1, 1))) && Pushed(UNUSED, Elsewhere(1, 1)).h.b == NO_BUCKET
  {
  }

  lemma FiveOf(f: Flow, a: seq<Arriving>)
    requires Tabled(f) && |a| == 5 && forall i :: 0 <= i < |a| ==> a[i].path < 256
    ensures PushedAll(f, a) == Pushed(Pushed(Pushed(Pushed(Pushed(f, a[0]), a[1]), a[2]), a[3]), a[4])
  {
    hide Pushed;
    var f1 := Pushed(f, a[0]);
    var f2 := Pushed(f1, a[1]);
    var f3 := Pushed(f2, a[2]);
    assert PushedAll(f, a) == PushedAll(f1, a[1..]);
    assert PushedAll(f1, a[1..]) == PushedAll(f2, a[2..]) by { assert a[1..][1..] == a[2..]; }
    assert PushedAll(f2, a[2..]) == PushedAll(f3, a[3..]) by { assert a[2..][1..] == a[3..]; }
    var f4 := Pushed(f3, a[3]);
    assert PushedAll(f3, a[3..]) == PushedAll(f4, a[4..]) by { assert a[3..][1..] == a[4..]; }
    assert a[4..] == [a[4]];
    LastOf(f4, a[4]);
  }

  lemma LastOf(f: Flow, a: Arriving)
    requires Tabled(f) && a.path < 256
    ensures PushedAll(f, [a]) == Pushed(f, a)
  {
    hide Pushed;
    assert [a][1..] == [];
    assert PushedAll(Pushed(f, a), []) == Pushed(f, a);
  }

  // ----- a mark more than half the space behind reads as past the gap

  /** Path 0 brings packet 0; path 1 then jumps ahead three times, each jump too short
      to be read as a restart. */
  const STALE := [Here(4, 0, 0), Here(5, 1, 262144), Here(6, 1, 520193)]
  const LAST := Here(7, 1, 528386)

  const STALE1 := Bucket(true, 1, map[], 4, 4, 0, 0, 0, [Mark(0, 0, 4)])
  const STALE2 :=
    Bucket(true, 258049, map[262144 := Held([], 5)], 5, 4, 5, 0, 0, [Mark(0, 0, 4), Mark(1, 262144, 5)])
  const STALE3 :=
    Bucket(true, 516098, map[520193 := Held([], 6)], 6, 4, 6, 0, 0, [Mark(0, 0, 4), Mark(1, 520193, 6)])
  const STALE4 :=
    Bucket(true, 524291, map[528386 := Held([], 7)], 7, 4, 7, 0, 0, [Mark(0, 0, 4), Mark(1, 528386, 7)])

  predicate TwoPaths(f: Flow) {
    Tabled(f) && f.paths.maxPath <= 1
  }

  lemma StaleStep1(f: Flow)
    requires TwoPaths(f) && f.h.b == NO_BUCKET
    ensures TwoPaths(Pushed(f, STALE[0])) && Pushed(f, STALE[0]).h.b == STALE1
  {
    Leaves(f, STALE[0], STALE1);
  }

  /** The arrival too far ahead to hold: what was held is left behind, and it alone is
      held at the end of the window. */
  lemma JumpHolds(b: Bucket, now: int, pos: int)
    requires WINDOW <= pos - b.next && forall p :: p in b.held ==> p < pos - (WINDOW - 1)
    ensures Force(b, now, pos, []).b == b.(next := pos - (WINDOW - 1), held := map[pos := Held([], now)], gapSince := now)
    ensures !Force(b, now, pos, []).done
  {
    var t := pos - (WINDOW - 1);
    assert FirstGap(b.held, t) == t && Above(b.held, t) == map[];
  }

  lemma Unwraps(b: Bucket, n: FlowSeq, pos: int)
    requires b.started && n == pos % FLOW_SPACE && -HALF_FLOW <= pos - b.next < HALF_FLOW
    ensures PositionOf(b, n) == pos
  {
    assert n - b.next + HALF_FLOW == (pos - b.next + HALF_FLOW) - pos / FLOW_SPACE * FLOW_SPACE;
  }

  lemma Jumps(b: Bucket, now: int, path: nat, n: FlowSeq, pos: int)
    requires b.started && now - b.lastSeen <= IDLE && n == pos % FLOW_SPACE
    requires WINDOW <= pos - b.next <= RESTART_JUMP && forall p :: p in b.held ==> p < pos - (WINDOW - 1)
    ensures var a := Arrive(b, now, path, n, []);
            && !a.done
            && a.b == b.(next := pos - (WINDOW - 1), held := map[pos := Held([], now)], gapSince := now, lastSeen := now,
                         marks := MarkPath(b.marks, path, pos, now))
  {
    hide Place, Force, MarkPath, PositionOf;
    Unwraps(b, n, pos);
    JumpForces(Touch(b, now, path, pos), now, path, pos);
    JumpHolds(Touch(b, now, path, pos), now, pos);
  }

  lemma JumpForces(b: Bucket, now: int, path: nat, pos: int)
    requires WINDOW <= pos - b.next <= RESTART_JUMP
    ensures Place(b, now, path, pos, []) == Force(b, now, pos, [])
  {
    hide Force;
  }

  /** Path 1's mark is made, or moved, behind path 0's. */
  lemma Remarks(first: Mark, marks: seq<Mark>, pos: int, now: int)
    requires first.id == 0 && (marks == [first] || exists at, before :: marks == [first, Mark(1, before, at)] && 0 < pos - before < HALF_FLOW)
    ensures MarkPath(marks, 1, pos, now) == [first, Mark(1, pos, now)]
  {
    if |marks| == 2 {
      assert MarkOf(marks, 1) == 1 by { assert MarkOf(marks[1..], 1) == 0; }
    }
  }

  lemma StaleStep2(f: Flow)
    requires TwoPaths(f) && f.h.b == STALE1
    ensures TwoPaths(Pushed(f, STALE[1])) && Pushed(f, STALE[1]).h.b == STALE2
  {
    hide Arrive, Passed;
    Jumps(STALE1, 5, 1, 262144, 262144);
    Remarks(STALE1.marks[0], STALE1.marks, 262144, 5);
    NotPast(STALE2, Saw(f.paths, 1, 5), 5, STALE2.marks[0]);
    Leaves(f, STALE[1], STALE2);
  }

  lemma StaleStep3(f: Flow)
    requires TwoPaths(f) && f.h.b == STALE2
    ensures TwoPaths(Pushed(f, STALE[2])) && Pushed(f, STALE[2]).h.b == STALE3
  {
    hide Arrive, Passed;
    Jumps(STALE2, 6, 1, 520193, 520193);
    Remarks(STALE2.marks[0], STALE2.marks, 520193, 6);
    NotPast(STALE3, Saw(f.paths, 1, 6), 6, STALE3.marks[0]);
    Leaves(f, STALE[2], STALE3);
  }

  lemma StaleStep4()
    ensures Arrive(STALE3, 7, 1, 528386, []).b == STALE4 && !Arrive(STALE3, 7, 1, 528386, []).done
  {
    hide Arrive;
    Jumps(STALE3, 7, 1, 528386, 528386);
    Remarks(STALE3.marks[0], STALE3.marks, 528386, 7);
  }

  /** Both paths are active, and both read as past 524291: path 0, at packet 0, as
      524285 ahead of it. */
  lemma StalePasses(paths: Paths)
    requires paths.maxPath <= 1 && |paths.seen| == 256
    ensures Passed(STALE4, paths, 7) && STALE4.Valid() && 528386 in STALE4.held
  {
    assert FlowNearest(-524291) == 524285 && FlowNearest(4095) == 4095;
    assert 528386 in STALE4.held;
    assert STALE4.marks[0] in STALE4.marks && Active(STALE4.marks[0], 7);
    assert HasMark(STALE4.marks, 0, 7) by { assert STALE4.marks[0].id == 0; }
    assert HasMark(STALE4.marks, 1, 7) by { assert STALE4.marks[1].id == 1; }
  }

  /** So at that arrival the packets from 524291 on are given up as passed, while path
      0, active and no further than packet 0, may yet deliver them. */
  lemma StaleMarkMisleads()
    ensures var f := PushedAll(UNUSED, STALE);
            var b := Arrive(f.h.b, 7, 1, 528386, []).b;
            && Passed(b, Saw(f.paths, 1, 7), 7) && b.next == 524291
            && b.marks[..1] == [Mark(0, 0, 4)] && Active(b.marks[0], 7)
            && Pushed(f, LAST).h.b.next > 528386
  {
    hide Arrive, Passed, Pushed, PushedAll;
    StaleRun();
    StaleLast(PushedAll(UNUSED, STALE));
  }

  lemma StaleLast(f: Flow)
    requires TwoPaths(f) && f.h.b == STALE3
    ensures var b := Arrive(f.h.b, 7, 1, 528386, []).b;
            && Passed(b, Saw(f.paths, 1, 7), 7) && b.next == 524291
            && b.marks[..1] == [Mark(0, 0, 4)] && Active(b.marks[0], 7)
            && Pushed(f, LAST).h.b.next > 528386
  {
    hide Arrive, PassGaps;
    var paths := Saw(f.paths, 1, 7);
    StaleStep4();
    StalePasses(paths);
    SkipsOn(STALE4, paths, 7);
  }

  lemma StaleRun()
    ensures TwoPaths(PushedAll(UNUSED, STALE)) && PushedAll(UNUSED, STALE).h.b == STALE3
  {
    hide Pushed;
    StaleStep1(UNUSED);
    var f1 := Pushed(UNUSED, STALE[0]);
    StaleStep2(f1);
    var f2 := Pushed(f1, STALE[1]);
    StaleStep3(f2);
    var f3 := Pushed(f2, STALE[2]);
    assert STALE[1..][1..] == STALE[2..] && STALE[2..][1..] == [];
    assert PushedAll(f2, STALE[2..]) == f3;
    assert PushedAll(f1, STALE[1..]) == f3;
  }

  /** A passed gap is given up: next goes beyond the packet skipped to. */
  lemma SkipsOn(b: Bucket, paths: Paths, now: int)
    requires b.Valid() && b.held != map[] && paths.maxPath < |paths.seen| && Passed(b, paths, now)
    ensures forall p :: p in b.held && p < b.next + WINDOW && (forall q :: q in b.held ==> p <= q) ==>
              PassGaps(b, paths, now).next > p
  {
    SkipMoves(b);
    PassGapsMoves(SkipToHeld(b), paths, now);
  }
}
