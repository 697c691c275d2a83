/** The order bulk fills paths in (internal/relay/cascade.go): slowest first, held
    against small differences, the call's paths last. Delays are inputs. */
module Cascade {
  import opened Collections
  import opened Ids

  const SWAP_TICKS := 5

  type Pair = (Path, Path)

  /** A path's delay with nothing queued on it. */
  type Delays = map<Path, real>

  function DelayOf(delay: Delays, p: Path): real {
    if p in delay then delay[p] else 0.0
  }

  /** The previous order, for whoever is still a member. */
  function Kept(prev: seq<Path>, members: seq<Path>): seq<Path> {
    if prev == [] then []
    else if prev[0] in members then [prev[0]] + Kept(prev[1..], members)
    else Kept(prev[1..], members)
  }

  function Newcomers(members: seq<Path>, kept: seq<Path>): seq<Path> {
    if members == [] then []
    else if members[0] in kept then Newcomers(members[1..], kept)
    else [members[0]] + Newcomers(members[1..], kept)
  }

  /** Where a path's delay puts it: before the first that is faster. */
  function Insert(order: seq<Path>, p: Path, delay: Delays): seq<Path> {
    if order == [] then [p]
    else if DelayOf(delay, p) > DelayOf(delay, order[0]) then [p] + order
    else [order[0]] + Insert(order[1..], p, delay)
  }

  function InsertAll(order: seq<Path>, ps: seq<Path>, delay: Delays): seq<Path>
    decreases |ps|
  {
    if ps == [] then order else InsertAll(Insert(order, ps[0], delay), ps[1..], delay)
  }

  /** Slowest first. */
  function Slowest(ps: seq<Path>, delay: Delays): seq<Path> {
    if ps == [] then [] else Insert(Slowest(ps[1..], delay), ps[0], delay)
  }

  /** The order as the swaps find it. */
  function Lined(prev: seq<Path>, members: seq<Path>, delay: Delays): seq<Path> {
    var kept := Kept(prev, members);
    InsertAll(kept, Slowest(Newcomers(members, kept), delay), delay)
  }

  function CountOf(counts: map<Pair, nat>, a: Path, b: Path): nat {
    if (a, b) in counts then counts[(a, b)] else 0
  }

  datatype Passed = Passed(order: seq<Path>, counts: map<Pair, nat>)

  /** One pass of swaps. Two neighbours trade places once the one behind has been
      slower by more than the margin for long enough. */
  function SwapPass(order: seq<Path>, counts: map<Pair, nat>, delay: Delays, hyst: real): Passed
    decreases |order|
  {
    if |order| < 2 then Passed(order, map[])
    else
      var a, b := order[0], order[1];
      if DelayOf(delay, b) - DelayOf(delay, a) <= hyst then
        var r := SwapPass(order[1..], counts, delay, hyst);
        Passed([a] + r.order, r.counts)
      else if CountOf(counts, a, b) + 1 < SWAP_TICKS then
        var r := SwapPass(order[1..], counts, delay, hyst);
        Passed([a] + r.order, map[(a, b) := CountOf(counts, a, b) + 1] + r.counts)
      else
        var r := SwapPass(order[2..], counts, delay, hyst);
        Passed([b, a] + r.order, r.counts)
  }

  // ----- the order is the members, each once

  lemma {:induction false} KeptIs(prev: seq<Path>, members: seq<Path>)
    requires Distinct(prev)
    ensures Distinct(Kept(prev, members))
    ensures forall p: Path :: p in Kept(prev, members) <==> p in prev && p in members
  {
    if prev != [] {
      KeptIs(prev[1..], members);
    }
  }

  lemma {:induction false} NewcomersAre(members: seq<Path>, kept: seq<Path>)
    requires Distinct(members)
    ensures Distinct(Newcomers(members, kept))
    ensures forall p: Path :: p in Newcomers(members, kept) <==> p in members && p !in kept
  {
    if members != [] {
      NewcomersAre(members[1..], kept);
    }
  }

  lemma {:induction false} InsertIs(order: seq<Path>, p: Path, delay: Delays)
    requires Distinct(order) && p !in order
    ensures Distinct(Insert(order, p, delay)) && |Insert(order, p, delay)| == |order| + 1
    ensures forall q: Path :: q in Insert(order, p, delay) <==> q in order || q == p
  {
    if order != [] && DelayOf(delay, p) <= DelayOf(delay, order[0]) {
      InsertIs(order[1..], p, delay);
      assert order == [order[0]] + order[1..];
    }
  }

  lemma {:induction false} SlowestIs(ps: seq<Path>, delay: Delays)
    requires Distinct(ps)
    ensures Distinct(Slowest(ps, delay)) && forall q: Path :: q in Slowest(ps, delay) <==> q in ps
  {
    if ps != [] {
      SlowestIs(ps[1..], delay);
      InsertIs(Slowest(ps[1..], delay), ps[0], delay);
    }
  }

  lemma {:induction false} InsertAllIs(order: seq<Path>, ps: seq<Path>, delay: Delays)
    requires Distinct(order) && Distinct(ps) && forall p: Path :: p in ps ==> p !in order
    ensures Distinct(InsertAll(order, ps, delay))
    ensures forall q: Path :: q in InsertAll(order, ps, delay) <==> q in order || q in ps
    decreases |ps|
  {
    if ps != [] {
      InsertIs(order, ps[0], delay);
      InsertAllIs(Insert(order, ps[0], delay), ps[1..], delay);
    }
  }

  lemma LinedIs(prev: seq<Path>, members: seq<Path>, delay: Delays)
    requires Distinct(prev) && Distinct(members)
    ensures Distinct(Lined(prev, members, delay))
    ensures forall q: Path :: q in Lined(prev, members, delay) <==> q in members
  {
    var kept := Kept(prev, members);
    KeptIs(prev, members);
    NewcomersAre(members, kept);
    SlowestIs(Newcomers(members, kept), delay);
    InsertAllIs(kept, Slowest(Newcomers(members, kept), delay), delay);
  }

  lemma {:induction false} SwapPassIs(order: seq<Path>, counts: map<Pair, nat>, delay: Delays, hyst: real)
    requires Distinct(order)
    ensures var r := SwapPass(order, counts, delay, hyst).order;
            Distinct(r) && |r| == |order| && forall q: Path :: q in r <==> q in order
    decreases |order|
  {
    if |order| >= 2 {
      var a, b := order[0], order[1];
      assert order == [a] + order[1..] && order[1..] == [b] + order[2..];
      SwapPassIs(order[1..], counts, delay, hyst);
      SwapPassIs(order[2..], counts, delay, hyst);
    }
  }

  lemma {:induction false} SameMembersSameCount(a: seq<Path>, b: seq<Path>)
    requires Distinct(a) && Distinct(b) && forall q: Path :: q in a <==> q in b
    ensures multiset(a) == multiset(b)
  {
    forall q: Path ensures multiset(a)[q] == multiset(b)[q] {
      OnceEach(a, q);
      OnceEach(b, q);
    }
  }

  lemma {:induction false} OnceEach(a: seq<Path>, q: Path)
    requires Distinct(a)
    ensures multiset(a)[q] == if q in a then 1 else 0
  {
    if a != [] {
      assert a == [a[0]] + a[1..];
      OnceEach(a[1..], q);
    }
  }

  function Ordered(prev: seq<Path>, counts: map<Pair, nat>, members: seq<Path>, delay: Delays, hyst: real): Passed {
    SwapPass(Lined(prev, members, delay), counts, delay, hyst)
  }

  /** Whatever the order and counts before, the new order is a permutation of the
      members. */
  lemma OrderedIsPermutation(prev: seq<Path>, counts: map<Pair, nat>, members: seq<Path>, delay: Delays, hyst: real)
    requires Distinct(prev) && Distinct(members)
    ensures var order := Ordered(prev, counts, members, delay, hyst).order;
            Distinct(order) && multiset(order) == multiset(members)
  {
    LinedIs(prev, members, delay);
    SwapPassIs(Lined(prev, members, delay), counts, delay, hyst);
    SameMembersSameCount(Ordered(prev, counts, members, delay, hyst).order, members);
  }

  // ----- what comes before what

  predicate Before(order: seq<Path>, p: Path, q: Path) {
    order != [] && ((order[0] == p && q in order[1..]) || Before(order[1..], p, q))
  }

  predicate Adjacent(order: seq<Path>, p: Path, q: Path) {
    |order| >= 2 && ((order[0] == p && order[1] == q) || Adjacent(order[1..], p, q))
  }

  lemma {:induction false} BeforeBoth(order: seq<Path>, p: Path, q: Path)
    requires Before(order, p, q)
    ensures p in order && q in order
  {
    if !(order[0] == p && q in order[1..]) {
      BeforeBoth(order[1..], p, q);
    }
  }

  lemma {:induction false} BeforeKept(prev: seq<Path>, members: seq<Path>, p: Path, q: Path)
    requires Distinct(prev) && Before(prev, p, q) && p in members && q in members
    ensures Before(Kept(prev, members), p, q)
  {
    KeptIs(prev[1..], members);
    if !(prev[0] == p && q in prev[1..]) {
      BeforeKept(prev[1..], members, p, q);
    }
  }

  lemma {:induction false} BeforeInsert(order: seq<Path>, x: Path, delay: Delays, p: Path, q: Path)
    requires Distinct(order) && x !in order && Before(order, p, q)
    ensures Before(Insert(order, x, delay), p, q)
  {
    if DelayOf(delay, x) > DelayOf(delay, order[0]) {
      assert ([x] + order)[1..] == order;
    } else {
      InsertIs(order[1..], x, delay);
      if !(order[0] == p && q in order[1..]) {
        BeforeInsert(order[1..], x, delay, p, q);
      }
    }
  }

  lemma {:induction false} BeforeInsertAll(order: seq<Path>, ps: seq<Path>, delay: Delays, p: Path, q: Path)
    requires Distinct(order) && Distinct(ps) && Before(order, p, q) && forall x: Path :: x in ps ==> x !in order
    ensures Before(InsertAll(order, ps, delay), p, q)
    decreases |ps|
  {
    if ps != [] {
      BeforeInsert(order, ps[0], delay, p, q);
      InsertIs(order, ps[0], delay);
      BeforeInsertAll(Insert(order, ps[0], delay), ps[1..], delay, p, q);
    }
  }

  /** Coming and going of others never reorders two members that stay. */
  lemma BeforeLined(prev: seq<Path>, members: seq<Path>, delay: Delays, p: Path, q: Path)
    requires Distinct(prev) && Distinct(members) && Before(prev, p, q) && p in members && q in members
    ensures Before(Lined(prev, members, delay), p, q)
  {
    var kept := Kept(prev, members);
    BeforeKept(prev, members, p, q);
    KeptIs(prev, members);
    NewcomersAre(members, kept);
    SlowestIs(Newcomers(members, kept), delay);
    BeforeInsertAll(kept, Slowest(Newcomers(members, kept), delay), delay, p, q);
  }

  lemma {:induction false} NotBothWays(order: seq<Path>, p: Path, q: Path)
    requires Distinct(order) && Before(order, p, q) && p != q
    ensures !Before(order, q, p)
  {
    if order[0] == p && q in order[1..] {
      if Before(order[1..], q, p) {
        BeforeBoth(order[1..], q, p);
      }
    } else {
      BeforeBoth(order[1..], p, q);
      NotBothWays(order[1..], p, q);
    }
  }

  /** This evaluation's pass moves q ahead of p only when it finds them neighbours,
      with q slower by more than the margin, for the fifth time running. */
  predicate Overtakes(order: seq<Path>, counts: map<Pair, nat>, delay: Delays, hyst: real, p: Path, q: Path) {
    && Adjacent(order, p, q) && DelayOf(delay, q) - DelayOf(delay, p) > hyst
    && CountOf(counts, p, q) + 1 >= SWAP_TICKS
  }

  lemma {:induction false} OvertakesOnly(order: seq<Path>, counts: map<Pair, nat>, delay: Delays, hyst: real, p: Path, q: Path)
    requires Distinct(order) && p != q && Before(order, p, q)
    requires Before(SwapPass(order, counts, delay, hyst).order, q, p)
    ensures Overtakes(order, counts, delay, hyst, p, q)
    decreases |order|
  {
    if |order| < 2 {
      NotBothWays(order, p, q);
    } else {
      var a, b := order[0], order[1];
      assert order[1..] == [b] + order[2..];
      if DelayOf(delay, b) - DelayOf(delay, a) <= hyst || CountOf(counts, a, b) + 1 < SWAP_TICKS {
        var r := SwapPass(order[1..], counts, delay, hyst).order;
        SwapPassIs(order[1..], counts, delay, hyst);
        assert SwapPass(order, counts, delay, hyst).order == [a] + r;
        StaysBehind(a, r, q, p);
        BeforeTail(order, p, q);
        OvertakesOnly(order[1..], counts, delay, hyst, p, q);
      } else if !(p == a && q == b) {
        var r := SwapPass(order[2..], counts, delay, hyst).order;
        SwapPassIs(order[2..], counts, delay, hyst);
        assert SwapPass(order, counts, delay, hyst).order == [b, a] + r;
        BothInTail(a, b, r, order[2..], p, q);
        OvertakesOnly(order[2..], counts, delay, hyst, p, q);
      }
    }
  }

  /** If q comes before p after a, neither is a. */
  lemma StaysBehind(a: Path, r: seq<Path>, q: Path, p: Path)
    requires a !in r && Before([a] + r, q, p)
    ensures p != a && (q != a ==> Before(r, q, p))
  {
    assert ([a] + r)[1..] == r;
    if Before(r, q, p) {
      BeforeBoth(r, q, p);
    }
  }

  lemma BeforeTail(order: seq<Path>, p: Path, q: Path)
    requires Distinct(order) && Before(order, p, q)
    ensures q != order[0] && (p != order[0] ==> Before(order[1..], p, q))
  {
    if Before(order[1..], p, q) {
      BeforeBoth(order[1..], p, q);
    }
  }

  lemma BothInTail(a: Path, b: Path, r: seq<Path>, rest: seq<Path>, p: Path, q: Path)
    requires Distinct([a] + ([b] + rest)) && Distinct(r) && p != q && !(p == a && q == b)
    requires forall x: Path :: x in r <==> x in rest
    requires Before([a] + ([b] + rest), p, q) && Before([b, a] + r, q, p)
    ensures Before(rest, p, q) && Before(r, q, p)
  {
    assert ([a] + ([b] + rest))[1..] == [b] + rest && ([b] + rest)[1..] == rest;
    BeforeTail([a] + ([b] + rest), p, q);
    if p != a {
      BeforeTail([b] + rest, p, q);
    }
    assert [b, a] + r == [b] + ([a] + r);
    StaysBehind(b, [a] + r, q, p);
    assert ([a] + r)[1..] == r;
    if q != b {
      StaysBehind(a, r, q, p);
    }
  }

  /** And then q does move ahead, unless in the same pass p moves ahead of the one
      before it. */
  lemma {:induction false} OvertakesUnless(order: seq<Path>, counts: map<Pair, nat>, delay: Delays, hyst: real, p: Path, q: Path)
    requires Distinct(order) && Overtakes(order, counts, delay, hyst, p, q)
    ensures Before(SwapPass(order, counts, delay, hyst).order, q, p)
            || exists x: Path :: Overtakes(order, counts, delay, hyst, x, p)
    decreases |order|
  {
    var a, b := order[0], order[1];
    var all := SwapPass(order, counts, delay, hyst).order;
    if DelayOf(delay, b) - DelayOf(delay, a) <= hyst || CountOf(counts, a, b) + 1 < SWAP_TICKS {
      var r := SwapPass(order[1..], counts, delay, hyst).order;
      assert all == [a] + r && all[1..] == r;
      OvertakesUnless(order[1..], counts, delay, hyst, p, q);
      if !Before(r, q, p) {
        var x: Path :| Overtakes(order[1..], counts, delay, hyst, x, p);
        assert Overtakes(order, counts, delay, hyst, x, p);
      }
    } else {
      var r := SwapPass(order[2..], counts, delay, hyst).order;
      assert all == [b, a] + r && all[1..] == [a] + r && all[1..][1..] == r;
      if p == a {
        AdjacentOnce(order, p, q);
      } else if p == b {
        assert Overtakes(order, counts, delay, hyst, a, p);
      } else {
        assert order[1..][1..] == order[2..];
        assert Adjacent(order[1..], p, q) && Adjacent(order[1..][1..], p, q);
        OvertakesUnless(order[2..], counts, delay, hyst, p, q);
        if !Before(r, q, p) {
          var x: Path :| Overtakes(order[2..], counts, delay, hyst, x, p);
          assert Adjacent(order[1..], x, p);
          assert Overtakes(order, counts, delay, hyst, x, p);
        }
      }
    }
  }

  /** The first of an order has one neighbour. */
  lemma AdjacentOnce(order: seq<Path>, p: Path, q: Path)
    requires Distinct(order) && Adjacent(order, p, q) && order[0] == p
    ensures order[1] == q
  {
    if order[1] != q {
      AdjacentIn(order[1..], p, q);
    }
  }

  lemma {:induction false} AdjacentIn(order: seq<Path>, p: Path, q: Path)
    requires Adjacent(order, p, q)
    ensures p in order
  {
    if !(order[0] == p && order[1] == q) {
      AdjacentIn(order[1..], p, q);
    }
  }

  // ----- runs

  /** One evaluation: the order its pass of swaps found, what it went by, and the order
      it left. One with the cascade off finds no order. */
  datatype Eval = Eval(lined: seq<Path>, delay: Delays, hyst: real, after: seq<Path>)

  datatype Trace = Trace(order: seq<Path>, counts: map<Pair, nat>, evals: seq<Eval>)

  const START := Trace([], map[], [])

  datatype Event =
    | Evaluate(members: seq<Path>, delay: Delays, hyst: real)
    | Off

  predicate Proper(e: Event) {
    e.Evaluate? ==> Distinct(e.members)
  }

  function Step(t: Trace, e: Event): Trace {
    match e
    case Evaluate(members, delay, hyst) =>
      var r := Ordered(t.order, t.counts, members, delay, hyst);
      Trace(r.order, r.counts, t.evals + [Eval(Lined(t.order, members, delay), delay, hyst, r.order)])
    case Off => Trace([], map[], t.evals + [Eval([], map[], 0.0, [])])
  }

  function Run(t: Trace, events: seq<Event>): Trace
    decreases |events|
  {
    if events == [] then t else Run(Step(t, events[0]), events[1..])
  }

  /** q was just behind p, and slower by more than the margin. */
  predicate Pressed(e: Eval, p: Path, q: Path) {
    Adjacent(e.lined, p, q) && DelayOf(e.delay, q) - DelayOf(e.delay, p) > e.hyst
  }

  function Pressing(evals: seq<Eval>, p: Path, q: Path): nat {
    if evals == [] || !Pressed(evals[|evals| - 1], p, q) then 0
    else Pressing(evals[..|evals| - 1], p, q) + 1
  }

  ghost predicate Counted(t: Trace) {
    && Distinct(t.order)
    && forall p: Path, q: Path :: CountOf(t.counts, p, q) <= Pressing(t.evals, p, q)
  }

  lemma PressingOn(evals: seq<Eval>, e: Eval, p: Path, q: Path)
    ensures Pressing(evals + [e], p, q) == if Pressed(e, p, q) then Pressing(evals, p, q) + 1 else 0
  {
    assert (evals + [e])[..|evals|] == evals;
  }

  lemma {:induction false} CountsAre(order: seq<Path>, counts: map<Pair, nat>, delay: Delays, hyst: real, p: Path, q: Path)
    ensures var n := CountOf(SwapPass(order, counts, delay, hyst).counts, p, q);
            n > 0 ==> n == CountOf(counts, p, q) + 1 && Pressed(Eval(order, delay, hyst, []), p, q)
    decreases |order|
  {
    if |order| >= 2 {
      CountsAre(order[1..], counts, delay, hyst, p, q);
      CountsAre(order[2..], counts, delay, hyst, p, q);
      assert order[1..][1..] == order[2..];
    }
  }

  lemma StepCounted(t: Trace, e: Event)
    requires Counted(t) && Proper(e)
    ensures Counted(Step(t, e))
  {
    var z := Step(t, e);
    if e.Evaluate? {
      OrderedIsPermutation(t.order, t.counts, e.members, e.delay, e.hyst);
    }
    forall p: Path, q: Path ensures CountOf(z.counts, p, q) <= Pressing(z.evals, p, q) {
      var last := z.evals[|t.evals|];
      PressingOn(t.evals, last, p, q);
      if e.Evaluate? {
        CountsAre(last.lined, t.counts, e.delay, e.hyst, p, q);
      }
    }
  }

  predicate AllProper(events: seq<Event>) {
    forall i :: 0 <= i < |events| ==> Proper(events[i])
  }

  lemma {:induction false} RunCounted(t: Trace, events: seq<Event>)
    requires Counted(t) && AllProper(events)
    ensures Counted(Run(t, events))
    decreases |events|
  {
    if events != [] {
      StepCounted(t, events[0]);
      RunCounted(Step(t, events[0]), events[1..]);
    }
  }

  lemma ReorderedNow(t: Trace, members: seq<Path>, delay: Delays, hyst: real, p: Path, q: Path)
    requires Counted(t) && Distinct(members) && p in members && q in members && p != q
    requires Before(t.order, p, q) && Before(Ordered(t.order, t.counts, members, delay, hyst).order, q, p)
    ensures Pressing(Step(t, Evaluate(members, delay, hyst)).evals, p, q) >= SWAP_TICKS
  {
    var lined := Lined(t.order, members, delay);
    BeforeLined(t.order, members, delay, p, q);
    LinedIs(t.order, members, delay);
    OvertakesOnly(lined, t.counts, delay, hyst, p, q);
    PressingOn(t.evals, Eval(lined, delay, hyst, Ordered(t.order, t.counts, members, delay, hyst).order), p, q);
  }

  lemma {:induction false} PressedAt(evals: seq<Eval>, p: Path, q: Path, k: nat)
    requires k < Pressing(evals, p, q)
    ensures k < |evals| && Pressed(evals[|evals| - 1 - k], p, q)
  {
    if k > 0 {
      PressedAt(evals[..|evals| - 1], p, q, k - 1);
    }
  }

  /** The order is stable, in every run: two members that stay change places only
      when at each of the last five evaluations they were neighbours, and the one
      behind slower by more than the margin. */
  lemma ReorderedOnlyWhenPressed(events: seq<Event>, e: Event, t: Trace, z: Trace, p: Path, q: Path, k: nat)
    requires AllProper(events) && Proper(e) && e.Evaluate? && p in e.members && q in e.members && p != q
    requires t == Run(START, events) && z == Step(t, e)
    requires Before(t.order, p, q) && Before(z.order, q, p)
    requires k < 5
    ensures k < |z.evals| && Pressed(z.evals[|z.evals| - 1 - k], p, q)
  {
    RunCounted(START, events);
    assert Pressing(z.evals, p, q) >= SWAP_TICKS by { ReorderedNow(t, e.members, e.delay, e.hyst, p, q); }
    PressedAt(z.evals, p, q, k);
  }

  // ----- and moving ahead when it has been

  lemma {:induction false} CountedAreAdjacent(order: seq<Path>, counts: map<Pair, nat>, delay: Delays, hyst: real, x: Pair)
    requires x in SwapPass(order, counts, delay, hyst).counts
    ensures Adjacent(order, x.0, x.1) && SwapPass(order, counts, delay, hyst).counts[x] < SWAP_TICKS
    decreases |order|
  {
    var a, b := order[0], order[1];
    if x in SwapPass(order[1..], counts, delay, hyst).counts {
      CountedAreAdjacent(order[1..], counts, delay, hyst, x);
    }
    if x in SwapPass(order[2..], counts, delay, hyst).counts {
      CountedAreAdjacent(order[2..], counts, delay, hyst, x);
      assert order[1..][1..] == order[2..];
    }
  }

  /** In a pass p moves ahead of the one before it. */
  ghost predicate Advances(order: seq<Path>, after: seq<Path>, p: Path) {
    exists x: Path :: Adjacent(order, x, p) && Before(after, p, x)
  }

  lemma AdvancesFrom(order: seq<Path>, after: seq<Path>, rest: seq<Path>, left: seq<Path>, p: Path)
    requires Advances(rest, left, p)
    requires forall x: Path :: Adjacent(rest, x, p) ==> Adjacent(order, x, p)
    requires forall x: Path :: Before(left, p, x) ==> Before(after, p, x)
    ensures Advances(order, after, p)
  {
    var x: Path :| Adjacent(rest, x, p) && Before(left, p, x);
    assert Adjacent(order, x, p) && Before(after, p, x);
  }

  /** A pass over two neighbours, the one behind too slow: they trade places, or the one
      ahead itself moves ahead, or one more is counted, still short of enough. */
  lemma {:induction false} PassCounts(order: seq<Path>, counts: map<Pair, nat>, delay: Delays, hyst: real, p: Path, q: Path)
    requires Distinct(order) && Adjacent(order, p, q) && DelayOf(delay, q) - DelayOf(delay, p) > hyst
    ensures var r := SwapPass(order, counts, delay, hyst);
            || Before(r.order, q, p) || Advances(order, r.order, p)
            || CountOf(r.counts, p, q) == CountOf(counts, p, q) + 1 < SWAP_TICKS
    decreases |order|
  {
    var a, b := order[0], order[1];
    var all := SwapPass(order, counts, delay, hyst);
    if DelayOf(delay, b) - DelayOf(delay, a) <= hyst || CountOf(counts, a, b) + 1 < SWAP_TICKS {
      var r := SwapPass(order[1..], counts, delay, hyst);
      assert all.order == [a] + r.order && all.order[1..] == r.order;
      if p == a {
        AdjacentOnce(order, p, q);
        if (p, q) in r.counts {
          CountedAreAdjacent(order[1..], counts, delay, hyst, (p, q));
          AdjacentIn(order[1..], p, q);
        }
      } else {
        PassCounts(order[1..], counts, delay, hyst, p, q);
        if Advances(order[1..], r.order, p) {
          AdvancesFrom(order, all.order, order[1..], r.order, p);
        }
      }
    } else {
      var r := SwapPass(order[2..], counts, delay, hyst);
      assert all.order == [b, a] + r.order && all.order[1..] == [a] + r.order && all.order[1..][1..] == r.order;
      if p == a {
        AdjacentOnce(order, p, q);
      } else if p == b {
        assert Adjacent(order, a, p) && Before(all.order, p, a);
      } else {
        assert order[1..][1..] == order[2..];
        assert Adjacent(order[1..], p, q) && Adjacent(order[1..][1..], p, q);
        PassCounts(order[2..], counts, delay, hyst, p, q);
        if Advances(order[2..], r.order, p) {
          AdvancesFrom(order, all.order, order[2..], r.order, p);
        }
      }
    }
  }

  /** For how many evaluations running q was just behind p and too slow, while p moved
      ahead of nobody. */
  ghost function Firm(evals: seq<Eval>, p: Path, q: Path): nat {
    if evals == [] then 0
    else
      var last := evals[|evals| - 1];
      if !Pressed(last, p, q) || Advances(last.lined, last.after, p) then 0 else Firm(evals[..|evals| - 1], p, q) + 1
  }

  lemma FirmOn(evals: seq<Eval>, e: Eval, p: Path, q: Path)
    ensures Firm(evals + [e], p, q)
            == if !Pressed(e, p, q) || Advances(e.lined, e.after, p) then 0 else Firm(evals, p, q) + 1
  {
    assert (evals + [e])[..|evals|] == evals;
  }

  /** Every evaluation that counts has been counted, until they trade places. */
  ghost predicate AllCounted(t: Trace) {
    && Distinct(t.order)
    && forall p: Path, q: Path :: p != q ==> Firm(t.evals, p, q) == 0 || Before(t.order, q, p) || HasCount(t, p, q)
  }

  ghost predicate HasCount(t: Trace, p: Path, q: Path) {
    Firm(t.evals, p, q) <= CountOf(t.counts, p, q) < SWAP_TICKS
  }

  lemma {:induction false} AdjacentIsBefore(order: seq<Path>, p: Path, q: Path)
    requires Adjacent(order, p, q)
    ensures Before(order, p, q)
  {
    if !(order[0] == p && order[1] == q) {
      AdjacentIsBefore(order[1..], p, q);
    }
  }

  lemma EvaluateCounts(t: Trace, e: Event, p: Path, q: Path)
    requires AllCounted(t) && e.Evaluate? && Proper(e) && p != q
    ensures var z := Step(t, e);
            Firm(z.evals, p, q) == 0 || Before(z.order, q, p) || HasCount(z, p, q)
  {
    var z := Step(t, e);
    var lined := Lined(t.order, e.members, e.delay);
    var last := z.evals[|t.evals|];
    FirmOn(t.evals, last, p, q);
    if Firm(z.evals, p, q) != 0 {
      LinedIs(t.order, e.members, e.delay);
      PassCounts(lined, t.counts, e.delay, e.hyst, p, q);
      AdjacentIsBefore(lined, p, q);
      BeforeBoth(lined, p, q);
      if Before(t.order, q, p) {
        BeforeLined(t.order, e.members, e.delay, q, p);
        NotBothWays(lined, p, q);
      }
      assert Firm(t.evals, p, q) <= CountOf(t.counts, p, q) by {
        assert Firm(t.evals, p, q) == 0 || Before(t.order, q, p) || HasCount(t, p, q);
      }
    }
  }

  lemma StepAllCounted(t: Trace, e: Event)
    requires AllCounted(t) && Proper(e)
    ensures AllCounted(Step(t, e))
  {
    var z := Step(t, e);
    if e.Evaluate? {
      OrderedIsPermutation(t.order, t.counts, e.members, e.delay, e.hyst);
    }
    forall p: Path, q: Path | p != q
      ensures Firm(z.evals, p, q) == 0 || Before(z.order, q, p) || HasCount(z, p, q)
    {
      if e.Evaluate? {
        EvaluateCounts(t, e, p, q);
      } else {
        FirmOn(t.evals, z.evals[|t.evals|], p, q);
      }
    }
  }

  lemma {:induction false} RunAllCounted(t: Trace, events: seq<Event>)
    requires AllCounted(t) && AllProper(events)
    ensures AllCounted(Run(t, events))
    decreases |events|
  {
    hide Step, AllCounted;
    if events != [] {
      StepAllCounted(t, events[0]);
      RunAllCounted(Step(t, events[0]), events[1..]);
    }
  }

  /** And it does move, in every run: once a path has been just behind another, and
      slower by more than the margin, at five evaluations running, and the one ahead
      has itself moved ahead of nobody in them, it is ahead. */
  lemma MovesAheadAtTheFifth(events: seq<Event>, p: Path, q: Path)
    requires AllProper(events) && p != q && Firm(Run(START, events).evals, p, q) >= 5
    ensures Before(Run(START, events).order, q, p)
  {
    RunAllCounted(START, events);
    var z := Run(START, events);
    assert Firm(z.evals, p, q) == 0 || Before(z.order, q, p) || HasCount(z, p, q);
  }

  /** What pressed means: one just behind the other, and slower by more than the margin. */
  lemma PressedSays(e: Eval, p: Path, q: Path)
    requires p in e.delay && q in e.delay
    ensures Pressed(e, p, q)
            <==> (exists i :: 0 <= i < |e.lined| - 1 && e.lined[i] == p && e.lined[i + 1] == q) && e.delay[q] - e.delay[p] > e.hyst
  {
    AdjacentAt(e.lined, p, q);
  }

  lemma {:induction false} AdjacentAt(order: seq<Path>, p: Path, q: Path)
    ensures Adjacent(order, p, q) <==> exists i :: 0 <= i < |order| - 1 && order[i] == p && order[i + 1] == q
  {
    if |order| >= 2 {
      AdjacentAt(order[1..], p, q);
      if i :| 0 <= i < |order[1..]| - 1 && order[1..][i] == p && order[1..][i + 1] == q {
        assert order[i + 1] == p && order[i + 1 + 1] == q;
      }
      if i :| 0 <= i < |order| - 1 && order[i] == p && order[i + 1] == q {
        assert i > 0 ==> order[1..][i - 1] == p && order[1..][i - 1 + 1] == q;
      }
    }
  }

  // ----- where newcomers go

  predicate Slower(delay: Delays, p: Path, q: Path)
    requires p in delay && q in delay
  {
    delay[p] > delay[q]
  }

  predicate AllTimed(ps: seq<Path>, delay: Delays) {
    forall i :: 0 <= i < |ps| ==> ps[i] in delay
  }

  /** Each newcomer stands behind no faster path, and just before one that is faster, or
      that is a newcomer no slower. */
  predicate WellPlaced(order: seq<Path>, was: seq<Path>, delay: Delays)
    requires AllTimed(order, delay)
  {
    && (forall i, j :: 0 <= i < j < |order| && order[j] !in was ==> !Slower(delay, order[j], order[i]))
    && (forall i :: 0 <= i < |order| - 1 && order[i] !in was ==>
          Slower(delay, order[i], order[i + 1]) || (order[i + 1] !in was && !Slower(delay, order[i + 1], order[i])))
  }

  /** Inserted, a path goes before the first that is faster. */
  lemma {:induction false} InsertSays(order: seq<Path>, p: Path, delay: Delays) returns (k: nat)
    requires p in delay && AllTimed(order, delay)
    ensures k <= |order| && Insert(order, p, delay) == order[..k] + [p] + order[k..]
    ensures forall j :: 0 <= j < k ==> !Slower(delay, p, order[j])
    ensures k < |order| ==> Slower(delay, p, order[k])
  {
    if order == [] || DelayOf(delay, p) > DelayOf(delay, order[0]) {
      k := 0;
      assert order[..0] + [p] + order[0..] == [p] + order;
    } else {
      assert AllTimed(order[1..], delay) by { assert forall i :: 0 <= i < |order| - 1 ==> order[1..][i] == order[i + 1]; }
      var m := InsertSays(order[1..], p, delay);
      k := m + 1;
      assert order[..k] == [order[0]] + order[1..][..m] && order[k..] == order[1..][m..];
      assert [order[0]] + (order[1..][..m] + [p] + order[1..][m..]) == order[..k] + [p] + order[k..];
      forall j | 0 <= j < k ensures !Slower(delay, p, order[j]) {
        assert j > 0 ==> order[j] == order[1..][j - 1];
      }
    }
  }

  lemma BehindIsFaster(order: seq<Path>, k: nat, i: nat, p: Path, was: seq<Path>, delay: Delays)
    requires p in delay && AllTimed(order, delay) && WellPlaced(order, was, delay)
    requires k <= i < |order| && Slower(delay, p, order[k])
    ensures order[i] in was || Slower(delay, p, order[i])
  {
  }

  /** Put in at k, a newcomer no slower than those before it, and slower than what it is put
      before. */
  lemma PutWellPlaced(order: seq<Path>, k: nat, p: Path, was: seq<Path>, delay: Delays)
    requires p in delay && AllTimed(order, delay) && WellPlaced(order, was, delay) && p !in was && k <= |order|
    requires forall i :: 0 <= i < |order| && order[i] !in was ==> !Slower(delay, p, order[i])
    requires forall i :: 0 <= i < k ==> !Slower(delay, p, order[i])
    requires k < |order| ==> Slower(delay, p, order[k])
    ensures var r := order[..k] + [p] + order[k..]; AllTimed(r, delay) && WellPlaced(r, was, delay)
  {
    var r := order[..k] + [p] + order[k..];
    assert forall i :: 0 <= i < |r| ==> r[i] == if i < k then order[i] else if i == k then p else order[i - 1];
    assert forall i :: k <= i < |order| ==> order[i] in was by {
      forall i | k <= i < |order| ensures order[i] in was {
        BehindIsFaster(order, k, i, p, was, delay);
      }
    }
    forall i, j | 0 <= i < j < |r| && r[j] !in was ensures !Slower(delay, r[j], r[i]) {
      assert j <= k;
    }
    forall i | 0 <= i < |r| - 1 && r[i] !in was
      ensures Slower(delay, r[i], r[i + 1]) || (r[i + 1] !in was && !Slower(delay, r[i + 1], r[i]))
    {
      assert i <= k;
      if i + 1 < k {
        assert r[i] == order[i] && r[i + 1] == order[i + 1];
      }
    }
  }

  lemma InsertWellPlaced(order: seq<Path>, p: Path, was: seq<Path>, delay: Delays)
    requires p in delay && AllTimed(order, delay) && WellPlaced(order, was, delay) && p !in was
    requires forall i :: 0 <= i < |order| && order[i] !in was ==> !Slower(delay, p, order[i])
    ensures AllTimed(Insert(order, p, delay), delay) && WellPlaced(Insert(order, p, delay), was, delay)
    ensures forall i :: 0 <= i < |Insert(order, p, delay)| ==> Insert(order, p, delay)[i] == p || Insert(order, p, delay)[i] in order
  {
    var k := InsertSays(order, p, delay);
    hide WellPlaced, Insert;
    PutWellPlaced(order, k, p, was, delay);
  }

  lemma {:induction false} InsertAllWellPlaced(order: seq<Path>, ps: seq<Path>, was: seq<Path>, delay: Delays)
    requires AllTimed(order, delay) && AllTimed(ps, delay) && WellPlaced(order, was, delay)
    requires forall i :: 0 <= i < |ps| ==> ps[i] !in was
    requires forall i, j :: 0 <= i < j < |ps| ==> !Slower(delay, ps[j], ps[i])
    requires forall i, j :: 0 <= i < |order| && 0 <= j < |ps| && order[i] !in was ==> !Slower(delay, ps[j], order[i])
    ensures AllTimed(InsertAll(order, ps, delay), delay) && WellPlaced(InsertAll(order, ps, delay), was, delay)
    decreases |ps|
  {
    if ps != [] {
      hide WellPlaced;
      InsertWellPlaced(order, ps[0], was, delay);
      var next, rest := Insert(order, ps[0], delay), ps[1..];
      assert forall j :: 0 <= j < |rest| ==> rest[j] == ps[j + 1];
      forall i, j | 0 <= i < |next| && 0 <= j < |rest| && next[i] !in was ensures !Slower(delay, rest[j], next[i]) {
        if next[i] != ps[0] {
          var m :| 0 <= m < |order| && order[m] == next[i];
        }
      }
      InsertAllWellPlaced(next, rest, was, delay);
    }
  }

  predicate Falls(ps: seq<Path>, delay: Delays)
    requires AllTimed(ps, delay)
  {
    forall i, j :: 0 <= i < j < |ps| ==> !Slower(delay, ps[j], ps[i])
  }

  lemma PutFalls(rest: seq<Path>, k: nat, p: Path, delay: Delays)
    requires p in delay && AllTimed(rest, delay) && Falls(rest, delay) && k <= |rest|
    requires forall j :: 0 <= j < k ==> !Slower(delay, p, rest[j])
    requires k < |rest| ==> Slower(delay, p, rest[k])
    ensures var r := rest[..k] + [p] + rest[k..]; AllTimed(r, delay) && Falls(r, delay)
  {
    var r := rest[..k] + [p] + rest[k..];
    assert forall i :: 0 <= i < |r| ==> r[i] == if i < k then rest[i] else if i == k then p else rest[i - 1];
    assert forall j :: k < j < |rest| ==> !Slower(delay, rest[j], rest[k]);
  }

  lemma {:induction false} SlowestFirst(ps: seq<Path>, delay: Delays)
    requires AllTimed(ps, delay)
    ensures AllTimed(Slowest(ps, delay), delay) && Falls(Slowest(ps, delay), delay)
  {
    if ps != [] {
      hide Falls, Insert;
      assert AllTimed(ps[1..], delay) by { assert forall i :: 0 <= i < |ps| - 1 ==> ps[1..][i] == ps[i + 1]; }
      SlowestFirst(ps[1..], delay);
      var rest := Slowest(ps[1..], delay);
      var k := InsertSays(rest, ps[0], delay);
      PutFalls(rest, k, ps[0], delay);
    }
  }

  /** The order as the swaps find it: who stays as before, and each newcomer placed by its
      delay. With no order before, that is slowest first. */
  lemma NewcomersByDelay(prev: seq<Path>, members: seq<Path>, delay: Delays)
    requires Distinct(prev) && Distinct(members) && AllTimed(members, delay)
    ensures var r := Lined(prev, members, delay); AllTimed(r, delay) && WellPlaced(r, prev, delay)
    ensures prev == [] ==>
              var r := Lined(prev, members, delay); forall i, j :: 0 <= i < j < |r| ==> !Slower(delay, r[j], r[i])
  {
    var kept := Kept(prev, members);
    var ps := Newcomers(members, kept);
    KeptIs(prev, members);
    NewcomersAre(members, kept);
    assert AllTimed(kept, delay) by { InAll(kept, members, delay); }
    assert AllTimed(ps, delay) by { InAll(ps, members, delay); }
    SlowestIs(ps, delay);
    SlowestFirst(ps, delay);
    var slowest := Slowest(ps, delay);
    assert WellPlaced(kept, prev, delay) by {
      forall i | 0 <= i < |kept| ensures kept[i] in prev {
        assert kept[i] in kept;
      }
    }
    forall i | 0 <= i < |slowest| ensures slowest[i] !in prev {
      assert slowest[i] in slowest && slowest[i] in ps;
    }
    forall i | 0 <= i < |kept| ensures kept[i] in prev {
      assert kept[i] in kept;
    }
    InsertAllWellPlaced(kept, slowest, prev, delay);
  }

  lemma InAll(ps: seq<Path>, members: seq<Path>, delay: Delays)
    requires AllTimed(members, delay) && forall p: Path :: p in ps ==> p in members
    ensures AllTimed(ps, delay)
  {
    forall i | 0 <= i < |ps| ensures ps[i] in delay {
      assert ps[i] in ps;
      var k :| 0 <= k < |members| && members[k] == ps[i];
    }
  }

  /** With nothing counted nothing trades places. */
  lemma {:induction false} FirstPassKeeps(order: seq<Path>, delay: Delays, hyst: real)
    ensures SwapPass(order, map[], delay, hyst).order == order
    decreases |order|
  {
    if |order| >= 2 {
      FirstPassKeeps(order[1..], delay, hyst);
      assert order == [order[0]] + order[1..];
    }
  }

  /** Off, the cascade forgets its order: the first time it is on again, the paths fill
      slowest first. */
  lemma OffStartsAfresh(t: Trace, e: Event)
    requires e.Evaluate? && Proper(e) && AllTimed(e.members, e.delay)
    ensures var r := Step(Step(t, Off), e).order;
            && AllTimed(r, e.delay) && (forall i, j :: 0 <= i < j < |r| ==> !Slower(e.delay, r[j], r[i]))
            && multiset(r) == multiset(e.members)
  {
    NewcomersByDelay([], e.members, e.delay);
    FirstPassKeeps(Lined([], e.members, e.delay), e.delay, e.hyst);
    OrderedIsPermutation([], map[], e.members, e.delay, e.hyst);
  }
}
