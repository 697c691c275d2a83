/** What the cascade publishes and picks from (internal/relay/cascade.go), and the
    order it keeps as the source keeps it: in place, from one evaluation to the
    next. */
module CascadePlan {
  import opened Cascade
  import opened Collections
  import opened Ids

  /** One eligible path, in the scheduler's ranking. */
  datatype Candidate = Candidate(path: Path, healthy: bool, shapedKbps: real, delay: real)

  datatype Gates = Gates(maxBehind: real, minSharePercent: real)

  /** A path measured too small a share of the best is not worth spreading onto. */
  predicate Undersized(shapedKbps: real, bestKbps: real, g: Gates) {
    shapedKbps > 0.0 && bestKbps > 0.0 && shapedKbps * 100.0 < bestKbps * g.minSharePercent
  }

  /** The fastest of the healthy. */
  function Best(eligible: seq<Candidate>): (r: real)
    ensures r >= 0.0
    ensures forall i :: 0 <= i < |eligible| && eligible[i].healthy ==> eligible[i].shapedKbps <= r
    ensures r == 0.0 || exists i :: 0 <= i < |eligible| && eligible[i].healthy && eligible[i].shapedKbps == r
  {
    if eligible == [] then 0.0
    else
      var last := |eligible| - 1;
      var rest := Best(eligible[..last]);
      if eligible[last].healthy && eligible[last].shapedKbps > rest then eligible[last].shapedKbps else rest
  }

  predicate Passes(k: Candidate, best: real, primaryDelay: real, g: Gates) {
    k.healthy && !Undersized(k.shapedKbps, best, g) && k.delay - primaryDelay <= g.maxBehind
  }

  predicate Admits(eligible: seq<Candidate>, p: Path, best: real, primaryDelay: real, g: Gates) {
    exists i :: 0 <= i < |eligible| && eligible[i].path == p && Passes(eligible[i], best, primaryDelay, g)
  }

  /** The size gate never shuts out the best: a healthy path at the best measured
      speed, or one never measured, is admitted wherever it is in reach. */
  lemma BestIsAdmitted(eligible: seq<Candidate>, i: nat, primaryDelay: real, g: Gates)
    requires g.minSharePercent <= 100.0 && i < |eligible| && eligible[i].healthy
    requires eligible[i].shapedKbps == Best(eligible) || eligible[i].shapedKbps <= 0.0
    requires eligible[i].delay - primaryDelay <= g.maxBehind
    ensures Admits(eligible, eligible[i].path, Best(eligible), primaryDelay, g)
  {
    var k, best := eligible[i], Best(eligible);
    assert !Undersized(k.shapedKbps, best, g) by {
      if k.shapedKbps > 0.0 {
        assert best * 100.0 >= best * g.minSharePercent;
      }
    }
    assert Passes(k, best, primaryDelay, g);
  }

  /** So the published order is the primary alone only when every healthy path at the
      best speed is out of reach. */
  lemma AloneOnlyOutOfReach(order: seq<Path>, eligible: seq<Candidate>, tx: seq<Path>, primary: Path, primaryDelay: real,
                            g: Gates, i: nat)
    requires g.minSharePercent <= 100.0 && i < |eligible| && eligible[i].healthy
    requires eligible[i].shapedKbps == Best(eligible) && eligible[i].delay - primaryDelay <= g.maxBehind
    requires Distinct(tx) && multiset(order) == multiset(Members(eligible, tx, Best(eligible), primaryDelay, g))
    ensures eligible[i].path in Published(order, eligible, tx, primary, Best(eligible), primaryDelay, g)
  {
    var p, best := eligible[i].path, Best(eligible);
    BestIsAdmitted(eligible, i, primaryDelay, g);
    MembersAre(eligible, tx, best, primaryDelay, g);
    CallPathsAre(eligible, tx, best, primaryDelay, g);
    SameElements(order, Members(eligible, tx, best, primaryDelay, g));
    assert p in order + CallPaths(eligible, tx, best, primaryDelay, g);
  }

  /** The paths not carrying the call that pass every gate. */
  function Members(eligible: seq<Candidate>, tx: seq<Path>, best: real, primaryDelay: real, g: Gates): seq<Path> {
    if eligible == [] then []
    else if eligible[0].path !in tx && Passes(eligible[0], best, primaryDelay, g)
    then [eligible[0].path] + Members(eligible[1..], tx, best, primaryDelay, g)
    else Members(eligible[1..], tx, best, primaryDelay, g)
  }

  /** The call's paths that pass, the primary - the first of them - last. */
  ghost function CallPaths(eligible: seq<Candidate>, tx: seq<Path>, best: real, primaryDelay: real, g: Gates): seq<Path> {
    if tx == [] then []
    else CallPaths(eligible, tx[1..], best, primaryDelay, g)
         + if Admits(eligible, tx[0], best, primaryDelay, g) then [tx[0]] else []
  }

  /** The fill order as published: the unprotected in the order kept, then the
      call's paths; where no path passes, the primary alone. */
  ghost function Published(order: seq<Path>, eligible: seq<Candidate>, tx: seq<Path>, primary: Path, best: real,
                           primaryDelay: real, g: Gates): seq<Path> {
    var all := order + CallPaths(eligible, tx, best, primaryDelay, g);
    if all != [] then all
    else if exists i :: 0 <= i < |eligible| && eligible[i].path == primary then [primary]
    else []
  }

  lemma {:induction false} MembersAre(eligible: seq<Candidate>, tx: seq<Path>, best: real, primaryDelay: real, g: Gates)
    ensures forall p: Path :: p in Members(eligible, tx, best, primaryDelay, g) <==>
              p !in tx && Admits(eligible, p, best, primaryDelay, g)
  {
    if eligible != [] {
      MembersAre(eligible[1..], tx, best, primaryDelay, g);
      forall p: Path ensures Admits(eligible, p, best, primaryDelay, g) <==>
        (eligible[0].path == p && Passes(eligible[0], best, primaryDelay, g))
        || Admits(eligible[1..], p, best, primaryDelay, g)
      {
        AdmitsStep(eligible, p, best, primaryDelay, g);
      }
    }
  }

  lemma AdmitsStep(eligible: seq<Candidate>, p: Path, best: real, primaryDelay: real, g: Gates)
    requires eligible != []
    ensures Admits(eligible, p, best, primaryDelay, g) <==>
            (eligible[0].path == p && Passes(eligible[0], best, primaryDelay, g))
            || Admits(eligible[1..], p, best, primaryDelay, g)
  {
    if Admits(eligible[1..], p, best, primaryDelay, g) {
      var i :| 0 <= i < |eligible[1..]| && eligible[1..][i].path == p && Passes(eligible[1..][i], best, primaryDelay, g);
      assert eligible[i + 1] == eligible[1..][i];
    }
    if Admits(eligible, p, best, primaryDelay, g) {
      var i :| 0 <= i < |eligible| && eligible[i].path == p && Passes(eligible[i], best, primaryDelay, g);
      if i > 0 {
        assert eligible[1..][i - 1] == eligible[i];
      }
    }
  }

  lemma {:induction false} CallPathsAre(eligible: seq<Candidate>, tx: seq<Path>, best: real, primaryDelay: real, g: Gates)
    requires Distinct(tx)
    ensures var r := CallPaths(eligible, tx, best, primaryDelay, g);
            && Distinct(r)
            && (forall p: Path :: p in r <==> p in tx && Admits(eligible, p, best, primaryDelay, g))
            && (tx != [] && tx[0] in r ==> r[|r| - 1] == tx[0])
  {
    if tx != [] {
      var rest := CallPaths(eligible, tx[1..], best, primaryDelay, g);
      CallPathsAre(eligible, tx[1..], best, primaryDelay, g);
      if Admits(eligible, tx[0], best, primaryDelay, g) {
        DistinctJoin(rest, [tx[0]]);
      } else {
        assert rest + [] == rest;
      }
    }
  }

  /** The published order is safe: each path once, every path of the call after every
      other, the primary last wherever it is one of them, and nothing in it that
      fails a gate - unless nothing passes, when bulk rides the primary alone. */
  lemma PublishedIsSafe(order: seq<Path>, eligible: seq<Candidate>, tx: seq<Path>, primary: Path, best: real,
                        primaryDelay: real, g: Gates)
    requires Distinct(tx) && tx != [] && tx[0] == primary
    requires Distinct(order) && multiset(order) == multiset(Members(eligible, tx, best, primaryDelay, g))
    ensures var r := Published(order, eligible, tx, primary, best, primaryDelay, g);
            && Distinct(r)
            && (forall i, j :: 0 <= i < j < |r| && r[i] in tx ==> r[j] in tx)
            && (primary in r ==> r[|r| - 1] == primary)
            && ((forall p: Path :: p in r <==> Admits(eligible, p, best, primaryDelay, g))
                || (r == [primary] && forall p: Path :: !Admits(eligible, p, best, primaryDelay, g)))
  {
    var calls := CallPaths(eligible, tx, best, primaryDelay, g);
    MembersAre(eligible, tx, best, primaryDelay, g);
    CallPathsAre(eligible, tx, best, primaryDelay, g);
    SameElements(order, Members(eligible, tx, best, primaryDelay, g));
    DistinctJoin(order, calls);
    AfterThem(order, calls, tx);
  }

  lemma SameElements(a: seq<Path>, b: seq<Path>)
    requires multiset(a) == multiset(b)
    ensures forall p: Path :: p in a <==> p in b
  {
    forall p: Path ensures p in a <==> p in b {
      assert p in a <==> p in multiset(a);
      assert p in b <==> p in multiset(b);
    }
  }

  lemma AfterThem(order: seq<Path>, calls: seq<Path>, tx: seq<Path>)
    requires forall p: Path :: p in order ==> p !in tx
    requires forall p: Path :: p in calls ==> p in tx
    ensures var r := order + calls; forall i, j :: 0 <= i < j < |r| && r[i] in tx ==> r[j] in tx
  {
    var r := order + calls;
    forall j | 0 <= j < |r| ensures r[j] in tx <==> j >= |order| {
      if j < |order| {
        assert r[j] == order[j];
      } else {
        assert r[j] == calls[j - |order|];
      }
    }
  }

  /** Exactly what is admitted: a healthy path, not measured at too small a share of the
      best, and not too far behind the primary. */
  lemma AdmittedExactly(eligible: seq<Candidate>, p: Path, best: real, primaryDelay: real, g: Gates)
    ensures Admits(eligible, p, best, primaryDelay, g)
            <==> exists i :: 0 <= i < |eligible| && eligible[i].path == p && eligible[i].healthy
                             && (eligible[i].shapedKbps <= 0.0 || best <= 0.0
                                 || eligible[i].shapedKbps * 100.0 >= best * g.minSharePercent)
                             && eligible[i].delay <= primaryDelay + g.maxBehind
  {
    if i :| 0 <= i < |eligible| && eligible[i].path == p && eligible[i].healthy
            && (eligible[i].shapedKbps <= 0.0 || best <= 0.0 || eligible[i].shapedKbps * 100.0 >= best * g.minSharePercent)
            && eligible[i].delay <= primaryDelay + g.maxBehind {
      assert Passes(eligible[i], best, primaryDelay, g);
    }
  }

  /** In ids, p comes before q. */
  predicate ComesBefore(ids: seq<Path>, p: Path, q: Path) {
    exists i, j :: 0 <= i < j < |ids| && ids[i] == p && ids[j] == q
  }

  lemma ComesBeforeLast(ids: seq<Path>, last: Path, p: Path, q: Path)
    ensures ComesBefore(ids, p, q) ==> ComesBefore(ids + [last], p, q)
    ensures p in ids ==> ComesBefore(ids + [last], p, last)
  {
    var all := ids + [last];
    if i, j :| 0 <= i < j < |ids| && ids[i] == p && ids[j] == q {
      assert all[i] == p && all[j] == q;
    }
    if p in ids {
      var i :| 0 <= i < |ids| && ids[i] == p;
      assert all[i] == p && all[|ids|] == last;
    }
  }

  /** The call's paths are published backwards. */
  lemma {:induction false} CallPathsBackwards(eligible: seq<Candidate>, tx: seq<Path>, best: real, primaryDelay: real, g: Gates,
                                              i: nat, j: nat)
    requires Distinct(tx) && i < j < |tx|
    requires Admits(eligible, tx[i], best, primaryDelay, g) && Admits(eligible, tx[j], best, primaryDelay, g)
    ensures ComesBefore(CallPaths(eligible, tx, best, primaryDelay, g), tx[j], tx[i])
  {
    hide Admits, ComesBefore;
    var rest := CallPaths(eligible, tx[1..], best, primaryDelay, g);
    CallPathsAre(eligible, tx[1..], best, primaryDelay, g);
    if i > 0 {
      CallPathsBackwards(eligible, tx[1..], best, primaryDelay, g, i - 1, j - 1);
      if Admits(eligible, tx[0], best, primaryDelay, g) {
        ComesBeforeLast(rest, tx[0], tx[j], tx[i]);
      } else {
        assert rest + [] == rest;
      }
    } else {
      assert tx[1..][j - 1] == tx[j];
      ComesBeforeLast(rest, tx[0], tx[j], tx[0]);
    }
  }

  /** The published order begins with the paths not carrying the call, in the order kept. */
  lemma PublishedBegins(order: seq<Path>, eligible: seq<Candidate>, tx: seq<Path>, primary: Path, best: real,
                        primaryDelay: real, g: Gates)
    requires order != []
    ensures order <= Published(order, eligible, tx, primary, best, primaryDelay, g)
  {
  }

  method IsAdmitted(eligible: seq<Candidate>, p: Path, best: real, primaryDelay: real, g: Gates) returns (yes: bool)
    ensures yes <==> Admits(eligible, p, best, primaryDelay, g)
  {
    for i := 0 to |eligible|
      invariant forall k :: 0 <= k < i ==> !(eligible[k].path == p && Passes(eligible[k], best, primaryDelay, g))
    {
      if eligible[i].path == p && Passes(eligible[i], best, primaryDelay, g) {
        return true;
      }
    }
    return false;
  }

  /** Publishes the fill order: the unprotected as ordered, then the call's paths
      walked backwards. */
  method Publish(order: seq<Path>, eligible: seq<Candidate>, tx: seq<Path>, primary: Path, best: real,
                 primaryDelay: real, g: Gates)
    returns (ids: seq<Path>)
    ensures ids == Published(order, eligible, tx, primary, best, primaryDelay, g)
  {
    ids := order;
    for i := |tx| downto 0
      invariant ids == order + CallPaths(eligible, tx[i..], best, primaryDelay, g)
    {
      assert tx[i..][1..] == tx[i + 1..];
      var admitted := IsAdmitted(eligible, tx[i], best, primaryDelay, g);
      if admitted {
        ids := ids + [tx[i]];
      }
    }
    if |ids| == 0 {
      for i := 0 to |eligible|
        invariant forall k :: 0 <= k < i ==> eligible[k].path != primary
      {
        if eligible[i].path == primary {
          return [primary];
        }
      }
    }
  }

  // ----- picking

  /** A bulk packet goes out of exactly one path: the first with room, or the first
      of all where none has. */
  method Pick(order: seq<Path>, room: Path -> bool) returns (i: nat, overflowed: bool)
    requires order != []
    ensures i < |order|
    ensures !overflowed ==> room(order[i]) && forall j :: 0 <= j < i ==> !room(order[j])
    ensures overflowed ==> i == 0 && forall j :: 0 <= j < |order| ==> !room(order[j])
  {
    i := 0;
    while i < |order|
      invariant i <= |order| && forall j :: 0 <= j < i ==> !room(order[j])
    {
      if room(order[i]) {
        return i, false;
      }
      i := i + 1;
    }
    return 0, true;
  }

  // ----- the order, in place

  /** The pass from place i on, by what it finds there: past one path, or past a
      pair swapped. */
  lemma SwapAt(order: seq<Path>, i: nat, counts: map<Pair, nat>, delay: Delays, hyst: real)
    requires i + 1 < |order|
    ensures var a, b := order[i], order[i + 1];
            var r := SwapPass(order[i..], counts, delay, hyst);
            var n := CountOf(counts, a, b) + 1;
            var one := SwapPass(order[i + 1..], counts, delay, hyst);
            var two := SwapPass(order[i + 2..], counts, delay, hyst);
            if DelayOf(delay, b) - DelayOf(delay, a) <= hyst then r == Passed([a] + one.order, one.counts)
            else if n < SWAP_TICKS then r == Passed([a] + one.order, map[(a, b) := n] + one.counts)
            else r == Passed([b, a] + two.order, two.counts)
  {
    assert order[i..][1..] == order[i + 1..] && order[i..][2..] == order[i + 2..];
  }

  lemma PastOne(order: seq<Path>, i: nat, rest: seq<Path>)
    requires i < |order|
    ensures order[..i] + ([order[i]] + rest) == order[..i + 1] + rest
  {
  }

  lemma PastTwo(order: seq<Path>, i: nat, rest: seq<Path>)
    requires i + 1 < |order|
    ensures var swapped := order[i := order[i + 1]][i + 1 := order[i]];
            && order[..i] + ([order[i + 1], order[i]] + rest) == swapped[..i + 2] + rest
            && swapped[i + 2..] == order[i + 2..]
  {
  }

  /** Slotting in from place at on: past a slower path, or here. */
  lemma InsertAt(order: seq<Path>, at: nat, p: Path, delay: Delays)
    requires at <= |order|
    ensures if at < |order| && DelayOf(delay, p) <= DelayOf(delay, order[at])
            then order[..at] + Insert(order[at..], p, delay) == order[..at + 1] + Insert(order[at + 1..], p, delay)
            else order[..at] + Insert(order[at..], p, delay) == order[..at] + [p] + order[at..]
  {
    if at < |order| && DelayOf(delay, p) <= DelayOf(delay, order[at]) {
      assert order[at..][1..] == order[at + 1..];
      PastOne(order, at, Insert(order[at + 1..], p, delay));
    } else {
      assert Insert(order[at..], p, delay) == [p] + order[at..];
    }
  }

  lemma SwapEnds(rest: seq<Path>, counts: map<Pair, nat>, delay: Delays, hyst: real)
    requires |rest| < 2
    ensures SwapPass(rest, counts, delay, hyst) == Passed(rest, map[])
  {
  }

  lemma CountedOn(swaps: map<Pair, nat>, key: Pair, n: nat, rest: map<Pair, nat>)
    ensures swaps + (map[key := n] + rest) == swaps[key := n] + rest
  {
  }

  class CascadeOrder {
    var cascadeOrder: seq<Path>
    var swapFor: map<Pair, nat>

    constructor ()
      ensures cascadeOrder == [] && swapFor == map[]
    {
      cascadeOrder, swapFor := [], map[];
    }

    /** The cascade is off: the next time it is on, it starts afresh. */
    method Off()
      modifies this
      ensures cascadeOrder == [] && swapFor == map[]
    {
      cascadeOrder, swapFor := [], map[];
    }

    /** Sorts the unprotected members slowest first, holding the previous order
        against small differences. */
    method OrderCascade(members: seq<Path>, delay: Delays, hyst: real) returns (order: seq<Path>)
      modifies this
      ensures Passed(order, swapFor) == Ordered(old(cascadeOrder), old(swapFor), members, delay, hyst)
      ensures cascadeOrder == order
    {
      order := Keep(members);
      var newcomers := FindNew(members, order);
      newcomers := Slowest(newcomers, delay);
      for i := 0 to |newcomers|
        invariant InsertAll(order, newcomers[i..], delay) == Lined(cascadeOrder, members, delay)
        invariant cascadeOrder == old(cascadeOrder) && swapFor == old(swapFor)
      {
        order := SlotIn(order, newcomers[i], delay);
      }
      var swaps;
      order, swaps := Swap(order, delay, hyst);
      swapFor, cascadeOrder := swaps, order;
    }

    method Keep(members: seq<Path>) returns (order: seq<Path>)
      ensures order == Kept(cascadeOrder, members)
    {
      order := [];
      for i := 0 to |cascadeOrder|
        invariant order + Kept(cascadeOrder[i..], members) == Kept(cascadeOrder, members)
      {
        if cascadeOrder[i] in members {
          order := order + [cascadeOrder[i]];
        }
      }
    }

    method FindNew(members: seq<Path>, kept: seq<Path>) returns (newcomers: seq<Path>)
      ensures newcomers == Newcomers(members, kept)
    {
      newcomers := [];
      for i := 0 to |members|
        invariant newcomers + Newcomers(members[i..], kept) == Newcomers(members, kept)
      {
        if members[i] !in kept {
          newcomers := newcomers + [members[i]];
        }
      }
    }

    method SlotIn(order: seq<Path>, p: Path, delay: Delays) returns (r: seq<Path>)
      ensures r == Insert(order, p, delay)
    {
      var at := 0;
      assert order[..0] == [] && order[0..] == order;
      while at < |order| && DelayOf(delay, p) <= DelayOf(delay, order[at])
        invariant at <= |order| && order[..at] + Insert(order[at..], p, delay) == Insert(order, p, delay)
      {
        InsertAt(order, at, p, delay);
        at := at + 1;
      }
      InsertAt(order, at, p, delay);
      r := order[..at] + [p] + order[at..];
    }

    /** One step of the pass: past a pair left alone, or past a pair swapped. */
    method SwapStep(lined: seq<Path>, from: nat, counted: map<Pair, nat>, delay: Delays, hyst: real)
      returns (order: seq<Path>, swaps: map<Pair, nat>, i: nat)
      requires from + 1 < |lined|
      ensures from < i <= |order| == |lined|
      ensures var was, left := SwapPass(lined[from..], swapFor, delay, hyst), SwapPass(order[i..], swapFor, delay, hyst);
              order[..i] + left.order == lined[..from] + was.order && swaps + left.counts == counted + was.counts
    {
      order, swaps, i := lined, counted, from;
      var a, b := order[i], order[i + 1];
      SwapAt(order, i, swapFor, delay, hyst);
      PastOne(order, i, SwapPass(order[i + 1..], swapFor, delay, hyst).order);
      PastTwo(order, i, SwapPass(order[i + 2..], swapFor, delay, hyst).order);
      if DelayOf(delay, b) - DelayOf(delay, a) <= hyst {
        return order, swaps, i + 1;
      }
      var n := CountOf(swapFor, a, b) + 1;
      if n < SWAP_TICKS {
        CountedOn(swaps, (a, b), n, SwapPass(order[i + 1..], swapFor, delay, hyst).counts);
        return order, swaps[(a, b) := n], i + 1;
      }
      order := order[i := b][i + 1 := a];
      i := i + 2;
    }

    method Swap(lined: seq<Path>, delay: Delays, hyst: real) returns (order: seq<Path>, swaps: map<Pair, nat>)
      ensures Passed(order, swaps) == SwapPass(lined, swapFor, delay, hyst)
    {
      order, swaps := lined, map[];
      var i := 0;
      while i + 1 < |order|
        invariant i <= |order|
        invariant order[..i] + SwapPass(order[i..], swapFor, delay, hyst).order == SwapPass(lined, swapFor, delay, hyst).order
        invariant swaps + SwapPass(order[i..], swapFor, delay, hyst).counts == SwapPass(lined, swapFor, delay, hyst).counts
        decreases |order| - i
      {
        order, swaps, i := SwapStep(order, i, swaps, delay, hyst);
      }
      SwapEnds(order[i..], swapFor, delay, hyst);
      assert order[..i] + order[i..] == order;
      assert swaps + map[] == swaps;
    }
  }
}
