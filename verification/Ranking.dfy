/** The eligible paths of one evaluation, best first (evaluate in
    internal/relay/scheduler.go). */
module Ranking {
  import opened Ids
  import opened Scheduler
  import opened SchedulerRuns

  /** A path as measured and judged: whether its machine calls it down, and the
      delay that breaks ties. */
  datatype Measured = Measured(path: Scored, down: bool, delayMs: real)

  predicate Better(a: Measured, b: Measured) {
    a.path.score > b.path.score || (a.path.score == b.path.score && a.delayMs < b.delayMs)
  }

  /** Usable in principle and reachable in practice. */
  function Usable(all: seq<Measured>, sendable: set<Path>): seq<Measured> {
    if all == [] then []
    else if !all[0].down && all[0].path.id in sendable then [all[0]] + Usable(all[1..], sendable)
    else Usable(all[1..], sendable)
  }

  /** x joins a ranking behind all that are not worse: equals keep their order. */
  function Join(ranked: seq<Measured>, x: Measured): seq<Measured> {
    if ranked == [] then [x]
    else
      var last := |ranked| - 1;
      if Better(x, ranked[last]) then Join(ranked[..last], x) + [ranked[last]] else ranked + [x]
  }

  function Rank(ms: seq<Measured>): seq<Measured> {
    if ms == [] then [] else Join(Rank(ms[..|ms| - 1]), ms[|ms| - 1])
  }

  function Paths(ms: seq<Measured>): (r: seq<Scored>)
    ensures |r| == |ms| && forall i :: 0 <= i < |ms| ==> r[i] == ms[i].path
  {
    if ms == [] then [] else [ms[0].path] + Paths(ms[1..])
  }

  /** None after is better than one before. */
  predicate Sorted(ms: seq<Measured>) {
    forall i, j :: 0 <= i < j < |ms| ==> !Better(ms[j], ms[i])
  }

  lemma {:induction false} JoinIs(ranked: seq<Measured>, x: Measured)
    requires Sorted(ranked)
    ensures Sorted(Join(ranked, x)) && multiset(Join(ranked, x)) == multiset(ranked) + multiset{x}
  {
    if ranked != [] {
      var last := |ranked| - 1;
      assert ranked == ranked[..last] + [ranked[last]];
      if Better(x, ranked[last]) {
        var front := Join(ranked[..last], x);
        JoinIs(ranked[..last], x);
        forall i | 0 <= i < |front| ensures !Better(ranked[last], front[i]) {
          assert front[i] in multiset(front);
          assert front[i] in multiset(ranked[..last]) + multiset{x};
          if front[i] != x {
            assert front[i] in ranked[..last];
          }
        }
      } else {
        JoinSorted(ranked, x);
      }
    }
  }

  lemma JoinSorted(ranked: seq<Measured>, x: Measured)
    requires Sorted(ranked) && ranked != [] && !Better(x, ranked[|ranked| - 1])
    ensures Sorted(ranked + [x])
  {
    forall i | 0 <= i < |ranked| ensures !Better(x, ranked[i]) {
      assert i < |ranked| - 1 ==> !Better(ranked[|ranked| - 1], ranked[i]);
    }
  }

  lemma {:induction false} RankIs(ms: seq<Measured>)
    ensures Sorted(Rank(ms)) && multiset(Rank(ms)) == multiset(ms)
  {
    if ms != [] {
      hide Sorted, Join;
      var last := |ms| - 1;
      RankIs(ms[..last]);
      JoinIs(Rank(ms[..last]), ms[last]);
      assert ms == ms[..last] + [ms[last]];
    }
  }

  lemma {:induction false} UsableIs(all: seq<Measured>, sendable: set<Path>)
    ensures forall m: Measured :: m in Usable(all, sendable) <==> m in all && !m.down && m.path.id in sendable
  {
    if all != [] {
      UsableIs(all[1..], sendable);
      assert all == [all[0]] + all[1..];
    }
  }

  lemma {:induction false} UsableApart(all: seq<Measured>, sendable: set<Path>)
    requires DistinctIds(Paths(all))
    ensures DistinctIds(Paths(Usable(all, sendable)))
  {
    if all != [] {
      var rest := Usable(all[1..], sendable);
      assert forall i :: 0 <= i < |all[1..]| ==> all[1..][i] == all[i + 1];
      UsableApart(all[1..], sendable);
      UsableIs(all[1..], sendable);
      forall i | 0 <= i < |rest| ensures rest[i].path.id != all[0].path.id {
        hide Usable;
        assert rest[i] in rest;
      }
    }
  }

  /** Rearranging keeps ids apart. */
  lemma {:induction false} ApartRearranged(a: seq<Measured>, b: seq<Measured>)
    requires DistinctIds(Paths(a)) && multiset(a) == multiset(b)
    ensures DistinctIds(Paths(b))
  {
    forall i, j | 0 <= i < j < |b| ensures b[i].path.id != b[j].path.id {
      if b[i].path.id == b[j].path.id {
        assert b[i] in multiset(b) && b[j] in multiset(b);
        assert b[i] in a && b[j] in a;
        assert b[i] == b[j];
        TwiceInB(b, i, j);
        OnceInA(a, b[i]);
      }
    }
  }

  lemma TwiceInB(b: seq<Measured>, i: nat, j: nat)
    requires i < j < |b| && b[i] == b[j]
    ensures multiset(b)[b[i]] >= 2
  {
    assert b == b[..j] + [b[j]] + b[j + 1..];
    assert b[i] in b[..j];
    assert multiset(b[..j])[b[i]] >= 1;
  }

  lemma {:induction false} OnceInA(a: seq<Measured>, m: Measured)
    requires DistinctIds(Paths(a))
    ensures multiset(a)[m] <= 1
  {
    if a != [] {
      assert a == [a[0]] + a[1..];
      OnceInA(a[1..], m);
      if m == a[0] {
        assert m !in a[1..];
      }
    }
  }

  lemma SameMembers(a: seq<Measured>, b: seq<Measured>)
    requires multiset(a) == multiset(b)
    ensures forall m: Measured :: m in b <==> m in a
  {
    forall m: Measured ensures m in b <==> m in a {
      assert m in b <==> m in multiset(b);
    }
  }

  lemma SortedSays(ranked: seq<Measured>)
    requires Sorted(ranked)
    ensures forall i, j :: 0 <= i < j < |ranked| ==>
              ranked[i].path.score > ranked[j].path.score
              || (ranked[i].path.score == ranked[j].path.score && ranked[i].delayMs <= ranked[j].delayMs)
  {
    forall i, j | 0 <= i < j < |ranked|
      ensures ranked[i].path.score > ranked[j].path.score
              || (ranked[i].path.score == ranked[j].path.score && ranked[i].delayMs <= ranked[j].delayMs)
    {
      assert !Better(ranked[j], ranked[i]);
    }
  }

  /** What evaluate hands on is proper: distinct paths, all of them sendable and not
      down, none after better than one before - and none usable left out. */
  lemma EligibleIsProper(all: seq<Measured>, sendable: set<Path>, now: int, c: Config, unstable: set<Path>)
    requires DistinctIds(Paths(all)) && forall id :: id in sendable ==> id.id < PATHS
    ensures var ranked := Rank(Usable(all, sendable));
            && Proper(Input(now, c, Paths(ranked), sendable, unstable)) && Sorted(ranked)
            && (forall m: Measured :: m in ranked <==> m in all && !m.down && m.path.id in sendable)
            && forall i, j :: 0 <= i < j < |ranked| ==>
                 ranked[i].path.score > ranked[j].path.score
                 || (ranked[i].path.score == ranked[j].path.score && ranked[i].delayMs <= ranked[j].delayMs)
  {
    hide DistinctIds, Usable, Rank, Sorted;
    var usable := Usable(all, sendable);
    var ranked := Rank(usable);
    UsableIs(all, sendable);
    UsableApart(all, sendable);
    RankIs(usable);
    ApartRearranged(usable, ranked);
    SameMembers(usable, ranked);
    forall i | 0 <= i < |ranked| ensures ranked[i].path.id in sendable {
      assert ranked[i] in ranked;
    }
    SortedSays(ranked);
  }

  // ----- equals keep their order

  /** Those of one score and delay, in order. */
  function Ties(ms: seq<Measured>, score: real, delayMs: real): seq<Measured> {
    if ms == [] then []
    else
      var last := |ms| - 1;
      Ties(ms[..last], score, delayMs)
      + if ms[last].path.score == score && ms[last].delayMs == delayMs then [ms[last]] else []
  }

  lemma TiesOn(ms: seq<Measured>, x: Measured, score: real, delayMs: real)
    ensures Ties(ms + [x], score, delayMs)
            == Ties(ms, score, delayMs) + if x.path.score == score && x.delayMs == delayMs then [x] else []
  {
    assert (ms + [x])[..|ms|] == ms;
  }

  lemma {:induction false} JoinTies(ranked: seq<Measured>, x: Measured, score: real, delayMs: real)
    ensures Ties(Join(ranked, x), score, delayMs)
            == Ties(ranked, score, delayMs) + if x.path.score == score && x.delayMs == delayMs then [x] else []
  {
    if ranked == [] {
      assert [x][..0] == [];
    } else {
      var last := |ranked| - 1;
      if Better(x, ranked[last]) {
        JoinTies(ranked[..last], x, score, delayMs);
        TiesOn(Join(ranked[..last], x), ranked[last], score, delayMs);
      } else {
        TiesOn(ranked, x, score, delayMs);
      }
    }
  }

  /** The sort is stable: paths of equal score and delay are ranked as they were given. */
  lemma {:induction false} RankIsStable(ms: seq<Measured>, score: real, delayMs: real)
    ensures Ties(Rank(ms), score, delayMs) == Ties(ms, score, delayMs)
  {
    if ms != [] {
      var last := |ms| - 1;
      RankIsStable(ms[..last], score, delayMs);
      JoinTies(Rank(ms[..last]), ms[last], score, delayMs);
    }
  }
}
