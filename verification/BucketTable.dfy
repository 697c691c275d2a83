/** The resequencer's table of buckets, made on first use and forgotten when idle.
    No two buckets share a ring. */
module BucketTable {
  import opened Bytes
  import opened Serial
  import opened FlowBucket
  import opened FlowMoves
  import opened Ring
  import opened RingBucket

  class Table {
    const buckets: array<ReseqBucket?>

    /** Each bucket on unbounded positions; NO_BUCKET where there is none. */
    ghost var views: seq<Bucket>
    ghost var owner: map<array<Slot>, nat>
    ghost var Repr: set<object>

    ghost predicate SlotOk(i: nat)
      requires i < buckets.Length == |views|
      reads this, buckets, Repr
    {
      var b := buckets[i];
      if b == null then views[i] == NO_BUCKET
      else
        && b in Repr && b.id == i
        && (b.ring != null ==> b.ring in Repr && b.ring in owner && owner[b.ring] == i)
        && b.Valid() && b.v == views[i]
    }

    ghost predicate Valid()
      reads this, buckets, Repr
    {
      && |views| == buckets.Length == FLOW_BUCKETS
      && this in Repr && buckets in Repr
      && (forall i: nat :: i < FLOW_BUCKETS ==> SlotOk(i))
      && (forall i: nat :: i < FLOW_BUCKETS ==> views[i].Valid())
    }

    constructor ()
      ensures Valid() && fresh(Repr)
      ensures forall i :: 0 <= i < FLOW_BUCKETS ==> views[i] == NO_BUCKET
    {
      buckets := new ReseqBucket?[FLOW_BUCKETS](_ => null);
      views := seq(FLOW_BUCKETS, _ => NO_BUCKET);
      owner := map[];
      new;
      Repr := {this, buckets};
    }

    /** Bucket i has changed, and no other. */
    twostate predicate OnlyChanged(i: nat)
      requires old(Valid()) && i < FLOW_BUCKETS
      reads *
    {
      && |views| == FLOW_BUCKETS && this in Repr && buckets in Repr && old(Repr) <= Repr
      && (forall k: nat :: k < FLOW_BUCKETS && k != i ==>
            views[k] == old(views)[k] && buckets[k] == old(buckets[k]))
      && (forall r :: r in old(owner) && old(owner)[r] != i ==> r in owner && owner[r] == old(owner)[r])
      && (forall o ::
            && o in old(Repr) && o != this && o != buckets && o != old(buckets[i])
            && (old(buckets[i]) == null || o != old(buckets[i].ring))
            ==> unchanged(o))
    }

    twostate lemma OthersOk(i: nat)
      requires old(Valid()) && i < FLOW_BUCKETS && OnlyChanged(i) && SlotOk(i) && views[i].Valid()
      ensures Valid()
    {
      forall k: nat | k < FLOW_BUCKETS && k != i ensures SlotOk(k) {
        assert old(SlotOk(k)) && old(SlotOk(i));
        var c := buckets[k];
        if c != null {
          assert c != old(buckets[i]);
          assert c.id == k;
          assert unchanged(c);
          if c.ring != null {
            assert unchanged(c.ring);
          }
        }
      }
    }

    /** Gives up on the gap at the front of bucket i. */
    method SkipToHeld(i: nat) returns (texts: seq<Payload>)
      requires Valid() && i < FLOW_BUCKETS && views[i].held != map[]
      modifies Repr
      ensures Valid() && fresh(Repr - old(Repr))
      ensures views == old(views)[i := FlowBucket.SkipToHeld(old(views)[i])] && buckets[..] == old(buckets[..])
      ensures texts == Texts(ResumeOut(old(views)[i], Lowest(old(views)[i].held)))
    {
      assert SlotOk(i);
      var b := buckets[i];
      SkipMoves(b.v);
      texts := b.SkipToHeld();
      views := views[i := b.v];
      OthersOk(i);
    }

    /** Gives up on every passed gap at the front of bucket i. */
    method SkipPassedGaps(i: nat, paths: Paths, now: int) returns (texts: seq<Payload>)
      requires Valid() && i < FLOW_BUCKETS && paths.maxPath < |paths.seen| && buckets[i] != null
      modifies Repr
      ensures Valid() && fresh(Repr - old(Repr))
      ensures views == old(views)[i := PassGaps(old(views)[i], paths, now)] && buckets[..] == old(buckets[..])
      ensures texts == Texts(PassOut(old(views)[i], paths, now))
    {
      assert SlotOk(i);
      var b := buckets[i];
      texts := b.SkipPassedGaps(paths, now);
      views := views[i := b.v];
      OthersOk(i);
    }

    /** Gives up on every gap at the front of bucket i that has waited out the hold. */
    method TimeOut(i: nat, now: int, hold: int) returns (texts: seq<Payload>)
      requires Valid() && i < FLOW_BUCKETS && buckets[i] != null
      modifies Repr
      ensures Valid() && fresh(Repr - old(Repr))
      ensures views == old(views)[i := FlowBucket.TimeOut(old(views)[i], now, hold)] && buckets[..] == old(buckets[..])
      ensures texts == Texts(TimeOutOut(old(views)[i], now, hold))
    {
      assert SlotOk(i);
      var b := buckets[i];
      texts := b.TimeOut(now, hold);
      views := views[i := b.v];
      OthersOk(i);
    }

    /** Abandons bucket i's expectation, delivering what it holds. */
    method Reset(i: nat) returns (texts: seq<Payload>)
      requires Valid() && i < FLOW_BUCKETS
      modifies Repr
      ensures Valid() && fresh(Repr - old(Repr))
      ensures views == old(views)[i := Flush(old(views)[i]).(started := false, marks := [])]
      ensures texts == Texts(FlushOut(old(views)[i]))
      ensures buckets[..] == old(buckets[..])
    {
      assert SlotOk(i);
      var b := buckets[i];
      if b == null {
        NothingHeld(views[i]);
        texts := [];
        assert views[i := views[i]] == views;
      } else {
        texts := b.Reset();
        views := views[i := b.v];
        OthersOk(i);
      }
    }

    /** Forgets bucket i. */
    method Forget(i: nat)
      requires Valid() && i < FLOW_BUCKETS
      modifies Repr
      ensures Valid() && Repr == old(Repr)
      ensures views == old(views)[i := NO_BUCKET]
    {
      buckets[i] := null;
      views := views[i := NO_BUCKET];
      OthersOk(i);
    }

    /** Forgets bucket i if it holds nothing and has been idle too long. */
    method Expire(i: nat, now: int)
      requires Valid() && i < FLOW_BUCKETS
      modifies Repr
      ensures Valid() && Repr == old(Repr)
      ensures views == old(views)[i := if old(views)[i].held == map[] && now - old(views)[i].lastSeen > IDLE
                                      then NO_BUCKET else old(views)[i]]
    {
      assert SlotOk(i);
      var b := buckets[i];
      if b != null && b.held == 0 && now - b.lastSeen > IDLE {
        NoneAbove(b.v.held);
        Forget(i);
      } else {
        assert views[i := views[i]] == views;
      }
    }

    /** Makes bucket i if it is not there. */
    method BucketAt(i: nat)
      requires Valid() && i < FLOW_BUCKETS
      modifies Repr
      ensures Valid() && fresh(Repr - old(Repr)) && views == old(views) && buckets[i] != null
    {
      assert SlotOk(i);
      if buckets[i] == null {
        var b := new ReseqBucket(i);
        buckets[i] := b;
        Repr := Repr + {b};
        OthersOk(i);
      }
    }

    /** An arrival at bucket i. */
    method Arrive(i: nat, now: int, path: nat, n: FlowSeq, payload: Payload)
      returns (texts: seq<Payload>, told: Gap, done: bool, kept: bool)
      requires Valid() && i < FLOW_BUCKETS && buckets[i] != null
      modifies Repr
      ensures Valid() && fresh(Repr - old(Repr)) && buckets[i] != null
      ensures var v := old(views)[i];
              var a := FlowBucket.Arrive(v, now, path, n, payload);
              && views == old(views)[i := a.b]
              && texts == Texts(a.closing + a.out) && done == a.done && kept == a.kept
              && told == GapTold(Touched(v, now, path, n), now, PositionOf(Wake(v, now), n))
    {
      texts, told, done, kept := ArriveAlone(i, now, path, n, payload);
      OthersOk(i);
    }

    method ArriveAlone(i: nat, now: int, path: nat, n: FlowSeq, payload: Payload)
      returns (texts: seq<Payload>, told: Gap, done: bool, kept: bool)
      requires Valid() && i < FLOW_BUCKETS && buckets[i] != null
      modifies Repr
      ensures OnlyChanged(i) && SlotOk(i) && fresh(Repr - old(Repr)) && buckets[i] != null && views[i].Valid()
      ensures var v := old(views)[i];
              var a := FlowBucket.Arrive(v, now, path, n, payload);
              && views == old(views)[i := a.b]
              && texts == Texts(a.closing + a.out) && done == a.done && kept == a.kept
              && told == GapTold(Touched(v, now, path, n), now, PositionOf(Wake(v, now), n))
    {
      hide FlowBucket.Arrive, GapTold, Touched, PositionOf, Wake;
      assert SlotOk(i);
      var b := buckets[i];
      texts, told, done, kept := b.Arrive(now, path, n, payload);
      views := views[i := b.v];
      if b.ring != null {
        Repr, owner := Repr + {b.ring}, owner[b.ring := i];
      }
    }

    /** How many packets bucket i holds, and since when its front gap is timed. */
    method Front(i: nat) returns (held: nat, gapSince: int)
      requires Valid() && i < FLOW_BUCKETS && buckets[i] != null
      ensures held == |views[i].held| && gapSince == views[i].gapSince
    {
      assert SlotOk(i);
      held, gapSince := buckets[i].held, buckets[i].gapSince;
    }

    /** How many packets bucket i holds, there or not. */
    method HeldBy(i: nat) returns (held: nat)
      requires Valid() && i < FLOW_BUCKETS
      ensures held == |views[i].held| && (held > 0 ==> buckets[i] != null)
    {
      assert SlotOk(i);
      held := if buckets[i] == null then 0 else buckets[i].held;
    }
  }

  lemma NothingHeld(b: Bucket)
    requires b.held == map[]
    ensures FlushOut(b) == []
  {
    EmittedNone(b.held, b.next, b.next + WINDOW);
  }
}
