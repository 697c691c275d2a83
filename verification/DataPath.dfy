/** The receiving data path as the source keeps it: the filter, then the
    resequencer or the tunnel. */
module DataPath {
  import opened Bytes
  import opened Serial
  import opened Reseq
  import opened BucketTable
  import opened Session
  import Dedup

  /** The gap forced by an arrival is one the bound calls for, and one waited on
      longest. */
  ghost predicate ForcedRightly(r: Receiver, d: Data, forced: Forced)
    requires |r.hist| == FLOW_BUCKETS
  {
    d.hasFlow && !Dedup.Refuses(r.w, d.n) ==>
      IsForced(Taken(r.hist, d.bucket % FLOW_BUCKETS, d.now, d.path, d.flowSeq % FLOW_SPACE, d.payload).hist, forced)
  }

  class DataPath {
    const dedup: Dedup.DedupWindow
    const reseq: Resequencer
    /** What was written to the tunnel without passing through the resequencer. */
    var direct: seq<Payload>
    var dupDropped: nat
    /** The two together, as a receiver whose runs are known. */
    ghost var rcv: Receiver

    /** Every method is a step of the receiver, so that what is proved of balanced
        receivers is so of every data path. */
    ghost predicate Valid()
      reads this, dedup, dedup.bits, reseq, reseq.table, reseq.table.buckets, reseq.table.Repr
    {
      Apart() && Shows() && Balanced(rcv)
    }

    ghost predicate Apart()
      reads this, dedup, dedup.bits, reseq, reseq.table, reseq.table.buckets, reseq.table.Repr
    {
      && dedup.Valid() && reseq.Valid()
      && this as object != reseq && dedup as object != reseq
      && this !in reseq.table.Repr && dedup !in reseq.table.Repr && dedup.bits !in reseq.table.Repr
    }

    ghost predicate Shows()
      reads this, dedup, reseq
    {
      ShowsNext(rcv)
    }

    constructor (hold: int, maxHold: int)
      ensures Valid() && rcv == NEW
    {
      hide Resequencer.Valid, Dedup.DedupWindow.Valid, Balanced, NEW, AllStart;
      dedup := new Dedup.DedupWindow();
      reseq := new Resequencer(hold, maxHold);
      direct, dupDropped := [], 0;
      new;
      Begin();
    }

    ghost method Begin()
      requires Apart() && dedup.window.Unseeded? && reseq.written == direct == [] && reseq.clock == 0
      requires |reseq.hist| == FLOW_BUCKETS && AllStart(reseq.hist)
      modifies this`rcv
      ensures Valid() && rcv == NEW
    {
      hide NEW, Resequencer.Valid, Dedup.DedupWindow.Valid, Balanced;
      NewBalanced();
      AllNew(reseq.hist);
      rcv := NEW;
    }

    /** Whether this is the first copy; counted when it is not. */
    method Deliver(n: Seq32) returns (ok: bool)
      requires Apart()
      modifies this`dupDropped, dedup, dedup.bits
      ensures Apart() && dedup.window == Dedup.Offer(old(dedup.window), n)
      ensures ok <==> !Dedup.Refuses(old(dedup.window), n)
      ensures unchanged(reseq) && unchanged(reseq.table) && direct == old(direct) && rcv == old(rcv)
    {
      ok := dedup.Accept(n);
      if !ok {
        dupDropped := dupDropped + 1;
      }
    }

    /** Resequences one payload of spread bulk. */
    method Resequence(d: Data) returns (ghost t: Taking, ghost forced: Forced)
      requires Apart() && d.path < MAX_PATHS && reseq.clock <= d.now
      modifies reseq, reseq.table.Repr
      ensures Apart() && fresh(reseq.table.Repr - old(reseq.table.Repr)) && reseq.clock == d.now
      ensures t == Taken(old(reseq.hist), d.bucket % FLOW_BUCKETS, d.now, d.path, d.flowSeq % FLOW_SPACE, d.payload)
      ensures IsForced(t.hist, forced)
      ensures reseq.hist == Relieved(t.hist, d.bucket % FLOW_BUCKETS, d.now, t.done, forced, reseq.paths)
      ensures reseq.written == RelievedTexts(old(reseq.written) + t.texts, t.hist, d.bucket % FLOW_BUCKETS, d.now, t.done,
                                             forced, reseq.paths)
      ensures unchanged(dedup) && unchanged(this)
    {
      t, forced := reseq.Push(d.path, d.bucket, d.flowSeq, d.payload, d.now);
    }

    /** Hands an arriving payload on: dropped if it is a copy, resequenced if it is
        spread bulk, written straight through otherwise. */
    method DeliverData(d: Data) returns (ghost forced: Forced)
      requires Valid() && d.path < MAX_PATHS && rcv.clock <= d.now
      modifies this, dedup, dedup.bits, reseq, reseq.table.Repr
      ensures Valid() && fresh(reseq.table.Repr - old(reseq.table.Repr))
      ensures Steps(old(rcv), Arrive(d, forced, reseq.paths), rcv) && ForcedRightly(old(rcv), d, forced)
    {
      hide Balanced, Steps, ForcedRightly, Resequencer.Valid, Dedup.DedupWindow.Valid, Enabled;
      forced := Handle(d);
      Goes(Arrive(d, forced, reseq.paths));
    }

    method Handle(d: Data) returns (ghost forced: Forced)
      requires Apart() && Shows() && Balanced(rcv) && d.path < MAX_PATHS && rcv.clock <= d.now
      modifies this, dedup, dedup.bits, reseq, reseq.table.Repr
      ensures Apart() && fresh(reseq.table.Repr - old(reseq.table.Repr)) && rcv == old(rcv)
      ensures Balanced(rcv) && ForcedRightly(rcv, d, forced)
      ensures Enabled(rcv, Arrive(d, forced, reseq.paths)) && ShowsNext(Step(rcv, Arrive(d, forced, reseq.paths)))
    {
      hide Taken, Relieved, RelievedTexts, IsForced, Dedup.Refuses, Dedup.Offer, Balanced, Step, Table.Valid;
      BalancedSize(rcv);
      forced := NotForced;
      var ok := Deliver(d.n);
      if ok && d.hasFlow {
        ghost var t;
        t, forced := Resequence(d);
      } else if ok {
        direct := direct + [d.payload];
      }
      ArriveAfter(rcv, d, forced, reseq.paths);
    }

    /** What the fields have come to is what the receiver comes to next. */
    ghost predicate ShowsNext(z: Receiver)
      reads this, dedup, reseq
    {
      && z.w == dedup.window && z.hist == reseq.hist && z.spread == reseq.written && z.direct == direct
      && reseq.clock <= z.clock
    }

    /** The receiver follows. */
    ghost method Goes(e: Event)
      requires Apart() && Balanced(rcv) && Enabled(rcv, e) && (BalancedSize(rcv); ShowsNext(Step(rcv, e)))
      modifies this`rcv
      ensures Valid() && Steps(old(rcv), e, rcv)
    {
      hide Balanced, Step, Steps, Enabled, Resequencer.Valid, Dedup.DedupWindow.Valid;
      StepsOn(rcv, e);
      rcv := Step(rcv, e);
    }

    /** Gives up on every gap that has waited out the hold. */
    method SweepOnce(now: int) returns (ghost order: seq<nat>)
      requires Valid() && rcv.clock <= now
      modifies this`rcv, reseq, reseq.table.Repr
      ensures Valid() && fresh(reseq.table.Repr - old(reseq.table.Repr))
      ensures Steps(old(rcv), Sweep(order, now, reseq.gap.hold), rcv)
    {
      hide SweptAll, SweptTexts, Balanced, Step, Steps, Table.Valid;
      BalancedSize(rcv);
      order := reseq.SweepOnce(now);
      OtherAfter(rcv, Sweep(order, now, reseq.gap.hold));
      Goes(Sweep(order, now, reseq.gap.hold));
    }

    /** Forgets the buckets that have been idle too long. */
    method Expire(now: int)
      requires Valid() && rcv.clock <= now
      modifies this`rcv, reseq, reseq.table.Repr
      ensures Valid() && fresh(reseq.table.Repr - old(reseq.table.Repr))
      ensures Steps(old(rcv), Event.Expire(now), rcv)
    {
      hide ExpiredUpTo, Balanced, Step, Steps, Table.Valid;
      BalancedSize(rcv);
      reseq.Expire(now);
      OtherAfter(rcv, Event.Expire(now));
      Goes(Event.Expire(now));
    }

    /** The peer has begun again: its flow sequences, and its global sequence. */
    method PeerRestarted()
      requires Valid()
      modifies this`rcv, dedup, dedup.bits, reseq, reseq.table.Repr
      ensures Valid() && fresh(reseq.table.Repr - old(reseq.table.Repr))
      ensures Steps(old(rcv), Restart, rcv)
    {
      hide ClosedUpTo, ClosedTexts, Balanced, Step, Steps, Table.Valid;
      BalancedSize(rcv);
      reseq.Reset();
      dedup.Reset();
      OtherAfter(rcv, Restart);
      Goes(Restart);
    }
  }
}
