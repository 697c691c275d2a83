/** What a sender numbers: every packet in one global sequence, and the bulk ones in
    their bucket's besides (internal/relay/session.go, initiator.go and responder.go). */
module Sender {
  import opened Bytes
  import opened Collections
  import opened Serial
  import opened Reseq
  import opened Session

  /** One packet that was given a global sequence: control, or data that is tagged for
      a bucket or goes untagged. */
  datatype Made = Control | Plain(payload: Payload) | Bulk(bucket: nat, payload: Payload)

  /** What one run of a sender has made, in order. Its packet g has global position
      g + 1. */
  type Life = seq<Made>

  /** The packets tagged for a bucket, in order: the one at t has tag t. */
  function TagsOf(life: Life, i: nat): (r: seq<nat>)
    ensures forall t :: 0 <= t < |r| ==> r[t] < |life| && life[r[t]].Bulk? && life[r[t]].bucket == i
    ensures forall t, u :: 0 <= t < u < |r| ==> r[t] < r[u]
  {
    if life == [] then []
    else
      var last := |life| - 1;
      var before := TagsOf(life[..last], i);
      if life[last].Bulk? && life[last].bucket == i then before + [last] else before
  }

  /** The payloads tagged for a bucket, in order. */
  function TextsOf(life: Life, i: nat): (r: seq<Payload>)
    ensures |r| == |TagsOf(life, i)| && forall t :: 0 <= t < |r| ==> r[t] == life[TagsOf(life, i)[t]].payload
  {
    var tags := TagsOf(life, i);
    seq(|tags|, t requires 0 <= t < |tags| => life[tags[t]].payload)
  }

  /** The tag of packet g. */
  function TagOf(life: Life, g: nat): nat
    requires g < |life| && life[g].Bulk?
  {
    |TagsOf(life[..g], life[g].bucket)|
  }

  lemma {:induction false} TagsOn(life: Life, more: Life, i: nat)
    requires life <= more
    ensures TagsOf(life, i) <= TagsOf(more, i)
    decreases |more|
  {
    if |life| < |more| {
      TagsOn(life, more[..|more| - 1], i);
    } else {
      assert life == more;
    }
  }

  /** A packet stands in its bucket's sequence where its tag says. */
  lemma TagIsItsPlace(life: Life, g: nat)
    requires g < |life| && life[g].Bulk?
    ensures var t := TagOf(life, g);
            && t < |TagsOf(life, life[g].bucket)| && TagsOf(life, life[g].bucket)[t] == g
            && TextsOf(life, life[g].bucket)[t] == life[g].payload
  {
    assert life[..g + 1][..g] == life[..g];
    TagsOn(life[..g + 1], life, life[g].bucket);
  }

  lemma TextsOn(life: Life, more: Life, i: nat)
    requires life <= more
    ensures TextsOf(life, i) <= TextsOf(more, i)
  {
    TagsOn(life, more, i);
  }

  /** Packet g as it arrives on a path: tagged, if it is bulk and the header of the
      version spoken carries tags. */
  function DataOf(life: Life, g: nat, carried: bool, path: nat, now: int): Data
    requires g < |life| && !life[g].Control?
  {
    var m := life[g];
    if m.Bulk?
    then Data(Num(g + 1), path, carried, m.bucket, TagOf(life, g) % FLOW_SPACE, m.payload, now)
    else Data(Num(g + 1), path, false, 0, 0, m.payload, now)
  }

  /** The sender's counters, and what they have numbered. */
  class Ingress {
    const counters: Counters
    ghost var life: Life

    ghost predicate Valid()
      reads this, counters, counters.flowSeqs, counters.nextSeqs
    {
      && counters.Valid() && counters.counted == |life|
      && forall i :: 0 <= i < FLOW_BUCKETS ==> counters.tagged[i] == |TagsOf(life, i)|
    }

    constructor ()
      ensures Valid() && life == [] && fresh(counters) && fresh(counters.flowSeqs) && fresh(counters.nextSeqs)
    {
      counters := new Counters();
      life := [];
    }

    /** Numbers one data packet: the global sequence, and for bulk the next tag of its
        flow's bucket. They are what the packet is read by when it arrives. */
    method Number(bulk: bool, flow: nat, payload: Payload) returns (n: Seq32, tag: Option<FlowTag>)
      requires Valid()
      modifies this, counters, counters.flowSeqs
      ensures Valid()
      ensures life == old(life) + [if bulk then Bulk(flow % FLOW_BUCKETS, payload) else Plain(payload)]
      ensures n == DataOf(life, |old(life)|, true, 0, 0).n
      ensures tag == if bulk then Some(FlowTag(flow % FLOW_BUCKETS, DataOf(life, |old(life)|, true, 0, 0).flowSeq)) else None
    {
      n := counters.NextGlobalSeq();
      tag := None;
      ghost var m := if bulk then Bulk(flow % FLOW_BUCKETS, payload) else Plain(payload);
      if bulk {
        var t := counters.NextFlowTag(flow);
        tag := Some(t);
      }
      assert (life + [m])[..|life|] == life;
      life := life + [m];
    }

    /** Numbers one control packet. */
    method NumberControl() returns (n: Seq32)
      requires Valid()
      modifies this, counters
      ensures Valid() && life == old(life) + [Control] && n == Num(|life|)
    {
      n := counters.NextGlobalSeq();
      assert (life + [Control])[..|life|] == life;
      life := life + [Control];
    }
  }
}
