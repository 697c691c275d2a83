/** One push over all the buckets, and what comes of a reset and of expiry, in the numbers
    of the source. */
module ReseqPushes {
  import opened Bytes
  import opened Serial
  import opened FlowBucket
  import opened FlowMoves
  import opened FlowRuns
  import opened FlowArrivals
  import opened FlowGaps
  import opened RingBucket
  import opened Reseq

  /** Once gaps have been passed none is left that every path has passed. */
  lemma {:induction false} PassGapsStops(b: Bucket, paths: Paths, now: int)
    requires paths.maxPath < |paths.seen|
    ensures var z := PassGaps(b, paths, now); z.held == map[] || !AllPast(z, paths, now)
    decreases b.held.Keys
  {
    PassedIsAllPast(b, paths, now);
    if b.held != map[] && Passed(b, paths, now) {
      PassGapsStops(SkipToHeld(b), paths, now);
    }
  }

  /** Every push looks for passed gaps when it is done, unless the arrival was a repeat or
      filled its own forced gap: none is left in its bucket, and no other bucket but the
      one whose gap was forced is touched. */
  lemma PushLeavesNoPassedGap(hist: seq<Hist>, i: nat, now: int, done: bool, forced: Forced, paths: Paths)
    requires i < |hist| && paths.maxPath < |paths.seen|
    ensures var z := Relieved(hist, i, now, done, forced, paths);
            && |z| == |hist|
            && (!done ==> z[i].b.held == map[] || !AllPast(z[i].b, paths, now))
            && (forall k :: 0 <= k < |hist| && k != i && !(forced.ForcedOn? && k == forced.j) ==> z[k] == hist[k])
  {
    if !done {
      PassGapsStops(AfterForce(hist, forced)[i].b, paths, now);
    }
  }

  /** The gap forced is the one at the front of its bucket: next moves beyond the first
      packet held, which is handed on, and the other buckets stay. */
  lemma ForcedSays(hist: seq<Hist>, j: nat)
    requires j < |hist| && hist[j].b.held != map[] && hist[j].b.Valid()
    ensures var z, out := AfterForce(hist, ForcedOn(j)), ForceOut(hist, ForcedOn(j));
            var b, c := hist[j].b, z[j].b;
            && (forall p :: p in b.held && (forall q :: q in b.held ==> p <= q) ==>
                  c.next > p && forall q :: p <= q < c.next ==> q in b.held)
            && c.next !in b.held && LeftFrom(c.held, b.held, c.next) && InPlaces(out, b.held, b.next, c.next)
            && z == hist[j := z[j]] && z[j].log == hist[j].log + out
  {
    assert j in WaitingIn(hist);
    SkipMoves(hist[j].b);
    ResumeSays(hist[j].b, Lowest(hist[j].b.held));
  }

  /** What an arrival tells of a gap, for a bucket awake: how long the one it fills was
      timed, or, if it is late by no more than 262144 and less than two seconds after
      the skip that left it behind, the hold and the time since. */
  lemma TakenTells(hist: seq<Hist>, i: nat, now: int, path: nat, n: FlowSeq, pos: int, payload: Payload)
    requires i < |hist| && Awake(hist[i].b, now) && Reads(hist[i].b, n, pos)
    ensures var b, t := hist[i].b, Taken(hist, i, now, path, n, payload);
            && t.told == (if pos == b.next && b.held != map[] then Took(now - b.gapSince)
                          else if -262_144 <= pos - b.next < 0 && b.lastSkipAt != 0 && now - b.lastSkipAt < 2_000_000_000
                          then Took(b.lastSkipHold + (now - b.lastSkipAt))
                          else Untold)
            && (forall k :: 0 <= k < |hist| && k != i ==> t.hist[k] == hist[k])
            && t.hist[i].b == Arrive(b, now, path, n, payload).b
  {
    ReadsPosition(hist[i].b, n, pos);
    hide Arrive, MarkPath, PositionOf;
  }

  /** A reset hands on what is held, in order, and forgets the sequence and its marks. */
  lemma ResetSays(h: Hist)
    ensures var z := Closed(h);
            && |h.log| <= |z.log| && z.log[..|h.log|] == h.log
            && InPlaces(z.log[|h.log|..], h.b.held, h.b.next, h.b.next + 4096)
            && z.b.held == map[] && !z.b.started && z.b.marks == [] && z.closed == h.closed
  {
    EmittedInPlaces(h.b.held, h.b.next, h.b.next + WINDOW);
    assert (h.log + FlushOut(h.b))[|h.log|..] == FlushOut(h.b);
  }

  /** Exactly which buckets expiry forgets: those holding nothing and unused for more than
      thirty seconds. */
  lemma ExpireSays(h: Hist, now: int)
    ensures Expired(h, now) == if h.b.held == map[] && now - h.b.lastSeen > 30_000_000_000 then h.(b := NO_BUCKET) else h
  {
  }
}
