/** Wrapping counters and the signed distance between two of them.

    The wire carries 32-bit packet counters and 20-bit flow sequences. Both ends
    think of an unbounded position; the wire only carries its residue. The lemmas
    here say exactly when the signed distance of two residues is the distance of
    the two positions (the serial arithmetic of section 3.2 of RFC 1982). */
module Serial {
  const SEQ_SPACE := 0x1_0000_0000
  const HALF_SEQ := 0x8000_0000
  const FLOW_SPACE := 0x10_0000
  const HALF_FLOW := 0x8_0000
  /** How many flow sequence spaces there are. */
  const FLOW_BUCKETS := 4096

  /** A uint32. */
  type Seq32 = x: int | 0 <= x < SEQ_SPACE
  /** A flow sequence as it is stored: twenty bits. */
  type FlowSeq = x: int | 0 <= x < FLOW_SPACE

  /** The number a position is sent as. */
  function Num(p: int): Seq32 {
    p % SEQ_SPACE
  }

  /** Conversion of a uint32 to int32. */
  function ToInt32(x: Seq32): int {
    if x < HALF_SEQ then x else x - SEQ_SPACE
  }

  /** Subtraction of two uint32, wrapping. */
  function Sub32(a: Seq32, b: Seq32): Seq32 {
    (a - b) % SEQ_SPACE
  }

  predicate SeqAfter(a: Seq32, b: Seq32) {
    ToInt32(Sub32(a, b)) > 0
  }

  /** The difference is shifted up by twelve bits, dropping the high ones, and
      shifted back down arithmetically. */
  function FlowSeqDiff(a: Seq32, b: Seq32): int {
    ToInt32((Sub32(a, b) * 4096) % SEQ_SPACE) / 4096
  }

  /** The representative of x nearest to zero, ties going down. */
  function Nearest(x: int): int {
    (x + HALF_SEQ) % SEQ_SPACE - HALF_SEQ
  }

  function FlowNearest(x: int): int {
    (x + HALF_FLOW) % FLOW_SPACE - HALF_FLOW
  }

  lemma ToInt32IsNearest(x: int, y: int)
    ensures ToInt32(Sub32(x % SEQ_SPACE, y % SEQ_SPACE)) == Nearest(x - y)
    ensures Nearest(x - y) == x - y <==> -HALF_SEQ <= x - y < HALF_SEQ
  {
  }

  /** Reading a number against a reference position t finds the position it was
      sent from, when that is within half the space of t. */
  lemma NearestOfNum(p: int, t: int)
    ensures Nearest(Num(p) - t) == Nearest(p - t)
    ensures -HALF_SEQ <= p - t < HALF_SEQ ==> Nearest(p - t) == p - t
  {
  }

  lemma NumOfNearest(n: Seq32, t: int)
    ensures Num(t + Nearest(n - t)) == n
  {
  }

  lemma NumNext(p: int)
    ensures Num(p + 1) == (Num(p) + 1) % SEQ_SPACE
  {
  }

  lemma NumsApart(p: int, q: int)
    requires -SEQ_SPACE < p - q < SEQ_SPACE && Num(p) == Num(q)
    ensures p == q
  {
  }

  /** Two counters less than a whole wrap apart compare as their positions do
      exactly while they are within half the space. */
  lemma SeqAfterUnwraps(x: int, y: int)
    requires -SEQ_SPACE < x - y < SEQ_SPACE
    ensures (SeqAfter(x % SEQ_SPACE, y % SEQ_SPACE) <==> x > y) <==> -HALF_SEQ <= x - y < HALF_SEQ
  {
    ToInt32IsNearest(x, y);
  }

  lemma FlowSeqDiffIsNearest(a: Seq32, b: Seq32)
    ensures FlowSeqDiff(a, b) == FlowNearest(a - b)
  {
    var s := Sub32(a, b);
    var q, r := s / FLOW_SPACE, s % FLOW_SPACE;
    assert s * 4096 == q * SEQ_SPACE + r * 4096;
    assert (s * 4096) % SEQ_SPACE == r * 4096;
  }

  /** The flow distance of two positions is exact within half the space, and
      wrong everywhere else. */
  lemma FlowSeqDiffUnwraps(x: int, y: int)
    ensures FlowSeqDiff(x % FLOW_SPACE, y % FLOW_SPACE) == FlowNearest(x - y)
    ensures FlowNearest(x - y) == x - y <==> -HALF_FLOW <= x - y < HALF_FLOW
  {
    FlowSeqDiffIsNearest(x % FLOW_SPACE, y % FLOW_SPACE);
  }
}
