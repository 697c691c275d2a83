/** The ring of internal/relay/reseq.go: reseqBucket with its moving head, and the
    map from position to packet that it stands for. */
module Ring {
  import opened Bytes
  import opened Serial
  import opened FlowBucket
  import opened FlowMoves

  datatype Slot = Empty | Full(buf: Payload, at: int)

  datatype PathMark = PathMark(id: nat, n: FlowSeq, at: int)

  /** Where position p sits, for a ring laid out at offset off. */
  function Cell(p: int, off: int): nat {
    (p + off) % WINDOW
  }

  function SlotAt(held: map<int, Held>, p: int): Slot {
    if p in held then Full(held[p].payload, held[p].at) else Empty
  }

  /** The slots show exactly the held packets of one window of positions. */
  ghost predicate Shows(slots: seq<Slot>, off: int, lo: int, held: map<int, Held>)
  {
    && |slots| == WINDOW
    && forall p :: lo <= p < lo + WINDOW ==> slots[Cell(p, off)] == SlotAt(held, p)
  }

  lemma CellsApart(p: int, q: int, off: int)
    requires -WINDOW < p - q < WINDOW && p != q
    ensures Cell(p, off) != Cell(q, off)
  {
  }

  /** No slot is ever shared: putting a packet in or taking one out changes the
      slot of that position alone. */
  lemma SlotChanged(slots: seq<Slot>, off: int, lo: int, held: map<int, Held>, now: map<int, Held>, p: int)
    requires Shows(slots, off, lo, held) && lo <= p < lo + WINDOW
    requires forall q :: q != p ==> SlotAt(held, q) == SlotAt(now, q)
    ensures Shows(slots[Cell(p, off) := SlotAt(now, p)], off, lo, now)
  {
    forall q | lo <= q < lo + WINDOW && q != p ensures Cell(q, off) != Cell(p, off) {
      CellsApart(q, p, off);
    }
  }

  lemma SlotEmptied(slots: seq<Slot>, off: int, lo: int, held: map<int, Held>, p: int)
    requires Shows(slots, off, lo, held) && lo <= p < lo + WINDOW
    ensures Shows(slots[Cell(p, off) := Empty], off, lo, held - {p})
  {
    SlotChanged(slots, off, lo, held, held - {p}, p);
  }

  /** A full slot is a held packet's. */
  lemma SlotFull(slots: seq<Slot>, off: int, lo: int, held: map<int, Held>, p: int)
    requires Shows(slots, off, lo, held) && lo <= p < lo + WINDOW && slots[Cell(p, off)].Full?
    ensures p in held && slots[Cell(p, off)].buf == held[p].payload
  {
  }

  lemma CellPeriodic(p: int, q: int, off: int)
    requires (p - q) % WINDOW == 0
    ensures Cell(p, off) == Cell(q, off)
  {
  }

  lemma HeadMoves(next: int, off: int, k: int)
    ensures (Cell(next, off) + k) % WINDOW == Cell(next + k, off)
  {
  }

  /** The head moves by any distance, however long, once nothing is left behind. */
  lemma WindowSlides(slots: seq<Slot>, off: int, lo: int, to: int, held: map<int, Held>)
    requires Shows(slots, off, lo, held) && lo <= to
    requires forall p :: p in held ==> to <= p < lo + WINDOW
    ensures Shows(slots, off, to, held)
  {
    forall p | to <= p < to + WINDOW ensures slots[Cell(p, off)] == SlotAt(held, p) {
      var q := lo + (p - lo) % WINDOW;
      CellPeriodic(p, q, off);
    }
  }

  lemma EmptyShows(slots: seq<Slot>, off: int, lo: int)
    requires |slots| == WINDOW && forall i :: 0 <= i < WINDOW ==> slots[i] == Empty
    ensures Shows(slots, off, lo, map[])
  {
  }

  lemma ShowsNothing(slots: seq<Slot>, off: int, lo: int)
    requires Shows(slots, off, lo, map[])
    ensures forall i :: 0 <= i < WINDOW ==> slots[i] == Empty
  {
    forall i | 0 <= i < WINDOW ensures slots[i] == Empty {
      var p := lo + (i - off - lo) % WINDOW;
      assert Cell(p, off) == i by { CellOf(i, off, lo); }
    }
  }

  lemma CellOf(i: nat, off: int, lo: int)
    requires i < WINDOW
    ensures Cell(lo + (i - off - lo) % WINDOW, off) == i
  {
  }

  // ----- the payloads handed on

  function Texts(outs: seq<Out>): (r: seq<Payload>) {
    seq(|outs|, i requires 0 <= i < |outs| => outs[i].payload)
  }

  lemma TextsNothing(held: map<int, Held>, lo: int)
    ensures Texts(Emitted(held, lo, lo)) == []
  {
  }

  lemma TextsSum(a: seq<Out>, b: seq<Out>)
    ensures Texts(a + b) == Texts(a) + Texts(b)
  {
  }

  lemma FirstGapIs(held: map<int, Held>, from: int, g: int)
    requires from <= g && g !in held && forall p :: from <= p < g ==> p in held
    ensures FirstGap(held, from) == g
  {
  }

  /** Moving next by hand to t and resuming there is resuming at t. */
  ghost function MovedTo(b: Bucket, t: int): (r: Bucket)
    ensures r.next == t
  {
    b.(next := t, held := Above(b.held, t))
  }

  lemma MovedNowhere(b: Bucket)
    requires forall p :: p in b.held ==> b.next <= p
    ensures MovedTo(b, b.next) == b
  {
    AboveAll(b.held, b.next);
  }

  /** A gap at the front given up on: nothing is left behind, or handed on, yet. */
  lemma MovedOverGap(b: Bucket, t: int)
    requires b.next <= t && forall p :: p in b.held ==> t <= p
    ensures MovedTo(b, t) == b.(next := t)
    ensures Texts(ResumeOut(b, t)) == Texts(ResumeOut(MovedTo(b, t), t))
  {
    AboveAll(b.held, t);
    TextsNone(b.held, b.next, b.next, t);
    TextsNothing(b.held, b.next);
    ResumeTexts(b, t);
  }

  /** With nothing left from mid on, next may go straight to t. */
  lemma MovedPast(b: Bucket, mid: int, t: int)
    requires b.next <= mid <= t && |MovedTo(b, mid).held| == 0
    ensures MovedTo(b, mid).(next := t) == MovedTo(b, t)
    ensures Texts(Emitted(b.held, b.next, t)) == Texts(Emitted(b.held, b.next, mid))
  {
    NoneAbove(Above(b.held, mid));
    NothingAbove(b.held, b.next, mid, t);
    assert Above(b.held, t) == map[];
  }

  lemma ResumeFrom(b: Bucket, t: int)
    requires b.next <= t
    ensures ResumeAt(MovedTo(b, t), t) == ResumeAt(b, t)
    ensures ResumeOut(b, t) == Emitted(b.held, b.next, t) + ResumeOut(MovedTo(b, t), t)
  {
    var g := FirstGap(b.held, t);
    FirstGapIs(Above(b.held, t), t, g);
    assert Above(Above(b.held, t), g) == Above(b.held, g);
    EmittedSplit(b.held, b.next, t, g);
    EmittedSame(b.held, Above(b.held, t), t, g);
  }

  lemma TextsSplit(held: map<int, Held>, lo: int, mid: int, hi: int)
    requires lo <= mid <= hi
    ensures Texts(Emitted(held, lo, hi)) == Texts(Emitted(held, lo, mid)) + Texts(Emitted(held, mid, hi))
  {
    EmittedSplit(held, lo, mid, hi);
    TextsSum(Emitted(held, lo, mid), Emitted(held, mid, hi));
  }

  lemma TextsOne(held: map<int, Held>, c: int)
    ensures Texts(Emitted(held, c, c + 1)) == if c in held then [held[c].payload] else []
  {
    var rest := Emitted(held, c + 1, c + 1);
    assert rest == [];
    if c in held {
      assert Emitted(held, c, c + 1) == [Out(c, held[c].payload, false)];
    } else {
      assert Emitted(held, c, c + 1) == [];
    }
  }

  /** The payload at one position, as it is handed on. */
  function TextAt(held: map<int, Held>, p: int): seq<Payload> {
    if p in held then [held[p].payload] else []
  }

  lemma TextsStep(held: map<int, Held>, lo: int, p: int)
    requires lo <= p
    ensures Texts(Emitted(held, lo, p + 1)) == Texts(Emitted(held, lo, p)) + TextAt(held, p)
  {
    TextsSplit(held, lo, p, p + 1);
    TextsOne(held, p);
  }

  lemma TextsNone(held: map<int, Held>, lo: int, mid: int, hi: int)
    requires lo <= mid <= hi && forall p :: mid <= p < hi ==> p !in held
    ensures Texts(Emitted(held, lo, hi)) == Texts(Emitted(held, lo, mid))
  {
    TextsSplit(held, lo, mid, hi);
    EmittedNone(held, mid, hi);
  }

  /** Resuming after a hand-made move hands on what the whole move does. */
  lemma ResumeTexts(b: Bucket, t: int)
    requires b.next <= t
    ensures ResumeAt(MovedTo(b, t), t) == ResumeAt(b, t)
    ensures Texts(ResumeOut(b, t)) == Texts(Emitted(b.held, b.next, t)) + Texts(ResumeOut(MovedTo(b, t), t))
  {
    ResumeFrom(b, t);
    TextsSum(Emitted(b.held, b.next, t), ResumeOut(MovedTo(b, t), t));
  }

  lemma OneFewer(held: map<int, Held>, p: int)
    requires p in held
    ensures |held - {p}| == |held| - 1
  {
    assert (held - {p}).Keys == held.Keys - {p};
  }

  lemma AboveNext(held: map<int, Held>, c: int)
    ensures Above(held, c + 1) == Above(held, c) - {c}
  {
  }

  lemma AboveAll(held: map<int, Held>, c: int)
    requires forall p :: p in held ==> c <= p
    ensures Above(held, c) == held
  {
  }

  /** Once nothing is left above c, a move past c finds nothing. */
  lemma NothingAbove(held: map<int, Held>, lo: int, c: int, hi: int)
    requires lo <= c <= hi && |Above(held, c)| == 0
    ensures Above(held, c) == map[] == Above(held, hi)
    ensures Texts(Emitted(held, lo, hi)) == Texts(Emitted(held, lo, c))
  {
    assert Above(held, c) == map[];
    assert forall p :: p in held && c <= p ==> p in Above(held, c);
    TextsNone(held, lo, c, hi);
  }

  lemma SomeAbove(held: map<int, Held>)
    requires |held| > 0
    ensures held != map[]
  {
  }

  lemma OneMore(held: map<int, Held>, p: int, h: Held)
    requires p !in held
    ensures |held[p := h]| == |held| + 1
  {
    assert held[p := h].Keys == held.Keys + {p};
  }

  lemma OnlyOne(held: map<int, Held>, p: int, h: Held)
    requires p !in held && |held[p := h]| == 1
    ensures held == map[]
  {
    OneMore(held, p, h);
  }

  lemma NoneAbove(held: map<int, Held>)
    requires |held| == 0
    ensures held == map[]
  {
  }

  lemma TextsThree(a: seq<Out>, b: seq<Out>, c: seq<Out>)
    ensures Texts(a + b + c) == Texts(a) + Texts(b + c)
  {
    assert a + b + c == a + (b + c);
    TextsSum(a, b + c);
  }
}
