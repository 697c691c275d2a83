/** The duplicate filter of internal/relay/dedup.go: a circular bitmap over the
    last 65536 packet numbers, and the plain set of packet positions it stands
    for. */
module Dedup {
  import opened Collections
  import opened Serial

  const DEDUP_BITS := 65536
  const WORDS := 1024

  /** What the bitmap stands for. Since the window last started, the packets at
      the positions in accepted were let through; top is the furthest of them.
      A position is the unbounded number a 32-bit packet number is a residue of. */
  datatype Window = Unseeded | Window(top: int, accepted: set<int>) {
    predicate Valid() {
      Window? ==> top in accepted && forall p :: p in accepted ==> p <= top
    }
  }

  /** The position a packet number is read as: the one nearest to the top. */
  function PositionOf(w: Window, n: Seq32): int {
    if w.Unseeded? then n else w.top + Nearest(n - w.top)
  }

  /** An offer this far behind starts the window again. */
  predicate Reseeds(w: Window, n: Seq32) {
    w.Window? && -HALF_SEQ < Nearest(n - w.top) <= -DEDUP_BITS
  }

  /** Refused are a position already in the set, when still inside the window,
      and the one number half the space away, whose bit is the top's own. */
  predicate Refuses(w: Window, n: Seq32) {
    w.Window?
    && var d := Nearest(n - w.top);
       d == -HALF_SEQ || (-DEDUP_BITS < d <= 0 && w.top + d in w.accepted)
  }

  /** The window after one offer. */
  function Offer(w: Window, n: Seq32): (r: Window)
    requires w.Valid()
    ensures r.Valid() && r.Window?
    ensures w.Window? ==>
              var d := Nearest(n - w.top);
              r == if d > 0 then Window(w.top + d, w.accepted + {w.top + d})
                   else if d == -HALF_SEQ then w
                   else if d <= -DEDUP_BITS then Window(w.top + d, {w.top + d})
                   else Window(w.top, w.accepted + {w.top + d})
  {
    var p := PositionOf(w, n);
    if w.Unseeded? || Reseeds(w, n) then Window(p, {p})
    else if Refuses(w, n) then w
    else Window(if p > w.top then p else w.top, w.accepted + {p})
  }

  /** Number n, as a position in the half space around the top. */
  predicate Reads(w: Window, n: Seq32, p: int)
    requires w.Window?
  {
    p % 4_294_967_296 == n && -2_147_483_648 <= p - w.top < 2_147_483_648
  }

  /** What the filter does with a packet, by how far it is from the top. Ahead, it is let
      through and is the top; up to 65535 behind, it is let through unless it was before;
      further behind, it is let through, and all before it forgotten; and half the space
      behind it is refused. */
  lemma OfferSays(w: Window, n: Seq32, p: int)
    requires w.Valid() && w.Window? && Reads(w, n, p)
    ensures var z, d := Offer(w, n), p - w.top;
            && (d > 0 ==> !Refuses(w, n) && z == Window(p, w.accepted + {p}))
            && (-65_536 < d <= 0 ==> (Refuses(w, n) <==> p in w.accepted) && z == Window(w.top, w.accepted + {p}))
            && (-2_147_483_648 < d <= -65_536 ==> !Refuses(w, n) && z == Window(p, {p}))
            && (d == -2_147_483_648 ==> Refuses(w, n) && z == w)
  {
    NearestOfNum(p, w.top);
    if p in w.accepted {
      assert w.accepted + {p} == w.accepted;
    }
  }

  /** And with the first it is offered. */
  lemma FirstOfferSays(n: Seq32)
    ensures !Refuses(Unseeded, n) && Offer(Unseeded, n) == Window(n, {n})
  {
  }

  datatype Op = Packet(n: Seq32) | Reset

  function Apply(w: Window, op: Op): (r: Window)
    requires w.Valid()
    ensures r.Valid()
  {
    match op
    case Packet(n) => Offer(w, n)
    case Reset => Unseeded
  }

  function Run(w: Window, ops: seq<Op>): (r: Window)
    requires w.Valid()
    ensures r.Valid()
    decreases ops
  {
    if ops == [] then w else Run(Apply(w, ops[0]), ops[1..])
  }

  /** No reset and no reseed anywhere in the run. */
  predicate KeepsEpoch(w: Window, ops: seq<Op>)
    requires w.Valid()
    decreases ops
  {
    ops == [] ||
    (ops[0].Packet? && !Reseeds(w, ops[0].n) && KeepsEpoch(Apply(w, ops[0]), ops[1..]))
  }

  /** The positions let through by a run, in order. */
  function Delivered(w: Window, ops: seq<Op>): seq<int>
    requires w.Valid()
    decreases ops
  {
    if ops == [] then []
    else
      (if ops[0].Packet? && !Refuses(w, ops[0].n) then [PositionOf(w, ops[0].n)] else [])
      + Delivered(Apply(w, ops[0]), ops[1..])
  }

  /** A first copy is let through exactly unless it stands half the number space
      behind the top. The packet's true position is known to the sender; the
      window reads only its residue, and reads it correctly while the two are
      within half the space. */
  lemma FirstCopy(w: Window, p: int)
    requires w.Valid() && w.Window? && p !in w.accepted
    requires -HALF_SEQ <= p - w.top < HALF_SEQ
    ensures PositionOf(w, Num(p)) == p
    ensures Refuses(w, Num(p)) <==> p == w.top - HALF_SEQ
  {
    NearestOfNum(p, w.top);
  }

  /** The input on which "a false means a copy of one already delivered" fails:
      one packet seen, and a new one exactly half the space behind it. */
  lemma HalfSpaceIsRefused()
    ensures var w := Offer(Unseeded, HALF_SEQ);
            w.accepted == {HALF_SEQ} && PositionOf(w, 0) == 0 && Refuses(w, 0)
  {
  }

  lemma {:induction false} EpochKeepsAccepted(w: Window, ops: seq<Op>)
    requires w.Valid() && w.Window? && KeepsEpoch(w, ops)
    ensures var z := Run(w, ops);
            z.Window? && w.accepted <= z.accepted && w.top <= z.top
    decreases ops
  {
    if ops != [] {
      EpochKeepsAccepted(Apply(w, ops[0]), ops[1..]);
    }
  }

  /** A second copy is refused for as long as the window still covers it and has
      not started again, whatever arrived in between and across any wrap. */
  lemma SecondCopy(w: Window, n: Seq32, ops: seq<Op>)
    requires w.Valid() && !Refuses(w, n)
    requires KeepsEpoch(Offer(w, n), ops)
    ensures var z := Run(Offer(w, n), ops);
            var p := PositionOf(w, n);
            z.Window? && (z.top - p < DEDUP_BITS ==> Refuses(z, n) && PositionOf(z, n) == p)
  {
    var first := Offer(w, n);
    var p := PositionOf(w, n);
    EpochKeepsAccepted(first, ops);
    var z := Run(first, ops);
    assert p in first.accepted;
    assert Num(p) == n by {
      if w.Window? {
        NumOfNearest(n, w.top);
      }
    }
    hide Offer, Run, KeepsEpoch;
    if z.top - p < DEDUP_BITS {
      RefusedAgain(z, n, p);
    }
  }

  lemma RefusedAgain(w: Window, n: Seq32, p: int)
    requires w.Valid() && w.Window? && p in w.accepted && Num(p) == n && w.top - p < DEDUP_BITS
    ensures Refuses(w, n) && PositionOf(w, n) == p
  {
    NearestOfNum(p, w.top);
  }

  /** Within one epoch no position is let through twice, and none again that was
      let through before the run began and the window still covers. */
  lemma {:induction false} DeliveredOnce(w: Window, ops: seq<Op>)
    requires w.Valid() && w.Window? && KeepsEpoch(w, ops)
    ensures Distinct(Delivered(w, ops))
    ensures forall p :: p in Delivered(w, ops) ==> p !in w.accepted
    decreases ops
  {
    if ops != [] {
      var rest := Delivered(Apply(w, ops[0]), ops[1..]);
      DeliveredOnce(Apply(w, ops[0]), ops[1..]);
      if ops[0].Packet? && !Refuses(w, ops[0].n) {
        var p := PositionOf(w, ops[0].n);
        assert p !in rest && ([p] + rest)[1..] == rest;
      } else {
        assert [] + rest == rest;
      }
    }
  }

  /** Where a packet number's flag is: bit n % 64 of word (n / 64) % WORDS. */
  function Slot(n: Seq32): (i: nat)
    ensures i == n % DEDUP_BITS
  {
    (n / 64) % WORDS * 64 + n % 64
  }

  /** The flag a position's number falls on. */
  function Cell(p: int): nat {
    p % DEDUP_BITS
  }

  lemma SlotOfNum(p: int)
    ensures Slot(Num(p)) == Cell(p)
  {
    hide Slot;
    var n: int := Num(p);
    var k := p / SEQ_SPACE * DEDUP_BITS;
    assert p == k * DEDUP_BITS + n;
    CellTurns(n, k);
  }

  lemma CellTurns(n: int, k: int)
    ensures Cell(k * DEDUP_BITS + n) == Cell(n)
  {
    var u, c := n / DEDUP_BITS, n % DEDUP_BITS;
    assert k * DEDUP_BITS + n == (k + u) * DEDUP_BITS + c;
  }

  /** Positions less than a window apart never share a flag. */
  lemma CellsApart(p: int, q: int)
    requires -DEDUP_BITS < p - q < DEDUP_BITS && p != q
    ensures Cell(p) != Cell(q)
  {
  }

  /** Half the number space is a whole number of windows. */
  lemma HalfSpaceAliases(p: int)
    ensures Cell(p - HALF_SEQ) == Cell(p)
  {
  }

  /** For every offset the window covers, the flag is set exactly when that
      position was accepted. */
  ghost predicate Agrees(flags: seq<bool>, w: Window)
    requires |flags| == DEDUP_BITS && w.Window?
  {
    AgreesUpTo(flags, w.top, w.accepted)
  }

  ghost predicate AgreesUpTo(flags: seq<bool>, top: int, accepted: set<int>)
    requires |flags| == DEDUP_BITS
  {
    forall p :: top - DEDUP_BITS < p <= top ==> (flags[Cell(p)] <==> p in accepted)
  }

  lemma FlagSet(flags: seq<bool>, top: int, accepted: set<int>, p: int)
    requires |flags| == DEDUP_BITS && AgreesUpTo(flags, top, accepted)
    requires top - DEDUP_BITS < p <= top
    ensures AgreesUpTo(flags[Cell(p) := true], top, accepted + {p})
  {
    forall q | top - DEDUP_BITS < q <= top && q != p ensures Cell(q) != Cell(p) {
      CellsApart(q, p);
    }
  }

  lemma FlagReused(flags: seq<bool>, top: int, accepted: set<int>)
    requires |flags| == DEDUP_BITS && AgreesUpTo(flags, top, accepted)
    requires top + 1 !in accepted
    ensures AgreesUpTo(flags[Cell(top + 1) := false], top + 1, accepted)
  {
    forall q | top + 1 - DEDUP_BITS < q <= top ensures Cell(q) != Cell(top + 1) {
      CellsApart(q, top + 1);
    }
  }

  class DedupWindow {
    const bits: array<bool>
    var top: Seq32
    var seen: bool

    /** What has been accepted since the window last started. */
    ghost var window: Window

    predicate IsSet(n: Seq32)
      requires bits.Length == DEDUP_BITS
      reads bits
    {
      bits[Slot(n)]
    }

    ghost predicate Valid()
      reads this, bits
    {
      bits.Length == DEDUP_BITS && window.Valid() && (seen <==> window.Window?)
      && (if seen then top == Num(window.top) && Agrees(bits[..], window)
          else forall i :: 0 <= i < bits.Length ==> !bits[i])
    }

    constructor ()
      ensures Valid() && fresh(bits) && window.Unseeded?
    {
      bits := new bool[DEDUP_BITS](_ => false);
      top, seen, window := 0, false, Unseeded;
    }

    method Mark(n: Seq32)
      requires bits.Length == DEDUP_BITS
      modifies bits
      ensures bits[..] == old(bits[..])[Slot(n) := true]
    {
      bits[Slot(n)] := true;
    }

    method Clear(n: Seq32)
      requires bits.Length == DEDUP_BITS
      modifies bits
      ensures bits[..] == old(bits[..])[Slot(n) := false]
    {
      bits[Slot(n)] := false;
    }

    method ClearAll()
      requires bits.Length == DEDUP_BITS
      modifies bits
      ensures forall i :: 0 <= i < bits.Length ==> !bits[i]
    {
      for i := 0 to bits.Length
        invariant forall j :: 0 <= j < i ==> !bits[j]
      {
        bits[i] := false;
      }
    }

    method Reset()
      requires Valid()
      modifies this, bits
      ensures Valid() && window == Apply(old(window), Op.Reset)
    {
      ClearAll();
      seen, window := false, Unseeded;
    }

    /** Starts the window again at n, on flags that may hold anything. */
    method Reseed(n: Seq32, ghost p: int)
      requires bits.Length == DEDUP_BITS && Num(p) == n
      modifies this, bits
      ensures Valid() && window == Window(p, {p})
    {
      ClearAll();
      StartOnEmpty(n, p);
    }

    method StartOnEmpty(n: Seq32, ghost p: int)
      requires bits.Length == DEDUP_BITS && Num(p) == n
      requires forall i :: 0 <= i < bits.Length ==> !bits[i]
      modifies this, bits
      ensures Valid() && window == Window(p, {p})
    {
      SlotOfNum(p);
      FlagSet(bits[..], p, {}, p);
      seen, top := true, n;
      Mark(n);
      window := Window(p, {} + {p});
    }

    method Accept(n: Seq32) returns (ok: bool)
      requires Valid()
      modifies this, bits
      ensures Valid() && window == Offer(old(window), n)
      ensures ok <==> !Refuses(old(window), n)
    {
      ghost var p := PositionOf(window, n);
      if !seen {
        StartOnEmpty(n, p);
        return true;
      }
      var d := ToInt32(Sub32(n, top));
      assert d == p - window.top == Nearest(n - window.top) by { ToInt32IsNearest(n, window.top); }
      assert Num(p) == n by { NumOfNearest(n, window.top); }
      SlotOfNum(p);
      if d > 0 {
        Advance(n, d, p);
        return true;
      } else if d != -HALF_SEQ && -d >= DEDUP_BITS {
        Reseed(n, p);
        return true;
      } else {
        if d == -HALF_SEQ {
          HalfSpaceAliases(window.top);
        }
        if IsSet(n) {
          return false;
        }
        assert d != -HALF_SEQ;
        FlagSet(bits[..], window.top, window.accepted, p);
        Mark(n);
        window := Window(window.top, window.accepted + {p});
        return true;
      }
    }

    /** Newer than anything seen. The flags between the old top and the new one
        are emptied for the packets that have not arrived. */
    method Advance(n: Seq32, d: int, ghost p: int)
      requires Valid() && seen && Num(p) == n && d == p - window.top > 0
      modifies this, bits
      ensures Valid() && window == Window(p, old(window).accepted + {p})
    {
      if d >= DEDUP_BITS {
        ClearAll();
      } else {
        ghost var c := window.top;
        NumNext(c);
        var s := (top + 1) % SEQ_SPACE;
        while s != n
          invariant seen && window == old(window)
          invariant window.top <= c < p && s == Num(c + 1)
          invariant AgreesUpTo(bits[..], c, window.accepted)
          decreases p - c
        {
          SlotOfNum(c + 1);
          FlagReused(bits[..], c, window.accepted);
          Clear(s);
          c := c + 1;
          NumNext(c);
          s := (s + 1) % SEQ_SPACE;
        }
        NumsApart(c + 1, p);
        SlotOfNum(p);
        FlagReused(bits[..], c, window.accepted);
      }
      SlotOfNum(p);
      FlagSet(bits[..][Slot(n) := false], p, window.accepted, p);
      Mark(n);
      assert bits[..] == bits[..][Slot(n) := false][Slot(n) := true];
      top, window := n, Window(p, window.accepted + {p});
    }
  }
}
