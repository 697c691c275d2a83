/** reseqBucket of internal/relay/reseq.go, updated in place. Each method returns
    the payloads it releases, in order; the resequencer writes them before it
    lets go of its lock. */
module RingBucket {
  import opened Bytes
  import opened Serial
  import opened FlowBucket
  import opened FlowMoves
  import opened Ring

  function WireMark(m: Mark): PathMark {
    PathMark(m.id, m.pos % FLOW_SPACE, m.at)
  }

  /** The position a sequence is read as is one it could have been sent from. */
  lemma FlowPosition(b: Bucket, n: FlowSeq)
    ensures PositionOf(b, n) % FLOW_SPACE == n
  {
  }

  lemma FewerKeys<T>(a: set<T>, b: set<T>)
    requires a < b
    ensures |a| < |b|
  {
    assert b == a + (b - a);
  }

  lemma FewerHeld(a: map<int, Held>, b: map<int, Held>)
    requires a.Keys < b.Keys
    ensures |a| < |b|
  {
    FewerKeys(a.Keys, b.Keys);
  }

  lemma SkipShrinks(b: Bucket)
    requires b.Valid() && b.held != map[]
    ensures var r := FlowBucket.SkipToHeld(b);
            r.Valid() && |r.held| < |b.held| && r.startAt == b.startAt
  {
    SkipMoves(b);
    FewerHeld(FlowBucket.SkipToHeld(b).held, b.held);
  }

  lemma PassStep(b: Bucket, paths: Paths, now: int, done: seq<Payload>)
    requires b.held != map[] && paths.maxPath < |paths.seen| && Passed(b, paths, now)
    ensures var r := FlowBucket.SkipToHeld(b);
            && PassGaps(r, paths, now) == PassGaps(b, paths, now)
            && done + Texts(ResumeOut(b, Lowest(b.held))) + Texts(PassOut(r, paths, now)) == done + Texts(PassOut(b, paths, now))
  {
    TextsSum(ResumeOut(b, Lowest(b.held)), PassOut(FlowBucket.SkipToHeld(b), paths, now));
  }

  lemma TimeOutStep(b: Bucket, now: int, hold: int, done: seq<Payload>)
    requires b.held != map[] && now - b.gapSince >= hold
    ensures var r := FlowBucket.SkipToHeld(b.(lastSkipAt := now, lastSkipHold := hold));
            && FlowBucket.TimeOut(r, now, hold) == FlowBucket.TimeOut(b, now, hold)
            && done + Texts(ResumeOut(b, Lowest(b.held))) + Texts(TimeOutOut(r, now, hold)) == done + Texts(TimeOutOut(b, now, hold))
  {
    var r := FlowBucket.SkipToHeld(b.(lastSkipAt := now, lastSkipHold := hold));
    TextsSum(ResumeOut(b, Lowest(b.held)), TimeOutOut(r, now, hold));
  }

  lemma {:induction false} MarkOfIs(marks: seq<FlowBucket.Mark>, id: nat, i: nat)
    requires i <= |marks| && (i < |marks| ==> marks[i].id == id)
    requires forall j :: 0 <= j < i ==> marks[j].id != id
    ensures MarkOf(marks, id) == i
  {
  }

  lemma StalestIs(marks: seq<FlowBucket.Mark>, i: nat)
    requires i < |marks|
    requires forall j :: 0 <= j < |marks| ==> marks[i].at <= marks[j].at
    requires forall j :: 0 <= j < i ==> marks[i].at < marks[j].at
    ensures Stalest(marks) == i
  {
    var k := Stalest(marks);
    assert marks[k].at <= marks[i].at && marks[i].at <= marks[k].at;
  }

  class ReseqBucket {
    const id: nat
    var started: bool
    var next: FlowSeq
    var lastSeen: int
    var startAt: int
    var ring: array?<Slot>
    var head: nat
    var held: nat
    var gapSince: int
    var lastSkipAt: int
    var lastSkipHold: int
    var marks: seq<PathMark>

    /** The bucket on unbounded positions, and where position 0 sits in the ring. */
    ghost var v: Bucket
    ghost var off: int

    ghost predicate RingShows()
      reads this, ring
    {
      && head < WINDOW
      && (ring == null ==> v.held == map[])
      && (ring != null ==> ring.Length == WINDOW && head == Cell(v.next, off) && Shows(ring[..], off, v.next, v.held))
    }

    ghost predicate FieldsShow()
      reads this
    {
      && started == v.started && next == v.next % FLOW_SPACE
      && lastSeen == v.lastSeen && startAt == v.startAt && gapSince == v.gapSince
      && lastSkipAt == v.lastSkipAt && lastSkipHold == v.lastSkipHold
      && |marks| == |v.marks| <= MARKS && forall i :: 0 <= i < |marks| ==> marks[i] == WireMark(v.marks[i])
    }

    /** The fields show v; a packet may stand on next itself. */
    ghost predicate Shape()
      reads this, ring
    {
      && FieldsShow() && RingShows()
      && held == |v.held|
      && forall p :: p in v.held ==> v.next <= p < v.next + WINDOW
    }

    ghost predicate Valid()
      reads this, ring
    {
      Shape() && v.Valid()
    }

    constructor (id: nat)
      ensures Valid() && this.id == id && ring == null && v == NO_BUCKET
    {
      this.id := id;
      started, next, lastSeen, startAt := false, 0, 0, 0;
      ring, head, held := null, 0, 0;
      gapSince, lastSkipAt, lastSkipHold, marks := 0, 0, 0, [];
      v, off := NO_BUCKET, 0;
    }

    /** Moves next forward. Nothing may be left behind it. */
    method Advance(n: nat)
      requires Shape() && forall p :: p in v.held ==> v.next + n <= p
      modifies this`next, this`head, this`v
      ensures Shape() && v == old(v).(next := old(v).next + n)
    {
      if ring != null {
        WindowSlides(ring[..], off, v.next, v.next + n, v.held);
        HeadMoves(v.next, off, n);
        head := (head + n) % WINDOW;
      }
      next := (next + n) % FLOW_SPACE;
      v := v.(next := v.next + n);
    }

    /** Takes the packet at distance k out of its slot. */
    method Release(k: nat) returns (payload: Payload)
      requires Shape() && k < WINDOW && ring != null && ring[(head + k) % WINDOW].Full?
      modifies this`held, this`v, ring
      ensures Shape()
      ensures var p := old(v).next + k;
              p in old(v).held && payload == old(v).held[p].payload && v == old(v).(held := old(v).held - {p})
    {
      hide Cell, Shows, SlotAt;
      ghost var p := v.next + k;
      var i := (head + k) % WINDOW;
      HeadMoves(v.next, off, k);
      SlotFull(ring[..], off, v.next, v.held, p);
      payload := ring[i].buf;
      SlotEmptied(ring[..], off, v.next, v.held, p);
      OneFewer(v.held, p);
      ring[i] := Empty;
      held := held - 1;
      v := v.(held := v.held - {p});
    }

    /** Releases the packet on next and moves past it. */
    method Deliver(ghost b: Bucket) returns (payload: Payload)
      requires Shape() && ring != null && ring[head].Full?
      requires b.next <= v.next && v == MovedTo(b, v.next)
      modifies this`next, this`head, this`held, this`v, ring
      ensures Shape() && v == MovedTo(b, old(v).next + 1) && held == old(held) - 1
      ensures old(v).next in b.held && payload == b.held[old(v).next].payload
    {
      HeadMoves(v.next, off, 0);
      AboveNext(b.held, v.next);
      payload := Release(0);
      Advance(1);
    }

    /** The slot at the head shows whether the packet expected is held. */
    lemma FrontSlot()
      requires Shape() && held > 0
      ensures ring != null && head < ring.Length && (ring[head].Empty? <==> v.next !in v.held)
    {
      HeadMoves(v.next, off, 0);
    }

    /** Delivers everything consecutive from next, and times the gap left. */
    method Drain() returns (texts: seq<Payload>)
      requires Shape()
      modifies this`next, this`head, this`held, this`gapSince, this`v, ring
      ensures Shape() && v == ResumeAt(old(v), old(v).next)
      ensures texts == Texts(ResumeOut(old(v), old(v).next))
    {
      hide Emitted, Texts, FieldsShow, Shows, Cell;
      ghost var b := v;
      texts := [];
      TextsNothing(b.held, b.next);
      AboveAll(b.held, b.next);
      while held > 0
        invariant Shape() && b.next <= v.next && v == MovedTo(b, v.next)
        invariant forall p :: b.next <= p < v.next ==> p in b.held
        invariant texts == Texts(Emitted(b.held, b.next, v.next))
        decreases held
      {
        FrontSlot();
        if ring[head].Empty? {
          break;
        }
        TextsStep(b.held, b.next, v.next);
        var payload := Deliver(b);
        texts := texts + [payload];
      }
      assert v.next !in v.held;
      FirstGapIs(b.held, b.next, v.next);
      TimeGap();
    }

    /** A gap at the front is timed from the nearest packet behind it. */
    method TimeGap()
      requires Shape() && v.next !in v.held
      modifies this`gapSince, this`v
      ensures Shape() && v == Settle(old(v))
    {
      if held == 0 {
        gapSince := 0;
        assert v.held == map[];
      } else {
        assert v.held != map[];
        var k := Nearest();
        HeadMoves(v.next, off, k);
        gapSince := ring[(head + k) % WINDOW].at;
      }
      v := Settle(v);
    }

    /** The distance of the nearest held packet. */
    method Nearest() returns (k: nat)
      requires Shape() && v.next !in v.held && v.held != map[]
      ensures 1 <= k < WINDOW && v.next + k == Lowest(v.held)
      ensures ring != null && ring[(head + k) % WINDOW] == SlotAt(v.held, v.next + k)
    {
      k := 1;
      HeadMoves(v.next, off, k);
      while ring[(head + k) % WINDOW].Empty?
        invariant 1 <= k < WINDOW && v.next + k <= Lowest(v.held)
        invariant ring[(head + k) % WINDOW] == SlotAt(v.held, v.next + k)
        decreases WINDOW - k
      {
        k := k + 1;
        HeadMoves(v.next, off, k);
      }
    }

    /** Gives up on the gap at the front. */
    method SkipToHeld() returns (texts: seq<Payload>)
      requires Shape() && v.next !in v.held && v.held != map[]
      modifies this`next, this`head, this`held, this`gapSince, this`v, ring
      ensures Shape() && v == FlowBucket.SkipToHeld(old(v))
      ensures texts == Texts(ResumeOut(old(v), Lowest(old(v).held)))
    {
      hide Emitted, Texts, RingShows, FieldsShow, MovedTo, Above, ResumeAt, ResumeOut;
      ghost var b := v;
      ghost var t := Lowest(b.held);
      MovedOverGap(b, t);
      ResumeTexts(b, t);
      var k := Nearest();
      Advance(k);
      texts := Drain();
    }

    /** Gives up on the next n sequences, delivering any held among them. */
    method Skip(n: nat) returns (texts: seq<Payload>)
      requires Shape()
      modifies this`next, this`head, this`held, this`gapSince, this`v, ring
      ensures Shape() && v == ResumeAt(old(v), old(v).next + n)
      ensures texts == Texts(ResumeOut(old(v), old(v).next + n))
    {
      hide Emitted, Texts, RingShows, FieldsShow, MovedTo, Above, ResumeAt, ResumeOut;
      ghost var b := v;
      texts := SkipOver(n);
      var rest := Drain();
      ResumeTexts(b, b.next + n);
      texts := texts + rest;
    }

    method SkipOver(n: nat) returns (texts: seq<Payload>)
      requires Shape()
      modifies this`next, this`head, this`held, this`v, ring
      ensures Shape() && v == MovedTo(old(v), old(v).next + n)
      ensures texts == Texts(Emitted(old(v).held, old(v).next, v.next))
    {
      hide Emitted, Texts, RingShows, FieldsShow, MovedTo, Above;
      ghost var b := v;
      var left := n;
      texts := [];
      TextsNothing(b.held, b.next);
      MovedNowhere(b);
      while left > 0 && held > 0
        invariant Shape() && b.next <= v.next && v == MovedTo(b, v.next)
        invariant v.next + left == b.next + n
        invariant texts == Texts(Emitted(b.held, b.next, v.next))
      {
        TextsStep(b.held, b.next, v.next);
        var text := StepOver(b);
        texts := texts + text;
        left := left - 1;
      }
      if left > 0 {
        NoneAbove(v.held);
        MovedPast(b, v.next, v.next + left);
        Advance(left);
      }
    }

    /** Moves next by one, delivering the packet on it if there is one. */
    method StepOver(ghost b: Bucket) returns (texts: seq<Payload>)
      requires Shape() && held > 0 && b.next <= v.next && v == MovedTo(b, v.next)
      modifies this`next, this`head, this`held, this`v, ring
      ensures Shape() && v == MovedTo(b, old(v).next + 1)
      ensures texts == TextAt(b.held, old(v).next)
    {
      HeadMoves(v.next, off, 0);
      SomeAbove(v.held);
      AboveNext(b.held, v.next);
      if ring[head].Full? {
        var payload := Deliver(b);
        texts := [payload];
      } else {
        assert v.held == Above(b.held, v.next + 1);
        Advance(1);
        texts := [];
      }
    }

    /** Delivers everything held, in order, and empties the bucket. */
    method Flush() returns (texts: seq<Payload>)
      requires Shape()
      modifies this`held, this`gapSince, this`v, ring
      ensures Shape() && v == FlowBucket.Flush(old(v))
      ensures texts == Texts(FlushOut(old(v)))
    {
      ghost var b := v;
      texts := ReleaseAll();
      gapSince := 0;
      v := FlowBucket.Flush(b);
    }

    method ReleaseAll() returns (texts: seq<Payload>)
      requires Shape()
      modifies this`held, this`v, ring
      ensures Shape() && v == old(v).(held := map[])
      ensures texts == Texts(FlushOut(old(v)))
    {
      ghost var b := v;
      ghost var p := v.next;
      var k := 0;
      texts := [];
      AboveAll(b.held, p);
      while held > 0 && k < WINDOW
        invariant Shape() && k <= WINDOW && p == b.next + k
        invariant v == b.(held := Above(b.held, p))
        invariant texts == Texts(Emitted(b.held, b.next, p))
        decreases WINDOW - k
      {
        TextsStep(b.held, b.next, p);
        var text := ReleaseAt(k, p, b);
        texts := texts + text;
        k, p := k + 1, p + 1;
      }
      AllReleased(b, p);
    }

    /** Every slot has been visited, or nothing is left to find. */
    lemma AllReleased(b: Bucket, p: int)
      requires b.next <= p <= b.next + WINDOW
      requires forall q :: q in b.held ==> q < b.next + WINDOW
      requires |Above(b.held, p)| == 0 || p == b.next + WINDOW
      ensures Above(b.held, p) == map[]
      ensures Texts(FlushOut(b)) == Texts(Emitted(b.held, b.next, p))
    {
      if p < b.next + WINDOW {
        NothingAbove(b.held, b.next, p, b.next + WINDOW);
      }
    }

    method ReleaseAt(k: nat, ghost p: int, ghost b: Bucket) returns (texts: seq<Payload>)
      requires Shape() && held > 0 && k < WINDOW && p == b.next + k && v == b.(held := Above(b.held, p))
      modifies this`held, this`v, ring
      ensures Shape() && v == b.(held := Above(b.held, p + 1))
      ensures texts == TextAt(b.held, p)
    {
      HeadMoves(v.next, off, k);
      SomeAbove(v.held);
      AboveNext(b.held, p);
      if ring[(head + k) % WINDOW].Full? {
        var payload := Release(k);
        texts := [payload];
      } else {
        texts := [];
        assert v.held == Above(b.held, p + 1);
      }
    }

    // ----- marks

    /** The path's mark, or else where a new one would go. */
    method FindMark(path: nat) returns (i: nat, oldest: nat)
      requires FieldsShow()
      ensures i == MarkOf(v.marks, path)
      ensures i == |marks| > 0 ==> oldest == Stalest(v.marks)
    {
      i, oldest := 0, 0;
      while i < |marks| && marks[i].id != path
        invariant 0 <= i <= |marks| && (i == 0 ==> oldest == 0) && (i > 0 ==> oldest < i)
        invariant forall j :: 0 <= j < i ==> v.marks[j].id != path
        invariant forall j :: 0 <= j < i ==> v.marks[oldest].at <= v.marks[j].at
        invariant forall j :: 0 <= j < oldest ==> v.marks[oldest].at < v.marks[j].at
      {
        if marks[i].at < marks[oldest].at {
          oldest := i;
        }
        i := i + 1;
      }
      MarkOfIs(v.marks, path, i);
      if i == |marks| > 0 {
        StalestIs(v.marks, oldest);
      }
    }

    /** Records that a path delivered n, at position pos. */
    method Mark(path: nat, n: FlowSeq, now: int, ghost pos: int)
      requires FieldsShow() && n == pos % FLOW_SPACE
      modifies this`marks, this`v
      ensures FieldsShow() && v == old(v).(marks := MarkPath(old(v).marks, path, pos, now))
    {
      hide FlowNearest, FlowSeqDiff, MarkOf, Stalest;
      var i, oldest := FindMark(path);
      if i < |marks| {
        var m := marks[i];
        FlowSeqDiffUnwraps(pos, v.marks[i].pos);
        var moved := FlowSeqDiff(n, m.n) > 0 || now - m.at > PATH_ACTIVE;
        marks := marks[i := PathMark(path, if moved then n else m.n, now)];
      } else if |marks| < MARKS {
        marks := marks + [PathMark(path, n, now)];
      } else {
        marks := marks[oldest := PathMark(path, n, now)];
      }
      v := v.(marks := MarkPath(v.marks, path, pos, now));
    }

    /** Whether a path has delivered for this bucket recently. */
    method HasMark(path: nat, now: int) returns (has: bool)
      requires FieldsShow()
      ensures has == FlowBucket.HasMark(v.marks, path, now)
    {
      for i := 0 to |marks|
        invariant forall j :: 0 <= j < i ==> !(v.marks[j].id == path && Active(v.marks[j], now))
      {
        if marks[i].id == path && now - marks[i].at <= PATH_ACTIVE {
          assert v.marks[i].id == path && Active(v.marks[i], now);
          return true;
        }
      }
      return false;
    }

    /** Some path is active, and every active one reads as past next. */
    method AllPassed(now: int) returns (ok: bool)
      requires FieldsShow()
      ensures ok == ((exists m :: m in v.marks && Active(m, now))
                     && (forall m :: m in v.marks && Active(m, now) ==> FlowNearest(m.pos - v.next) > 0))
    {
      var active := false;
      for i := 0 to |marks|
        invariant active == exists j :: 0 <= j < i && Active(v.marks[j], now)
        invariant forall j :: 0 <= j < i && Active(v.marks[j], now) ==> FlowNearest(v.marks[j].pos - v.next) > 0
      {
        if now - marks[i].at <= PATH_ACTIVE {
          assert Active(v.marks[i], now);
          active := true;
          FlowSeqDiffUnwraps(v.marks[i].pos, v.next);
          if FlowSeqDiff(marks[i].n, next) <= 0 {
            assert v.marks[i] in v.marks;
            return false;
          }
        }
      }
      return active;
    }

    /** No path carrying any spread bulk is still to deliver for this bucket. */
    method AllSeen(paths: Paths, now: int) returns (ok: bool)
      requires FieldsShow() && paths.maxPath < |paths.seen|
      ensures ok == forall id :: 0 <= id <= paths.maxPath ==>
                paths.seen[id] == 0 || now - paths.seen[id] > PATH_ACTIVE || FlowBucket.HasMark(v.marks, id, now)
    {
      for id := 0 to paths.maxPath + 1
        invariant forall j :: 0 <= j < id ==>
          paths.seen[j] == 0 || now - paths.seen[j] > PATH_ACTIVE || FlowBucket.HasMark(v.marks, j, now)
      {
        if paths.seen[id] != 0 && now - paths.seen[id] <= PATH_ACTIVE {
          var has := HasMark(id, now);
          if !has {
            return false;
          }
        }
      }
      return true;
    }

    method GapPassed(paths: Paths, now: int, young: bool) returns (ok: bool)
      requires FieldsShow() && paths.maxPath < |paths.seen| && young == (now - v.startAt <= PATH_ACTIVE)
      ensures ok == Passed(v, paths, now)
    {
      ok := AllPassed(now);
      if ok && young {
        ok := AllSeen(paths, now);
      }
    }

    /** Gives up on every leading gap that each active path has delivered past. */
    method SkipPassedGaps(paths: Paths, now: int) returns (texts: seq<Payload>)
      requires Valid() && paths.maxPath < |paths.seen|
      modifies this`next, this`head, this`held, this`gapSince, this`v, ring
      ensures Valid() && v == PassGaps(old(v), paths, now)
      ensures texts == Texts(PassOut(old(v), paths, now))
    {
      ghost var b := v;
      var young := now - startAt <= PATH_ACTIVE;
      texts := [];
      while held > 0
        invariant Valid() && v.startAt == b.startAt
        invariant PassGaps(v, paths, now) == PassGaps(b, paths, now)
        invariant texts + Texts(PassOut(v, paths, now)) == Texts(PassOut(b, paths, now))
        decreases held
      {
        SomeAbove(v.held);
        var passed := GapPassed(paths, now, young);
        if !passed {
          return;
        }
        texts := GiveUpPassed(paths, now, texts);
      }
    }

    method GiveUpPassed(ghost paths: Paths, ghost now: int, done: seq<Payload>) returns (texts: seq<Payload>)
      requires Valid() && v.held != map[] && paths.maxPath < |paths.seen| && Passed(v, paths, now)
      modifies this`next, this`head, this`held, this`gapSince, this`v, ring
      ensures Valid() && held < old(held) && v.startAt == old(v).startAt
      ensures PassGaps(v, paths, now) == PassGaps(old(v), paths, now)
      ensures texts + Texts(PassOut(v, paths, now)) == done + Texts(PassOut(old(v), paths, now))
    {
      SkipShrinks(v);
      PassStep(v, paths, now, done);
      var text := SkipToHeld();
      texts := done + text;
    }

    /** Gives up on every front gap that has waited out the hold. */
    method TimeOut(now: int, hold: int) returns (texts: seq<Payload>)
      requires Valid()
      modifies this`next, this`head, this`held, this`gapSince, this`lastSkipAt, this`lastSkipHold, this`v, ring
      ensures Valid() && v == FlowBucket.TimeOut(old(v), now, hold)
      ensures texts == Texts(TimeOutOut(old(v), now, hold))
    {
      ghost var b := v;
      texts := [];
      while held > 0 && now - gapSince >= hold
        invariant Valid()
        invariant FlowBucket.TimeOut(v, now, hold) == FlowBucket.TimeOut(b, now, hold)
        invariant texts + Texts(TimeOutOut(v, now, hold)) == Texts(TimeOutOut(b, now, hold))
        decreases held
      {
        SomeAbove(v.held);
        texts := GiveUpTimed(now, hold, texts);
      }
    }

    method GiveUpTimed(now: int, hold: int, done: seq<Payload>) returns (texts: seq<Payload>)
      requires Valid() && v.held != map[] && now - v.gapSince >= hold
      modifies this`next, this`head, this`held, this`gapSince, this`lastSkipAt, this`lastSkipHold, this`v, ring
      ensures Valid() && held < old(held)
      ensures FlowBucket.TimeOut(v, now, hold) == FlowBucket.TimeOut(old(v), now, hold)
      ensures texts + Texts(TimeOutOut(v, now, hold)) == done + Texts(TimeOutOut(old(v), now, hold))
    {
      TimeOutStep(v, now, hold, done);
      NoteSkip(now, hold);
      SkipShrinks(v);
      var text := SkipToHeld();
      texts := done + text;
    }

    method NoteSkip(now: int, hold: int)
      requires Valid()
      modifies this`lastSkipAt, this`lastSkipHold, this`v
      ensures Valid() && v == old(v).(lastSkipAt := now, lastSkipHold := hold)
    {
      lastSkipAt, lastSkipHold, v := now, hold, v.(lastSkipAt := now, lastSkipHold := hold);
    }

    // ----- an arrival

    /** A bucket quiet for too long starts afresh. */
    method Wake(now: int) returns (texts: seq<Payload>)
      requires Valid()
      modifies this`started, this`marks, this`held, this`gapSince, this`v, ring
      ensures Valid() && v == FlowBucket.Wake(old(v), now)
      ensures texts == Texts(WakeOut(old(v), now))
    {
      texts := [];
      if started && now - lastSeen > IDLE {
        texts := Flush();
        started, marks := false, [];
        v := v.(started := false, marks := []);
      }
    }

    method Reset() returns (texts: seq<Payload>)
      requires Valid()
      modifies this`started, this`marks, this`held, this`gapSince, this`v, ring
      ensures Valid() && v == FlowBucket.Flush(old(v)).(started := false, marks := [])
      ensures texts == Texts(FlushOut(old(v)))
    {
      texts := Flush();
      started, marks := false, [];
      v := v.(started := false, marks := []);
    }

    method Touch(now: int, path: nat, n: FlowSeq, ghost pos: int)
      requires Valid() && pos == PositionOf(v, n)
      modifies this`lastSeen, this`marks, this`started, this`next, this`head, this`startAt, this`off, this`v
      ensures Shape() && v == FlowBucket.Touch(old(v), now, path, pos)
      ensures pos % FLOW_SPACE == n
    {
      hide MarkPath, FlowNearest, Shows, Cell;
      assert pos % FLOW_SPACE == n by { FlowPosition(v, n); }
      lastSeen := now;
      v := v.(lastSeen := now);
      Mark(path, n, now, pos);
      if !started {
        Begin(now, n, pos);
      }
    }

    method Begin(now: int, n: FlowSeq, ghost pos: int)
      requires Shape() && v.held == map[] && n == pos % FLOW_SPACE
      modifies this`started, this`next, this`startAt, this`off, this`v
      ensures Shape() && v == old(v).(started := true, next := pos, startAt := now)
    {
      hide Shows, Cell;
      started, next, startAt := true, n, now;
      Rebase(pos);
      v := v.(started := true, startAt := now);
    }

    /** next is set outright on an empty bucket: the ring is laid out afresh. */
    ghost method Rebase(pos: int)
      requires RingShows() && v.held == map[]
      modifies this`off, this`v
      ensures RingShows() && v == old(v).(next := pos)
    {
      if ring != null {
        ShowsNothing(ring[..], off, v.next);
        off := head - pos;
        EmptyShows(ring[..], off, pos);
        assert Cell(pos, off) == head;
      }
      v := v.(next := pos);
    }

    // What the arrival does, by its distance from next.

    method EnsureRing()
      requires Shape()
      modifies this`ring, this`off
      ensures Shape() && ring != null
      ensures ring == old(ring) || fresh(ring)
    {
      if ring == null {
        ring := new Slot[WINDOW](_ => Empty);
        off := head - v.next;
        EmptyShows(ring[..], off, v.next);
        assert Cell(v.next, off) == head;
      }
    }

    method Hold(d: nat, now: int, payload: Payload, ghost pos: int)
      requires Shape() && pos == v.next + d && 0 < d < WINDOW && pos !in v.held
      modifies this`ring, this`off, this`held, this`gapSince, this`v, ring
      ensures Shape() && v == FlowBucket.Hold(old(v), now, pos, payload)
      ensures ring == old(ring) || fresh(ring)
    {
      EnsureRing();
      Store(d, now, payload, pos);
      if held == 1 {
        gapSince := now;
        OnlyOne(old(v.held), pos, Held(payload, now));
      } else {
        SomeAbove(old(v.held));
      }
      v := FlowBucket.Hold(old(v), now, pos, payload);
    }

    method Store(d: nat, now: int, payload: Payload, ghost pos: int)
      requires Shape() && ring != null && pos == v.next + d && 0 < d < WINDOW && pos !in v.held
      modifies this`held, this`v, ring
      ensures Shape() && held == old(held) + 1
      ensures v == old(v).(held := old(v).held[pos := Held(payload, now)])
    {
      HeadMoves(v.next, off, d);
      var i := (head + d) % WINDOW;
      ghost var after := v.held[pos := Held(payload, now)];
      SlotChanged(ring[..], off, v.next, v.held, after, pos);
      OneMore(v.held, pos, Held(payload, now));
      ring[i] := Full(payload, now);
      held := held + 1;
      v := v.(held := after);
    }

    /** The packet expected next: out at once, with everything it uncovers. */
    method Turn(payload: Payload, ghost pos: int) returns (texts: seq<Payload>)
      requires Shape() && pos == v.next && HeldInWindow(v)
      modifies this`next, this`head, this`held, this`gapSince, this`v, ring
      ensures Shape() && v == FlowBucket.Turn(old(v), pos, payload).b
      ensures texts == Texts(FlowBucket.Turn(old(v), pos, payload).out)
    {
      hide Emitted, RingShows, FieldsShow, ResumeAt, ResumeOut, FirstGap, Above;
      Advance(1);
      TextsSum([Out(pos, payload, false)], ResumeOut(v, pos + 1));
      texts := Drain();
      texts := [payload] + texts;
    }

    /** Too far from next to be reordering: the sender has started again. */
    method Restart(now: int, path: nat, n: FlowSeq, payload: Payload, ghost pos: int) returns (texts: seq<Payload>)
      requires Shape() && n == pos % FLOW_SPACE
      modifies this
      modifies ring
      ensures Shape() && v == FlowBucket.Restart(old(v), now, path, pos, payload).b
      ensures ring == old(ring)
      ensures texts == Texts(FlushOut(old(v)) + [Out(pos, payload, false)])
    {
      hide Emitted, FlushOut, Cell, Shows, Above;
      TextsSum(FlushOut(v), [Out(pos, payload, false)]);
      texts := Flush();
      Rebase(pos);
      marks, next, startAt := [PathMark(path, n, now)], n, now;
      v := v.(marks := [FlowBucket.Mark(path, pos, now)], startAt := now);
      Advance(1);
      texts := texts + [payload];
    }

    /** Too far ahead to hold: the gap is forced until the window reaches it.
        Reports whether the packet is now held. */
    method Force(d: nat, now: int, n: FlowSeq, payload: Payload, ghost pos: int) returns (texts: seq<Payload>, kept: bool)
      requires Shape() && HeldInWindow(v) && d == pos - v.next >= WINDOW && n == pos % FLOW_SPACE
      modifies this`next, this`head, this`ring, this`off, this`held, this`gapSince, this`v, ring
      ensures Shape() && v == FlowBucket.Force(old(v), now, pos, payload).b
      ensures texts == Texts(FlowBucket.Force(old(v), now, pos, payload).out)
      ensures kept == FlowBucket.Force(old(v), now, pos, payload).kept
      ensures ring == old(ring) || fresh(ring)
    {
      ghost var b := v;
      ForceStopsShort(b, pos);
      texts := Skip(d - (WINDOW - 1));
      FlowSeqDiffUnwraps(pos, v.next);
      var e := FlowSeqDiff(n, next);
      if e == 0 {
        var more := Turn(payload, pos);
        TextsSum(ResumeOut(b, pos - (WINDOW - 1)), FlowBucket.Turn(ResumeAt(b, pos - (WINDOW - 1)), pos, payload).out);
        texts, kept := texts + more, false;
      } else {
        Hold(e, now, payload, pos);
        kept := true;
      }
    }

    method Place(now: int, path: nat, n: FlowSeq, payload: Payload, ghost pos: int)
      returns (texts: seq<Payload>, done: bool, kept: bool)
      requires Shape() && v.started && Ready(v, pos) && n == pos % FLOW_SPACE && -HALF_FLOW <= pos - v.next < HALF_FLOW
      modifies this
      modifies ring
      ensures Shape() && (ring == old(ring) || fresh(ring))
      ensures var a := FlowBucket.Place(old(v), now, path, pos, payload);
              v == a.b && texts == Texts(a.closing + a.out) && done == a.done && kept == a.kept
    {
      ghost var a := FlowBucket.Place(v, now, path, pos, payload);
      FlowSeqDiffUnwraps(pos, v.next);
      var d := FlowSeqDiff(n, next);
      done, kept := false, false;
      assert a.closing == [] ==> a.closing + a.out == a.out;
      if d == 0 {
        texts := Turn(payload, pos);
      } else if d < -RESTART_JUMP || d > RESTART_JUMP {
        texts := Restart(now, path, n, payload, pos);
      } else if d < 0 {
        texts := [payload];
      } else if d >= WINDOW {
        texts, kept := Force(d, now, n, payload, pos);
        done := !kept;
      } else {
        kept := Take(d, now, payload, pos);
        texts, done := [], !kept;
      }
    }

    /** Holds a packet ahead of the gap, unless its slot is full already. */
    method Take(d: nat, now: int, payload: Payload, ghost pos: int) returns (kept: bool)
      requires Shape() && HeldInWindow(v) && pos == v.next + d && 0 < d < WINDOW
      modifies this`ring, this`off, this`held, this`gapSince, this`v, ring
      ensures Shape() && kept == (pos !in old(v).held)
      ensures v == if kept then FlowBucket.Hold(old(v), now, pos, payload) else old(v)
      ensures ring == old(ring) || fresh(ring)
    {
      EnsureRing();
      HeadMoves(v.next, off, d);
      if ring[(head + d) % WINDOW].Full? {
        return false;
      }
      Hold(d, now, payload, pos);
      return true;
    }

    /** Everything push does to the bucket before passed gaps are looked for. */
    method Arrive(now: int, path: nat, n: FlowSeq, payload: Payload)
      returns (texts: seq<Payload>, told: Gap, done: bool, kept: bool)
      requires Valid()
      modifies this
      modifies ring
      ensures Valid() && (ring == old(ring) || fresh(ring))
      ensures var a := FlowBucket.Arrive(old(v), now, path, n, payload);
              v == a.b && texts == Texts(a.closing + a.out) && done == a.done && kept == a.kept
      ensures told == GapTold(Touched(old(v), now, path, n), now, PositionOf(FlowBucket.Wake(old(v), now), n))
    {
      ghost var b := v;
      ghost var pos;
      texts, pos := Rouse(now, path, n);
      told := Tell(now, n, pos);
      ghost var p := FlowBucket.Place(v, now, path, pos, payload);
      var more;
      more, done, kept := Place(now, path, n, payload, pos);
      ArriveSound(b, now, path, n, payload);
      TextsThree(WakeOut(b, now), p.closing, p.out);
      texts := texts + more;
    }

    /** Readies the bucket to place an arrival: closed if it has slept, marked, and
        started. */
    method Rouse(now: int, path: nat, n: FlowSeq) returns (texts: seq<Payload>, ghost pos: int)
      requires Valid()
      modifies this`started, this`marks, this`held, this`gapSince, this`v
      modifies this`lastSeen, this`next, this`head, this`startAt, this`off, ring
      ensures Shape() && v.started && Ready(v, pos)
      ensures pos == PositionOf(FlowBucket.Wake(old(v), now), n) && v == Touched(old(v), now, path, n)
      ensures n == pos % FLOW_SPACE && -HALF_FLOW <= pos - v.next < HALF_FLOW
      ensures texts == Texts(WakeOut(old(v), now))
    {
      ghost var b := v;
      texts := Wake(now);
      pos := PositionOf(v, n);
      Touch(now, path, n, pos);
      assert Ready(v, pos) by { TouchedReady(b, now, path, n); }
    }

    /** How long the arrival shows a gap to have needed. */
    method Tell(now: int, n: FlowSeq, ghost pos: int) returns (told: Gap)
      requires Shape() && n == pos % FLOW_SPACE && -HALF_FLOW <= pos - v.next < HALF_FLOW
      ensures told == GapTold(v, now, pos)
    {
      FlowSeqDiffUnwraps(pos, v.next);
      var d := FlowSeqDiff(n, next);
      if d == 0 && held > 0 {
        SomeAbove(v.held);
        return Took(now - gapSince);
      }
      if held == 0 {
        NoneAbove(v.held);
      }
      if -RESTART_JUMP <= d < 0 && lastSkipAt != 0 && now - lastSkipAt < GAP_WINDOW {
        return Took(now - lastSkipAt + lastSkipHold);
      }
      return Untold;
    }
  }
}
