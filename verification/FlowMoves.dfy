/** What one move of a bucket's next keeps: order, payloads, and the invariants. */
module FlowMoves {
  import opened Bytes
  import opened Serial
  import opened FlowBucket
  import opened Collections

  /** The payloads of a run of deliveries. */
  function PayloadsOf(outs: seq<Out>): multiset<Payload> {
    if outs == [] then multiset{} else multiset{outs[0].payload} + PayloadsOf(outs[1..])
  }

  lemma {:induction false} PayloadsOfSum(a: seq<Out>, b: seq<Out>)
    ensures PayloadsOf(a + b) == PayloadsOf(a) + PayloadsOf(b)
  {
    if a == [] {
      assert a + b == b;
    } else {
      assert (a + b)[1..] == a[1..] + b;
      PayloadsOfSum(a[1..], b);
    }
  }

  /** The payloads a bucket holds. */
  function Waiting(b: Bucket): multiset<Payload> {
    PayloadsOf(FlushOut(b))
  }

  // ----- runs of held packets

  lemma {:induction false} EmittedSplit(held: map<int, Held>, lo: int, mid: int, hi: int)
    requires lo <= mid <= hi
    ensures Emitted(held, lo, hi) == Emitted(held, lo, mid) + Emitted(held, mid, hi)
    decreases mid - lo
  {
    if lo < mid {
      EmittedSplit(held, lo + 1, mid, hi);
    }
  }

  lemma {:induction false} EmittedNone(held: map<int, Held>, lo: int, hi: int)
    requires forall p :: lo <= p < hi ==> p !in held
    ensures Emitted(held, lo, hi) == []
    decreases hi - lo
  {
    if lo < hi {
      EmittedNone(held, lo + 1, hi);
    }
  }

  lemma {:induction false} EmittedSame(held: map<int, Held>, other: map<int, Held>, lo: int, hi: int)
    requires forall p :: lo <= p < hi ==> (p in held <==> p in other) && (p in held ==> held[p] == other[p])
    ensures Emitted(held, lo, hi) == Emitted(other, lo, hi)
    decreases hi - lo
  {
    if lo < hi {
      EmittedSame(held, other, lo + 1, hi);
    }
  }

  /** Deliveries on time, strictly increasing, all from lo up to hi. */
  ghost predicate Ascending(outs: seq<Out>, lo: int, hi: int) {
    && (forall i :: 0 <= i < |outs| ==> lo <= outs[i].pos < hi && !outs[i].late)
    && (forall i, j :: 0 <= i < j < |outs| ==> outs[i].pos < outs[j].pos)
  }

  lemma {:induction false} EmittedAscends(held: map<int, Held>, lo: int, hi: int)
    ensures Ascending(Emitted(held, lo, hi), lo, hi)
    decreases hi - lo
  {
    if lo < hi {
      EmittedAscends(held, lo + 1, hi);
    }
  }

  lemma AscendingJoin(a: seq<Out>, b: seq<Out>, lo: int, mid: int, hi: int)
    requires lo <= mid <= hi && Ascending(a, lo, mid) && Ascending(b, mid, hi)
    ensures Ascending(a + b, lo, hi)
  {
  }

  /** What a window holds does not depend on how far past its end one looks. */
  lemma WaitingUpTo(b: Bucket, hi: int)
    requires forall p :: p in b.held ==> p < b.next + WINDOW && p < hi
    requires b.next <= hi
    ensures PayloadsOf(Emitted(b.held, b.next, hi)) == Waiting(b)
  {
    var w := b.next + WINDOW;
    if w <= hi {
      EmittedSplit(b.held, b.next, w, hi);
      EmittedNone(b.held, w, hi);
      assert FlushOut(b) == Emitted(b.held, b.next, hi);
    } else {
      EmittedSplit(b.held, b.next, hi, w);
      EmittedNone(b.held, hi, w);
      assert FlushOut(b) == Emitted(b.held, b.next, hi);
    }
  }

  // ----- one move of next

  /** Marks are behind next, on a held packet, or on the arrival being placed. */
  ghost predicate MarksPlaced(b: Bucket, pos: int) {
    forall m :: m in b.marks ==> m.pos < b.next || m.pos in b.held || m.pos == pos
  }

  ghost predicate HeldInWindow(b: Bucket) {
    forall p :: p in b.held ==> b.next < p < b.next + WINDOW
  }

  lemma ResumeConserves(b: Bucket, t: int)
    requires forall p :: p in b.held ==> b.next <= p < b.next + WINDOW
    requires b.next <= t
    ensures PayloadsOf(ResumeOut(b, t)) + Waiting(ResumeAt(b, t)) == Waiting(b)
  {
    var g := FirstGap(b.held, t);
    var hi := g + WINDOW;
    assert Waiting(ResumeAt(b, t)) == PayloadsOf(Emitted(b.held, g, hi)) by { EmittedSame(b.held, Above(b.held, g), g, hi); }
    assert PayloadsOf(Emitted(b.held, b.next, hi)) == Waiting(b) by { WaitingUpTo(b, hi); }
    EmittedSplit(b.held, b.next, g, hi);
    PayloadsOfSum(Emitted(b.held, b.next, g), Emitted(b.held, g, hi));
  }

  /** Giving up on the gap and resuming at t delivers, in order, exactly what
      leaves the bucket. */
  lemma Resume(b: Bucket, t: int, pos: int)
    requires forall p :: p in b.held ==> b.next <= p < b.next + WINDOW
    requires b.next <= t && MarksPlaced(b, pos)
    ensures var r := ResumeAt(b, t);
            && HeldInWindow(r) && t <= r.next && MarksPlaced(r, pos)
            && (r.held == map[] ==> r.gapSince == 0)
            && Ascending(ResumeOut(b, t), b.next, r.next)
            && PayloadsOf(ResumeOut(b, t)) + Waiting(r) == Waiting(b)
            && (forall p :: p in r.held <==> p in b.held && r.next <= p)
            && (forall p :: p in r.held ==> r.held[p] == b.held[p])
  {
    EmittedAscends(b.held, b.next, FirstGap(b.held, t));
    ResumeConserves(b, t);
  }

  lemma FlushAll(b: Bucket)
    requires forall p :: p in b.held ==> b.next <= p < b.next + WINDOW
    ensures Waiting(Flush(b)) == multiset{}
    ensures Ascending(FlushOut(b), b.next, b.next + WINDOW)
  {
    EmittedNone(map[], b.next, b.next + WINDOW);
    EmittedAscends(b.held, b.next, b.next + WINDOW);
  }

  lemma EmittedAround(held: map<int, Held>, lo: int, pos: int, hi: int)
    requires lo <= pos < hi
    ensures Emitted(held, lo, hi)
            == Emitted(held, lo, pos)
               + ((if pos in held then [Out(pos, held[pos].payload, false)] else []) + Emitted(held, pos + 1, hi))
  {
    EmittedSplit(held, lo, pos, hi);
  }

  lemma HoldOne(b: Bucket, now: int, pos: int, payload: Payload)
    requires HeldInWindow(b) && b.next < pos < b.next + WINDOW && pos !in b.held
    ensures Waiting(Hold(b, now, pos, payload)) == Waiting(b) + multiset{payload}
  {
    var lo, hi := b.next, b.next + WINDOW;
    var before, after := Emitted(b.held, lo, pos), Emitted(b.held, pos + 1, hi);
    var one := [Out(pos, payload, false)];
    assert FlushOut(b) == before + after by {
      EmittedAround(b.held, lo, pos, hi);
      assert [] + after == after;
    }
    assert FlushOut(Hold(b, now, pos, payload)) == before + (one + after) by { HoldOut(b, now, pos, payload); }
    PayloadsOfSum(before, after);
    PayloadsOfSum(before, one + after);
    PayloadsOfOne(Out(pos, payload, false));
    PayloadsOfSum(one, after);
    Between(PayloadsOf(before), multiset{payload}, PayloadsOf(after));
  }

  lemma PayloadsOfOne(out: Out)
    ensures PayloadsOf([out]) == multiset{out.payload}
  {
  }

  lemma Between(before: multiset<Payload>, one: multiset<Payload>, after: multiset<Payload>)
    ensures before + (one + after) == before + after + one
  {
  }

  lemma HoldOut(b: Bucket, now: int, pos: int, payload: Payload)
    requires HeldInWindow(b) && b.next < pos < b.next + WINDOW && pos !in b.held
    ensures FlushOut(Hold(b, now, pos, payload))
            == Emitted(b.held, b.next, pos)
               + ([Out(pos, payload, false)] + Emitted(b.held, pos + 1, b.next + WINDOW))
  {
    var h := Hold(b, now, pos, payload).held;
    EmittedAround(h, b.next, pos, b.next + WINDOW);
    EmittedSame(b.held, h, b.next, pos);
    EmittedSame(b.held, h, pos + 1, b.next + WINDOW);
  }

  // ----- the moves together

  /** From b to r, handing on outs: nothing lost, in order, invariants kept. */
  ghost predicate Moved(b: Bucket, r: Bucket, outs: seq<Out>) {
    && r.Valid() && r.started == b.started && r.marks == b.marks && r.startAt == b.startAt && r.lastSeen == b.lastSeen
    && b.next <= r.next
    && Ascending(outs, b.next, r.next)
    && PayloadsOf(outs) + Waiting(r) == Waiting(b)
    && (forall p :: p in r.held ==> p in b.held && r.held[p] == b.held[p])
  }

  lemma MovedTwice(b: Bucket, c: Bucket, r: Bucket, out1: seq<Out>, out2: seq<Out>)
    requires Moved(b, c, out1) && Moved(c, r, out2)
    ensures Moved(b, r, out1 + out2)
  {
    AscendingJoin(out1, out2, b.next, c.next, r.next);
    PayloadsOfSum(out1, out2);
  }

  lemma NotMoved(b: Bucket)
    requires b.Valid()
    ensures Moved(b, b, [])
  {
  }

  lemma SkipMoves(b: Bucket)
    requires b.Valid() && b.held != map[]
    ensures Moved(b, SkipToHeld(b), ResumeOut(b, Lowest(b.held)))
    ensures Lowest(b.held) < SkipToHeld(b).next
  {
    var m := Lowest(b.held) - 1;
    Resume(b, Lowest(b.held), m);
  }

  lemma {:induction false} PassGapsMoves(b: Bucket, paths: Paths, now: int)
    requires b.Valid() && paths.maxPath < |paths.seen|
    ensures Moved(b, PassGaps(b, paths, now), PassOut(b, paths, now))
    decreases b.held.Keys
  {
    if b.held != map[] && Passed(b, paths, now) {
      SkipMoves(b);
      PassGapsMoves(SkipToHeld(b), paths, now);
      MovedTwice(b, SkipToHeld(b), PassGaps(b, paths, now),
                 ResumeOut(b, Lowest(b.held)), PassOut(SkipToHeld(b), paths, now));
    } else {
      NotMoved(b);
    }
  }

  /** Noting the skip changes nothing that moves. */
  lemma NotedSkipMoves(b: Bucket, now: int, hold: int)
    requires b.Valid() && b.held != map[]
    ensures var c := b.(lastSkipAt := now, lastSkipHold := hold);
            Moved(b, SkipToHeld(c), ResumeOut(c, Lowest(c.held)))
  {
    var c := b.(lastSkipAt := now, lastSkipHold := hold);
    SkipMoves(c);
    assert Waiting(c) == Waiting(b);
  }

  lemma {:induction false} TimeOutMoves(b: Bucket, now: int, hold: int)
    requires b.Valid()
    ensures Moved(b, TimeOut(b, now, hold), TimeOutOut(b, now, hold))
    decreases b.held.Keys
  {
    if b.held != map[] && now - b.gapSince >= hold {
      var c := b.(lastSkipAt := now, lastSkipHold := hold);
      var r, outs := SkipToHeld(c), ResumeOut(c, Lowest(c.held));
      NotedSkipMoves(b, now, hold);
      MovedIsValid(b, r, outs);
      TimeOutMoves(r, now, hold);
      MovedTwice(b, r, TimeOut(r, now, hold), outs, TimeOutOut(r, now, hold));
      hide Moved, SkipToHeld, ResumeOut;
    } else {
      NotMoved(b);
    }
  }

  lemma MovedIsValid(b: Bucket, r: Bucket, outs: seq<Out>)
    requires Moved(b, r, outs)
    ensures r.Valid()
  {
  }

  // ----- an arrival

  /** In order from lo, or one late packet from behind it. */
  ghost predicate InOrderOrLate(outs: seq<Out>, lo: int, hi: int) {
    Ascending(outs, lo, hi) || (|outs| == 1 && outs[0].late && outs[0].pos < lo)
  }

  /** Every payload is handed on, held, or the repeat of one already held. */
  ghost predicate Conserves(b: Bucket, a: Arrived, payload: Payload) {
    PayloadsOf(a.closing) + PayloadsOf(a.out) + multiset(a.dropped) + Waiting(a.b) == Waiting(b) + multiset{payload}
  }

  ghost predicate Sound(a: Arrived) {
    a.b.Valid() && a.b.started
  }

  ghost predicate Ordered(b: Bucket, a: Arrived, pos: int) {
    && Ascending(a.closing, b.next, b.next + WINDOW)
    && (!a.anew ==> a.closing == [] && b.next <= a.b.next && InOrderOrLate(a.out, b.next, a.b.next))
    && (a.anew ==> Ascending(a.out, pos, a.b.next))
  }

  /** What an arrival is compared against: its own mark is already made. */
  ghost predicate Ready(b: Bucket, pos: int) {
    && b.started && HeldInWindow(b) && MarksPlaced(b, pos) && |b.marks| <= MARKS
    && (b.held == map[] ==> b.gapSince == 0)
  }

  lemma OneThen(pos: int, payload: Payload, rest: seq<Out>, hi: int)
    requires Ascending(rest, pos + 1, hi) && pos < hi
    ensures Ascending([Out(pos, payload, false)] + rest, pos, hi)
    ensures PayloadsOf([Out(pos, payload, false)] + rest) == multiset{payload} + PayloadsOf(rest)
  {
    PayloadsOfSum([Out(pos, payload, false)], rest);
  }

  lemma WaitingPastNext(b: Bucket)
    requires HeldInWindow(b)
    ensures Waiting(b.(next := b.next + 1)) == Waiting(b)
  {
    var hi := b.next + 1 + WINDOW;
    assert Emitted(b.held, b.next, hi) == Emitted(b.held, b.next + 1, hi);
    WaitingUpTo(b, hi);
  }

  lemma TurnSound(b: Bucket, payload: Payload)
    requires Ready(b, b.next)
    ensures Sound(Turn(b, b.next, payload))
  {
    Resume(b.(next := b.next + 1), b.next + 1, b.next);
  }

  lemma TurnOrdered(b: Bucket, payload: Payload)
    requires Ready(b, b.next)
    ensures Ascending(Turn(b, b.next, payload).out, b.next, Turn(b, b.next, payload).b.next)
  {
    var pos := b.next;
    var a := b.(next := pos + 1);
    EmittedAscends(a.held, pos + 1, FirstGap(a.held, pos + 1));
    OneThen(pos, payload, ResumeOut(a, pos + 1), ResumeAt(a, pos + 1).next);
  }

  lemma TurnConserves(b: Bucket, payload: Payload)
    requires Ready(b, b.next)
    ensures Conserves(b, Turn(b, b.next, payload), payload)
  {
    hide Emitted, Waiting, PayloadsOf, Conserves, FirstGap, Above;
    var pos := b.next;
    var a := b.(next := pos + 1);
    WaitingPastNext(b);
    ResumeConserves(a, pos + 1);
    OutIsOneMore(b, Turn(b, pos, payload), Out(pos, payload, false), ResumeOut(a, pos + 1));
  }

  lemma OutIsOneMore(b: Bucket, q: Arrived, one: Out, rest: seq<Out>)
    requires q.closing == [] && q.dropped == [] && q.out == [one] + rest
    requires PayloadsOf(rest) + Waiting(q.b) == Waiting(b)
    ensures Conserves(b, q, one.payload)
  {
    PayloadsOfOne(one);
    PayloadsOfSum([one], rest);
    OutThenRest(multiset{one.payload}, PayloadsOf(rest), Waiting(q.b), Waiting(b));
  }

  lemma OutThenRest(one: multiset<Payload>, out: multiset<Payload>, left: multiset<Payload>, before: multiset<Payload>)
    requires out + left == before
    ensures multiset{} + (one + out) + multiset{} + left == before + one
  {
    assert multiset{} + (one + out) + multiset{} + left == one + (out + left);
  }

  lemma RestartOrdered(b: Bucket, now: int, path: nat, pos: int, payload: Payload)
    requires Ready(b, pos)
    ensures Sound(Restart(b, now, path, pos, payload))
    ensures Ordered(b, Restart(b, now, path, pos, payload), pos)
  {
    FlushAll(b);
  }

  lemma RestartConserves(b: Bucket, now: int, path: nat, pos: int, payload: Payload)
    requires Ready(b, pos)
    ensures Conserves(b, Restart(b, now, path, pos, payload), payload)
  {
    EmittedNone(map[], pos + 1, pos + 1 + WINDOW);
    assert PayloadsOf([Out(pos, payload, false)]) == multiset{payload};
  }

  /** A forced skip never runs past the arrival that forced it: the distance
      worked out again afterwards is inside the window and not negative. */
  lemma ForceStopsShort(b: Bucket, pos: int)
    requires HeldInWindow(b) && WINDOW <= pos - b.next
    ensures 0 <= pos - ResumeAt(b, pos - (WINDOW - 1)).next < WINDOW
    ensures pos !in ResumeAt(b, pos - (WINDOW - 1)).held
  {
  }

  lemma ForceSound(b: Bucket, now: int, pos: int, payload: Payload)
    requires Ready(b, pos) && WINDOW <= pos - b.next
    ensures Sound(Force(b, now, pos, payload))
  {
    var a := ResumeAt(b, pos - (WINDOW - 1));
    Resume(b, pos - (WINDOW - 1), pos);
    ForceStopsShort(b, pos);
    if a.next == pos {
      TurnSound(a, payload);
    }
  }

  lemma ForceOrdered(b: Bucket, now: int, pos: int, payload: Payload)
    requires Ready(b, pos) && WINDOW <= pos - b.next
    ensures Ordered(b, Force(b, now, pos, payload), pos)
  {
    var t := pos - (WINDOW - 1);
    var a, out := ResumeAt(b, t), ResumeOut(b, t);
    assert Ready(a, pos) && b.next <= a.next by { Resume(b, t, pos); }
    assert Ascending(out, b.next, a.next) by { Resume(b, t, pos); }
    if a.next == pos {
      var q := Turn(a, pos, payload);
      assert Ascending(q.out, a.next, q.b.next) && a.next <= q.b.next by { TurnOrdered(a, payload); }
      AscendingJoin(out, q.out, b.next, a.next, q.b.next);
    }
  }

  lemma ForceConserves(b: Bucket, now: int, pos: int, payload: Payload)
    requires Ready(b, pos) && WINDOW <= pos - b.next
    ensures Conserves(b, Force(b, now, pos, payload), payload)
  {
    var t := pos - (WINDOW - 1);
    var a, out := ResumeAt(b, t), ResumeOut(b, t);
    assert HeldInWindow(a) && Ready(a, pos) by { Resume(b, t, pos); }
    assert PayloadsOf(out) + Waiting(a) == Waiting(b) by { ResumeConserves(b, t); }
    ForceStopsShort(b, pos);
    if a.next == pos {
      var q := Turn(a, pos, payload);
      assert Conserves(a, q, payload) by { TurnConserves(a, payload); }
      PayloadsOfSum(out, q.out);
      SkipThenTurn(PayloadsOf(out), PayloadsOf(q.out), Waiting(q.b), Waiting(a), Waiting(b), multiset{payload});
    } else {
      assert Waiting(Hold(a, now, pos, payload)) == Waiting(a) + multiset{payload} by { HoldOne(a, now, pos, payload); }
      SkipThenHold(PayloadsOf(out), Waiting(a), Waiting(b), multiset{payload});
    }
  }

  lemma SkipThenTurn(skipped: multiset<Payload>, out: multiset<Payload>, left: multiset<Payload>, mid: multiset<Payload>,
                     before: multiset<Payload>, one: multiset<Payload>)
    requires skipped + mid == before && multiset{} + out + multiset{} + left == mid + one
    ensures multiset{} + (skipped + out) + multiset{} + left == before + one
  {
    assert multiset{} + (skipped + out) + multiset{} + left == skipped + (multiset{} + out + multiset{} + left);
    assert skipped + (mid + one) == skipped + mid + one;
  }

  lemma SkipThenHold(skipped: multiset<Payload>, mid: multiset<Payload>, before: multiset<Payload>, one: multiset<Payload>)
    requires skipped + mid == before
    ensures multiset{} + skipped + multiset{} + (mid + one) == before + one
  {
    assert multiset{} + skipped + multiset{} + (mid + one) == skipped + mid + one;
  }

  lemma PlaceSound(b: Bucket, now: int, path: nat, pos: int, payload: Payload)
    requires Ready(b, pos)
    ensures Sound(Place(b, now, path, pos, payload))
  {
    var d := pos - b.next;
    if d == 0 {
      TurnSound(b, payload);
    } else if d < -RESTART_JUMP || d > RESTART_JUMP {
      RestartOrdered(b, now, path, pos, payload);
    } else if d >= WINDOW {
      ForceSound(b, now, pos, payload);
    }
  }

  lemma PlaceOrdered(b: Bucket, now: int, path: nat, pos: int, payload: Payload)
    requires Ready(b, pos)
    ensures Ordered(b, Place(b, now, path, pos, payload), pos)
  {
    var d := pos - b.next;
    if d == 0 {
      TurnSound(b, payload);
      TurnOrdered(b, payload);
    } else if d < -RESTART_JUMP || d > RESTART_JUMP {
      RestartOrdered(b, now, path, pos, payload);
    } else if d >= WINDOW {
      ForceOrdered(b, now, pos, payload);
    }
  }

  lemma LateConserves(b: Bucket, pos: int, payload: Payload)
    ensures Conserves(b, Arrived(b, [], [Out(pos, payload, true)], false, [], false, false), payload)
    ensures Conserves(b, Arrived(b, [], [], false, [payload], true, false), payload)
  {
    PayloadsOfOne(Out(pos, payload, true));
  }

  lemma HeldConserves(b: Bucket, now: int, pos: int, payload: Payload)
    requires HeldInWindow(b) && b.next < pos < b.next + WINDOW && pos !in b.held
    ensures Conserves(b, Arrived(Hold(b, now, pos, payload), [], [], false, [], false, true), payload)
  {
    HoldOne(b, now, pos, payload);
  }

  lemma PlaceConserves(b: Bucket, now: int, path: nat, pos: int, payload: Payload)
    requires Ready(b, pos)
    ensures Conserves(b, Place(b, now, path, pos, payload), payload)
  {
    hide Turn, Restart, Force, Hold, Conserves;
    var d := pos - b.next;
    if d == 0 {
      TurnConserves(b, payload);
    } else if d < -RESTART_JUMP || d > RESTART_JUMP {
      RestartConserves(b, now, path, pos, payload);
    } else if d >= WINDOW {
      ForceConserves(b, now, pos, payload);
    } else {
      LateConserves(b, pos, payload);
      if d > 0 && pos !in b.held {
        HeldConserves(b, now, pos, payload);
      }
    }
  }

  lemma WakeKeeps(b: Bucket, now: int)
    requires b.Valid()
    ensures Wake(b, now).Valid()
    ensures Ascending(WakeOut(b, now), b.next, b.next + WINDOW)
    ensures PayloadsOf(WakeOut(b, now)) + Waiting(Wake(b, now)) == Waiting(b)
    ensures Wake(b, now).started ==> Wake(b, now) == b && WakeOut(b, now) == []
    ensures !Wake(b, now).started ==> Waiting(Wake(b, now)) == multiset{}
  {
    assert Waiting(Flush(b)) == multiset{} && Ascending(FlushOut(b), b.next, b.next + WINDOW) by { FlushAll(b); }
    var w := Wake(b, now);
    if b.started && now - b.lastSeen > IDLE {
      assert Waiting(w) == Waiting(Flush(b));
    } else {
      assert w == b && WakeOut(b, now) == [];
      assert !b.started ==> Flush(b) == b;
    }
  }

  lemma TouchReady(w: Bucket, now: int, path: nat, pos: int)
    requires w.Valid()
    ensures Ready(Touch(w, now, path, pos), pos)
    ensures Waiting(Touch(w, now, path, pos)) == Waiting(w)
    ensures !w.started ==> Touch(w, now, path, pos).next == pos && w.held == map[]
  {
    var t := Touch(w, now, path, pos);
    if !w.started {
      EmittedNone(map[], t.next, t.next + WINDOW);
      EmittedNone(map[], w.next, w.next + WINDOW);
    }
  }

  /** The bucket an arrival is compared against. */
  ghost function Touched(b: Bucket, now: int, path: nat, n: FlowSeq): Bucket
  {
    Touch(Wake(b, now), now, path, PositionOf(Wake(b, now), n))
  }

  lemma TouchedReady(b: Bucket, now: int, path: nat, n: FlowSeq)
    requires b.Valid()
    ensures Ready(Touched(b, now, path, n), PositionOf(Wake(b, now), n))
    ensures PayloadsOf(WakeOut(b, now)) + Waiting(Touched(b, now, path, n)) == Waiting(b)
  {
    WakeKeeps(b, now);
    TouchReady(Wake(b, now), now, path, PositionOf(Wake(b, now), n));
  }

  /** One arrival keeps the bucket's invariant. */
  lemma ArriveSound(b: Bucket, now: int, path: nat, n: FlowSeq, payload: Payload)
    requires b.Valid()
    ensures Sound(Arrive(b, now, path, n, payload))
  {
    TouchedReady(b, now, path, n);
    PlaceSound(Touched(b, now, path, n), now, path, PositionOf(Wake(b, now), n), payload);
  }

  /** A bucket that slept closes its sequence before the arrival opens another. */
  lemma OrderedAfterWake(b: Bucket, t: Bucket, a: Arrived, pos: int, closing: seq<Out>, awake: bool)
    requires Ordered(t, a, pos)
    requires awake ==> closing == [] && t.next == b.next
    requires !awake ==> Ascending(closing, b.next, b.next + WINDOW) && a.closing == [] && Ascending(a.out, pos, a.b.next)
    ensures Ordered(b, a.(closing := closing + a.closing, anew := a.anew || !awake), pos)
  {
    assert closing + a.closing == if awake then a.closing else closing;
  }

  /** And its order: within a sequence, deliveries ascend or are late. */
  lemma ArriveOrdered(b: Bucket, now: int, path: nat, n: FlowSeq, payload: Payload)
    requires b.Valid()
    ensures Ordered(b, Arrive(b, now, path, n, payload), PositionOf(Wake(b, now), n))
  {
    var w := Wake(b, now);
    var t, pos := Touched(b, now, path, n), PositionOf(w, n);
    var a := Place(t, now, path, pos, payload);
    assert Ready(t, pos) by { TouchedReady(b, now, path, n); }
    assert Ordered(t, a, pos) by { PlaceOrdered(t, now, path, pos, payload); }
    if !w.started {
      assert Ascending(a.out, pos, a.b.next) by { TurnOrdered(t, payload); }
      EmittedAscends(b.held, b.next, b.next + WINDOW);
    }
    OrderedAfterWake(b, t, a, pos, WakeOut(b, now), w.started);
  }

  /** One arrival loses nothing and invents nothing. */
  lemma ArriveConserves(b: Bucket, now: int, path: nat, n: FlowSeq, payload: Payload)
    requires b.Valid()
    ensures Conserves(b, Arrive(b, now, path, n, payload), payload)
  {
    var t, pos := Touched(b, now, path, n), PositionOf(Wake(b, now), n);
    TouchedReady(b, now, path, n);
    PlaceConserves(t, now, path, pos, payload);
    ConservesAfter(b, t, Place(t, now, path, pos, payload), WakeOut(b, now), payload, Wake(b, now).started);
  }

  lemma ConservesAfter(b: Bucket, t: Bucket, a: Arrived, closing: seq<Out>, payload: Payload, awake: bool)
    requires Conserves(t, a, payload) && PayloadsOf(closing) + Waiting(t) == Waiting(b)
    ensures Conserves(b, a.(closing := closing + a.closing, anew := a.anew || !awake), payload)
  {
    PayloadsOfSum(closing, a.closing);
    Reorder(PayloadsOf(closing), PayloadsOf(a.closing), PayloadsOf(a.out), multiset(a.dropped), Waiting(a.b),
            Waiting(t), multiset{payload});
  }

  lemma Reorder(first: multiset<Payload>, closing: multiset<Payload>, out: multiset<Payload>, dropped: multiset<Payload>,
                left: multiset<Payload>, before: multiset<Payload>, p: multiset<Payload>)
    requires closing + out + dropped + left == before + p
    ensures first + closing + out + dropped + left == first + before + p
  {
    assert first + closing + out + dropped + left == first + (closing + out + dropped + left);
    assert first + before + p == first + (before + p);
  }

  // ----- how many packets are held

  lemma HeldOneMore(b: Bucket, now: int, pos: int, payload: Payload)
    ensures |Hold(b, now, pos, payload).held| <= |b.held| + 1
  {
    var h := Hold(b, now, pos, payload).held;
    assert h.Keys == b.held.Keys + {pos};
  }

  /** An arrival adds at most the packet it brings, and that only when it is kept. */
  lemma PlaceHeld(b: Bucket, now: int, path: nat, pos: int, payload: Payload)
    ensures var a := Place(b, now, path, pos, payload);
            |a.b.held| <= |b.held| + (if a.kept then 1 else 0)
  {
    var d := pos - b.next;
    if d == 0 {
      FewerEntries(ResumeAt(b.(next := pos + 1), pos + 1).held, b.held);
    } else if d < -RESTART_JUMP || d > RESTART_JUMP || d < 0 {
    } else if d >= WINDOW {
      var a := ResumeAt(b, pos - (WINDOW - 1));
      FewerEntries(a.held, b.held);
      FewerEntries(ResumeAt(a.(next := pos + 1), pos + 1).held, a.held);
      HeldOneMore(a, now, pos, payload);
    } else {
      HeldOneMore(b, now, pos, payload);
    }
  }

  lemma ArriveHeld(b: Bucket, now: int, path: nat, n: FlowSeq, payload: Payload)
    ensures var a := Arrive(b, now, path, n, payload);
            |a.b.held| <= |b.held| + (if a.kept then 1 else 0)
  {
    PlaceHeld(Touched(b, now, path, n), now, path, PositionOf(Wake(b, now), n), payload);
  }
}
