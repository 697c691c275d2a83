/** What an arrival does, case by case, in the numbers of the source: a bucket is awake
    for thirty seconds, holds 4096 positions, and takes a jump of more than 262144 for a
    sender that has begun again. */
module FlowArrivals {
  import opened Bytes
  import opened Serial
  import opened FlowBucket
  import opened FlowMoves
  import opened FlowRuns

  /** The bucket has a sequence and has been used in the last thirty seconds. */
  predicate Awake(b: Bucket, now: int) {
    b.started && now - b.lastSeen <= 30_000_000_000
  }

  /** Sequence n, as a position in the half space around next. */
  predicate Reads(b: Bucket, n: FlowSeq, pos: int) {
    pos % 1_048_576 == n && -524_288 <= pos - b.next < 524_288
  }

  lemma ReadsPosition(b: Bucket, n: FlowSeq, pos: int)
    requires b.started && Reads(b, n, pos)
    ensures PositionOf(b, n) == pos
  {
    assert n - b.next + HALF_FLOW == (pos - b.next + HALF_FLOW) - pos / FLOW_SPACE * FLOW_SPACE;
  }

  /** Every sequence reads as one position. */
  lemma ReadsOne(b: Bucket, n: FlowSeq) returns (pos: int)
    requires b.started
    ensures Reads(b, n, pos) && forall other :: Reads(b, n, other) ==> other == pos
  {
    pos := PositionOf(b, n);
    var k := (n - b.next + HALF_FLOW) / FLOW_SPACE;
    assert pos == n - k * FLOW_SPACE;
    forall other | Reads(b, n, other) ensures other == pos {
      ReadsPosition(b, n, other);
    }
  }

  lemma ArrivePlaces(b: Bucket, now: int, path: nat, n: FlowSeq, pos: int, payload: Payload)
    requires Awake(b, now) && Reads(b, n, pos)
    ensures Arrive(b, now, path, n, payload) == Place(Touch(b, now, path, pos), now, path, pos, payload)
    ensures var t := Touch(b, now, path, pos);
            t == b.(lastSeen := now, marks := MarkPath(b.marks, path, pos, now))
  {
    ReadsPosition(b, n, pos);
    hide Place, MarkPath, PositionOf;
    var a := Place(Touch(b, now, path, pos), now, path, pos, payload);
    assert [] + a.closing == a.closing;
  }

  /** Which arrivals begin a new sequence: exactly those more than 262144 from next. */
  lemma AnewExactly(b: Bucket, now: int, path: nat, n: FlowSeq, pos: int, payload: Payload)
    requires Awake(b, now) && Reads(b, n, pos)
    ensures Arrive(b, now, path, n, payload).anew <==> pos - b.next < -262_144 || pos - b.next > 262_144
  {
    hide MarkPath, Force, Hold;
    ArrivePlaces(b, now, path, n, pos, payload);
    ForceGoesOn(Touch(b, now, path, pos), now, pos, payload);
  }

  lemma ForceGoesOn(b: Bucket, now: int, pos: int, payload: Payload)
    ensures !Force(b, now, pos, payload).anew
  {
  }

  /** A packet behind next and no further is handed on at once, alone and as late, and
      nothing else about the sequence changes. */
  lemma LateGoesThrough(b: Bucket, now: int, path: nat, n: FlowSeq, pos: int, payload: Payload)
    requires Awake(b, now) && Reads(b, n, pos) && -262_144 <= pos - b.next < 0
    ensures var a := Arrive(b, now, path, n, payload);
            && a.closing == [] && a.out == [Out(pos, payload, true)] && a.dropped == []
            && !a.anew && !a.done && !a.kept
            && a.b == b.(lastSeen := now, marks := a.b.marks)
  {
    hide MarkPath, Force, Hold;
    ArrivePlaces(b, now, path, n, pos, payload);
  }

  /** What is handed on from pos on: one payload a position, in order. */
  ghost predicate HandsOn(out: seq<Out>, held: map<int, Held>, pos: int, payload: Payload, next: int) {
    && |out| == next - pos && pos < next && out[0] == Out(pos, payload, false)
    && forall k :: 0 < k < |out| ==> pos + k in held && out[k] == Out(pos + k, held[pos + k].payload, false)
  }

  /** The gap is timed from the packet nearest to next. */
  ghost predicate TimedFromNearest(b: Bucket) {
    && (b.held == map[] ==> b.gapSince == 0)
    && (b.held != map[] ==> exists p :: p in b.held && (forall q :: q in b.held ==> p <= q) && b.gapSince == b.held[p].at)
  }

  /** What is left of held from next on. */
  ghost predicate LeftFrom(left: map<int, Held>, held: map<int, Held>, next: int) {
    && (forall p :: p in left <==> p in held && next <= p)
    && (forall p :: p in left ==> left[p] == held[p])
  }

  lemma {:induction false} EmittedRun(held: map<int, Held>, lo: int, hi: int)
    requires lo <= hi && forall p :: lo <= p < hi ==> p in held
    ensures |Emitted(held, lo, hi)| == hi - lo
    ensures forall k :: 0 <= k < hi - lo ==> Emitted(held, lo, hi)[k] == Out(lo + k, held[lo + k].payload, false)
    decreases hi - lo
  {
    if lo < hi {
      EmittedRun(held, lo + 1, hi);
    }
  }

  lemma TurnHandsOn(b: Bucket, pos: int, payload: Payload)
    ensures var a := Turn(b, pos, payload);
            && a.closing == [] && a.dropped == [] && !a.anew && !a.done && !a.kept
            && HandsOn(a.out, b.held, pos, payload, a.b.next) && a.b.next !in b.held
            && LeftFrom(a.b.held, b.held, a.b.next) && TimedFromNearest(a.b)
            && a.b == b.(next := a.b.next, held := a.b.held, gapSince := a.b.gapSince)
  {
    EmittedRun(b.held, pos + 1, FirstGap(b.held, pos + 1));
  }

  /** The packet expected is handed on, and with it the run of held packets that follows,
      up to the first position not held. */
  lemma ExpectedGoesOut(b: Bucket, now: int, path: nat, n: FlowSeq, payload: Payload)
    requires Awake(b, now) && Reads(b, n, b.next)
    ensures var a := Arrive(b, now, path, n, payload);
            && a.closing == [] && a.dropped == [] && !a.anew && !a.done && !a.kept
            && HandsOn(a.out, b.held, b.next, payload, a.b.next) && a.b.next !in b.held
            && LeftFrom(a.b.held, b.held, a.b.next) && TimedFromNearest(a.b)
            && a.b == b.(next := a.b.next, held := a.b.held, gapSince := a.b.gapSince, lastSeen := now, marks := a.b.marks)
  {
    hide MarkPath, Turn, HandsOn, LeftFrom, TimedFromNearest;
    ArrivePlaces(b, now, path, n, b.next, payload);
    TurnHandsOn(Touch(b, now, path, b.next), b.next, payload);
  }

  /** A packet ahead of next, in the window, is held, if its position is not already;
      nothing is handed on, and the gap is timed from the first held. */
  lemma AheadIsHeld(b: Bucket, now: int, path: nat, n: FlowSeq, pos: int, payload: Payload)
    requires Awake(b, now) && Reads(b, n, pos) && 0 < pos - b.next < 4096
    ensures var a := Arrive(b, now, path, n, payload);
            && a.closing == [] && a.out == [] && !a.anew && a.done == (pos in b.held) && a.kept == (pos !in b.held)
            && a.dropped == (if pos in b.held then [payload] else [])
            && a.b == b.(held := if pos in b.held then b.held else b.held[pos := Held(payload, now)],
                         gapSince := if b.held == map[] then now else b.gapSince,
                         lastSeen := now, marks := a.b.marks)
  {
    hide MarkPath;
    ArrivePlaces(b, now, path, n, pos, payload);
  }

  /** The order in which what leaves goes out. */
  ghost predicate InPlaces(out: seq<Out>, held: map<int, Held>, lo: int, hi: int) {
    && (forall k :: 0 <= k < |out| ==>
          lo <= out[k].pos < hi && out[k].pos in held && out[k].payload == held[out[k].pos].payload && !out[k].late)
    && (forall k, m :: 0 <= k < m < |out| ==> out[k].pos < out[m].pos)
    && (forall p :: p in held && lo <= p < hi ==> exists k :: 0 <= k < |out| && out[k].pos == p)
  }

  lemma OneInPlace(rest: seq<Out>, held: map<int, Held>, lo: int, hi: int)
    requires lo < hi && lo in held && InPlaces(rest, held, lo + 1, hi)
    ensures InPlaces([Out(lo, held[lo].payload, false)] + rest, held, lo, hi)
  {
    var all := [Out(lo, held[lo].payload, false)] + rest;
    assert all[0].pos == lo;
    assert forall k :: 0 < k < |all| ==> all[k] == rest[k - 1];
    forall p | p in held && lo < p < hi ensures exists k :: 0 <= k < |all| && all[k].pos == p {
      var k :| 0 <= k < |rest| && rest[k].pos == p;
      assert all[k + 1] == rest[k];
    }
  }

  lemma NoneInPlace(rest: seq<Out>, held: map<int, Held>, lo: int, hi: int)
    requires lo !in held && InPlaces(rest, held, lo + 1, hi)
    ensures InPlaces(rest, held, lo, hi)
  {
  }

  lemma {:induction false} EmittedInPlaces(held: map<int, Held>, lo: int, hi: int)
    ensures InPlaces(Emitted(held, lo, hi), held, lo, hi)
    decreases hi - lo
  {
    if lo < hi {
      hide InPlaces;
      var rest := Emitted(held, lo + 1, hi);
      EmittedInPlaces(held, lo + 1, hi);
      if lo in held {
        OneInPlace(rest, held, lo, hi);
      } else {
        assert Emitted(held, lo, hi) == rest;
        NoneInPlace(rest, held, lo, hi);
      }
    }
  }

  /** Skipping to t: what is held before where next comes to is handed on, in order, and
      next comes to the first position from t on that is not held. */
  lemma ResumeSays(b: Bucket, t: int)
    ensures var r := ResumeAt(b, t);
            && t <= r.next && r.next !in b.held && (forall p :: t <= p < r.next ==> p in b.held)
            && LeftFrom(r.held, b.held, r.next) && TimedFromNearest(r) && InPlaces(ResumeOut(b, t), b.held, b.next, r.next)
            && r == b.(next := r.next, held := r.held, gapSince := r.gapSince)
  {
    EmittedInPlaces(b.held, b.next, FirstGap(b.held, t));
  }

  /** A packet further ahead than the window, and no jump, moves next just far enough for
      the window to reach it: what is held before that is handed on, and the packet is
      held at the window's end, or, where everything up to it was held, handed on with
      what follows. */
  lemma FarAheadForces(b: Bucket, now: int, path: nat, n: FlowSeq, pos: int, payload: Payload)
    requires b.Valid() && Awake(b, now) && Reads(b, n, pos) && 4096 <= pos - b.next <= 262_144
    ensures var a := Arrive(b, now, path, n, payload);
            var reached := forall p :: pos - 4095 <= p < pos ==> p in b.held;
            && a.closing == [] && a.dropped == [] && !a.anew && a.done == reached && a.kept == !reached
            && a.b.next >= pos - 4095 && a.b.next !in b.held && pos !in b.held
            && (reached ==>
                  && a.b.next > pos && |a.out| >= a.b.next - pos
                  && InPlaces(a.out[..|a.out| - (a.b.next - pos)], b.held, b.next, pos)
                  && HandsOn(a.out[|a.out| - (a.b.next - pos)..], b.held, pos, payload, a.b.next)
                  && LeftFrom(a.b.held, b.held, a.b.next))
            && (!reached ==>
                  && a.b.next < pos && (forall p :: pos - 4095 <= p < a.b.next ==> p in b.held)
                  && InPlaces(a.out, b.held, b.next, a.b.next)
                  && pos in a.b.held && a.b.held[pos] == Held(payload, now) && LeftFrom(a.b.held - {pos}, b.held, a.b.next))
            && a.b == b.(next := a.b.next, held := a.b.held, gapSince := a.b.gapSince, lastSeen := now, marks := a.b.marks)
  {
    hide MarkPath, ResumeAt, ResumeOut, HandsOn, LeftFrom, InPlaces, TimedFromNearest, Turn, Emitted, Awake;
    ArrivePlaces(b, now, path, n, pos, payload);
    var c := Touch(b, now, path, pos);
    assert pos !in b.held;
    ForceSays(c, now, pos, payload);
  }

  lemma ForceSays(b: Bucket, now: int, pos: int, payload: Payload)
    requires HeldInWindow(b) && 4096 <= pos - b.next && pos !in b.held
    ensures var a := Force(b, now, pos, payload);
            var reached := forall p :: pos - 4095 <= p < pos ==> p in b.held;
            && a.closing == [] && a.dropped == [] && !a.anew && a.done == reached && a.kept == !reached
            && a.b.next >= pos - 4095 && a.b.next !in b.held
            && (reached ==>
                  && a.b.next > pos && |a.out| >= a.b.next - pos
                  && InPlaces(a.out[..|a.out| - (a.b.next - pos)], b.held, b.next, pos)
                  && HandsOn(a.out[|a.out| - (a.b.next - pos)..], b.held, pos, payload, a.b.next)
                  && LeftFrom(a.b.held, b.held, a.b.next))
            && (!reached ==>
                  && a.b.next < pos && (forall p :: pos - 4095 <= p < a.b.next ==> p in b.held)
                  && InPlaces(a.out, b.held, b.next, a.b.next)
                  && pos in a.b.held && a.b.held[pos] == Held(payload, now) && LeftFrom(a.b.held - {pos}, b.held, a.b.next))
            && a.b == b.(next := a.b.next, held := a.b.held, gapSince := a.b.gapSince)
  {
    var t := pos - 4095;
    var c := ResumeAt(b, t);
    ResumeSays(b, t);
    hide ResumeAt, ResumeOut, InPlaces, TimedFromNearest, Emitted, Turn, HandsOn;
    if c.next == pos {
      TurnHandsOn(c, pos, payload);
      var q := Turn(c, pos, payload);
      RunGoesOn(q.out, b.held, c.held, pos, payload, q.b.next);
      var all := ResumeOut(b, t) + q.out;
      assert |q.out| == q.b.next - pos by { TurnLength(c, pos, payload); }
      assert all[..|all| - |q.out|] == ResumeOut(b, t) && all[|all| - |q.out|..] == q.out;
    } else {
      assert c.next < pos;
    }
  }

  lemma TurnLength(b: Bucket, pos: int, payload: Payload)
    ensures |Turn(b, pos, payload).out| == Turn(b, pos, payload).b.next - pos && Turn(b, pos, payload).b.next > pos
  {
    EmittedRun(b.held, pos + 1, FirstGap(b.held, pos + 1));
  }

  /** What was held from pos on was held before. */
  lemma RunGoesOn(out: seq<Out>, held: map<int, Held>, left: map<int, Held>, pos: int, payload: Payload, next: int)
    requires HandsOn(out, left, pos, payload, next) && LeftFrom(left, held, pos)
    ensures HandsOn(out, held, pos, payload, next)
  {
  }

  // ----- a new sequence

  /** The bucket as a sequence begins at pos: nothing held, and the one packet marked. */
  ghost predicate BeginsAt(b: Bucket, was: Bucket, now: int, path: nat, pos: int) {
    b == was.(started := true, next := pos + 1, held := map[], gapSince := 0, lastSeen := now, startAt := now,
              marks := [Mark(path, pos, now)])
  }

  /** A jump begins a new sequence: what was held is handed on, in order, and then the
      packet. */
  lemma JumpBeginsAnew(b: Bucket, now: int, path: nat, n: FlowSeq, pos: int, payload: Payload)
    requires b.Valid() && Awake(b, now) && Reads(b, n, pos) && (pos - b.next < -262_144 || pos - b.next > 262_144)
    ensures var a := Arrive(b, now, path, n, payload);
            && InPlaces(a.closing, b.held, b.next, b.next + 4096) && a.out == [Out(pos, payload, false)] && a.dropped == []
            && a.anew && BeginsAt(a.b, b, now, path, pos)
  {
    hide MarkPath, Emitted, InPlaces;
    ArrivePlaces(b, now, path, n, pos, payload);
    EmittedInPlaces(b.held, b.next, b.next + WINDOW);
  }

  lemma AloneInRun(held: map<int, Held>, pos: int, payload: Payload)
    requires held == map[]
    ensures FirstGap(held, pos + 1) == pos + 1 && Emitted(held, pos + 1, pos + 1) == [] && Above(held, pos + 1) == map[]
  {
  }

  /** A bucket unused for more than thirty seconds hands on what it holds, and begins at
      the packet's own sequence, whatever that is. */
  lemma IdleBeginsAnew(b: Bucket, now: int, path: nat, n: FlowSeq, payload: Payload)
    requires b.started && now - b.lastSeen > 30_000_000_000
    ensures var a := Arrive(b, now, path, n, payload);
            && InPlaces(a.closing, b.held, b.next, b.next + 4096) && a.out == [Out(n, payload, false)] && a.dropped == []
            && a.anew && BeginsAt(a.b, b, now, path, n)
  {
    hide Emitted, InPlaces;
    EmittedInPlaces(b.held, b.next, b.next + WINDOW);
    AloneInRun(map[], n, payload);
    var a := Arrive(b, now, path, n, payload);
    assert [Out(n, payload, false)] + [] == [Out(n, payload, false)];
    assert FlushOut(b) + [] == FlushOut(b);
  }

  /** And so does one with no sequence. */
  lemma FirstBeginsAnew(b: Bucket, now: int, path: nat, n: FlowSeq, payload: Payload)
    requires b.Valid() && !b.started
    ensures var a := Arrive(b, now, path, n, payload);
            && a.closing == [] && a.out == [Out(n, payload, false)] && a.dropped == [] && a.anew && BeginsAt(a.b, b, now, path, n)
  {
    hide Emitted;
    AloneInRun(map[], n, payload);
    var a := Arrive(b, now, path, n, payload);
    assert [Out(n, payload, false)] + [] == [Out(n, payload, false)];
  }

  // ----- marks

  /** Of the marks a bucket keeps, a packet moves its own path's: forward, by the shorter
      way round, or anywhere if the mark is more than a second old; and refreshes it. A
      path with no mark is given one while there are fewer than four, and then the
      place of the path longest unheard. */
  lemma MarkSays(marks: seq<Mark>, id: nat, pos: int, now: int)
    requires |marks| <= 4 && forall i, j :: 0 <= i < j < |marks| ==> marks[i].id != marks[j].id
    ensures var r := MarkPath(marks, id, pos, now);
            && (forall i :: 0 <= i < |marks| && marks[i].id == id ==>
                  |r| == |marks| && (forall j :: 0 <= j < |r| && j != i ==> r[j] == marks[j])
                  && r[i] == Mark(id, if 0 < (pos - marks[i].pos) % 1_048_576 < 524_288 || now - marks[i].at > 1_000_000_000
                                      then pos else marks[i].pos, now))
            && ((forall m :: m in marks ==> m.id != id) && |marks| < 4 ==> r == marks + [Mark(id, pos, now)])
            && ((forall m :: m in marks ==> m.id != id) && |marks| == 4 ==>
                  exists i :: 0 <= i < 4 && (forall j :: 0 <= j < 4 ==> marks[i].at <= marks[j].at)
                              && r == marks[i := Mark(id, pos, now)])
  {
    var i := MarkOf(marks, id);
    if i < |marks| {
      var d := pos - marks[i].pos;
      assert FlowNearest(d) > 0 <==> 0 < d % 1_048_576 < 524_288 by { AheadByHalf(d); }
    }
  }

  lemma AheadByHalf(d: int)
    ensures FlowNearest(d) > 0 <==> 0 < d % 1_048_576 < 524_288
  {
    var q, r := d / 1_048_576, d % 1_048_576;
    assert d == q * 1_048_576 + r;
    if r < 524_288 {
      assert d + HALF_FLOW == q * FLOW_SPACE + (r + HALF_FLOW);
    } else {
      assert d + HALF_FLOW == (q + 1) * FLOW_SPACE + (r - HALF_FLOW);
    }
  }

  // ----- runs

  /** Nothing that ends a sequence: each packet comes to a bucket awake, and no more than
      262144 from where it stands; no reset, and no expiry of an idle bucket. */
  ghost predicate Continues(b: Bucket, e: Event) {
    match e
    case Arrival(now, _, n, _) => Awake(b, now) && exists pos :: Reads(b, n, pos) && -262_144 <= pos - b.next <= 262_144
    case Reset => false
    case Expire(now) => Awake(b, now)
    case _ => true
  }

  ghost predicate AllContinue(h: Hist, events: seq<Event>)
    requires Good(h) && AllValid(events)
    decreases |events|
  {
    events == []
    || (Continues(h.b, events[0]) && (StepGood(h, events[0]); AllContinue(Step(h, events[0]), events[1..])))
  }

  lemma StepContinues(h: Hist, e: Event)
    requires Good(h) && e.Valid() && h.b.started && Continues(h.b, e)
    ensures Step(h, e).b.started && Step(h, e).closed == h.closed
  {
    GoodIsValid(h);
    match e
    case Arrival(now, path, n, payload) =>
      var pos :| Reads(h.b, n, pos) && -262_144 <= pos - h.b.next <= 262_144;
      AnewExactly(h.b, now, path, n, pos, payload);
      ArriveSound(h.b, now, path, n, payload);
      hide Arrive, Good;
    case PassCheck(now, paths) => PassGapsMoves(h.b, paths, now);
    case Sweep(now, hold) => TimeOutMoves(h.b, now, hold);
    case _ =>
  }

  /** Reordering never ends a sequence: through any run of them no epoch closes. */
  lemma {:induction false} RunContinues(h: Hist, events: seq<Event>)
    requires Good(h) && AllValid(events) && h.b.started && AllContinue(h, events)
    ensures Run(h, events).b.started && Run(h, events).closed == h.closed
    decreases |events|
  {
    if events != [] {
      StepContinues(h, events[0]);
      StepGood(h, events[0]);
      hide Step, Good, Continues;
      RunContinues(Step(h, events[0]), events[1..]);
    }
  }
}
