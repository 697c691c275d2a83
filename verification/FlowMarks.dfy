/** When the marks of a bucket may be believed: a run-time account of the condition
    under which a passed gap is a lost one. */
module FlowMarks {
  import opened Bytes
  import opened Serial
  import opened FlowBucket
  import opened FlowMoves
  import opened FlowTimes
  import opened FlowRuns

  /** A bucket's history, and for each path where next stood just after that path
      last delivered. */
  datatype Tracked = Tracked(h: Hist, stood: map<nat, int>)

  const NEW := Tracked(START, map[])

  ghost function Track(t: Tracked, e: Event): Tracked
    requires t.h.b.Valid() && e.Valid()
  {
    var h := Step(t.h, e);
    Tracked(h, if e.Arrival? then t.stood[e.path := h.b.next] else t.stood)
  }

  /** Each mark is at most a quarter of the sequence space behind where next stood. */
  ghost predicate Near(b: Bucket, stood: map<nat, int>) {
    forall m :: m in b.marks ==> m.id in stood && stood[m.id] - m.pos <= RESTART_JUMP
  }

  /** A path with a live mark delivers less than a quarter of the space beyond where
      next stood when it last did. */
  ghost predicate Steady(t: Tracked, e: Event) {
    e.Arrival? ==>
      var w := Wake(t.h.b, e.now);
      HasMark(w.marks, e.path, e.now) && e.path in t.stood ==> PositionOf(w, e.n) - t.stood[e.path] < RESTART_JUMP
  }

  /** The run of held packets from next on is no longer than the window. */
  lemma RunIsShort(b: Bucket, t: int)
    requires forall p :: p in b.held ==> p < b.next + WINDOW
    requires b.next <= t
    ensures FirstGap(b.held, t) <= if t < b.next + WINDOW then b.next + WINDOW else t
  {
    var g := FirstGap(b.held, t);
    assert t <= g - 1 ==> g - 1 in b.held;
  }

  lemma ForcedNear(b: Bucket, now: int, pos: int, payload: Payload)
    requires Ready(b, pos) && WINDOW <= pos - b.next
    ensures Force(b, now, pos, payload).b.next - pos <= WINDOW
  {
    ForceStopsShort(b, pos);
    var t := pos - (WINDOW - 1);
    var a := ResumeAt(b, t);
    if a.next == pos {
      Resume(b, t, pos);
      RunIsShort(a.(next := pos + 1), pos + 1);
    }
  }

  /** Once a packet is placed, next is at most a quarter of the space beyond it. */
  lemma PlacedNear(b: Bucket, now: int, path: nat, pos: int, payload: Payload)
    requires Ready(b, pos)
    ensures Place(b, now, path, pos, payload).b.next - pos <= RESTART_JUMP
  {
    hide Force, Flush;
    var d := pos - b.next;
    if d == 0 {
      RunIsShort(b.(next := pos + 1), pos + 1);
    } else if d < -RESTART_JUMP || d > RESTART_JUMP {
    } else if d >= WINDOW {
      ForcedNear(b, now, pos, payload);
    }
  }

  /** One mark a path. */
  ghost predicate Unique(marks: seq<Mark>) {
    forall i, j :: 0 <= i < j < |marks| ==> marks[i].id != marks[j].id
  }

  lemma MarksUnique(marks: seq<Mark>, path: nat, pos: int, now: int)
    requires Unique(marks)
    ensures Unique(MarkPath(marks, path, pos, now))
  {
  }

  /** The mark an arrival leaves is at or beyond its packet. */
  lemma MarkReaches(marks: seq<Mark>, path: nat, pos: int, now: int, stood: map<nat, int>)
    requires Unique(marks)
    requires forall m :: m in marks ==> m.id in stood && stood[m.id] - m.pos <= RESTART_JUMP
    requires HasMark(marks, path, now) && path in stood ==> pos - stood[path] < RESTART_JUMP
    ensures Unique(MarkPath(marks, path, pos, now))
    ensures forall m :: m in MarkPath(marks, path, pos, now) ==>
              (m in marks && m.id != path) || (m.id == path && m.pos >= pos)
  {
    MarksUnique(marks, path, pos, now);
    var i := MarkOf(marks, path);
    if i < |marks| {
      var m := marks[i];
      assert m in marks;
      if Active(m, now) {
        assert HasMark(marks, path, now);
        assert pos - m.pos < HALF_FLOW;
      }
    }
  }

  ghost predicate Believable(t: Tracked) {
    Good(t.h) && Unique(t.h.b.marks) && Near(t.h.b, t.stood)
  }

  lemma StepIsPlaced(h: Hist, e: Event)
    requires h.b.Valid() && e.Arrival?
    ensures Step(h, e).b == Place(Touched(h.b, e.now, e.path, e.n), e.now, e.path, PositionOf(Wake(h.b, e.now), e.n), e.payload).b
  {
    hide Place, Wake, Touch, PositionOf;
  }

  /** Placed, a bucket has the marks it was touched with, or its own arrival's alone. */
  lemma NearPlaced(marks: seq<Mark>, b: Bucket, path: nat, pos: int, now: int, stood: map<nat, int>)
    requires Unique(marks) && b.next - pos <= RESTART_JUMP
    requires forall m :: m in marks && m.id != path ==> m.id in stood && stood[m.id] - m.pos <= RESTART_JUMP
    requires forall m :: m in marks && m.id == path ==> m.pos >= pos
    requires b.marks == marks || b.marks == [Mark(path, pos, now)]
    ensures Unique(b.marks) && Near(b, stood[path := b.next])
  {
  }

  lemma ArrivalBelievable(t: Tracked, e: Event)
    requires Believable(t) && e.Arrival? && Steady(t, e)
    ensures Unique(Track(t, e).h.b.marks) && Near(Track(t, e).h.b, Track(t, e).stood)
  {
    var w := Wake(t.h.b, e.now);
    var pos := PositionOf(w, e.n);
    var touched := Touch(w, e.now, e.path, pos);
    assert w.marks == t.h.b.marks || w.marks == [];
    assert touched.marks == MarkPath(w.marks, e.path, pos, e.now);
    MarkReaches(w.marks, e.path, pos, e.now, t.stood);
    assert Ready(touched, pos) by { TouchedReady(t.h.b, e.now, e.path, e.n); }
    PlaceMarks(touched, e.now, e.path, pos, e.payload);
    PlacedNear(touched, e.now, e.path, pos, e.payload);
    StepIsPlaced(t.h, e);
    hide Place, MarkPath, Wake, Touch, PositionOf, Step, Ready;
    NearPlaced(touched.marks, Step(t.h, e).b, e.path, pos, e.now, t.stood);
  }

  lemma MarksStay(h: Hist, e: Event)
    requires h.b.Valid() && e.Valid() && !e.Arrival?
    ensures Step(h, e).b.marks == h.b.marks || Step(h, e).b.marks == []
  {
    match e
    case PassCheck(now, paths) => PassGapsMoves(h.b, paths, now);
    case Sweep(now, hold) => TimeOutMoves(h.b, now, hold);
    case _ =>
  }

  lemma StepBelievable(t: Tracked, e: Event)
    requires Believable(t) && e.Valid() && Steady(t, e)
    ensures Believable(Track(t, e))
  {
    StepGood(t.h, e);
    if e.Arrival? {
      ArrivalBelievable(t, e);
    } else {
      MarksStay(t.h, e);
    }
  }

  ghost predicate AllSteady(t: Tracked, events: seq<Event>)
    requires Good(t.h) && AllValid(events)
    decreases |events|
  {
    events == []
    || (Steady(t, events[0]) && (StepGood(t.h, events[0]); AllSteady(Track(t, events[0]), events[1..])))
  }

  ghost function RunTracked(t: Tracked, events: seq<Event>): (z: Tracked)
    requires Good(t.h) && AllValid(events)
    ensures Good(z.h)
    decreases |events|
  {
    if events == [] then t
    else
      StepGood(t.h, events[0]);
      RunTracked(Track(t, events[0]), events[1..])
  }

  lemma {:induction false} RunBelievable(t: Tracked, events: seq<Event>)
    requires Believable(t) && AllValid(events) && AllSteady(t, events)
    ensures Believable(RunTracked(t, events))
    decreases |events|
  {
    if events != [] {
      StepBelievable(t, events[0]);
      RunBelievable(Track(t, events[0]), events[1..]);
    }
  }

  /** In every steady run, from a bucket never used (NewBelievable) or any believable
      one, a gap given up as passed is a lost one for each active path
      unless next has moved more than a quarter of the sequence space since that path
      last delivered: the path has delivered the packet skipped to, or one after it. */
  lemma PassedIsLostInRuns(t0: Tracked, events: seq<Event>, t: Tracked, paths: Paths, now: int, m: Mark)
    requires Believable(t0) && AllValid(events) && AllSteady(t0, events) && t == RunTracked(t0, events)
    requires t.h.b.held != map[] && paths.maxPath < |paths.seen| && Passed(t.h.b, paths, now)
    requires m in t.h.b.marks && Active(m, now)
    ensures m.id in t.stood
    ensures t.h.b.next - t.stood[m.id] <= RESTART_JUMP ==> Fresh(t.h.b, m) && m.pos >= Lowest(t.h.b.held)
  {
    RunBelievable(t0, events);
    PassedGapIsLost(t.h.b, paths, now, m);
  }

  lemma NewBelievable()
    ensures Believable(NEW)
  {
    StartGood();
  }
}
