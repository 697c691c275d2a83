/** One flow bucket of internal/relay/reseq.go, on values.

    Positions are unbounded: the wire's twenty bits are the residue of a position,
    and every comparison the source makes on residues is made here through
    FlowNearest of the difference of two positions. */
module FlowBucket {
  import opened Bytes
  import opened Serial

  const WINDOW := 4096
  const RESTART_JUMP := 0x4_0000
  const IDLE := 30_000_000_000
  const PATH_ACTIVE := 1_000_000_000
  const GAP_WINDOW := 2_000_000_000
  const MARKS := 4

  datatype Held = Held(payload: Payload, at: int)

  /** The furthest position one path has delivered for this bucket, and when. */
  datatype Mark = Mark(id: nat, pos: int, at: int)

  /** A payload handed on. A late one came after its gap was given up on. */
  datatype Out = Out(pos: int, payload: Payload, late: bool)

  /** held is what waits behind the gap at next, by position. */
  datatype Bucket = Bucket(
    started: bool,
    next: int,
    held: map<int, Held>,
    lastSeen: int,
    startAt: int,
    gapSince: int,
    lastSkipAt: int,
    lastSkipHold: int,
    marks: seq<Mark>)
  {
    /** Everything held is strictly ahead of next and inside the window; every
        mark is behind next or on a packet still held. */
    ghost predicate Valid() {
      && (forall p :: p in held ==> next < p < next + WINDOW)
      && (held == map[] ==> gapSince == 0)
      && (!started ==> held == map[] && marks == [])
      && |marks| <= MARKS
      && (forall m :: m in marks ==> m.pos < next || m.pos in held)
    }

    /** No packet was held, and no gap opened, later than the clock reads; the
        gap is timed from no later than the arrival of its nearest packet. */
    ghost predicate Timed(clock: int) {
      && (forall p :: p in held ==> held[p].at <= clock)
      && (held != map[] ==> gapSince <= held[Lowest(held)].at)
    }
  }

  const NO_BUCKET := Bucket(false, 0, map[], 0, 0, 0, 0, 0, [])

  // ----- held packets by position

  ghost function SomeOf<T>(s: set<T>): (x: T)
    requires s != {}
    ensures x in s
  {
    var x :| x in s;
    x
  }

  lemma {:induction false} LeastExists(keys: set<int>)
    requires keys != {}
    ensures exists p :: p in keys && forall q :: q in keys ==> p <= q
  {
    var p := SomeOf(keys);
    var rest := keys - {p};
    if rest != {} {
      LeastExists(rest);
      var r :| r in rest && forall q :: q in rest ==> r <= q;
      var least := if r < p then r else p;
      assert forall q :: q in keys ==> q == p || q in rest;
      assert least in keys && forall q :: q in keys ==> least <= q;
    } else {
      assert forall q :: q in keys ==> q == p || q in rest;
    }
  }

  /** The lowest held position. */
  ghost function Lowest(held: map<int, Held>): (p: int)
    requires held != map[]
    ensures p in held && forall q :: q in held ==> p <= q
  {
    assert held.Keys != {};
    LeastExists(held.Keys);
    var p :| p in held.Keys && forall q :: q in held.Keys ==> p <= q;
    p
  }

  /** The first position from here on that is not held. */
  function FirstGap(held: map<int, Held>, from: int): (r: int)
    ensures from <= r && r !in held
    ensures forall p :: from <= p < r ==> p in held
    decreases held.Keys
  {
    if from in held then FirstGap(held - {from}, from + 1) else from
  }

  /** What is held at positions lo up to hi, in order. */
  function Emitted(held: map<int, Held>, lo: int, hi: int): seq<Out>
    decreases hi - lo
  {
    if lo >= hi then []
    else (if lo in held then [Out(lo, held[lo].payload, false)] else []) + Emitted(held, lo + 1, hi)
  }

  function Above(held: map<int, Held>, lo: int): map<int, Held> {
    map p | p in held && lo <= p :: held[p]
  }

  // ----- the moves of next

  /** The gap at the front is timed from the nearest packet behind it. */
  ghost function Settle(b: Bucket): Bucket {
    b.(gapSince := if b.held == map[] then 0 else b.held[Lowest(b.held)].at)
  }

  /** next moves to t and then past everything consecutive from there; what is
      held on the way is handed on. */
  ghost function ResumeAt(b: Bucket, t: int): Bucket {
    var g := FirstGap(b.held, t);
    Settle(b.(next := g, held := Above(b.held, g)))
  }

  function ResumeOut(b: Bucket, t: int): seq<Out> {
    Emitted(b.held, b.next, FirstGap(b.held, t))
  }

  /** Gives up on the gap at the front. */
  ghost function SkipToHeld(b: Bucket): (r: Bucket)
    requires b.held != map[]
    ensures r.held.Keys < b.held.Keys
  {
    ResumeAt(b, Lowest(b.held))
  }

  function Flush(b: Bucket): Bucket {
    b.(held := map[], gapSince := 0)
  }

  function FlushOut(b: Bucket): seq<Out> {
    Emitted(b.held, b.next, b.next + WINDOW)
  }

  // ----- marks

  /** The first mark of a path, or the number of marks. */
  function MarkOf(marks: seq<Mark>, id: nat): (i: nat)
    ensures i <= |marks| && (i < |marks| ==> marks[i].id == id)
    ensures forall j :: 0 <= j < i ==> marks[j].id != id
  {
    if marks == [] || marks[0].id == id then 0 else 1 + MarkOf(marks[1..], id)
  }

  /** The first of the marks longest unrefreshed. */
  function Stalest(marks: seq<Mark>): (i: nat)
    requires marks != []
    ensures i < |marks|
    ensures forall j :: 0 <= j < |marks| ==> marks[i].at <= marks[j].at
    ensures forall j :: 0 <= j < i ==> marks[i].at < marks[j].at
  {
    if |marks| == 1 then 0
    else
      var last := |marks| - 1;
      var i := Stalest(marks[..last]);
      if marks[last].at < marks[i].at then last else i
  }

  function MarkPath(marks: seq<Mark>, id: nat, pos: int, now: int): (r: seq<Mark>)
    ensures |marks| <= MARKS ==> |r| <= MARKS
    ensures forall m :: m in r ==> m in marks || (m.id == id && (m.pos == pos || exists o :: o in marks && o.id == id && o.pos == m.pos))
  {
    var i := MarkOf(marks, id);
    if i < |marks| then
      var m := marks[i];
      var moved := FlowNearest(pos - m.pos) > 0 || now - m.at > PATH_ACTIVE;
      marks[i := Mark(id, if moved then pos else m.pos, now)]
    else if |marks| < MARKS then marks + [Mark(id, pos, now)]
    else marks[Stalest(marks) := Mark(id, pos, now)]
  }

  predicate Active(m: Mark, now: int) {
    now - m.at <= PATH_ACTIVE
  }

  predicate HasMark(marks: seq<Mark>, id: nat, now: int) {
    exists i :: 0 <= i < |marks| && marks[i].id == id && Active(marks[i], now)
  }

  // ----- giving up on passed gaps

  /** When each path last delivered any spread bulk at all (zero for never). */
  datatype Paths = Paths(seen: seq<int>, maxPath: nat)

  /** A path has delivered spread bulk. */
  function Saw(p: Paths, path: nat, now: int): Paths
    requires path < |p.seen|
  {
    Paths(p.seen[path := now], if path > p.maxPath then path else p.maxPath)
  }

  /** The source's test: some path is active, every active one reads as past
      next, and in a young flow every path carrying spread bulk is active here. */
  predicate Passed(b: Bucket, paths: Paths, now: int)
    requires paths.maxPath < |paths.seen|
  {
    && (exists m :: m in b.marks && Active(m, now))
    && (forall m :: m in b.marks && Active(m, now) ==> FlowNearest(m.pos - b.next) > 0)
    && (now - b.startAt <= PATH_ACTIVE ==>
          forall id :: 0 <= id <= paths.maxPath ==>
            paths.seen[id] == 0 || now - paths.seen[id] > PATH_ACTIVE || HasMark(b.marks, id, now))
  }

  /** skipPassedGaps. */
  ghost function PassGaps(b: Bucket, paths: Paths, now: int): Bucket
    requires paths.maxPath < |paths.seen|
    decreases b.held.Keys
  {
    if b.held != map[] && Passed(b, paths, now) then PassGaps(SkipToHeld(b), paths, now) else b
  }

  ghost function PassOut(b: Bucket, paths: Paths, now: int): seq<Out>
    requires paths.maxPath < |paths.seen|
    decreases b.held.Keys
  {
    if b.held != map[] && Passed(b, paths, now)
    then ResumeOut(b, Lowest(b.held)) + PassOut(SkipToHeld(b), paths, now)
    else []
  }

  // ----- the sweep

  ghost function TimeOut(b: Bucket, now: int, hold: int): Bucket
    decreases b.held.Keys
  {
    if b.held != map[] && now - b.gapSince >= hold
    then TimeOut(SkipToHeld(b.(lastSkipAt := now, lastSkipHold := hold)), now, hold)
    else b
  }

  ghost function TimeOutOut(b: Bucket, now: int, hold: int): seq<Out>
    decreases b.held.Keys
  {
    if b.held != map[] && now - b.gapSince >= hold
    then ResumeOut(b, Lowest(b.held))
         + TimeOutOut(SkipToHeld(b.(lastSkipAt := now, lastSkipHold := hold)), now, hold)
    else []
  }

  // ----- an arrival

  /** What one arrival does to its bucket before passed gaps are looked for.
      anew: the bucket adopted a new sequence, closing what the old one held.
      done: the source returns without looking for passed gaps. */
  datatype Arrived = Arrived(
    b: Bucket,
    closing: seq<Out>,
    out: seq<Out>,
    anew: bool,
    dropped: seq<Payload>,
    done: bool,
    kept: bool)

  /** The position a sequence is read as. */
  function PositionOf(b: Bucket, n: FlowSeq): int {
    if b.started then b.next + FlowNearest(n - b.next) else n
  }

  function Wake(b: Bucket, now: int): Bucket {
    if b.started && now - b.lastSeen > IDLE then Flush(b).(started := false, marks := []) else b
  }

  function WakeOut(b: Bucket, now: int): seq<Out> {
    if b.started && now - b.lastSeen > IDLE then FlushOut(b) else []
  }

  /** The bucket as the arrival is compared against it. */
  function Touch(b: Bucket, now: int, path: nat, pos: int): Bucket
  {
    var t := b.(lastSeen := now, marks := MarkPath(b.marks, path, pos, now));
    if b.started then t else t.(started := true, next := pos, startAt := now)
  }

  /** The packet expected next. */
  ghost function Turn(b: Bucket, pos: int, payload: Payload): Arrived {
    var a := b.(next := pos + 1);
    Arrived(ResumeAt(a, pos + 1), [], [Out(pos, payload, false)] + ResumeOut(a, pos + 1),
            false, [], false, false)
  }

  /** Too far from next to be reordering: the sender has started again. */
  ghost function Restart(b: Bucket, now: int, path: nat, pos: int, payload: Payload): Arrived {
    Arrived(Flush(b).(marks := [Mark(path, pos, now)], next := pos + 1, startAt := now),
            FlushOut(b), [Out(pos, payload, false)], true, [], false, false)
  }

  /** Too far ahead to hold: the gap is forced until the window reaches it. */
  ghost function Force(b: Bucket, now: int, pos: int, payload: Payload): Arrived {
    var t := pos - (WINDOW - 1);
    var a := ResumeAt(b, t);
    if a.next == pos then
      var q := Turn(a, pos, payload);
      q.(out := ResumeOut(b, t) + q.out, done := true)
    else
      Arrived(Hold(a, now, pos, payload), [], ResumeOut(b, t), false, [], false, true)
  }

  ghost function Place(b: Bucket, now: int, path: nat, pos: int, payload: Payload): Arrived {
    var d := pos - b.next;
    if d == 0 then Turn(b, pos, payload)
    else if d < -RESTART_JUMP || d > RESTART_JUMP then Restart(b, now, path, pos, payload)
    else if d < 0 then Arrived(b, [], [Out(pos, payload, true)], false, [], false, false)
    else if d >= WINDOW then Force(b, now, pos, payload)
    else if pos in b.held then Arrived(b, [], [], false, [payload], true, false)
    else Arrived(Hold(b, now, pos, payload), [], [], false, [], false, true)
  }

  function Hold(b: Bucket, now: int, pos: int, payload: Payload): Bucket {
    b.(held := b.held[pos := Held(payload, now)], gapSince := if b.held == map[] then now else b.gapSince)
  }

  ghost function Arrive(b: Bucket, now: int, path: nat, n: FlowSeq, payload: Payload): Arrived
  {
    var w := Wake(b, now);
    var pos := PositionOf(w, n);
    var a := Place(Touch(w, now, path, pos), now, path, pos, payload);
    a.(closing := WakeOut(b, now) + a.closing, anew := a.anew || !w.started)
  }

  /** How long a gap took, or would have taken, to fill - where the arrival tells. */
  datatype Gap = Untold | Took(d: int)

  /** Told by the packet that fills the front gap, and by a late one soon enough
      after the skip that left it behind. */
  function GapTold(b: Bucket, now: int, pos: int): Gap {
    var d := pos - b.next;
    if d == 0 && b.held != map[] then Took(now - b.gapSince)
    else if -RESTART_JUMP <= d < 0 && b.lastSkipAt != 0 && now - b.lastSkipAt < GAP_WINDOW
    then Took(now - b.lastSkipAt + b.lastSkipHold)
    else Untold
  }
}
