/** Whole runs of one flow bucket: every interleaving of arrivals, passed-gap
    checks, forced skips, sweeps, resets and expiry, with the history that the
    promises are about. */
module FlowRuns {
  import opened Bytes
  import opened Serial
  import opened FlowBucket
  import opened FlowMoves
  import opened FlowTimes

  /** A packet a path delivered, by position. */
  datatype Delivery = Delivery(path: nat, pos: int)

  /** One bucket and what has happened to it. A new epoch begins when the bucket
      adopts a new sequence: closed holds the deliveries of each earlier epoch,
      log those of the current one, arrivals what the paths brought in it. */
  datatype Hist = Hist(
    b: Bucket,
    closed: seq<seq<Out>>,
    log: seq<Out>,
    pushed: multiset<Payload>,
    dropped: multiset<Payload>,
    arrivals: seq<Delivery>)

  datatype Event =
    | Arrival(now: int, path: nat, n: FlowSeq, payload: Payload)
    | PassCheck(now: int, paths: Paths)
    | GiveUp
    | Sweep(now: int, hold: int)
    | Reset
    | Expire(now: int)
  {
    predicate Valid() {
      PassCheck? ==> paths.maxPath < |paths.seen|
    }
  }

  const START := Hist(NO_BUCKET, [], [], multiset{}, multiset{}, [])

  /** An arrival, as it enters the history. */
  ghost function Record(h: Hist, a: Arrived, path: nat, pos: int, payload: Payload): Hist {
    if a.anew then
      Hist(a.b, h.closed + [h.log + a.closing], a.out,
           h.pushed + multiset{payload}, h.dropped + multiset(a.dropped), [Delivery(path, pos)])
    else
      Hist(a.b, h.closed, h.log + a.out,
           h.pushed + multiset{payload}, h.dropped + multiset(a.dropped), h.arrivals + [Delivery(path, pos)])
  }

  ghost function Logged(h: Hist, b: Bucket, outs: seq<Out>): Hist {
    h.(b := b, log := h.log + outs)
  }

  ghost function Arrives(h: Hist, now: int, path: nat, n: FlowSeq, payload: Payload): Hist
  {
    Record(h, Arrive(h.b, now, path, n, payload), path, PositionOf(Wake(h.b, now), n), payload)
  }

  ghost function GapsChecked(h: Hist, now: int, paths: Paths): Hist
    requires paths.maxPath < |paths.seen|
  {
    Logged(h, PassGaps(h.b, paths, now), PassOut(h.b, paths, now))
  }

  ghost function GaveUp(h: Hist): Hist
    requires h.b.held != map[]
  {
    Logged(h, SkipToHeld(h.b), ResumeOut(h.b, Lowest(h.b.held)))
  }

  ghost function Swept(h: Hist, now: int, hold: int): Hist {
    Logged(h, TimeOut(h.b, now, hold), TimeOutOut(h.b, now, hold))
  }

  function Closed(h: Hist): Hist {
    h.(b := Flush(h.b).(started := false, marks := []), log := h.log + FlushOut(h.b))
  }

  function Expired(h: Hist, now: int): Hist {
    if h.b.held == map[] && now - h.b.lastSeen > IDLE then h.(b := NO_BUCKET) else h
  }

  ghost function Step(h: Hist, e: Event): Hist
    requires h.b.Valid() && e.Valid()
  {
    match e
    case Arrival(now, path, n, payload) => Arrives(h, now, path, n, payload)
    case PassCheck(now, paths) => GapsChecked(h, now, paths)
    case GiveUp => if h.b.held == map[] then h else GaveUp(h)
    case Sweep(now, hold) => Swept(h, now, hold)
    case Reset => Closed(h)
    case Expire(now) => Expired(h, now)
  }

  // ----- what every history satisfies

  function ClosedPayloads(closed: seq<seq<Out>>): multiset<Payload> {
    if closed == [] then multiset{}
    else ClosedPayloads(closed[..|closed| - 1]) + PayloadsOf(closed[|closed| - 1])
  }

  /** Nothing is lost or invented: what was pushed is what was handed on, what is
      still held, and the repeats of packets already held. */
  ghost predicate Conserved(h: Hist) {
    h.pushed == ClosedPayloads(h.closed) + PayloadsOf(h.log) + Waiting(h.b) + h.dropped
  }

  /** Deliveries ascend, except the late ones. */
  ghost predicate Ascends(log: seq<Out>) {
    forall i, j :: 0 <= i < j < |log| && !log[i].late && !log[j].late ==> log[i].pos < log[j].pos
  }

  ghost predicate Behind(log: seq<Out>, next: int) {
    forall i :: 0 <= i < |log| ==> log[i].pos < next
  }

  /** In every epoch deliveries ascend, and those of the current one, late or
      not, lie behind next. */
  ghost predicate InOrder(h: Hist) {
    && (forall i :: 0 <= i < |h.closed| ==> Ascends(h.closed[i]))
    && Ascends(h.log)
    && (h.b.started ==> Behind(h.log, h.b.next))
  }

  /** Every mark is a packet its path delivered in this epoch. */
  ghost predicate MarksArrived(h: Hist) {
    forall m :: m in h.b.marks ==> Delivery(m.id, m.pos) in h.arrivals
  }

  ghost predicate Good(h: Hist) {
    h.b.Valid() && Conserved(h) && InOrder(h) && MarksArrived(h)
  }

  lemma AscendsOn(log: seq<Out>, outs: seq<Out>, lo: int, hi: int)
    requires Ascends(log) && Behind(log, lo) && lo <= hi && InOrderOrLate(outs, lo, hi)
    ensures Ascends(log + outs) && Behind(log + outs, hi)
  {
  }

  /** A move of next keeps the history good. */
  lemma MovedGood(h: Hist, b: Bucket, outs: seq<Out>)
    requires Good(h) && Moved(h.b, b, outs)
    ensures Good(Logged(h, b, outs))
  {
    if !h.b.started {
      IdleMoves(h.b, b, outs);
      assert h.log + outs == h.log;
    } else {
      AscendsOn(h.log, outs, h.b.next, b.next);
    }
    PayloadsOfSum(h.log, outs);
  }

  lemma IdleMoves(b: Bucket, r: Bucket, outs: seq<Out>)
    requires b.Valid() && !b.started && Moved(b, r, outs)
    ensures outs == []
  {
    EmittedNone(map[], b.next, b.next + WINDOW);
    assert PayloadsOf(outs) <= multiset{};
    NoPayloads(outs);
  }

  lemma NoPayloads(outs: seq<Out>)
    requires PayloadsOf(outs) == multiset{}
    ensures outs == []
  {
  }

  lemma FlushedConserved(h: Hist, r: Bucket)
    requires Conserved(h) && r.held == map[]
    ensures Conserved(Logged(h, r, FlushOut(h.b)))
  {
    EmittedNone(map[], r.next, r.next + WINDOW);
    PayloadsOfSum(h.log, FlushOut(h.b));
    RegroupFlush(h.pushed, ClosedPayloads(h.closed), PayloadsOf(h.log), Waiting(h.b), h.dropped);
  }

  lemma RegroupFlush(pushed: multiset<Payload>, closed: multiset<Payload>, log: multiset<Payload>,
                     waiting: multiset<Payload>, dropped: multiset<Payload>)
    requires pushed == closed + log + waiting + dropped
    ensures pushed == closed + (log + waiting) + multiset{} + dropped
  {
  }

  lemma NothingWaits(b: Bucket)
    requires b.held == map[]
    ensures FlushOut(b) == [] && Waiting(b) == multiset{}
  {
    EmittedNone(map[], b.next, b.next + WINDOW);
  }

  lemma FlushedInOrder(h: Hist, r: Bucket)
    requires h.b.Valid() && InOrder(h) && !r.started
    ensures InOrder(Logged(h, r, FlushOut(h.b)))
  {
    if h.b.started {
      EmittedAscends(h.b.held, h.b.next, h.b.next + WINDOW);
      AscendsOn(h.log, FlushOut(h.b), h.b.next, h.b.next + WINDOW);
    } else {
      NothingWaits(h.b);
      assert h.log + [] == h.log;
    }
  }

  lemma ResetGood(h: Hist)
    requires Good(h)
    ensures Good(Closed(h))
  {
    var r := Flush(h.b).(started := false, marks := []);
    FlushedConserved(h, r);
    FlushedInOrder(h, r);
  }

  lemma ExpireGood(h: Hist)
    requires Good(h) && h.b.held == map[]
    ensures Good(h.(b := NO_BUCKET))
  {
    NothingWaits(h.b);
    NothingWaits(NO_BUCKET);
  }

  lemma Regroup(pushed: multiset<Payload>, closed: multiset<Payload>, log: multiset<Payload>, waiting: multiset<Payload>,
                dropped: multiset<Payload>, p: multiset<Payload>, closing: multiset<Payload>, out: multiset<Payload>,
                d: multiset<Payload>, left: multiset<Payload>)
    requires pushed == closed + log + waiting + dropped
    requires closing + out + d + left == waiting + p
    ensures pushed + p == (closed + (log + closing)) + out + left + (dropped + d)
    ensures closing == multiset{} ==> pushed + p == closed + (log + out) + left + (dropped + d)
  {
    assert pushed + p == closed + log + (closing + out + d + left) + dropped;
  }

  lemma ClosedJoin(closed: seq<seq<Out>>, log: seq<Out>)
    ensures ClosedPayloads(closed + [log]) == ClosedPayloads(closed) + PayloadsOf(log)
  {
    assert (closed + [log])[..|closed + [log]| - 1] == closed;
  }

  lemma RecordConserved(h: Hist, a: Arrived, path: nat, pos: int, payload: Payload)
    requires Conserved(h) && Conserves(h.b, a, payload)
    requires !a.anew ==> a.closing == []
    ensures Conserved(Record(h, a, path, pos, payload))
  {
    ClosedJoin(h.closed, h.log + a.closing);
    PayloadsOfSum(h.log, a.closing);
    PayloadsOfSum(h.log, a.out);
    assert !a.anew ==> PayloadsOf(a.closing) == multiset{};
    hide ClosedPayloads, PayloadsOf, Waiting;
    Regroup(h.pushed, ClosedPayloads(h.closed), PayloadsOf(h.log), Waiting(h.b), h.dropped, multiset{payload},
            PayloadsOf(a.closing), PayloadsOf(a.out), multiset(a.dropped), Waiting(a.b));
  }

  lemma RecordInOrder(h: Hist, a: Arrived, path: nat, pos: int, payload: Payload)
    requires InOrder(h) && Ordered(h.b, a, pos)
    requires !a.anew || a.closing != [] ==> h.b.started
    ensures InOrder(Record(h, a, path, pos, payload))
  {
    if !a.anew {
      AscendsOn(h.log, a.out, h.b.next, a.b.next);
    } else if h.b.started {
      AscendsOn(h.log, a.closing, h.b.next, h.b.next + WINDOW);
    } else {
      assert h.log + a.closing == h.log;
    }
  }

  /** The mark an arrival makes is on a packet its path has now delivered. */
  lemma RecordMarks(h: Hist, now: int, path: nat, n: FlowSeq, payload: Payload)
    requires h.b.Valid() && MarksArrived(h)
    ensures MarksArrived(Step(h, Arrival(now, path, n, payload)))
  {
    var w := Wake(h.b, now);
    var pos := PositionOf(w, n);
    var t := Touch(w, now, path, pos);
    var a := Place(t, now, path, pos, payload);
    PlaceMarks(t, now, path, pos, payload);
    var arrivals := h.arrivals + [Delivery(path, pos)];
    assert Delivery(path, pos) in arrivals;
    assert forall m :: m in t.marks ==> (m.id == path && m.pos == pos) || Delivery(m.id, m.pos) in h.arrivals;
  }

  /** Placing a packet keeps the marks, or on a restart leaves only its own. */
  lemma PlaceMarks(b: Bucket, now: int, path: nat, pos: int, payload: Payload)
    ensures var a := Place(b, now, path, pos, payload);
            a.b.marks == if a.anew then [Mark(path, pos, now)] else b.marks
  {
  }

  lemma ArrivalGood(h: Hist, now: int, path: nat, n: FlowSeq, payload: Payload)
    requires Good(h)
    ensures Good(Step(h, Arrival(now, path, n, payload)))
  {
    var a := Arrive(h.b, now, path, n, payload);
    var pos := PositionOf(Wake(h.b, now), n);
    ArriveSound(h.b, now, path, n, payload);
    ArriveOrdered(h.b, now, path, n, payload);
    ArriveConserves(h.b, now, path, n, payload);
    RecordConserved(h, a, path, pos, payload);
    RecordInOrder(h, a, path, pos, payload);
    RecordMarks(h, now, path, n, payload);
  }

  lemma GoodIsValid(h: Hist)
    requires Good(h)
    ensures h.b.Valid()
  {
  }

  lemma PassCheckGood(h: Hist, now: int, paths: Paths)
    requires Good(h) && paths.maxPath < |paths.seen|
    ensures Good(GapsChecked(h, now, paths))
  {
    hide Good, Moved, Logged, PassGaps, PassOut;
    GoodIsValid(h);
    PassGapsMoves(h.b, paths, now);
    MovedGood(h, PassGaps(h.b, paths, now), PassOut(h.b, paths, now));
  }

  lemma GiveUpGood(h: Hist)
    requires Good(h) && h.b.held != map[]
    ensures Good(GaveUp(h))
  {
    hide Good, Moved, Logged, SkipToHeld, ResumeOut;
    GoodIsValid(h);
    SkipMoves(h.b);
    MovedGood(h, SkipToHeld(h.b), ResumeOut(h.b, Lowest(h.b.held)));
  }

  lemma SweepGood(h: Hist, now: int, hold: int)
    requires Good(h)
    ensures Good(Swept(h, now, hold))
  {
    hide Good, Moved, Logged, TimeOut, TimeOutOut;
    GoodIsValid(h);
    TimeOutMoves(h.b, now, hold);
    MovedGood(h, TimeOut(h.b, now, hold), TimeOutOut(h.b, now, hold));
  }

  lemma ExpiryGood(h: Hist, now: int)
    requires Good(h)
    ensures Good(Expired(h, now))
  {
    hide Good;
    if h.b.held == map[] {
      ExpireGood(h);
    }
  }

  lemma StepGood(h: Hist, e: Event)
    requires Good(h) && e.Valid()
    ensures Good(Step(h, e))
  {
    hide Good, Bucket.Valid, Arrives, GapsChecked, GaveUp, Swept, Closed, Expired;
    GoodIsValid(h);
    match e
    case Arrival(now, path, n, payload) => ArrivalGood(h, now, path, n, payload);
    case PassCheck(now, paths) => PassCheckGood(h, now, paths);
    case GiveUp =>
      if h.b.held != map[] {
        GiveUpGood(h);
      }
    case Sweep(now, hold) => SweepGood(h, now, hold);
    case Reset => ResetGood(h);
    case Expire(now) => ExpiryGood(h, now);
  }

  // ----- runs

  ghost predicate AllValid(events: seq<Event>) {
    forall e :: e in events ==> e.Valid()
  }

  ghost function Run(h: Hist, events: seq<Event>): (z: Hist)
    requires Good(h) && AllValid(events)
    ensures Good(z)
    decreases events
  {
    if events == [] then h
    else
      StepGood(h, events[0]);
      Run(Step(h, events[0]), events[1..])
  }

  lemma StartGood()
    ensures Good(START)
  {
    NothingWaits(NO_BUCKET);
  }

  /** The two promises over every run from an empty bucket: every payload pushed is
      accounted for, and in every epoch deliveries ascend unless late. */
  lemma EveryRun(events: seq<Event>)
    requires AllValid(events)
    ensures Good(START)
    ensures Conserved(Run(START, events)) && InOrder(Run(START, events))
  {
    StartGood();
  }

  /** Later in the same epoch: the history only grows and next never moves back. */
  ghost predicate Extends(h: Hist, z: Hist) {
    && |h.closed| <= |z.closed|
    && (|h.closed| == |z.closed| ==>
          && h.arrivals <= z.arrivals && h.log <= z.log && h.closed == z.closed
          && (z.b.started ==> h.b.started && h.b.next <= z.b.next))
  }

  /** A sequence goes on only where one had started. */
  lemma GoesOnStarted(b: Bucket, now: int, path: nat, n: FlowSeq, payload: Payload)
    ensures !Arrive(b, now, path, n, payload).anew ==> b.started
  {
    hide Place;
  }

  lemma ArrivalExtends(h: Hist, now: int, path: nat, n: FlowSeq, payload: Payload)
    requires Good(h)
    ensures Extends(h, Arrives(h, now, path, n, payload))
  {
    ArriveOrdered(h.b, now, path, n, payload);
    GoesOnStarted(h.b, now, path, n, payload);
    hide Arrive, InOrderOrLate, Ascending;
  }

  lemma MoveExtends(h: Hist, b: Bucket, outs: seq<Out>)
    requires Moved(h.b, b, outs)
    ensures Extends(h, Logged(h, b, outs))
  {
    hide Ascending, Waiting;
  }

  lemma StepExtends(h: Hist, e: Event)
    requires Good(h) && e.Valid()
    ensures Extends(h, Step(h, e))
  {
    hide Moved, Extends, Arrives, SkipToHeld, PassGaps, TimeOut;
    match e
    case Arrival(now, path, n, payload) => ArrivalExtends(h, now, path, n, payload);
    case PassCheck(now, paths) =>
      PassGapsMoves(h.b, paths, now);
      MoveExtends(h, PassGaps(h.b, paths, now), PassOut(h.b, paths, now));
    case GiveUp =>
      if h.b.held == map[] {
        StayExtends(h);
      } else {
        SkipMoves(h.b);
        MoveExtends(h, SkipToHeld(h.b), ResumeOut(h.b, Lowest(h.b.held)));
      }
    case Sweep(now, hold) =>
      TimeOutMoves(h.b, now, hold);
      MoveExtends(h, TimeOut(h.b, now, hold), TimeOutOut(h.b, now, hold));
    case Reset => ClosingExtends(h, e);
    case Expire(now) => ClosingExtends(h, e);
  }

  lemma StayExtends(h: Hist)
    ensures Extends(h, h)
  {
  }

  lemma ClosingExtends(h: Hist, e: Event)
    requires h.b.Valid() && (e.Reset? || e.Expire?)
    ensures Extends(h, Step(h, e))
  {
  }

  lemma {:induction false} RunExtends(h: Hist, events: seq<Event>)
    requires Good(h) && AllValid(events)
    ensures Extends(h, Run(h, events))
    decreases events
  {
    if events != [] {
      StepExtends(h, events[0]);
      StepGood(h, events[0]);
      RunExtends(Step(h, events[0]), events[1..]);
    }
  }

  /** Paths do not reorder their own packets. */
  ghost predicate PathsInOrder(arrivals: seq<Delivery>) {
    forall i, j :: 0 <= i < j < |arrivals| && arrivals[i].path == arrivals[j].path ==> arrivals[i].pos < arrivals[j].pos
  }

  /** A gap given up because every active path had passed it never turns out to
      have been merely late: as long as paths keep their own packets in order, no
      path that was active brings a packet from the skipped range for the rest of
      the epoch. */
  lemma PassedGapNeverFills(h: Hist, paths: Paths, now: int, m: Mark, events: seq<Event>, later: nat)
    requires Good(h) && AllValid(events) && paths.maxPath < |paths.seen|
    requires h.b.held != map[] && Passed(h.b, paths, now)
    requires m in h.b.marks && Active(m, now) && Fresh(h.b, m)
    requires var z := Run(h, events);
             && |z.closed| == |h.closed| && PathsInOrder(z.arrivals)
             && |h.arrivals| <= later < |z.arrivals| && z.arrivals[later].path == m.id
    ensures Run(h, events).arrivals[later].pos > Lowest(h.b.held)
  {
    var z := Run(h, events);
    RunExtends(h, events);
    PassedGapIsLost(h.b, paths, now, m);
    var i :| 0 <= i < |h.arrivals| && h.arrivals[i] == Delivery(m.id, m.pos);
    assert z.arrivals[i] == h.arrivals[i];
  }
}
