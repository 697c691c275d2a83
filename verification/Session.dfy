/** The session's two ends of a packet's journey (internal/relay/session.go): the
    counters a sender stamps, and the receiver's filter and resequencer in a row. */
module Session {
  import opened Bytes
  import opened Serial
  import opened FlowBucket
  import FlowRuns
  import opened Reseq
  import opened ReseqAccounts
  import Dedup

  type Hist = FlowRuns.Hist

  // ----- the sender's counters

  datatype FlowTag = FlowTag(bucket: nat, flowSeq: FlowSeq)

  lemma NextResidue(n: nat, m: nat)
    requires m == FLOW_SPACE || m == SEQ_SPACE
    ensures (n + 1) % m == (n % m + 1) % m
  {
  }

  class Counters {
    var globalSeq: Seq32
    const flowSeqs: array<FlowSeq>
    const nextSeqs: array<Seq32>
    /** How many packets there have been, and how many tags each bucket, and packets each
        path, has been given. */
    ghost var counted: nat
    ghost var tagged: seq<nat>
    ghost var built: seq<nat>

    ghost predicate Valid()
      reads this, flowSeqs, nextSeqs
    {
      && flowSeqs.Length == |tagged| == FLOW_BUCKETS
      && nextSeqs.Length == |built| == MAX_PATHS
      && globalSeq == counted % SEQ_SPACE
      && (forall b :: 0 <= b < FLOW_BUCKETS ==> flowSeqs[b] == tagged[b] % FLOW_SPACE)
      && (forall p :: 0 <= p < MAX_PATHS ==> nextSeqs[p] == built[p] % SEQ_SPACE)
    }

    constructor ()
      ensures Valid() && counted == 0 && tagged == seq(FLOW_BUCKETS, _ => 0) && built == seq(MAX_PATHS, _ => 0)
      ensures fresh(flowSeqs) && fresh(nextSeqs)
    {
      flowSeqs := new FlowSeq[FLOW_BUCKETS](_ => 0);
      nextSeqs := new Seq32[MAX_PATHS](_ => 0);
      globalSeq, counted := 0, 0;
      tagged, built := seq(FLOW_BUCKETS, _ => 0), seq(MAX_PATHS, _ => 0);
    }

    /** The sequence of one packet, the same on every path it is sent on. */
    method NextGlobalSeq() returns (n: Seq32)
      requires Valid()
      modifies this`globalSeq, this`counted
      ensures Valid() && counted == old(counted) + 1 && n == counted % SEQ_SPACE
    {
      NextResidue(counted, SEQ_SPACE);
      globalSeq, counted := (globalSeq + 1) % SEQ_SPACE, counted + 1;
      return globalSeq;
    }

    /** The tag for one bulk packet of a flow: the next position of its bucket. */
    method NextFlowTag(flow: nat) returns (tag: FlowTag)
      requires Valid()
      modifies this`tagged, flowSeqs
      ensures Valid()
      ensures tag.bucket == flow % FLOW_BUCKETS && tag.flowSeq == old(tagged)[tag.bucket] % FLOW_SPACE
      ensures tagged == old(tagged)[tag.bucket := old(tagged)[tag.bucket] + 1]
    {
      var b := flow % FLOW_BUCKETS;
      var n := flowSeqs[b];
      flowSeqs[b] := (n + 1) % FLOW_SPACE;
      NextResidue(tagged[b], FLOW_SPACE);
      tagged := tagged[b := tagged[b] + 1];
      return FlowTag(b, n);
    }

    /** The path sequence for one packet: the next of its path. */
    method NextPathSeq(path: nat) returns (n: Seq32)
      requires Valid() && path < MAX_PATHS
      modifies this`built, nextSeqs
      ensures Valid()
      ensures n == old(built)[path] % SEQ_SPACE
      ensures built == old(built)[path := old(built)[path] + 1]
    {
      n := nextSeqs[path];
      nextSeqs[path] := (n + 1) % SEQ_SPACE;
      NextResidue(built[path], SEQ_SPACE);
      built := built[path := built[path] + 1];
    }
  }

  /** A tag is read back as the position it was given exactly while the packet is
      within half the sequence space of the one the receiver expects. */
  lemma TagIsRead(b: Bucket, p: int)
    requires b.started
    ensures PositionOf(b, p % FLOW_SPACE) == p <==> -HALF_FLOW <= p - b.next < HALF_FLOW
  {
  }

  // ----- the receiver

  /** An arriving data packet. */
  datatype Data = Data(n: Seq32, path: nat, hasFlow: bool, bucket: nat, flowSeq: Seq32, payload: Payload, now: int)

  /** A packet the filter let through: its position and its payload. */
  datatype Let = Let(pos: int, payload: Payload)

  /** The filter, the resequencer's buckets, what has been written straight through
      and what by way of the resequencer; and, as ghosts, every packet let through
      in earlier epochs of the filter and in this one. */
  datatype Receiver = Receiver(
    w: Dedup.Window,
    hist: seq<Hist>,
    direct: seq<Payload>,
    spread: seq<Payload>,
    earlier: seq<Let>,
    epoch: seq<Let>,
    clock: int)

  datatype Event =
    | Arrive(d: Data, forced: Forced, paths: Paths)
    | Sweep(order: seq<nat>, now: int, hold: int)
    | Expire(now: int)
    | Restart

  predicate Enabled(r: Receiver, e: Event) {
    match e
    case Arrive(d, forced, paths) => r.clock <= d.now && paths.maxPath < |paths.seen|
    case Sweep(order, now, hold) => r.clock <= now
    case Expire(now) => r.clock <= now
    case Restart => true
  }

  /** What the filter does with a packet. */
  ghost function Filtered(r: Receiver, d: Data): Receiver
    requires r.w.Valid()
  {
    var u := r.(w := Dedup.Offer(r.w, d.n), clock := d.now);
    if Dedup.Refuses(r.w, d.n) then u
    else
      var l := Let(Dedup.PositionOf(r.w, d.n), d.payload);
      if Dedup.Reseeds(r.w, d.n) then u.(earlier := r.earlier + r.epoch, epoch := [l])
      else u.(epoch := r.epoch + [l])
  }

  ghost function Step(r: Receiver, e: Event): Receiver
    requires r.w.Valid() && |r.hist| == FLOW_BUCKETS && Enabled(r, e)
  {
    match e
    case Arrive(d, forced, paths) =>
      var u := Filtered(r, d);
      if Dedup.Refuses(r.w, d.n) then u
      else if d.hasFlow then
        var i := d.bucket % FLOW_BUCKETS;
        var t := Taken(r.hist, i, d.now, d.path, d.flowSeq % FLOW_SPACE, d.payload);
        u.(hist := Relieved(t.hist, i, d.now, t.done, forced, paths),
           spread := RelievedTexts(r.spread + t.texts, t.hist, i, d.now, t.done, forced, paths))
      else u.(direct := r.direct + [d.payload])
    case Sweep(order, now, hold) =>
      r.(hist := SweptAll(r.hist, order, now, hold), spread := SweptTexts(r.spread, r.hist, order, now, hold), clock := now)
    case Expire(now) => r.(hist := ExpiredUpTo(r.hist, FLOW_BUCKETS, now), clock := now)
    case Restart =>
      r.(w := Dedup.Unseeded, hist := ClosedUpTo(r.hist, FLOW_BUCKETS), spread := ClosedTexts(r.spread, r.hist, FLOW_BUCKETS),
         earlier := r.earlier + r.epoch, epoch := [])
  }

  ghost predicate Steps(r: Receiver, e: Event, z: Receiver) {
    r.w.Valid() && |r.hist| == FLOW_BUCKETS && Enabled(r, e) && z == Step(r, e)
  }

  /** Only a restart and the packets let through change the epoch. */
  lemma EpochAfter(r: Receiver, e: Event)
    requires r.w.Valid() && |r.hist| == FLOW_BUCKETS && Enabled(r, e)
    ensures Step(r, e).epoch
            == match e
               case Arrive(d, _, _) =>
                 if Dedup.Refuses(r.w, d.n) then r.epoch
                 else if Dedup.Reseeds(r.w, d.n) then [Let(Dedup.PositionOf(r.w, d.n), d.payload)]
                 else r.epoch + [Let(Dedup.PositionOf(r.w, d.n), d.payload)]
               case Restart => []
               case _ => r.epoch
  {
    hide Dedup.Refuses, Dedup.Reseeds, Dedup.PositionOf, Dedup.Offer, Taken, Relieved, RelievedTexts;
  }

  /** What an arrival does to the filter, the buckets and the tunnel. */
  lemma ArriveAfter(r: Receiver, d: Data, forced: Forced, paths: Paths)
    requires r.w.Valid() && |r.hist| == FLOW_BUCKETS && Enabled(r, Arrive(d, forced, paths))
    ensures var z := Step(r, Arrive(d, forced, paths));
            var ok := !Dedup.Refuses(r.w, d.n);
            && z.w == Dedup.Offer(r.w, d.n) && z.clock == d.now
            && z.direct == (if ok && !d.hasFlow then r.direct + [d.payload] else r.direct)
            && (!(ok && d.hasFlow) ==> z.hist == r.hist && z.spread == r.spread)
            && (ok && d.hasFlow ==>
                  var i := d.bucket % FLOW_BUCKETS;
                  var t := Taken(r.hist, i, d.now, d.path, d.flowSeq % FLOW_SPACE, d.payload);
                  && z.hist == Relieved(t.hist, i, d.now, t.done, forced, paths)
                  && z.spread == RelievedTexts(r.spread + t.texts, t.hist, i, d.now, t.done, forced, paths))
  {
    hide Dedup.Refuses, Dedup.Reseeds, Dedup.PositionOf, Dedup.Offer, Taken, Relieved, RelievedTexts;
  }

  /** And what the others do. */
  lemma OtherAfter(r: Receiver, e: Event)
    requires r.w.Valid() && |r.hist| == FLOW_BUCKETS && Enabled(r, e) && !e.Arrive?
    ensures var z := Step(r, e);
            && z.direct == r.direct && z.w == (if e.Restart? then Dedup.Unseeded else r.w)
            && z.clock == (match e case Sweep(_, now, _) => now case Expire(now) => now case _ => r.clock)
            && match e
               case Sweep(order, now, hold) =>
                 z.hist == SweptAll(r.hist, order, now, hold) && z.spread == SweptTexts(r.spread, r.hist, order, now, hold)
               case Expire(now) => z.hist == ExpiredUpTo(r.hist, FLOW_BUCKETS, now) && z.spread == r.spread
               case Arrive(_, _, _) => true
               case Restart =>
                 z.hist == ClosedUpTo(r.hist, FLOW_BUCKETS) && z.spread == ClosedTexts(r.spread, r.hist, FLOW_BUCKETS)
  {
    hide SweptAll, SweptTexts, ExpiredUpTo, ClosedUpTo, ClosedTexts;
  }

  /** What each event does to the buckets. */
  lemma HistAfter(r: Receiver, e: Event)
    requires r.w.Valid() && |r.hist| == FLOW_BUCKETS && Enabled(r, e)
    ensures Step(r, e).hist
            == match e
               case Arrive(d, forced, paths) =>
                 if Dedup.Refuses(r.w, d.n) || !d.hasFlow then r.hist
                 else
                   var i := d.bucket % FLOW_BUCKETS;
                   var t := Taken(r.hist, i, d.now, d.path, d.flowSeq % FLOW_SPACE, d.payload);
                   Relieved(t.hist, i, d.now, t.done, forced, paths)
               case Sweep(order, now, hold) => SweptAll(r.hist, order, now, hold)
               case Expire(now) => ExpiredUpTo(r.hist, FLOW_BUCKETS, now)
               case Restart => ClosedUpTo(r.hist, FLOW_BUCKETS)
  {
    hide Dedup.Refuses, Dedup.Reseeds, Dedup.PositionOf, Dedup.Offer, Taken, Relieved, RelievedTexts, SweptAll, ExpiredUpTo,
      ClosedUpTo;
  }

  // ----- at most once

  function LetPayloads(lets: seq<Let>): multiset<Payload> {
    if lets == [] then multiset{}
    else LetPayloads(lets[..|lets| - 1]) + multiset{lets[|lets| - 1].payload}
  }

  lemma {:induction false} LetJoin(a: seq<Let>, b: seq<Let>)
    ensures LetPayloads(a + b) == LetPayloads(a) + LetPayloads(b)
  {
    if b == [] {
      assert a + b == a;
    } else {
      var last := |b| - 1;
      assert (a + b)[..|a + b| - 1] == a + b[..last];
      LetJoin(a, b[..last]);
    }
  }

  lemma LetOn(lets: seq<Let>, l: Let)
    ensures LetPayloads(lets + [l]) == LetPayloads(lets) + multiset{l.payload}
  {
    assert (lets + [l])[..|lets|] == lets;
  }

  /** Every packet ever let through. */
  function Lets(r: Receiver): seq<Let> {
    r.earlier + r.epoch
  }

  /** In this epoch no position was let through twice, and the filter remembers
      each. */
  predicate Once(w: Dedup.Window, epoch: seq<Let>) {
    && (forall i, j :: 0 <= i < j < |epoch| ==> epoch[i].pos != epoch[j].pos)
    && (epoch != [] ==> w.Window?)
    && (w.Window? ==> forall i :: 0 <= i < |epoch| ==> epoch[i].pos in w.accepted)
  }

  /** Every packet let through was written once, is held, or was the repeat of a
      sequence already held. */
  ghost predicate Balanced(r: Receiver) {
    && r.w.Valid() && Once(r.w, r.epoch)
    && |r.hist| == FLOW_BUCKETS && AllSane(r.hist, r.clock) && Accounted(r.spread, r.hist)
    && multiset(r.direct) + Pushed(r.hist) == LetPayloads(Lets(r))
  }

  lemma BalancedSize(r: Receiver)
    requires Balanced(r)
    ensures r.w.Valid() && |r.hist| == FLOW_BUCKETS
  {
  }

  /** Everything written to the tunnel. */
  function Tunnel(r: Receiver): multiset<Payload> {
    multiset(r.direct) + multiset(r.spread)
  }

  lemma NothingTwice(r: Receiver)
    requires Balanced(r)
    ensures Tunnel(r) + StillHeld(r.hist) + Dropped(r.hist) == LetPayloads(Lets(r))
  {
    NothingLost(r.spread, r.hist, r.clock);
    Shift(multiset(r.direct), multiset(r.spread), StillHeld(r.hist), Dropped(r.hist));
  }

  lemma Shift(a: multiset<Payload>, b: multiset<Payload>, c: multiset<Payload>, d: multiset<Payload>)
    ensures a + b + c + d == a + (b + c + d)
  {
  }

  lemma FilteredOnce(r: Receiver, d: Data)
    requires r.w.Valid() && Once(r.w, r.epoch)
    ensures var u := Filtered(r, d); u.w.Valid() && Once(u.w, u.epoch)
  {
  }

  lemma FilteredLets(r: Receiver, d: Data)
    requires r.w.Valid()
    ensures Lets(Filtered(r, d))
            == if Dedup.Refuses(r.w, d.n) then Lets(r) else Lets(r) + [Let(Dedup.PositionOf(r.w, d.n), d.payload)]
  {
  }

  // ----- the resequencer keeps its invariant in every step

  lemma RelievedKeeps(hist: seq<Hist>, clock: int, i: nat, now: int, done: bool, forced: Forced, paths: Paths)
    requires i < |hist| && AllSane(hist, clock) && paths.maxPath < |paths.seen|
    ensures AllSane(Relieved(hist, i, now, done, forced, paths), clock)
  {
    if forced.ForcedOn? && forced.j in WaitingIn(hist) {
      GiveUpKeeps(hist, clock, forced.j);
    }
    CheckKeeps(AfterForce(hist, forced), clock, i, now, paths);
  }

  lemma {:induction false} SweptKeeps(hist: seq<Hist>, clock: int, order: seq<nat>, now: int, hold: int)
    requires AllSane(hist, clock)
    ensures AllSane(SweptAll(hist, order, now, hold), clock)
  {
    if order != [] {
      var last := |order| - 1;
      SweptKeeps(hist, clock, order[..last], now, hold);
      if order[last] < |hist| {
        SweepKeeps(SweptAll(hist, order[..last], now, hold), clock, order[last], now, hold);
      }
    }
  }

  lemma {:induction false} SweptPushed(hist: seq<Hist>, order: seq<nat>, now: int, hold: int)
    ensures Pushed(SweptAll(hist, order, now, hold)) == Pushed(hist)
  {
    if order != [] {
      var last := |order| - 1;
      SweptPushed(hist, order[..last], now, hold);
      var r := SweptAll(hist, order[..last], now, hold);
      if order[last] < |hist| {
        PushedMoves(r, order[last], FlowRuns.Swept(r[order[last]], now, hold), multiset{});
      }
    }
  }

  lemma {:induction false} ClosedSane(hist: seq<Hist>, clock: int, n: nat)
    requires n <= |hist| && AllSane(hist, clock)
    ensures AllSane(ClosedUpTo(hist, n), clock)
  {
    hide FlowRuns.Closed, AllSane, Sane;
    if n > 0 {
      ClosedSane(hist, clock, n - 1);
      ClosedUpToStep(hist, n - 1);
      ClosedKeeps(ClosedUpTo(hist, n - 1), clock, n - 1);
    }
  }

  lemma {:induction false} ClosedPushed(hist: seq<Hist>, n: nat)
    requires n <= |hist|
    ensures Pushed(ClosedUpTo(hist, n)) == Pushed(hist)
  {
    if n > 0 {
      ClosedPushed(hist, n - 1);
      ClosedUpToStep(hist, n - 1);
      PushedMoves(ClosedUpTo(hist, n - 1), n - 1, FlowRuns.Closed(hist[n - 1]), multiset{});
    }
  }

  // ----- every step keeps the balance

  /** A packet is let through, and its payload written or pushed. */
  lemma LetThrough(r: Receiver, d: Data, hist: seq<Hist>, direct: seq<Payload>, spread: seq<Payload>)
    requires Balanced(r) && !Dedup.Refuses(r.w, d.n)
    requires |hist| == FLOW_BUCKETS && AllSane(hist, d.now) && Accounted(spread, hist)
    requires multiset(direct) + Pushed(hist) == multiset(r.direct) + Pushed(r.hist) + multiset{d.payload}
    ensures Balanced(Filtered(r, d).(hist := hist, direct := direct, spread := spread))
  {
    FilteredOnce(r, d);
    FilteredLets(r, d);
    LetOn(Lets(r), Let(Dedup.PositionOf(r.w, d.n), d.payload));
  }

  lemma RefusedBalanced(r: Receiver, d: Data)
    requires Balanced(r) && Dedup.Refuses(r.w, d.n) && r.clock <= d.now
    ensures Balanced(Filtered(r, d))
  {
    FilteredOnce(r, d);
    FilteredLets(r, d);
    AllLater(r.hist, r.clock, d.now);
  }

  lemma SpreadBalanced(r: Receiver, d: Data, forced: Forced, paths: Paths)
    requires Balanced(r) && r.clock <= d.now && paths.maxPath < |paths.seen| && !Dedup.Refuses(r.w, d.n)
    ensures var i := d.bucket % FLOW_BUCKETS;
            var t := Taken(r.hist, i, d.now, d.path, d.flowSeq % FLOW_SPACE, d.payload);
            Balanced(Filtered(r, d).(hist := Relieved(t.hist, i, d.now, t.done, forced, paths),
                                     spread := RelievedTexts(r.spread + t.texts, t.hist, i, d.now, t.done, forced, paths)))
  {
    hide AllSane, Accounted, RelievedTexts, Once, LetPayloads, Dedup.Refuses, FlowRuns.GaveUp, FlowRuns.GapsChecked;
    var i, n := d.bucket % FLOW_BUCKETS, d.flowSeq % FLOW_SPACE;
    var t := Taken(r.hist, i, d.now, d.path, n, d.payload);
    var hist := Relieved(t.hist, i, d.now, t.done, forced, paths);
    var spread := RelievedTexts(r.spread + t.texts, t.hist, i, d.now, t.done, forced, paths);
    assert AllSane(t.hist, d.now) by { TakenKeeps(r.hist, r.clock, i, d.now, d.path, n, d.payload); }
    assert AllSane(hist, d.now) by { RelievedKeeps(t.hist, d.now, i, d.now, t.done, forced, paths); }
    assert Accounted(spread, hist) by { PushAccounted(r.spread, r.hist, i, d.now, d.path, n, d.payload, forced, paths); }
    assert Pushed(hist) == Pushed(r.hist) + multiset{d.payload} by {
      PushGrows(r.hist, i, d.now, d.path, n, d.payload, forced, paths);
    }
    Shift3(multiset(r.direct), Pushed(r.hist), multiset{d.payload});
    LetThrough(r, d, hist, r.direct, spread);
  }

  lemma Shift3(a: multiset<Payload>, b: multiset<Payload>, c: multiset<Payload>)
    ensures a + b + c == a + (b + c)
  {
  }

  lemma DirectBalanced(r: Receiver, d: Data)
    requires Balanced(r) && r.clock <= d.now && !Dedup.Refuses(r.w, d.n)
    ensures Balanced(Filtered(r, d).(direct := r.direct + [d.payload]))
  {
    AllLater(r.hist, r.clock, d.now);
    OneMore(multiset(r.direct), d.payload, Pushed(r.hist));
    LetThrough(r, d, r.hist, r.direct + [d.payload], r.spread);
  }

  lemma OneMore(direct: multiset<Payload>, x: Payload, pushed: multiset<Payload>)
    ensures direct + multiset{x} + pushed == direct + pushed + multiset{x}
  {
  }

  lemma SweepBalanced(r: Receiver, order: seq<nat>, now: int, hold: int)
    requires r.w.Valid() && |r.hist| == FLOW_BUCKETS && Balanced(r) && r.clock <= now
    ensures Balanced(Step(r, Sweep(order, now, hold)))
  {
    hide Accounted, AllSane, SweptAll, SweptTexts, Pushed, LetPayloads, Once;
    AllLater(r.hist, r.clock, now);
    SweptKeeps(r.hist, now, order, now, hold);
    SweptPushed(r.hist, order, now, hold);
    SweepAccounted(r.spread, r.hist, order, now, hold);
  }

  lemma {:induction false} ExpiredSane(hist: seq<Hist>, clock: int, n: nat, now: int)
    requires n <= |hist| && AllSane(hist, clock)
    ensures AllSane(ExpiredUpTo(hist, n, now), clock)
  {
    hide FlowRuns.Expired, AllSane, Sane;
    if n > 0 {
      ExpiredSane(hist, clock, n - 1, now);
      ExpiredUpToStep(hist, n - 1, now);
      ExpiredKeeps(ExpiredUpTo(hist, n - 1, now), clock, n - 1, now);
    }
  }

  lemma {:induction false} ExpiredPushed(hist: seq<Hist>, n: nat, now: int)
    requires n <= |hist|
    ensures Pushed(ExpiredUpTo(hist, n, now)) == Pushed(hist)
  {
    if n > 0 {
      ExpiredPushed(hist, n - 1, now);
      ExpiredUpToStep(hist, n - 1, now);
      PushedMoves(ExpiredUpTo(hist, n - 1, now), n - 1, FlowRuns.Expired(hist[n - 1], now), multiset{});
    }
  }

  lemma ExpireBalanced(r: Receiver, now: int)
    requires r.w.Valid() && |r.hist| == FLOW_BUCKETS && Balanced(r) && r.clock <= now
    ensures Balanced(Step(r, Expire(now)))
  {
    hide Accounted, AllSane, ExpiredUpTo, Pushed, LetPayloads, Once;
    AllLater(r.hist, r.clock, now);
    ExpiredSane(r.hist, now, FLOW_BUCKETS, now);
    ExpiredPushed(r.hist, FLOW_BUCKETS, now);
    ExpireAccounted(r.spread, r.hist, FLOW_BUCKETS, now);
  }

  lemma RestartBalanced(r: Receiver)
    requires r.w.Valid() && |r.hist| == FLOW_BUCKETS && Balanced(r)
    ensures Balanced(Step(r, Restart))
  {
    hide Accounted, AllSane, ClosedUpTo, ClosedTexts, Pushed, LetPayloads, Once;
    var hist, spread := ClosedUpTo(r.hist, FLOW_BUCKETS), ClosedTexts(r.spread, r.hist, FLOW_BUCKETS);
    ClosedSane(r.hist, r.clock, FLOW_BUCKETS);
    ClosedPushed(r.hist, FLOW_BUCKETS);
    assert Accounted(spread, hist) by { ResetAccounted(r.spread, r.hist, FLOW_BUCKETS); }
    NewEpoch(r, hist, spread);
  }

  lemma NewEpoch(r: Receiver, hist: seq<Hist>, spread: seq<Payload>)
    requires Balanced(r) && |hist| == FLOW_BUCKETS && AllSane(hist, r.clock) && Pushed(hist) == Pushed(r.hist)
    requires Accounted(spread, hist)
    ensures Balanced(r.(w := Dedup.Unseeded, hist := hist, spread := spread, earlier := r.earlier + r.epoch, epoch := []))
  {
    assert r.earlier + r.epoch + [] == Lets(r);
  }

  lemma StepBalanced(r: Receiver, e: Event)
    requires Balanced(r) && Enabled(r, e)
    ensures Balanced(Step(r, e))
  {
    match e
    case Arrive(d, forced, paths) =>
      if Dedup.Refuses(r.w, d.n) {
        RefusedBalanced(r, d);
      } else if d.hasFlow {
        SpreadBalanced(r, d, forced, paths);
      } else {
        DirectBalanced(r, d);
      }
    case Sweep(order, now, hold) => SweepBalanced(r, order, now, hold);
    case Expire(now) => ExpireBalanced(r, now);
    case Restart => RestartBalanced(r);
  }

  lemma StepsOn(r: Receiver, e: Event)
    requires Balanced(r) && Enabled(r, e)
    ensures Steps(r, e, Step(r, e)) && Balanced(Step(r, e))
  {
    BalancedSize(r);
    StepBalanced(r, e);
  }

  const NEW := Receiver(Dedup.Unseeded, seq(FLOW_BUCKETS, _ => FlowRuns.START), [], [], [], [], 0)

  ghost predicate AllEnabled(r: Receiver, events: seq<Event>)
    requires Balanced(r)
    decreases |events|
  {
    events == []
    || (Enabled(r, events[0])
        && (StepBalanced(r, events[0]); AllEnabled(Step(r, events[0]), events[1..])))
  }

  ghost function Run(r: Receiver, events: seq<Event>): (z: Receiver)
    requires Balanced(r) && AllEnabled(r, events)
    ensures Balanced(z)
    decreases |events|
  {
    if events == [] then r
    else
      StepBalanced(r, events[0]);
      Run(Step(r, events[0]), events[1..])
  }

  lemma AllNew(hist: seq<Hist>)
    requires |hist| == FLOW_BUCKETS && AllStart(hist)
    ensures NEW == Receiver(Dedup.Unseeded, hist, [], [], [], [], 0)
  {
  }

  lemma NewBalanced()
    ensures Balanced(NEW)
  {
    hide AllSane, Balanced, Told, Pushed, Handed;
    StartSane(NEW.hist);
    NothingYet(NEW.hist);
    EmptyBalanced(NEW.hist);
  }

  lemma EmptyBalanced(hist: seq<Hist>)
    requires |hist| == FLOW_BUCKETS && AllSane(hist, 0) && Pushed(hist) == multiset{} && Handed(hist) == multiset{}
    requires forall i: nat :: i < |hist| ==> Told(hist[i]) == []
    ensures Balanced(Receiver(Dedup.Unseeded, hist, [], [], [], [], 0))
  {
    EmptyAccounted(hist);
    hide Told, AllSane, Accounted, Pushed;
  }

  lemma EmptyAccounted(hist: seq<Hist>)
    requires Handed(hist) == multiset{} && forall i: nat :: i < |hist| ==> Told(hist[i]) == []
    ensures Accounted([], hist)
  {
    hide Told, Handed;
    assert Tagged([], [], hist);
  }

  lemma {:induction false} NothingYet(hist: seq<Hist>)
    requires AllStart(hist)
    ensures Pushed(hist) == multiset{} && Handed(hist) == multiset{}
    ensures forall i: nat :: i < |hist| ==> Told(hist[i]) == []
  {
    if hist != [] {
      NothingYet(hist[1..]);
    }
  }

  /** In every run, from a new receiver (which is balanced) or any balanced one,
      sweeps, expiry and restarts included: a payload is written to the tunnel no more
      often than packets with it were let through, and in each epoch of the filter no
      position is let through twice. What is let through and not written is held, or
      repeats a sequence that was held. */
  lemma DeliveredAtMostOnce(r: Receiver, events: seq<Event>, x: Payload)
    requires Balanced(r) && AllEnabled(r, events)
    ensures var z := Run(r, events);
            && Tunnel(z)[x] <= LetPayloads(Lets(z))[x]
            && LetPayloads(Lets(z))[x] == Tunnel(z)[x] + StillHeld(z.hist)[x] + Dropped(z.hist)[x]
            && forall i, j :: 0 <= i < j < |z.epoch| ==> z.epoch[i].pos != z.epoch[j].pos
  {
    NothingTwice(Run(r, events));
  }

  /** What the resequencer wrote is told apart by bucket, each bucket's in order. */
  lemma ToldApart(r: Receiver) returns (tags: seq<nat>)
    requires Balanced(r)
    ensures |tags| == |r.spread|
    ensures forall i: nat :: i < FLOW_BUCKETS ==>
              Picked(r.spread, tags, i) == Told(r.hist[i]) && FlowRuns.InOrder(r.hist[i])
  {
    hide Told, Picked, FlowRuns.InOrder;
    tags :| Tagged(r.spread, tags, r.hist);
    forall i: nat | i < FLOW_BUCKETS
      ensures Picked(r.spread, tags, i) == Told(r.hist[i]) && FlowRuns.InOrder(r.hist[i])
    {
      SaneAt(r.hist, r.clock, i);
    }
  }

  /** And in order: in every such run, what the resequencer wrote for each bucket is
      that bucket's epochs, one after another, and in each epoch what is not late
      ascends. */
  lemma WrittenInOrder(r: Receiver, events: seq<Event>) returns (tags: seq<nat>)
    requires Balanced(r) && AllEnabled(r, events)
    ensures var z := Run(r, events);
            && |tags| == |z.spread|
            && forall i: nat :: i < FLOW_BUCKETS ==>
                 Picked(z.spread, tags, i) == Told(z.hist[i]) && FlowRuns.InOrder(z.hist[i])
  {
    tags := ToldApart(Run(r, events));
  }
}
