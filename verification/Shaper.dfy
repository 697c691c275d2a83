/** The path shaper of internal/relay/shaper.go, on values: every region its lock
    protects is one step, and a run is any interleaving of them. Times are whole
    nanoseconds; the wire cost of a packet is fixed when it starts. */
module Shaper {
  import opened Bytes
  import opened Collections

  const BURST_SECONDS := 0.01
  const MIN_BURST_BYTES := 3000.0
  const QUEUE_SECONDS := 0.1
  const MIN_QUEUE_BYTES := 48000.0
  const UNSHAPED_QUEUE_BYTES := 4194304.0
  const ROOM_SECONDS := 0.01

  const REALTIME := 0
  const TRANSACTIONAL := 1
  const BULK := 2
  const BANDS := 3

  const CLASS_REALTIME := 1
  const CLASS_BULK := 2
  const CLASS_TRANSACTIONAL := 3

  datatype Packet = Packet(class_: nat, globalSeq: nat, tag: nat, payload: Payload)

  /** direct and drained are the costs of the packets on their way out: started,
      and not yet deducted. */
  datatype Shaper = Shaper(
    rate: real,
    tokens: real,
    at: int,
    bands: seq<seq<Packet>>,
    queued: seq<int>,
    direct: Option<nat>,
    drained: Option<nat>,
    running: bool,
    dropped: nat)

  const UNSHAPED := Shaper(0.0, 0.0, 0, [[], [], []], [0, 0, 0], None, None, false, 0)

  /** Traffic of no known class shares bulk's band. */
  function BandOf(class_: nat): (b: nat)
    ensures b < BANDS
  {
    if class_ == CLASS_REALTIME then REALTIME
    else if class_ == CLASS_TRANSACTIONAL then TRANSACTIONAL
    else BULK
  }

  /** So many seconds' worth of the rate, and at least a floor. */
  function BytesFor(rate: real, seconds: real, floor: real): real {
    if rate * seconds > floor then rate * seconds else floor
  }

  function Depth(rate: real): real {
    BytesFor(rate, BURST_SECONDS, MIN_BURST_BYTES)
  }

  function Limit(rate: real): real {
    if rate == 0.0 then UNSHAPED_QUEUE_BYTES else BytesFor(rate, QUEUE_SECONDS, MIN_QUEUE_BYTES)
  }

  function RoomBytes(rate: real): real {
    BytesFor(rate, ROOM_SECONDS, MIN_BURST_BYTES)
  }

  /** What the rate gives in d nanoseconds. */
  function Grown(rate: real, d: int): real {
    rate * (d as real / 1000000000.0)
  }

  function RateOf(kbps: real): real {
    if kbps * 1000.0 / 8.0 < 0.0 then 0.0 else kbps * 1000.0 / 8.0
  }

  function Refill(s: Shaper, now: int): (r: Shaper)
    ensures r == s.(tokens := r.tokens, at := now) && r.tokens <= Depth(s.rate)
  {
    var t := if now > s.at then s.tokens + Grown(s.rate, now - s.at) else s.tokens;
    s.(tokens := if t > Depth(s.rate) then Depth(s.rate) else t, at := now)
  }

  predicate Empty(s: Shaper)
    requires |s.bands| == BANDS
  {
    s.bands[REALTIME] == [] && s.bands[TRANSACTIONAL] == [] && s.bands[BULK] == []
  }

  predicate IdleNow(s: Shaper)
    requires |s.bands| == BANDS
  {
    s.direct == None && s.drained == None && Empty(s)
  }

  /** The bucket brought up to date, where there is one. */
  function Ready(s: Shaper, now: int): Shaper {
    if s.rate > 0.0 then Refill(s, now) else s
  }

  predicate MayStart(s: Shaper) {
    s.rate > 0.0 ==> s.tokens >= 0.0
  }

  function Deduct(s: Shaper, cost: nat): Shaper {
    if s.rate > 0.0 then s.(tokens := s.tokens - cost as real) else s
  }

  // ----- the regions the lock protects

  function SetRate(s: Shaper, kbps: real, now: int): Shaper {
    var rate := RateOf(kbps);
    if rate == s.rate then s
    else
      var a := if s.rate == 0.0 then s.(tokens := 0.0, at := now) else s;
      a.(rate := rate, running := s.running || rate > 0.0)
  }

  /** What becomes of a packet: sent at once, queued in its band, or dropped. */
  datatype Sent = Direct | Queued | Dropped

  function Fate(s: Shaper, p: Packet, now: int): Sent
    requires |s.bands| == |s.queued| == BANDS
  {
    if IdleNow(s) && MayStart(Ready(s, now)) then Direct
    else if (s.queued[BandOf(p.class_)] + |p.payload|) as real > Limit(s.rate) then Dropped
    else Queued
  }

  function Send(s: Shaper, p: Packet, cost: nat, now: int): Shaper
    requires |s.bands| == |s.queued| == BANDS
  {
    var b := BandOf(p.class_);
    var r := if IdleNow(s) then Ready(s, now) else s;
    match Fate(s, p, now)
    case Direct => r.(direct := Some(cost))
    case Dropped => r.(dropped := s.dropped + 1)
    case Queued => r.(bands := s.bands[b := s.bands[b] + [p]], queued := s.queued[b := s.queued[b] + |p.payload|])
  }

  function SendEnd(s: Shaper): Shaper {
    match s.direct
    case None => s
    case Some(cost) => Deduct(s.(direct := None), cost)
  }

  function Charge(s: Shaper, cost: nat, now: int): Shaper {
    if s.rate == 0.0 then s
    else
      var r := Refill(s, now);
      r.(tokens := r.tokens - cost as real)
  }

  /** The first band with anything in it. */
  function Front(s: Shaper): (b: nat)
    requires |s.bands| == BANDS
    ensures b < BANDS && (!Empty(s) ==> s.bands[b] != [])
    ensures forall k :: 0 <= k < b ==> s.bands[k] == []
  {
    if s.bands[REALTIME] != [] then REALTIME
    else if s.bands[TRANSACTIONAL] != [] then TRANSACTIONAL
    else BULK
  }

  /** Whether the drain has a packet it may start now. */
  predicate Takes(s: Shaper, now: int)
    requires |s.bands| == BANDS
  {
    !Empty(s) && MayStart(Ready(s, now))
  }

  function Take(s: Shaper, cost: nat, now: int): Shaper
    requires |s.bands| == |s.queued| == BANDS
  {
    if Empty(s) then s
    else
      var r := Ready(s, now);
      if !MayStart(r) then r
      else
        var b := Front(s);
        var p := s.bands[b][0];
        r.(bands := s.bands[b := s.bands[b][1..]], queued := s.queued[b := s.queued[b] - |p.payload|],
           drained := Some(cost))
  }

  function TakeEnd(s: Shaper): Shaper {
    match s.drained
    case None => s
    case Some(cost) => Deduct(s.(drained := None), cost)
  }

  // ----- runs

  /** A packet that started: when, and what it cost on the wire. */
  datatype Start = Start(at: int, cost: nat)

  datatype Event =
    | Reshape(kbps: real, now: int)
    | Offer(p: Packet, cost: nat, now: int)
    | OfferEnd
    | Drain(cost: nat, now: int)
    | DrainEnd
    | Control(cost: nat, now: int)

  /** A shaper and what has happened to it: by band, the packets accepted and
      started; every start; how many starts came before the rate last changed; and
      when that was, if the path was unshaped till then. */
  datatype Trace = Trace(
    s: Shaper,
    accepted: seq<seq<Packet>>,
    started: seq<seq<Packet>>,
    offered: nat,
    starts: seq<Start>,
    since: nat,
    shapedAt: Option<int>)

  const BEGIN := Trace(UNSHAPED, [[], [], []], [[], [], []], 0, [], 0, None)

  /** Time does not run back, no packet costs more than max, and each actor ends
      what it began before it begins again. */
  predicate Enabled(t: Trace, e: Event, max: nat) {
    match e
    case Reshape(_, now) => t.s.at <= now
    case Offer(_, cost, now) => t.s.at <= now && cost <= max
    case OfferEnd => t.s.direct.Some?
    case Drain(cost, now) => t.s.at <= now && cost <= max && t.s.running && t.s.drained.None?
    case DrainEnd => t.s.drained.Some?
    case Control(_, now) => t.s.at <= now
  }

  predicate Shape(t: Trace) {
    |t.s.bands| == |t.s.queued| == |t.accepted| == |t.started| == BANDS
  }

  function Put(all: seq<seq<Packet>>, b: nat, p: Packet): seq<seq<Packet>>
    requires b < |all|
  {
    all[b := all[b] + [p]]
  }

  function Offered(t: Trace, p: Packet, cost: nat, now: int): Trace
    requires Shape(t)
  {
    var b := BandOf(p.class_);
    var u := t.(s := Send(t.s, p, cost, now), offered := t.offered + 1);
    match Fate(t.s, p, now)
    case Direct => u.(accepted := Put(t.accepted, b, p), started := Put(t.started, b, p),
                      starts := t.starts + [Start(now, cost)])
    case Queued => u.(accepted := Put(t.accepted, b, p))
    case Dropped => u
  }

  function Drained(t: Trace, cost: nat, now: int): Trace
    requires Shape(t)
  {
    var u := t.(s := Take(t.s, cost, now));
    if Takes(t.s, now) then
      var b := Front(t.s);
      u.(started := Put(t.started, b, t.s.bands[b][0]), starts := t.starts + [Start(now, cost)])
    else u
  }

  function Reshaped(t: Trace, kbps: real, now: int): Trace {
    if RateOf(kbps) == t.s.rate then t
    else t.(s := SetRate(t.s, kbps, now), since := |t.starts|, shapedAt := if t.s.rate == 0.0 then Some(now) else None)
  }

  function Step(t: Trace, e: Event): (r: Trace)
    requires Shape(t)
    ensures Shape(r)
  {
    match e
    case Reshape(kbps, now) => Reshaped(t, kbps, now)
    case Offer(p, cost, now) => Offered(t, p, cost, now)
    case OfferEnd => t.(s := SendEnd(t.s))
    case Drain(cost, now) => Drained(t, cost, now)
    case DrainEnd => t.(s := TakeEnd(t.s))
    case Control(cost, now) => t.(s := Charge(t.s, cost, now))
  }

  // ----- conservation, order and priority

  function SizeOf(band: seq<Packet>): nat {
    if band == [] then 0 else |band[0].payload| + SizeOf(band[1..])
  }

  lemma {:induction false} SizeOfJoin(a: seq<Packet>, p: Packet)
    ensures SizeOf(a + [p]) == SizeOf(a) + |p.payload|
  {
    if a != [] {
      assert (a + [p])[1..] == a[1..] + [p];
      SizeOfJoin(a[1..], p);
    }
  }

  /** Band by band: accepted is started followed by what is queued, in order; the
      byte counter is the sum of the queued lengths. */
  predicate BandKept(t: Trace, b: nat)
    requires Shape(t) && b < BANDS
  {
    && t.accepted[b] == t.started[b] + t.s.bands[b]
    && t.s.queued[b] == SizeOf(t.s.bands[b])
  }

  /** And every packet offered was accepted or is a counted drop; every packet
      started is on record; a shaped path has its drain. */
  predicate Kept(t: Trace) {
    && Shape(t)
    && (forall b :: 0 <= b < BANDS ==> BandKept(t, b))
    && t.offered == |t.accepted[0]| + |t.accepted[1]| + |t.accepted[2]| + t.s.dropped
    && |t.starts| == |t.started[0]| + |t.started[1]| + |t.started[2]|
    && t.since <= |t.starts|
    && (t.s.rate > 0.0 ==> t.s.running) && t.s.rate >= 0.0
  }

  lemma OfferedKept(t: Trace, p: Packet, cost: nat, now: int)
    requires Kept(t)
    ensures Kept(Offered(t, p, cost, now))
  {
    hide SizeOf;
    var b := BandOf(p.class_);
    var u := Offered(t, p, cost, now);
    assert BandKept(t, b);
    SizeOfJoin(t.s.bands[b], p);
    assert t.accepted[b] + [p] == t.started[b] + (t.s.bands[b] + [p]);
    if Fate(t.s, p, now) == Direct {
      assert t.s.bands[b] == [];
      assert t.accepted[b] + [p] == (t.started[b] + [p]) + [];
    }
    forall k | 0 <= k < BANDS ensures BandKept(u, k) {
      assert BandKept(t, k);
    }
  }

  lemma DrainedKept(t: Trace, cost: nat, now: int)
    requires Kept(t)
    ensures Kept(Drained(t, cost, now))
  {
    var u := Drained(t, cost, now);
    if Takes(t.s, now) {
      var b := Front(t.s);
      var q := t.s.bands[b];
      assert BandKept(t, b);
      assert t.started[b] + q == (t.started[b] + [q[0]]) + q[1..];
      assert BandKept(u, b);
      assert forall k :: 0 <= k < BANDS && k != b ==> BandKept(t, k) ==> BandKept(u, k);
    } else {
      assert forall k :: 0 <= k < BANDS ==> BandKept(t, k) ==> BandKept(u, k);
    }
  }

  lemma StepKept(t: Trace, e: Event)
    requires Kept(t)
    ensures Kept(Step(t, e))
  {
    match e
    case Offer(p, cost, now) => OfferedKept(t, p, cost, now);
    case Drain(cost, now) => DrainedKept(t, cost, now);
    case _ =>
      var u := Step(t, e);
      assert forall k :: 0 <= k < BANDS ==> BandKept(t, k) ==> BandKept(u, k);
  }

  /** A step of the trace is a step of the shaper. */
  lemma StepState(t: Trace, e: Event)
    requires Kept(t)
    ensures Shape(t) && Kept(Step(t, e))
    ensures var s := Step(t, e).s;
            match e
            case Reshape(kbps, now) => s == SetRate(t.s, kbps, now)
            case Offer(p, cost, now) => s == Send(t.s, p, cost, now)
            case OfferEnd => s == SendEnd(t.s)
            case Drain(cost, now) => s == Take(t.s, cost, now)
            case DrainEnd => s == TakeEnd(t.s)
            case Control(cost, now) => s == Charge(t.s, cost, now)
  {
    StepKept(t, e);
  }

  /** Strict priority: whatever starts, every band above its own is empty; and what
      starts is the packet offered, or the first of its band. */
  lemma StartsAreHighest(t: Trace, e: Event, b: nat, k: nat)
    requires Kept(t) && k < b < BANDS && Step(t, e).started[b] != t.started[b]
    ensures t.s.bands[k] == []
    ensures Step(t, e).started[b] == t.started[b] + [if e.Offer? then e.p else t.s.bands[b][0]]
  {
  }

  /** A packet sent directly, of whatever class, finds every band empty and nothing on
      its way out; so it overtakes nothing. */
  lemma DirectOvertakesNothing(t: Trace, p: Packet, cost: nat, now: int, b: nat)
    requires Kept(t) && b < BANDS && Step(t, Offer(p, cost, now)).started[b] != t.started[b]
    ensures b == BandOf(p.class_) && Empty(t.s) && t.s.direct == None && t.s.drained == None
    ensures t.accepted[b] == t.started[b]
    ensures Step(t, Offer(p, cost, now)).started[b] == t.started[b] + [p]
  {
    assert BandKept(t, b);
  }

  /** What a band's limit leaves beyond its room, in bytes, at the least of any rate. */
  const ROOM_HEADROOM := 43200

  /** What room buys: on a path whose shaper has room in a band, a packet of that band
      up to the headroom is sent or queued, never dropped. */
  lemma RoomIsNotDropped(s: Shaper, p: Packet, now: int)
    requires |s.bands| == |s.queued| == BANDS && s.rate > 0.0
    requires s.queued[BandOf(p.class_)] as real < RoomBytes(s.rate) && |p.payload| <= ROOM_HEADROOM
    ensures Fate(s, p, now) != Dropped
  {
  }

  /** And what having none means: the band's backlog is at least ten milliseconds of
      the rate, so a packet queued now waits that long for the band alone. */
  lemma NoRoomIsBacklog(s: Shaper, b: nat)
    requires |s.queued| == BANDS && b < BANDS && s.rate > 0.0 && !(s.queued[b] as real < RoomBytes(s.rate))
    ensures s.queued[b] as real >= s.rate * 0.01
  {
  }

  /** Within its limit a band stays within it, as long as the rate is not changed. */
  lemma LimitKept(t: Trace, e: Event, b: nat)
    requires Kept(t) && b < BANDS && (e.Reshape? ==> RateOf(e.kbps) == t.s.rate)
    requires t.s.queued[b] as real <= Limit(t.s.rate)
    ensures Step(t, e).s.queued[b] as real <= Limit(Step(t, e).s.rate) && Step(t, e).s.rate == t.s.rate
  {
    if e.Drain? && Takes(t.s, e.now) {
      assert SizeOf(t.s.bands[b]) >= 0;
    }
  }

  predicate AllEnabled(t: Trace, events: seq<Event>, max: nat)
    requires Shape(t)
    decreases |events|
  {
    events == [] || (Enabled(t, events[0], max) && AllEnabled(Step(t, events[0]), events[1..], max))
  }

  function Run(t: Trace, events: seq<Event>): (r: Trace)
    requires Shape(t)
    ensures Shape(r)
    decreases |events|
  {
    if events == [] then t else Run(Step(t, events[0]), events[1..])
  }

  /** Over every interleaving, per-band order and conservation hold. */
  lemma {:induction false} RunKept(t: Trace, events: seq<Event>, max: nat)
    requires Kept(t) && AllEnabled(t, events, max)
    ensures Kept(Run(t, events))
    decreases |events|
  {
    if events != [] {
      StepKept(t, events[0]);
      RunKept(Step(t, events[0]), events[1..], max);
    }
  }

  lemma {:induction false} RunJoin(t: Trace, events: seq<Event>, e: Event, max: nat)
    requires Shape(t) && AllEnabled(t, events, max) && Enabled(Run(t, events), e, max)
    ensures AllEnabled(t, events + [e], max) && Run(t, events + [e]) == Step(Run(t, events), e)
    decreases |events|
  {
    hide Step, Enabled;
    var all := events + [e];
    if events == [] {
      assert all[1..] == [];
      assert Run(Step(t, e), []) == Step(t, e);
    } else {
      assert all[1..] == events[1..] + [e];
      RunJoin(Step(t, events[0]), events[1..], e, max);
    }
  }

  /** One more event from a path never used: the run goes on, and its shaper takes the
      step. */
  lemma RunOn(events: seq<Event>, e: Event, max: nat)
    requires AllEnabled(BEGIN, events, max) && Enabled(Run(BEGIN, events), e, max)
    ensures AllEnabled(BEGIN, events + [e], max)
    ensures var s, z := Run(BEGIN, events).s, Run(BEGIN, events + [e]).s;
            match e
            case Reshape(kbps, now) => z == SetRate(s, kbps, now)
            case Offer(p, cost, now) => |s.bands| == |s.queued| == BANDS && z == Send(s, p, cost, now)
            case OfferEnd => z == SendEnd(s)
            case Drain(cost, now) => |s.bands| == |s.queued| == BANDS && z == Take(s, cost, now)
            case DrainEnd => z == TakeEnd(s)
            case Control(cost, now) => z == Charge(s, cost, now)
  {
    hide Enabled, Step, Kept;
    RunJoin(BEGIN, events, e, max);
    BeginKept();
    RunKept(BEGIN, events, max);
    StepState(Run(BEGIN, events), e);
  }

  lemma BeginKept()
    ensures Kept(BEGIN)
  {
    assert forall b :: 0 <= b < BANDS ==> BandKept(BEGIN, b);
  }

  predicate RateStays(t: Trace, events: seq<Event>)
    requires Shape(t)
  {
    forall e :: e in events && e.Reshape? ==> RateOf(e.kbps) == t.s.rate
  }

  lemma {:induction false} RunLimitKept(t: Trace, events: seq<Event>, max: nat, b: nat)
    requires Kept(t) && AllEnabled(t, events, max) && RateStays(t, events) && b < BANDS
    requires t.s.queued[b] as real <= Limit(t.s.rate)
    ensures Run(t, events).s.queued[b] as real <= Limit(t.s.rate)
    decreases |events|
  {
    if events != [] {
      LimitKept(t, events[0], b);
      StepKept(t, events[0]);
      RunLimitKept(Step(t, events[0]), events[1..], max, b);
    }
  }
}
