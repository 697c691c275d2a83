/** Where each transactional flow rides, and when it moves
    (internal/relay/transactional.go), on values. */
module Transactional {
  import opened CascadePlan
  import opened Collections
  import opened Ids

  const MOVE_HOLD := 2_000_000_000

  /** A flow, by its hash. */
  datatype Flow = Flow(hash: nat)

  datatype Riding = Riding(path: Path, lastSeen: int, heldUntil: int)

  datatype Table = Table(flows: map<Flow, Riding>, sweepAt: int)

  const EMPTY := Table(map[], 0)

  /** What an evaluation publishes for the data path. */
  datatype Rules = Rules(primary: Path, order: seq<Path>, idle: nat, maxFlows: nat)

  /** What the shapers answer for one packet: whether the flow's own path has room
      when that is asked, and which paths have room when they are all asked. Time
      passes between the two. */
  datatype Room = Room(own: bool, any: Path -> bool)

  /** Where a flow may ride: the primary, then every healthy path that is not too
      small, in the scheduler's ranking. */
  function Order(primary: Path, eligible: seq<Candidate>, best: real, g: Gates): (r: seq<Path>)
    ensures r != [] && r[0] == primary
  {
    [primary] + Others(primary, eligible, best, g)
  }

  function Others(primary: Path, eligible: seq<Candidate>, best: real, g: Gates): seq<Path> {
    if eligible == [] then []
    else if eligible[0].path == primary || !eligible[0].healthy || Undersized(eligible[0].shapedKbps, best, g)
    then Others(primary, eligible[1..], best, g)
    else [eligible[0].path] + Others(primary, eligible[1..], best, g)
  }

  function Sweep(t: Table, now: int, idle: nat): Table {
    if now < t.sweepAt then t
    else Table(map k | k in t.flows && now - t.flows[k].lastSeen <= idle :: t.flows[k], now + idle / 4)
  }

  /** The first place in the order with room, or the length of the order. */
  function WithRoom(order: seq<Path>, room: Path -> bool): (i: nat)
    ensures i <= |order| && (i < |order| ==> room(order[i]))
    ensures forall j :: 0 <= j < i ==> !room(order[j])
  {
    if order == [] || room(order[0]) then 0 else 1 + WithRoom(order[1..], room)
  }

  function Place(order: seq<Path>, p: Path): (i: nat)
    ensures i <= |order| && (i < |order| ==> order[i] == p)
    ensures i == |order| ==> p !in order
  {
    if order == [] || order[0] == p then 0 else 1 + Place(order[1..], p)
  }

  /** The flow is remembered, and is still the same conversation. */
  predicate Live(t: Table, flow: Flow, now: int, idle: nat) {
    flow in t.flows && now - t.flows[flow].lastSeen <= idle
  }

  /** Where a flow not remembered goes: the first path with room, or the primary. */
  function Fresh(order: seq<Path>, room: Path -> bool): Path
    requires order != []
  {
    if WithRoom(order, room) < |order| then order[WithRoom(order, room)] else order[0]
  }

  /** What becomes of a live flow at a packet: where it rides and until when it is
      held there. */
  function Ride(r: Riding, order: seq<Path>, now: int, room: Room): Riding
    requires order != []
  {
    var seen := r.(lastSeen := now);
    if r.path in order && (now < r.heldUntil || room.own) then seen
    else if WithRoom(order, room.any) == |order| && r.path in order then seen
    else Riding(Fresh(order, room.any), now, now + MOVE_HOLD)
  }

  datatype Placed = Placed(t: Table, path: Path)

  /** Places one transactional packet, with at least two paths to choose from. */
  function PlaceOn(t: Table, rules: Rules, now: int, flow: Flow, room: Room): Placed
    requires rules.order != []
  {
    var s := Sweep(t, now, rules.idle);
    if Live(s, flow, now, rules.idle) then
      var r := Ride(s.flows[flow], rules.order, now, room);
      Placed(s.(flows := s.flows[flow := r]), r.path)
    else
      var r := Riding(Fresh(rules.order, room.any), now, 0);
      if flow in s.flows || |s.flows| < rules.maxFlows
      then Placed(s.(flows := s.flows[flow := r]), r.path)
      else Placed(s, r.path)
  }

  /** The order's paths are distinct, and each but the primary is healthy and big
      enough. */
  lemma {:induction false} OrderIs(primary: Path, eligible: seq<Candidate>, best: real, g: Gates)
    requires forall i, j :: 0 <= i < j < |eligible| ==> eligible[i].path != eligible[j].path
    ensures Distinct(Order(primary, eligible, best, g))
    ensures forall p: Path :: p in Others(primary, eligible, best, g) ==>
              p != primary && exists i :: 0 <= i < |eligible| && eligible[i].path == p && eligible[i].healthy
                                          && !Undersized(eligible[i].shapedKbps, best, g)
  {
    assert Order(primary, eligible, best, g)[1..] == Others(primary, eligible, best, g);
    if eligible != [] {
      var rest := eligible[1..];
      OrderIs(primary, rest, best, g);
      assert Order(primary, rest, best, g)[1..] == Others(primary, rest, best, g);
      forall p: Path | p in Others(primary, rest, best, g)
        ensures p != eligible[0].path
                && exists i :: 0 <= i < |eligible| && eligible[i].path == p && eligible[i].healthy
                               && !Undersized(eligible[i].shapedKbps, best, g)
      {
        var i :| 0 <= i < |rest| && rest[i].path == p && rest[i].healthy && !Undersized(rest[i].shapedKbps, best, g);
        assert eligible[i + 1] == rest[i];
        assert eligible[0].path != eligible[i + 1].path;
      }
      if Others(primary, eligible, best, g) != Others(primary, rest, best, g) {
        assert Others(primary, eligible, best, g)[1..] == Others(primary, rest, best, g);
      }
    }
  }

  // ----- where a flow goes, by what the shapers answer

  /** Healthy, and not measured at too small a share of the best. */
  predicate WorthRiding(k: Candidate, best: real, g: Gates) {
    k.healthy && !(k.shapedKbps > 0.0 && best > 0.0 && k.shapedKbps * 100.0 < best * g.minSharePercent)
  }

  predicate HasWorth(eligible: seq<Candidate>, p: Path, best: real, g: Gates) {
    exists i :: 0 <= i < |eligible| && eligible[i].path == p && WorthRiding(eligible[i], best, g)
  }

  /** Two of them, the first ranked before the second. */
  predicate RankedSo(eligible: seq<Candidate>, p: Path, q: Path) {
    exists i, j :: 0 <= i < j < |eligible| && eligible[i].path == p && eligible[j].path == q
  }

  lemma HasWorthOn(eligible: seq<Candidate>, p: Path, best: real, g: Gates)
    requires eligible != []
    ensures HasWorth(eligible, p, best, g)
            <==> (eligible[0].path == p && WorthRiding(eligible[0], best, g)) || HasWorth(eligible[1..], p, best, g)
  {
    var rest := eligible[1..];
    if i :| 0 <= i < |rest| && rest[i].path == p && WorthRiding(rest[i], best, g) {
      assert eligible[i + 1].path == p && WorthRiding(eligible[i + 1], best, g);
    }
    if i :| 0 <= i < |eligible| && eligible[i].path == p && WorthRiding(eligible[i], best, g) {
      assert i > 0 ==> rest[i - 1].path == p && WorthRiding(rest[i - 1], best, g);
    }
  }

  lemma RankedOn(eligible: seq<Candidate>, p: Path, q: Path, best: real, g: Gates)
    requires eligible != []
    ensures RankedSo(eligible[1..], p, q) ==> RankedSo(eligible, p, q)
    ensures eligible[0].path == p && HasWorth(eligible[1..], q, best, g) ==> RankedSo(eligible, p, q)
  {
    var rest := eligible[1..];
    if i, j :| 0 <= i < j < |rest| && rest[i].path == p && rest[j].path == q {
      assert eligible[i + 1].path == p && eligible[j + 1].path == q;
    }
    if j :| 0 <= j < |rest| && rest[j].path == q && WorthRiding(rest[j], best, g) {
      assert eligible[j + 1].path == q;
    }
  }

  /** The list holds just the paths but the primary worth riding, in the ranking's order. */
  ghost predicate Rideable(r: seq<Path>, primary: Path, eligible: seq<Candidate>, best: real, g: Gates) {
    && (forall k :: 0 <= k < |r| ==> r[k] != primary && HasWorth(eligible, r[k], best, g))
    && (forall p: Path :: p != primary && HasWorth(eligible, p, best, g) ==> exists k :: 0 <= k < |r| && r[k] == p)
    && (forall k, m :: 0 <= k < m < |r| ==> RankedSo(eligible, r[k], r[m]))
  }

  lemma RideableOn(rest: seq<Path>, r: seq<Path>, primary: Path, eligible: seq<Candidate>, best: real, g: Gates)
    requires eligible != [] && Rideable(rest, primary, eligible[1..], best, g)
    requires r == if eligible[0].path != primary && WorthRiding(eligible[0], best, g) then [eligible[0].path] + rest else rest
    ensures Rideable(r, primary, eligible, best, g)
  {
    hide HasWorth, RankedSo, WorthRiding;
    var d := |r| - |rest|;
    assert forall k :: 0 <= k < |rest| ==> r[k + d] == rest[k];
    forall k | 0 <= k < |r| ensures r[k] != primary && HasWorth(eligible, r[k], best, g) {
      HasWorthOn(eligible, r[k], best, g);
      assert k >= d ==> r[k] == rest[k - d];
    }
    forall p: Path | p != primary && HasWorth(eligible, p, best, g) ensures exists k :: 0 <= k < |r| && r[k] == p {
      HasWorthOn(eligible, p, best, g);
      if eligible[0].path == p && WorthRiding(eligible[0], best, g) {
        assert r[0] == p;
      } else {
        var k :| 0 <= k < |rest| && rest[k] == p;
        assert r[k + d] == p;
      }
    }
    forall k, m | 0 <= k < m < |r| ensures RankedSo(eligible, r[k], r[m]) {
      assert r[m] == rest[m - d];
      RankedOn(eligible, r[k], r[m], best, g);
      assert k >= d ==> r[k] == rest[k - d];
    }
  }

  lemma {:induction false} OthersAre(primary: Path, eligible: seq<Candidate>, best: real, g: Gates)
    ensures Rideable(Others(primary, eligible, best, g), primary, eligible, best, g)
  {
    if eligible != [] {
      hide Rideable;
      OthersAre(primary, eligible[1..], best, g);
      RideableOn(Others(primary, eligible[1..], best, g), Others(primary, eligible, best, g), primary, eligible, best, g);
    }
  }

  /** Exactly which paths a flow may ride: the primary, first, and then every other that
      is healthy and worth it, in the order of the ranking. */
  lemma MayRideExactly(primary: Path, eligible: seq<Candidate>, best: real, g: Gates)
    ensures var order := Order(primary, eligible, best, g);
            order[0] == primary && Rideable(order[1..], primary, eligible, best, g)
  {
    hide Rideable;
    OthersAre(primary, eligible, best, g);
    assert Order(primary, eligible, best, g)[1..] == Others(primary, eligible, best, g);
  }

  /** The first path of the order with room, or the primary where none has. */
  predicate FirstWithRoom(order: seq<Path>, any: Path -> bool, p: Path)
    requires order != []
  {
    || (exists i :: 0 <= i < |order| && order[i] == p && any(p) && forall j :: 0 <= j < i ==> !any(order[j]))
    || (p == order[0] && forall j :: 0 <= j < |order| ==> !any(order[j]))
  }

  lemma FreshIsFirst(order: seq<Path>, any: Path -> bool)
    requires order != []
    ensures FirstWithRoom(order, any, Fresh(order, any))
  {
    var i := WithRoom(order, any);
    if i < |order| {
      assert order[i] == Fresh(order, any);
    }
  }

  /** A flow the table does not know, or has not seen within the timeout, goes to the first
      path with room; and is remembered there, if it was in the table or that is not
      full once swept. */
  lemma NewFlowSays(t: Table, rules: Rules, now: int, flow: Flow, room: Room)
    requires rules.order != [] && !(flow in t.flows && now - t.flows[flow].lastSeen <= rules.idle)
    ensures var z := PlaceOn(t, rules, now, flow, room);
            && FirstWithRoom(rules.order, room.any, z.path)
            && (flow in z.t.flows ==> z.t.flows[flow] == Riding(z.path, now, 0))
            && (flow in z.t.flows <==>
                  (flow in t.flows && now < t.sweepAt) || |Sweep(t, now, rules.idle).flows| < rules.maxFlows)
  {
    FreshIsFirst(rules.order, room.any);
  }

  /** A flow it does know stays while its path is in the order and it is held, or has room,
      or none has any; and else goes to the first with room, and is held two seconds. */
  lemma KnownFlowSays(t: Table, rules: Rules, now: int, flow: Flow, room: Room)
    requires rules.order != [] && flow in t.flows && now - t.flows[flow].lastSeen <= rules.idle
    ensures var z, r := PlaceOn(t, rules, now, flow, room), t.flows[flow];
            var none := forall j :: 0 <= j < |rules.order| ==> !room.any(rules.order[j]);
            var stays := r.path in rules.order && (now < r.heldUntil || room.own || none);
            && flow in z.t.flows
            && (stays ==> z.path == r.path && z.t.flows[flow] == Riding(r.path, now, r.heldUntil))
            && (!stays ==>
                  FirstWithRoom(rules.order, room.any, z.path) && z.t.flows[flow] == Riding(z.path, now, now + 2_000_000_000))
  {
    assert Live(Sweep(t, now, rules.idle), flow, now, rules.idle);
    FreshIsFirst(rules.order, room.any);
    var i := WithRoom(rules.order, room.any);
    assert i < |rules.order| ==> room.any(rules.order[i]);
  }

  /** Flows are forgotten when idle past the timeout, all at once, and not again for a
      quarter of it. */
  lemma SweepSays(t: Table, now: int, idle: nat, f: Flow)
    ensures var z := Sweep(t, now, idle);
            && (now < t.sweepAt ==> z == t)
            && (now >= t.sweepAt ==>
                  && z.sweepAt == now + idle / 4
                  && (f in z.flows <==> f in t.flows && now - t.flows[f].lastSeen <= idle)
                  && (f in z.flows ==> z.flows[f] == t.flows[f]))
  {
  }

  // ----- moves

  /** A live flow changes path only if its path has left the order, or has no room,
      the flow is not held, and the path it goes to has room; and it then goes to
      the first path with room, or back to the primary where none has. */
  lemma MovesOnlyWhenFull(t: Table, rules: Rules, now: int, flow: Flow, room: Room)
    requires rules.order != [] && Live(t, flow, now, rules.idle)
    ensures var z := PlaceOn(t, rules, now, flow, room);
            var p, held := t.flows[flow].path, t.flows[flow].heldUntil;
            && flow in z.t.flows && z.t.flows[flow].path == z.path && z.path in rules.order
            && (z.path != p ==> z.path == Fresh(rules.order, room.any))
            && (z.path != p ==>
                  || p !in rules.order
                  || (!room.own && now >= held && room.any(z.path) && z.t.flows[flow].heldUntil == now + MOVE_HOLD))
            && (p in rules.order && (room.own || now < held) ==> z.path == p)
            && (p in rules.order && (forall q: Path :: q in rules.order ==> !room.any(q)) ==> z.path == p)
  {
    assert Live(Sweep(t, now, rules.idle), flow, now, rules.idle);
  }

  // ----- runs

  /** How a packet's path was come by: with fewer than two paths it is the primary;
      a flow not remembered is placed, and then kept in the table or not; one that is
      remembered rode from, which may have left the order. */
  datatype How = Alone | Afresh(kept: bool) | Known(from: Path, left: bool)

  /** One packet of a flow as it went out. */
  datatype Sent = Sent(at: int, path: Path, primary: Path, how: How)

  /** The table, and the packets of each flow so far. */
  datatype Trace = Trace(t: Table, sent: map<Flow, seq<Sent>>, clock: int)

  const START := Trace(EMPTY, map[], 0)

  datatype Packet = Packet(rules: Rules, now: int, flow: Flow, room: Room)

  function SentOf(h: Trace, f: Flow): seq<Sent> {
    if f in h.sent then h.sent[f] else []
  }

  /** With fewer than two paths nothing is looked up or remembered. */
  function TableAfter(t: Table, k: Packet): Table {
    if |k.rules.order| < 2 then t else PlaceOn(t, k.rules, k.now, k.flow, k.room).t
  }

  function Sends(t: Table, k: Packet): Sent {
    if |k.rules.order| < 2 then Sent(k.now, k.rules.primary, k.rules.primary, Alone)
    else
      var z := PlaceOn(t, k.rules, k.now, k.flow, k.room);
      Sent(k.now, z.path, k.rules.primary,
           if Live(t, k.flow, k.now, k.rules.idle)
           then Known(t.flows[k.flow].path, t.flows[k.flow].path !in k.rules.order)
           else Afresh(k.flow in z.t.flows))
  }

  function Step(h: Trace, k: Packet): Trace {
    Trace(TableAfter(h.t, k), h.sent[k.flow := SentOf(h, k.flow) + [Sends(h.t, k)]], k.now)
  }

  function Run(h: Trace, ks: seq<Packet>): Trace
    decreases |ks|
  {
    if ks == [] then h else Run(Step(h, ks[0]), ks[1..])
  }

  /** The table moved the flow. */
  predicate Moved(s: Sent) {
    s.how.Known? && s.path != s.how.from
  }

  /** The packet the table remembers the flow by, if it does: the last that was placed. */
  function Last(sents: seq<Sent>): Option<Sent> {
    if sents == [] then None
    else
      var s := sents[|sents| - 1];
      match s.how
      case Alone => Last(sents[..|sents| - 1])
      case Afresh(kept) => if kept then Some(s) else None
      case Known(_, _) => Some(s)
  }

  /** No packet after i and up to j was placed afresh. */
  predicate OneTalk(sents: seq<Sent>, i: nat, j: nat)
    requires j < |sents|
  {
    forall m :: i < m <= j ==> !sents[m].how.Afresh?
  }

  /** Moves are rare: each at least the hold after every other before it in the same
      conversation, unless the flow's path had left the order. */
  predicate Rare(sents: seq<Sent>) {
    forall i, j :: 0 <= i < j < |sents| && Moved(sents[i]) && Moved(sents[j]) && OneTalk(sents, i, j) ==>
      sents[j].how.left || sents[j].at - sents[i].at >= MOVE_HOLD
  }

  predicate HeldSince(r: Riding, sents: seq<Sent>) {
    forall i :: 0 <= i < |sents| && Moved(sents[i]) && OneTalk(sents, i, |sents| - 1) ==>
      r.heldUntil >= sents[i].at + MOVE_HOLD
  }

  predicate Remembered(r: Riding, sents: seq<Sent>) {
    Last(sents).Some? && Last(sents).value.path == r.path && Last(sents).value.at == r.lastSeen
  }

  /** Every packet of a remembered flow found it where the last one placed left it. */
  predicate Linked(sents: seq<Sent>) {
    forall i :: 0 <= i < |sents| && sents[i].how.Known? ==>
      Last(sents[..i]).Some? && Last(sents[..i]).value.path == sents[i].how.from
  }

  predicate Past(sents: seq<Sent>, clock: int) {
    forall i :: 0 <= i < |sents| ==> sents[i].at <= clock
  }

  predicate AtPrimary(sents: seq<Sent>) {
    forall i :: 0 <= i < |sents| && sents[i].how.Alone? ==> sents[i].path == sents[i].primary
  }

  predicate FlowGood(h: Trace, f: Flow) {
    var sents := SentOf(h, f);
    && Rare(sents) && Past(sents, h.clock) && Linked(sents) && AtPrimary(sents)
    && (f in h.t.flows ==> HeldSince(h.t.flows[f], sents) && Remembered(h.t.flows[f], sents))
  }

  ghost predicate Good(h: Trace) {
    forall f: Flow :: FlowGood(h, f)
  }

  /** Only the packet's own flow is touched; others stay as they were or are
      forgotten. */
  lemma OthersStay(t: Table, k: Packet, f: Flow)
    requires f != k.flow
    ensures var z := TableAfter(t, k);
            f in z.flows ==> f in t.flows && z.flows[f] == t.flows[f]
  {
  }

  lemma OtherGood(h: Trace, k: Packet, f: Flow)
    requires FlowGood(h, f) && h.clock <= k.now && f != k.flow
    ensures FlowGood(Step(h, k), f)
  {
    hide TableAfter, Sends, Rare, Linked, HeldSince, Remembered;
    OthersStay(h.t, k, f);
  }

  /** What the table keeps of the packet's own flow: whether the packet went out alone,
      was placed afresh, or found the flow remembered. */
  lemma OwnStays(t: Table, k: Packet)
    ensures Sends(t, k).at == k.now
    ensures var z, s := TableAfter(t, k), Sends(t, k);
            match s.how
            case Alone => z == t && s.path == s.primary
            case Afresh(kept) => (k.flow in z.flows <==> kept) && (kept ==> z.flows[k.flow] == Riding(s.path, s.at, 0))
            case Known(from, left) =>
              && k.flow in t.flows && from == t.flows[k.flow].path && k.flow in z.flows
              && z.flows[k.flow].path == s.path && z.flows[k.flow].lastSeen == s.at
              && (z.flows[k.flow].heldUntil == s.at + MOVE_HOLD
                  || (!Moved(s) && z.flows[k.flow].heldUntil == t.flows[k.flow].heldUntil))
              && (Moved(s) && !left ==> t.flows[k.flow].heldUntil <= s.at)
  {
    if |k.rules.order| >= 2 && Live(t, k.flow, k.now, k.rules.idle) {
      assert Live(Sweep(t, k.now, k.rules.idle), k.flow, k.now, k.rules.idle);
    }
  }

  lemma LastOn(sents: seq<Sent>, s: Sent)
    ensures Last(sents + [s]) == match s.how
                                 case Alone => Last(sents)
                                 case Afresh(kept) => if kept then Some(s) else None
                                 case Known(_, _) => Some(s)
  {
    assert (sents + [s])[..|sents|] == sents;
  }

  lemma LinkedOn(sents: seq<Sent>, s: Sent)
    requires Linked(sents)
    requires s.how.Known? ==> Last(sents).Some? && Last(sents).value.path == s.how.from
    ensures Linked(sents + [s])
  {
    var after := sents + [s];
    forall i | 0 <= i < |after| && after[i].how.Known?
      ensures Last(after[..i]).Some? && Last(after[..i]).value.path == after[i].how.from
    {
      assert after[..i] == sents[..i];
      assert i == |sents| ==> sents[..i] == sents;
    }
  }

  /** One conversation of the longer history, cut to the shorter. */
  lemma OneTalkBefore(sents: seq<Sent>, s: Sent, i: nat, j: nat)
    requires i <= j < |sents|
    ensures OneTalk(sents + [s], i, j) <==> OneTalk(sents, i, j)
    ensures OneTalk(sents + [s], i, |sents|) <==> OneTalk(sents, i, |sents| - 1) && !s.how.Afresh?
  {
    var after := sents + [s];
    forall m | i < m < |sents| ensures after[m] == sents[m] {
    }
    if OneTalk(after, i, |sents|) {
      assert !after[|sents|].how.Afresh?;
      forall m | i < m <= |sents| - 1 ensures !sents[m].how.Afresh? {
        assert !after[m].how.Afresh?;
      }
    }
  }

  lemma RareOn(sents: seq<Sent>, s: Sent, r: Riding)
    requires Rare(sents)
    requires Moved(s) && !s.how.left ==> HeldSince(r, sents) && r.heldUntil <= s.at
    ensures Rare(sents + [s])
  {
    var after := sents + [s];
    forall i, j | 0 <= i < j < |after| && Moved(after[i]) && Moved(after[j]) && OneTalk(after, i, j)
      ensures after[j].how.left || after[j].at - after[i].at >= MOVE_HOLD
    {
      OneTalkBefore(sents, s, i, if j < |sents| then j else i);
    }
  }

  lemma HeldOn(sents: seq<Sent>, s: Sent, r: Riding, z: Riding)
    requires Past(sents, s.at)
    requires match s.how
             case Alone => z == r && HeldSince(r, sents)
             case Afresh(kept) => true
             case Known(from, left) =>
               HeldSince(r, sents) && (z.heldUntil == s.at + MOVE_HOLD || (!Moved(s) && z.heldUntil == r.heldUntil))
    ensures HeldSince(z, sents + [s])
  {
    var after := sents + [s];
    forall i | 0 <= i < |after| && Moved(after[i]) && OneTalk(after, i, |after| - 1)
      ensures z.heldUntil >= after[i].at + MOVE_HOLD
    {
      if i < |sents| {
        OneTalkBefore(sents, s, i, i);
        assert after[i] == sents[i];
      }
    }
  }

  lemma OwnGood(h: Trace, k: Packet)
    requires FlowGood(h, k.flow) && h.clock <= k.now
    ensures FlowGood(Step(h, k), k.flow)
  {
    var sents, s := SentOf(h, k.flow), Sends(h.t, k);
    var z := TableAfter(h.t, k);
    hide Sends, TableAfter, Rare, Linked, HeldSince, Last;
    OwnStays(h.t, k);
    LastOn(sents, s);
    LinkedOn(sents, s);
    var r := if k.flow in h.t.flows then h.t.flows[k.flow] else Riding(s.path, 0, 0);
    RareOn(sents, s, r);
    if k.flow in z.flows {
      HeldOn(sents, s, r, z.flows[k.flow]);
    }
  }

  lemma StepGood(h: Trace, k: Packet)
    requires Good(h) && h.clock <= k.now
    ensures Good(Step(h, k))
  {
    hide FlowGood, Step;
    forall f: Flow ensures FlowGood(Step(h, k), f) {
      assert FlowGood(h, f);
      if f == k.flow {
        OwnGood(h, k);
      } else {
        OtherGood(h, k, f);
      }
    }
  }

  predicate InTime(clock: int, ks: seq<Packet>)
    decreases |ks|
  {
    ks == [] || (clock <= ks[0].now && InTime(ks[0].now, ks[1..]))
  }

  lemma {:induction false} RunGood(h: Trace, ks: seq<Packet>)
    requires Good(h) && InTime(h.clock, ks)
    ensures Good(Run(h, ks))
    decreases |ks|
  {
    if ks != [] {
      StepGood(h, ks[0]);
      RunGood(Step(h, ks[0]), ks[1..]);
    }
  }

  /** In every run, two moves of one conversation are at least two seconds apart,
      unless at the later one the flow's path had left the order. */
  lemma MovesAreRare(ks: seq<Packet>, f: Flow, i: nat, j: nat)
    requires InTime(0, ks)
    requires var sents := SentOf(Run(START, ks), f);
             i < j < |sents| && Moved(sents[i]) && Moved(sents[j]) && OneTalk(sents, i, j)
    ensures var sents := SentOf(Run(START, ks), f);
            sents[j].how.left || sents[j].at - sents[i].at >= MOVE_HOLD
  {
    RunGood(START, ks);
    assert FlowGood(Run(START, ks), f);
  }

  /** Exactly when two packets of a flow, one after the other, ride different paths,
      where the later is not placed afresh: the table moved it between two that were
      placed; or the later found fewer than two paths and goes to the primary, which the
      earlier did not; or the earlier went so, to a primary that is not where the later
      finds the flow or takes it. */
  lemma RidesChangeExactly(ks: seq<Packet>, f: Flow, i: nat)
    requires InTime(0, ks) && 0 < i < |SentOf(Run(START, ks), f)|
    requires !SentOf(Run(START, ks), f)[i].how.Afresh?
    ensures var a, b := SentOf(Run(START, ks), f)[i - 1], SentOf(Run(START, ks), f)[i];
            b.path != a.path
            <==> if b.how.Alone? then b.primary != a.path
                 else if a.how.Alone? then (if Moved(b) then b.path else b.how.from) != a.primary
                 else Moved(b)
  {
    var sents := SentOf(Run(START, ks), f);
    RunGood(START, ks);
    assert FlowGood(Run(START, ks), f);
    assert sents[..i][..i - 1] == sents[..i - 1] && sents[..i][i - 1] == sents[i - 1];
  }

  /** So while a conversation is remembered and always has two paths to choose from, the
      path its packets go out of changes at most once in two seconds, unless the path it
      rode has left the order. */
  lemma RidesAreSteady(ks: seq<Packet>, f: Flow, i: nat, j: nat)
    requires InTime(0, ks) && 0 < i < j < |SentOf(Run(START, ks), f)|
    requires var sents := SentOf(Run(START, ks), f);
             && (forall m :: i - 1 < m <= j ==> sents[m].how.Known?) && !sents[i - 1].how.Alone?
             && sents[i].path != sents[i - 1].path && sents[j].path != sents[j - 1].path
    ensures var sents := SentOf(Run(START, ks), f);
            sents[j].how.left || sents[j].at - sents[i].at >= MOVE_HOLD
  {
    RidesChangeExactly(ks, f, i);
    RidesChangeExactly(ks, f, j);
    MovesAreRare(ks, f, i, j);
  }

  const BOTH := Rules(Path(0), [Path(0), Path(1)], 60_000_000_000, 512)
  const LONE := Rules(Path(0), [Path(0)], 60_000_000_000, 512)

  lemma RunOfThree(h: Trace, a: Packet, b: Packet, c: Packet)
    ensures Run(h, [a, b, c]) == Step(Step(Step(h, a), b), c)
  {
    hide Step;
    var h1, h2 := Step(h, a), Step(Step(h, a), b);
    assert [a, b, c][1..] == [b, c] && [b, c][1..] == [c] && [c][1..] == [];
    assert Run(h, [a, b, c]) == Run(h1, [b, c]);
    assert Run(h1, [b, c]) == Run(h2, [c]);
    assert Run(h2, [c]) == Run(Step(h2, c), []);
  }

  lemma PlacedOnOne(f: Flow, room: Room)
    requires room.own && !room.any(Path(0)) && room.any(Path(1))
    ensures var z := PlaceOn(EMPTY, BOTH, 0, f, room);
            z.path == Path(1) && z.t.flows == map[f := Riding(Path(1), 0, 0)]
  {
    assert BOTH.order[1..] == [Path(1)];
    assert WithRoom(BOTH.order, room.any) == 1;
  }

  lemma FoundOnOne(t: Table, f: Flow, room: Room)
    requires room.own && t.flows == map[f := Riding(Path(1), 0, 0)]
    ensures PlaceOn(t, BOTH, 40_000_000, f, room).path == Path(1)
  {
    assert BOTH.order[1] == Path(1);
    assert Live(Sweep(t, 40_000_000, BOTH.idle), f, 40_000_000, BOTH.idle);
  }

  /** A conversation can be on two paths by turns well inside the hold: placed on path 1
      while path 0 is full, then sent on path 0, the primary, while that is all there
      is, then found on path 1 again - and the table never moved it. */
  lemma RidesByTurns(f: Flow, room: Room)
    requires room.own && !room.any(Path(0)) && room.any(Path(1))
    ensures var sents := SentOf(Run(START, [Packet(BOTH, 0, f, room), Packet(LONE, 20_000_000, f, room),
                                            Packet(BOTH, 40_000_000, f, room)]), f);
            && |sents| == 3 && sents[0].path == Path(1) && sents[1].path == Path(0) && sents[2].path == Path(1)
            && !Moved(sents[0]) && !Moved(sents[1]) && !Moved(sents[2])
  {
    var k0, k1, k2 := Packet(BOTH, 0, f, room), Packet(LONE, 20_000_000, f, room), Packet(BOTH, 40_000_000, f, room);
    var h0, h1 := Step(START, k0), Step(Step(START, k0), k1);
    RunOfThree(START, k0, k1, k2);
    PlacedOnOne(f, room);
    assert h0.t.flows == map[f := Riding(Path(1), 0, 0)];
    FoundOnOne(h0.t, f, room);
  }

  // ----- when a flow is remembered

  /** A flow kept and not in the table has been idle past the timeout, and each packet
      was placed afresh for that or because none was kept before it. */
  predicate FlowIdle(h: Trace, f: Flow, idle: nat) {
    var sents := SentOf(h, f);
    && (f !in h.t.flows && Last(sents).Some? ==> h.clock - Last(sents).value.at > idle)
    && forall i :: 0 <= i < |sents| && !sents[i].how.Alone? ==>
         (sents[i].how.Afresh? <==> Last(sents[..i]).None? || sents[i].at - Last(sents[..i]).value.at > idle)
  }

  lemma OtherIdle(h: Trace, k: Packet, f: Flow)
    requires FlowGood(h, f) && FlowIdle(h, f, k.rules.idle) && h.clock <= k.now && f != k.flow
    ensures FlowIdle(Step(h, k), f, k.rules.idle)
  {
    var sents := SentOf(h, f);
    assert SentOf(Step(h, k), f) == sents;
    hide Linked, Rare, Last;
  }

  lemma OwnIdle(h: Trace, k: Packet)
    requires FlowGood(h, k.flow) && FlowIdle(h, k.flow, k.rules.idle) && h.clock <= k.now
    ensures FlowIdle(Step(h, k), k.flow, k.rules.idle)
  {
    var sents, s := SentOf(h, k.flow), Sends(h.t, k);
    var after := sents + [s];
    OwnStays(h.t, k);
    LastOn(sents, s);
    assert s.how.Afresh? ==> !Live(h.t, k.flow, k.now, k.rules.idle);
    forall i | 0 <= i < |after| && !after[i].how.Alone?
      ensures after[i].how.Afresh? <==> Last(after[..i]).None? || after[i].at - Last(after[..i]).value.at > k.rules.idle
    {
      assert after[..i] == sents[..i];
      assert i == |sents| ==> sents[..i] == sents;
    }
  }

  ghost predicate AllIdle(h: Trace, idle: nat) {
    forall f: Flow :: FlowIdle(h, f, idle)
  }

  lemma {:induction false} RunIdle(h: Trace, ks: seq<Packet>, idle: nat)
    requires Good(h) && AllIdle(h, idle) && InTime(h.clock, ks)
    requires forall i :: 0 <= i < |ks| ==> ks[i].rules.idle == idle
    ensures AllIdle(Run(h, ks), idle)
    decreases |ks|
  {
    hide FlowGood, FlowIdle;
    if ks != [] {
      var k := ks[0];
      assert Step(h, k).clock == k.now;
      hide Step;
      forall f: Flow ensures FlowIdle(Step(h, k), f, idle) {
        assert FlowGood(h, f) && FlowIdle(h, f, idle);
        if f == k.flow {
          OwnIdle(h, k);
        } else {
          OtherIdle(h, k, f);
        }
      }
      StepGood(h, k);
      RunIdle(Step(h, k), ks[1..], idle);
    }
  }

  /** At one timeout, exactly which of the packets that are placed are placed afresh:
      those of a flow none of whose packets was kept by the table before, or that has
      been idle past the timeout since the last that was. */
  lemma AfreshExactly(ks: seq<Packet>, f: Flow, i: nat, idle: nat)
    requires InTime(0, ks) && forall m :: 0 <= m < |ks| ==> ks[m].rules.idle == idle
    requires i < |SentOf(Run(START, ks), f)| && !SentOf(Run(START, ks), f)[i].how.Alone?
    ensures var sents := SentOf(Run(START, ks), f);
            sents[i].how.Afresh? <==> Last(sents[..i]).None? || sents[i].at - Last(sents[..i]).value.at > idle
  {
    RunIdle(START, ks, idle);
    assert FlowIdle(Run(START, ks), f, idle);
  }

  // ----- the table stays bounded

  lemma SweptSmaller(t: Table, now: int, idle: nat)
    ensures |Sweep(t, now, idle).flows| <= |t.flows|
  {
    FewerEntries(Sweep(t, now, idle).flows, t.flows);
  }

  lemma StepBounded(h: Trace, k: Packet, max: nat)
    requires |h.t.flows| <= max && k.rules.maxFlows <= max
    ensures |Step(h, k).t.flows| <= max
  {
    hide Sends;
    if |k.rules.order| >= 2 {
      var s := Sweep(h.t, k.now, k.rules.idle);
      SweptSmaller(h.t, k.now, k.rules.idle);
      var z := PlaceOn(h.t, k.rules, k.now, k.flow, k.room).t;
      if k.flow in z.flows {
        OneAdded(s.flows, k.flow, z.flows[k.flow]);
      }
    }
  }

  /** In every run at one limit, the table never exceeds it. */
  lemma {:induction false} RunBounded(h: Trace, ks: seq<Packet>, max: nat)
    requires |h.t.flows| <= max && forall i :: 0 <= i < |ks| ==> ks[i].rules.maxFlows <= max
    ensures |Run(h, ks).t.flows| <= max
    decreases |ks|
  {
    if ks != [] {
      StepBounded(h, ks[0], max);
      RunBounded(Step(h, ks[0]), ks[1..], max);
    }
  }
}
