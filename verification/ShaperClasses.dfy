/** The shaper by the classes of packets, in the numbers of the source: class 1 is the
    call's, class 3 transactional, and every other, class 2 among them, bulk. */
module ShaperClasses {
  import opened Bytes
  import opened Collections
  import opened Shaper

  /** A packet stands in the band of its class: 0, 1 and 2 for class 1, 3 and the rest. */
  predicate InBand(p: Packet, b: nat) {
    (b == 0 <==> p.class_ == 1) && (b == 1 <==> p.class_ == 3)
  }

  predicate AllInBand(ps: seq<Packet>, b: nat) {
    forall i :: 0 <= i < |ps| ==> InBand(ps[i], b)
  }

  /** Everything accepted, so everything queued and started, by its class. */
  predicate Classed(t: Trace)
    requires Shape(t)
  {
    AllInBand(t.accepted[0], 0) && AllInBand(t.accepted[1], 1) && AllInBand(t.accepted[2], 2)
  }

  lemma StepClassed(t: Trace, e: Event)
    requires Shape(t) && Classed(t)
    ensures Classed(Step(t, e))
  {
  }

  lemma {:induction false} RunClassed(t: Trace, events: seq<Event>)
    requires Shape(t) && Classed(t)
    ensures Classed(Run(t, events))
    decreases |events|
  {
    if events != [] {
      StepClassed(t, events[0]);
      hide Step, Classed;
      RunClassed(Step(t, events[0]), events[1..]);
    }
  }

  /** What is queued and what has started, by class too. */
  lemma QueuedAreClassed(t: Trace, b: nat)
    requires Kept(t) && Classed(t) && b < 3
    ensures AllInBand(t.s.bands[b], b) && AllInBand(t.started[b], b)
  {
    assert BandKept(t, b);
    var all, n := t.accepted[b], |t.started[b]|;
    assert AllInBand(all, b);
    assert forall i :: 0 <= i < |t.started[b]| ==> t.started[b][i] == all[i];
    assert forall i :: 0 <= i < |t.s.bands[b]| ==> t.s.bands[b][i] == all[n + i];
  }

  /** The packet starts at this step. */
  predicate Starts(t: Trace, e: Event, p: Packet)
    requires Shape(t)
  {
    var z := Step(t, e).started;
    z[0] == t.started[0] + [p] || z[1] == t.started[1] + [p] || z[2] == t.started[2] + [p]
  }

  predicate Waits(t: Trace, q: Packet)
    requires Shape(t)
  {
    q in t.s.bands[0] || q in t.s.bands[1] || q in t.s.bands[2]
  }

  /** The call first, in every run: nothing but the call's starts while a packet of the
      call waits, and bulk, of class 2 or of none known, starts only when nothing of
      class 1 or 3 waits. */
  lemma CallFirst(events: seq<Event>, e: Event, max: nat, p: Packet, q: Packet)
    requires AllEnabled(BEGIN, events, max)
    requires Starts(Run(BEGIN, events), e, p) && Waits(Run(BEGIN, events), q)
    ensures q.class_ == 1 ==> p.class_ == 1
    ensures q.class_ == 3 ==> p.class_ == 1 || p.class_ == 3
  {
    var t := Run(BEGIN, events);
    BeginKept();
    RunKept(BEGIN, events, max);
    RunClassed(BEGIN, events);
    StartedInBand(t, e, p, q);
  }

  lemma StartedInBand(t: Trace, e: Event, p: Packet, q: Packet)
    requires Kept(t) && Classed(t) && Starts(t, e, p) && Waits(t, q)
    ensures q.class_ == 1 ==> p.class_ == 1
    ensures q.class_ == 3 ==> p.class_ == 1 || p.class_ == 3
  {
    var z := Step(t, e);
    StepKept(t, e);
    StepClassed(t, e);
    var b: nat :| b < 3 && z.started[b] == t.started[b] + [p];
    QueuedAreClassed(z, b);
    assert z.started[b][|t.started[b]|] == p;
    QueuedAreClassed(t, 0);
    QueuedAreClassed(t, 1);
    QueuedAreClassed(t, 2);
    assert z.started[b] != t.started[b];
    forall k: nat | k < b ensures t.s.bands[k] == [] {
      StartsAreHighest(t, e, b, k);
    }
  }

  // ----- backlogs, and what becomes of a packet

  datatype Share = Call | Transactional | Bulk

  function ShareOf(p: Packet): Share {
    match p.class_
    case 1 => Call
    case 3 => Transactional
    case _ => Bulk
  }

  /** The bytes of one share among packets. */
  function BytesIn(ps: seq<Packet>, share: Share): nat {
    if ps == [] then 0 else (if ShareOf(ps[0]) == share then |ps[0].payload| else 0) + BytesIn(ps[1..], share)
  }

  /** Its bytes waiting, in whatever band. */
  function Backlog(bands: seq<seq<Packet>>, share: Share): nat
    requires |bands| == 3
  {
    BytesIn(bands[0], share) + BytesIn(bands[1], share) + BytesIn(bands[2], share)
  }

  lemma {:induction false} BytesOfBand(ps: seq<Packet>, b: nat, share: Share)
    requires b < 3 && AllInBand(ps, b)
    ensures BytesIn(ps, share) == if share == (if b == 0 then Call else if b == 1 then Transactional else Bulk) then SizeOf(ps) else 0
  {
    if ps != [] {
      assert InBand(ps[0], b);
      assert AllInBand(ps[1..], b) by { assert forall i :: 0 <= i < |ps| - 1 ==> ps[1..][i] == ps[i + 1]; }
      BytesOfBand(ps[1..], b, share);
    }
  }

  /** The three counters are the backlogs of the three shares. */
  lemma CountersAreBacklogs(t: Trace)
    requires Kept(t) && Classed(t)
    ensures t.s.queued[0] == Backlog(t.s.bands, Call)
    ensures t.s.queued[1] == Backlog(t.s.bands, Transactional)
    ensures t.s.queued[2] == Backlog(t.s.bands, Bulk)
  {
    forall b: nat, share: Share | b < 3
      ensures BytesIn(t.s.bands[b], share)
              == if share == (if b == 0 then Call else if b == 1 then Transactional else Bulk) then t.s.queued[b] else 0
    {
      QueuedAreClassed(t, b);
      BytesOfBand(t.s.bands[b], b, share);
      assert BandKept(t, b);
    }
  }

  /** The tokens after time has passed: what the rate gives, up to ten milliseconds of it
      or 3000 bytes. */
  function TokensAt(s: Shaper, now: int): real {
    var t := if now > s.at then s.tokens + s.rate * ((now - s.at) as real / 1_000_000_000.0) else s.tokens;
    var deep := if s.rate / 100.0 > 3000.0 then s.rate / 100.0 else 3000.0;
    if t > deep then deep else t
  }

  /** How much of a share may wait: a tenth of a second of the rate or 48000 bytes, and
      four mebibytes on a path not shaped. */
  function MostWaiting(rate: real): real {
    if rate == 0.0 then 4_194_304.0 else if rate / 10.0 > 48000.0 then rate / 10.0 else 48000.0
  }

  /** What becomes of a packet: sent at once if and only if nothing waits, nothing is on
      its way out and the path is not shaped or its tokens are not overspent; else
      dropped if and only if its share would wait beyond the most. */
  lemma FateSays(t: Trace, p: Packet, now: int)
    requires Kept(t) && Classed(t)
    ensures var s := t.s;
            var quiet := s.bands[0] == s.bands[1] == s.bands[2] == [] && s.direct == None && s.drained == None;
            && (Fate(s, p, now) == Direct <==> quiet && (s.rate == 0.0 || TokensAt(s, now) >= 0.0))
            && (Fate(s, p, now) == Dropped
                <==> !(quiet && (s.rate == 0.0 || TokensAt(s, now) >= 0.0))
                     && (Backlog(s.bands, ShareOf(p)) + |p.payload|) as real > MostWaiting(s.rate))
  {
    CountersAreBacklogs(t);
    RefillSays(t.s, now);
  }

  lemma RefillSays(s: Shaper, now: int)
    ensures Refill(s, now).tokens == TokensAt(s, now) && Refill(s, now).at == now
  {
  }

  /** What an offer does to the tokens, and what the end of its sending takes. */
  lemma OfferTokensSay(t: Trace, p: Packet, cost: nat, now: int)
    requires Kept(t)
    ensures var s, z := t.s, Send(t.s, p, cost, now);
            var quiet := s.bands[0] == s.bands[1] == s.bands[2] == [] && s.direct == None && s.drained == None;
            && (quiet && s.rate > 0.0 ==> z.tokens == TokensAt(s, now) && z.at == now)
            && (!quiet || s.rate == 0.0 ==> z.tokens == s.tokens && z.at == s.at)
            && (Fate(s, p, now) == Direct ==> z.direct == Some(cost) && z.bands == s.bands && z.queued == s.queued)
            && (Fate(s, p, now) == Dropped ==> z.direct == s.direct && z.bands == s.bands && z.dropped == s.dropped + 1)
            && SendEnd(z) == match z.direct
                             case None => z
                             case Some(n) => z.(direct := None, tokens := if z.rate > 0.0 then z.tokens - n as real else z.tokens)
  {
    RefillSays(t.s, now);
  }

  /** The drain starts the first packet of the first share that waits, if and only if the
      path is not shaped or its tokens are not overspent. */
  lemma DrainSays(t: Trace, cost: nat, now: int)
    requires Kept(t) && Classed(t) && t.s.drained == None
    ensures var s, z := t.s, Take(t.s, cost, now);
            var waits := s.bands[0] != [] || s.bands[1] != [] || s.bands[2] != [];
            var b := if s.bands[0] != [] then 0 else if s.bands[1] != [] then 1 else 2;
            && (waits && s.rate > 0.0 ==> z.tokens == TokensAt(s, now) && z.at == now)
            && (!waits ==> z == s)
            && (z.drained.Some? <==> waits && (s.rate == 0.0 || TokensAt(s, now) >= 0.0))
            && (z.drained.Some? ==>
                  z.drained == Some(cost) && z.bands == s.bands[b := s.bands[b][1..]]
                  && z.queued == s.queued[b := s.queued[b] - |s.bands[b][0].payload|])
            && TakeEnd(z) == match z.drained
                             case None => z
                             case Some(n) => z.(drained := None, tokens := if z.rate > 0.0 then z.tokens - n as real else z.tokens)
  {
    RefillSays(t.s, now);
  }

  /** Control traffic is charged on a shaped path. */
  lemma ChargeSays(s: Shaper, cost: nat, now: int)
    ensures Charge(s, cost, now) == if s.rate == 0.0 then s else s.(tokens := TokensAt(s, now) - cost as real, at := now)
  {
    RefillSays(s, now);
  }

  /** A rate is an eighth of a thousand times the kilobits, or none; a path not shaped
      before starts from nothing, and a shaped one has its drain. */
  lemma SetRateSays(s: Shaper, kbps: real, now: int)
    requires s.rate >= 0.0 && (s.rate > 0.0 ==> s.running)
    ensures var z := SetRate(s, kbps, now);
            && z.rate == (if kbps > 0.0 then kbps * 125.0 else 0.0)
            && (s.rate == 0.0 && kbps > 0.0 ==> z.tokens == 0.0 && z.at == now)
            && (s.rate > 0.0 || kbps <= 0.0 ==> z.tokens == s.tokens && z.at == s.at)
            && z.running == (s.running || kbps > 0.0)
            && z == s.(rate := z.rate, tokens := z.tokens, at := z.at, running := z.running)
  {
  }

  /** So in every run. */
  lemma RunBacklogs(events: seq<Event>, max: nat)
    requires AllEnabled(BEGIN, events, max)
    ensures var t := Run(BEGIN, events);
            && Kept(t) && Classed(t)
            && t.s.queued[1] == Backlog(t.s.bands, Transactional) && t.s.queued[2] == Backlog(t.s.bands, Bulk)
  {
    BeginKept();
    RunKept(BEGIN, events, max);
    RunClassed(BEGIN, events);
    CountersAreBacklogs(Run(BEGIN, events));
  }

  /** Room is a backlog under ten milliseconds of the rate, or 3000 bytes. */
  predicate HasRoom(rate: real, backlog: nat) {
    rate == 0.0 || backlog as real < 3000.0 || backlog as real < rate / 100.0
  }
}
