/** A shaped path sends no faster than its rate: over any stretch at one rate, the
    packets started cost at most the bucket's depth, what the rate gives in the
    time, and two packets more - one sent directly and one drained, started on
    tokens the other has not yet been charged for. */
module ShaperRate {
  import opened Collections
  import opened Shaper

  /** What the starts from i up to j cost. */
  function Spent(starts: seq<Start>, i: nat, j: nat): nat
    requires j <= |starts|
  {
    if j <= i then 0 else Spent(starts, i, j - 1) + starts[j - 1].cost
  }

  lemma {:induction false} SpentSame(starts: seq<Start>, x: Start, i: nat, j: nat)
    requires j <= |starts|
    ensures Spent(starts + [x], i, j) == Spent(starts, i, j)
  {
    if j > i {
      SpentSame(starts, x, i, j - 1);
    }
  }

  function CostOf(o: Option<nat>): nat {
    match o
    case None => 0
    case Some(cost) => cost
  }

  /** The tokens, less what is on its way out and not deducted yet. */
  function Clear(s: Shaper): real {
    s.tokens - (CostOf(s.direct) + CostOf(s.drained)) as real
  }

  /** What has started since i, with what is clear now, is covered by a full bucket
      and what the rate has given since. */
  predicate CoveredFrom(starts: seq<Start>, i: nat, rate: real, clear: real, at: int)
    requires i < |starts|
  {
    && starts[i].at <= at
    && Spent(starts, i, |starts|) as real + clear <= Depth(rate) + Grown(rate, at - starts[i].at)
  }

  predicate Covered(starts: seq<Start>, since: nat, rate: real, clear: real, at: int) {
    forall i :: since <= i < |starts| ==> CoveredFrom(starts, i, rate, clear, at)
  }

  predicate InRateBetween(starts: seq<Start>, i: nat, j: nat, rate: real, max: nat)
    requires i <= j < |starts|
  {
    Spent(starts, i, j + 1) as real <= Depth(rate) + Grown(rate, starts[j].at - starts[i].at) + 2.0 * (max as real)
  }

  /** The promise: from any start to any later one, within the rate. */
  predicate InRate(starts: seq<Start>, since: nat, rate: real, max: nat) {
    forall i, j :: since <= i <= j < |starts| ==> InRateBetween(starts, i, j, rate, max)
  }

  lemma GrownAdds(rate: real, a: int, b: int)
    ensures Grown(rate, a) + Grown(rate, b) == Grown(rate, a + b)
  {
    assert (a + b) as real / 1000000000.0 == a as real / 1000000000.0 + b as real / 1000000000.0;
  }

  lemma CoveredLater(starts: seq<Start>, since: nat, rate: real, clear: real, at: int, clear1: real, at1: int)
    requires Covered(starts, since, rate, clear, at) && at <= at1
    requires clear1 <= clear + Grown(rate, at1 - at)
    ensures Covered(starts, since, rate, clear1, at1)
  {
    forall i | since <= i < |starts| ensures CoveredFrom(starts, i, rate, clear1, at1) {
      assert CoveredFrom(starts, i, rate, clear, at);
      GrownAdds(rate, at - starts[i].at, at1 - at);
    }
  }

  lemma CoveredStart(starts: seq<Start>, since: nat, rate: real, clear: real, x: Start)
    requires Covered(starts, since, rate, clear, x.at) && clear <= Depth(rate)
    ensures Covered(starts + [x], since, rate, clear - x.cost as real, x.at)
  {
    var all, less := starts + [x], clear - x.cost as real;
    forall i | since <= i < |all| ensures CoveredFrom(all, i, rate, less, x.at) {
      SpentSame(starts, x, i, |starts|);
      if i < |starts| {
        assert CoveredFrom(starts, i, rate, clear, x.at);
      }
    }
  }

  lemma InRateStart(starts: seq<Start>, since: nat, rate: real, clear: real, x: Start, max: nat)
    requires InRate(starts, since, rate, max)
    requires Covered(starts + [x], since, rate, clear, x.at) && clear >= -2.0 * (max as real)
    ensures InRate(starts + [x], since, rate, max)
  {
    var all := starts + [x];
    forall i, j | since <= i <= j < |all| ensures InRateBetween(all, i, j, rate, max) {
      if j < |starts| {
        SpentSame(starts, x, i, j + 1);
        assert InRateBetween(starts, i, j, rate, max);
      } else {
        assert CoveredFrom(all, i, rate, clear, x.at);
      }
    }
  }

  /** What every reachable state satisfies. */
  predicate Rated(t: Trace, max: nat) {
    && t.since <= |t.starts|
    && CostOf(t.s.direct) <= max && CostOf(t.s.drained) <= max
    && (t.s.rate > 0.0 ==>
          && Covered(t.starts, t.since, t.s.rate, Clear(t.s), t.s.at)
          && InRate(t.starts, t.since, t.s.rate, max))
  }

  lemma RefillClear(s: Shaper, now: int)
    requires s.rate > 0.0 && s.at <= now
    ensures Clear(Refill(s, now)) <= Clear(s) + Grown(s.rate, now - s.at)
    ensures Clear(Refill(s, now)) <= Depth(s.rate)
  {
    assert now == s.at ==> Grown(s.rate, now - s.at) == 0.0;
  }

  /** A start, on tokens that are not spent: one more packet on its way out. */
  lemma Started(t: Trace, u: Trace, r: Shaper, x: Start, max: nat)
    requires Rated(t, max) && x.cost <= max
    requires r == Ready(t.s, x.at) && MayStart(r) && t.s.at <= x.at
    requires u.starts == t.starts + [x] && u.since == t.since && u.s.rate == t.s.rate && u.s.tokens == r.tokens
    requires u.s.at == r.at && CostOf(u.s.direct) <= max && CostOf(u.s.drained) <= max
    requires CostOf(u.s.direct) + CostOf(u.s.drained) == CostOf(t.s.direct) + CostOf(t.s.drained) + x.cost
    ensures Rated(u, max)
  {
    if t.s.rate > 0.0 {
      RefillClear(t.s, x.at);
      CoveredLater(t.starts, t.since, t.s.rate, Clear(t.s), t.s.at, Clear(r), x.at);
      CoveredStart(t.starts, t.since, t.s.rate, Clear(r), x);
      InRateStart(t.starts, t.since, t.s.rate, Clear(u.s), x, max);
    }
  }

  /** No start: time may have passed, and control traffic may have been charged. */
  lemma Stayed(t: Trace, u: Trace, now: int, max: nat)
    requires Rated(t, max) && t.s.at <= now && u.starts == t.starts && u.since == t.since && u.s.rate == t.s.rate
    requires u.s.direct == t.s.direct && u.s.drained == t.s.drained
    requires (u.s.tokens == t.s.tokens && u.s.at == t.s.at)
             || (t.s.rate > 0.0 && u.s.at == now && u.s.tokens <= Refill(t.s, now).tokens)
    ensures Rated(u, max)
  {
    if t.s.rate > 0.0 && u.s.at == now {
      RefillClear(t.s, now);
      assert now == t.s.at ==> Grown(t.s.rate, now - t.s.at) == 0.0;
      CoveredLater(t.starts, t.since, t.s.rate, Clear(t.s), t.s.at, Clear(u.s), now);
    }
  }

  lemma OfferRated(t: Trace, p: Packet, cost: nat, now: int, max: nat)
    requires Kept(t) && Rated(t, max) && t.s.at <= now && cost <= max
    ensures Rated(Offered(t, p, cost, now), max)
  {
    var u := Offered(t, p, cost, now);
    if Fate(t.s, p, now) == Direct {
      Started(t, u, Ready(t.s, now), Start(now, cost), max);
    } else {
      Stayed(t, u, now, max);
    }
  }

  lemma DrainRated(t: Trace, cost: nat, now: int, max: nat)
    requires Kept(t) && Rated(t, max) && t.s.at <= now && cost <= max && t.s.drained == None
    ensures Rated(Drained(t, cost, now), max)
  {
    var u := Drained(t, cost, now);
    if Takes(t.s, now) {
      Started(t, u, Ready(t.s, now), Start(now, cost), max);
    } else {
      Stayed(t, u, now, max);
    }
  }

  lemma StepRated(t: Trace, e: Event, max: nat)
    requires Kept(t) && Rated(t, max) && Enabled(t, e, max)
    ensures Rated(Step(t, e), max)
  {
    match e
    case Offer(p, cost, now) => OfferRated(t, p, cost, now, max);
    case Drain(cost, now) => DrainRated(t, cost, now, max);
    case Control(cost, now) => Stayed(t, Step(t, e), now, max);
    case _ =>
  }

  /** Every interleaving of direct sends, the drain, control charges and changes of
      rate keeps to the rate. */
  lemma {:induction false} EveryRunInRate(t: Trace, events: seq<Event>, max: nat)
    requires Kept(t) && Rated(t, max) && AllEnabled(t, events, max)
    ensures Rated(Run(t, events), max)
    decreases |events|
  {
    if events != [] {
      StepKept(t, events[0]);
      StepRated(t, events[0], max);
      EveryRunInRate(Step(t, events[0]), events[1..], max);
    }
  }

  lemma BeginRated(max: nat)
    ensures Rated(BEGIN, max)
  {
  }

  /** A hundredth of a second of the rate or 3000 bytes, the rate over so many
      nanoseconds, and two packets. */
  function InRateBytes(rate: real, ns: int, max: nat): real {
    var deep := rate * 0.01;
    (if deep > 3000.0 then deep else 3000.0) + rate * (ns as real / 1000000000.0) + 2.0 * (max as real)
  }

  /** From a path never used, with the numbers of the source. */
  lemma RateHolds(events: seq<Event>, max: nat, i: nat, j: nat)
    requires AllEnabled(BEGIN, events, max)
    requires var t := Run(BEGIN, events); t.s.rate > 0.0 && t.since <= i <= j < |t.starts|
    ensures var t := Run(BEGIN, events);
            Spent(t.starts, i, j + 1) as real <= InRateBytes(t.s.rate, t.starts[j].at - t.starts[i].at, max)
  {
    BeginKept();
    BeginRated(max);
    EveryRunInRate(BEGIN, events, max);
    var t := Run(BEGIN, events);
    assert InRateBetween(t.starts, i, j, t.s.rate, max);
    InNumbers(t.starts, i, j, t.s.rate, max);
  }

  lemma InNumbers(starts: seq<Start>, i: nat, j: nat, rate: real, max: nat)
    requires i <= j < |starts| && InRateBetween(starts, i, j, rate, max)
    ensures Spent(starts, i, j + 1) as real <= InRateBytes(rate, starts[j].at - starts[i].at, max)
  {
  }

  // ----- a path just shaped starts from nothing

  /** Since the path was shaped at this rate from unshaped, what has started is
      covered by the rate alone. */
  predicate FromNothing(t: Trace) {
    && t.since <= |t.starts|
    && (t.s.rate > 0.0 && t.shapedAt.Some? ==>
          && t.shapedAt.value <= t.s.at
          && Spent(t.starts, t.since, |t.starts|) as real + Clear(t.s) <= Grown(t.s.rate, t.s.at - t.shapedAt.value))
  }

  lemma FromNothingLater(t: Trace, clear: real, at: int)
    requires FromNothing(t) && t.s.rate > 0.0 && t.shapedAt.Some? && t.s.at <= at
    requires clear <= Clear(t.s) + Grown(t.s.rate, at - t.s.at)
    ensures Spent(t.starts, t.since, |t.starts|) as real + clear <= Grown(t.s.rate, at - t.shapedAt.value)
  {
    GrownAdds(t.s.rate, t.s.at - t.shapedAt.value, at - t.s.at);
  }

  lemma FromNothingStarts(t: Trace, u: Trace, x: Start)
    requires FromNothing(t) && t.s.at <= x.at && u.starts == t.starts + [x] && u.since == t.since
    requires u.shapedAt == t.shapedAt && u.s.rate == t.s.rate
    requires u.s.tokens == Ready(t.s, x.at).tokens && u.s.at == Ready(t.s, x.at).at
    requires CostOf(u.s.direct) + CostOf(u.s.drained) == CostOf(t.s.direct) + CostOf(t.s.drained) + x.cost
    ensures FromNothing(u)
  {
    if t.s.rate > 0.0 && t.shapedAt.Some? {
      RefillClear(t.s, x.at);
      FromNothingLater(t, Clear(Ready(t.s, x.at)), x.at);
      SpentSame(t.starts, x, t.since, |t.starts|);
    }
  }

  lemma FromNothingStays(t: Trace, u: Trace, now: int)
    requires FromNothing(t) && t.s.at <= now && u.starts == t.starts && u.since == t.since && u.s.rate == t.s.rate
    requires u.shapedAt == t.shapedAt && u.s.direct == t.s.direct && u.s.drained == t.s.drained
    requires (u.s.tokens == t.s.tokens && u.s.at == t.s.at)
             || (t.s.rate > 0.0 && u.s.at == now && u.s.tokens <= Refill(t.s, now).tokens)
    ensures FromNothing(u)
  {
    if t.s.rate > 0.0 && t.shapedAt.Some? && u.s.at == now {
      RefillClear(t.s, now);
      assert now == t.s.at ==> Grown(t.s.rate, now - t.s.at) == 0.0;
      FromNothingLater(t, Clear(u.s), now);
    }
  }

  lemma OtherFromNothing(t: Trace, e: Event, max: nat)
    requires Kept(t) && FromNothing(t) && Enabled(t, e, max) && !(e.Offer? || e.Drain? || e.Control?)
    ensures FromNothing(Step(t, e))
  {
  }

  lemma StepFromNothing(t: Trace, e: Event, max: nat)
    requires Kept(t) && FromNothing(t) && Enabled(t, e, max)
    ensures FromNothing(Step(t, e))
  {
    hide FromNothing, Depth;
    var u := Step(t, e);
    match e
    case Offer(p, cost, now) =>
      if Fate(t.s, p, now) == Direct {
        FromNothingStarts(t, u, Start(now, cost));
      } else {
        FromNothingStays(t, u, now);
      }
    case Drain(cost, now) =>
      if Takes(t.s, now) {
        FromNothingStarts(t, u, Start(now, cost));
      } else {
        FromNothingStays(t, u, now);
      }
    case Control(cost, now) => FromNothingStays(t, u, now);
    case _ => OtherFromNothing(t, e, max);
  }

  lemma {:induction false} RunFromNothing(t: Trace, events: seq<Event>, max: nat)
    requires Kept(t) && FromNothing(t) && AllEnabled(t, events, max)
    ensures FromNothing(Run(t, events))
    decreases |events|
  {
    if events != [] {
      StepKept(t, events[0]);
      StepFromNothing(t, events[0], max);
      RunFromNothing(Step(t, events[0]), events[1..], max);
    }
  }

  /** A path that was just sending unshaped is released no burst: at every start
      since it was shaped, what has started costs at most what the rate has given
      since, and two packets. */
  lemma NoBurstOnShaping(events: seq<Event>, e: Event, t: Trace, u: Trace, max: nat)
    requires AllEnabled(BEGIN, events, max) && t == Run(BEGIN, events)
    requires Enabled(t, e, max) && u == Step(t, e) && |u.starts| > |t.starts|
    requires u.s.rate > 0.0 && u.shapedAt.Some?
    ensures Spent(u.starts, u.since, |u.starts|) as real
            <= Grown(u.s.rate, u.s.at - u.shapedAt.value) + 2.0 * (max as real)
  {
    hide Step, Grown, Kept, Rated, FromNothing, Clear, Enabled;
    BeginKept();
    BeginRated(max);
    BeginFromNothing();
    RunKept(BEGIN, events, max);
    EveryRunInRate(BEGIN, events, max);
    RunFromNothing(BEGIN, events, max);
    StepFromNothing(t, e, max);
    OwesTwoPackets(t, e, max);
    StartFromNothing(u, max);
  }

  lemma BeginFromNothing()
    ensures FromNothing(BEGIN)
  {
  }

  lemma StartFromNothing(u: Trace, max: nat)
    requires FromNothing(u) && u.s.rate > 0.0 && u.shapedAt.Some? && Clear(u.s) >= -2.0 * (max as real)
    ensures Spent(u.starts, u.since, |u.starts|) as real
            <= Grown(u.s.rate, u.s.at - u.shapedAt.value) + 2.0 * (max as real)
  {
  }

  /** A packet starts on tokens that are not spent, so no more than the two on their
      way out are owed. */
  lemma OwesTwoPackets(t: Trace, e: Event, max: nat)
    requires Kept(t) && Rated(t, max) && Enabled(t, e, max) && |Step(t, e).starts| > |t.starts|
    requires Step(t, e).s.rate > 0.0
    ensures Clear(Step(t, e).s) >= -2.0 * (max as real)
  {
  }

  // ----- a queue always has its drain

  /** One sender at a time, none sending while another's packet is on its way out:
      both ends send data packets from one goroutine. */
  predicate OneSender(t: Trace, events: seq<Event>)
    requires Shape(t)
    decreases |events|
  {
    events == [] || ((events[0].Offer? ==> t.s.direct == None) && OneSender(Step(t, events[0]), events[1..]))
  }

  predicate Attended(s: Shaper)
    requires |s.bands| == BANDS
  {
    (Empty(s) && s.drained == None) || s.running
  }

  /** A step leaves a queue without a drain only where two senders overlap: a packet
      that fits is offered while another is being sent directly, on a path never
      shaped. */
  lemma StrandedWhen(t: Trace, e: Event, max: nat)
    requires Kept(t) && Enabled(t, e, max) && Attended(t.s)
    ensures !Attended(Step(t, e).s)
            <==> e.Offer? && t.s.direct.Some? && !t.s.running
                 && (t.s.queued[BandOf(e.p.class_)] + |e.p.payload|) as real <= UNSHAPED_QUEUE_BYTES
  {
  }

  /** So, in every run with one sender at a time, whatever is queued has a drain to
      send it. */
  lemma {:induction false} QueueIsAttended(t: Trace, events: seq<Event>, max: nat)
    requires Kept(t) && AllEnabled(t, events, max) && OneSender(t, events) && Attended(t.s)
    ensures Attended(Run(t, events).s)
    decreases |events|
  {
    if events != [] {
      StepKept(t, events[0]);
      StrandedWhen(t, events[0], max);
      QueueIsAttended(Step(t, events[0]), events[1..], max);
    }
  }
}
