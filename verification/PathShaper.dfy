/** The shaper as the source keeps it: fields changed in place under its lock. Each
    method is one region the lock protects; what happens between Send and Sent, and
    between Take and Taken, is the building and writing of one packet. */
module PathShaper {
  import opened Bytes
  import opened Collections
  import Shaper
  import ShaperClasses
  import ShaperRate

  type Packet = Shaper.Packet

  class PathShaper {
    var rateBps: real
    var tokens: real
    var at: int
    var bands: seq<seq<Packet>>
    var queued: seq<int>
    var inflight: int
    var running: bool
    var dropped: nat

    /** Whose packets are in flight, and at what cost. */
    ghost var direct: Option<nat>
    ghost var drained: Option<nat>
    /** The most a packet may cost, and everything that has happened to the path. */
    ghost const max: nat
    ghost var events: seq<Shaper.Event>

    ghost function State(): Shaper.Shaper
      reads this
    {
      Shaper.Shaper(rateBps, tokens, at, bands, queued, direct, drained, running, dropped)
    }

    /** inflight counts them both; and the fields are where a run ends, so that what is
        proved of every run is so of every path. */
    ghost predicate Valid()
      reads this
    {
      Fields() && Shaper.AllEnabled(Shaper.BEGIN, events, max) && Shaper.Run(Shaper.BEGIN, events).s == State()
    }

    /** One more event. */
    ghost predicate Goes(was: seq<Shaper.Event>, e: Shaper.Event)
      reads this
    {
      Valid() && events == was + [e]
    }

    ghost predicate Fields()
      reads this
    {
      && |bands| == |queued| == Shaper.BANDS && rateBps >= 0.0
      && inflight == (if direct.Some? then 1 else 0) + (if drained.Some? then 1 else 0)
    }

    constructor (ghost max: nat)
      ensures Valid() && State() == Shaper.UNSHAPED && events == [] && this.max == max
    {
      this.max := max;
      rateBps, tokens, at := 0.0, 0.0, 0;
      bands, queued := [[], [], []], [0, 0, 0];
      inflight, running, dropped := 0, false, 0;
      direct, drained := None, None;
      events := [];
    }

    /** What the path has started keeps to its rate. */
    lemma KeepsToRate(i: nat, j: nat)
      requires Valid() && rateBps > 0.0
      requires var t := Shaper.Run(Shaper.BEGIN, events); t.since <= i <= j < |t.starts|
      ensures var t := Shaper.Run(Shaper.BEGIN, events);
              ShaperRate.Spent(t.starts, i, j + 1) as real
              <= ShaperRate.InRateBytes(rateBps, t.starts[j].at - t.starts[i].at, max)
    {
      ShaperRate.RateHolds(events, max, i, j);
    }

    method SetRate(kbps: real, now: int)
      requires Valid() && at <= now
      modifies this
      ensures Goes(old(events), Shaper.Reshape(kbps, now))
      ensures State() == Shaper.SetRate(old(State()), kbps, now)
    {
      hide Shaper.Run, Shaper.AllEnabled;
      Shaper.RunOn(events, Shaper.Reshape(kbps, now), max);
      events := events + [Shaper.Reshape(kbps, now)];
      var rate := kbps * 1000.0 / 8.0;
      if rate < 0.0 {
        rate := 0.0;
      }
      if rate == rateBps {
        return;
      }
      if rateBps == 0.0 {
        tokens, at := 0.0, now;
      }
      rateBps := rate;
      if rate > 0.0 && !running {
        running := true;
      }
    }

    /** Sends one data packet: Direct if it may be written now, in which case Sent
        follows; else it is queued or dropped. */
    method Send(p: Packet, now: int, ghost cost: nat) returns (fate: Shaper.Sent)
      requires Valid() && at <= now && cost <= max
      modifies this
      ensures Goes(old(events), Shaper.Offer(p, cost, now))
      ensures State() == Shaper.Send(old(State()), p, cost, now)
      ensures fate == Shaper.Fate(old(State()), p, now)
    {
      hide Shaper.Run, Shaper.AllEnabled, Shaper.Send, Shaper.Fate;
      Shaper.RunOn(events, Shaper.Offer(p, cost, now), max);
      fate := Place(p, now, cost);
      events := events + [Shaper.Offer(p, cost, now)];
    }

    method Place(p: Packet, now: int, ghost cost: nat) returns (fate: Shaper.Sent)
      requires Fields()
      modifies this
      ensures Fields() && events == old(events) && State() == Shaper.Send(old(State()), p, cost, now)
      ensures fate == Shaper.Fate(old(State()), p, now)
    {
      if Idle() {
        var ok := true;
        if rateBps > 0.0 {
          Refill(now);
          ok := tokens >= 0.0;
        }
        if ok {
          inflight, direct := inflight + 1, Some(cost);
          return Shaper.Direct;
        }
      }
      var band := Shaper.BULK;
      if p.class_ == Shaper.CLASS_REALTIME {
        band := Shaper.REALTIME;
      } else if p.class_ == Shaper.CLASS_TRANSACTIONAL {
        band := Shaper.TRANSACTIONAL;
      }
      if (queued[band] + |p.payload|) as real > Limit() {
        dropped := dropped + 1;
        return Shaper.Dropped;
      }
      bands := bands[band := bands[band] + [p]];
      queued := queued[band := queued[band] + |p.payload|];
      return Shaper.Queued;
    }

    /** The direct packet is written, at a cost of n. */
    method Sent(n: nat)
      requires Valid() && direct == Some(n)
      modifies this
      ensures Goes(old(events), Shaper.OfferEnd)
      ensures State() == Shaper.SendEnd(old(State()))
    {
      hide Shaper.Run, Shaper.AllEnabled;
      Shaper.RunOn(events, Shaper.OfferEnd, max);
      events := events + [Shaper.OfferEnd];
      inflight, direct := inflight - 1, None;
      if rateBps > 0.0 {
        tokens := tokens - n as real;
      }
    }

    /** Accounts for control traffic, which never waits. */
    method Charge(cost: nat, now: int)
      requires Valid() && at <= now
      modifies this
      ensures Goes(old(events), Shaper.Control(cost, now))
      ensures State() == Shaper.Charge(old(State()), cost, now)
    {
      hide Shaper.Run, Shaper.AllEnabled;
      Shaper.RunOn(events, Shaper.Control(cost, now), max);
      events := events + [Shaper.Control(cost, now)];
      if rateBps == 0.0 {
        return;
      }
      Refill(now);
      tokens := tokens - cost as real;
    }

    /** The drain's next packet: the first of the highest band with one, if the
        tokens allow. */
    method Take(now: int, ghost cost: nat) returns (p: Option<Packet>)
      requires Valid() && at <= now && cost <= max && running && drained == None
      modifies this
      ensures Goes(old(events), Shaper.Drain(cost, now))
      ensures State() == Shaper.Take(old(State()), cost, now)
      ensures p == if Shaper.Takes(old(State()), now) then Some(old(bands[Shaper.Front(State())][0])) else None
    {
      hide Shaper.Run, Shaper.AllEnabled, Shaper.Take;
      Shaper.RunOn(events, Shaper.Drain(cost, now), max);
      p := Pop(now, cost);
      events := events + [Shaper.Drain(cost, now)];
    }

    method Pop(now: int, ghost cost: nat) returns (p: Option<Packet>)
      requires Fields() && drained == None
      modifies this
      ensures Fields() && events == old(events) && State() == Shaper.Take(old(State()), cost, now)
      ensures p == if Shaper.Takes(old(State()), now) then Some(old(bands[Shaper.Front(State())][0])) else None
    {
      if bands[Shaper.REALTIME] == [] && bands[Shaper.TRANSACTIONAL] == [] && bands[Shaper.BULK] == [] {
        return None;
      }
      if rateBps > 0.0 {
        Refill(now);
        if tokens < 0.0 {
          return None;
        }
      }
      var band := Shaper.REALTIME;
      if bands[band] == [] {
        band := Shaper.TRANSACTIONAL;
        if bands[band] == [] {
          band := Shaper.BULK;
        }
      }
      var first := bands[band][0];
      bands := bands[band := bands[band][1..]];
      queued := queued[band := queued[band] - |first.payload|];
      inflight, drained := inflight + 1, Some(cost);
      return Some(first);
    }

    /** The drained packet is written, at a cost of n. */
    method Taken(n: nat)
      requires Valid() && drained == Some(n)
      modifies this
      ensures Goes(old(events), Shaper.DrainEnd)
      ensures State() == Shaper.TakeEnd(old(State()))
    {
      hide Shaper.Run, Shaper.AllEnabled;
      Shaper.RunOn(events, Shaper.DrainEnd, max);
      events := events + [Shaper.DrainEnd];
      inflight, drained := inflight - 1, None;
      if rateBps > 0.0 {
        tokens := tokens - n as real;
      }
    }

    /** Whether the cascade may place more bulk here: where it may on a shaped path, a
        bulk packet is not dropped, and where it may not, bulk has ten milliseconds
        waiting. */
    method HasRoom() returns (ok: bool)
      requires Valid()
      ensures ok <==> ShaperClasses.HasRoom(rateBps, ShaperClasses.Backlog(bands, ShaperClasses.Bulk))
      ensures ok && rateBps > 0.0 ==> NeverDrops(Shaper.BULK)
      ensures !ok ==> rateBps > 0.0 && queued[Shaper.BULK] as real >= rateBps * 0.01
    {
      ShaperClasses.RunBacklogs(events, max);
      RoomTakes(Shaper.BULK);
      if rateBps == 0.0 {
        return true;
      }
      return queued[Shaper.BULK] as real < BytesFor(Shaper.ROOM_SECONDS, Shaper.MIN_BURST_BYTES);
    }

    /** Whether a transactional flow may stay on or move onto this path. */
    method HasTransactionalRoom() returns (ok: bool)
      requires Valid()
      ensures ok <==> ShaperClasses.HasRoom(rateBps, ShaperClasses.Backlog(bands, ShaperClasses.Transactional))
      ensures ok && rateBps > 0.0 ==> NeverDrops(Shaper.TRANSACTIONAL)
      ensures !ok ==> rateBps > 0.0 && queued[Shaper.TRANSACTIONAL] as real >= rateBps * 0.01
    {
      ShaperClasses.RunBacklogs(events, max);
      RoomTakes(Shaper.TRANSACTIONAL);
      if rateBps == 0.0 {
        return true;
      }
      return queued[Shaper.TRANSACTIONAL] as real < BytesFor(Shaper.ROOM_SECONDS, Shaper.MIN_BURST_BYTES);
    }

    /** No packet of the band, up to the headroom, is dropped now. */
    ghost predicate NeverDrops(band: nat)
      requires Valid()
      reads this
    {
      forall p: Packet, now: int ::
        Shaper.BandOf(p.class_) == band && |p.payload| <= Shaper.ROOM_HEADROOM ==>
          Shaper.Fate(State(), p, now) != Shaper.Dropped
    }

    lemma RoomTakes(band: nat)
      requires Valid() && band < Shaper.BANDS
      ensures rateBps > 0.0 && queued[band] as real < Shaper.RoomBytes(rateBps) ==> NeverDrops(band)
      ensures rateBps > 0.0 && !(queued[band] as real < Shaper.RoomBytes(rateBps)) ==>
                queued[band] as real >= rateBps * 0.01
    {
      if rateBps > 0.0 {
        if queued[band] as real < Shaper.RoomBytes(rateBps) {
          forall p: Packet, now: int | Shaper.BandOf(p.class_) == band && |p.payload| <= Shaper.ROOM_HEADROOM
            ensures Shaper.Fate(State(), p, now) != Shaper.Dropped
          {
            Shaper.RoomIsNotDropped(State(), p, now);
          }
        } else {
          Shaper.NoRoomIsBacklog(State(), band);
        }
      }
    }

    /** Nothing is queued or on its way out: inflight is zero exactly when neither
        actor has a packet out. */
    predicate Idle()
      requires Fields()
      reads this
      ensures Idle() == Shaper.IdleNow(State())
    {
      inflight == 0 && bands[Shaper.REALTIME] == [] && bands[Shaper.TRANSACTIONAL] == [] && bands[Shaper.BULK] == []
    }

    method Refill(now: int)
      requires Fields()
      modifies this`tokens, this`at
      ensures Fields() && State() == Shaper.Refill(old(State()), now)
    {
      var elapsed := now - at;
      if elapsed > 0 {
        tokens := tokens + rateBps * (elapsed as real / 1000000000.0);
      }
      at := now;
      var depth := BytesFor(Shaper.BURST_SECONDS, Shaper.MIN_BURST_BYTES);
      if tokens > depth {
        tokens := depth;
      }
    }

    /** The most a band may hold. */
    function Limit(): (r: real)
      reads this
      ensures r == Shaper.Limit(rateBps)
    {
      if rateBps == 0.0 then Shaper.UNSHAPED_QUEUE_BYTES else BytesFor(Shaper.QUEUE_SECONDS, Shaper.MIN_QUEUE_BYTES)
    }

    function BytesFor(seconds: real, floor: real): (r: real)
      reads this
      ensures r == Shaper.BytesFor(rateBps, seconds, floor)
    {
      if rateBps * seconds > floor then rateBps * seconds else floor
    }
  }
}
