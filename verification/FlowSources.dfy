/** Where a bucket's packets come from: what it holds and hands on are packets of its
    sender, at the positions their tags are read as. */
module FlowSources {
  import opened Bytes
  import opened Serial
  import opened FlowBucket
  import opened FlowMoves
  import opened FlowRuns

  /** The payloads a sender tagged for one bucket, in order, and how far its tags are
      ahead of the bucket's positions. */
  datatype Source = Source(texts: seq<Payload>, base: int) {
    predicate Has(pos: int, payload: Payload) {
      0 <= pos + base < |texts| && texts[pos + base] == payload
    }
  }

  ghost predicate From(outs: seq<Out>, s: Source) {
    forall i :: 0 <= i < |outs| ==> s.Has(outs[i].pos, outs[i].payload)
  }

  ghost predicate HeldFrom(held: map<int, Held>, s: Source) {
    forall p :: p in held ==> s.Has(p, held[p].payload)
  }

  lemma FromJoin(a: seq<Out>, b: seq<Out>, s: Source)
    requires From(a, s) && From(b, s)
    ensures From(a + b, s)
  {
  }

  // ----- what leaves a bucket was held in it

  lemma {:induction false} EmittedFrom(held: map<int, Held>, lo: int, hi: int, s: Source)
    requires HeldFrom(held, s)
    ensures From(Emitted(held, lo, hi), s)
    decreases hi - lo
  {
    if lo < hi {
      EmittedFrom(held, lo + 1, hi, s);
    }
  }

  lemma ResumeFrom(b: Bucket, t: int, s: Source)
    requires HeldFrom(b.held, s)
    ensures From(ResumeOut(b, t), s) && HeldFrom(ResumeAt(b, t).held, s)
    ensures ResumeAt(b, t).started == b.started && (b.held == map[] ==> ResumeAt(b, t).held == map[])
  {
    EmittedFrom(b.held, b.next, FirstGap(b.held, t), s);
  }

  lemma {:induction false} PassGapsFrom(b: Bucket, paths: Paths, now: int, s: Source)
    requires HeldFrom(b.held, s) && paths.maxPath < |paths.seen|
    ensures From(PassOut(b, paths, now), s) && HeldFrom(PassGaps(b, paths, now).held, s)
    ensures PassGaps(b, paths, now).started == b.started
    ensures b.held == map[] ==> PassOut(b, paths, now) == [] && PassGaps(b, paths, now) == b
    decreases b.held.Keys
  {
    if b.held != map[] && Passed(b, paths, now) {
      ResumeFrom(b, Lowest(b.held), s);
      PassGapsFrom(SkipToHeld(b), paths, now, s);
      FromJoin(ResumeOut(b, Lowest(b.held)), PassOut(SkipToHeld(b), paths, now), s);
    }
  }

  lemma {:induction false} TimeOutFrom(b: Bucket, now: int, hold: int, s: Source)
    requires HeldFrom(b.held, s)
    ensures From(TimeOutOut(b, now, hold), s) && HeldFrom(TimeOut(b, now, hold).held, s)
    ensures TimeOut(b, now, hold).started == b.started
    ensures b.held == map[] ==> TimeOutOut(b, now, hold) == [] && TimeOut(b, now, hold) == b
    decreases b.held.Keys
  {
    if b.held != map[] && now - b.gapSince >= hold {
      var c := b.(lastSkipAt := now, lastSkipHold := hold);
      ResumeFrom(c, Lowest(c.held), s);
      TimeOutFrom(SkipToHeld(c), now, hold, s);
      FromJoin(ResumeOut(c, Lowest(c.held)), TimeOutOut(SkipToHeld(c), now, hold), s);
    }
  }

  // ----- an arrival

  lemma OneFrom(pos: int, payload: Payload, late: bool, rest: seq<Out>, s: Source)
    requires s.Has(pos, payload) && From(rest, s)
    ensures From([Out(pos, payload, late)] + rest, s) && From([Out(pos, payload, late)], s)
  {
  }

  lemma TurnFrom(b: Bucket, pos: int, payload: Payload, s: Source)
    requires HeldFrom(b.held, s) && s.Has(pos, payload)
    ensures var a := Turn(b, pos, payload);
            From(a.out, s) && HeldFrom(a.b.held, s) && a.b.started == b.started && a.closing == [] && !a.anew
  {
    var c := b.(next := pos + 1);
    ResumeFrom(c, pos + 1, s);
    OneFrom(pos, payload, false, ResumeOut(c, pos + 1), s);
  }

  lemma HoldFrom(b: Bucket, now: int, pos: int, payload: Payload, s: Source)
    requires HeldFrom(b.held, s) && s.Has(pos, payload)
    ensures HeldFrom(Hold(b, now, pos, payload).held, s)
  {
  }

  lemma ForceFrom(b: Bucket, now: int, pos: int, payload: Payload, s: Source)
    requires HeldFrom(b.held, s) && s.Has(pos, payload)
    ensures var a := Force(b, now, pos, payload);
            From(a.out, s) && HeldFrom(a.b.held, s) && a.b.started == b.started && a.closing == [] && !a.anew
  {
    hide Turn, Hold, ResumeAt, ResumeOut;
    var t := pos - (WINDOW - 1);
    var a := ResumeAt(b, t);
    ResumeFrom(b, t, s);
    if a.next == pos {
      TurnFrom(a, pos, payload, s);
      FromJoin(ResumeOut(b, t), Turn(a, pos, payload).out, s);
    } else {
      HoldFrom(a, now, pos, payload, s);
      HoldStarted(a, now, pos, payload);
    }
  }

  lemma HoldStarted(b: Bucket, now: int, pos: int, payload: Payload)
    ensures Hold(b, now, pos, payload).started == b.started
  {
  }

  lemma PlaceFrom(b: Bucket, now: int, path: nat, pos: int, payload: Payload, s: Source)
    requires b.started && HeldFrom(b.held, s) && s.Has(pos, payload)
    ensures var a := Place(b, now, path, pos, payload);
            && From(a.out, s) && HeldFrom(a.b.held, s) && a.b.started
            && (a.closing == [] || (a.anew && a.closing == FlushOut(b) && pos != b.next))
  {
    hide Turn, Force;
    TurnFrom(b, pos, payload, s);
    ForceFrom(b, now, pos, payload, s);
    OneFrom(pos, payload, false, [], s);
    OneFrom(pos, payload, true, [], s);
  }

  /** What an arrival closes an epoch with was held before it; what it hands on and
      leaves held is of the sequence it is read in, which is the same one unless the
      bucket starts anew. */
  lemma ArriveFrom(b: Bucket, now: int, path: nat, n: FlowSeq, payload: Payload, s: Source, z: Source)
    requires HeldFrom(b.held, s) && (!b.started ==> b.held == map[])
    requires Wake(b, now).started ==> z == s
    requires z.Has(PositionOf(Wake(b, now), n), payload)
    ensures var a := Arrive(b, now, path, n, payload);
            && From(a.closing, s) && From(a.out, z) && HeldFrom(a.b.held, z) && a.b.started
            && (!b.started ==> a.closing == []) && (!a.anew ==> a.closing == [] && Wake(b, now).started)
  {
    hide Place, PositionOf, MarkPath, Emitted;
    var w := Wake(b, now);
    var pos := PositionOf(w, n);
    var t := Touch(w, now, path, pos);
    FlushFrom(b, s);
    PlaceFrom(t, now, path, pos, payload, z);
    FlushFrom(t, z);
    assert w.started ==> t.next == w.next;
    var p := Place(t, now, path, pos, payload);
    PlaceAnew(t, now, path, pos, payload);
    if p.closing != [] {
      assert w.started && w == b;
    }
    FromJoin(WakeOut(b, now), p.closing, s);
  }

  lemma PlaceAnew(b: Bucket, now: int, path: nat, pos: int, payload: Payload)
    ensures !Place(b, now, path, pos, payload).anew ==> Place(b, now, path, pos, payload).closing == []
  {
  }

  lemma FlushFrom(b: Bucket, s: Source)
    requires HeldFrom(b.held, s)
    ensures From(FlushOut(b), s)
    ensures b.held == map[] ==> FlushOut(b) == []
  {
    EmittedFrom(b.held, b.next, b.next + WINDOW, s);
    if b.held == map[] {
      NothingWaits(b);
    }
  }

  // ----- a bucket and its history

  /** Some sender of the ones so far made the whole of an epoch, in one sequence. */
  ghost predicate OneSource(log: seq<Out>, made: seq<seq<Payload>>) {
    exists l: nat, base: int :: l < |made| && From(log, Source(made[l], base))
  }

  /** Everything a bucket has handed on came, epoch by epoch, from one sender each; what
      it holds, and the epoch it is in, from the present one. made is what each sender so
      far has tagged for the bucket. */
  ghost predicate Sourced(h: Hist, made: seq<seq<Payload>>, base: int)
    requires made != []
  {
    var s := Source(made[|made| - 1], base);
    && (forall i :: 0 <= i < |h.closed| ==> OneSource(h.closed[i], made))
    && OneSource(h.log, made) && (h.b.started ==> From(h.log, s))
    && HeldFrom(h.b.held, s) && (!h.b.started ==> h.b.held == map[])
  }

  lemma OneSourceOf(log: seq<Out>, made: seq<seq<Payload>>, base: int)
    requires made != [] && From(log, Source(made[|made| - 1], base))
    ensures OneSource(log, made)
  {
  }

  lemma ArrivesSourced(h: Hist, made: seq<seq<Payload>>, base: int, after: int,
                       now: int, path: nat, n: FlowSeq, payload: Payload)
    requires made != [] && Sourced(h, made, base)
    requires Wake(h.b, now).started ==> after == base
    requires Source(made[|made| - 1], after).Has(PositionOf(Wake(h.b, now), n), payload)
    ensures Sourced(Arrives(h, now, path, n, payload), made, after)
  {
    var s, z := Source(made[|made| - 1], base), Source(made[|made| - 1], after);
    var a := Arrive(h.b, now, path, n, payload);
    ArriveFrom(h.b, now, path, n, payload, s, z);
    assert Wake(h.b, now).started ==> h.b.started;
    hide Arrive, PositionOf, Wake, From, HeldFrom;
    if a.anew {
      OneSourceOf(a.out, made, after);
      if h.b.started {
        FromJoin(h.log, a.closing, s);
        OneSourceOf(h.log + a.closing, made, base);
      } else {
        assert h.log + a.closing == h.log;
      }
    } else {
      FromJoin(h.log, a.out, s);
      OneSourceOf(h.log + a.out, made, base);
    }
  }

  lemma LoggedSourced(h: Hist, b: Bucket, outs: seq<Out>, made: seq<seq<Payload>>, base: int)
    requires made != [] && Sourced(h, made, base)
    requires var s := Source(made[|made| - 1], base); From(outs, s) && HeldFrom(b.held, s)
    requires b.started ==> h.b.started
    requires !h.b.started ==> outs == []
    requires !b.started ==> b.held == map[]
    ensures Sourced(Logged(h, b, outs), made, base)
  {
    var s := Source(made[|made| - 1], base);
    if h.b.started {
      FromJoin(h.log, outs, s);
      OneSourceOf(h.log + outs, made, base);
    } else {
      assert h.log + outs == h.log;
    }
  }

  lemma GapsCheckedSourced(h: Hist, now: int, paths: Paths, made: seq<seq<Payload>>, base: int)
    requires made != [] && Sourced(h, made, base) && paths.maxPath < |paths.seen|
    ensures Sourced(GapsChecked(h, now, paths), made, base)
  {
    PassGapsFrom(h.b, paths, now, Source(made[|made| - 1], base));
    LoggedSourced(h, PassGaps(h.b, paths, now), PassOut(h.b, paths, now), made, base);
  }

  lemma GaveUpSourced(h: Hist, made: seq<seq<Payload>>, base: int)
    requires made != [] && Sourced(h, made, base) && h.b.held != map[]
    ensures Sourced(GaveUp(h), made, base)
  {
    ResumeFrom(h.b, Lowest(h.b.held), Source(made[|made| - 1], base));
    LoggedSourced(h, SkipToHeld(h.b), ResumeOut(h.b, Lowest(h.b.held)), made, base);
  }

  lemma SweptSourced(h: Hist, now: int, hold: int, made: seq<seq<Payload>>, base: int)
    requires made != [] && Sourced(h, made, base)
    ensures Sourced(Swept(h, now, hold), made, base)
  {
    TimeOutFrom(h.b, now, hold, Source(made[|made| - 1], base));
    LoggedSourced(h, TimeOut(h.b, now, hold), TimeOutOut(h.b, now, hold), made, base);
  }

  lemma ClosedSourced(h: Hist, made: seq<seq<Payload>>, base: int)
    requires made != [] && Sourced(h, made, base)
    ensures Sourced(Closed(h), made, base) && !Closed(h).b.started
  {
    FlushFrom(h.b, Source(made[|made| - 1], base));
    LoggedSourced(h, Flush(h.b).(started := false, marks := []), FlushOut(h.b), made, base);
  }

  lemma ExpiredSourced(h: Hist, now: int, made: seq<seq<Payload>>, base: int)
    requires made != [] && Sourced(h, made, base)
    ensures Sourced(Expired(h, now), made, base)
  {
  }

  // ----- the senders go on

  lemma OneSourceOn(log: seq<Out>, made: seq<seq<Payload>>, more: seq<seq<Payload>>)
    requires OneSource(log, made) && |made| <= |more|
    requires forall l :: 0 <= l < |made| ==> made[l] <= more[l]
    ensures OneSource(log, more)
  {
    var l: nat, base: int :| l < |made| && From(log, Source(made[l], base));
    assert From(log, Source(more[l], base));
  }

  /** A history stays sourced as its sender tags more, and, between sequences, as
      another sender begins. */
  lemma SourcedOn(h: Hist, made: seq<seq<Payload>>, more: seq<seq<Payload>>, base: int)
    requires made != [] && Sourced(h, made, base) && |made| <= |more|
    requires forall l :: 0 <= l < |made| ==> made[l] <= more[l]
    requires h.b.started ==> |made| == |more|
    ensures Sourced(h, more, base)
  {
    forall i | 0 <= i < |h.closed| ensures OneSource(h.closed[i], more) {
      OneSourceOn(h.closed[i], made, more);
    }
    OneSourceOn(h.log, made, more);
  }
}
