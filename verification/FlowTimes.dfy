/** How long a bucket's packets wait, and which gaps are given up as lost. */
module FlowTimes {
  import opened Bytes
  import opened Serial
  import opened FlowBucket
  import opened FlowMoves

  lemma ResumeTimed(b: Bucket, t: int, clock: int)
    requires forall p :: p in b.held ==> b.held[p].at <= clock
    ensures ResumeAt(b, t).Timed(clock)
  {
  }

  lemma HoldTimed(b: Bucket, clock: int, now: int, pos: int, payload: Payload)
    requires b.Timed(clock) && clock <= now && pos !in b.held
    ensures Hold(b, now, pos, payload).Timed(now)
  {
    var h := Hold(b, now, pos, payload).held;
    if b.held != map[] {
      assert Lowest(b.held) in h && pos in h;
      if Lowest(h) != pos {
        assert Lowest(h) in b.held;
      }
    }
  }

  lemma ForceTimed(b: Bucket, clock: int, now: int, pos: int, payload: Payload)
    requires b.Timed(clock) && clock <= now && Ready(b, pos) && pos - b.next >= WINDOW
    ensures Force(b, now, pos, payload).b.Timed(now)
  {
    var t := pos - (WINDOW - 1);
    var a := ResumeAt(b, t);
    ResumeTimed(b, t, clock);
    assert a.next == pos || pos !in a.held by { ForceStopsShort(b, pos); }
    if a.next == pos {
      ResumeTimed(a.(next := pos + 1), pos + 1, now);
    } else {
      HoldTimed(a, clock, now, pos, payload);
    }
  }

  lemma PlaceTimed(b: Bucket, clock: int, now: int, path: nat, pos: int, payload: Payload)
    requires b.Timed(clock) && clock <= now && Ready(b, pos)
    ensures Place(b, now, path, pos, payload).b.Timed(now)
  {
    hide Force, Hold, ResumeAt;
    var d := pos - b.next;
    if d == 0 {
      ResumeTimed(b.(next := pos + 1), pos + 1, now);
    } else if d < -RESTART_JUMP || d > RESTART_JUMP || d < 0 {
    } else if d >= WINDOW {
      ForceTimed(b, clock, now, pos, payload);
    } else if pos !in b.held {
      HoldTimed(b, clock, now, pos, payload);
    }
  }

  lemma ArriveTimed(b: Bucket, clock: int, now: int, path: nat, n: FlowSeq, payload: Payload)
    requires b.Valid() && b.Timed(clock) && clock <= now
    ensures Arrive(b, now, path, n, payload).b.Timed(now)
  {
    TouchedReady(b, now, path, n);
    PlaceTimed(Touched(b, now, path, n), clock, now, path, PositionOf(Wake(b, now), n), payload);
  }

  lemma {:induction false} PassGapsTimed(b: Bucket, paths: Paths, now: int, clock: int)
    requires b.Timed(clock) && paths.maxPath < |paths.seen|
    ensures PassGaps(b, paths, now).Timed(clock)
    decreases b.held.Keys
  {
    if b.held != map[] && Passed(b, paths, now) {
      ResumeTimed(b, Lowest(b.held), clock);
      PassGapsTimed(SkipToHeld(b), paths, now, clock);
    }
  }

  /** The hold is enforced at the front: once a bucket has been swept, the packet
      nearest to next has waited less than the hold. */
  lemma {:induction false} SweptInTime(b: Bucket, now: int, hold: int, clock: int)
    requires b.Timed(clock)
    ensures var r := TimeOut(b, now, hold);
            r.Timed(clock) && (r.held != map[] ==> now - r.held[Lowest(r.held)].at < hold)
    decreases b.held.Keys
  {
    if b.held != map[] && now - b.gapSince >= hold {
      var c := b.(lastSkipAt := now, lastSkipHold := hold);
      ResumeTimed(c, Lowest(c.held), clock);
      SweptInTime(SkipToHeld(c), now, hold, clock);
    }
  }

  /** A held packet behind a gap: what a gap given up lets out first. */
  ghost predicate Opens(b: Bucket, f: int) {
    f in b.held && f - 1 !in b.held
  }

  /** From when the gap before an opener is, or will be, timed. */
  ghost function TimedFrom(b: Bucket, f: int): int
    requires f in b.held
  {
    if f == Lowest(b.held) then b.gapSince else b.held[f].at
  }

  /** The sweep stops at a gap that has not waited out the hold. */
  ghost predicate Young(b: Bucket, f: int, now: int, hold: int) {
    Opens(b, f) && now - TimedFrom(b, f) < hold
  }

  ghost predicate AllInTime(b: Bucket, now: int, hold: int) {
    forall p :: p in b.held ==> now - b.held[p].at < hold
  }

  /** No packet at or beyond a young gap has itself waited out the hold. */
  ghost predicate YoungCovers(b: Bucket, now: int, hold: int) {
    forall f, p :: Young(b, f, now, hold) && p in b.held && f <= p ==> now - b.held[p].at < hold
  }

  /** The openers behind the front one are those of the bucket once its front gap is
      given up, timed as they will be then. */
  lemma OpensLater(b: Bucket, f: int)
    requires b.held != map[]
    ensures Opens(SkipToHeld(b), f) <==> Opens(b, f) && f != Lowest(b.held)
    ensures Opens(SkipToHeld(b), f) ==> TimedFrom(SkipToHeld(b), f) == b.held[f].at == TimedFrom(b, f)
    ensures Opens(SkipToHeld(b), f) ==> forall p :: f <= p ==> (p in b.held <==> p in SkipToHeld(b).held)
  {
    var low := Lowest(b.held);
    var g := FirstGap(b.held, low);
    if Opens(b, f) && f != low {
      assert low < f;
      assert low <= f - 1 < g ==> f - 1 in b.held;
    }
  }

  lemma CoversLater(b: Bucket, now: int, hold: int)
    requires b.held != map[] && now - b.gapSince >= hold
    ensures YoungCovers(SkipToHeld(b), now, hold) <==> YoungCovers(b, now, hold)
  {
    var r := SkipToHeld(b);
    forall f, p | YoungCovers(r, now, hold) && Young(b, f, now, hold) && p in b.held && f <= p
      ensures now - b.held[p].at < hold
    {
      OpensLater(b, f);
      assert Young(r, f, now, hold);
    }
    forall f, p | YoungCovers(b, now, hold) && Young(r, f, now, hold) && p in r.held && f <= p
      ensures now - r.held[p].at < hold
    {
      OpensLater(b, f);
      assert Young(b, f, now, hold);
    }
  }

  /** Which buckets a sweep leaves with every packet in time, told from the bucket
      before it: exactly those where nothing at or beyond a young gap has waited out
      the hold. */
  lemma {:induction false} WholeBucketInTime(b: Bucket, now: int, hold: int)
    ensures AllInTime(TimeOut(b, now, hold), now, hold) <==> YoungCovers(b, now, hold)
    decreases b.held.Keys
  {
    if b.held != map[] {
      if now - b.gapSince >= hold {
        var c := b.(lastSkipAt := now, lastSkipHold := hold);
        WholeBucketInTime(SkipToHeld(c), now, hold);
        CoversLater(c, now, hold);
        CoversSame(b, c, now, hold);
      } else {
        FrontCovers(b, now, hold);
      }
    }
  }

  lemma CoversSame(b: Bucket, c: Bucket, now: int, hold: int)
    requires b.held == c.held && b.gapSince == c.gapSince
    ensures YoungCovers(b, now, hold) <==> YoungCovers(c, now, hold)
  {
    forall f ensures Young(b, f, now, hold) <==> Young(c, f, now, hold) {
    }
  }

  /** A young gap at the front has everything behind it. */
  lemma FrontCovers(b: Bucket, now: int, hold: int)
    requires b.held != map[] && now - b.gapSince < hold
    ensures AllInTime(b, now, hold) <==> YoungCovers(b, now, hold)
  {
    var low := Lowest(b.held);
    assert Young(b, low, now, hold);
  }

  /** A mark's wire form is read correctly while it is at most half the sequence
      space behind next; ahead of next it always is, being on a held packet. */
  ghost predicate Fresh(b: Bucket, m: Mark) {
    b.next - m.pos <= HALF_FLOW
  }

  /** A gap given up as lost was really lost: when skipPassedGaps passes the gap
      at the front, every path active in the bucket has already delivered the
      packet it skips to, or one after it. */
  lemma PassedGapIsLost(b: Bucket, paths: Paths, now: int, m: Mark)
    requires b.Valid() && b.held != map[] && paths.maxPath < |paths.seen|
    requires Passed(b, paths, now)
    requires m in b.marks && Active(m, now)
    ensures m.pos >= Lowest(b.held) <==> Fresh(b, m)
    ensures Fresh(b, m) ==> m.pos in b.held
  {
    assert FlowNearest(m.pos - b.next) > 0;
  }
}
