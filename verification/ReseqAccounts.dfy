/** Nothing is lost or invented across the whole resequencer, and nothing is written
    out of its bucket's order: what was written is an interleaving of what the
    buckets' histories handed on, and with what is held and the repeats it is
    everything that was pushed. */
module ReseqAccounts {
  import opened Bytes
  import opened Serial
  import opened FlowBucket
  import opened FlowMoves
  import opened FlowRuns
  import opened Ring
  import opened Reseq

  function HandedOn(h: Hist): multiset<Payload> {
    ClosedPayloads(h.closed) + PayloadsOf(h.log)
  }

  function Handed(hist: seq<Hist>): multiset<Payload> {
    if hist == [] then multiset{} else HandedOn(hist[0]) + Handed(hist[1..])
  }

  ghost function Pushed(hist: seq<Hist>): multiset<Payload> {
    if hist == [] then multiset{} else hist[0].pushed + Pushed(hist[1..])
  }

  ghost function Dropped(hist: seq<Hist>): multiset<Payload> {
    if hist == [] then multiset{} else hist[0].dropped + Dropped(hist[1..])
  }

  ghost function StillHeld(hist: seq<Hist>): multiset<Payload> {
    if hist == [] then multiset{} else Waiting(hist[0].b) + StillHeld(hist[1..])
  }

  /** What one bucket has handed on, in order: its closed epochs, then its log. */
  function Told(h: Hist): seq<Payload> {
    TextsOfAll(h.closed) + Texts(h.log)
  }

  function TextsOfAll(closed: seq<seq<Out>>): seq<Payload> {
    if closed == [] then [] else TextsOfAll(closed[..|closed| - 1]) + Texts(closed[|closed| - 1])
  }

  /** What was written on behalf of bucket i, where tags name the bucket of each
      payload written. */
  function Picked(written: seq<Payload>, tags: seq<nat>, i: nat): seq<Payload>
    requires |tags| == |written|
  {
    if written == [] then []
    else
      var last := |written| - 1;
      Picked(written[..last], tags[..last], i) + if tags[last] == i then [written[last]] else []
  }

  /** Bucket by bucket, what was written is what that bucket handed on, in order. */
  ghost predicate Tagged(written: seq<Payload>, tags: seq<nat>, hist: seq<Hist>) {
    |tags| == |written| && forall i: nat :: i < |hist| ==> Picked(written, tags, i) == Told(hist[i])
  }

  /** What was written is an interleaving of what the buckets handed on, and no more. */
  ghost predicate Accounted(written: seq<Payload>, hist: seq<Hist>) {
    && multiset(written) == Handed(hist)
    && exists tags :: Tagged(written, tags, hist)
  }

  /** Everything pushed was written, is held, or was a repeat of a held packet. */
  lemma {:induction false} AllAccounted(hist: seq<Hist>, clock: int)
    requires AllSane(hist, clock)
    ensures Pushed(hist) == Handed(hist) + StillHeld(hist) + Dropped(hist)
  {
    if hist != [] {
      AllAccounted(hist[1..], clock);
    }
  }

  lemma NothingLost(written: seq<Payload>, hist: seq<Hist>, clock: int)
    requires Accounted(written, hist) && AllSane(hist, clock)
    ensures Pushed(hist) == multiset(written) + StillHeld(hist) + Dropped(hist)
  {
    AllAccounted(hist, clock);
  }

  // ----- one bucket

  lemma {:induction false} TextsAccounted(outs: seq<Out>)
    ensures multiset(Texts(outs)) == PayloadsOf(outs)
  {
    if outs != [] {
      var first, rest := outs[0], outs[1..];
      TextsAccounted(rest);
      assert outs == [first] + rest;
      TextsSum([first], rest);
      PayloadsOfOne(first);
      PayloadsOfSum([first], rest);
      assert Texts([first]) == [first.payload];
      hide Texts, PayloadsOf;
    } else {
      assert Texts(outs) == [];
    }
  }

  /** A move hands on outs, after all the bucket had handed on before. */
  ghost predicate HandsOn(h: Hist, g: Hist, outs: seq<Out>) {
    HandedOn(g) == HandedOn(h) + PayloadsOf(outs) && Told(g) == Told(h) + Texts(outs)
  }

  lemma LoggedAccount(h: Hist, b: Bucket, outs: seq<Out>)
    ensures HandsOn(h, Logged(h, b, outs), outs)
  {
    PayloadsOfSum(h.log, outs);
    TextsSum(h.log, outs);
    PlusAssoc(ClosedPayloads(h.closed), PayloadsOf(h.log), PayloadsOf(outs));
    ThenAssoc(TextsOfAll(h.closed), Texts(h.log), Texts(outs));
  }

  lemma PlusAssoc(a: multiset<Payload>, b: multiset<Payload>, c: multiset<Payload>)
    ensures a + b + c == a + (b + c)
  {
  }

  lemma ThenAssoc(a: seq<Payload>, b: seq<Payload>, c: seq<Payload>)
    ensures a + b + c == a + (b + c)
  {
  }

  /** Forgetting an idle bucket hands nothing on. */
  lemma ExpiredAccount(h: Hist, now: int)
    ensures HandsOn(h, Expired(h, now), [])
  {
    assert Told(h) + [] == Told(h);
  }

  lemma RecordAccount(h: Hist, a: Arrived, path: nat, pos: int, payload: Payload)
    requires !a.anew ==> a.closing == []
    ensures HandsOn(h, Record(h, a, path, pos, payload), a.closing + a.out)
  {
    if a.anew {
      AnewAccount(h.closed, h.log, a.closing, a.out);
      AnewTold(h.closed, h.log, a.closing, a.out);
    } else {
      assert a.closing + a.out == a.out;
      LoggedAccount(h, a.b, a.out);
    }
  }

  lemma AnewTold(closed: seq<seq<Out>>, log: seq<Out>, closing: seq<Out>, out: seq<Out>)
    ensures TextsOfAll(closed + [log + closing]) + Texts(out)
            == TextsOfAll(closed) + Texts(log) + Texts(closing + out)
  {
    var all := closed + [log + closing];
    assert all[..|all| - 1] == closed;
    TextsSum(closing, out);
    TextsSum(log, closing);
  }

  lemma AnewAccount(closed: seq<seq<Out>>, log: seq<Out>, closing: seq<Out>, out: seq<Out>)
    ensures ClosedPayloads(closed + [log + closing]) + PayloadsOf(out)
            == ClosedPayloads(closed) + PayloadsOf(log) + PayloadsOf(closing + out)
  {
    var all := closed + [log + closing];
    assert all[..|all| - 1] == closed;
    PayloadsOfSum(closing, out);
    PayloadsOfSum(log, closing);
    Regroup4(ClosedPayloads(closed), PayloadsOf(log), PayloadsOf(closing), PayloadsOf(out));
  }

  lemma Regroup4(closed: multiset<Payload>, log: multiset<Payload>, closing: multiset<Payload>, out: multiset<Payload>)
    ensures closed + (log + closing) + out == closed + log + (closing + out)
  {
  }

  lemma ClosesOnlyAnew(b: Bucket, now: int, path: nat, n: FlowSeq, payload: Payload)
    ensures var a := Arrive(b, now, path, n, payload); !a.anew ==> a.closing == []
  {
  }

  // ----- one bucket among all

  lemma {:induction false} HandedMoves(hist: seq<Hist>, i: nat, h: Hist, gain: multiset<Payload>)
    requires i < |hist| && HandedOn(h) == HandedOn(hist[i]) + gain
    ensures Handed(hist[i := h]) == Handed(hist) + gain
  {
    if i == 0 {
      assert hist[0 := h][1..] == hist[1..];
      Regroup(HandedOn(hist[0]), Handed(hist[1..]), gain);
    } else {
      assert hist[i := h][1..] == hist[1..][i - 1 := h];
      HandedMoves(hist[1..], i - 1, h, gain);
      Regroup(HandedOn(hist[0]), Handed(hist[1..]), gain);
    }
  }

  lemma Regroup(a: multiset<Payload>, b: multiset<Payload>, gain: multiset<Payload>)
    ensures (a + gain) + b == (a + b) + gain == a + (b + gain)
  {
  }

  lemma {:induction false} PushedMoves(hist: seq<Hist>, i: nat, h: Hist, gain: multiset<Payload>)
    requires i < |hist| && h.pushed == hist[i].pushed + gain
    ensures Pushed(hist[i := h]) == Pushed(hist) + gain
  {
    if i == 0 {
      assert hist[0 := h][1..] == hist[1..];
      Regroup(hist[0].pushed, Pushed(hist[1..]), gain);
    } else {
      assert hist[i := h][1..] == hist[1..][i - 1 := h];
      PushedMoves(hist[1..], i - 1, h, gain);
      Regroup(hist[0].pushed, Pushed(hist[1..]), gain);
    }
  }

  lemma {:induction false} PickedOn(written: seq<Payload>, tags: seq<nat>, texts: seq<Payload>, i: nat, j: nat)
    requires |tags| == |written|
    ensures Picked(written + texts, tags + seq(|texts|, _ => i), j)
            == Picked(written, tags, j) + if i == j then texts else []
  {
    if texts == [] {
      assert written + texts == written && tags + seq(0, _ => i) == tags;
    } else {
      var last := |texts| - 1;
      assert (written + texts)[..|written| + last] == written + texts[..last];
      assert (tags + seq(|texts|, _ => i))[..|written| + last] == tags + seq(last, _ => i);
      PickedOn(written, tags, texts[..last], i, j);
      assert texts[..last] + [texts[last]] == texts;
    }
  }

  lemma TagsMove(written: seq<Payload>, tags: seq<nat>, hist: seq<Hist>, i: nat, h: Hist, texts: seq<Payload>)
    requires i < |hist| && Told(h) == Told(hist[i]) + texts && Tagged(written, tags, hist)
    ensures Tagged(written + texts, tags + seq(|texts|, _ => i), hist[i := h])
  {
    var w, t, now := written + texts, tags + seq(|texts|, _ => i), hist[i := h];
    forall j: nat | j < |hist| ensures Picked(w, t, j) == Told(now[j]) {
      PickedOn(written, tags, texts, i, j);
    }
  }

  lemma AccountMoves(written: seq<Payload>, hist: seq<Hist>, i: nat, h: Hist, outs: seq<Out>)
    requires i < |hist| && HandsOn(hist[i], h, outs) && Accounted(written, hist)
    ensures Accounted(written + Texts(outs), hist[i := h])
  {
    hide Told, HandedOn, Handed, Picked, Tagged, Texts, PayloadsOf;
    HandedMoves(hist, i, h, PayloadsOf(outs));
    TextsAccounted(outs);
    var tags :| Tagged(written, tags, hist);
    TagsMove(written, tags, hist, i, h, Texts(outs));
  }

  // ----- the operations

  lemma TakenAccounted(written: seq<Payload>, hist: seq<Hist>, i: nat, now: int, path: nat, n: FlowSeq, payload: Payload)
    requires i < |hist| && Accounted(written, hist)
    ensures var t := Taken(hist, i, now, path, n, payload); Accounted(written + t.texts, t.hist)
  {
    var a := Arrive(hist[i].b, now, path, n, payload);
    var pos := PositionOf(Wake(hist[i].b, now), n);
    ClosesOnlyAnew(hist[i].b, now, path, n, payload);
    RecordAccount(hist[i], a, path, pos, payload);
    AccountMoves(written, hist, i, Arrives(hist[i], now, path, n, payload), a.closing + a.out);
  }

  lemma ForceAccounted(written: seq<Payload>, hist: seq<Hist>, forced: Forced)
    requires Accounted(written, hist)
    ensures Accounted(written + Texts(ForceOut(hist, forced)), AfterForce(hist, forced))
  {
    if forced.ForcedOn? && forced.j in WaitingIn(hist) {
      var h := hist[forced.j];
      LoggedAccount(h, SkipToHeld(h.b), ResumeOut(h.b, Lowest(h.b.held)));
      AccountMoves(written, hist, forced.j, GaveUp(h), ResumeOut(h.b, Lowest(h.b.held)));
    } else {
      assert written + [] == written;
    }
  }

  lemma RelievedAccounted(written: seq<Payload>, hist: seq<Hist>, i: nat, now: int, done: bool, forced: Forced, paths: Paths)
    requires i < |hist| && paths.maxPath < |paths.seen| && Accounted(written, hist)
    ensures Accounted(RelievedTexts(written, hist, i, now, done, forced, paths),
                      Relieved(hist, i, now, done, forced, paths))
  {
    ForceAccounted(written, hist, forced);
    if !done {
      var w, h := written + Texts(ForceOut(hist, forced)), AfterForce(hist, forced);
      LoggedAccount(h[i], PassGaps(h[i].b, paths, now), PassOut(h[i].b, paths, now));
      AccountMoves(w, h, i, GapsChecked(h[i], now, paths), PassOut(h[i].b, paths, now));
    }
  }

  /** A push writes exactly what the histories hand on. */
  lemma PushAccounted(written: seq<Payload>, hist: seq<Hist>, i: nat, now: int, path: nat, n: FlowSeq, payload: Payload,
                      forced: Forced, paths: Paths)
    requires i < |hist| && paths.maxPath < |paths.seen| && Accounted(written, hist)
    ensures var t := Taken(hist, i, now, path, n, payload);
            Accounted(RelievedTexts(written + t.texts, t.hist, i, now, t.done, forced, paths),
                      Relieved(t.hist, i, now, t.done, forced, paths))
  {
    var t := Taken(hist, i, now, path, n, payload);
    TakenAccounted(written, hist, i, now, path, n, payload);
    RelievedAccounted(written + t.texts, t.hist, i, now, t.done, forced, paths);
  }

  /** A push adds its one payload to what was pushed, whatever it releases. */
  lemma PushGrows(hist: seq<Hist>, i: nat, now: int, path: nat, n: FlowSeq, payload: Payload, forced: Forced, paths: Paths)
    requires i < |hist| && paths.maxPath < |paths.seen|
    ensures var t := Taken(hist, i, now, path, n, payload);
            Pushed(Relieved(t.hist, i, now, t.done, forced, paths)) == Pushed(hist) + multiset{payload}
  {
    var t := Taken(hist, i, now, path, n, payload);
    PushedMoves(hist, i, Arrives(hist[i], now, path, n, payload), multiset{payload});
    RelieveAddsNothing(t.hist, i, now, t.done, forced, paths);
  }

  lemma RelieveAddsNothing(hist: seq<Hist>, i: nat, now: int, done: bool, forced: Forced, paths: Paths)
    requires i < |hist| && paths.maxPath < |paths.seen|
    ensures Pushed(Relieved(hist, i, now, done, forced, paths)) == Pushed(hist)
  {
    if forced.ForcedOn? && forced.j in WaitingIn(hist) {
      PushedMoves(hist, forced.j, GaveUp(hist[forced.j]), multiset{});
    }
    var after := AfterForce(hist, forced);
    PushedMoves(after, i, GapsChecked(after[i], now, paths), multiset{});
  }

  lemma {:induction false} SweepAccounted(written: seq<Payload>, hist: seq<Hist>, order: seq<nat>, now: int, hold: int)
    requires Accounted(written, hist)
    ensures Accounted(SweptTexts(written, hist, order, now, hold), SweptAll(hist, order, now, hold))
  {
    if order != [] {
      var last := |order| - 1;
      SweepAccounted(written, hist, order[..last], now, hold);
      var r := SweptAll(hist, order[..last], now, hold);
      if order[last] < |hist| {
        var h := r[order[last]];
        LoggedAccount(h, TimeOut(h.b, now, hold), TimeOutOut(h.b, now, hold));
        AccountMoves(SweptTexts(written, hist, order[..last], now, hold), r, order[last], Swept(h, now, hold),
                     TimeOutOut(h.b, now, hold));
      }
    }
  }

  lemma {:induction false} ResetAccounted(written: seq<Payload>, hist: seq<Hist>, n: nat)
    requires n <= |hist| && Accounted(written, hist)
    ensures Accounted(ClosedTexts(written, hist, n), ClosedUpTo(hist, n))
  {
    hide Accounted, HandsOn, FlushOut;
    if n > 0 {
      ResetAccounted(written, hist, n - 1);
      ClosedUpToStep(hist, n - 1);
      var h := hist[n - 1];
      LoggedAccount(h, Flush(h.b).(started := false, marks := []), FlushOut(h.b));
      AccountMoves(ClosedTexts(written, hist, n - 1), ClosedUpTo(hist, n - 1), n - 1, Closed(h), FlushOut(h.b));
    }
  }

  lemma {:induction false} ExpireAccounted(written: seq<Payload>, hist: seq<Hist>, n: nat, now: int)
    requires n <= |hist| && Accounted(written, hist)
    ensures Accounted(written, ExpiredUpTo(hist, n, now))
  {
    hide Accounted, HandsOn, Expired;
    if n > 0 {
      ExpireAccounted(written, hist, n - 1, now);
      ExpiredUpToStep(hist, n - 1, now);
      ExpiredAccount(hist[n - 1], now);
      AccountMoves(written, ExpiredUpTo(hist, n - 1, now), n - 1, Expired(hist[n - 1], now), []);
      assert written + [] == written;
    }
  }
}
