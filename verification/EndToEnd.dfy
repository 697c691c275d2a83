/** A sender and a receiver together: what the receiver lets through and writes, told as
    packets of the sender. */
module EndToEnd {
  import opened Bytes
  import opened Serial
  import opened FlowBucket
  import FlowRuns
  import opened FlowSources
  import opened Reseq
  import opened ReseqAccounts
  import opened Sender
  import Dedup
  import Session

  type Hist = FlowRuns.Hist
  type Data = Session.Data

  /** The receiver; what the sender has made in each of its lives, the last one the
      present; which of its packets the filter has let through in its epoch; and how far
      the sender's global positions, and its tags of each bucket, are ahead of what they
      are read as. */
  datatype Joint = Joint(r: Session.Receiver, lives: seq<Life>, named: seq<nat>, off: int, bases: seq<int>) {
    function Life(): Sender.Life
      requires lives != []
    {
      lives[|lives| - 1]
    }
  }

  /** A packet is made, or one made in the present life arrives, any number of times
      and in any order; or the receiver sweeps, expires, or hears that the sender has
      begun again. */
  datatype Event =
    | Make(m: Made)
    | Deliver(g: nat, carried: bool, path: nat, now: int, forced: Forced, paths: Paths)
    | Sweep(order: seq<nat>, now: int, hold: int)
    | Expire(now: int)
    | Restart

  ghost predicate Good(j: Joint) {
    Session.Balanced(j.r) && j.lives != [] && |j.bases| == FLOW_BUCKETS
  }

  predicate Enabled(j: Joint, e: Event)
    requires j.lives != []
  {
    match e
    case Make(m) => m.Bulk? ==> m.bucket < FLOW_BUCKETS
    case Deliver(g, carried, path, now, forced, paths) =>
      g < |j.Life()| && !j.Life()[g].Control? && (j.Life()[g].Bulk? ==> j.Life()[g].bucket < FLOW_BUCKETS)
      && Session.Enabled(j.r, Heard(j, e))
    case Sweep(_, now, _) => j.r.clock <= now
    case Expire(now) => j.r.clock <= now
    case Restart => true
  }

  function DataIn(j: Joint, e: Event): Data
    requires j.lives != [] && e.Deliver? && e.g < |j.Life()| && !j.Life()[e.g].Control?
  {
    DataOf(j.Life(), e.g, e.carried, e.path, e.now)
  }

  /** What the receiver makes of an event. */
  function Heard(j: Joint, e: Event): Session.Event
    requires j.lives != [] && !e.Make?
    requires e.Deliver? ==> e.g < |j.Life()| && !j.Life()[e.g].Control?
  {
    match e
    case Deliver(g, carried, path, now, forced, paths) => Session.Arrive(DataIn(j, e), forced, paths)
    case Sweep(order, now, hold) => Session.Sweep(order, now, hold)
    case Expire(now) => Session.Expire(now)
    case Restart => Session.Restart
  }

  /** The filter lets it through. */
  predicate Passes(j: Joint, e: Event)
    requires j.lives != [] && Enabled(j, e)
  {
    e.Deliver? && !Dedup.Refuses(j.r.w, DataIn(j, e).n)
  }

  /** The filter lets it through to the resequencer. */
  predicate Spreads(j: Joint, e: Event)
    requires j.lives != [] && Enabled(j, e)
  {
    Passes(j, e) && DataIn(j, e).hasFlow
  }

  function NamedAfter(j: Joint, e: Event): seq<nat>
    requires j.lives != [] && Enabled(j, e)
  {
    if e.Restart? then []
    else if !Passes(j, e) then j.named
    else if Dedup.Reseeds(j.r.w, DataIn(j, e).n) then [e.g]
    else j.named + [e.g]
  }

  /** A filter not started reads the first packet's number as its position. */
  function OffAfter(j: Joint, e: Event): int
    requires j.lives != [] && Enabled(j, e)
  {
    if Passes(j, e) && j.r.w.Unseeded? then e.g + 1 - Num(e.g + 1) else j.off
  }

  /** Where the bucket's positions start from once the packet has arrived. */
  function BaseAfter(w: Bucket, base: int, tag: nat): int {
    if w.started then base else tag - tag % FLOW_SPACE
  }

  /** And so does a bucket not started its first packet's tag. */
  function BasesAfter(j: Joint, e: Event): seq<int>
    requires Good(j) && Enabled(j, e)
  {
    if Spreads(j, e) then
      var i := DataIn(j, e).bucket;
      j.bases[i := BaseAfter(Wake(j.r.hist[i].b, e.now), j.bases[i], TagOf(j.Life(), e.g))]
    else j.bases
  }

  function LivesAfter(j: Joint, e: Event): seq<Life>
    requires j.lives != []
  {
    match e
    case Make(m) => j.lives[|j.lives| - 1 := j.Life() + [m]]
    case Restart => j.lives + [[]]
    case _ => j.lives
  }

  ghost function Step(j: Joint, e: Event): Joint
    requires Good(j) && Enabled(j, e)
  {
    Joint(if e.Make? then j.r else Session.Step(j.r, Heard(j, e)),
          LivesAfter(j, e), NamedAfter(j, e), OffAfter(j, e), BasesAfter(j, e))
  }

  lemma StepGood(j: Joint, e: Event)
    requires Good(j) && Enabled(j, e)
    ensures Good(Step(j, e))
  {
    hide Session.Balanced, Session.Step, Session.Enabled, Dedup.Refuses, Dedup.Reseeds, Wake;
    if !e.Make? {
      Session.StepBalanced(j.r, Heard(j, e));
    }
  }

  // ----- the filter

  /** The packet is less than half the number space from the filter's top, as positions
      of the sender. */
  predicate NearTop(j: Joint, e: Event) {
    e.Deliver? && j.r.w.Window? ==> -HALF_SEQ <= e.g + 1 - j.off - j.r.w.top < HALF_SEQ
  }

  predicate IsLet(l: Session.Let, g: nat, life: Life, off: int) {
    g < |life| && !life[g].Control? && l == Session.Let(g + 1 - off, life[g].payload)
  }

  /** What was let through in this epoch are the packets named, by their payloads and, but
      for whole wraps, their positions. */
  ghost predicate Named(epoch: seq<Session.Let>, named: seq<nat>, life: Life, off: int) {
    && off % SEQ_SPACE == 0 && |named| == |epoch|
    && forall i :: 0 <= i < |named| ==> IsLet(epoch[i], named[i], life, off)
  }

  ghost predicate AllNamed(j: Joint)
    requires j.lives != []
  {
    Named(j.r.epoch, j.named, j.Life(), j.off)
  }

  lemma WholeWraps(p: int, off: int)
    requires off % SEQ_SPACE == 0
    ensures Num(p - off) == Num(p) && (p - Num(p)) % SEQ_SPACE == 0
  {
    var k, q := off / SEQ_SPACE, p / SEQ_SPACE;
    assert off == k * SEQ_SPACE && p == q * SEQ_SPACE + Num(p);
    assert p - off == (q - k) * SEQ_SPACE + Num(p);
  }

  lemma ReadFrom(w: Dedup.Window, p: int, off: int)
    requires off % SEQ_SPACE == 0 && (w.Window? ==> -HALF_SEQ <= p - off - w.top < HALF_SEQ)
    ensures Dedup.PositionOf(w, Num(p)) == if w.Unseeded? then Num(p) else p - off
    ensures (p - Num(p)) % SEQ_SPACE == 0
  {
    WholeWraps(p, off);
    if w.Window? {
      NearestOfNum(p - off, w.top);
    }
  }

  lemma PositionIsRead(j: Joint, e: Event)
    requires Good(j) && Enabled(j, e) && e.Deliver? && NearTop(j, e) && j.off % SEQ_SPACE == 0
    ensures OffAfter(j, e) % SEQ_SPACE == 0
    ensures Passes(j, e) ==> Dedup.PositionOf(j.r.w, DataIn(j, e).n) == e.g + 1 - OffAfter(j, e)
  {
    hide Session.Balanced, Session.Enabled, Dedup.Refuses, Nearest;
    ReadFrom(j.r.w, e.g + 1, j.off);
  }

  lemma LifeAfter(j: Joint, e: Event)
    requires Good(j) && Enabled(j, e)
    ensures e.Deliver? || e.Sweep? || e.Expire? ==> Step(j, e).Life() == j.Life()
    ensures e.Restart? ==> Step(j, e).Life() == []
    ensures e.Make? ==> Step(j, e).Life() == j.Life() + [e.m]
  {
    hide Session.Step, Session.Balanced, Session.Enabled, Passes, Spreads;
  }

  /** A packet let through is named beside those let through before it. */
  lemma PassNamed(j: Joint, e: Event)
    requires Good(j) && Enabled(j, e) && Passes(j, e) && AllNamed(j) && OffAfter(j, e) % SEQ_SPACE == 0
    requires Dedup.PositionOf(j.r.w, DataIn(j, e).n) == e.g + 1 - OffAfter(j, e)
    ensures var d := DataIn(j, e);
            var l := Session.Let(Dedup.PositionOf(j.r.w, d.n), d.payload);
            Named(if Dedup.Reseeds(j.r.w, d.n) then [l] else j.r.epoch + [l], NamedAfter(j, e), j.Life(), OffAfter(j, e))
  {
    hide Dedup.Refuses, Dedup.PositionOf, AllSane, Accounted, Session.Enabled, Session.LetPayloads, Pushed;
    var d := DataIn(j, e);
    var l := Session.Let(Dedup.PositionOf(j.r.w, d.n), d.payload);
    assert IsLet(l, e.g, j.Life(), OffAfter(j, e));
    assert j.r.w.Unseeded? ==> j.r.epoch == [];
  }

  lemma MakeNamed(j: Joint, e: Event)
    requires Good(j) && Enabled(j, e) && e.Make? && AllNamed(j)
    ensures AllNamed(Step(j, e))
  {
    hide Session.Balanced;
    LifeAfter(j, e);
  }

  lemma StepNamed(j: Joint, e: Event)
    requires Good(j) && Enabled(j, e) && NearTop(j, e) && AllNamed(j)
    ensures AllNamed(Step(j, e))
  {
    if e.Make? {
      MakeNamed(j, e);
    } else {
      LifeAfter(j, e);
      assert !e.Make? ==> Step(j, e).r == Session.Step(j.r, Heard(j, e));
      hide Session.Step, Dedup.Refuses, Dedup.Reseeds, Dedup.PositionOf, Wake, NearTop, Session.Enabled, IsLet, BasesAfter;
      Session.EpochAfter(j.r, Heard(j, e));
      if e.Deliver? {
        PositionIsRead(j, e);
        if Passes(j, e) {
          PassNamed(j, e);
        }
      }
    }
  }

  // ----- runs

  const START := Joint(Session.NEW, [[]], [], 0, seq(FLOW_BUCKETS, _ => 0))

  lemma StartGood()
    ensures Good(START)
  {
    hide Session.Balanced;
    Session.NewBalanced();
  }

  ghost predicate AllEnabled(j: Joint, events: seq<Event>)
    requires Good(j)
    decreases |events|
  {
    events == []
    || (Enabled(j, events[0]) && (StepGood(j, events[0]); AllEnabled(Step(j, events[0]), events[1..])))
  }

  ghost function Run(j: Joint, events: seq<Event>): (z: Joint)
    requires Good(j) && AllEnabled(j, events)
    ensures Good(z)
    decreases |events|
  {
    if events == [] then j
    else
      StepGood(j, events[0]);
      Run(Step(j, events[0]), events[1..])
  }

  /** Every packet arrives less than half the number space from the filter's top. */
  ghost predicate TopsNear(j: Joint, events: seq<Event>)
    requires Good(j) && AllEnabled(j, events)
    decreases |events|
  {
    events == []
    || (NearTop(j, events[0]) && (StepGood(j, events[0]); TopsNear(Step(j, events[0]), events[1..])))
  }

  lemma {:induction false} RunNamed(j: Joint, events: seq<Event>)
    requires Good(j) && AllEnabled(j, events) && TopsNear(j, events) && AllNamed(j)
    ensures AllNamed(Run(j, events))
    decreases |events|
  {
    hide Good, Step, Enabled, NearTop, AllNamed;
    if events != [] {
      StepGood(j, events[0]);
      StepNamed(j, events[0]);
      RunNamed(Step(j, events[0]), events[1..]);
    }
  }

  // ----- at most once, packet by packet

  function MadePayloads(life: Life): multiset<Payload> {
    if life == [] then multiset{}
    else
      var last := |life| - 1;
      MadePayloads(life[..last]) + if life[last].Control? then multiset{} else multiset{life[last].payload}
  }

  lemma {:induction false} OneUnmade(life: Life, g: nat)
    requires g < |life| && !life[g].Control?
    ensures MadePayloads(life) == MadePayloads(life[g := Control]) + multiset{life[g].payload}
  {
    var last, less := |life| - 1, life[g := Control];
    if g < last {
      OneUnmade(life[..last], g);
      assert less[..last] == life[..last][g := Control];
    } else {
      assert less[..last] == life[..last];
    }
  }

  /** Packets named once each take no more than was made. */
  lemma {:induction false} LetsAreMade(epoch: seq<Session.Let>, named: seq<nat>, life: Life, off: int)
    requires |named| == |epoch| && forall i :: 0 <= i < |named| ==> IsLet(epoch[i], named[i], life, off)
    requires forall i, k :: 0 <= i < k < |named| ==> named[i] != named[k]
    ensures Session.LetPayloads(epoch) <= MadePayloads(life)
  {
    if epoch != [] {
      var last := |epoch| - 1;
      var g := named[last];
      OneUnmade(life, g);
      forall i | 0 <= i < last ensures IsLet(epoch[..last][i], named[..last][i], life[g := Control], off) {
        assert IsLet(epoch[i], named[i], life, off) && named[i] != g;
      }
      assert IsLet(epoch[last], g, life, off);
      LetsAreMade(epoch[..last], named[..last], life[g := Control], off);
    }
  }

  lemma NamedOnce(j: Joint)
    requires Good(j) && AllNamed(j)
    ensures forall i, k :: 0 <= i < k < |j.named| ==> j.named[i] != j.named[k]
  {
    hide AllSane, Accounted, Pushed, Session.LetPayloads;
    forall i, k | 0 <= i < k < |j.named| ensures j.named[i] != j.named[k] {
      assert IsLet(j.r.epoch[i], j.named[i], j.Life(), j.off) && IsLet(j.r.epoch[k], j.named[k], j.Life(), j.off);
    }
  }

  /** Each packet let through in this epoch is one of the sender's present life, and no
      other's. */
  ghost predicate OncePerPacket(j: Joint)
    requires j.lives != []
  {
    && |j.named| == |j.r.epoch|
    && (forall i :: 0 <= i < |j.named| ==>
          && j.named[i] < |j.Life()| && !j.Life()[j.named[i]].Control?
          && j.r.epoch[i].payload == j.Life()[j.named[i]].payload)
    && forall i, k :: 0 <= i < k < |j.named| ==> j.named[i] != j.named[k]
  }

  lemma NamedIsOnce(j: Joint)
    requires Good(j) && AllNamed(j)
    ensures OncePerPacket(j)
  {
    NamedOnce(j);
    hide Session.Balanced;
    forall i | 0 <= i < |j.named|
      ensures j.named[i] < |j.Life()| && !j.Life()[j.named[i]].Control?
              && j.r.epoch[i].payload == j.Life()[j.named[i]].payload
    {
      assert IsLet(j.r.epoch[i], j.named[i], j.Life(), j.off);
    }
  }

  lemma NoMore(written: multiset<Payload>, held: multiset<Payload>, dropped: multiset<Payload>, earlier: multiset<Payload>,
               epoch: multiset<Payload>, made: multiset<Payload>, x: Payload)
    requires written + held + dropped == earlier + epoch && epoch <= made
    ensures written[x] <= earlier[x] + made[x]
  {
    assert (written + held + dropped)[x] == (earlier + epoch)[x];
    assert epoch[x] <= made[x];
  }

  lemma WrittenAreMade(j: Joint, x: Payload)
    requires Good(j) && AllNamed(j)
    ensures Session.Tunnel(j.r)[x] <= Session.LetPayloads(j.r.earlier)[x] + MadePayloads(j.Life())[x]
  {
    NamedOnce(j);
    Session.NothingTwice(j.r);
    LetsAreMade(j.r.epoch, j.named, j.Life(), j.off);
    Session.LetJoin(j.r.earlier, j.r.epoch);
    NoMore(Session.Tunnel(j.r), StillHeld(j.r.hist), Dropped(j.r.hist), Session.LetPayloads(j.r.earlier),
           Session.LetPayloads(j.r.epoch), MadePayloads(j.Life()), x);
  }

  /** In every run in which each packet arrives less than half the number space from the
      filter's top, whatever is lost, repeated, reordered, swept or begun again: what the
      filter lets through in one epoch are packets the sender made in its present life,
      each once; so a payload is written no more often than the sender made it in this
      life and it was let through in epochs before. */
  lemma EachPacketOnce(events: seq<Event>, x: Payload)
    requires Good(START) && AllEnabled(START, events) && TopsNear(START, events)
    ensures var z := Run(START, events);
            && OncePerPacket(z)
            && Session.Tunnel(z.r)[x] <= Session.LetPayloads(z.r.earlier)[x] + MadePayloads(z.Life())[x]
  {
    var z := Run(START, events);
    StartNamed();
    hide Good, AllNamed;
    RunNamed(START, events);
    NamedIsOnce(z);
    WrittenAreMade(z, x);
  }

  lemma StartNamed()
    ensures AllNamed(START)
  {
  }

  // ----- in the sender's order

  function MadeFor(lives: seq<Life>, i: nat): (r: seq<seq<Payload>>)
    ensures |r| == |lives| && forall l :: 0 <= l < |r| ==> r[l] == TextsOf(lives[l], i)
  {
    seq(|lives|, l requires 0 <= l < |lives| => TextsOf(lives[l], i))
  }

  predicate WholeTurns(base: int) {
    base % FLOW_SPACE == 0
  }

  /** Everything the buckets hold and have handed on is the sender's, at its tags. */
  ghost predicate SourcedAt(hist: seq<Hist>, lives: seq<Life>, bases: seq<int>, i: nat)
    requires lives != [] && i < |hist| == |bases|
  {
    Sourced(hist[i], MadeFor(lives, i), bases[i]) && WholeTurns(bases[i])
  }

  ghost predicate AllSourced(hist: seq<Hist>, lives: seq<Life>, bases: seq<int>)
    requires lives != []
  {
    |hist| == |bases| && forall i :: 0 <= i < |hist| ==> SourcedAt(hist, lives, bases, i)
  }

  /** A tag is less than half the sequence space from what its bucket expects. */
  ghost predicate NearTag(j: Joint, e: Event)
    requires Good(j) && Enabled(j, e)
  {
    Spreads(j, e) ==>
      var i := DataIn(j, e).bucket;
      IsNear(Wake(j.r.hist[i].b, e.now), TagOf(j.Life(), e.g), j.bases[i])
  }

  predicate IsNear(w: Bucket, tag: nat, base: int) {
    w.started ==> -HALF_FLOW <= tag - base - w.next < HALF_FLOW
  }

  lemma SourcedMoves(hist: seq<Hist>, lives: seq<Life>, bases: seq<int>, i: nat, h: Hist, base: int)
    requires lives != [] && AllSourced(hist, lives, bases) && i < |hist|
    requires Sourced(h, MadeFor(lives, i), base) && WholeTurns(base)
    ensures AllSourced(hist[i := h], lives, bases[i := base])
  {
    hide Sourced;
    var moved, shifted := hist[i := h], bases[i := base];
    forall k | 0 <= k < |hist| ensures SourcedAt(moved, lives, shifted, k) {
      assert SourcedAt(hist, lives, bases, k);
    }
  }

  lemma SourcedMovesOn(hist: seq<Hist>, lives: seq<Life>, bases: seq<int>, i: nat, h: Hist)
    requires lives != [] && AllSourced(hist, lives, bases) && i < |hist|
    requires Sourced(h, MadeFor(lives, i), bases[i])
    ensures AllSourced(hist[i := h], lives, bases)
  {
    hide Sourced;
    assert SourcedAt(hist, lives, bases, i);
    SourcedMoves(hist, lives, bases, i, h, bases[i]);
    assert bases[i := bases[i]] == bases;
  }

  lemma ForcedSourced(hist: seq<Hist>, lives: seq<Life>, bases: seq<int>, i: nat)
    requires lives != [] && AllSourced(hist, lives, bases) && i < |hist| && hist[i].b.held != map[]
    ensures AllSourced(hist[i := FlowRuns.GaveUp(hist[i])], lives, bases)
  {
    hide Sourced, FlowRuns.GaveUp;
    assert SourcedAt(hist, lives, bases, i);
    GaveUpSourced(hist[i], MadeFor(lives, i), bases[i]);
    SourcedMovesOn(hist, lives, bases, i, FlowRuns.GaveUp(hist[i]));
  }

  lemma CheckedSourced(hist: seq<Hist>, lives: seq<Life>, bases: seq<int>, i: nat, now: int, paths: Paths)
    requires lives != [] && AllSourced(hist, lives, bases) && i < |hist| && paths.maxPath < |paths.seen|
    ensures AllSourced(hist[i := FlowRuns.GapsChecked(hist[i], now, paths)], lives, bases)
  {
    hide Sourced, FlowRuns.GapsChecked;
    assert SourcedAt(hist, lives, bases, i);
    GapsCheckedSourced(hist[i], now, paths, MadeFor(lives, i), bases[i]);
    SourcedMovesOn(hist, lives, bases, i, FlowRuns.GapsChecked(hist[i], now, paths));
  }

  lemma RelievedSourced(hist: seq<Hist>, lives: seq<Life>, bases: seq<int>, i: nat, now: int, done: bool, forced: Forced,
                        paths: Paths)
    requires lives != [] && AllSourced(hist, lives, bases) && i < |hist| && paths.maxPath < |paths.seen|
    ensures AllSourced(Relieved(hist, i, now, done, forced, paths), lives, bases)
  {
    hide Sourced, AllSourced, FlowRuns.GaveUp, FlowRuns.GapsChecked;
    if forced.ForcedOn? && forced.j in WaitingIn(hist) {
      ForcedSourced(hist, lives, bases, forced.j);
    }
    if !done {
      CheckedSourced(AfterForce(hist, forced), lives, bases, i, now, paths);
    }
  }

  lemma {:induction false} SweptAllSourced(hist: seq<Hist>, order: seq<nat>, now: int, hold: int, lives: seq<Life>,
                                           bases: seq<int>)
    requires lives != [] && AllSourced(hist, lives, bases)
    ensures AllSourced(SweptAll(hist, order, now, hold), lives, bases)
  {
    hide Sourced, FlowRuns.Swept;
    if order != [] {
      var last := |order| - 1;
      var r, i := SweptAll(hist, order[..last], now, hold), order[last];
      SweptAllSourced(hist, order[..last], now, hold, lives, bases);
      if i < |r| {
        assert SourcedAt(r, lives, bases, i);
        SweptSourced(r[i], now, hold, MadeFor(lives, i), bases[i]);
        SourcedMovesOn(r, lives, bases, i, FlowRuns.Swept(r[i], now, hold));
      }
    }
  }

  lemma {:induction false} ExpiredAllSourced(hist: seq<Hist>, n: nat, now: int, lives: seq<Life>, bases: seq<int>)
    requires n <= |hist| && lives != [] && AllSourced(hist, lives, bases)
    ensures AllSourced(ExpiredUpTo(hist, n, now), lives, bases)
  {
    hide Sourced, FlowRuns.Expired;
    if n > 0 {
      var r := ExpiredUpTo(hist, n - 1, now);
      ExpiredAllSourced(hist, n - 1, now, lives, bases);
      ExpiredUpToStep(hist, n - 1, now);
      assert SourcedAt(r, lives, bases, n - 1);
      ExpiredSourced(r[n - 1], now, MadeFor(lives, n - 1), bases[n - 1]);
      SourcedMovesOn(r, lives, bases, n - 1, FlowRuns.Expired(r[n - 1], now));
    }
  }

  /** With every bucket closed, none has a sequence. */
  lemma {:induction false} ClosedAllSourced(hist: seq<Hist>, n: nat, lives: seq<Life>, bases: seq<int>)
    requires n <= |hist| && lives != [] && AllSourced(hist, lives, bases)
    ensures AllSourced(ClosedUpTo(hist, n), lives, bases)
    ensures forall i :: 0 <= i < n ==> !ClosedUpTo(hist, n)[i].b.started
  {
    hide Sourced, FlowRuns.Closed;
    if n > 0 {
      var r := ClosedUpTo(hist, n - 1);
      ClosedAllSourced(hist, n - 1, lives, bases);
      ClosedUpToStep(hist, n - 1);
      assert SourcedAt(r, lives, bases, n - 1);
      ClosedSourced(r[n - 1], MadeFor(lives, n - 1), bases[n - 1]);
      SourcedMovesOn(r, lives, bases, n - 1, FlowRuns.Closed(r[n - 1]));
    }
  }

  lemma SourcedGrows(hist: seq<Hist>, lives: seq<Life>, more: seq<Life>, bases: seq<int>)
    requires lives != [] && AllSourced(hist, lives, bases) && |lives| <= |more|
    requires forall l :: 0 <= l < |lives| ==> lives[l] <= more[l]
    requires |lives| < |more| ==> forall i :: 0 <= i < |hist| ==> !hist[i].b.started
    ensures AllSourced(hist, more, bases)
  {
    hide Sourced;
    forall i | 0 <= i < |hist| ensures SourcedAt(hist, more, bases, i) {
      assert SourcedAt(hist, lives, bases, i);
      forall l | 0 <= l < |lives| ensures MadeFor(lives, i)[l] <= MadeFor(more, i)[l] {
        TextsOn(lives[l], more[l], i);
      }
      SourcedOn(hist[i], MadeFor(lives, i), MadeFor(more, i), bases[i]);
    }
  }

  /** A tag near what its bucket expects is read as the position it was given, and a
      bucket not started begins there. */
  lemma TagRead(b: Bucket, tag: nat, base: int)
    requires base % FLOW_SPACE == 0
    requires b.started ==> -HALF_FLOW <= tag - base - b.next < HALF_FLOW
    ensures PositionOf(b, tag % FLOW_SPACE) == if b.started then tag - base else tag % FLOW_SPACE
    ensures (tag - tag % FLOW_SPACE) % FLOW_SPACE == 0
  {
    var k, q, n := base / FLOW_SPACE, tag / FLOW_SPACE, tag % FLOW_SPACE;
    assert base == k * FLOW_SPACE && tag == q * FLOW_SPACE + n;
    if b.started {
      assert n - b.next + HALF_FLOW == (tag - base - b.next + HALF_FLOW) - (q - k) * FLOW_SPACE;
    }
  }

  /** The packet is read at the place its tag gives it in the sender's sequence. */
  lemma PlacedByTag(life: Life, g: nat, w: Bucket, base: int)
    requires g < |life| && life[g].Bulk? && WholeTurns(base)
    requires IsNear(w, TagOf(life, g), base)
    ensures var after := BaseAfter(w, base, TagOf(life, g));
            && WholeTurns(after)
            && Source(TextsOf(life, life[g].bucket), after).Has(PositionOf(w, TagOf(life, g) % FLOW_SPACE), life[g].payload)
  {
    TagRead(w, TagOf(life, g), base);
    TagIsItsPlace(life, g);
  }

  lemma ArrivalSourced(hist: seq<Hist>, lives: seq<Life>, bases: seq<int>, i: nat, base: int,
                       now: int, path: nat, n: FlowSeq, payload: Payload)
    requires lives != [] && AllSourced(hist, lives, bases) && i < |hist| && |hist| == |bases| && WholeTurns(base)
    requires Wake(hist[i].b, now).started ==> base == bases[i]
    requires Source(TextsOf(lives[|lives| - 1], i), base).Has(PositionOf(Wake(hist[i].b, now), n), payload)
    ensures |Taken(hist, i, now, path, n, payload).hist| == |hist|
    ensures AllSourced(Taken(hist, i, now, path, n, payload).hist, lives, bases[i := base])
  {
    hide Sourced, Arrive, GapTold, Wake, FlowRuns.Arrives, PositionOf, WholeTurns;
    assert SourcedAt(hist, lives, bases, i);
    ArrivesSourced(hist[i], MadeFor(lives, i), bases[i], base, now, path, n, payload);
    SourcedMoves(hist, lives, bases, i, FlowRuns.Arrives(hist[i], now, path, n, payload), base);
  }

  ghost predicate JointSourced(j: Joint)
    requires j.lives != []
  {
    AllSourced(j.r.hist, j.lives, j.bases)
  }

  lemma BucketCount(j: Joint)
    requires Good(j)
    ensures |j.r.hist| == FLOW_BUCKETS && j.r.w.Valid()
  {
  }

  lemma BaseKept(w: Bucket, base: int, tag: nat)
    ensures w.started ==> BaseAfter(w, base, tag) == base
  {
  }

  lemma OneIsSourced(hist: seq<Hist>, lives: seq<Life>, bases: seq<int>, i: nat)
    requires lives != [] && AllSourced(hist, lives, bases) && i < |hist|
    ensures |hist| == |bases| && WholeTurns(bases[i])
  {
    assert SourcedAt(hist, lives, bases, i);
  }

  lemma SpreadSourced(hist: seq<Hist>, lives: seq<Life>, bases: seq<int>, g: nat, i: nat, now: int, path: nat, n: FlowSeq,
                      payload: Payload, forced: Forced, paths: Paths)
    requires lives != [] && AllSourced(hist, lives, bases) && i < |hist| && |hist| == |bases| && paths.maxPath < |paths.seen|
    requires var life := lives[|lives| - 1];
             && g < |life| && life[g] == Bulk(i, payload) && n == TagOf(life, g) % FLOW_SPACE
             && IsNear(Wake(hist[i].b, now), TagOf(life, g), bases[i])
    ensures var t := Taken(hist, i, now, path, n, payload);
            var base := BaseAfter(Wake(hist[i].b, now), bases[i], TagOf(lives[|lives| - 1], g));
            AllSourced(Relieved(t.hist, i, now, t.done, forced, paths), lives, bases[i := base])
  {
    hide AllSourced, Relieved, Wake, Taken, Sourced, WholeTurns, PositionOf, TagOf, BaseAfter, IsNear;
    var life := lives[|lives| - 1];
    var w := Wake(hist[i].b, now);
    var base := BaseAfter(w, bases[i], TagOf(life, g));
    OneIsSourced(hist, lives, bases, i);
    PlacedByTag(life, g, w, bases[i]);
    BaseKept(w, bases[i], TagOf(life, g));
    ArrivalSourced(hist, lives, bases, i, base, now, path, n, payload);
    var t := Taken(hist, i, now, path, n, payload);
    RelievedSourced(t.hist, lives, bases[i := base], i, now, t.done, forced, paths);
  }

  /** A packet that is spread carries its bucket and its tag. */
  lemma TagCarried(j: Joint, e: Event)
    requires Good(j) && Enabled(j, e) && Spreads(j, e)
    ensures j.Life()[e.g].Bulk?
    ensures var d := DataIn(j, e);
            && d.bucket == j.Life()[e.g].bucket && d.bucket % FLOW_BUCKETS == d.bucket
            && d.flowSeq == TagOf(j.Life(), e.g) % FLOW_SPACE && d.flowSeq % FLOW_SPACE == d.flowSeq
            && d.payload == j.Life()[e.g].payload && d.now == e.now && d.path == e.path
  {
    hide Session.Balanced, Session.Enabled, Dedup.Refuses, TagOf;
  }

  lemma PushSourced(j: Joint, e: Event)
    requires Good(j) && Enabled(j, e) && Spreads(j, e) && NearTag(j, e) && JointSourced(j)
    ensures var d := DataIn(j, e);
            var t := Taken(j.r.hist, d.bucket % FLOW_BUCKETS, d.now, d.path, d.flowSeq % FLOW_SPACE, d.payload);
            AllSourced(Relieved(t.hist, d.bucket % FLOW_BUCKETS, d.now, t.done, e.forced, e.paths), j.lives, BasesAfter(j, e))
  {
    BucketCount(j);
    TagCarried(j, e);
    var d := DataIn(j, e);
    hide AllSourced, Session.Balanced, Relieved, Dedup.Refuses, Wake, Taken, TagOf, DataOf, BaseAfter, IsNear;
    SpreadSourced(j.r.hist, j.lives, j.bases, e.g, d.bucket, e.now, e.path, d.flowSeq, d.payload, e.forced, e.paths);
  }

  lemma DeliverSourced(j: Joint, e: Event)
    requires Good(j) && Enabled(j, e) && e.Deliver? && NearTag(j, e) && JointSourced(j)
    ensures JointSourced(Step(j, e))
  {
    BucketCount(j);
    if Spreads(j, e) {
      PushSourced(j, e);
    }
    hide AllSourced, Session.Step, Session.Balanced, Session.Enabled, Relieved, Dedup.Refuses, Wake, Taken, NearTag, BaseAfter,
      TagOf, DataOf, BasesAfter;
    Session.HistAfter(j.r, Heard(j, e));
  }

  lemma SweepSourced(j: Joint, e: Event)
    requires Good(j) && Enabled(j, e) && (e.Sweep? || e.Expire?) && JointSourced(j)
    ensures JointSourced(Step(j, e))
  {
    BucketCount(j);
    hide AllSourced, Session.Step, Session.Balanced, SweptAll, ExpiredUpTo;
    Session.HistAfter(j.r, Heard(j, e));
    if e.Sweep? {
      SweptAllSourced(j.r.hist, e.order, e.now, e.hold, j.lives, j.bases);
    } else {
      ExpiredAllSourced(j.r.hist, FLOW_BUCKETS, e.now, j.lives, j.bases);
    }
  }

  lemma RestartSourced(j: Joint, e: Event)
    requires Good(j) && Enabled(j, e) && e.Restart? && JointSourced(j)
    ensures JointSourced(Step(j, e))
  {
    hide AllSourced, Session.Step, Session.Balanced, ClosedUpTo, Dedup.Refuses, MadeFor;
    BucketCount(j);
    hide AllSourced, Session.Step, Session.Balanced, ClosedUpTo;
    Session.HistAfter(j.r, Heard(j, e));
    ClosedAllSourced(j.r.hist, FLOW_BUCKETS, j.lives, j.bases);
    SourcedGrows(ClosedUpTo(j.r.hist, FLOW_BUCKETS), j.lives, LivesAfter(j, e), j.bases);
  }

  lemma MakeSourced(j: Joint, e: Event)
    requires Good(j) && Enabled(j, e) && e.Make? && JointSourced(j)
    ensures JointSourced(Step(j, e))
  {
    hide AllSourced, Session.Balanced;
    SourcedGrows(j.r.hist, j.lives, LivesAfter(j, e), j.bases);
  }

  lemma StepSourced(j: Joint, e: Event)
    requires Good(j) && Enabled(j, e) && NearTag(j, e) && JointSourced(j)
    ensures JointSourced(Step(j, e))
  {
    hide JointSourced, Step, Good, Enabled, NearTag;
    match e
    case Make(_) => MakeSourced(j, e);
    case Deliver(_, _, _, _, _, _) => DeliverSourced(j, e);
    case Restart => RestartSourced(j, e);
    case _ => SweepSourced(j, e);
  }

  /** Every tag arrives less than half its space from what its bucket expects. */
  ghost predicate TagsNear(j: Joint, events: seq<Event>)
    requires Good(j) && AllEnabled(j, events)
    decreases |events|
  {
    events == []
    || (NearTag(j, events[0]) && (StepGood(j, events[0]); TagsNear(Step(j, events[0]), events[1..])))
  }

  lemma {:induction false} RunSourced(j: Joint, events: seq<Event>)
    requires Good(j) && AllEnabled(j, events) && TagsNear(j, events) && JointSourced(j)
    ensures JointSourced(Run(j, events))
    decreases |events|
  {
    hide Good, Step, Enabled, NearTag, JointSourced;
    if events != [] {
      StepGood(j, events[0]);
      StepSourced(j, events[0]);
      RunSourced(Step(j, events[0]), events[1..]);
    }
  }

  /** An epoch's deliveries are packets of one life tagged for the bucket, and those on
      time are in the order they were made in. */
  ghost predicate InMadeOrder(log: seq<Out>, life: Life, i: nat, from: seq<nat>) {
    && |from| == |log|
    && (forall k :: 0 <= k < |log| ==> from[k] < |life| && life[from[k]] == Bulk(i, log[k].payload))
    && forall k, m :: 0 <= k < m < |log| && !log[k].late && !log[m].late ==> from[k] < from[m]
  }

  ghost predicate InSomeMadeOrder(log: seq<Out>, lives: seq<Life>, i: nat) {
    exists l: nat, from: seq<nat> :: l < |lives| && InMadeOrder(log, lives[l], i, from)
  }

  lemma SourcedIsOrdered(log: seq<Out>, life: Life, i: nat, base: int) returns (from: seq<nat>)
    requires From(log, Source(TextsOf(life, i), base)) && FlowRuns.Ascends(log)
    ensures InMadeOrder(log, life, i, from)
  {
    var tags := TagsOf(life, i);
    assert forall k :: 0 <= k < |log| ==> Source(TextsOf(life, i), base).Has(log[k].pos, log[k].payload);
    from := seq(|log|, k requires 0 <= k < |log| => tags[log[k].pos + base]);
    forall k | 0 <= k < |log| ensures from[k] < |life| && life[from[k]] == Bulk(i, log[k].payload) {
      var t := log[k].pos + base;
      assert TextsOf(life, i)[t] == life[tags[t]].payload;
    }
  }

  lemma EpochIsOrdered(log: seq<Out>, lives: seq<Life>, i: nat)
    requires OneSource(log, MadeFor(lives, i)) && FlowRuns.Ascends(log)
    ensures InSomeMadeOrder(log, lives, i)
  {
    var l: nat, base: int :| l < |lives| && From(log, Source(MadeFor(lives, i)[l], base));
    var from := SourcedIsOrdered(log, lives[l], i, base);
  }

  /** What each bucket has been handed on for is told in its sender's order, epoch by
      epoch. */
  ghost predicate ToldInOrder(h: Hist, lives: seq<Life>, i: nat) {
    (forall k :: 0 <= k < |h.closed| ==> InSomeMadeOrder(h.closed[k], lives, i)) && InSomeMadeOrder(h.log, lives, i)
  }

  lemma SourcedIsTold(h: Hist, lives: seq<Life>, i: nat, base: int)
    requires lives != [] && Sourced(h, MadeFor(lives, i), base) && FlowRuns.InOrder(h)
    ensures ToldInOrder(h, lives, i)
  {
    forall k | 0 <= k < |h.closed| ensures InSomeMadeOrder(h.closed[k], lives, i) {
      EpochIsOrdered(h.closed[k], lives, i);
    }
    EpochIsOrdered(h.log, lives, i);
  }

  lemma StartSourced()
    ensures JointSourced(START)
  {
    forall i | 0 <= i < FLOW_BUCKETS ensures SourcedAt(START.r.hist, START.lives, START.bases, i) {
      OneSourceOf([], MadeFor(START.lives, i), 0);
    }
  }

  /** In every run in which each tag arrives less than half its space from what its bucket
      expects: what the resequencer writes can be told apart by bucket, each bucket's are
      its epochs one after another, and in each epoch they are packets of one life of the
      sender, tagged for that bucket, in the order it made them but for the late ones. */
  lemma WrittenAsMade(events: seq<Event>) returns (tags: seq<nat>)
    requires Good(START) && AllEnabled(START, events) && TagsNear(START, events)
    ensures var z := Run(START, events);
            && |tags| == |z.r.spread|
            && forall i: nat :: i < FLOW_BUCKETS ==>
                 Picked(z.r.spread, tags, i) == Told(z.r.hist[i]) && ToldInOrder(z.r.hist[i], z.lives, i)
  {
    var z := Run(START, events);
    StartSourced();
    RunSourced(START, events);
    tags := Session.ToldApart(z.r);
    hide Told, Picked, FlowRuns.InOrder, Sourced, ToldInOrder, Good;
    forall i: nat | i < FLOW_BUCKETS
      ensures Picked(z.r.spread, tags, i) == Told(z.r.hist[i]) && ToldInOrder(z.r.hist[i], z.lives, i)
    {
      assert SourcedAt(z.r.hist, z.lives, z.bases, i);
      SourcedIsTold(z.r.hist[i], z.lives, i, z.bases[i]);
    }
  }
}
