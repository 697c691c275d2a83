/** How two builds find the version both can read: session.go's ratchet over the
    headers the two ends send each other, through a channel that loses, repeats and
    reorders. Either end may restart at any time, and come back as another build. */
module Negotiation {
  import opened Bytes
  import opened Wire
  import opened WireTrips

  datatype Side = A | B

  function Other(s: Side): Side {
    if s == A then B else A
  }

  /** One end: its build, the version it speaks, and the newest build it has parsed a
      packet of since it started, or none. */
  datatype End = End(build: Build, speaks: int, heard: int)

  /** A packet as it was sent, and by which build. */
  datatype Sent = Sent(build: Build, version: int, h: Header, payload: seq<Byte>)

  function BytesOf(mac: Mac, key: seq<Byte>, m: Sent): seq<Byte> {
    Encode(m.build, mac, m.h, m.version, key) + m.payload
  }

  /** Both ends, and every packet either has ever sent. */
  datatype Net = Net(a: End, b: End, fromA: set<Sent>, fromB: set<Sent>) {
    function At(s: Side): End {
      if s == A then a else b
    }

    function SentTo(s: Side): set<Sent> {
      if s == A then fromB else fromA
    }

    function Now(s: Side, e: End): Net {
      if s == A then this.(a := e) else this.(b := e)
    }

    function Sends(s: Side, m: Sent): Net {
      if s == A then this.(fromA := fromA + {m}) else this.(fromB := fromB + {m})
    }
  }

  datatype Event =
    | Send(s: Side, h: Header, payload: seq<Byte>)
    | Receive(s: Side, m: Sent)
    | Restart(s: Side, build: Build)

  /** The version the peer is now known to read: never downwards. */
  function Ratchet(speaks: int, heard: int): int {
    if heard <= speaks then speaks else heard
  }

  function Older(a: int, b: int): int {
    if a < b then a else b
  }

  /** What a session ever builds: types and classes in range, four entries a block
      at most. */
  predicate Buildable(h: Header) {
    h.type_ < 16 && h.class_ < 4 && |h.echo| <= MAX_ECHO && |h.reports| <= MAX_REPORTS
  }

  /** Only what was sent is received; it may be received at any later time, any
      number of times, or never. */
  predicate Possible(n: Net, e: Event) {
    match e
    case Send(s, h, payload) => Buildable(h)
    case Receive(s, m) => m in n.SentTo(s)
    case Restart(s, build) => true
  }

  /** And builds only go up. */
  predicate Enabled(n: Net, e: Event) {
    Possible(n, e) && (e.Restart? ==> n.At(e.s).build <= e.build)
  }

  function Step(mac: Mac, key: seq<Byte>, n: Net, e: Event): Net {
    match e
    case Send(s, h, payload) => n.Sends(s, Sent(n.At(s).build, n.At(s).speaks, h, payload))
    case Receive(s, m) =>
      var end := n.At(s);
      (match Parse(end.build, mac, BytesOf(mac, key, m), key)
       case Err(_) => n
       case Ok(p, _) =>
         n.Now(s, end.(speaks := Ratchet(end.speaks, p.negotiated),
                       heard := if m.build > end.heard then m.build else end.heard)))
    case Restart(s, build) => n.Now(s, End(build, 1, 0))
  }

  // ----- one packet, one parser

  lemma BuildableFits(version: int, h: Header)
    requires Buildable(h)
    ensures Fits(version, h)
  {
  }

  /** A build refuses a packet for its version exactly when that version is above the
      build. */
  lemma RefusedExactly(mac: Mac, key: seq<Byte>, m: Sent, build: Build)
    ensures Parse(build, mac, BytesOf(mac, key, m), key) == Err(BadVersion) <==> Emitted(m.build, m.version) > build
  {
    EncodedVersion(m.build, mac, m.h, m.version, key, m.payload);
    if Emitted(m.build, m.version) <= build {
      NotForVersion(build, mac, BytesOf(mac, key, m), key);
    }
  }

  lemma NotForVersion(build: Build, mac: Mac, b: seq<Byte>, key: seq<Byte>)
    requires |b| >= BASE_LEN && 1 <= b[0] as int / 16 <= build
    ensures Parse(build, mac, b, key) != Err(BadVersion)
  {
  }

  /** What a packet of another build teaches: the older of the two builds. */
  lemma ReadTeaches(mac: Mac, key: seq<Byte>, m: Sent, build: Build)
    requires Buildable(m.h) && 1 <= m.version <= m.build && m.version <= build
    ensures var r := Parse(build, mac, BytesOf(mac, key, m), key);
            r.Ok? && r.value.negotiated == Older(m.build, build)
  {
    BuildableFits(m.version, m.h);
    WholeTrip(m.build, build, mac, m.h, m.version, key, key, m.payload);
  }

  // ----- what every reachable state satisfies

  /** A packet from one end to another reads: it is in a version the receiver knows,
      by a build the sender has not gone back from. */
  predicate Readable(m: Sent, from: End, to: End) {
    Buildable(m.h) && 1 <= m.version <= m.build && m.version <= to.build && m.build <= from.build
  }

  predicate AllReadable(sent: set<Sent>, from: End, to: End) {
    forall m: Sent :: m in sent ==> Readable(m, from, to)
  }

  /** An end speaks a version both builds read, and at least what it has heard
      allows. */
  predicate EndOk(e: End, other: End) {
    1 <= e.speaks <= Older(e.build, other.build) && Older(e.heard, e.build) <= e.speaks && e.heard <= other.build
  }

  /** What an end has heard, it has been sent. */
  ghost predicate HeardSent(e: End, sent: set<Sent>) {
    e.heard > 0 ==> exists m: Sent :: m in sent && m.build == e.heard
  }

  ghost predicate Agreeable(n: Net) {
    && EndOk(n.a, n.b) && EndOk(n.b, n.a)
    && HeardSent(n.a, n.fromB) && HeardSent(n.b, n.fromA)
    && AllReadable(n.fromA, n.a, n.b) && AllReadable(n.fromB, n.b, n.a)
  }

  lemma ReceiveAgrees(mac: Mac, key: seq<Byte>, n: Net, s: Side, m: Sent)
    requires Agreeable(n) && m in n.SentTo(s)
    ensures var z := Step(mac, key, n, Receive(s, m));
            && Agreeable(z) && n.At(s).speaks <= z.At(s).speaks
            && z.At(s).speaks >= Older(m.build, n.At(s).build) && z.At(s).heard >= m.build
  {
    assert Readable(m, n.At(Other(s)), n.At(s));
    ReadTeaches(mac, key, m, n.At(s).build);
  }

  lemma StepAgrees(mac: Mac, key: seq<Byte>, n: Net, e: Event)
    requires Agreeable(n) && Enabled(n, e)
    ensures Agreeable(Step(mac, key, n, e))
  {
    if e.Receive? {
      ReceiveAgrees(mac, key, n, e.s, e.m);
    }
  }

  /** The version an end speaks never falls while it runs. */
  lemma SpokenNeverFalls(mac: Mac, key: seq<Byte>, n: Net, e: Event, s: Side)
    requires e.Restart? ==> e.s != s
    ensures n.At(s).speaks <= Step(mac, key, n, e).At(s).speaks
  {
  }

  // ----- runs

  predicate AllEnabled(mac: Mac, key: seq<Byte>, n: Net, events: seq<Event>)
    decreases |events|
  {
    events == [] || (Enabled(n, events[0]) && AllEnabled(mac, key, Step(mac, key, n, events[0]), events[1..]))
  }

  function Run(mac: Mac, key: seq<Byte>, n: Net, events: seq<Event>): Net
    decreases |events|
  {
    if events == [] then n else Run(mac, key, Step(mac, key, n, events[0]), events[1..])
  }

  function Started(a: Build, b: Build): Net {
    Net(End(a, 1, 0), End(b, 1, 0), {}, {})
  }

  lemma {:induction false} RunAgrees(mac: Mac, key: seq<Byte>, n: Net, events: seq<Event>)
    requires Agreeable(n) && AllEnabled(mac, key, n, events)
    ensures Agreeable(Run(mac, key, n, events))
    decreases |events|
  {
    if events != [] {
      StepAgrees(mac, key, n, events[0]);
      RunAgrees(mac, key, Step(mac, key, n, events[0]), events[1..]);
    }
  }

  /** Every packet sent is one the end it was sent to, as it is now, parses. */
  ghost predicate AllParsed(mac: Mac, key: seq<Byte>, n: Net) {
    forall s: Side, m: Sent :: m in n.SentTo(s) ==> Parse(n.At(s).build, mac, BytesOf(mac, key, m), key).Ok?
  }

  /** In every run of two ends, from the oldest version and through any restarts and
      upgrades: every packet ever sent is read by the other end; no end speaks above
      what the other reads; and two ends that have each heard the other's present
      build both speak the smaller of the two. */
  lemma EveryRunAgrees(mac: Mac, key: seq<Byte>, a: Build, b: Build, events: seq<Event>)
    requires AllEnabled(mac, key, Started(a, b), events)
    ensures var n := Run(mac, key, Started(a, b), events);
            && AllParsed(mac, key, n)
            && n.a.speaks <= n.b.build && n.b.speaks <= n.a.build
            && (n.a.heard == n.b.build && n.b.heard == n.a.build ==>
                  n.a.speaks == n.b.speaks == Older(n.a.build, n.b.build))
  {
    var n := Run(mac, key, Started(a, b), events);
    RunAgrees(mac, key, Started(a, b), events);
    forall s: Side, m: Sent | m in n.SentTo(s) ensures Parse(n.At(s).build, mac, BytesOf(mac, key, m), key).Ok? {
      assert Readable(m, n.At(Other(s)), n.At(s));
      ReadTeaches(mac, key, m, n.At(s).build);
    }
  }

  // ----- going back

  /** Some packet is refused for its version by the end it was sent to. */
  ghost predicate Refuses(mac: Mac, key: seq<Byte>, n: Net) {
    exists s: Side, m: Sent ::
      m in n.SentTo(s) && Parse(n.At(s).build, mac, BytesOf(mac, key, m), key) == Err(BadVersion)
  }

  /** What an end must not have left behind it to come back as this build: the other
      end speaking above it, a packet to it above it, or one of its own from a newer
      build, which may yet teach the other end to speak above it. */
  ghost predicate MayGoBack(n: Net, s: Side, build: Build) {
    && n.At(Other(s)).speaks <= build
    && (forall m: Sent :: m in n.SentTo(s) ==> m.version <= build)
    && (forall m: Sent :: m in n.SentTo(Other(s)) ==> m.build <= build)
  }

  lemma GoesBackSafely(mac: Mac, key: seq<Byte>, n: Net, s: Side, build: Build)
    requires Agreeable(n) && MayGoBack(n, s, build)
    ensures Agreeable(Step(mac, key, n, Restart(s, build)))
  {
    var z := Step(mac, key, n, Restart(s, build));
    forall m: Sent | m in z.SentTo(s) ensures Readable(m, z.At(Other(s)), z.At(s)) {
      assert Readable(m, n.At(Other(s)), n.At(s));
    }
    forall m: Sent | m in z.SentTo(Other(s)) ensures Readable(m, z.At(s), z.At(Other(s))) {
      assert Readable(m, n.At(s), n.At(Other(s)));
    }
  }

  /** Exactly which way back is safe: an end coming back as an older build is never refused
      a packet, whatever is sent, lost, repeated, reordered, restarted or upgraded
      from then on, if and only if it has left none of those three behind. */
  lemma GoingBackExactly(mac: Mac, key: seq<Byte>, n: Net, s: Side, build: Build)
    requires Agreeable(n)
    ensures var z := Step(mac, key, n, Restart(s, build));
            MayGoBack(n, s, build)
            <==> forall events :: AllEnabled(mac, key, z, events) ==> !Refuses(mac, key, Run(mac, key, z, events))
  {
    hide Agreeable, MayGoBack, Step, Refuses;
    var z := Step(mac, key, n, Restart(s, build));
    if MayGoBack(n, s, build) {
      GoesBackSafely(mac, key, n, s, build);
      forall events | AllEnabled(mac, key, z, events) ensures !Refuses(mac, key, Run(mac, key, z, events)) {
        NeverRefused(mac, key, z, events);
      }
    } else {
      var events := RefusingRun(mac, key, n, s, build);
      assert AllEnabled(mac, key, z, events) && Refuses(mac, key, Run(mac, key, z, events));
    }
  }

  lemma NeverRefused(mac: Mac, key: seq<Byte>, n: Net, events: seq<Event>)
    requires Agreeable(n) && AllEnabled(mac, key, n, events)
    ensures !Refuses(mac, key, Run(mac, key, n, events))
  {
    var z := Run(mac, key, n, events);
    RunAgrees(mac, key, n, events);
    forall s: Side, m: Sent | m in z.SentTo(s)
      ensures Parse(z.At(s).build, mac, BytesOf(mac, key, m), key) != Err(BadVersion)
    {
      assert Readable(m, z.At(Other(s)), z.At(s));
      ReadTeaches(mac, key, m, z.At(s).build);
    }
  }

  const PLAIN := Header(0, 0, 0, 0, 0, 0, Flow(0, 0, false), [], [])

  lemma RefusingRun(mac: Mac, key: seq<Byte>, n: Net, s: Side, build: Build) returns (events: seq<Event>)
    requires Agreeable(n) && !MayGoBack(n, s, build)
    ensures var z := Step(mac, key, n, Restart(s, build));
            AllEnabled(mac, key, z, events) && Refuses(mac, key, Run(mac, key, z, events))
  {
    var z := Step(mac, key, n, Restart(s, build));
    if n.At(Other(s)).speaks > build {
      events := [Send(Other(s), PLAIN, [])];
      SpeaksAbove(mac, key, z, s);
    } else if m: Sent :| m in n.SentTo(s) && m.version > build {
      events := [];
      assert Readable(m, n.At(Other(s)), n.At(s));
      RefusedExactly(mac, key, m, build);
      assert m in z.SentTo(s);
    } else {
      var m: Sent :| m in n.SentTo(Other(s)) && m.build > build;
      assert Readable(m, n.At(s), n.At(Other(s)));
      events := [Restart(Other(s), 4), Receive(Other(s), m), Send(Other(s), PLAIN, [])];
      HearsOld(mac, key, z, s, m);
    }
  }

  /** An end that speaks above the other's build is refused its next packet. */
  lemma SpeaksAbove(mac: Mac, key: seq<Byte>, z: Net, s: Side)
    requires z.At(s).build < z.At(Other(s)).speaks <= z.At(Other(s)).build
    ensures var events := [Send(Other(s), PLAIN, [])];
            AllEnabled(mac, key, z, events) && Refuses(mac, key, Run(mac, key, z, events))
  {
    var e := Send(Other(s), PLAIN, []);
    var y := Step(mac, key, z, e);
    var m := Sent(z.At(Other(s)).build, z.At(Other(s)).speaks, PLAIN, []);
    assert m in y.SentTo(s) && y.At(s) == z.At(s);
    RefusedExactly(mac, key, m, y.At(s).build);
    assert Refuses(mac, key, y);
    assert [e][1..] == [];
    assert AllEnabled(mac, key, y, []) && Run(mac, key, y, []) == y;
  }

  /** An end upgraded, and then hearing a packet of the other's newer build, speaks
      above the build the other has gone back to. */
  lemma HearsOld(mac: Mac, key: seq<Byte>, z: Net, s: Side, m: Sent)
    requires m in z.SentTo(Other(s)) && Buildable(m.h) && 1 <= m.version <= m.build && m.build > z.At(s).build
    ensures var events := [Restart(Other(s), 4), Receive(Other(s), m), Send(Other(s), PLAIN, [])];
            AllEnabled(mac, key, z, events) && Refuses(mac, key, Run(mac, key, z, events))
  {
    hide Refuses, BytesOf;
    var e1, e2, e3 := Restart(Other(s), 4), Receive(Other(s), m), Send(Other(s), PLAIN, []);
    var y1 := Step(mac, key, z, e1);
    ReadTeaches(mac, key, m, 4);
    var y2 := Step(mac, key, y1, e2);
    assert y2.At(Other(s)).speaks == m.build && y2.At(s) == z.At(s);
    SpeaksAbove(mac, key, y2, s);
    assert [e1, e2, e3][1..] == [e2, e3] && [e2, e3][1..] == [e3];
    assert AllEnabled(mac, key, y1, [e2, e3]);
    assert Run(mac, key, y1, [e2, e3]) == Run(mac, key, y2, [e3]);
  }

  /** And the refusals go on: until it restarts itself, an end speaking above a build
      goes on speaking above it. */
  lemma {:induction false} StaysAbove(mac: Mac, key: seq<Byte>, n: Net, events: seq<Event>, s: Side, build: Build)
    requires n.At(s).speaks > build
    requires forall i :: 0 <= i < |events| && events[i].Restart? ==> events[i].s != s
    ensures Run(mac, key, n, events).At(s).speaks > build
    decreases |events|
  {
    if events != [] {
      SpokenNeverFalls(mac, key, n, events[0], s);
      StaysAbove(mac, key, Step(mac, key, n, events[0]), events[1..], s, build);
    }
  }
}
