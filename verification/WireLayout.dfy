/** Which bytes of a packet carry what, at their places: the layout both ends must keep to,
    whatever writes and reads it. */
module WireLayout {
  import opened Bytes
  import opened Collections
  import opened Serial
  import opened Wire

  // ----- numbers at a place, most significant byte first

  function At(b: seq<Byte>, i: int): nat {
    if 0 <= i < |b| then b[i] as int else 0
  }

  function U16At(b: seq<Byte>, i: int): nat {
    At(b, i) * 256 + At(b, i + 1)
  }

  function U32At(b: seq<Byte>, i: int): nat {
    At(b, i) * 16_777_216 + At(b, i + 1) * 65_536 + At(b, i + 2) * 256 + At(b, i + 3)
  }

  /** The eleven bytes of an echo entry. */
  predicate IsEcho(b: seq<Byte>, i: int, e: EchoEntry) {
    && 0 <= i && i + 11 <= |b|
    && At(b, i) == e.pathID as int && U32At(b, i + 1) == e.ts && U32At(b, i + 5) == e.delay && U16At(b, i + 9) == e.maxSeen
  }

  /** The ten bytes of a report entry, and the six version 3 added. */
  predicate IsReport(version: int, b: seq<Byte>, i: int, r: ReportEntry) {
    && 0 <= i && i + (if version >= 3 then 16 else 10) <= |b|
    && At(b, i) == r.pathID as int
    && U16At(b, i + 1) == r.spread && U16At(b, i + 3) == r.queue && U16At(b, i + 5) == r.jitter && U16At(b, i + 7) == r.loss
    && At(b, i + 9) == r.burst as int
    && (version >= 3 ==> U16At(b, i + 10) == r.standing && U16At(b, i + 12) == r.shortLoss && U16At(b, i + 14) == r.rx)
  }

  predicate AreEchoes(b: seq<Byte>, at: int, es: seq<EchoEntry>) {
    forall i :: 0 <= i < |es| ==> IsEcho(b, at + 11 * i, es[i])
  }

  predicate AreReports(version: int, b: seq<Byte>, at: int, rs: seq<ReportEntry>) {
    forall i :: 0 <= i < |rs| ==> IsReport(version, b, at + (if version >= 3 then 16 else 10) * i, rs[i])
  }

  // ----- the words written and read are these numbers

  lemma Shifted(a: seq<Byte>, c: seq<Byte>, i: int)
    requires i >= 0
    ensures At(a + c, |a| + i) == At(c, i) && U16At(a + c, |a| + i) == U16At(c, i) && U32At(a + c, |a| + i) == U32At(c, i)
  {
  }

  lemma Before(a: seq<Byte>, c: seq<Byte>, i: int)
    ensures i + 1 <= |a| ==> At(a + c, i) == At(a, i)
    ensures i + 2 <= |a| ==> U16At(a + c, i) == U16At(a, i)
    ensures i + 4 <= |a| ==> U32At(a + c, i) == U32At(a, i)
  {
  }

  lemma Word16Says(n: U16)
    ensures U16At(Word16(n), 0) == n
  {
  }

  lemma Word32Says(n: U32)
    ensures U32At(Word32(n), 0) == n
  {
    var hi, lo := n / 65_536, n % 65_536;
    assert Word32(n) == [(hi / 256) as Byte, (hi % 256) as Byte, (lo / 256) as Byte, (lo % 256) as Byte];
    assert hi == hi / 256 * 256 + hi % 256 && lo == lo / 256 * 256 + lo % 256;
  }

  lemma Read16Says(b: seq<Byte>, i: nat)
    requires i + 2 <= |b|
    ensures Read16(b[i..]) == U16At(b, i)
  {
  }

  lemma Read32Says(b: seq<Byte>, i: nat)
    requires i + 4 <= |b|
    ensures Read32(b[i..]) == U32At(b, i)
  {
    assert b[i..][2..] == b[i + 2..];
  }

  // ----- entries

  lemma EchoWritten(e: EchoEntry, x: seq<Byte>)
    ensures IsEcho(EchoBytes(e) + x, 0, e)
  {
    var b := EchoBytes(e) + x;
    hide Word16, Word32;
    assert b == [e.pathID] + (Word32(e.ts) + (Word32(e.delay) + (Word16(e.maxSeen) + x)));
    FieldAt32([e.pathID], e.ts, Word32(e.delay) + (Word16(e.maxSeen) + x));
    assert b == ([e.pathID] + Word32(e.ts)) + (Word32(e.delay) + (Word16(e.maxSeen) + x));
    FieldAt32([e.pathID] + Word32(e.ts), e.delay, Word16(e.maxSeen) + x);
    assert b == ([e.pathID] + Word32(e.ts) + Word32(e.delay)) + (Word16(e.maxSeen) + x);
    FieldAt16([e.pathID] + Word32(e.ts) + Word32(e.delay), e.maxSeen, x);
  }

  lemma FieldAt16(a: seq<Byte>, n: U16, c: seq<Byte>)
    ensures U16At(a + (Word16(n) + c), |a|) == n
  {
    Word16Says(n);
    Shifted(a, Word16(n) + c, 0);
    Before(Word16(n), c, 0);
  }

  lemma FieldAt32(a: seq<Byte>, n: U32, c: seq<Byte>)
    ensures U32At(a + (Word32(n) + c), |a|) == n
  {
    Word32Says(n);
    Shifted(a, Word32(n) + c, 0);
    Before(Word32(n), c, 0);
  }

  lemma EchoesJoin(b: seq<Byte>, at: nat, es: seq<EchoEntry>)
    requires es != [] && IsEcho(b, at, es[0]) && AreEchoes(b, at + 11, es[1..])
    ensures AreEchoes(b, at, es)
  {
    hide IsEcho;
    forall i | 0 <= i < |es| ensures IsEcho(b, at + 11 * i, es[i]) {
      if i > 0 {
        assert IsEcho(b, at + 11 + 11 * (i - 1), es[1..][i - 1]);
      }
    }
  }

  lemma EchoesShifted(a: seq<Byte>, c: seq<Byte>, es: seq<EchoEntry>)
    requires AreEchoes(c, 0, es)
    ensures AreEchoes(a + c, |a|, es)
  {
    hide IsEcho;
    forall i | 0 <= i < |es| ensures IsEcho(a + c, |a| + 11 * i, es[i]) {
      EchoShifted(a, c, 11 * i, es[i]);
    }
  }

  lemma Joined(a: seq<Byte>, b: seq<Byte>, c: seq<Byte>)
    ensures a + b + c == a + (b + c)
  {
  }

  lemma {:induction false} EchoesWritten(es: seq<EchoEntry>, x: seq<Byte>)
    ensures AreEchoes(EchoesBytes(es) + x, 0, es)
  {
    if es != [] {
      hide EchoBytes, IsEcho, AreEchoes;
      var first, tail := EchoBytes(es[0]), EchoesBytes(es[1..]) + x;
      Joined(first, EchoesBytes(es[1..]), x);
      hide EchoesBytes;
      EchoWritten(es[0], tail);
      EchoesWritten(es[1..], x);
      EchoesShifted(first, tail, es[1..]);
      EchoesJoin(first + tail, 0, es);
    }
  }

  lemma EchoShifted(a: seq<Byte>, c: seq<Byte>, i: nat, e: EchoEntry)
    ensures IsEcho(c, i, e) ==> IsEcho(a + c, |a| + i, e)
  {
    Shifted(a, c, i);
    Shifted(a, c, i + 1);
    Shifted(a, c, i + 5);
    Shifted(a, c, i + 9);
  }

  lemma ReportShifted(version: int, a: seq<Byte>, c: seq<Byte>, i: nat, r: ReportEntry)
    ensures IsReport(version, c, i, r) ==> IsReport(version, a + c, |a| + i, r)
  {
    Shifted(a, c, i);
    Shifted(a, c, i + 1);
    Shifted(a, c, i + 3);
    Shifted(a, c, i + 5);
    Shifted(a, c, i + 7);
    Shifted(a, c, i + 9);
    Shifted(a, c, i + 10);
    Shifted(a, c, i + 12);
    Shifted(a, c, i + 14);
  }

  lemma ReportWritten(version: int, r: ReportEntry, x: seq<Byte>)
    ensures IsReport(version, ReportBytes(version, r) + x, 0, r)
  {
    var b := ReportBytes(version, r) + x;
    Word16Says(r.spread);
    Word16Says(r.queue);
    Word16Says(r.jitter);
    Word16Says(r.loss);
    Word16Says(r.standing);
    Word16Says(r.shortLoss);
    Word16Says(r.rx);
    hide Word16;
    assert [b[1], b[2]] == Word16(r.spread) && [b[3], b[4]] == Word16(r.queue);
    assert [b[5], b[6]] == Word16(r.jitter) && [b[7], b[8]] == Word16(r.loss);
    if version >= 3 {
      assert [b[10], b[11]] == Word16(r.standing) && [b[12], b[13]] == Word16(r.shortLoss) && [b[14], b[15]] == Word16(r.rx);
    }
  }

  lemma ReportsJoin(version: int, b: seq<Byte>, at: nat, rs: seq<ReportEntry>)
    requires rs != [] && IsReport(version, b, at, rs[0])
    requires AreReports(version, b, at + (if version >= 3 then 16 else 10), rs[1..])
    ensures AreReports(version, b, at, rs)
  {
    hide IsReport;
    var n := if version >= 3 then 16 else 10;
    forall i | 0 <= i < |rs| ensures IsReport(version, b, at + n * i, rs[i]) {
      if i > 0 {
        assert IsReport(version, b, at + n + n * (i - 1), rs[1..][i - 1]);
      }
    }
  }

  lemma ReportsShifted(version: int, a: seq<Byte>, c: seq<Byte>, rs: seq<ReportEntry>)
    requires AreReports(version, c, 0, rs)
    ensures AreReports(version, a + c, |a|, rs)
  {
    hide IsReport;
    var n := if version >= 3 then 16 else 10;
    forall i | 0 <= i < |rs| ensures IsReport(version, a + c, |a| + n * i, rs[i]) {
      ReportShifted(version, a, c, n * i, rs[i]);
    }
  }

  lemma ReportsUnfold(version: int, rs: seq<ReportEntry>, x: seq<Byte>)
    requires rs != []
    ensures ReportsBytes(version, rs) + x == ReportBytes(version, rs[0]) + (ReportsBytes(version, rs[1..]) + x)
  {
    hide ReportBytes;
    Joined(ReportBytes(version, rs[0]), ReportsBytes(version, rs[1..]), x);
  }

  lemma NoReports(version: int, b: seq<Byte>)
    ensures AreReports(version, b, 0, [])
  {
  }

  lemma FirstLength(version: int, r: ReportEntry)
    ensures |ReportBytes(version, r)| == if version >= 3 then 16 else 10
  {
    hide ReportBytes;
  }

  lemma {:induction false} ReportsWritten(version: int, rs: seq<ReportEntry>, x: seq<Byte>)
    ensures AreReports(version, ReportsBytes(version, rs) + x, 0, rs)
  {
    hide AreReports, IsReport, ReportBytes, ReportsBytes;
    if rs == [] {
      NoReports(version, ReportsBytes(version, rs) + x);
    } else {
      var first, tail := ReportBytes(version, rs[0]), ReportsBytes(version, rs[1..]) + x;
      ReportsUnfold(version, rs, x);
      ReportWritten(version, rs[0], tail);
      ReportsWritten(version, rs[1..], x);
      ReportsShifted(version, first, tail, rs[1..]);
      assert |first| == if version >= 3 then 16 else 10 by { FirstLength(version, rs[0]); }
      ReportsJoin(version, first + tail, 0, rs);
    }
  }

  lemma EchoRead(b: seq<Byte>, i: nat)
    requires i + 11 <= |b|
    ensures IsEcho(b, i, EchoAt(b[i..]))
  {
    assert b[i..][1..] == b[i + 1..] && b[i..][5..] == b[i + 5..] && b[i..][9..] == b[i + 9..];
    Read32Says(b, i + 1);
    Read32Says(b, i + 5);
    Read16Says(b, i + 9);
  }

  lemma {:induction false} EchoesRead(b: seq<Byte>, at: nat, count: nat)
    requires at + 11 * count <= |b|
    ensures AreEchoes(b, at, EchoesAt(b[at..], count))
    decreases count
  {
    if count > 0 {
      hide EchoAt, IsEcho, AreEchoes;
      EchoRead(b, at);
      EchoesRead(b, at + 11, count - 1);
      assert b[at..][11..] == b[at + 11..];
      var es := EchoesAt(b[at..], count);
      assert es == [EchoAt(b[at..])] + EchoesAt(b[at + 11..], count - 1);
      assert es[1..] == EchoesAt(b[at + 11..], count - 1);
      EchoesJoin(b, at, es);
    }
  }

  lemma ReportRead(version: int, b: seq<Byte>, i: nat)
    requires i + (if version >= 3 then 16 else 10) <= |b|
    ensures IsReport(version, b, i, ReportAt(version, b[i..]))
  {
    var e := b[i..];
    assert e[1..] == b[i + 1..] && e[3..] == b[i + 3..] && e[5..] == b[i + 5..] && e[7..] == b[i + 7..];
    Read16Says(b, i + 1);
    Read16Says(b, i + 3);
    Read16Says(b, i + 5);
    Read16Says(b, i + 7);
    if version >= 3 {
      assert e[10..] == b[i + 10..] && e[12..] == b[i + 12..] && e[14..] == b[i + 14..];
      Read16Says(b, i + 10);
      Read16Says(b, i + 12);
      Read16Says(b, i + 14);
    }
    hide Read16;
  }

  lemma ReportsAtStep(version: int, b: seq<Byte>, at: nat, count: nat)
    requires count > 0 && at + ReportLen(version) * count <= |b|
    ensures at + ReportLen(version) + ReportLen(version) * (count - 1) <= |b|
    ensures var rs := ReportsAt(version, b[at..], count);
            && rs[0] == ReportAt(version, b[at..])
            && rs[1..] == ReportsAt(version, b[at + ReportLen(version)..], count - 1)
  {
    hide ReportAt;
    assert b[at..][ReportLen(version)..] == b[at + ReportLen(version)..];
  }

  lemma {:induction false} ReportsRead(version: int, b: seq<Byte>, at: nat, count: nat)
    requires at + ReportLen(version) * count <= |b|
    ensures AreReports(version, b, at, ReportsAt(version, b[at..], count))
    decreases count
  {
    if count > 0 {
      ReportsAtStep(version, b, at, count);
      hide ReportAt, IsReport, AreReports, ReportsAt;
      ReportRead(version, b, at);
      ReportsRead(version, b, at + ReportLen(version), count - 1);
      ReportsJoin(version, b, at, ReportsAt(version, b[at..], count));
    }
  }

  // ----- the parts of a packet

  function VersionIn(b: seq<Byte>): nat {
    At(b, 0) / 16
  }

  /** A flag of the second byte, by its value. */
  predicate Flagged(b: seq<Byte>, flag: nat)
    requires flag > 0
  {
    At(b, 1) / flag % 2 == 1
  }

  /** Bulk data from version 3 on carries four bytes of flow after the fifteen all carry. */
  predicate HasFlow(b: seq<Byte>) {
    VersionIn(b) >= 3 && At(b, 0) % 16 == 0 && At(b, 1) / 2 % 4 == 2
  }

  function EchoesFrom(b: seq<Byte>): nat {
    if HasFlow(b) then 19 else 15
  }

  function ReportsFrom(b: seq<Byte>): nat {
    EchoesFrom(b) + if Flagged(b, 1) then 1 + 11 * At(b, EchoesFrom(b)) else 0
  }

  function EntryLen(b: seq<Byte>): nat {
    if VersionIn(b) >= 3 then 16 else 10
  }

  function TagFrom(b: seq<Byte>): nat {
    ReportsFrom(b) + if Flagged(b, 8) then 1 + EntryLen(b) * At(b, ReportsFrom(b)) else 0
  }

  function PayloadFrom(b: seq<Byte>): nat {
    TagFrom(b) + if Flagged(b, 16) then 8 else 0
  }

  /** The header stands in the packet, each field at its place. */
  predicate Lays(b: seq<Byte>, h: Header) {
    && |b| >= PayloadFrom(b)
    && At(b, 0) % 16 == h.type_ as int && At(b, 1) / 2 % 4 == h.class_ as int && At(b, 2) == h.pathID as int
    && U32At(b, 3) == h.globalSeq && U32At(b, 7) == h.pathSeq && U32At(b, 11) == h.sendTS
    && h.flow.has == HasFlow(b)
    && (HasFlow(b) ==> U32At(b, 15) == h.flow.bucket * 1_048_576 + h.flow.flowSeq && h.flow.flowSeq < 1_048_576)
    && |h.echo| == (if Flagged(b, 1) then At(b, EchoesFrom(b)) else 0) && AreEchoes(b, EchoesFrom(b) + 1, h.echo)
    && |h.reports| == (if Flagged(b, 8) then At(b, ReportsFrom(b)) else 0)
    && AreReports(VersionIn(b), b, ReportsFrom(b) + 1, h.reports)
  }

  // ----- parsing

  /** What is wrong with a packet, the first thing first. */
  function Fault(build: Build, mac: Mac, b: seq<Byte>, key: seq<Byte>): Option<Error> {
    if |b| < 15 then Some(Short)
    else if VersionIn(b) < 1 || VersionIn(b) > build then Some(BadVersion)
    else if |b| < EchoesFrom(b) || (Flagged(b, 1) && |b| < EchoesFrom(b) + 1) then Some(Short)
    else if Flagged(b, 1) && At(b, EchoesFrom(b)) > 4 then Some(Malformed)
    else if |b| < ReportsFrom(b) || (Flagged(b, 8) && |b| < ReportsFrom(b) + 1) then Some(Short)
    else if Flagged(b, 8) && At(b, ReportsFrom(b)) > 4 then Some(Malformed)
    else if |b| < PayloadFrom(b) then Some(Short)
    else if key != [] && Flagged(b, 16) && b[TagFrom(b)..PayloadFrom(b)] != mac(key, b[..TagFrom(b)]) then Some(BadAuth)
    else if key != [] && !Flagged(b, 16) && VersionIn(b) >= 2 then Some(BadAuth)
    else None
  }

  /** The newest version the sender is heard to read, and this build too. */
  function VersionHeard(build: Build, b: seq<Byte>): int {
    var told := if Flagged(b, 128) then 4 else if Flagged(b, 64) then 3 else if Flagged(b, 32) then 2 else 1;
    var newest := if told > VersionIn(b) then told else VersionIn(b);
    if newest > build then build else newest
  }

  lemma TagSays(build: Build, mac: Mac, b: seq<Byte>, key: seq<Byte>, h: Header)
    requires 15 <= TagFrom(b) <= |b| && 1 <= VersionIn(b) <= build
    ensures var r := FromTag(build, mac, b, key, h, b[TagFrom(b)..]);
            if |b| < PayloadFrom(b) then r == Err(Short)
            else if key != [] && Flagged(b, 16) && b[TagFrom(b)..PayloadFrom(b)] != mac(key, b[..TagFrom(b)]) then r == Err(BadAuth)
            else if key != [] && !Flagged(b, 16) && VersionIn(b) >= 2 then r == Err(BadAuth)
            else r == Ok(Packet(h, VersionHeard(build, b)), b[PayloadFrom(b)..])
  {
    var rest := b[TagFrom(b)..];
    assert |b| - |rest| == TagFrom(b);
    if |rest| >= 8 {
      assert rest[..8] == b[TagFrom(b)..TagFrom(b) + 8] && rest[8..] == b[TagFrom(b) + 8..];
    }
  }

  /** The block of reports that starts at a place, where there is one. */
  lemma ReportBlockSays(flagged: bool, version: int, b: seq<Byte>, at: nat)
    requires at <= |b|
    ensures var n := if version >= 3 then 16 else 10;
            var end := at + if flagged then 1 + n * At(b, at) else 0;
            var r := ParseReports(flagged, version, b[at..]);
            if flagged && |b| < at + 1 then r == Err(Short)
            else if flagged && At(b, at) > 4 then r == Err(Malformed)
            else if |b| < end then r == Err(Short)
            else r.Ok? && r.rest == b[end..] && |r.value| == (if flagged then At(b, at) else 0)
                 && AreReports(version, b, at + 1, r.value)
  {
    hide ReportAt, IsReport;
    var n := if version >= 3 then 16 else 10;
    var rest := b[at..];
    if flagged && |b| >= at + 1 {
      var count := rest[0] as int;
      assert rest[1..] == b[at + 1..];
      if count <= 4 && |b| >= at + 1 + n * count {
        ReportsRead(version, b, at + 1, count);
        assert rest[1 + n * count..] == b[at + 1 + n * count..];
      }
    }
  }

  lemma EchoBlockSays(flagged: bool, b: seq<Byte>, at: nat)
    requires at <= |b|
    ensures var end := at + if flagged then 1 + 11 * At(b, at) else 0;
            var r := ParseEcho(flagged, b[at..]);
            if flagged && |b| < at + 1 then r == Err(Short)
            else if flagged && At(b, at) > 4 then r == Err(Malformed)
            else if |b| < end then r == Err(Short)
            else r.Ok? && r.rest == b[end..] && |r.value| == (if flagged then At(b, at) else 0) && AreEchoes(b, at + 1, r.value)
  {
    hide EchoAt, IsEcho;
    var rest := b[at..];
    if flagged && |b| >= at + 1 {
      var count := rest[0] as int;
      assert rest[1..] == b[at + 1..];
      if count <= 4 && |b| >= at + 1 + 11 * count {
        EchoesRead(b, at + 1, count);
        assert rest[1 + 11 * count..] == b[at + 1 + 11 * count..];
      }
    }
  }

  /** What is read of a packet after its base header and its flow. */
  lemma BlocksSay(build: Build, mac: Mac, b: seq<Byte>, key: seq<Byte>, h: Header)
    requires 15 <= EchoesFrom(b) <= |b| && 1 <= VersionIn(b) <= build
    ensures var r := FromEcho(build, mac, b, key, h, b[EchoesFrom(b)..]);
            var p := ParseEcho(Flagged(b, 1), b[EchoesFrom(b)..]);
            if p.Err? then r == Err(p.error)
            else
              var q := ParseReports(Flagged(b, 8), VersionIn(b), b[ReportsFrom(b)..]);
              ReportsFrom(b) <= |b| &&
              if q.Err? then r == Err(q.error)
              else TagFrom(b) <= |b| && r == FromTag(build, mac, b, key, h.(echo := p.value, reports := q.value), b[TagFrom(b)..])
  {
    hide ParseEcho, ParseReports, FromTag, AreEchoes, AreReports;
    EchoBlockSays(Flagged(b, 1), b, EchoesFrom(b));
    if ParseEcho(Flagged(b, 1), b[EchoesFrom(b)..]).Ok? {
      ReportBlockSays(Flagged(b, 8), VersionIn(b), b, ReportsFrom(b));
    }
  }

  lemma FlowSays(b: seq<Byte>)
    requires |b| >= 15
    ensures var r := ParseFlow(HasFlow(b), b[15..]);
            if |b| < EchoesFrom(b) then r == Err(Short)
            else r.Ok? && r.rest == b[EchoesFrom(b)..] && r.value.has == HasFlow(b)
                 && (HasFlow(b) ==>
                       U32At(b, 15) == r.value.bucket * 1_048_576 + r.value.flowSeq && r.value.flowSeq < 1_048_576)
  {
    if HasFlow(b) && |b| >= 19 {
      Read32Says(b, 15);
      assert b[15..][4..] == b[19..];
    }
  }

  lemma BaseSays(b: seq<Byte>)
    requires |b| >= 15
    ensures var h := ParseBase(b);
            && At(b, 0) % 16 == h.type_ as int && At(b, 1) / 2 % 4 == h.class_ as int && At(b, 2) == h.pathID as int
            && U32At(b, 3) == h.globalSeq && U32At(b, 7) == h.pathSeq && U32At(b, 11) == h.sendTS
            && HasFlow(b) == Carries(b[0] as int / 16, h.type_, h.class_)
  {
    Read32Says(b, 3);
    Read32Says(b, 7);
    Read32Says(b, 11);
  }

  /** The parser's answer is the packet's fault, or the header that stands in it. */
  ghost predicate ReadRight(build: Build, mac: Mac, b: seq<Byte>, key: seq<Byte>, r: Result<Packet>) {
    match Fault(build, mac, b, key)
    case Some(e) => r == Err(e)
    case None => r.Ok? && Lays(b, r.value.header) && r.value.negotiated == VersionHeard(build, b) && r.rest == b[PayloadFrom(b)..]
  }

  lemma ParseIsBlocks(build: Build, mac: Mac, b: seq<Byte>, key: seq<Byte>)
    requires |b| >= EchoesFrom(b) && 1 <= VersionIn(b) <= build
    ensures var h := ParseBase(b).(flow := ParseFlow(HasFlow(b), b[15..]).value);
            Parse(build, mac, b, key) == FromEcho(build, mac, b, key, h, b[EchoesFrom(b)..])
  {
    BaseSays(b);
    FlowSays(b);
    hide ParseBase, FromEcho, ParseFlow, HasFlow;
  }

  lemma EchoFault(build: Build, mac: Mac, b: seq<Byte>, key: seq<Byte>)
    requires |b| >= EchoesFrom(b) && 1 <= VersionIn(b) <= build
    ensures var p := ParseEcho(Flagged(b, 1), b[EchoesFrom(b)..]);
            p.Err? ==> Fault(build, mac, b, key) == Some(p.error)
  {
    EchoBlockSays(Flagged(b, 1), b, EchoesFrom(b));
    hide ParseEcho, AreEchoes;
  }

  lemma ReportFault(build: Build, mac: Mac, b: seq<Byte>, key: seq<Byte>)
    requires |b| >= ReportsFrom(b) && 1 <= VersionIn(b) <= build && (Flagged(b, 1) ==> At(b, EchoesFrom(b)) <= 4)
    ensures var q := ParseReports(Flagged(b, 8), VersionIn(b), b[ReportsFrom(b)..]);
            q.Err? ==> Fault(build, mac, b, key) == Some(q.error)
  {
    ReportBlockSays(Flagged(b, 8), VersionIn(b), b, ReportsFrom(b));
    hide ParseReports, AreReports;
  }

  lemma TagFault(build: Build, mac: Mac, b: seq<Byte>, key: seq<Byte>, h: Header)
    requires |b| >= TagFrom(b) && 1 <= VersionIn(b) <= build
    requires (Flagged(b, 1) ==> At(b, EchoesFrom(b)) <= 4) && (Flagged(b, 8) ==> At(b, ReportsFrom(b)) <= 4)
    requires |b| >= PayloadFrom(b) ==> Lays(b, h)
    ensures ReadRight(build, mac, b, key, FromTag(build, mac, b, key, h, b[TagFrom(b)..]))
  {
    TagSays(build, mac, b, key, h);
    hide FromTag, Lays;
  }

  lemma BlocksRead(build: Build, mac: Mac, b: seq<Byte>, key: seq<Byte>, g: Header)
    requires |b| >= EchoesFrom(b) && 1 <= VersionIn(b) <= build
    requires g == ParseBase(b).(flow := ParseFlow(HasFlow(b), b[15..]).value)
    ensures ReadRight(build, mac, b, key, FromEcho(build, mac, b, key, g, b[EchoesFrom(b)..]))
  {
    hide ParseEcho, ParseReports, FromTag, FromEcho, ReadRight, Fault;
    BlocksSay(build, mac, b, key, g);
    EchoBlockSays(Flagged(b, 1), b, EchoesFrom(b));
    EchoFault(build, mac, b, key);
    var p := ParseEcho(Flagged(b, 1), b[EchoesFrom(b)..]);
    if p.Err? {
      FaultReads(build, mac, b, key, p.error);
    } else {
      ReportBlockSays(Flagged(b, 8), VersionIn(b), b, ReportsFrom(b));
      ReportFault(build, mac, b, key);
      var q := ParseReports(Flagged(b, 8), VersionIn(b), b[ReportsFrom(b)..]);
      if q.Err? {
        FaultReads(build, mac, b, key, q.error);
      } else {
        HeaderLays(b, p.value, q.value);
        TagFault(build, mac, b, key, g.(echo := p.value, reports := q.value));
      }
    }
  }

  lemma FaultReads(build: Build, mac: Mac, b: seq<Byte>, key: seq<Byte>, e: Error)
    requires Fault(build, mac, b, key) == Some(e)
    ensures ReadRight(build, mac, b, key, Err(e))
  {
  }

  lemma HeaderLays(b: seq<Byte>, es: seq<EchoEntry>, rs: seq<ReportEntry>)
    requires |b| >= EchoesFrom(b)
    requires |es| == (if Flagged(b, 1) then At(b, EchoesFrom(b)) else 0) && AreEchoes(b, EchoesFrom(b) + 1, es)
    requires |rs| == (if Flagged(b, 8) then At(b, ReportsFrom(b)) else 0) && AreReports(VersionIn(b), b, ReportsFrom(b) + 1, rs)
    ensures |b| >= PayloadFrom(b) ==>
              Lays(b, ParseBase(b).(flow := ParseFlow(HasFlow(b), b[15..]).value, echo := es, reports := rs))
  {
    BaseSays(b);
    FlowSays(b);
    hide ParseBase, ParseFlow, AreEchoes, AreReports;
  }

  /** What the parser makes of any bytes: the fault in them, or the header that stands in
      them, the newest version heard, and the payload after it. */
  lemma ParseSays(build: Build, mac: Mac, b: seq<Byte>, key: seq<Byte>)
    ensures ReadRight(build, mac, b, key, Parse(build, mac, b, key))
  {
    if |b| < 15 || VersionIn(b) < 1 || VersionIn(b) > build {
    } else if |b| < EchoesFrom(b) {
      BaseSays(b);
      FlowSays(b);
      hide ParseBase, ParseFlow;
    } else {
      hide ReadRight, Parse, FromEcho;
      ParseIsBlocks(build, mac, b, key);
      BlocksRead(build, mac, b, key, ParseBase(b).(flow := ParseFlow(HasFlow(b), b[15..]).value));
    }
  }

  // ----- encoding

  /** The flags of a header: what the build can read, what follows, and the class. */
  function FlagsOf(build: Build, class_: nat, echo: bool, report: bool, auth: bool): nat {
    (if build >= 2 then 32 else 0) + (if build >= 3 then 64 else 0) + (if build >= 4 then 128 else 0)
    + (if echo then 1 else 0) + (if report then 8 else 0) + (if auth then 16 else 0) + class_ % 4 * 2
  }

  /** Where the echoes, the reports and the tag of a header go. */
  function EchoesAtIn(v: int, h: Header): nat {
    if v >= 3 && h.type_ == 0 && h.class_ == 2 then 19 else 15
  }

  function ReportsAtIn(v: int, h: Header): nat {
    EchoesAtIn(v, h) + if h.echo == [] then 0 else 1 + 11 * |h.echo|
  }

  function TagAtIn(v: int, h: Header): nat {
    ReportsAtIn(v, h) + if v < 2 || h.reports == [] then 0 else 1 + (if v >= 3 then 16 else 10) * |h.reports|
  }

  /** The fifteen bytes every packet begins with, and the flow. */
  predicate BaseLaid(build: Build, b: seq<Byte>, h: Header, v: int, auth: bool) {
    && |b| >= EchoesAtIn(v, h)
    && At(b, 0) == v * 16 + h.type_ as int % 16
    && At(b, 1) == FlagsOf(build, h.class_ as int, h.echo != [], v >= 2 && h.reports != [], auth)
    && At(b, 2) == h.pathID as int && U32At(b, 3) == h.globalSeq && U32At(b, 7) == h.pathSeq && U32At(b, 11) == h.sendTS
    && (v >= 3 && h.type_ == 0 && h.class_ == 2 ==>
          U32At(b, 15) == h.flow.bucket % 4096 * 1_048_576 + h.flow.flowSeq % 1_048_576)
  }

  predicate BlocksLaid(b: seq<Byte>, h: Header, v: int) {
    && |b| >= TagAtIn(v, h)
    && (h.echo != [] ==> At(b, EchoesAtIn(v, h)) == |h.echo| % 256 && AreEchoes(b, EchoesAtIn(v, h) + 1, h.echo))
    && (v >= 2 && h.reports != [] ==>
          At(b, ReportsAtIn(v, h)) == |h.reports| % 256 && AreReports(v, b, ReportsAtIn(v, h) + 1, h.reports))
  }

  lemma Nested(a: seq<Byte>, f: seq<Byte>, e: seq<Byte>, r: seq<Byte>, t: seq<Byte>)
    ensures a + f + e + r + t == a + (f + (e + (r + t)))
    ensures a + f + e + r + t == (a + f) + (e + (r + t))
    ensures a + f + e + r + [] == a + f + e + r
  {
  }

  lemma BaseFields(first: seq<Byte>, h: Header, after: seq<Byte>)
    requires |first| == 3
    ensures var b := first + Word32(h.globalSeq) + Word32(h.pathSeq) + Word32(h.sendTS) + after;
            && U32At(b, 3) == h.globalSeq && U32At(b, 7) == h.pathSeq && U32At(b, 11) == h.sendTS
            && At(b, 0) == At(first, 0) && At(b, 1) == At(first, 1) && At(b, 2) == At(first, 2)
  {
    hide Word32;
    var g, p, t := Word32(h.globalSeq), Word32(h.pathSeq), Word32(h.sendTS);
    Nested(first, g, p, t, after);
    Nested(first + g, p, t, after, []);
    FieldAt32(first, h.globalSeq, p + (t + after));
    FieldAt32(first + g, h.pathSeq, t + after);
    assert first + g + p + t + after == (first + g + p) + (t + after);
    FieldAt32(first + g + p, h.sendTS, after);
    Before(first, g + (p + (t + after)), 0);
    Before(first, g + (p + (t + after)), 1);
    Before(first, g + (p + (t + after)), 2);
  }

  lemma BaseWritten(build: Build, h: Header, v: Build, auth: bool, x: seq<Byte>)
    requires v <= build
    ensures var flags := Flags(build, h.class_, h.echo != [], Reports(v, h) != [], auth);
            BaseLaid(build, Base(v, flags, h) + (FlowField(v, h) + x), h, v, auth)
  {
    hide Word32, Flags;
    var flags := Flags(build, h.class_, h.echo != [], Reports(v, h) != [], auth);
    var first := [v as Byte * 16 + h.type_ % 16, flags, h.pathID];
    var after := FlowField(v, h) + x;
    BaseFields(first, h, after);
    FlagsSay(build, h.class_, h.echo != [], Reports(v, h) != [], auth);
    if Carries(v, h.type_, h.class_) {
      FieldAt32(Base(v, flags, h), h.flow.bucket % FLOW_BUCKETS * FLOW_SPACE + h.flow.flowSeq % FLOW_SPACE, x);
    }
  }

  lemma FlagsSay(build: Build, class_: Byte, echo: bool, report: bool, auth: bool)
    ensures Flags(build, class_, echo, report, auth) as int == FlagsOf(build, class_ as int, echo, report, auth)
  {
  }

  lemma AreEchoesShifted(a: seq<Byte>, c: seq<Byte>, at: nat, es: seq<EchoEntry>)
    requires AreEchoes(c, at, es)
    ensures AreEchoes(a + c, |a| + at, es)
  {
    hide IsEcho;
    forall i | 0 <= i < |es| ensures IsEcho(a + c, |a| + at + 11 * i, es[i]) {
      assert IsEcho(c, at + 11 * i, es[i]);
      EchoShifted(a, c, at + 11 * i, es[i]);
    }
  }

  lemma AreReportsShifted(version: int, a: seq<Byte>, c: seq<Byte>, at: nat, rs: seq<ReportEntry>)
    requires AreReports(version, c, at, rs)
    ensures AreReports(version, a + c, |a| + at, rs)
  {
    hide IsReport;
    var n := if version >= 3 then 16 else 10;
    forall i | 0 <= i < |rs| ensures IsReport(version, a + c, |a| + at + n * i, rs[i]) {
      assert IsReport(version, c, at + n * i, rs[i]);
      ReportShifted(version, a, c, at + n * i, rs[i]);
    }
  }

  /** The two blocks, after whatever stands before them. */
  lemma BlocksWritten(a: seq<Byte>, h: Header, v: Build, x: seq<Byte>)
    requires |a| == EchoesAtIn(v, h)
    ensures var b := a + (EchoBlock(h.echo) + (ReportBlock(v, Reports(v, h)) + x));
            BlocksLaid(b, h, v) && |b| == TagAtIn(v, h) + |x|
  {
    hide IsEcho, IsReport, AreEchoes, AreReports, EchoesBytes, ReportsBytes;
    var rs := Reports(v, h);
    var after := ReportBlock(v, rs) + x;
    var b := a + (EchoBlock(h.echo) + after);
    if h.echo != [] {
      var one := [(|h.echo| % 256) as Byte];
      EchoesWritten(h.echo, after);
      AreEchoesShifted(one, EchoesBytes(h.echo) + after, 0, h.echo);
      Joined(one, EchoesBytes(h.echo), after);
      AreEchoesShifted(a, EchoBlock(h.echo) + after, 1, h.echo);
      Shifted(a, EchoBlock(h.echo) + after, 0);
    }
    if rs != [] {
      var one := [(|rs| % 256) as Byte];
      ReportsWritten(v, rs, x);
      AreReportsShifted(v, one, ReportsBytes(v, rs) + x, 0, rs);
      Joined(one, ReportsBytes(v, rs), x);
      Joined(a, EchoBlock(h.echo), after);
      AreReportsShifted(v, a + EchoBlock(h.echo), after, 1, rs);
      Shifted(a + EchoBlock(h.echo), after, 0);
    }
  }

  /** Every byte of an encoding: the version asked for, or the first if the build does not
      know it; each field at its place; and under a key, from version 2 on, the tag of
      everything before it. */
  lemma EncodeSays(build: Build, mac: Mac, h: Header, version: int, key: seq<Byte>)
    ensures var b := Encode(build, mac, h, version, key);
            var v := if 1 <= version <= build then version else 1;
            var auth := key != [] && v >= 2;
            && BaseLaid(build, b, h, v, auth) && BlocksLaid(b, h, v)
            && |b| == TagAtIn(v, h) + (if auth then 8 else 0)
            && (auth ==> b[TagAtIn(v, h)..] == mac(key, b[..TagAtIn(v, h)]))
  {
    var v := Emitted(build, version);
    var auth := key != [] && v >= 2;
    var rs := Reports(v, h);
    var base := Base(v, Flags(build, h.class_, h.echo != [], rs != [], auth), h);
    var c := Covered(build, h, v, auth);
    var tag := if auth then mac(key, c) else [];
    var b := Encode(build, mac, h, version, key);
    assert b == c + tag;
    hide EchoBlock, ReportBlock, Flags, BaseLaid, BlocksLaid, Encode, Word32;
    Nested(base, FlowField(v, h), EchoBlock(h.echo), ReportBlock(v, rs), tag);
    Nested(base, FlowField(v, h), EchoBlock(h.echo), ReportBlock(v, rs), []);
    BaseWritten(build, h, v, auth, EchoBlock(h.echo) + (ReportBlock(v, rs) + tag));
    BlocksWritten(base + FlowField(v, h), h, v, tag);
    BlocksWritten(base + FlowField(v, h), h, v, []);
    hide Base, FlowField, Covered;
    assert b[..|c|] == c && b[|c|..] == tag;
  }
}
