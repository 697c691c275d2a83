/** Round trips of the header: for which headers parsing gives back what was
    encoded, cut down to what the version carries, and what a truncated one gives. */
module WireTrips {
  import opened Bytes
  import opened Serial
  import opened Wire

  // ----- words and entries

  lemma WordTrip16(n: U16, x: seq<Byte>)
    ensures Read16(Word16(n) + x) == n
  {
  }

  lemma WordTrip32(n: U32, x: seq<Byte>)
    ensures Read32(Word32(n) + x) == n
  {
    var w := Word32(n) + x;
    assert w[..2] == Word16(n / 0x1_0000);
    assert w[2..] == Word16(n % 0x1_0000) + x;
    WordTrip16(n % 0x1_0000, x);
  }

  lemma EchoTrip(e: EchoEntry, x: seq<Byte>)
    ensures EchoAt(EchoBytes(e) + x) == e
  {
    var b := EchoBytes(e) + x;
    assert b[1..] == Word32(e.ts) + (Word32(e.delay) + Word16(e.maxSeen) + x);
    assert b[5..] == Word32(e.delay) + (Word16(e.maxSeen) + x);
    assert b[9..] == Word16(e.maxSeen) + x;
    WordTrip32(e.ts, Word32(e.delay) + Word16(e.maxSeen) + x);
    WordTrip32(e.delay, Word16(e.maxSeen) + x);
    WordTrip16(e.maxSeen, x);
  }

  lemma {:induction false} EchoesTrip(es: seq<EchoEntry>, x: seq<Byte>)
    ensures EchoesAt(EchoesBytes(es) + x, |es|) == es
  {
    if es != [] {
      var tail := EchoesBytes(es[1..]) + x;
      assert EchoesBytes(es) + x == EchoBytes(es[0]) + tail;
      EchoTrip(es[0], tail);
      assert (EchoBytes(es[0]) + tail)[ECHO_ENTRY_LEN..] == tail;
      EchoesTrip(es[1..], x);
    }
  }

  lemma ReportTrip(version: int, r: ReportEntry, x: seq<Byte>)
    ensures ReportAt(version, ReportBytes(version, r) + x) == if version >= 3 then r else ShortReport(r)
  {
    var b := ReportBytes(version, r) + x;
    assert [b[1], b[2]] == Word16(r.spread);
    assert [b[3], b[4]] == Word16(r.queue);
    assert [b[5], b[6]] == Word16(r.jitter);
    assert [b[7], b[8]] == Word16(r.loss);
    if version >= 3 {
      assert [b[10], b[11]] == Word16(r.standing);
      assert [b[12], b[13]] == Word16(r.shortLoss);
      assert [b[14], b[15]] == Word16(r.rx);
    }
  }

  lemma ReportsStep(version: int, first: seq<Byte>, tail: seq<Byte>, n: nat)
    requires |first| == ReportLen(version) && n * ReportLen(version) <= |tail|
    requires (n + 1) * ReportLen(version) <= |first + tail|
    ensures ReportsAt(version, first + tail, n + 1) == [ReportAt(version, first + tail)] + ReportsAt(version, tail, n)
  {
    assert (first + tail)[ReportLen(version)..] == tail;
  }

  lemma {:induction false} ReportsTrip(version: int, rs: seq<ReportEntry>, x: seq<Byte>)
    ensures ReportsAt(version, ReportsBytes(version, rs) + x, |rs|) == if version >= 3 then rs else ShortReports(rs)
  {
    hide ReportBytes, ReportAt, ShortReport;
    if rs != [] {
      var first, tail := ReportBytes(version, rs[0]), ReportsBytes(version, rs[1..]) + x;
      assert ReportsBytes(version, rs) + x == first + tail;
      assert ReportAt(version, first + tail) == if version >= 3 then rs[0] else ShortReport(rs[0]) by {
        ReportTrip(version, rs[0], tail);
      }
      ReportsStep(version, first, tail, |rs| - 1);
      ReportsTrip(version, rs[1..], x);
    }
  }

  // ----- blocks: whole, and cut short

  lemma FlowTrip(version: int, h: Header, x: seq<Byte>)
    ensures ParseFlow(Carries(version, h.type_, h.class_), FlowField(version, h) + x) == Ok(CutFlow(version, h), x)
  {
    if Carries(version, h.type_, h.class_) {
      var field := h.flow.bucket % FLOW_BUCKETS * FLOW_SPACE + h.flow.flowSeq % FLOW_SPACE;
      WordTrip32(field, x);
      FieldSplits(h.flow.bucket % FLOW_BUCKETS, h.flow.flowSeq % FLOW_SPACE);
    } else {
      assert FlowField(version, h) + x == x;
    }
  }

  lemma FieldSplits(bucket: int, n: int)
    requires 0 <= n < FLOW_SPACE
    ensures (bucket * FLOW_SPACE + n) / FLOW_SPACE == bucket && (bucket * FLOW_SPACE + n) % FLOW_SPACE == n
  {
  }

  /** A count, that many bytes of entries, and the rest. */
  lemma BlockSplits(count: Byte, entries: seq<Byte>, x: seq<Byte>)
    ensures var b := [count] + entries + x;
            b[0] == count && b[1..] == entries + x && b[1 + |entries|..] == x
  {
  }

  lemma EchoBlockParses(count: Byte, entries: seq<Byte>, x: seq<Byte>)
    requires count as int <= MAX_ECHO && |entries| == count as int * ECHO_ENTRY_LEN
    ensures ParseEcho(true, [count] + entries + x) == Ok(EchoesAt(entries + x, count as int), x)
  {
    BlockSplits(count, entries, x);
  }

  lemma EchoBlockTrip(es: seq<EchoEntry>, x: seq<Byte>)
    requires |es| <= MAX_ECHO
    ensures ParseEcho(es != [], EchoBlock(es) + x) == Ok(es, x)
  {
    if es == [] {
      assert EchoBlock(es) + x == x;
    } else {
      var count, entries := |es| as Byte, EchoesBytes(es);
      assert EchoBlock(es) == [count] + entries;
      assert EchoesAt(entries + x, |es|) == es by { EchoesTrip(es, x); }
      EchoBlockParses(count, entries, x);
    }
  }

  lemma ReportBlockParses(version: int, count: Byte, entries: seq<Byte>, x: seq<Byte>)
    requires count as int <= MAX_REPORTS && |entries| == count as int * ReportLen(version)
    ensures ParseReports(true, version, [count] + entries + x) == Ok(ReportsAt(version, entries + x, count as int), x)
  {
    BlockSplits(count, entries, x);
  }

  lemma ReportBlockTrip(version: int, rs: seq<ReportEntry>, x: seq<Byte>)
    requires |rs| <= MAX_REPORTS && version >= 2
    ensures ParseReports(rs != [], version, ReportBlock(version, rs) + x) == Ok(CutReports(version, rs), x)
  {
    if rs == [] {
      assert ReportBlock(version, rs) + x == x;
    } else {
      var count, entries := |rs| as Byte, ReportsBytes(version, rs);
      assert ReportBlock(version, rs) == [count] + entries;
      assert ReportsAt(version, entries + x, |rs|) == CutReports(version, rs) by { ReportsTrip(version, rs, x); }
      ReportBlockParses(version, count, entries, x);
    }
  }

  // ----- the base header

  lemma FlagsTrip(build: Build, class_: Byte, echo: bool, report: bool, auth: bool)
    ensures var f := Flags(build, class_, echo, report, auth);
            && Bit(f, FLAG_ECHO) == echo && Bit(f, FLAG_REPORT) == report && Bit(f, FLAG_AUTH) == auth
            && f / 2 % 4 == class_ % 4
  {
    BitsOf(Capable(build) / 32, if auth then 1 else 0, if report then 1 else 0, (class_ % 4) as int, if echo then 1 else 0);
  }

  lemma BitsOf(k: nat, a: nat, r: nat, c: nat, e: nat)
    requires k < 8 && a < 2 && r < 2 && c < 4 && e < 2
    ensures var f := 32 * k + 16 * a + 8 * r + 2 * c + e;
            f % 2 == e && f / 8 % 2 == r && f / 16 % 2 == a && f / 2 % 4 == c
  {
    var f := 32 * k + 16 * a + 8 * r + 2 * c + e;
    Divides(f, 16, 2 * k + a, 8 * r + 2 * c + e);
    Divides(f, 8, 4 * k + 2 * a + r, 2 * c + e);
    Divides(f, 2, 16 * k + 8 * a + 4 * r + c, e);
  }

  lemma Divides(f: nat, d: nat, q: nat, left: nat)
    requires d == 2 || d == 8 || d == 16
    requires f == d * q + left && left < d
    ensures f / d == q && f % d == left
  {
  }

  lemma FlagsCapable(build: Build, class_: Byte, echo: bool, report: bool, auth: bool)
    ensures var f := Flags(build, class_, echo, report, auth);
            && (Bit(f, FLAG_CAPABLE) <==> build >= 2) && (Bit(f, FLAG_CAPABLE_V3) <==> build >= 3)
            && (Bit(f, FLAG_CAPABLE_V4) <==> build >= 4)
  {
  }

  /** What a parser hears from a sender's flags: the older of the two builds, or
      what the packet is written in if that is more. */
  lemma HearsBuild(build: Build, other: Build, version: Build, class_: Byte, echo: bool, report: bool, auth: bool)
    requires version <= build && version <= other
    ensures Negotiated(other, version, Flags(build, class_, echo, report, auth)) == if build < other then build else other
  {
    FlagsCapable(build, class_, echo, report, auth);
  }

  lemma BaseTrip(version: Build, flags: Byte, h: Header, x: seq<Byte>)
    requires flags / 2 % 4 == h.class_ % 4
    ensures var b := Base(version, flags, h) + x;
            && b[0] as int / 16 == version && b[1] == flags
            && ParseBase(b) == h.(type_ := h.type_ % 16, class_ := h.class_ % 4, flow := Flow(0, 0, false),
                                  echo := [], reports := [])
  {
    var b := Base(version, flags, h) + x;
    assert b[3..] == Word32(h.globalSeq) + (Word32(h.pathSeq) + Word32(h.sendTS) + x);
    assert b[7..] == Word32(h.pathSeq) + (Word32(h.sendTS) + x);
    assert b[11..] == Word32(h.sendTS) + x;
    WordTrip32(h.globalSeq, Word32(h.pathSeq) + Word32(h.sendTS) + x);
    WordTrip32(h.pathSeq, Word32(h.sendTS) + x);
    WordTrip32(h.sendTS, x);
  }

  // ----- the tag

  /** The tag block of an encoding: the MAC of all before it, or nothing. */
  function TagBlock(auth: bool, mac: Mac, key: seq<Byte>, covered: seq<Byte>): seq<Byte> {
    if auth then mac(key, covered) else []
  }

  lemma TagTrip(auth: bool, mac: Mac, key: seq<Byte>, version: int, covered: seq<Byte>, x: seq<Byte>, parseKey: seq<Byte>)
    requires auth <==> key != [] && version >= 2
    requires parseKey == key || parseKey == []
    ensures var t := TagBlock(auth, mac, key, covered);
            ParseTag(auth, mac, parseKey, version, covered + t + x, t + x) == Ok((), x)
  {
    var t := TagBlock(auth, mac, key, covered);
    var b := covered + t + x;
    assert b[..|b| - |t + x|] == covered;
    if !auth {
      assert t + x == x;
    }
  }

  // ----- whole headers

  /** What a header must be for the encoding to say all of it. */
  predicate Fits(version: int, h: Header) {
    && |h.echo| <= MAX_ECHO
    && (version >= 2 ==> |h.reports| <= MAX_REPORTS)
    && (Carries(version, h.type_ % 16, h.class_ % 4) ==> Carries(version, h.type_, h.class_))
  }

  /** Where every block parses, so does the packet. */
  lemma Staged(build: Build, mac: Mac, b: seq<Byte>, key: seq<Byte>, flow: Flow, r1: seq<Byte>, echo: seq<EchoEntry>,
               r2: seq<Byte>, reports: seq<ReportEntry>, r3: seq<Byte>, r4: seq<Byte>)
    requires |b| >= BASE_LEN && 1 <= b[0] as int / 16 <= build && |r3| <= |b|
    requires var v, flags, h := b[0] as int / 16, b[1], ParseBase(b);
             && ParseFlow(Carries(v, h.type_, h.class_), b[BASE_LEN..]) == Ok(flow, r1)
             && ParseEcho(Bit(flags, FLAG_ECHO), r1) == Ok(echo, r2)
             && ParseReports(Bit(flags, FLAG_REPORT), v, r2) == Ok(reports, r3)
             && ParseTag(Bit(flags, FLAG_AUTH), mac, key, v, b, r3) == Ok((), r4)
    ensures Parse(build, mac, b, key)
            == Ok(Packet(ParseBase(b).(flow := flow, echo := echo, reports := reports),
                         Negotiated(build, b[0] as int / 16, b[1])), r4)
  {
  }

  lemma NoReports(version: int, h: Header, x: seq<Byte>)
    requires version >= 2 ==> |h.reports| <= MAX_REPORTS
    ensures var rs := Reports(version, h);
            ParseReports(rs != [], version, ReportBlock(version, rs) + x) == Ok(CutReports(version, h.reports), x)
  {
    var rs := Reports(version, h);
    if version < 2 {
      assert ReportBlock(version, rs) + x == x;
    } else {
      ReportBlockTrip(version, rs, x);
    }
  }

  lemma Joined(base: seq<Byte>, f: seq<Byte>, e: seq<Byte>, r: seq<Byte>, t: seq<Byte>, x: seq<Byte>)
    ensures base + f + e + r + t + x == base + (f + (e + (r + (t + x))))
    ensures (base + (f + (e + (r + (t + x)))))[|base|..] == f + (e + (r + (t + x)))
  {
  }

  /** An encoding is its blocks, one after another. */
  lemma EncodeIs(build: Build, mac: Mac, h: Header, version: int, key: seq<Byte>)
    ensures var v := Emitted(build, version);
            var auth := key != [] && v >= 2;
            var c := Covered(build, h, v, auth);
            Encode(build, mac, h, version, key) == c + TagBlock(auth, mac, key, c)
  {
  }

  lemma CarriesMasked(version: int, h: Header)
    requires Carries(version, h.type_ % 16, h.class_ % 4) ==> Carries(version, h.type_, h.class_)
    ensures Carries(version, h.type_ % 16, h.class_ % 4) == Carries(version, h.type_, h.class_)
  {
  }

  /** The blocks of an encoding parse, one after another. */
  lemma BlocksTrip(mac: Mac, h: Header, v: Build, auth: bool, flags: Byte, key: seq<Byte>, parseKey: seq<Byte>,
                   other: Build, c: seq<Byte>, x: seq<Byte>)
    requires v <= other && Fits(v, h)
    requires (auth <==> key != [] && v >= 2) && (parseKey == key || parseKey == [])
    requires flags / 2 % 4 == h.class_ % 4 && Bit(flags, FLAG_ECHO) == (h.echo != [])
    requires Bit(flags, FLAG_REPORT) == (Reports(v, h) != []) && Bit(flags, FLAG_AUTH) == auth
    requires c == Base(v, flags, h) + FlowField(v, h) + EchoBlock(h.echo) + ReportBlock(v, Reports(v, h))
    ensures Parse(other, mac, c + TagBlock(auth, mac, key, c) + x, parseKey)
            == Ok(Packet(Cut(v, h), Negotiated(other, v, flags)), x)
  {
    var base, f, e, r := Base(v, flags, h), FlowField(v, h), EchoBlock(h.echo), ReportBlock(v, Reports(v, h));
    var t := TagBlock(auth, mac, key, c);
    var b := c + t + x;
    Joined(base, f, e, r, t, x);
    BaseTrip(v, flags, h, f + (e + (r + (t + x))));
    CarriesMasked(v, h);
    FlowTrip(v, h, e + (r + (t + x)));
    assert ParseFlow(Carries(v, h.type_ % 16, h.class_ % 4), b[BASE_LEN..]) == Ok(CutFlow(v, h), e + (r + (t + x)));
    EchoBlockTrip(h.echo, r + (t + x));
    NoReports(v, h, t + x);
    TagTrip(auth, mac, key, v, c, x, parseKey);
    Staged(other, mac, b, parseKey, CutFlow(v, h), e + (r + (t + x)), h.echo, r + (t + x), CutReports(v, h.reports), t + x, x);
  }

  /** Parsing what a build encoded gives back the header, cut down to what the
      version carries, whatever payload follows; the parser may be of another
      build that reads the version, and may hold the key or not. */
  lemma WholeTrip(build: Build, other: Build, mac: Mac, h: Header, version: int, key: seq<Byte>, parseKey: seq<Byte>, x: seq<Byte>)
    requires Emitted(build, version) <= other && Fits(Emitted(build, version), h)
    requires parseKey == key || parseKey == []
    ensures Parse(other, mac, Encode(build, mac, h, version, key) + x, parseKey)
            == Ok(Packet(Cut(Emitted(build, version), h), if build < other then build else other), x)
  {
    var v := Emitted(build, version);
    var auth, report := key != [] && v >= 2, Reports(v, h) != [];
    EncodeIs(build, mac, h, version, key);
    FlagsTrip(build, h.class_, h.echo != [], report, auth);
    HearsBuild(build, other, v, h.class_, h.echo != [], report, auth);
    BlocksTrip(mac, h, v, auth, Flags(build, h.class_, h.echo != [], report, auth), key, parseKey, other,
               Covered(build, h, v, auth), x);
  }

  /** Whatever parses is within the limits, and has a flow sequence exactly when
      its version, type and class say so. */
  lemma ParsedWithin(build: Build, mac: Mac, b: seq<Byte>, key: seq<Byte>)
    ensures var r := Parse(build, mac, b, key);
            r.Ok? ==>
              && |b| >= BASE_LEN
              && |r.value.header.echo| <= MAX_ECHO && |r.value.header.reports| <= MAX_REPORTS
              && (r.value.header.flow.has <==> Carries(b[0] as int / 16, r.value.header.type_, r.value.header.class_))
  {
  }

  lemma CutReportsLength(version: int, rs: seq<ReportEntry>)
    ensures |CutReports(version, rs)| == if version < 2 then 0 else |rs|
  {
  }

  lemma EncodedVersion(build: Build, mac: Mac, h: Header, version: int, key: seq<Byte>, x: seq<Byte>)
    ensures var b := Encode(build, mac, h, version, key) + x;
            |b| >= BASE_LEN && b[0] as int / 16 == Emitted(build, version)
  {
    var b := Encode(build, mac, h, version, key) + x;
    assert b[0] == Emitted(build, version) as Byte * 16 + h.type_ % 16;
  }

  /** The round trip, exactly: it holds for a header if and only if its blocks are
      within the limits and it has no type or class out of range that the wire
      would turn into bulk data. */
  lemma TripsExactly(build: Build, other: Build, mac: Mac, h: Header, version: int, key: seq<Byte>, parseKey: seq<Byte>, x: seq<Byte>)
    requires Emitted(build, version) <= other && (parseKey == key || parseKey == [])
    ensures Fits(Emitted(build, version), h)
            <==> Parse(other, mac, Encode(build, mac, h, version, key) + x, parseKey)
                 == Ok(Packet(Cut(Emitted(build, version), h), if build < other then build else other), x)
  {
    if Fits(Emitted(build, version), h) {
      WholeTrip(build, other, mac, h, version, key, parseKey, x);
    } else {
      ParsedWithin(other, mac, Encode(build, mac, h, version, key) + x, parseKey);
      CutReportsLength(Emitted(build, version), h.reports);
      EncodedVersion(build, mac, h, version, key, x);
    }
  }

  // ----- truncated packets

  lemma EchoAtPrefix(e: seq<Byte>, m: nat)
    requires ECHO_ENTRY_LEN <= m <= |e|
    ensures EchoAt(e[..m]) == EchoAt(e)
  {
    assert e[..m][1..] == e[1..][..m - 1] && e[..m][5..] == e[5..][..m - 5];
  }

  lemma {:induction false} EchoesAtPrefix(b: seq<Byte>, count: nat, m: nat)
    requires count * ECHO_ENTRY_LEN <= m <= |b|
    ensures EchoesAt(b[..m], count) == EchoesAt(b, count)
  {
    if count > 0 {
      EchoAtPrefix(b, m);
      assert b[..m][ECHO_ENTRY_LEN..] == b[ECHO_ENTRY_LEN..][..m - ECHO_ENTRY_LEN];
      EchoesAtPrefix(b[ECHO_ENTRY_LEN..], count - 1, m - ECHO_ENTRY_LEN);
    }
  }

  lemma ReportAtPrefix(version: int, e: seq<Byte>, m: nat)
    requires ReportLen(version) <= m <= |e|
    ensures ReportAt(version, e[..m]) == ReportAt(version, e)
  {
  }

  lemma {:induction false} ReportsAtPrefix(version: int, b: seq<Byte>, count: nat, m: nat)
    requires count * ReportLen(version) <= m <= |b|
    ensures ReportsAt(version, b[..m], count) == ReportsAt(version, b, count)
    decreases count
  {
    if count > 0 {
      var len := ReportLen(version);
      ReportAtPrefix(version, b, m);
      assert b[..m][len..] == b[len..][..m - len];
      ReportsAtPrefix(version, b[len..], count - 1, m - len);
    }
  }

  /** What a block parses to when the bytes are cut to k: the same, if the whole
      block is there, and short otherwise. */
  function CutTo<T>(r: Result<T>, whole: nat, k: nat): Result<T>
    requires k <= whole && (r.Ok? ==> |r.rest| <= whole)
  {
    match r
    case Err(e) => Err(e)
    case Ok(v, rest) => if k < whole - |rest| then Err(Short) else Ok(v, rest[..k - (whole - |rest|)])
  }

  lemma FlowPrefix(carries: bool, rest: seq<Byte>, k: nat)
    requires k <= |rest| && ParseFlow(carries, rest).Ok?
    ensures |ParseFlow(carries, rest).rest| <= |rest|
    ensures ParseFlow(carries, rest[..k]) == CutTo(ParseFlow(carries, rest), |rest|, k)
  {
  }

  lemma EchoPrefix(flagged: bool, rest: seq<Byte>, k: nat)
    requires k <= |rest| && ParseEcho(flagged, rest).Ok?
    ensures |ParseEcho(flagged, rest).rest| <= |rest|
    ensures ParseEcho(flagged, rest[..k]) == CutTo(ParseEcho(flagged, rest), |rest|, k)
  {
    if flagged && k > 0 {
      var count := rest[0] as int;
      assert rest[..k][1..] == rest[1..][..k - 1];
      if k - 1 >= count * ECHO_ENTRY_LEN {
        EchoesAtPrefix(rest[1..], count, k - 1);
      }
    }
  }

  lemma ReportsPrefix(flagged: bool, version: int, rest: seq<Byte>, k: nat)
    requires k <= |rest| && ParseReports(flagged, version, rest).Ok?
    ensures |ParseReports(flagged, version, rest).rest| <= |rest|
    ensures ParseReports(flagged, version, rest[..k]) == CutTo(ParseReports(flagged, version, rest), |rest|, k)
  {
    if flagged && k > 0 {
      var count := rest[0] as int;
      assert rest[..k][1..] == rest[1..][..k - 1];
      if k - 1 >= count * ReportLen(version) {
        ReportsAtPrefix(version, rest[1..], count, k - 1);
      }
    }
  }

  lemma TagPrefix(flagged: bool, mac: Mac, key: seq<Byte>, version: int, b: seq<Byte>, rest: seq<Byte>, k: nat)
    requires k <= |rest| <= |b| && ParseTag(flagged, mac, key, version, b, rest).Ok?
    ensures |ParseTag(flagged, mac, key, version, b, rest).rest| <= |rest|
    ensures ParseTag(flagged, mac, key, version, b[..|b| - |rest| + k], rest[..k])
            == CutTo(ParseTag(flagged, mac, key, version, b, rest), |rest|, k)
  {
    assert b[..|b| - |rest| + k][..|b| - |rest|] == b[..|b| - |rest|];
  }

  lemma BasePrefix(b: seq<Byte>, k: nat)
    requires BASE_LEN <= k <= |b|
    ensures ParseBase(b[..k]) == ParseBase(b)
    ensures b[..k][BASE_LEN..] == b[BASE_LEN..][..k - BASE_LEN]
  {
    assert b[..k][3..] == b[3..][..k - 3] && b[..k][7..] == b[7..][..k - 7] && b[..k][11..] == b[11..][..k - 11];
  }

  lemma FromTagPrefix(build: Build, mac: Mac, b: seq<Byte>, key: seq<Byte>, h: Header, rest: seq<Byte>, k: nat)
    requires k <= |rest| && BASE_LEN + |rest| <= |b| && FromTag(build, mac, b, key, h, rest).Ok?
    ensures |FromTag(build, mac, b, key, h, rest).rest| <= |rest|
    ensures FromTag(build, mac, b[..|b| - |rest| + k], key, h, rest[..k])
            == CutTo(FromTag(build, mac, b, key, h, rest), |rest|, k)
  {
    TagPrefix(Bit(b[1], FLAG_AUTH), mac, key, b[0] as int / 16, b, rest, k);
  }

  lemma FromReportsPrefix(build: Build, mac: Mac, b: seq<Byte>, key: seq<Byte>, h: Header, rest: seq<Byte>, k: nat)
    requires k <= |rest| && BASE_LEN + |rest| <= |b| && FromReports(build, mac, b, key, h, rest).Ok?
    ensures |FromReports(build, mac, b, key, h, rest).rest| <= |rest|
    ensures FromReports(build, mac, b[..|b| - |rest| + k], key, h, rest[..k])
            == CutTo(FromReports(build, mac, b, key, h, rest), |rest|, k)
  {
    hide ParseReports, FromTag, Bit;
    var flagged, version := Bit(b[1], FLAG_REPORT), b[0] as int / 16;
    ReportsPrefix(flagged, version, rest, k);
    var p := ParseReports(flagged, version, rest);
    var from := |rest| - |p.rest|;
    FromTagPrefix(build, mac, b, key, h.(reports := p.value), p.rest, if k < from then 0 else k - from);
  }

  lemma FromEchoIs(build: Build, mac: Mac, b: seq<Byte>, key: seq<Byte>, h: Header, rest: seq<Byte>,
                   echo: seq<EchoEntry>, r: seq<Byte>)
    requires BASE_LEN + |rest| <= |b| && BASE_LEN + |r| <= |b| && ParseEcho(Bit(b[1], FLAG_ECHO), rest) == Ok(echo, r)
    ensures FromEcho(build, mac, b, key, h, rest) == FromReports(build, mac, b, key, h.(echo := echo), r)
  {
  }

  /** Cutting a result to k of a whole is cutting it to what is left of k after what
      came before. */
  lemma CutFurther<T>(r: Result<T>, whole: nat, k: nat, before: nat)
    requires before <= k <= whole && (r.Ok? ==> |r.rest| <= whole - before)
    ensures CutTo(r, whole, k) == CutTo(r, whole - before, k - before)
  {
  }

  lemma FromEchoPrefix(build: Build, mac: Mac, b: seq<Byte>, key: seq<Byte>, h: Header, rest: seq<Byte>, k: nat)
    requires k <= |rest| && BASE_LEN + |rest| <= |b| && FromEcho(build, mac, b, key, h, rest).Ok?
    ensures |FromEcho(build, mac, b, key, h, rest).rest| <= |rest|
    ensures FromEcho(build, mac, b[..|b| - |rest| + k], key, h, rest[..k])
            == CutTo(FromEcho(build, mac, b, key, h, rest), |rest|, k)
  {
    hide FromReports, ParseEcho, Bit;
    var c, p := b[..|b| - |rest| + k], ParseEcho(Bit(b[1], FLAG_ECHO), rest);
    var g := h.(echo := p.value);
    EchoPrefix(Bit(b[1], FLAG_ECHO), rest, k);
    var from := |rest| - |p.rest|;
    assert c[1] == b[1];
    FromEchoIs(build, mac, b, key, h, rest, p.value, p.rest);
    if k < from {
      FromReportsPrefix(build, mac, b, key, g, p.rest, 0);
    } else {
      FromReportsPrefix(build, mac, b, key, g, p.rest, k - from);
      assert |b| - |p.rest| + (k - from) == |b| - |rest| + k;
      FromEchoIs(build, mac, c, key, h, rest[..k], p.value, p.rest[..k - from]);
      CutFurther(FromReports(build, mac, b, key, g, p.rest), |rest|, k, from);
    }
  }

  /** Cut anywhere, a packet that parses either parses to the same header, when the
      cut is in its payload, or is reported as short, when it is in its header:
      never anything else, and never misread. */
  lemma PrefixIsShort(build: Build, mac: Mac, b: seq<Byte>, key: seq<Byte>, k: nat)
    requires k <= |b| && Parse(build, mac, b, key).Ok?
    ensures |Parse(build, mac, b, key).rest| <= |b|
    ensures Parse(build, mac, b[..k], key) == CutTo(Parse(build, mac, b, key), |b|, k)
  {
    if k < BASE_LEN {
      ParsePrefix(build, mac, b, key, |b|);
    } else {
      ParsePrefix(build, mac, b, key, k);
    }
  }

  lemma ParseIs(build: Build, mac: Mac, b: seq<Byte>, key: seq<Byte>, flow: Flow, r: seq<Byte>)
    requires |b| >= BASE_LEN && 1 <= b[0] as int / 16 <= build && BASE_LEN + |r| <= |b|
    requires ParseFlow(Carries(b[0] as int / 16, ParseBase(b).type_, ParseBase(b).class_), b[BASE_LEN..]) == Ok(flow, r)
    ensures Parse(build, mac, b, key) == FromEcho(build, mac, b, key, ParseBase(b).(flow := flow), r)
  {
  }

  lemma ParseIsShort(build: Build, mac: Mac, b: seq<Byte>, key: seq<Byte>)
    requires |b| >= BASE_LEN && 1 <= b[0] as int / 16 <= build
    requires ParseFlow(Carries(b[0] as int / 16, ParseBase(b).type_, ParseBase(b).class_), b[BASE_LEN..]) == Err(Short)
    ensures Parse(build, mac, b, key) == Err(Short)
  {
  }

  /** A packet cut after its base header, by where its flow field ends. */
  lemma ParsePrefix(build: Build, mac: Mac, b: seq<Byte>, key: seq<Byte>, k: nat)
    requires BASE_LEN <= k <= |b| && Parse(build, mac, b, key).Ok?
    ensures |Parse(build, mac, b, key).rest| <= |b| - BASE_LEN
    ensures Parse(build, mac, b[..k], key) == CutTo(Parse(build, mac, b, key), |b|, k)
  {
    var h := ParseBase(b);
    var carries := Carries(b[0] as int / 16, h.type_, h.class_);
    var p := ParseFlow(carries, b[BASE_LEN..]);
    FlowCut(b, carries, k);
    FlowCut(b, carries, |b|);
    if k < |b| - |p.rest| {
      CutInFlow(build, mac, b, key, p.value, p.rest, k);
    } else {
      CutAfterFlow(build, mac, b, key, p.value, p.rest, k);
    }
  }

  lemma CutInFlow(build: Build, mac: Mac, b: seq<Byte>, key: seq<Byte>, flow: Flow, r: seq<Byte>, k: nat)
    requires BASE_LEN <= k < |b| - |r| && Parse(build, mac, b, key).Ok? && BASE_LEN + |r| <= |b|
    requires ParseFlow(Carries(b[0] as int / 16, ParseBase(b).type_, ParseBase(b).class_), b[BASE_LEN..]) == Ok(flow, r)
    ensures |Parse(build, mac, b, key).rest| <= |b| - BASE_LEN
    ensures Parse(build, mac, b[..k], key) == CutTo(Parse(build, mac, b, key), |b|, k)
  {
    var h := ParseBase(b);
    BasePrefix(b, k);
    FlowCut(b, Carries(b[0] as int / 16, h.type_, h.class_), k);
    ParseIsShort(build, mac, b[..k], key);
    ParseIs(build, mac, b, key, flow, r);
    FromEchoPrefix(build, mac, b, key, h.(flow := flow), r, 0);
  }

  lemma CutAfterFlow(build: Build, mac: Mac, b: seq<Byte>, key: seq<Byte>, flow: Flow, r: seq<Byte>, k: nat)
    requires |b| - |r| <= k <= |b| && Parse(build, mac, b, key).Ok? && BASE_LEN + |r| <= |b|
    requires ParseFlow(Carries(b[0] as int / 16, ParseBase(b).type_, ParseBase(b).class_), b[BASE_LEN..]) == Ok(flow, r)
    ensures |Parse(build, mac, b, key).rest| <= |b| - BASE_LEN
    ensures Parse(build, mac, b[..k], key) == CutTo(Parse(build, mac, b, key), |b|, k)
  {
    hide FromEcho, ParseFlow, ParseBase, Carries;
    var h, from := ParseBase(b), |b| - |r|;
    assert b[..|b| - |r| + (k - from)] == b[..k];
    BasePrefix(b, k);
    FlowCut(b, Carries(b[0] as int / 16, h.type_, h.class_), k);
    ParseIs(build, mac, b, key, flow, r);
    ParseIs(build, mac, b[..k], key, flow, r[..k - from]);
    FromEchoPrefix(build, mac, b, key, h.(flow := flow), r, k - from);
    CutFurther(FromEcho(build, mac, b, key, h.(flow := flow), r), |b|, k, from);
  }

  lemma FlowCut(b: seq<Byte>, carries: bool, k: nat)
    requires BASE_LEN <= k <= |b| && ParseFlow(carries, b[BASE_LEN..]).Ok?
    ensures var p := ParseFlow(carries, b[BASE_LEN..]);
            var from := |b| - |p.rest|;
            && |p.rest| <= |b| - BASE_LEN
            && ParseFlow(carries, b[..k][BASE_LEN..])
               == if k < from then Err(Short) else Ok(p.value, p.rest[..k - from])
  {
    FlowPrefix(carries, b[BASE_LEN..], k - BASE_LEN);
    assert b[..k][BASE_LEN..] == b[BASE_LEN..][..k - BASE_LEN];
  }

  /** So every strict prefix of an encoded header, alone, is short. */
  lemma HeaderAloneIsShort(build: Build, other: Build, mac: Mac, h: Header, version: int, key: seq<Byte>, parseKey: seq<Byte>,
                           k: nat)
    requires Emitted(build, version) <= other && Fits(Emitted(build, version), h) && (parseKey == key || parseKey == [])
    requires k < |Encode(build, mac, h, version, key)|
    ensures Parse(other, mac, Encode(build, mac, h, version, key)[..k], parseKey) == Err(Short)
  {
    var b := Encode(build, mac, h, version, key);
    assert b + [] == b;
    WholeTrip(build, other, mac, h, version, key, parseKey, []);
    PrefixIsShort(other, mac, b, parseKey, k);
  }

  // ----- lengths

  /** Within the limits a header is at most 137 bytes, and at most 72 where it has no
      reports: the budget a tunnel's packets are sized against. */
  lemma WithinLength(build: Build, mac: Mac, h: Header, version: int, key: seq<Byte>)
    requires Fits(Emitted(build, version), h)
    ensures |Encode(build, mac, h, version, key)| <= 137
    ensures h.reports == [] ==> |Encode(build, mac, h, version, key)| <= 72
    ensures MAX_HEADER_LEN == 137 && MAX_DATA_HEADER_LEN == 72
  {
    var v := Emitted(build, version);
    EncodeIs(build, mac, h, version, key);
    assert |ReportBlock(v, Reports(v, h))| <= 1 + MAX_REPORTS * REPORT_ENTRY_LEN_V3;
    assert |EchoBlock(h.echo)| <= 1 + MAX_ECHO * ECHO_ENTRY_LEN;
  }

  /** Both bounds are met: bulk data with every block full, and a report besides. */
  lemma LengthIsMet(mac: Mac, key: seq<Byte>, h: Header)
    requires key != [] && |h.echo| == MAX_ECHO && h.type_ == TYPE_DATA && h.class_ == CLASS_BULK
    ensures |h.reports| == MAX_REPORTS ==> |Encode(4, mac, h, 4, key)| == MAX_HEADER_LEN
    ensures h.reports == [] ==> |Encode(4, mac, h, 4, key)| == MAX_DATA_HEADER_LEN
  {
  }
}
