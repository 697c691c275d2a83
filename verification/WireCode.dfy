/** AppendTo and Parse as the source writes them: a buffer appended to, and a packet
    walked, entry by entry. */
module WireCode {
  import opened Bytes
  import opened Serial
  import opened Wire

  const VERSION: Build := 4

  method AppendEchoes(dst: seq<Byte>, es: seq<EchoEntry>) returns (out: seq<Byte>)
    ensures out == dst + EchoesBytes(es)
  {
    out := dst;
    for i := 0 to |es|
      invariant out == dst + EchoesBytes(es[..i])
    {
      var e := es[i];
      EchoesJoin(es[..i], e);
      assert es[..i + 1] == es[..i] + [e];
      AppendAll(dst, EchoesBytes(es[..i]), [e.pathID], Word32(e.ts), Word32(e.delay), Word16(e.maxSeen));
      out := out + [e.pathID];
      out := out + Word32(e.ts);
      out := out + Word32(e.delay);
      out := out + Word16(e.maxSeen);
    }
    assert es[..|es|] == es;
  }

  method AppendReports(dst: seq<Byte>, version: int, rs: seq<ReportEntry>) returns (out: seq<Byte>)
    ensures out == dst + ReportsBytes(version, rs)
  {
    hide ReportBytes, ReportsBytes;
    out := dst;
    ghost var done: seq<Byte> := [];
    for i := 0 to |rs|
      invariant done == ReportsBytes(version, rs[..i]) && out == dst + done
    {
      ReportsJoin(version, rs[..i], rs[i]);
      assert rs[..i + 1] == rs[..i] + [rs[i]];
      Joined(dst, done, ReportBytes(version, rs[i]));
      out := AppendReport(out, version, rs[i]);
      done := done + ReportBytes(version, rs[i]);
    }
    assert rs[..|rs|] == rs;
  }

  lemma Joined(a: seq<Byte>, b: seq<Byte>, c: seq<Byte>)
    ensures a + b + c == a + (b + c)
  {
  }

  method AppendReport(dst: seq<Byte>, version: int, r: ReportEntry) returns (out: seq<Byte>)
    ensures out == dst + ReportBytes(version, r)
  {
    out := dst + [r.pathID];
    out := out + Word16(r.spread);
    out := out + Word16(r.queue);
    out := out + Word16(r.jitter);
    out := out + Word16(r.loss);
    out := out + [r.burst];
    if version >= 3 {
      out := out + Word16(r.standing);
      out := out + Word16(r.shortLoss);
      out := out + Word16(r.rx);
    }
  }

  method FlagsFor(h: Header, report: bool, auth: bool) returns (flags: Byte)
    ensures flags == Flags(VERSION, h.class_, h.echo != [], report, auth)
  {
    var f := FLAG_CAPABLE + FLAG_CAPABLE_V3 + FLAG_CAPABLE_V4;
    if |h.echo| > 0 {
      f := f + FLAG_ECHO;
    }
    if report {
      f := f + FLAG_REPORT;
    }
    if auth {
      f := f + FLAG_AUTH;
    }
    f := f + (h.class_ % 4) as int * 2;
    flags := f as Byte;
  }

  method AppendFlow(dst: seq<Byte>, version: int, h: Header) returns (out: seq<Byte>)
    ensures out == dst + FlowField(version, h)
  {
    out := dst;
    if Carries(version, h.type_, h.class_) {
      out := out + Word32(h.flow.bucket % FLOW_BUCKETS * FLOW_SPACE + h.flow.flowSeq % FLOW_SPACE);
    }
  }

  method AppendEchoBlock(dst: seq<Byte>, es: seq<EchoEntry>) returns (out: seq<Byte>)
    ensures out == dst + EchoBlock(es)
  {
    out := dst;
    if |es| > 0 {
      out := out + [(|es| % 256) as Byte];
      Joined(dst, [(|es| % 256) as Byte], EchoesBytes(es));
      out := AppendEchoes(out, es);
    }
  }

  method AppendReportBlock(dst: seq<Byte>, version: int, rs: seq<ReportEntry>) returns (out: seq<Byte>)
    ensures out == dst + ReportBlock(version, rs)
  {
    out := dst;
    if |rs| > 0 {
      out := out + [(|rs| % 256) as Byte];
      Joined(dst, [(|rs| % 256) as Byte], ReportsBytes(version, rs));
      out := AppendReports(out, version, rs);
    }
  }

  /** Appends the encoded header to a buffer. */
  method AppendTo(mac: Mac, h: Header, dst: seq<Byte>, asked: int, key: seq<Byte>) returns (out: seq<Byte>)
    ensures out == dst + Encode(VERSION, mac, h, asked, key)
  {
    var version: Build := if 1 <= asked <= VERSION then asked else 1;
    var reports, auth := h.reports, |key| > 0;
    if version < 2 {
      reports, auth := [], false;
    }
    var flags := FlagsFor(h, |reports| > 0, auth);
    out := dst + Base(version, flags, h);
    out := AppendFlow(out, version, h);
    out := AppendEchoBlock(out, h.echo);
    out := AppendReportBlock(out, version, reports);
    AppendAll(dst, [], Base(version, flags, h), FlowField(version, h), EchoBlock(h.echo), ReportBlock(version, reports));
    ghost var c := Covered(VERSION, h, version, auth);
    assert out == dst + c;
    if auth {
      Joined(dst, c, mac(key, c));
      out := out + mac(key, out[|dst|..]);
    }
  }

  lemma AppendAll(dst: seq<Byte>, done: seq<Byte>, a: seq<Byte>, b: seq<Byte>, c: seq<Byte>, d: seq<Byte>)
    ensures dst + done + a + b + c + d == dst + (done + (a + b + c + d))
    ensures done == [] ==> dst + a + b + c + d == dst + (a + b + c + d)
  {
  }

  lemma {:induction false} EchoesJoin(es: seq<EchoEntry>, e: EchoEntry)
    ensures EchoesBytes(es + [e]) == EchoesBytes(es) + EchoBytes(e)
  {
    if es == [] {
      assert EchoesBytes([e]) == EchoBytes(e) + EchoesBytes([e][1..]);
    } else {
      assert (es + [e])[1..] == es[1..] + [e];
      EchoesJoin(es[1..], e);
    }
  }

  lemma {:induction false} ReportsJoin(version: int, rs: seq<ReportEntry>, r: ReportEntry)
    ensures ReportsBytes(version, rs + [r]) == ReportsBytes(version, rs) + ReportBytes(version, r)
  {
    if rs == [] {
      assert ReportsBytes(version, [r]) == ReportBytes(version, r) + ReportsBytes(version, [r][1..]);
    } else {
      assert (rs + [r])[1..] == rs[1..] + [r];
      ReportsJoin(version, rs[1..], r);
    }
  }

  // ----- parsing

  method ReadEchoes(rest: seq<Byte>, count: nat) returns (es: seq<EchoEntry>)
    requires count * ECHO_ENTRY_LEN <= |rest|
    ensures es == EchoesAt(rest, count)
  {
    hide Read16, Read32;
    es := [];
    for i := 0 to count
      invariant |es| == i && es + EchoesAt(rest[i * ECHO_ENTRY_LEN..], count - i) == EchoesAt(rest, count)
    {
      var e := rest[i * ECHO_ENTRY_LEN..];
      assert e[ECHO_ENTRY_LEN..] == rest[(i + 1) * ECHO_ENTRY_LEN..];
      es := es + [EchoEntry(e[0], Read32(e[1..]), Read32(e[5..]), Read16(e[9..]))];
    }
  }

  lemma ReportsFrom(version: int, rest: seq<Byte>, i: nat, count: nat)
    requires i < count && count * ReportLen(version) <= |rest|
    ensures 0 <= i * ReportLen(version) <= (i + 1) * ReportLen(version) <= |rest|
    ensures (count - i) * ReportLen(version) <= |rest| - i * ReportLen(version)
    ensures (count - i - 1) * ReportLen(version) <= |rest| - (i + 1) * ReportLen(version)
    ensures ReportsAt(version, rest[i * ReportLen(version)..], count - i)
            == [ReportAt(version, rest[i * ReportLen(version)..])]
               + ReportsAt(version, rest[(i + 1) * ReportLen(version)..], count - i - 1)
  {
    assert rest[i * ReportLen(version)..][ReportLen(version)..] == rest[(i + 1) * ReportLen(version)..];
  }

  method ReadReports(version: int, rest: seq<Byte>, count: nat) returns (rs: seq<ReportEntry>)
    requires count * ReportLen(version) <= |rest|
    ensures rs == ReportsAt(version, rest, count)
  {
    hide ReportsAt;
    rs := [];
    var at := 0;
    ghost var left := ReportsAt(version, rest, count);
    for i := 0 to count
      invariant at == i * ReportLen(version) <= |rest|
      invariant (count - i) * ReportLen(version) <= |rest| - at
      invariant left == ReportsAt(version, rest[at..], count - i)
      invariant rs + left == ReportsAt(version, rest, count)
    {
      ReportsFrom(version, rest, i, count);
      var e := rest[at..];
      var r := ReportEntry(e[0], Read16(e[1..]), Read16(e[3..]), Read16(e[5..]), Read16(e[7..]), e[9], 0, 0, 0);
      if version >= 3 {
        r := r.(standing := Read16(e[10..]), shortLoss := Read16(e[12..]), rx := Read16(e[14..]));
      }
      Joined3(rs, r, left[1..]);
      rs := rs + [r];
      at := at + ReportLen(version);
      left := left[1..];
    }
  }

  lemma Joined3(a: seq<ReportEntry>, r: ReportEntry, c: seq<ReportEntry>)
    ensures a + [r] + c == a + ([r] + c)
  {
  }

  method ReadNegotiated(version: int, flags: Byte) returns (negotiated: int)
    ensures negotiated == Negotiated(VERSION, version, flags)
  {
    negotiated := version;
    if Bit(flags, FLAG_CAPABLE) && negotiated < 2 {
      negotiated := 2;
    }
    if Bit(flags, FLAG_CAPABLE_V3) && negotiated < 3 {
      negotiated := 3;
    }
    if Bit(flags, FLAG_CAPABLE_V4) && negotiated < 4 {
      negotiated := 4;
    }
    if negotiated > VERSION {
      negotiated := VERSION;
    }
  }

  method ReadEchoBlock(flags: Byte, b: seq<Byte>) returns (r: Result<seq<EchoEntry>>)
    ensures r == ParseEcho(Bit(flags, FLAG_ECHO), b)
  {
    var rest := b;
    if !Bit(flags, FLAG_ECHO) {
      return Ok([], rest);
    }
    if |rest| < 1 {
      return Err(Short);
    }
    var count := rest[0] as int;
    rest := rest[1..];
    if count > MAX_ECHO {
      return Err(Malformed);
    }
    if |rest| < count * ECHO_ENTRY_LEN {
      return Err(Short);
    }
    var es := ReadEchoes(rest, count);
    return Ok(es, rest[count * ECHO_ENTRY_LEN..]);
  }

  method ReadReportBlock(flags: Byte, version: int, b: seq<Byte>) returns (r: Result<seq<ReportEntry>>)
    ensures r == ParseReports(Bit(flags, FLAG_REPORT), version, b)
  {
    var rest := b;
    if !Bit(flags, FLAG_REPORT) {
      return Ok([], rest);
    }
    if |rest| < 1 {
      return Err(Short);
    }
    var count := rest[0] as int;
    rest := rest[1..];
    if count > MAX_REPORTS {
      return Err(Malformed);
    }
    if |rest| < count * ReportLen(version) {
      return Err(Short);
    }
    var rs := ReadReports(version, rest, count);
    return Ok(rs, rest[count * ReportLen(version)..]);
  }

  method ReadTag(mac: Mac, flags: Byte, version: int, b: seq<Byte>, from: seq<Byte>, key: seq<Byte>) returns (r: Result<()>)
    requires |from| <= |b|
    ensures r == ParseTag(Bit(flags, FLAG_AUTH), mac, key, version, b, from)
  {
    var rest := from;
    if Bit(flags, FLAG_AUTH) {
      if |rest| < AUTH_TAG_LEN {
        return Err(Short);
      }
      var tag := rest[..AUTH_TAG_LEN];
      rest := rest[AUTH_TAG_LEN..];
      if |key| > 0 {
        var covered := b[..|b| - |rest| - AUTH_TAG_LEN];
        if tag != mac(key, covered) {
          return Err(BadAuth);
        }
      }
    } else if |key| > 0 && version >= 2 {
      return Err(BadAuth);
    }
    return Ok((), rest);
  }

  /** Decodes a header from the front of a packet. */
  method ParsePacket(mac: Mac, b: seq<Byte>, key: seq<Byte>) returns (r: Result<Packet>)
    ensures r == Parse(VERSION, mac, b, key)
  {
    if |b| < BASE_LEN {
      return Err(Short);
    }
    var version := b[0] as int / 16;
    if version < 1 || version > VERSION {
      return Err(BadVersion);
    }
    var h := ParseBase(b);
    var flow := ParseFlow(Carries(version, h.type_, h.class_), b[BASE_LEN..]);
    if flow.Err? {
      return Err(flow.error);
    }
    var echo := ReadEchoBlock(b[1], flow.rest);
    if echo.Err? {
      return Err(echo.error);
    }
    h := h.(flow := flow.value);
    assert Parse(VERSION, mac, b, key) == FromEcho(VERSION, mac, b, key, h, flow.rest);
    r := ParseFromReports(mac, b, key, h.(echo := echo.value), echo.rest);
  }

  method ParseFromReports(mac: Mac, b: seq<Byte>, key: seq<Byte>, h: Header, rest: seq<Byte>) returns (r: Result<Packet>)
    requires BASE_LEN + |rest| <= |b|
    ensures r == FromReports(VERSION, mac, b, key, h, rest)
  {
    var version, flags := b[0] as int / 16, b[1];
    var reports := ReadReportBlock(flags, version, rest);
    if reports.Err? {
      return Err(reports.error);
    }
    var tag := ReadTag(mac, flags, version, b, reports.rest, key);
    if tag.Err? {
      return Err(tag.error);
    }
    var negotiated := ReadNegotiated(version, flags);
    return Ok(Packet(h.(reports := reports.value), negotiated), tag.rest);
  }
}
