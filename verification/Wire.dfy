/** The header of internal/protocol/header.go: what each version writes, and what
    the parser reads back. */
module Wire {
  import opened Bytes
  import opened Serial

  type U16 = x: int | 0 <= x < 0x1_0000
  type U32 = x: int | 0 <= x < 0x1_0000_0000

  const BASE_LEN := 15
  const FLOW_SEQ_LEN := 4
  const ECHO_ENTRY_LEN := 11
  const REPORT_ENTRY_LEN := 10
  const REPORT_ENTRY_LEN_V3 := 16
  const MAX_ECHO := 4
  const MAX_REPORTS := 4
  const AUTH_TAG_LEN := 8
  const MAX_DATA_HEADER_LEN := BASE_LEN + FLOW_SEQ_LEN + 1 + MAX_ECHO * ECHO_ENTRY_LEN + AUTH_TAG_LEN
  const MAX_HEADER_LEN := MAX_DATA_HEADER_LEN + 1 + MAX_REPORTS * REPORT_ENTRY_LEN_V3

  const TYPE_DATA: Byte := 0
  const CLASS_BULK: Byte := 2

  const FLAG_ECHO := 1
  const FLAG_REPORT := 8
  const FLAG_AUTH := 16
  const FLAG_CAPABLE := 32
  const FLAG_CAPABLE_V3 := 64
  const FLAG_CAPABLE_V4 := 128

  /** The newest version a build reads and writes. This source is build 4. */
  type Build = v: int | 1 <= v <= 4 witness 1

  type Tag = t: seq<Byte> | |t| == AUTH_TAG_LEN witness [0, 0, 0, 0, 0, 0, 0, 0]

  /** The truncated MAC of a header under a key. */
  type Mac = (seq<Byte>, seq<Byte>) -> Tag

  datatype EchoEntry = EchoEntry(pathID: Byte, ts: U32, delay: U32, maxSeen: U16)

  datatype ReportEntry = ReportEntry(
    pathID: Byte,
    spread: U16,
    queue: U16,
    jitter: U16,
    loss: U16,
    burst: Byte,
    standing: U16,
    shortLoss: U16,
    rx: U16)

  datatype Flow = Flow(bucket: U16, flowSeq: U32, has: bool)

  datatype Header = Header(
    type_: Byte,
    class_: Byte,
    pathID: Byte,
    globalSeq: U32,
    pathSeq: U32,
    sendTS: U32,
    flow: Flow,
    echo: seq<EchoEntry>,
    reports: seq<ReportEntry>)

  datatype Error = Short | BadVersion | Malformed | BadAuth

  /** A value and the bytes after it. */
  datatype Result<T> = Ok(value: T, rest: seq<Byte>) | Err(error: Error)

  /** A parsed header, and the highest version its sender was heard to read. */
  datatype Packet = Packet(header: Header, negotiated: int)

  // ----- big-endian words

  function Word16(n: U16): (r: seq<Byte>)
    ensures |r| == 2
  {
    [(n / 256) as Byte, (n % 256) as Byte]
  }

  function Word32(n: U32): (r: seq<Byte>)
    ensures |r| == 4
  {
    Word16(n / 0x1_0000) + Word16(n % 0x1_0000)
  }

  function Read16(b: seq<Byte>): U16
    requires |b| >= 2
  {
    b[0] as int * 256 + b[1] as int
  }

  function Read32(b: seq<Byte>): U32
    requires |b| >= 4
  {
    Read16(b) * 0x1_0000 + Read16(b[2..])
  }

  // ----- what a version carries

  predicate Carries(version: int, type_: Byte, class_: Byte) {
    version >= 3 && type_ == TYPE_DATA && class_ == CLASS_BULK
  }

  function ReportLen(version: int): nat {
    if version >= 3 then REPORT_ENTRY_LEN_V3 else REPORT_ENTRY_LEN
  }

  /** The version actually written when asked for one. */
  function Emitted(build: Build, version: int): Build {
    if 1 <= version <= build then version else 1
  }

  function ShortReport(r: ReportEntry): ReportEntry {
    r.(standing := 0, shortLoss := 0, rx := 0)
  }

  function ShortReports(rs: seq<ReportEntry>): (r: seq<ReportEntry>)
    ensures |r| == |rs|
  {
    if rs == [] then [] else [ShortReport(rs[0])] + ShortReports(rs[1..])
  }

  function CutFlow(version: int, h: Header): Flow {
    if Carries(version, h.type_, h.class_) then Flow(h.flow.bucket % FLOW_BUCKETS, h.flow.flowSeq % FLOW_SPACE, true)
    else Flow(0, 0, false)
  }

  function CutReports(version: int, rs: seq<ReportEntry>): seq<ReportEntry> {
    if version < 2 then [] else if version < 3 then ShortReports(rs) else rs
  }

  /** A header cut down to what a version carries. */
  function Cut(version: int, h: Header): Header {
    h.(type_ := h.type_ % 16, class_ := h.class_ % 4, flow := CutFlow(version, h),
       reports := CutReports(version, h.reports))
  }

  // ----- encoding

  function Capable(build: Build): int {
    (if build >= 2 then FLAG_CAPABLE else 0)
    + (if build >= 3 then FLAG_CAPABLE_V3 else 0)
    + (if build >= 4 then FLAG_CAPABLE_V4 else 0)
  }

  function Flags(build: Build, class_: Byte, echo: bool, report: bool, auth: bool): Byte {
    (Capable(build)
     + (if echo then FLAG_ECHO else 0)
     + (if report then FLAG_REPORT else 0)
     + (if auth then FLAG_AUTH else 0)
     + (class_ % 4) as int * 2) as Byte
  }

  function Base(version: Build, flags: Byte, h: Header): (r: seq<Byte>)
    ensures |r| == BASE_LEN
  {
    [version as Byte * 16 + h.type_ % 16, flags, h.pathID]
    + Word32(h.globalSeq) + Word32(h.pathSeq) + Word32(h.sendTS)
  }

  function FlowField(version: int, h: Header): seq<Byte> {
    if Carries(version, h.type_, h.class_)
    then Word32(h.flow.bucket % FLOW_BUCKETS * FLOW_SPACE + h.flow.flowSeq % FLOW_SPACE)
    else []
  }

  function EchoBytes(e: EchoEntry): (r: seq<Byte>)
    ensures |r| == ECHO_ENTRY_LEN
  {
    [e.pathID] + Word32(e.ts) + Word32(e.delay) + Word16(e.maxSeen)
  }

  function EchoesBytes(es: seq<EchoEntry>): (r: seq<Byte>)
    ensures |r| == |es| * ECHO_ENTRY_LEN
  {
    if es == [] then [] else EchoBytes(es[0]) + EchoesBytes(es[1..])
  }

  function EchoBlock(es: seq<EchoEntry>): seq<Byte> {
    if es == [] then [] else [(|es| % 256) as Byte] + EchoesBytes(es)
  }

  function ReportBytes(version: int, r: ReportEntry): (b: seq<Byte>)
    ensures |b| == ReportLen(version)
  {
    var short := [r.pathID] + Word16(r.spread) + Word16(r.queue) + Word16(r.jitter) + Word16(r.loss) + [r.burst];
    if version >= 3 then short + Word16(r.standing) + Word16(r.shortLoss) + Word16(r.rx) else short
  }

  function ReportsBytes(version: int, rs: seq<ReportEntry>): (b: seq<Byte>)
    ensures |b| == |rs| * ReportLen(version)
  {
    if rs == [] then [] else ReportBytes(version, rs[0]) + ReportsBytes(version, rs[1..])
  }

  function ReportBlock(version: int, rs: seq<ReportEntry>): seq<Byte> {
    if rs == [] then [] else [(|rs| % 256) as Byte] + ReportsBytes(version, rs)
  }

  /** The reports a version writes at all. */
  function Reports(version: int, h: Header): seq<ReportEntry> {
    if version < 2 then [] else h.reports
  }

  function Covered(build: Build, h: Header, version: Build, auth: bool): (r: seq<Byte>)
    ensures |r| >= BASE_LEN
  {
    var rs := Reports(version, h);
    Base(version, Flags(build, h.class_, h.echo != [], rs != [], auth), h)
    + FlowField(version, h) + EchoBlock(h.echo) + ReportBlock(version, rs)
  }

  /** AppendTo, from an empty buffer. */
  function Encode(build: Build, mac: Mac, h: Header, version: int, key: seq<Byte>): seq<Byte> {
    var v := Emitted(build, version);
    var auth := key != [] && v >= 2;
    var c := Covered(build, h, v, auth);
    if auth then c + mac(key, c) else c
  }

  // ----- parsing

  predicate Bit(flags: Byte, flag: int)
    requires flag > 0
  {
    (flags as int / flag) % 2 == 1
  }

  function Negotiated(build: Build, version: int, flags: Byte): int {
    var a := if Bit(flags, FLAG_CAPABLE) && version < 2 then 2 else version;
    var b := if Bit(flags, FLAG_CAPABLE_V3) && a < 3 then 3 else a;
    var c := if Bit(flags, FLAG_CAPABLE_V4) && b < 4 then 4 else b;
    if c > build then build else c
  }

  function ParseFlow(carries: bool, rest: seq<Byte>): Result<Flow> {
    if !carries then Ok(Flow(0, 0, false), rest)
    else if |rest| < FLOW_SEQ_LEN then Err(Short)
    else
      var field := Read32(rest);
      Ok(Flow(field / FLOW_SPACE, field % FLOW_SPACE, true), rest[FLOW_SEQ_LEN..])
  }

  function EchoAt(e: seq<Byte>): EchoEntry
    requires |e| >= ECHO_ENTRY_LEN
  {
    EchoEntry(e[0], Read32(e[1..]), Read32(e[5..]), Read16(e[9..]))
  }

  function EchoesAt(b: seq<Byte>, count: nat): (r: seq<EchoEntry>)
    requires count * ECHO_ENTRY_LEN <= |b|
    ensures |r| == count
  {
    if count == 0 then [] else [EchoAt(b)] + EchoesAt(b[ECHO_ENTRY_LEN..], count - 1)
  }

  function ParseEcho(flagged: bool, rest: seq<Byte>): Result<seq<EchoEntry>> {
    if !flagged then Ok([], rest)
    else if |rest| < 1 then Err(Short)
    else if rest[0] as int > MAX_ECHO then Err(Malformed)
    else if |rest| - 1 < rest[0] as int * ECHO_ENTRY_LEN then Err(Short)
    else Ok(EchoesAt(rest[1..], rest[0] as int), rest[1 + rest[0] as int * ECHO_ENTRY_LEN..])
  }

  function ReportAt(version: int, e: seq<Byte>): ReportEntry
    requires |e| >= ReportLen(version)
  {
    var r := ReportEntry(e[0], Read16(e[1..]), Read16(e[3..]), Read16(e[5..]), Read16(e[7..]), e[9], 0, 0, 0);
    if version >= 3 then r.(standing := Read16(e[10..]), shortLoss := Read16(e[12..]), rx := Read16(e[14..])) else r
  }

  function ReportsAt(version: int, b: seq<Byte>, count: nat): (r: seq<ReportEntry>)
    requires count * ReportLen(version) <= |b|
    ensures |r| == count
    decreases count
  {
    if count == 0 then [] else [ReportAt(version, b)] + ReportsAt(version, b[ReportLen(version)..], count - 1)
  }

  function ParseReports(flagged: bool, version: int, rest: seq<Byte>): Result<seq<ReportEntry>> {
    if !flagged then Ok([], rest)
    else if |rest| < 1 then Err(Short)
    else if rest[0] as int > MAX_REPORTS then Err(Malformed)
    else if |rest| - 1 < rest[0] as int * ReportLen(version) then Err(Short)
    else Ok(ReportsAt(version, rest[1..], rest[0] as int), rest[1 + rest[0] as int * ReportLen(version)..])
  }

  /** The tag, and whether it is the right one where there is a key to check it
      with: b is the whole packet, and rest what is left of it. */
  function ParseTag(flagged: bool, mac: Mac, key: seq<Byte>, version: int, b: seq<Byte>, rest: seq<Byte>): Result<()>
    requires |rest| <= |b|
  {
    if !flagged then
      if key != [] && version >= 2 then Err(BadAuth) else Ok((), rest)
    else if |rest| < AUTH_TAG_LEN then Err(Short)
    else if key != [] && rest[..AUTH_TAG_LEN] != mac(key, b[..|b| - |rest|]) then Err(BadAuth)
    else Ok((), rest[AUTH_TAG_LEN..])
  }

  function ParseBase(b: seq<Byte>): Header
    requires |b| >= BASE_LEN
  {
    Header(b[0] % 16, b[1] / 2 % 4, b[2], Read32(b[3..]), Read32(b[7..]), Read32(b[11..]), Flow(0, 0, false), [], [])
  }

  // What follows the base header, block by block.

  function FromTag(build: Build, mac: Mac, b: seq<Byte>, key: seq<Byte>, h: Header, rest: seq<Byte>): Result<Packet>
    requires BASE_LEN + |rest| <= |b|
  {
    var version, flags := b[0] as int / 16, b[1];
    match ParseTag(Bit(flags, FLAG_AUTH), mac, key, version, b, rest)
    case Err(e) => Err(e)
    case Ok(_, r) => Ok(Packet(h, Negotiated(build, version, flags)), r)
  }

  function FromReports(build: Build, mac: Mac, b: seq<Byte>, key: seq<Byte>, h: Header, rest: seq<Byte>): Result<Packet>
    requires BASE_LEN + |rest| <= |b|
  {
    match ParseReports(Bit(b[1], FLAG_REPORT), b[0] as int / 16, rest)
    case Err(e) => Err(e)
    case Ok(reports, r) => FromTag(build, mac, b, key, h.(reports := reports), r)
  }

  function FromEcho(build: Build, mac: Mac, b: seq<Byte>, key: seq<Byte>, h: Header, rest: seq<Byte>): Result<Packet>
    requires BASE_LEN + |rest| <= |b|
  {
    match ParseEcho(Bit(b[1], FLAG_ECHO), rest)
    case Err(e) => Err(e)
    case Ok(echo, r) => FromReports(build, mac, b, key, h.(echo := echo), r)
  }

  function ParseRest(build: Build, mac: Mac, b: seq<Byte>, key: seq<Byte>): Result<Packet>
    requires |b| >= BASE_LEN
  {
    var h := ParseBase(b);
    match ParseFlow(Carries(b[0] as int / 16, h.type_, h.class_), b[BASE_LEN..])
    case Err(e) => Err(e)
    case Ok(flow, r) => FromEcho(build, mac, b, key, h.(flow := flow), r)
  }

  function Parse(build: Build, mac: Mac, b: seq<Byte>, key: seq<Byte>): Result<Packet> {
    if |b| < BASE_LEN then Err(Short)
    else if b[0] as int / 16 < 1 || b[0] as int / 16 > build then Err(BadVersion)
    else ParseRest(build, mac, b, key)
  }
}
