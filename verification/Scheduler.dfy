/** The sticky, make-before-break choice of primary path and the paths real-time
    goes out of (internal/relay/scheduler.go), on values. Scores and measurements
    are inputs. */
module Scheduler {
  import opened Collections
  import opened Ids

  /** One eligible path: usable in principle, reachable in practice. */
  datatype Scored = Scored(id: Path, score: real, confirmedAt: int, sendKbps: real, shapedKbps: real, green: bool)

  datatype Mode = Single | Always | WhenUnstable

  datatype Config = Config(
    minAcceptable: real,
    switchMargin: real,
    switchHold: int,
    headroomPercent: real,
    mbbMinMs: int,
    mbbMaxMs: int,
    mode: Mode)
  {
    function MbbMin(): int {
      mbbMinMs * 1_000_000
    }

    /** Never below the minimum, whatever is configured. */
    function MbbMax(): (r: int)
      ensures r >= MbbMin()
    {
      if mbbMaxMs < mbbMinMs then MbbMin() else mbbMaxMs * 1_000_000
    }
  }

  predicate DistinctIds(eligible: seq<Scored>) {
    forall i, j :: 0 <= i < j < |eligible| ==> eligible[i].id != eligible[j].id
  }

  /** What one evaluation is given: eligible paths best first, the paths that can be
      transmitted on, and those whose machines call them unstable. */
  datatype Input = Input(now: int, c: Config, eligible: seq<Scored>, sendable: set<Path>, unstable: set<Path>)

  datatype Sched = Sched(
    primary: Path,
    havePrimary: bool,
    challenger: Path,
    challengerFor: int,
    switching: bool,
    switchFrom: Path,
    switchingTo: Path,
    since: int)

  const NEW := Sched(Path(0), false, Path(0), 0, false, Path(0), Path(0), 0)

  function PathOf(id: Path, eligible: seq<Scored>): (r: Option<Scored>)
    ensures r.Some? ==> r.value.id == id && r.value in eligible
    ensures r.None? ==> forall i :: 0 <= i < |eligible| ==> eligible[i].id != id
  {
    if eligible == [] then None
    else if eligible[0].id == id then Some(eligible[0])
    else PathOf(id, eligible[1..])
  }

  predicate Eligible(id: Path, eligible: seq<Scored>) {
    PathOf(id, eligible).Some?
  }

  // ----- choosing the primary

  function CanCarry(p: Scored, load: real, c: Config): bool {
    p.shapedKbps <= 0.0 || (p.sendKbps + load) * (1.0 + c.headroomPercent / 100.0) <= p.shapedKbps
  }

  function CanTake(p: Scored, load: real, c: Config): bool {
    p.green && CanCarry(p, load, c)
  }

  /** What the primary is being asked to carry. */
  function Offered(s: Sched, eligible: seq<Scored>): real {
    if s.havePrimary && PathOf(s.primary, eligible).Some? then PathOf(s.primary, eligible).value.sendKbps else 0.0
  }

  /** The first path better than the failing one that can take its load. */
  function Escape(primary: Path, cur: real, load: real, eligible: seq<Scored>, c: Config): Option<Path> {
    if eligible == [] then None
    else if eligible[0].id != primary && eligible[0].score > cur && CanTake(eligible[0], load, c)
    then Some(eligible[0].id)
    else Escape(primary, cur, load, eligible[1..], c)
  }

  function EscapeTo(s: Sched, cur: real, eligible: seq<Scored>, c: Config): Path
    requires eligible != []
  {
    match Escape(s.primary, cur, Offered(s, eligible), eligible, c)
    case Some(id) => id
    case None => eligible[0].id
  }

  function Adopt(s: Sched, id: Path): Sched {
    if s.havePrimary && s.primary == id then s
    else s.(primary := id, havePrimary := true, switching := false, challengerFor := 0)
  }

  function Begin(s: Sched, now: int, to: Path): Sched {
    s.(switching := true, switchFrom := s.primary, switchingTo := to, since := now, challengerFor := 0)
  }

  function Advance(s: Sched, in_: Input): Sched {
    var elapsed := in_.now - s.since;
    match PathOf(s.switchingTo, in_.eligible)
    case None => s.(switching := false)
    case Some(target) =>
      if (target.confirmedAt > s.since && elapsed >= in_.c.MbbMin())
         || elapsed >= in_.c.MbbMax()
         || !Eligible(s.switchFrom, in_.eligible)
      then s.(primary := s.switchingTo, havePrimary := true, switching := false)
      else s
  }

  /** The best path beats the primary by the margin, and can take its load. */
  predicate Challenges(s: Sched, in_: Input)
    requires in_.eligible != []
  {
    var best := in_.eligible[0];
    var cur := PathOf(s.primary, in_.eligible);
    && s.havePrimary && !s.switching && cur.Some? && best.id != s.primary
    && !(cur.value.score < in_.c.minAcceptable && best.score > cur.value.score)
    && best.score > cur.value.score + in_.c.switchMargin
    && CanTake(best, Offered(s, in_.eligible), in_.c)
  }

  predicate Failing(s: Sched, in_: Input)
    requires in_.eligible != []
  {
    var best := in_.eligible[0];
    var cur := PathOf(s.primary, in_.eligible);
    && s.havePrimary && !s.switching && cur.Some? && best.id != s.primary
    && cur.value.score < in_.c.minAcceptable && best.score > cur.value.score
  }

  function Choose(s: Sched, in_: Input): Sched {
    if in_.eligible == [] then s.(switching := false)
    else if s.switching then Advance(s, in_)
    else
      var best := in_.eligible[0];
      var cur := PathOf(s.primary, in_.eligible);
      if !s.havePrimary || cur.None? then Adopt(s, best.id)
      else if Failing(s, in_) then Begin(s, in_.now, EscapeTo(s, cur.value.score, in_.eligible, in_.c))
      else if Challenges(s, in_) then
        var held := if s.challenger == best.id then s.challengerFor + 1 else 1;
        var t := s.(challenger := best.id, challengerFor := held);
        if held >= in_.c.switchHold then Begin(t, in_.now, best.id) else t
      else s.(challengerFor := 0)
  }

  // ----- the paths real-time goes out of

  datatype Decision = Decision(tx: seq<Path>, primary: Path, havePrimary: bool, blind: bool)

  /** The paths other than the primary that are within budget, best first. */
  function Spares(primary: Path, eligible: seq<Scored>): seq<Path> {
    if eligible == [] then []
    else (if eligible[0].id != primary && eligible[0].green then [eligible[0].id] else [])
         + Spares(primary, eligible[1..])
  }

  /** A set of ids in increasing order. */
  function Ascending(ids: set<Path>, n: nat): seq<Path>
    decreases n
  {
    if n == 0 then [] else Ascending(ids, n - 1) + if Path(n - 1) in ids then [Path(n - 1)] else []
  }

  const PATHS := 256

  function BuildTx(s: Sched, in_: Input): Decision {
    if in_.eligible == [] || !s.havePrimary then
      var all := Ascending(in_.sendable, PATHS);
      Decision(all, s.primary, s.havePrimary, all != [])
    else
      var tx :=
        if s.switching && s.switchingTo in in_.sendable then [s.primary, s.switchingTo]
        else
          var spares := Spares(s.primary, in_.eligible);
          match in_.c.mode
          case Single => [s.primary]
          case Always => [s.primary] + spares
          case WhenUnstable =>
            if s.primary in in_.unstable && spares != [] then [s.primary, spares[0]] else [s.primary];
      Decision(tx, s.primary, s.havePrimary, false)
  }
}
