/** The scheduler as the source keeps it: its fields changed in place by one
    evaluation after another. */
module PathScheduler {
  import opened Collections
  import opened Ids
  import Scheduler
  import SchedulerRuns

  type Scored = Scheduler.Scored
  type Input = Scheduler.Input

  class PathScheduler {
    var primary: Path
    var havePrimary: bool
    var challenger: Path
    var challengerFor: int
    var switching: bool
    var switchFrom: Path
    var switchingTo: Path
    var switchingSince: int

    ghost function Value(): Scheduler.Sched
      reads this
    {
      Scheduler.Sched(primary, havePrimary, challenger, challengerFor, switching, switchFrom, switchingTo, switchingSince)
    }

    /** Every evaluation so far. */
    ghost var ins: seq<Input>

    /** The fields are where a run ends, so that what is proved of every run is so of
        every scheduler. */
    ghost predicate Valid()
      reads this
    {
      SchedulerRuns.AllProper(ins) && SchedulerRuns.Run(SchedulerRuns.START, ins).s == Value()
    }

    constructor ()
      ensures Valid() && Value() == Scheduler.NEW && ins == []
    {
      primary, havePrimary, challenger, challengerFor := Path(0), false, Path(0), 0;
      switching, switchFrom, switchingTo, switchingSince := false, Path(0), Path(0), 0;
      ins := [];
    }

    /** One evaluation: settles the primary, and publishes where real-time goes. */
    method Evaluate(in_: Input) returns (d: Scheduler.Decision)
      requires Valid() && SchedulerRuns.Proper(in_)
      modifies this
      ensures Valid() && ins == old(ins) + [in_]
      ensures Value() == Scheduler.Choose(old(Value()), in_)
      ensures d == Scheduler.BuildTx(Value(), in_)
    {
      SchedulerRuns.RunJoin(SchedulerRuns.START, ins, in_);
      Choose(in_);
      d := BuildTx(in_);
      ins := ins + [in_];
    }

    /** Settles the primary, applying stickiness and running any handover. */
    method Choose(in_: Input)
      modifies this
      ensures ins == old(ins) && Value() == Scheduler.Choose(old(Value()), in_)
    {
      if |in_.eligible| == 0 {
        switching := false;
        return;
      }
      var best := in_.eligible[0];
      if switching {
        AdvanceSwitch(in_);
        return;
      }
      var cur := MetricOf(primary, in_.eligible);
      if !havePrimary || cur.None? {
        Adopt(best.id);
        return;
      }
      if best.id == primary {
        challengerFor := 0;
        return;
      }
      if cur.value.score < in_.c.minAcceptable && best.score > cur.value.score {
        var to := EscapeTo(cur.value.score, in_);
        BeginSwitch(in_.now, to);
        return;
      }
      if best.score > cur.value.score + in_.c.switchMargin {
        var load := OfferedKbps(in_.eligible);
        if !Scheduler.CanTake(best, load, in_.c) {
          challengerFor := 0;
          return;
        }
        if challenger == best.id {
          challengerFor := challengerFor + 1;
        } else {
          challenger, challengerFor := best.id, 1;
        }
        if challengerFor >= in_.c.switchHold {
          BeginSwitch(in_.now, best.id);
        }
        return;
      }
      challengerFor := 0;
    }

    /** Decides whether a handover in flight is finished. */
    method AdvanceSwitch(in_: Input)
      requires switching
      modifies this
      ensures ins == old(ins) && Value() == Scheduler.Advance(old(Value()), in_)
    {
      var elapsed := in_.now - switchingSince;
      var target := MetricOf(switchingTo, in_.eligible);
      if target.None? {
        switching := false;
        return;
      }
      var confirmed := target.value.confirmedAt > switchingSince;
      var left := MetricOf(switchFrom, in_.eligible);
      if confirmed && elapsed >= in_.c.MbbMin() {
      } else if elapsed >= in_.c.MbbMax() {
      } else if left.None? {
      } else {
        return;
      }
      primary, havePrimary := switchingTo, true;
      switching := false;
    }

    /** Starts a handover: both paths carry real-time until the new one is sure. */
    method BeginSwitch(now: int, to: Path)
      modifies this
      ensures ins == old(ins) && Value() == Scheduler.Begin(old(Value()), now, to)
    {
      switching := true;
      switchFrom, switchingTo, switchingSince := primary, to, now;
      challengerFor := 0;
    }

    /** Takes a path as primary with no overlap: there is nothing to overlap with. */
    method Adopt(id: Path)
      modifies this
      ensures ins == old(ins) && Value() == Scheduler.Adopt(old(Value()), id)
    {
      if havePrimary && primary == id {
        return;
      }
      primary, havePrimary := id, true;
      switching, challengerFor := false, 0;
    }

    /** Where a failing path hands over to. */
    method EscapeTo(cur: real, in_: Input) returns (to: Path)
      requires in_.eligible != []
      ensures to == Scheduler.EscapeTo(Value(), cur, in_.eligible, in_.c)
    {
      var load := OfferedKbps(in_.eligible);
      for i := 0 to |in_.eligible|
        invariant Scheduler.Escape(primary, cur, load, in_.eligible[i..], in_.c)
                  == Scheduler.Escape(primary, cur, load, in_.eligible, in_.c)
      {
        var sc := in_.eligible[i];
        if sc.id == primary || sc.score <= cur {
          continue;
        }
        if Scheduler.CanTake(sc, load, in_.c) {
          return sc.id;
        }
      }
      return in_.eligible[0].id;
    }

    method OfferedKbps(eligible: seq<Scored>) returns (load: real)
      ensures load == Scheduler.Offered(Value(), eligible)
    {
      if !havePrimary {
        return 0.0;
      }
      var m := MetricOf(primary, eligible);
      return if m.Some? then m.value.sendKbps else 0.0;
    }

    /** The paths a real-time packet goes out of. */
    method BuildTx(in_: Input) returns (d: Scheduler.Decision)
      ensures d == Scheduler.BuildTx(Value(), in_)
    {
      if |in_.eligible| == 0 || !havePrimary {
        var all := Scheduler.Ascending(in_.sendable, Scheduler.PATHS);
        return Scheduler.Decision(all, primary, havePrimary, |all| > 0);
      }
      var tx := [primary];
      if switching && switchingTo in in_.sendable {
        tx := tx + [switchingTo];
        return Scheduler.Decision(tx, primary, havePrimary, false);
      }
      if in_.c.mode == Scheduler.Always {
        var spares := SparesOf(in_.eligible);
        tx := tx + spares;
      } else if in_.c.mode == Scheduler.WhenUnstable && primary in in_.unstable {
        var spares := SparesOf(in_.eligible);
        if |spares| > 0 {
          tx := tx + [spares[0]];
        }
      }
      return Scheduler.Decision(tx, primary, havePrimary, false);
    }

    lemma SpareNext(eligible: seq<Scored>, i: nat, before: seq<Path>)
      requires i < |eligible|
      ensures before + Scheduler.Spares(primary, eligible[i..])
              == (if eligible[i].id != primary && eligible[i].green then before + [eligible[i].id] else before)
                 + Scheduler.Spares(primary, eligible[i + 1..])
    {
      assert eligible[i..][1..] == eligible[i + 1..];
    }

    method SparesOf(eligible: seq<Scored>) returns (spares: seq<Path>)
      ensures spares == Scheduler.Spares(primary, eligible)
    {
      spares := [];
      for i := 0 to |eligible|
        invariant spares + Scheduler.Spares(primary, eligible[i..]) == Scheduler.Spares(primary, eligible)
      {
        hide Scheduler.Spares;
        var sc := eligible[i];
        SpareNext(eligible, i, spares);
        if sc.id != primary && sc.green {
          spares := spares + [sc.id];
        }
      }
    }

    method MetricOf(id: Path, eligible: seq<Scored>) returns (m: Option<Scored>)
      ensures m == Scheduler.PathOf(id, eligible)
    {
      for i := 0 to |eligible|
        invariant Scheduler.PathOf(id, eligible[i..]) == Scheduler.PathOf(id, eligible)
      {
        if eligible[i].id == id {
          return Some(eligible[i]);
        }
      }
      return None;
    }
  }
}
