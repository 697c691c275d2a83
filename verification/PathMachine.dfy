/** The path machine as the source keeps it: its fields changed in place. */
module PathMachine {
  import opened PathState

  class PathMachine {
    var state: State
    var reason: string
    var changedAt: int
    var breaching: int
    var clean: int
    var transitions: seq<int>
    var demoteUntil: int

    ghost function Value(): Machine
      reads this
    {
      Machine(state, reason, changedAt, breaching, clean, transitions, demoteUntil)
    }

    /** Every evaluation, signal and question so far. */
    ghost var events: seq<Event>

    /** The fields are where a run ends, so that what is proved of every run is so of
        every machine. */
    ghost predicate Valid()
      reads this
    {
      Run(START, events).m == Value()
    }

    constructor ()
      ensures Valid() && Value() == NEW && events == []
    {
      state, reason, changedAt := Down, "", 0;
      breaching, clean, transitions, demoteUntil := 0, 0, [], 0;
      events := [];
    }

    /** Advances the machine one interval; true if the state changed. */
    method Evaluate(now: int, p: Metric, c: Config) returns (changed: bool)
      requires Valid()
      modifies this
      ensures Valid() && events == old(events) + [Evaluated(now, p, c)]
      ensures Value() == PathState.Evaluate(old(Value()), now, p, c)
      ensures changed <==> state != old(state)
    {
      RunJoin(START, events, Evaluated(now, p, c));
      events := events + [Evaluated(now, p, c)];
      var want, why := Assess(now, p, c);
      if want == state {
        return false;
      }
      state, reason, changedAt := want, why, now;
      transitions := transitions + [now];
      PruneTransitions(now, c.flapWindow);
      return true;
    }

    /** The state the path should be in, and why where that is a change. */
    method Assess(now: int, p: Metric, c: Config) returns (want: State, why: string)
      modifies this`breaching, this`clean
      ensures var m := old(Value());
              var f := Find(m, now, p, c);
              && Value() == m.(breaching := BreachingAfter(m, f), clean := CleanAfter(m, f))
              && want == Wants(m, f, c) && (want != m.state ==> why == Why(m, f, p, c))
    {
      if p.managed && !p.bound {
        breaching, clean := 0, 0;
        return Down, "link down";
      }
      if p.silentFor >= c.downSilence && p.sentSinceHeard >= c.downProbePackets {
        breaching, clean := 0, 0;
        return Down, "silent while being probed";
      }
      if state == Down {
        breaching, clean := 0, 0;
        return Unstable, "recovering";
      }
      if p.unusable {
        clean := 0;
        return Unstable, "below the tunnel floor";
      }
      if now < demoteUntil {
        clean := 0;
        if state == Stable {
          return Unstable, "out-of-band signal";
        }
        return state, reason;
      }
      if p.thin {
        breaching, clean := 0, 0;
        return state, reason;
      }
      var failed := Breach(p, c);
      if failed != "" {
        clean := 0;
        breaching := breaching + 1;
        if breaching >= c.demoteIntervals && state == Stable {
          return Unstable, failed;
        }
        return state, reason;
      }
      breaching := 0;
      clean := clean + 1;
      if clean >= c.promoteIntervals && state == Unstable {
        return Stable, "clean";
      }
      return state, reason;
    }

    /** Holds a path out of stable for a while on an outside signal. */
    method Demote(now: int, hold: int)
      requires Valid()
      modifies this
      ensures Valid() && events == old(events) + [Signalled(now, hold)]
      ensures Value() == PathState.Demote(old(Value()), now, hold)
    {
      RunJoin(START, events, Signalled(now, hold));
      events := events + [Signalled(now, hold)];
      var until := now + hold;
      if until > demoteUntil {
        demoteUntil := until;
      }
    }

    method PruneTransitions(now: int, window: int)
      modifies this`transitions
      ensures transitions == Pruned(old(transitions), now, window)
    {
      var cut := 0;
      while cut < |transitions| && now - transitions[cut] > window
        invariant cut <= |transitions|
        invariant Pruned(transitions[cut..], now, window) == Pruned(transitions, now, window)
      {
        cut := cut + 1;
      }
      transitions := transitions[cut..];
    }

    /** Whether the path has changed state too often to be trusted. */
    method Flapping(now: int, c: Config) returns (yes: bool)
      requires Valid()
      modifies this`transitions, this`events
      ensures Valid() && events == old(events) + [Asked(now, c)]
      ensures yes == PathState.Flapping(old(Value()), now, c)
      ensures Value() == old(Value()).(transitions := Pruned(old(transitions), now, c.flapWindow))
    {
      RunJoin(START, events, Asked(now, c));
      events := events + [Asked(now, c)];
      PruneTransitions(now, c.flapWindow);
      return |transitions| >= c.flapThreshold;
    }
  }
}
