/** The flow table as the source keeps it: one map, changed in place packet by
    packet. */
module TransTable {
  import Transactional
  import opened CascadePlan
  import opened Ids

  type Flow = Transactional.Flow
  type Riding = Transactional.Riding

  class TransTable {
    var transFlows: map<Flow, Riding>
    var transSweepAt: int

    ghost function Value(): Transactional.Table
      reads this
    {
      Transactional.Table(transFlows, transSweepAt)
    }

    constructor ()
      ensures Value() == Transactional.EMPTY
    {
      transFlows, transSweepAt := map[], 0;
    }

    /** The order transactional flows may ride, the primary first. */
    method BuildTransactional(primary: Path, eligible: seq<Candidate>, best: real, g: Gates) returns (order: seq<Path>)
      ensures order == Transactional.Order(primary, eligible, best, g)
    {
      order := [primary];
      for i := 0 to |eligible|
        invariant order + Transactional.Others(primary, eligible[i..], best, g)
                  == Transactional.Order(primary, eligible, best, g)
      {
        var k := eligible[i];
        if k.path == primary || !k.healthy || Undersized(k.shapedKbps, best, g) {
          continue;
        }
        order := order + [k.path];
      }
    }

    /** Chooses the one path a transactional packet goes out of; where there is
        nowhere to move to, the primary, and nothing is remembered. */
    method PlaceTransactional(rules: Transactional.Rules, now: int, flow: Flow, room: Transactional.Room)
      returns (path: Path)
      modifies this
      ensures var k := Transactional.Packet(rules, now, flow, room);
              Value() == Transactional.TableAfter(old(Value()), k) && path == Transactional.Sends(old(Value()), k).path
    {
      if |rules.order| < 2 {
        return rules.primary;
      }
      path := PlaceAmong(rules, now, flow, room);
    }

    method PlaceAmong(rules: Transactional.Rules, now: int, flow: Flow, room: Transactional.Room)
      returns (path: Path)
      requires |rules.order| >= 2
      modifies this
      ensures Transactional.Placed(Value(), path) == Transactional.PlaceOn(old(Value()), rules, now, flow, room)
    {
      SweepTransFlows(now, rules.idle);
      var order := rules.order;
      var known := flow in transFlows && now - transFlows[flow].lastSeen <= rules.idle;
      if !known {
        var i := WithRoom(order, room.any);
        path := if i < |order| then order[i] else order[0];
        if flow in transFlows || |transFlows| < rules.maxFlows {
          transFlows := transFlows[flow := Transactional.Riding(path, now, 0)];
        }
        return;
      }
      var f := transFlows[flow].(lastSeen := now);
      transFlows := transFlows[flow := f];
      var at := IndexOf(order, f.path);
      if at < |order| && (now < f.heldUntil || room.own) {
        return order[at];
      }
      var i := WithRoom(order, room.any);
      if i == |order| && at < |order| {
        return order[at];
      }
      path := if i < |order| then order[i] else order[0];
      transFlows := transFlows[flow := Transactional.Riding(path, now, now + Transactional.MOVE_HOLD)];
    }

    method WithRoom(order: seq<Path>, room: Path -> bool) returns (i: nat)
      ensures i == Transactional.WithRoom(order, room)
    {
      i := 0;
      while i < |order|
        invariant i <= |order|
        invariant i + Transactional.WithRoom(order[i..], room) == Transactional.WithRoom(order, room)
      {
        if room(order[i]) {
          return;
        }
        i := i + 1;
      }
    }

    method IndexOf(order: seq<Path>, p: Path) returns (i: nat)
      ensures i == Transactional.Place(order, p)
    {
      i := 0;
      while i < |order|
        invariant i <= |order| && i + Transactional.Place(order[i..], p) == Transactional.Place(order, p)
      {
        if order[i] == p {
          return;
        }
        i := i + 1;
      }
    }

    /** Forgets flows idle past the timeout, at most once a quarter of it. */
    method SweepTransFlows(now: int, idle: nat)
      modifies this
      ensures Value() == Transactional.Sweep(old(Value()), now, idle)
    {
      if now < transSweepAt {
        return;
      }
      transSweepAt := now + idle / 4;
      var todo := transFlows.Keys;
      while todo != {}
        invariant transSweepAt == now + idle / 4 && todo <= old(transFlows).Keys
        invariant transFlows == map k: Flow | k in old(transFlows)
                                              && (k in todo || now - old(transFlows)[k].lastSeen <= idle)
                                            :: old(transFlows)[k]
      {
        var k :| k in todo;
        if now - transFlows[k].lastSeen > idle {
          transFlows := transFlows - {k};
        }
        todo := todo - {k};
      }
    }
  }
}
