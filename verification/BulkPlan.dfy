/** The scheduler and the cascade together, evaluation by evaluation: the fill order
    is published from the paths real-time is being sent on. */
module BulkPlan {
  import opened Collections
  import opened Ids
  import opened Scheduler
  import opened CascadePlan
  import SchedulerRuns
  import Cascade

  /** One evaluation: the scheduler's input, what the cascade reads of the same
      eligible paths, and whether it may run at all. */
  datatype Evaluation = Evaluation(in_: Input, candidates: seq<Candidate>, gates: Gates, hyst: real, on: bool) {
    ghost predicate Valid() {
      && SchedulerRuns.Proper(in_)
      && |candidates| == |in_.eligible|
      && forall i :: 0 <= i < |candidates| ==> candidates[i].path == in_.eligible[i].id
    }
  }

  datatype Plan = Plan(t: SchedulerRuns.Trace, c: Cascade.Trace)

  const START := Plan(SchedulerRuns.START, Cascade.START)

  function DelaysOf(candidates: seq<Candidate>): Cascade.Delays {
    if candidates == [] then map[] else DelaysOf(candidates[1..])[candidates[0].path := candidates[0].delay]
  }

  /** What the scheduler decides at an evaluation. */
  function Decided(p: Plan, e: Evaluation): Decision {
    BuildTx(Choose(p.t.s, e.in_), e.in_)
  }

  function PrimaryDelay(d: Decision, e: Evaluation): real {
    Cascade.DelayOf(DelaysOf(e.candidates), d.primary)
  }

  function MembersAt(d: Decision, e: Evaluation): seq<Path> {
    Members(e.candidates, d.tx, Best(e.candidates), PrimaryDelay(d, e), e.gates)
  }

  predicate Active(d: Decision, e: Evaluation) {
    e.on && !d.blind && d.havePrimary && e.in_.eligible != []
  }

  function Step(p: Plan, e: Evaluation): Plan {
    var d := Decided(p, e);
    Plan(SchedulerRuns.Step(p.t, e.in_),
         Cascade.Step(p.c, if Active(d, e) then Cascade.Evaluate(MembersAt(d, e), DelaysOf(e.candidates), e.hyst)
                           else Cascade.Off))
  }

  /** The fill order an evaluation publishes. */
  ghost function FillOrder(p: Plan, e: Evaluation): seq<Path> {
    var d := Decided(p, e);
    Published(Step(p, e).c.order, e.candidates, d.tx, d.primary, Best(e.candidates), PrimaryDelay(d, e), e.gates)
  }

  ghost predicate Good(p: Plan) {
    SchedulerRuns.Overlapping(p.t) && Cascade.Counted(p.c)
  }

  lemma {:induction false} MembersDistinct(candidates: seq<Candidate>, tx: seq<Path>, best: real, primaryDelay: real, g: Gates)
    requires forall i, j :: 0 <= i < j < |candidates| ==> candidates[i].path != candidates[j].path
    ensures Distinct(Members(candidates, tx, best, primaryDelay, g))
    ensures forall p: Path :: p in Members(candidates, tx, best, primaryDelay, g) ==>
              exists i :: 0 <= i < |candidates| && candidates[i].path == p
  {
    if candidates != [] {
      var rest := candidates[1..];
      MembersDistinct(rest, tx, best, primaryDelay, g);
      forall p: Path | p in Members(rest, tx, best, primaryDelay, g)
        ensures p != candidates[0].path && exists i :: 0 <= i < |candidates| && candidates[i].path == p
      {
        var i :| 0 <= i < |rest| && rest[i].path == p;
        assert candidates[i + 1] == rest[i] && candidates[0].path != candidates[i + 1].path;
      }
    }
  }

  lemma StepGood(p: Plan, e: Evaluation)
    requires Good(p) && e.Valid()
    ensures Good(Step(p, e))
  {
    var d := Decided(p, e);
    SchedulerRuns.StepOverlapping(p.t, e.in_);
    MembersDistinct(e.candidates, d.tx, Best(e.candidates), PrimaryDelay(d, e), e.gates);
    Cascade.StepCounted(p.c, if Active(d, e) then Cascade.Evaluate(MembersAt(d, e), DelaysOf(e.candidates), e.hyst)
                             else Cascade.Off);
  }

  function Run(p: Plan, es: seq<Evaluation>): Plan
    decreases |es|
  {
    if es == [] then p else Run(Step(p, es[0]), es[1..])
  }

  ghost predicate AllValid(es: seq<Evaluation>) {
    forall i :: 0 <= i < |es| ==> es[i].Valid()
  }

  lemma {:induction false} RunGood(p: Plan, es: seq<Evaluation>)
    requires Good(p) && AllValid(es)
    ensures Good(Run(p, es))
    decreases |es|
  {
    if es != [] {
      StepGood(p, es[0]);
      RunGood(Step(p, es[0]), es[1..]);
    }
  }

  /** Each path once, every path real-time is sent on after every other, and the
      primary last. */
  predicate Safe(order: seq<Path>, d: Decision) {
    && Distinct(order)
    && (forall i, j :: 0 <= i < j < |order| && order[i] in d.tx ==> order[j] in d.tx)
    && (d.primary in order ==> order[|order| - 1] == d.primary)
  }

  /** In every run of the two together, through handovers and duplication, every fill
      order published is safe beside the decision published with it, and is the paths
      admitted, or the primary alone where none is. */
  lemma EveryFillOrderIsSafe(es: seq<Evaluation>, e: Evaluation, p: Plan)
    requires AllValid(es) && e.Valid() && p == Run(START, es) && Active(Decided(p, e), e)
    ensures var d, order := Decided(p, e), FillOrder(p, e);
            && Safe(order, d)
            && ((forall q: Path :: q in order <==> Admits(e.candidates, q, Best(e.candidates), PrimaryDelay(d, e), e.gates))
                || order == [d.primary])
  {
    RunGood(START, es);
    var d := Decided(p, e);
    OrderIsMembers(p, e);
    TxLeads(p, e);
    PublishedIsSafe(Step(p, e).c.order, e.candidates, d.tx, d.primary, Best(e.candidates), PrimaryDelay(d, e), e.gates);
  }

  lemma OrderIsMembers(p: Plan, e: Evaluation)
    requires Good(p) && e.Valid() && Active(Decided(p, e), e)
    ensures var order := Step(p, e).c.order;
            Distinct(order) && multiset(order) == multiset(MembersAt(Decided(p, e), e))
  {
    var d := Decided(p, e);
    MembersDistinct(e.candidates, d.tx, Best(e.candidates), PrimaryDelay(d, e), e.gates);
    Cascade.OrderedIsPermutation(p.c.order, p.c.counts, MembersAt(d, e), DelaysOf(e.candidates), e.hyst);
  }

  lemma TxLeads(p: Plan, e: Evaluation)
    requires Good(p) && e.Valid() && Active(Decided(p, e), e)
    ensures var d := Decided(p, e); Distinct(d.tx) && d.tx != [] && d.tx[0] == d.primary
  {
    SchedulerRuns.SentOnce(p.t, e.in_);
    assert e.in_.eligible[0].id in e.in_.sendable;
    SchedulerRuns.NeverSilent(p.t, e.in_);
  }
}
