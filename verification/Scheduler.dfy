/**
 The repository's workload scheduler as the benchmark drives it: criticality tiers, earliest deadline first inside a
 tier, and admission against one resource snapshot. It is a legal policy for the orchestrated run, and a
 work-conserving one when resources are ample.
 */
module Scheduler {
  import opened Basics
  import opened Sorting
  import opened BenchmarkRecords
  import opened Orchestrated
  import FixedRate

  /** Tiers are 0 (immediate), 1 (urgent), 2 (timely) and 3 or more (background). */
  datatype Spec = Spec(tier: nat, deadline: nat, maxDeferral: nat, memory: nat)

  datatype Resources = Resources(availableMemory: nat, overloaded: bool)

  datatype Verdict = Admit | Defer | Reject

  const ReserveMemory: nat := 64

  /** `_admissible` for a job that has waited `elapsed`, with no other job active and no forced scan configured. */
  function Admissible(spec: Spec, res: Resources, elapsed: int): Verdict {
    var expired := elapsed >= spec.maxDeferral;
    if res.availableMemory < spec.memory then (if expired then Reject else Defer)
    else if spec.tier == 0 then Admit
    else if res.availableMemory - spec.memory < ReserveMemory then
      (if !expired then Defer else if spec.tier <= 2 then Admit else Reject)
    else if res.overloaded then
      (if spec.tier <= 1 || (expired && spec.tier <= 2) then Admit else if expired then Reject else Defer)
    else Admit
  }

  type Registry = string -> Spec

  /** Heap order: tier, then absolute deadline; ties keep submission order. */
  predicate Urgent(registry: Registry, a: Opportunity, b: Opportunity) {
    var x, y := registry(a.workload), registry(b.workload);
    x.tier < y.tier || (x.tier == y.tier && a.scheduled + x.deadline <= b.scheduled + y.deadline)
  }

  function UrgentLe(registry: Registry): (Opportunity, Opportunity) -> bool {
    (a: Opportunity, b: Opportunity) => Urgent(registry, a, b)
  }

  function VerdictAt(registry: Registry, res: Resources, item: Opportunity, now: int): Verdict {
    Admissible(registry(item.workload), res, now - item.scheduled)
  }

  /** Pops jobs in heap order until one is admissible; deferred jobs are pushed back, rejected ones are dropped. */
  function Walk(registry: Registry, res: Resources, q: seq<Opportunity>, now: int): Dispatch {
    if q == [] then Dispatch(None, [])
    else
      match VerdictAt(registry, res, q[0], now)
      case Admit => Dispatch(Some(q[0]), q[1..])
      case Defer =>
        var d := Walk(registry, res, q[1..], now);
        d.(kept := [q[0]] + d.kept)
      case Reject => Walk(registry, res, q[1..], now)
  }

  /** `dispatch`'s loop: pop, then admit, hold or reject. */
  method DispatchLoop(registry: Registry, res: Resources, queue: seq<Opportunity>, now: int) returns (d: Dispatch)
    ensures d == Walk(registry, res, Sort(queue, UrgentLe(registry)), now)
  {
    var heap := Sort(queue, UrgentLe(registry));
    ghost var whole := Walk(registry, res, heap, now);
    var held := [];
    var selected: Option<Opportunity> := None;
    while heap != []
      invariant selected.None?
      invariant whole == var rest := Walk(registry, res, heap, now); rest.(kept := held + rest.kept)
      decreases |heap|
    {
      var job := heap[0];
      var verdict := VerdictAt(registry, res, job, now);
      heap := heap[1..];
      if verdict == Admit {
        selected := Some(job);
        break;
      }
      if verdict == Defer {
        assert forall rest: seq<Opportunity> :: held + ([job] + rest) == held + [job] + rest;
        held := held + [job];
      }
    }
    assert held + [] == held;
    d := Dispatch(selected, held + heap);
  }

  function SchedulerPolicy(registry: Registry, res: Resources): Policy {
    (n: nat, q: seq<Opportunity>, now: int) => Walk(registry, res, Sort(q, UrgentLe(registry)), now)
  }

  ghost function Held(d: Dispatch): multiset<Opportunity> {
    multiset(d.kept) + Bag(d.selected)
  }

  /** A popped job is dispatched, kept or dropped. */
  lemma {:induction false} WalkStep(registry: Registry, res: Resources, q: seq<Opportunity>, now: int)
    requires q != []
    ensures var d, rest := Walk(registry, res, q, now), Walk(registry, res, q[1..], now);
            || d == Dispatch(Some(q[0]), q[1..])
            || d == rest.(kept := [q[0]] + rest.kept)
            || d == rest
  {
  }

  lemma HeldGrows(d: Dispatch, rest: Dispatch, x: Opportunity, q: seq<Opportunity>)
    requires Held(rest) <= multiset(q)
    requires d == Dispatch(Some(x), q) || d == rest.(kept := [x] + rest.kept) || d == rest
    ensures Held(d) <= multiset{x} + multiset(q)
  {
  }

  lemma {:induction false} WalkLegal(registry: Registry, res: Resources, q: seq<Opportunity>, now: int)
    ensures Held(Walk(registry, res, q, now)) <= multiset(q)
  {
    if q != [] {
      WalkLegal(registry, res, q[1..], now);
      WalkStep(registry, res, q, now);
      HeldGrows(Walk(registry, res, q, now), Walk(registry, res, q[1..], now), q[0], q[1..]);
      assert q == [q[0]] + q[1..];
    }
  }

  /** The scheduler dispatches only jobs it was given and never the same one twice. */
  lemma SchedulerIsLegal(registry: Registry, res: Resources)
    ensures Legal(SchedulerPolicy(registry, res))
  {
    var policy := SchedulerPolicy(registry, res);
    forall n, q, t
      ensures var d := policy(n, q, t); multiset(d.kept) + Bag(d.selected) <= multiset(q)
    {
      WalkLegal(registry, res, Sort(q, UrgentLe(registry)), t);
    }
  }

  /** A node that is not overloaded and can always spare the reserve admits every job at once. */
  ghost predicate Ample(registry: Registry, res: Resources) {
    !res.overloaded && forall w :: registry(w).memory + ReserveMemory <= res.availableMemory
  }

  lemma AmpleWalk(registry: Registry, res: Resources, q: seq<Opportunity>, now: int)
    requires Ample(registry, res) && q != []
    ensures Walk(registry, res, q, now) == Dispatch(Some(q[0]), q[1..])
    ensures multiset(q[1..]) + multiset{q[0]} == multiset(q)
  {
    assert registry(q[0].workload).memory + ReserveMemory <= res.availableMemory;
    assert q == [q[0]] + q[1..];
  }

  lemma SchedulerConservesWork(registry: Registry, res: Resources)
    requires Ample(registry, res)
    ensures WorkConserving(SchedulerPolicy(registry, res))
  {
    var policy := SchedulerPolicy(registry, res);
    forall n, q, t
      ensures var d := policy(n, q, t);
              multiset(d.kept) + Bag(d.selected) == multiset(q) && (q != [] ==> d.selected.Some?)
    {
      var heap := Sort(q, UrgentLe(registry));
      if q != [] {
        AmpleWalk(registry, res, heap, t);
      }
    }
  }

  /**
   What a job may run on: its memory must be there, and a job that can still wait leaves the reserve alone and yields to
   overload unless it is immediate or urgent; a job that waited too long does so only in the background tier.
   */
  ghost predicate MayRun(registry: Registry, res: Resources, item: Opportunity, now: int) {
    var spec := registry(item.workload);
    && spec.memory <= res.availableMemory
    && (if now - item.scheduled < spec.maxDeferral then
          spec.tier == 0 || (spec.memory + 64 <= res.availableMemory && (spec.tier == 1 || !res.overloaded))
        else
          spec.tier <= 2 || (spec.memory + 64 <= res.availableMemory && !res.overloaded))
  }

  lemma VerdictMeans(registry: Registry, res: Resources, item: Opportunity, now: int)
    ensures VerdictAt(registry, res, item, now) == Admit <==> MayRun(registry, res, item, now)
    ensures VerdictAt(registry, res, item, now) == Reject <==>
            !MayRun(registry, res, item, now) && now - item.scheduled >= registry(item.workload).maxDeferral
  {
  }

  /** Whatever a dispatch drops for good has used up its deferral and may not run. */
  lemma {:induction false} DroppedIsOverdue(registry: Registry, res: Resources, q: seq<Opportunity>, now: int, x: Opportunity)
    requires multiset(q)[x] != Held(Walk(registry, res, q, now))[x]
    ensures x in q && !MayRun(registry, res, x, now) && now - x.scheduled >= registry(x.workload).maxDeferral
  {
    if q != [] {
      assert q == [q[0]] + q[1..];
      VerdictMeans(registry, res, q[0], now);
      if VerdictAt(registry, res, q[0], now) != Admit && multiset(q[1..])[x] != Held(Walk(registry, res, q[1..], now))[x] {
        DroppedIsOverdue(registry, res, q[1..], now, x);
      }
    }
  }

  /** A dispatch drops only jobs that have used up their deferral and may not run. */
  lemma DispatchDropsOverdue(registry: Registry, res: Resources, queue: seq<Opportunity>, now: int, x: Opportunity)
    ensures var d := SchedulerPolicy(registry, res)(0, queue, now);
            multiset(queue)[x] == (multiset(d.kept) + Bag(d.selected))[x] ||
            (!MayRun(registry, res, x, now) && now - x.scheduled >= registry(x.workload).maxDeferral)
  {
    var heap := Sort(queue, UrgentLe(registry));
    if multiset(heap)[x] != Held(Walk(registry, res, heap, now))[x] {
      DroppedIsOverdue(registry, res, heap, now, x);
    }
  }

  /** The selected job may run and is the most urgent that may: by tier, then by absolute deadline. */
  lemma {:induction false} SelectedIsMostUrgent(registry: Registry, res: Resources, queue: seq<Opportunity>, now: int, other: Opportunity)
    requires other in queue && MayRun(registry, res, other, now)
    ensures var d := SchedulerPolicy(registry, res)(0, queue, now);
            && d.selected.Some? && d.selected.value in queue
            && MayRun(registry, res, d.selected.value, now)
            && var best, spec := registry(d.selected.value.workload), registry(other.workload);
            && best.tier <= spec.tier
            && (best.tier == spec.tier ==> d.selected.value.scheduled + best.deadline <= other.scheduled + spec.deadline)
  {
    VerdictMeans(registry, res, other, now);
    var item := MostUrgent(registry, res, queue, now, other);
    VerdictMeans(registry, res, item, now);
  }

  lemma {:induction false} MostUrgent(registry: Registry, res: Resources, queue: seq<Opportunity>, now: int, other: Opportunity)
    returns (item: Opportunity)
    requires other in queue && VerdictAt(registry, res, other, now) == Admit
    ensures SchedulerPolicy(registry, res)(0, queue, now).selected == Some(item)
    ensures item in queue && VerdictAt(registry, res, item, now) == Admit && Urgent(registry, item, other)
  {
    var le := UrgentLe(registry);
    var heap := Sort(queue, le);
    SortSorted(queue, le);
    SortMembers(queue, le);
    var k := WalkSelects(registry, res, heap, now, other);
    item := heap[k];
    var j :| 0 <= j < |heap| && heap[j] == other;
    if k < j {
      assert le(heap[k], heap[j]);
    }
  }

  lemma {:induction false} WalkSelects(registry: Registry, res: Resources, q: seq<Opportunity>, now: int, other: Opportunity)
    returns (k: nat)
    requires other in q && VerdictAt(registry, res, other, now) == Admit
    ensures k < |q| && Walk(registry, res, q, now).selected == Some(q[k])
    ensures VerdictAt(registry, res, q[k], now) == Admit
    ensures forall j :: 0 <= j < |q| && q[j] == other ==> k <= j
  {
    if VerdictAt(registry, res, q[0], now) == Admit {
      k := 0;
    } else {
      var j :| 0 <= j < |q| && q[j] == other;
      assert q[1..][j - 1] == other;
      k := WalkSelects(registry, res, q[1..], now, other);
      assert q[1..][k] == q[k + 1];
      forall j | 0 <= j < |q| && q[j] == other ensures k + 1 <= j {
        assert q[1..][j - 1] == other;
      }
      k := k + 1;
    }
  }

  /** The two run theorems, for the scheduler the lab actually uses. */
  lemma LabRunIsSound(opportunities: seq<Opportunity>, v: Variant, queueLimit: nat, registry: Registry, res: Resources)
    ensures Legal(SchedulerPolicy(registry, res))
    ensures var end := Simulate(Initial(opportunities), v, queueLimit, SchedulerPolicy(registry, res), 0);
            end.Success? ==>
              && multiset(end.value.served) <= multiset(opportunities)
              && ServiceLog(end.value.served, end.value.log, v)
              && (Ample(registry, res) && Complete(opportunities, v) ==> multiset(end.value.served) == multiset(opportunities))
  {
    SchedulerIsLegal(registry, res);
    RunServesExactly(opportunities, v, queueLimit, SchedulerPolicy(registry, res));
    if Ample(registry, res) && Complete(opportunities, v) {
      SchedulerConservesWork(registry, res);
      SameMakespan(opportunities, v, queueLimit, SchedulerPolicy(registry, res));
    }
  }
}
