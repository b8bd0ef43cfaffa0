/**
 The orchestrated mode of the benchmark lab: a discrete-event loop that hands released opportunities to a
 scheduler and splits the running service at every arrival. The scheduler is an arbitrary policy; module
 `Scheduler` shows that the repository's own one is such a policy.
 */
module Orchestrated {
  import opened Basics
  import opened Sorting
  import opened BenchmarkRecords
  import FixedRate

  /** The job a dispatch call selected, if any, and the jobs it left queued; all others were rejected for good. */
  datatype Dispatch = Dispatch(selected: Option<Opportunity>, kept: seq<Opportunity>)

  /** A scheduler's answer to its n-th dispatch call, given its queue and the clock. */
  type Policy = (nat, seq<Opportunity>, int) -> Dispatch

  ghost function Bag(o: Option<Opportunity>): multiset<Opportunity> {
    if o.Some? then multiset{o.value} else multiset{}
  }

  /** A policy dispatches only submitted jobs that it has not dispatched or rejected before. */
  ghost predicate Legal(policy: Policy) {
    forall n, q, t ::
      var d := policy(n, q, t);
      multiset(d.kept) + Bag(d.selected) <= multiset(q)
  }

  /** A policy that rejects nothing and always finds work when there is some. */
  ghost predicate WorkConserving(policy: Policy) {
    forall n, q, t ::
      var d := policy(n, q, t);
      && multiset(d.kept) + Bag(d.selected) == multiset(q)
      && (q != [] ==> d.selected.Some?)
  }

  /** The opportunity in service, when it was dispatched, and how much service it still needs. */
  datatype Running = Running(item: Opportunity, start: int, remaining: int)

  // ---- What a run must satisfy ----

  /** `r` reports `item` as served for exactly its declared service time, not before its release. */
  ghost predicate ServedAs(item: Opportunity, r: Record, v: Variant) {
    && v in item.service
    && r.Done? && r.key == item.key && r.workload == item.workload
    && r.release == item.scheduled && r.capture == item.captured
    && item.scheduled <= r.start
    && r.completion == r.start + item.service[v]
    && r.serviceMs == item.service[v]
    && r.queueLatency == r.start - item.scheduled
    && r.endToEnd == r.start + item.service[v] - item.captured
    && (r.deadlineMissed <==> r.start + item.service[v] > item.scheduled + item.deadline)
  }

  ghost predicate ServiceLog(served: seq<Opportunity>, log: seq<Record>, v: Variant) {
    && |served| == |log|
    && (forall i :: 0 <= i < |log| ==> ServedAs(served[i], log[i], v))
    && Sequential(log)
  }

  predicate KeyIn(key: string, log: seq<Record>) {
    exists i :: 0 <= i < |log| && log[i].key == key
  }

  /** The skipped rows: one for every opportunity whose key no processed record carries. */
  function SkippedRecords(opportunities: seq<Opportunity>, log: seq<Record>): seq<Record> {
    if opportunities == [] then []
    else
      var front := SkippedRecords(opportunities[..|opportunities| - 1], log);
      var last := opportunities[|opportunities| - 1];
      if KeyIn(last.key, log) then front else front + [SkippedRecord(last)]
  }

  predicate StringLe(a: string, b: string) {
    a == [] || (b != [] && (a[0] < b[0] || (a[0] == b[0] && StringLe(a[1..], b[1..]))))
  }

  predicate RecordLe(a: Record, b: Record) {
    if a.Done? != b.Done? then a.Done?
    else if a.Done? && a.start != b.start then a.start < b.start
    else StringLe(a.key, b.key)
  }

  // ---- The simulation, step by step ----

  /**
   The clock, the opportunities not yet released, the scheduler's queue, the service in progress, and the services
   completed so far with the rows recorded for them.
   */
  datatype Sim = Sim(now: int, arrivals: seq<Opportunity>, queue: seq<Opportunity>, active: Option<Running>,
                     served: seq<Opportunity>, log: seq<Record>)

  function Initial(opportunities: seq<Opportunity>): Sim {
    Sim(0, Sort(opportunities, FixedRate.ByRelease), [], None, [], [])
  }

  /** How many of the next arrivals have reached their release. */
  function DueCount(arrivals: seq<Opportunity>, now: int): (n: nat)
    ensures n <= |arrivals|
    ensures forall i :: 0 <= i < n ==> arrivals[i].scheduled <= now
    ensures n < |arrivals| ==> now < arrivals[n].scheduled
  {
    if arrivals == [] || arrivals[0].scheduled > now then 0 else 1 + DueCount(arrivals[1..], now)
  }

  function Submit(s: Sim, n: nat): Sim
    requires n <= |s.arrivals|
  {
    s.(arrivals := s.arrivals[n..], queue := s.queue + s.arrivals[..n])
  }

  /** `submit_due` against a bounded queue. */
  function SubmitDue(s: Sim, queueLimit: nat): Result<Sim> {
    var n := DueCount(s.arrivals, s.now);
    if n > 0 && |s.queue| + n > queueLimit then Failure(QueueFull) else Success(Submit(s, n))
  }

  /** The first `n` arrivals, and no further one, have reached their release. */
  ghost predicate ExactlyDue(arrivals: seq<Opportunity>, now: int, n: nat)
    requires n <= |arrivals|
  {
    (forall i :: 0 <= i < n ==> arrivals[i].scheduled <= now) && (n < |arrivals| ==> now < arrivals[n].scheduled)
  }

  lemma {:induction false} DueCountIs(arrivals: seq<Opportunity>, now: int, n: nat)
    requires n <= |arrivals| && ExactlyDue(arrivals, now, n)
    ensures DueCount(arrivals, now) == n
  {
    if n > 0 {
      DueCountIs(arrivals[1..], now, n - 1);
    }
  }

  /** Exactly the due arrivals join the queue, and the release fails exactly when they do not fit. */
  lemma SubmitMeans(s: Sim, queueLimit: nat, n: nat)
    requires n <= |s.arrivals| && ExactlyDue(s.arrivals, s.now, n)
    ensures var r := SubmitDue(s, queueLimit);
            if n > 0 && |s.queue| + n > queueLimit then r == Failure(QueueFull)
            else r == Success(s.(arrivals := s.arrivals[n..], queue := s.queue + s.arrivals[..n]))
  {
    DueCountIs(s.arrivals, s.now, n);
  }

  /** An idle server sleeps until the next release. */
  function Wake(s: Sim): Sim {
    if s.active.None? && s.queue == [] && s.arrivals != [] && s.arrivals[0].scheduled > s.now
    then s.(now := s.arrivals[0].scheduled)
    else s
  }

  function Begin(s: Sim, v: Variant, d: Dispatch): Sim
    requires d.selected.Some? && v in d.selected.value.service
  {
    s.(queue := d.kept, active := Some(Running(d.selected.value, s.now, d.selected.value.service[v])))
  }

  /** The service in progress goes on until `t`. */
  function Until(s: Sim, t: int): Sim
    requires s.active.Some?
  {
    s.(now := t, active := Some(s.active.value.(remaining := s.active.value.remaining - (t - s.now))))
  }

  function Finish(s: Sim): Sim
    requires s.active.Some?
  {
    var a := s.active.value;
    var end := s.now + a.remaining;
    s.(now := end, active := None, served := s.served + [a.item],
       log := s.log + [ProcessedRecord(a.item, a.item.scheduled, a.start, end)])
  }

  /** Runs the service in progress up to the next release or to its completion, whichever comes first. */
  function Serve(s: Sim, queueLimit: nat): Result<Sim>
    requires s.active.Some?
  {
    if s.arrivals != [] && s.arrivals[0].scheduled < s.now + s.active.value.remaining then
      SubmitDue(Until(s, s.arrivals[0].scheduled), queueLimit)
    else if s.active.value.remaining < 0 then Failure(ClockBackwards)
    else Success(Finish(s))
  }

  /** How one iteration of the event loop ended: carry on, give up on the queued jobs, or raise. */
  datatype Outcome = Next(sim: Sim) | Stuck(sim: Sim) | Raised(error: RunError)

  function Continue(r: Result<Sim>): Outcome {
    if r.Success? then Next(r.value) else Raised(r.error)
  }

  /** One iteration after the due releases have been submitted, with `d` the policy's reply when the server is free. */
  function Proceed(s: Sim, v: Variant, queueLimit: nat, d: Dispatch): Outcome {
    if s.active.Some? then Continue(Serve(s, queueLimit))
    else if d.selected.None? then
      var s' := s.(queue := d.kept);
      if d.kept != [] then Stuck(s') else Next(s')
    else if v !in d.selected.value.service then Raised(MissingServiceTime)
    else Continue(Serve(Begin(s, v, d), queueLimit))
  }

  function Iterate(s: Sim, v: Variant, queueLimit: nat, policy: Policy, call: nat): Outcome {
    var released := SubmitDue(Wake(s), queueLimit);
    if released.Failure? then Raised(released.error)
    else
      var t := released.value;
      Proceed(t, v, queueLimit, policy(call, t.queue, t.now))
  }

  predicate Busy(s: Sim) {
    s.arrivals != [] || s.queue != [] || s.active.Some?
  }

  function Unfinished(s: Sim): nat {
    |s.queue| + (if s.active.Some? then 1 else 0)
  }

  lemma DispatchShrinks(queue: seq<Opportunity>, d: Dispatch)
    requires multiset(d.kept) + Bag(d.selected) <= multiset(queue)
    ensures |d.kept| <= |queue|
    ensures d.selected.Some? ==> |d.kept| < |queue|
  {
    var part := multiset(d.kept) + Bag(d.selected);
    assert multiset(queue) == part + (multiset(queue) - part);
    assert |multiset(queue)| == |part| + |multiset(queue) - part|;
  }

  ghost predicate Less(s': Sim, s: Sim) {
    |s'.arrivals| < |s.arrivals| || (|s'.arrivals| == |s.arrivals| && Unfinished(s') < Unfinished(s))
  }

  lemma SubmitProgress(s: Sim, queueLimit: nat)
    ensures var r := SubmitDue(s, queueLimit);
            r.Success? ==>
              && r.value.active == s.active
              && (if s.arrivals != [] && s.arrivals[0].scheduled <= s.now then |r.value.arrivals| < |s.arrivals| else r.value == s)
  {
    var n := DueCount(s.arrivals, s.now);
    if n == 0 {
      assert s.arrivals[0..] == s.arrivals && s.queue + s.arrivals[..0] == s.queue;
    }
  }

  lemma ServeProgress(s: Sim, queueLimit: nat)
    requires s.active.Some?
    ensures var r := Serve(s, queueLimit); r.Success? ==> Less(r.value, s)
  {
    if s.arrivals != [] && s.arrivals[0].scheduled < s.now + s.active.value.remaining {
      SubmitProgress(Until(s, s.arrivals[0].scheduled), queueLimit);
    }
  }

  lemma ProceedProgress(s: Sim, v: Variant, queueLimit: nat, d: Dispatch)
    requires multiset(d.kept) + Bag(d.selected) <= multiset(s.queue)
    requires s.queue != [] || s.active.Some?
    ensures var o := Proceed(s, v, queueLimit, d); o.Next? ==> Less(o.sim, s)
  {
    if s.active.Some? {
      ServeProgress(s, queueLimit);
    } else {
      DispatchShrinks(s.queue, d);
      if d.selected.Some? && v in d.selected.value.service {
        ServeProgress(Begin(s, v, d), queueLimit);
      }
    }
  }

  /** Every iteration releases an arrival or disposes of a job, whatever a legal policy replies. */
  lemma IterateProgress(s: Sim, v: Variant, queueLimit: nat, policy: Policy, call: nat)
    requires Legal(policy) && Busy(s)
    ensures var o := Iterate(s, v, queueLimit, policy, call); o.Next? ==> Less(o.sim, s)
  {
    var w := Wake(s);
    SubmitProgress(w, queueLimit);
    var released := SubmitDue(w, queueLimit);
    if released.Success? {
      var t := released.value;
      var d := policy(call, t.queue, t.now);
      ProceedProgress(t, v, queueLimit, d);
    }
  }

  /** The whole event loop. It terminates for every legal policy. */
  function Simulate(s: Sim, v: Variant, queueLimit: nat, policy: Policy, call: nat): Result<Sim>
    requires Legal(policy)
    decreases |s.arrivals|, Unfinished(s)
  {
    if !Busy(s) then Success(s)
    else
      IterateProgress(s, v, queueLimit, policy, call);
      match Iterate(s, v, queueLimit, policy, call)
      case Next(s') => Simulate(s', v, queueLimit, policy, call + 1)
      case Stuck(s') => Success(s')
      case Raised(e) => Failure(e)
  }

  lemma ServeFits(s: Sim, queueLimit: nat)
    requires s.active.Some? && |s.arrivals| + |s.queue| <= queueLimit
    ensures var r := Serve(s, queueLimit);
            && r != Failure(QueueFull)
            && (r.Success? ==> |r.value.arrivals| + |r.value.queue| <= queueLimit)
  {
  }

  lemma IterateFits(s: Sim, v: Variant, queueLimit: nat, policy: Policy, call: nat)
    requires Legal(policy) && |s.arrivals| + |s.queue| <= queueLimit
    ensures var o := Iterate(s, v, queueLimit, policy, call);
            && o != Raised(QueueFull)
            && (o.Next? ==> |o.sim.arrivals| + |o.sim.queue| <= queueLimit)
  {
    var released := SubmitDue(Wake(s), queueLimit);
    assert released.Success?;
    var t := released.value;
    var d := policy(call, t.queue, t.now);
    DispatchShrinks(t.queue, d);
    if t.active.Some? {
      ServeFits(t, queueLimit);
    } else if d.selected.Some? && v in d.selected.value.service {
      ServeFits(Begin(t, v, d), queueLimit);
    }
  }

  /** A queue with room for every opportunity never overflows. */
  lemma {:induction false} RoomForAll(s: Sim, v: Variant, queueLimit: nat, policy: Policy, call: nat)
    requires Legal(policy) && |s.arrivals| + |s.queue| <= queueLimit
    ensures Simulate(s, v, queueLimit, policy, call) != Failure(QueueFull)
    decreases |s.arrivals|, Unfinished(s)
  {
    if Busy(s) {
      IterateProgress(s, v, queueLimit, policy, call);
      IterateFits(s, v, queueLimit, policy, call);
      var o := Iterate(s, v, queueLimit, policy, call);
      if o.Next? {
        RoomForAll(o.sim, v, queueLimit, policy, call + 1);
      }
    }
  }

  // ---- The code ----

  /** No earlier opportunity belongs to the same workload. */
  ghost predicate FirstOfWorkload(opportunities: seq<Opportunity>, i: nat)
    requires i < |opportunities|
  {
    forall j :: 0 <= j < i ==> opportunities[j].workload != opportunities[i].workload
  }

  /** Every workload's first opportunity yields a valid specification, whose estimated cost is positive. */
  ghost predicate Registrable(opportunities: seq<Opportunity>, v: Variant) {
    forall i :: 0 <= i < |opportunities| && FirstOfWorkload(opportunities, i) ==>
                  v in opportunities[i].service && opportunities[i].service[v] > 0
  }

  /** Registration; the error is that of the first workload without a valid specification. */
  method RegisterWorkloads(opportunities: seq<Opportunity>, v: Variant) returns (r: Result<set<string>>)
    ensures r.Success? <==> Registrable(opportunities, v)
    ensures r.Success? ==> forall x :: x in r.value <==> exists i :: 0 <= i < |opportunities| && opportunities[i].workload == x
    ensures r.Success? ==>
              forall i :: 0 <= i < |opportunities| ==>
                            (v in opportunities[i].service && opportunities[i].service[v] > 0)
                            || exists j :: 0 <= j < i && opportunities[j].workload == opportunities[i].workload
    ensures r.Failure? ==>
              exists i :: 0 <= i < |opportunities| && Registrable(opportunities[..i], v)
                          && (forall j :: 0 <= j < i ==> opportunities[j].workload != opportunities[i].workload)
                          && if v in opportunities[i].service then opportunities[i].service[v] <= 0 && r.error == InvalidWorkload
                             else r.error == MissingServiceTime
  {
    var specs: set<string> := {};
    for i := 0 to |opportunities|
      invariant forall x :: x in specs <==> exists j :: 0 <= j < i && opportunities[j].workload == x
      invariant Registrable(opportunities[..i], v)
    {
      var item := opportunities[i];
      if item.workload !in specs {
        if v !in item.service {
          Unregistrable(opportunities, v, i);
          return Failure(MissingServiceTime);
        }
        if item.service[v] <= 0 {
          Unregistrable(opportunities, v, i);
          return Failure(InvalidWorkload);
        }
        specs := specs + {item.workload};
      }
      OneMoreRegistrable(opportunities, v, i);
    }
    assert opportunities[..|opportunities|] == opportunities;
    r := Success(specs);
  }

  lemma OneMoreRegistrable(opportunities: seq<Opportunity>, v: Variant, i: nat)
    requires i < |opportunities| && Registrable(opportunities[..i], v)
    requires FirstOfWorkload(opportunities, i) ==> v in opportunities[i].service && opportunities[i].service[v] > 0
    ensures Registrable(opportunities[..i + 1], v)
  {
    var front, more := opportunities[..i], opportunities[..i + 1];
    forall j | 0 <= j <= i && FirstOfWorkload(more, j) ensures v in more[j].service && more[j].service[v] > 0 {
      if j < i {
        assert forall k :: 0 <= k < j ==> front[k] == more[k];
        assert FirstOfWorkload(front, j);
      } else {
        assert forall k :: 0 <= k < i ==> more[k] == opportunities[k];
        assert FirstOfWorkload(opportunities, i);
      }
    }
  }

  lemma Unregistrable(opportunities: seq<Opportunity>, v: Variant, i: nat)
    requires i < |opportunities| && FirstOfWorkload(opportunities, i)
    requires v in opportunities[i].service ==> opportunities[i].service[v] <= 0
    ensures !Registrable(opportunities, v)
  {
  }

  /** Submitting one more due arrival. */
  lemma SubmitNext(s: Sim, n: nat)
    requires n < |s.arrivals|
    ensures var t := Submit(s, n);
            Submit(s, n + 1) == t.(arrivals := t.arrivals[1..], queue := t.queue + [t.arrivals[0]])
  {
    assert s.arrivals[..n + 1] == s.arrivals[..n] + [s.arrivals[n]];
    assert s.queue + (s.arrivals[..n] + [s.arrivals[n]]) == s.queue + s.arrivals[..n] + [s.arrivals[n]];
  }

  /** `submit_due`'s loop. */
  method SubmitLoop(s: Sim, queueLimit: nat) returns (r: Result<Sim>)
    ensures r == SubmitDue(s, queueLimit)
  {
    var t := s;
    ghost var n := 0;
    ghost var total := DueCount(s.arrivals, s.now);
    while t.arrivals != [] && t.arrivals[0].scheduled <= t.now
      invariant n <= |s.arrivals|
      invariant t == Submit(s, n)
      invariant n + DueCount(t.arrivals, t.now) == total
      invariant n > 0 ==> |t.queue| <= queueLimit
      decreases |t.arrivals|
    {
      if |t.queue| >= queueLimit {
        return Failure(QueueFull);
      }
      SubmitNext(s, n);
      t := t.(arrivals := t.arrivals[1..], queue := t.queue + [t.arrivals[0]]);
      n := n + 1;
    }
    r := Success(t);
  }

  /** The part of the loop body that splits a service at the next arrival or completes it. */
  method ServeStep(s: Sim, queueLimit: nat) returns (r: Result<Sim>)
    requires s.active.Some?
    ensures r == Serve(s, queueLimit)
  {
    if s.arrivals != [] && s.arrivals[0].scheduled < s.now + s.active.value.remaining {
      var delta := s.arrivals[0].scheduled - s.now;
      var active := s.active.value.(remaining := s.active.value.remaining - delta);
      r := SubmitLoop(s.(now := s.now + delta, active := Some(active)), queueLimit);
    } else if s.active.value.remaining < 0 {
      r := Failure(ClockBackwards);
    } else {
      r := Success(Finish(s));
    }
  }

  /** The part of the loop body that follows the submission of due releases. */
  method ProceedStep(s: Sim, v: Variant, queueLimit: nat, d: Dispatch) returns (o: Outcome)
    ensures o == Proceed(s, v, queueLimit, d)
  {
    var t := s;
    if t.active.None? {
      if d.selected.None? {
        return if d.kept != [] then Stuck(t.(queue := d.kept)) else Next(t.(queue := d.kept));
      }
      if v !in d.selected.value.service {
        return Raised(MissingServiceTime);
      }
      t := Begin(t, v, d);
    }
    var r := ServeStep(t, queueLimit);
    o := if r.Success? then Next(r.value) else Raised(r.error);
  }

  /** `_run_orchestrated`: registration, the event loop, then a skipped row for every key that was not processed. */
  method RunOrchestrated(opportunities: seq<Opportunity>, v: Variant, queueLimit: nat, policy: Policy)
    returns (r: Result<seq<Record>>, ghost end: Result<Sim>)
    requires Legal(policy)
    ensures end == Simulate(Initial(opportunities), v, queueLimit, policy, 0)
    ensures !Registrable(opportunities, v) ==> r.Failure? && (r.error == MissingServiceTime || r.error == InvalidWorkload)
    ensures Registrable(opportunities, v) ==>
              r == if end.Success? then Success(Report(opportunities, end.value.log)) else Failure(end.error)
    ensures r.Success? ==> Accounts(opportunities, v, r.value)
    ensures |opportunities| <= queueLimit ==> r != Failure(QueueFull)
  {
    if |opportunities| <= queueLimit {
      RoomForAll(Initial(opportunities), v, queueLimit, policy, 0);
    }
    end := Simulate(Initial(opportunities), v, queueLimit, policy, 0);
    var registered := RegisterWorkloads(opportunities, v);
    if registered.Failure? {
      return Failure(registered.error), end;
    }
    var s := Initial(opportunities);
    var calls := 0;
    while Busy(s)
      invariant end == Simulate(s, v, queueLimit, policy, calls)
      decreases |s.arrivals|, Unfinished(s)
    {
      IterateProgress(s, v, queueLimit, policy, calls);
      var released := SubmitLoop(Wake(s), queueLimit);
      if released.Failure? {
        return Failure(released.error), end;
      }
      var t := released.value;
      var o := ProceedStep(t, v, queueLimit, policy(calls, t.queue, t.now));
      if o.Raised? {
        return Failure(o.error), end;
      }
      calls := calls + 1;
      s := o.sim;
      if o.Stuck? {
        break;
      }
    }
    var rows := ReportLoop(opportunities, s.log);
    ReportMeans(opportunities, v, queueLimit, policy);
    r := Success(rows);
  }

  /** The skipped rows, then the report in order. */
  method ReportLoop(opportunities: seq<Opportunity>, log: seq<Record>) returns (rows: seq<Record>)
    ensures rows == Report(opportunities, log)
  {
    var skipped := [];
    for i := 0 to |opportunities|
      invariant skipped == SkippedRecords(opportunities[..i], log)
    {
      assert opportunities[..i + 1][..i] == opportunities[..i];
      if !KeyIn(opportunities[i].key, log) {
        skipped := skipped + [SkippedRecord(opportunities[i])];
      }
    }
    assert opportunities[..|opportunities|] == opportunities;
    rows := Sort(log + skipped, RecordLe);
  }

  function Report(opportunities: seq<Opportunity>, log: seq<Record>): seq<Record> {
    Sort(log + SkippedRecords(opportunities, log), RecordLe)
  }

  // ---- Invariant of the event loop ----

  ghost function InService(active: Option<Running>): multiset<Opportunity> {
    if active.Some? then multiset{active.value.item} else multiset{}
  }

  /** What is still to arrive, queued, in service or served. */
  ghost function Held(s: Sim): multiset<Opportunity> {
    multiset(s.arrivals) + multiset(s.queue) + InService(s.active) + multiset(s.served)
  }

  /** Arrivals come in release order, none is overdue, and nothing was submitted early. */
  ghost predicate OnSchedule(s: Sim) {
    && SortedBy(s.arrivals, FixedRate.ByRelease)
    && (forall i :: 0 <= i < |s.arrivals| ==> s.now <= s.arrivals[i].scheduled)
    && (forall i :: 0 <= i < |s.queue| ==> s.queue[i].scheduled <= s.now)
  }

  /** The service in progress has received exactly the time since its start. */
  ghost predicate InProgress(s: Sim, v: Variant) {
    s.active.Some? ==>
      var a := s.active.value;
      && v in a.item.service
      && a.item.scheduled <= a.start <= s.now
      && a.start + a.item.service[v] == s.now + a.remaining
  }

  ghost predicate LogBefore(log: seq<Record>, t: int) {
    forall i :: 0 <= i < |log| ==> log[i].Done? && log[i].completion <= t
  }

  ghost predicate Inv(opportunities: seq<Opportunity>, v: Variant, s: Sim) {
    && Held(s) <= multiset(opportunities)
    && OnSchedule(s)
    && InProgress(s, v)
    && ServiceLog(s.served, s.log, v)
    && LogBefore(s.log, if s.active.Some? then s.active.value.start else s.now)
  }

  lemma InvInitial(opportunities: seq<Opportunity>, v: Variant)
    ensures Inv(opportunities, v, Initial(opportunities))
  {
    var s := Initial(opportunities);
    SortSorted(opportunities, FixedRate.ByRelease);
    assert Held(s) == multiset(s.arrivals);
  }

  lemma NextArrivalFirst(s: Sim)
    requires OnSchedule(s) && s.arrivals != []
    ensures forall i :: 0 <= i < |s.arrivals| ==> s.arrivals[0].scheduled <= s.arrivals[i].scheduled
  {
    forall i | 0 < i < |s.arrivals| ensures s.arrivals[0].scheduled <= s.arrivals[i].scheduled {
      assert FixedRate.ByRelease(s.arrivals[0], s.arrivals[i]);
    }
  }

  lemma WakeOnSchedule(s: Sim)
    requires OnSchedule(s)
    ensures OnSchedule(Wake(s))
  {
    if s.arrivals != [] {
      NextArrivalFirst(s);
    }
  }

  lemma InvWake(opportunities: seq<Opportunity>, v: Variant, s: Sim)
    requires Inv(opportunities, v, s)
    ensures Inv(opportunities, v, Wake(s))
  {
    WakeOnSchedule(s);
  }

  /** Every submission happens exactly at the scheduled release. */
  lemma SubmitOnTime(s: Sim, i: nat)
    requires OnSchedule(s) && i < DueCount(s.arrivals, s.now)
    ensures s.arrivals[i].scheduled == s.now
  {
  }

  lemma InvSubmit(opportunities: seq<Opportunity>, v: Variant, s: Sim, n: nat)
    requires Inv(opportunities, v, s) && n <= DueCount(s.arrivals, s.now)
    ensures Inv(opportunities, v, Submit(s, n))
  {
    SubmitHeld(s, n);
    SubmitOnSchedule(s, n);
  }

  lemma {:induction false} SubmitOnSchedule(s: Sim, n: nat)
    requires OnSchedule(s) && n <= DueCount(s.arrivals, s.now)
    ensures OnSchedule(Submit(s, n))
  {
    var t := Submit(s, n);
    forall i | 0 <= i < |t.queue| ensures t.queue[i].scheduled <= s.now {
      if i >= |s.queue| {
        assert t.queue[i] == s.arrivals[i - |s.queue|];
      }
    }
    assert forall i :: 0 <= i < |t.arrivals| ==> t.arrivals[i] == s.arrivals[i + n];
  }

  lemma KeepOnSchedule(s: Sim, d: Dispatch)
    requires OnSchedule(s) && multiset(d.kept) + Bag(d.selected) <= multiset(s.queue)
    ensures forall i :: 0 <= i < |d.kept| ==> d.kept[i].scheduled <= s.now
    ensures d.selected.Some? ==> d.selected.value.scheduled <= s.now
  {
    forall x | x in d.kept || d.selected == Some(x) ensures x in s.queue {
      assert x in multiset(d.kept) + Bag(d.selected);
      assert x in multiset(s.queue);
    }
    assert forall i :: 0 <= i < |d.kept| ==> d.kept[i] in s.queue;
  }

  lemma KeepHeld(s: Sim, d: Dispatch, opportunities: seq<Opportunity>, v: Variant)
    requires Held(s) <= multiset(opportunities) && s.active.None?
    requires multiset(d.kept) + Bag(d.selected) <= multiset(s.queue)
    ensures Held(s.(queue := d.kept)) <= multiset(opportunities)
    ensures d.selected.Some? && v in d.selected.value.service ==> Held(Begin(s, v, d)) <= multiset(opportunities)
  {
  }

  lemma InvKeep(opportunities: seq<Opportunity>, v: Variant, s: Sim, d: Dispatch)
    requires Inv(opportunities, v, s) && s.active.None?
    requires multiset(d.kept) + Bag(d.selected) <= multiset(s.queue)
    ensures d.selected.None? ==> Inv(opportunities, v, s.(queue := d.kept))
    ensures d.selected.Some? && v in d.selected.value.service ==> Inv(opportunities, v, Begin(s, v, d))
  {
    KeepOnSchedule(s, d);
    KeepHeld(s, d, opportunities, v);
  }

  lemma UntilOnSchedule(s: Sim)
    requires OnSchedule(s) && s.active.Some? && s.arrivals != []
    ensures OnSchedule(Until(s, s.arrivals[0].scheduled))
  {
    NextArrivalFirst(s);
  }

  lemma InvUntil(opportunities: seq<Opportunity>, v: Variant, s: Sim)
    requires Inv(opportunities, v, s) && s.active.Some? && s.arrivals != []
    ensures Inv(opportunities, v, Until(s, s.arrivals[0].scheduled))
  {
    UntilOnSchedule(s);
  }

  lemma LogExtended(served: seq<Opportunity>, log: seq<Record>, item: Opportunity, r: Record, v: Variant)
    requires ServiceLog(served, log, v) && ServedAs(item, r, v) && r.start <= r.completion
    requires LogBefore(log, r.start)
    ensures ServiceLog(served + [item], log + [r], v)
    ensures LogBefore(log + [r], r.completion)
  {
    var log' := log + [r];
    forall i | 0 <= i < |log'| ensures ServedAs((served + [item])[i], log'[i], v) {
      if i < |log| {
        assert ServedAs(served[i], log[i], v);
      }
    }
    forall i, j | 0 <= i < j < |log'| ensures log'[i].completion <= log'[j].start {
      if j < |log| {
        assert log[i].completion <= log[j].start;
      }
    }
  }

  lemma InvFinish(opportunities: seq<Opportunity>, v: Variant, s: Sim)
    requires Inv(opportunities, v, s) && s.active.Some? && 0 <= s.active.value.remaining
    requires s.arrivals != [] ==> s.now + s.active.value.remaining <= s.arrivals[0].scheduled
    ensures Inv(opportunities, v, Finish(s))
  {
    FinishHeld(s);
    FinishOnSchedule(s);
    FinishLog(s, v);
  }

  lemma FinishHeld(s: Sim)
    requires s.active.Some?
    ensures Held(Finish(s)) == Held(s)
  {
  }

  lemma FinishOnSchedule(s: Sim)
    requires OnSchedule(s) && s.active.Some? && 0 <= s.active.value.remaining
    requires s.arrivals != [] ==> s.now + s.active.value.remaining <= s.arrivals[0].scheduled
    ensures OnSchedule(Finish(s))
  {
    if s.arrivals != [] {
      NextArrivalFirst(s);
    }
  }

  lemma FinishLog(s: Sim, v: Variant)
    requires s.active.Some? && InProgress(s, v) && 0 <= s.active.value.remaining
    requires ServiceLog(s.served, s.log, v) && LogBefore(s.log, s.active.value.start)
    ensures ServiceLog(Finish(s).served, Finish(s).log, v) && LogBefore(Finish(s).log, Finish(s).now)
  {
    var a := s.active.value;
    var r := ProcessedRecord(a.item, a.item.scheduled, a.start, s.now + a.remaining);
    assert ServedAs(a.item, r, v) && r.start == a.start && r.completion == Finish(s).now;
    LogExtended(s.served, s.log, a.item, r, v);
    assert Finish(s).log == s.log + [r] && Finish(s).served == s.served + [a.item];
  }

  // ---- Induction over the event loop ----

  /** `p` survives every elementary transition of the event loop. */
  ghost predicate Inductive(p: Sim -> bool, v: Variant, policy: Policy) {
    && (forall s {:trigger Wake(s)} :: p(s) ==> p(Wake(s)))
    && (forall s {:trigger DueCount(s.arrivals, s.now)} :: p(s) ==> p(Submit(s, DueCount(s.arrivals, s.now))))
    && (forall s, n {:trigger Accepts(p, s, v, policy(n, s.queue, s.now))} ::
          p(s) && s.active.None? ==> Accepts(p, s, v, policy(n, s.queue, s.now)))
    && (forall s {:trigger MustSplit(s)} :: p(s) && MustSplit(s) ==> p(Until(s, s.arrivals[0].scheduled)))
    && (forall s {:trigger MayFinish(s)} :: p(s) && MayFinish(s) ==> p(Finish(s)))
  }

  ghost predicate Accepts(p: Sim -> bool, s: Sim, v: Variant, d: Dispatch) {
    && (d.selected.None? ==> p(s.(queue := d.kept)))
    && (d.selected.Some? && v in d.selected.value.service ==> p(Begin(s, v, d)))
  }

  predicate MustSplit(s: Sim) {
    s.active.Some? && s.arrivals != [] && s.arrivals[0].scheduled < s.now + s.active.value.remaining
  }

  predicate MayFinish(s: Sim) {
    s.active.Some? && !MustSplit(s) && 0 <= s.active.value.remaining
  }

  lemma InductiveServe(p: Sim -> bool, s: Sim, v: Variant, queueLimit: nat, policy: Policy)
    requires Inductive(p, v, policy) && p(s) && s.active.Some?
    ensures var r := Serve(s, queueLimit); r.Success? ==> p(r.value)
  {
    if MustSplit(s) {
      var t := Until(s, s.arrivals[0].scheduled);
      assert p(t);
      assert p(Submit(t, DueCount(t.arrivals, t.now)));
    } else if MayFinish(s) {
      assert p(Finish(s));
    }
  }

  lemma InductiveIterate(p: Sim -> bool, s: Sim, v: Variant, queueLimit: nat, policy: Policy, call: nat)
    requires Inductive(p, v, policy) && p(s)
    ensures var o := Iterate(s, v, queueLimit, policy, call); !o.Raised? ==> p(o.sim)
  {
    var w := Wake(s);
    assert p(w);
    var t := Submit(w, DueCount(w.arrivals, w.now));
    assert p(t);
    if t.active.Some? {
      InductiveServe(p, t, v, queueLimit, policy);
    } else {
      var d := policy(call, t.queue, t.now);
      assert Accepts(p, t, v, d);
      if d.selected.Some? && v in d.selected.value.service {
        InductiveServe(p, Begin(t, v, d), v, queueLimit, policy);
      }
    }
  }

  /** What survives every transition holds when the loop ends. */
  lemma {:induction false} InductiveSimulate(p: Sim -> bool, s: Sim, v: Variant, queueLimit: nat, policy: Policy, call: nat)
    requires Legal(policy) && Inductive(p, v, policy) && p(s)
    ensures var r := Simulate(s, v, queueLimit, policy, call); r.Success? ==> p(r.value)
    decreases |s.arrivals|, Unfinished(s)
  {
    if Busy(s) {
      IterateProgress(s, v, queueLimit, policy, call);
      InductiveIterate(p, s, v, queueLimit, policy, call);
      var o := Iterate(s, v, queueLimit, policy, call);
      if o.Next? {
        InductiveSimulate(p, o.sim, v, queueLimit, policy, call + 1);
      }
    }
  }

  lemma InvReleases(opportunities: seq<Opportunity>, v: Variant, p: Sim -> bool)
    requires p == (s => Inv(opportunities, v, s))
    ensures forall s {:trigger Wake(s)} :: p(s) ==> p(Wake(s))
    ensures forall s {:trigger DueCount(s.arrivals, s.now)} :: p(s) ==> p(Submit(s, DueCount(s.arrivals, s.now)))
  {
    forall s | p(s) ensures p(Wake(s)) {
      InvWake(opportunities, v, s);
    }
    forall s | p(s) ensures p(Submit(s, DueCount(s.arrivals, s.now))) {
      InvSubmit(opportunities, v, s, DueCount(s.arrivals, s.now));
    }
  }

  lemma InvServes(opportunities: seq<Opportunity>, v: Variant, p: Sim -> bool)
    requires p == (s => Inv(opportunities, v, s))
    ensures forall s {:trigger MustSplit(s)} :: p(s) && MustSplit(s) ==> p(Until(s, s.arrivals[0].scheduled))
    ensures forall s {:trigger MayFinish(s)} :: p(s) && MayFinish(s) ==> p(Finish(s))
  {
    forall s | p(s) && MustSplit(s) ensures p(Until(s, s.arrivals[0].scheduled)) {
      InvUntil(opportunities, v, s);
    }
    forall s | p(s) && MayFinish(s) ensures p(Finish(s)) {
      InvFinish(opportunities, v, s);
    }
  }

  lemma InvInductive(opportunities: seq<Opportunity>, v: Variant, policy: Policy) returns (p: Sim -> bool)
    requires Legal(policy)
    ensures p == (s => Inv(opportunities, v, s)) && Inductive(p, v, policy)
  {
    p := s => Inv(opportunities, v, s);
    InvReleases(opportunities, v, p);
    InvServes(opportunities, v, p);
    forall s, n | p(s) && s.active.None? ensures Accepts(p, s, v, policy(n, s.queue, s.now)) {
      InvKeep(opportunities, v, s, policy(n, s.queue, s.now));
    }
  }

  // ---- What every run guarantees ----

  /**
   For every legal policy, a run that does not raise serves each job at most once, without interruption, for exactly its
   declared time and not before its release, and no two services overlap.
   */
  lemma RunServesExactly(opportunities: seq<Opportunity>, v: Variant, queueLimit: nat, policy: Policy)
    requires Legal(policy)
    ensures var end := Simulate(Initial(opportunities), v, queueLimit, policy, 0);
            end.Success? ==>
              && multiset(end.value.served) <= multiset(opportunities)
              && ServiceLog(end.value.served, end.value.log, v)
  {
    InvInitial(opportunities, v);
    var p := InvInductive(opportunities, v, policy);
    InductiveSimulate(p, Initial(opportunities), v, queueLimit, policy, 0);
  }

  function OfferKey(key: string): Opportunity -> int {
    (item: Opportunity) => if item.key == key then 1 else 0
  }

  function RowKey(key: string): Record -> int {
    (r: Record) => if r.key == key then 1 else 0
  }

  ghost predicate UniqueKeys(opportunities: seq<Opportunity>) {
    forall i, j :: 0 <= i < j < |opportunities| ==> opportunities[i].key != opportunities[j].key
  }

  lemma {:induction false} SkippedRows(opportunities: seq<Opportunity>, log: seq<Record>, key: string)
    ensures SumBy(SkippedRecords(opportunities, log), RowKey(key)) ==
            if KeyIn(key, log) then 0 else SumBy(opportunities, OfferKey(key))
  {
    if opportunities != [] {
      var front, last := opportunities[..|opportunities| - 1], opportunities[|opportunities| - 1];
      SkippedRows(front, log, key);
      SumAppend(SkippedRecords(front, log), SkippedRecord(last), RowKey(key));
    }
  }

  ghost predicate SameKeys(served: seq<Opportunity>, log: seq<Record>) {
    |served| == |log| && forall i :: 0 <= i < |log| ==> log[i].key == served[i].key
  }

  lemma {:induction false} ServedRows(served: seq<Opportunity>, log: seq<Record>, key: string)
    requires SameKeys(served, log)
    ensures SumBy(log, RowKey(key)) == SumBy(served, OfferKey(key))
    ensures SumBy(log, RowKey(key)) > 0 <==> KeyIn(key, log)
  {
    if log != [] {
      var n := |log| - 1;
      ServedRows(served[..n], log[..n], key);
      SumNonNegative(log[..n], RowKey(key));
      if KeyIn(key, log[..n]) {
        var i :| 0 <= i < n && log[..n][i].key == key;
        assert log[i].key == key;
      }
    }
  }

  lemma LogKeys(served: seq<Opportunity>, log: seq<Record>, v: Variant)
    requires ServiceLog(served, log, v)
    ensures SameKeys(served, log)
  {
    forall i | 0 <= i < |log| ensures log[i].key == served[i].key {
      assert ServedAs(served[i], log[i], v);
    }
  }

  lemma {:induction false} UniqueOffer(opportunities: seq<Opportunity>, i: nat)
    requires UniqueKeys(opportunities) && i < |opportunities|
    ensures SumBy(opportunities, OfferKey(opportunities[i].key)) == 1
  {
    var n := |opportunities| - 1;
    var key := opportunities[i].key;
    if i == n {
      NoOffer(opportunities[..n], key);
    } else {
      UniqueOffer(opportunities[..n], i);
    }
  }

  lemma {:induction false} NoOffer(opportunities: seq<Opportunity>, key: string)
    requires forall i :: 0 <= i < |opportunities| ==> opportunities[i].key != key
    ensures SumBy(opportunities, OfferKey(key)) == 0
  {
    if opportunities != [] {
      NoOffer(opportunities[..|opportunities| - 1], key);
    }
  }

  /** The rows reported under a key: its services, or as many skipped rows as it was offered when it had none. */
  lemma RowsPerKey(opportunities: seq<Opportunity>, v: Variant, queueLimit: nat, policy: Policy, key: string)
    requires Legal(policy)
    ensures var end := Simulate(Initial(opportunities), v, queueLimit, policy, 0);
            end.Success? ==>
              SumBy(Report(opportunities, end.value.log), RowKey(key)) ==
              var services := SumBy(end.value.served, OfferKey(key));
              if services > 0 then services else SumBy(opportunities, OfferKey(key))
  {
    var end := Simulate(Initial(opportunities), v, queueLimit, policy, 0);
    if end.Success? {
      RunServesExactly(opportunities, v, queueLimit, policy);
      ReportRows(opportunities, v, end.value.served, end.value.log, key);
    }
  }

  lemma {:induction false} ReportRows(opportunities: seq<Opportunity>, v: Variant, served: seq<Opportunity>, log: seq<Record>,
                                      key: string)
    requires ServiceLog(served, log, v)
    ensures SumBy(Report(opportunities, log), RowKey(key)) ==
            var services := SumBy(served, OfferKey(key));
            if services > 0 then services else SumBy(opportunities, OfferKey(key))
  {
    var skipped := SkippedRecords(opportunities, log);
    SumPermutation(Sort(log + skipped, RecordLe), log + skipped, RowKey(key));
    SumConcat(log, skipped, RowKey(key));
    SkippedRows(opportunities, log, key);
    LogKeys(served, log, v);
    ServedRows(served, log, key);
    SumNonNegative(log, RowKey(key));
  }

  /** With unique keys every opportunity gets exactly one row. */
  lemma OneRowPerOpportunity(opportunities: seq<Opportunity>, v: Variant, queueLimit: nat, policy: Policy, i: nat)
    requires Legal(policy) && UniqueKeys(opportunities) && i < |opportunities|
    ensures var end := Simulate(Initial(opportunities), v, queueLimit, policy, 0);
            end.Success? ==> SumBy(Report(opportunities, end.value.log), RowKey(opportunities[i].key)) == 1
  {
    var key := opportunities[i].key;
    var end := Simulate(Initial(opportunities), v, queueLimit, policy, 0);
    if end.Success? {
      RowsPerKey(opportunities, v, queueLimit, policy, key);
      RunServesExactly(opportunities, v, queueLimit, policy);
      SumSubBag(end.value.served, opportunities, OfferKey(key));
      UniqueOffer(opportunities, i);
    }
  }

  /** A row for an opportunity that was not served: it counts as missed. */
  ghost predicate SkippedAs(item: Opportunity, r: Record) {
    && r.Skipped? && r.key == item.key && r.workload == item.workload
    && r.release == item.scheduled && r.capture == item.captured && r.deadlineMissed
  }

  ghost predicate RowFor(opportunities: seq<Opportunity>, v: Variant, r: Record) {
    exists item :: item in opportunities && (ServedAs(item, r, v) || SkippedAs(item, r))
  }

  /** Processed rows come first and by their start; otherwise rows are listed by key. */
  ghost predicate ListedBefore(a: Record, b: Record) {
    if a.Done? then b.Skipped? || a.start < b.start || (a.start == b.start && StringLe(a.key, b.key))
    else b.Skipped? && StringLe(a.key, b.key)
  }

  /** Every row is about an opportunity, and the rows are in order. */
  ghost predicate Accounts(opportunities: seq<Opportunity>, v: Variant, rows: seq<Record>) {
    && (forall i :: 0 <= i < |rows| ==> RowFor(opportunities, v, rows[i]))
    && (forall i, j :: 0 <= i < j < |rows| ==> ListedBefore(rows[i], rows[j]))
  }

  /** `a` is a prefix of `b`, or the first character in which they differ is smaller. */
  lemma {:induction false} StringOrder(a: string, b: string)
    ensures StringLe(a, b) <==>
            a <= b || exists k :: 0 <= k < |a| && k < |b| && a[..k] == b[..k] && a[k] < b[k]
  {
    if a != [] && b != [] && a[0] == b[0] {
      StringOrder(a[1..], b[1..]);
      assert a == [a[0]] + a[1..] && b == [b[0]] + b[1..];
      if k :| 0 <= k < |a[1..]| && k < |b[1..]| && a[1..][..k] == b[1..][..k] && a[1..][k] < b[1..][k] {
        assert a[..k + 1] == [a[0]] + a[1..][..k] && b[..k + 1] == [b[0]] + b[1..][..k];
        assert a[k + 1] < b[k + 1];
      }
      if k :| 0 <= k < |a| && k < |b| && a[..k] == b[..k] && a[k] < b[k] {
        assert a[1..][..k - 1] == a[..k][1..] && b[1..][..k - 1] == b[..k][1..];
        assert a[1..][k - 1] < b[1..][k - 1];
      }
      assert a <= b <==> a[1..] <= b[1..];
    } else if a != [] && b != [] && a[0] < b[0] {
      assert a[..0] == b[..0];
    } else if a != [] && b != [] {
      forall k | 0 < k < |a| && k < |b| ensures a[..k] != b[..k] {
        assert a[..k][0] != b[..k][0];
      }
    }
  }

  lemma {:induction false} SkippedMeans(opportunities: seq<Opportunity>, log: seq<Record>, r: Record)
    returns (item: Opportunity)
    requires r in SkippedRecords(opportunities, log)
    ensures item in opportunities && SkippedAs(item, r)
    ensures forall i :: 0 <= i < |log| ==> log[i].key != item.key
  {
    var front, last := opportunities[..|opportunities| - 1], opportunities[|opportunities| - 1];
    if r in SkippedRecords(front, log) {
      item := SkippedMeans(front, log, r);
      assert item in front && forall x :: x in front ==> x in opportunities;
    } else {
      item := last;
    }
  }

  lemma StringTotal(a: string, b: string)
    ensures StringLe(a, b) || StringLe(b, a)
  {
  }

  lemma {:induction false} StringTransitive(a: string, b: string, c: string)
    requires StringLe(a, b) && StringLe(b, c)
    ensures StringLe(a, c)
  {
    if a != [] && a[0] == b[0] == c[0] {
      StringTransitive(a[1..], b[1..], c[1..]);
    }
  }

  lemma RecordOrder()
    ensures TotalPreorder(RecordLe)
  {
    forall a, b ensures RecordLe(a, b) || RecordLe(b, a) {
      StringTotal(a.key, b.key);
    }
    forall a, b, c | RecordLe(a, b) && RecordLe(b, c) ensures RecordLe(a, c) {
      if StringLe(a.key, b.key) && StringLe(b.key, c.key) {
        StringTransitive(a.key, b.key, c.key);
      }
    }
  }

  /**
   Every row of a run's report is about one of the opportunities: a served row is missed exactly when its start plus the
   declared service lies after the deadline, a skipped row always is. The rows are listed by start and key.
   */
  lemma {:induction false} ReportMeans(opportunities: seq<Opportunity>, v: Variant, queueLimit: nat, policy: Policy)
    requires Legal(policy)
    ensures var end := Simulate(Initial(opportunities), v, queueLimit, policy, 0);
            end.Success? ==> Accounts(opportunities, v, Report(opportunities, end.value.log))
  {
    var end := Simulate(Initial(opportunities), v, queueLimit, policy, 0);
    if end.Success? {
      RunServesExactly(opportunities, v, queueLimit, policy);
      RowsMean(opportunities, v, end.value.served, end.value.log);
    }
  }

  lemma {:induction false} RowsMean(opportunities: seq<Opportunity>, v: Variant, served: seq<Opportunity>, log: seq<Record>)
    requires multiset(served) <= multiset(opportunities) && ServiceLog(served, log, v)
    ensures Accounts(opportunities, v, Report(opportunities, log))
  {
    var all := log + SkippedRecords(opportunities, log);
    var rows := Report(opportunities, log);
    SortMembers(all, RecordLe);
    forall i | 0 <= i < |rows| ensures RowFor(opportunities, v, rows[i]) {
      assert rows[i] in all;
      RowMeans(opportunities, v, served, log, rows[i]);
    }
    RecordOrder();
    SortSorted(all, RecordLe);
    forall i, j | 0 <= i < j < |rows| ensures ListedBefore(rows[i], rows[j]) {
      assert RecordLe(rows[i], rows[j]);
    }
  }

  lemma RowMeans(opportunities: seq<Opportunity>, v: Variant, served: seq<Opportunity>, log: seq<Record>, r: Record)
    requires multiset(served) <= multiset(opportunities) && ServiceLog(served, log, v)
    requires r in log || r in SkippedRecords(opportunities, log)
    ensures RowFor(opportunities, v, r)
  {
    if r in log {
      var i :| 0 <= i < |log| && log[i] == r;
      assert ServedAs(served[i], r, v);
      assert served[i] in multiset(served);
      assert served[i] in multiset(opportunities);
    } else {
      var item := SkippedMeans(opportunities, log, r);
    }
  }

  // ---- Utilisation ----

  lemma {:induction false} ProcessedReport(opportunities: seq<Opportunity>, log: seq<Record>)
    requires forall i :: 0 <= i < |log| ==> log[i].Done?
    ensures multiset(Processed(Report(opportunities, log))) == multiset(log)
  {
    var rows := log + SkippedRecords(opportunities, log);
    ProcessedPermutation(Report(opportunities, log), rows);
    ProcessedAppendSkipped(opportunities, log, log);
  }

  lemma {:induction false} ProcessedAppendSkipped(opportunities: seq<Opportunity>, log: seq<Record>, keys: seq<Record>)
    requires forall i :: 0 <= i < |log| ==> log[i].Done?
    ensures Processed(log + SkippedRecords(opportunities, keys)) == log
  {
    if opportunities == [] {
      assert log + [] == log;
      ProcessedAll(log);
    } else {
      var front := opportunities[..|opportunities| - 1];
      ProcessedAppendSkipped(front, log, keys);
      var rows := log + SkippedRecords(opportunities, keys);
      if !KeyIn(opportunities[|opportunities| - 1].key, keys) {
        assert rows[..|rows| - 1] == log + SkippedRecords(front, keys);
      }
    }
  }

  /** A row is well formed, captured no later than released, and not started before its release. */
  ghost predicate SoundRow(r: Record) {
    WellFormed(r) && r.capture <= r.release && (r.Done? ==> r.release <= r.start)
  }

  lemma {:induction false} SkippedSound(opportunities: seq<Opportunity>, log: seq<Record>)
    requires forall i :: 0 <= i < |opportunities| ==> opportunities[i].captured <= opportunities[i].scheduled
    ensures forall r :: r in SkippedRecords(opportunities, log) ==> SoundRow(r)
  {
    if opportunities != [] {
      SkippedSound(opportunities[..|opportunities| - 1], log);
    }
  }

  lemma LogSound(opportunities: seq<Opportunity>, served: seq<Opportunity>, log: seq<Record>, v: Variant)
    requires forall i :: 0 <= i < |opportunities| ==> opportunities[i].captured <= opportunities[i].scheduled
    requires multiset(served) <= multiset(opportunities) && ServiceLog(served, log, v)
    ensures forall r :: r in log ==> SoundRow(r)
  {
    forall i | 0 <= i < |log| ensures SoundRow(log[i]) {
      assert ServedAs(served[i], log[i], v);
      assert served[i] in multiset(served);
      assert served[i] in multiset(opportunities);
      assert served[i] in opportunities;
    }
  }

  /** When nothing is captured after its release, the duty cycle of an orchestrated run is never clamped either. */
  lemma OrchestratedDutyCycle(opportunities: seq<Opportunity>, v: Variant, queueLimit: nat, policy: Policy, heavy: set<string>)
    requires Legal(policy)
    requires forall i :: 0 <= i < |opportunities| ==> opportunities[i].captured <= opportunities[i].scheduled
    ensures var end := Simulate(Initial(opportunities), v, queueLimit, policy, 0);
            end.Success? ==>
              var rows := Report(opportunities, end.value.log);
              && HeavyService(rows, heavy) <= Horizon(rows)
              && DutyCycle(rows, heavy) == HeavyService(rows, heavy) as real / Horizon(rows) as real
  {
    var end := Simulate(Initial(opportunities), v, queueLimit, policy, 0);
    if end.Success? {
      RunServesExactly(opportunities, v, queueLimit, policy);
      ReportDutyCycle(opportunities, v, end.value.served, end.value.log, heavy);
    }
  }

  lemma ReportDutyCycle(opportunities: seq<Opportunity>, v: Variant, served: seq<Opportunity>, log: seq<Record>, heavy: set<string>)
    requires forall i :: 0 <= i < |opportunities| ==> opportunities[i].captured <= opportunities[i].scheduled
    requires multiset(served) <= multiset(opportunities) && ServiceLog(served, log, v)
    ensures var rows := Report(opportunities, log);
            && HeavyService(rows, heavy) <= Horizon(rows)
            && DutyCycle(rows, heavy) == HeavyService(rows, heavy) as real / Horizon(rows) as real
  {
    var rows := Report(opportunities, log);
    SortMembers(log + SkippedRecords(opportunities, log), RecordLe);
    LogSound(opportunities, served, log, v);
    SkippedSound(opportunities, log);
    forall i | 0 <= i < |rows| ensures SoundRow(rows[i]) {
      assert rows[i] in log + SkippedRecords(opportunities, log);
    }
    ProcessedReport(opportunities, log);
    assert NoOverlap(rows);
    DutyCycleNeverClamped(rows, heavy);
  }

  // ---- Work conservation ----

  /** The declared service time; an item without one demands none. */
  function Demanded(v: Variant): Opportunity -> int {
    (item: Opportunity) => if v in item.service then item.service[v] else 0
  }

  function Work(items: seq<Opportunity>, v: Variant): int {
    SumBy(items, Demanded(v))
  }

  function Remaining(s: Sim): int {
    if s.active.Some? then s.active.value.remaining else 0
  }

  predicate Empty(s: Sim) {
    s.queue == [] && s.active.None?
  }

  /** The run's inputs when work conservation is claimed: every service time is declared and non-negative. */
  ghost predicate Complete(opportunities: seq<Opportunity>, v: Variant) {
    Served(opportunities, v) && FixedRate.NonNegative(opportunities, v)
  }

  /** The fixed-rate clock after the opportunities released so far. */
  ghost function Level(ordered: seq<Opportunity>, v: Variant, s: Sim): int
    requires Served(ordered, v) && |s.arrivals| <= |ordered|
  {
    FixedRate.Clock(ordered, v, |ordered| - |s.arrivals|)
  }

  /**
   Nothing has been rejected, and the unfinished work reaches exactly as far ahead of the clock as it would in the
   first-in first-out run of the same releases.
   */
  ghost predicate Balanced(ordered: seq<Opportunity>, v: Variant, s: Sim) {
    && Complete(ordered, v)
    && |s.arrivals| <= |ordered|
    && s.arrivals == ordered[|ordered| - |s.arrivals|..]
    && Served(s.queue, v) && FixedRate.NonNegative(s.queue, v)
    && 0 <= Remaining(s)
    && (if Empty(s) then
          && Level(ordered, v, s) <= s.now
          && (s.arrivals == [] && ordered != [] ==> Level(ordered, v, s) == s.now)
        else Level(ordered, v, s) == s.now + Work(s.queue, v) + Remaining(s))
  }

  lemma QueueWorkNonNegative(ordered: seq<Opportunity>, v: Variant, s: Sim)
    requires Balanced(ordered, v, s)
    ensures Work(s.queue, v) >= 0
  {
    SumNonNegative(s.queue, Demanded(v));
  }

  lemma BalancedSubmitOne(ordered: seq<Opportunity>, v: Variant, s: Sim)
    requires Balanced(ordered, v, s) && s.arrivals != [] && s.arrivals[0].scheduled == s.now
    ensures Balanced(ordered, v, s.(arrivals := s.arrivals[1..], queue := s.queue + [s.arrivals[0]]))
  {
    var k := |ordered| - |s.arrivals|;
    var item := s.arrivals[0];
    assert item == ordered[k];
    QueueWorkNonNegative(ordered, v, s);
    var s' := s.(arrivals := s.arrivals[1..], queue := s.queue + [item]);
    assert s'.arrivals == ordered[k + 1..];
    SumAppend(s.queue, item, Demanded(v));
    assert FixedRate.Clock(ordered, v, k + 1) == FixedRate.Start(ordered, v, k) + item.service[v];
  }

  lemma {:induction false} BalancedSubmit(ordered: seq<Opportunity>, v: Variant, s: Sim, n: nat)
    requires Balanced(ordered, v, s) && OnSchedule(s) && n <= DueCount(s.arrivals, s.now)
    ensures Balanced(ordered, v, Submit(s, n))
    decreases n
  {
    if n == 0 {
      assert s.arrivals[0..] == s.arrivals && s.queue + s.arrivals[..0] == s.queue;
    } else {
      BalancedSubmit(ordered, v, s, n - 1);
      SubmitOnTime(s, n - 1);
      SubmitOneMore(s, n - 1);
      BalancedSubmitOne(ordered, v, Submit(s, n - 1));
    }
  }

  lemma SubmitOneMore(s: Sim, n: nat)
    requires n < |s.arrivals|
    ensures Submit(s, n).arrivals[0] == s.arrivals[n]
    ensures var t := Submit(s, n); t.(arrivals := t.arrivals[1..], queue := t.queue + [t.arrivals[0]]) == Submit(s, n + 1)
  {
    var t := Submit(s, n);
    assert t.arrivals[1..] == s.arrivals[n + 1..];
    assert t.queue + [t.arrivals[0]] == s.queue + s.arrivals[..n + 1];
  }

  lemma SubmitHeld(s: Sim, n: nat)
    requires n <= |s.arrivals|
    ensures Held(Submit(s, n)) == Held(s)
  {
    assert s.arrivals == s.arrivals[..n] + s.arrivals[n..];
  }

  lemma BalancedWake(ordered: seq<Opportunity>, v: Variant, s: Sim)
    requires Balanced(ordered, v, s) && OnSchedule(s)
    ensures Balanced(ordered, v, Wake(s))
  {
  }

  lemma BalancedBegin(ordered: seq<Opportunity>, v: Variant, s: Sim, d: Dispatch)
    requires Balanced(ordered, v, s) && s.active.None? && d.selected.Some?
    requires multiset(d.kept) + Bag(d.selected) == multiset(s.queue)
    ensures v in d.selected.value.service
    ensures Balanced(ordered, v, Begin(s, v, d))
  {
    var item := d.selected.value;
    KeptServed(d, s.queue, v);
    SumPermutation(d.kept + [item], s.queue, Demanded(v));
    SumAppend(d.kept, item, Demanded(v));
  }

  /** What a policy keeps and what it selects inherit what holds of every queued job. */
  lemma KeptServed(d: Dispatch, queue: seq<Opportunity>, v: Variant)
    requires d.selected.Some? && multiset(d.kept) + Bag(d.selected) == multiset(queue)
    requires Served(queue, v) && FixedRate.NonNegative(queue, v)
    ensures multiset(d.kept + [d.selected.value]) == multiset(queue)
    ensures v in d.selected.value.service && d.selected.value.service[v] >= 0
    ensures Served(d.kept, v) && FixedRate.NonNegative(d.kept, v)
  {
    var all := d.kept + [d.selected.value];
    SamePermutationMembers(all, queue);
    forall x | x in all ensures v in x.service && x.service[v] >= 0 {
      assert x in queue;
    }
    assert forall i :: 0 <= i < |d.kept| ==> d.kept[i] in all;
    assert all[|d.kept|] in all;
  }

  lemma BalancedUntil(ordered: seq<Opportunity>, v: Variant, s: Sim, t: int)
    requires Balanced(ordered, v, s) && s.active.Some? && s.now <= t <= s.now + s.active.value.remaining
    ensures Balanced(ordered, v, Until(s, t))
  {
  }

  lemma BalancedFinish(ordered: seq<Opportunity>, v: Variant, s: Sim)
    requires Balanced(ordered, v, s) && s.active.Some?
    ensures Balanced(ordered, v, Finish(s))
  {
  }

  /** Nothing was rejected, and the last completed service ended when the server became idle. */
  ghost predicate Conserved(opportunities: seq<Opportunity>, v: Variant, s: Sim) {
    && Balanced(Sort(opportunities, FixedRate.ByRelease), v, s)
    && Held(s) == multiset(opportunities)
    && (Empty(s) && s.arrivals == [] && opportunities != [] ==>
          s.log != [] && s.log[|s.log| - 1].Done? && s.log[|s.log| - 1].completion == s.now)
  }

  lemma ConservedInitial(opportunities: seq<Opportunity>, v: Variant)
    requires Complete(opportunities, v)
    ensures Conserved(opportunities, v, Initial(opportunities))
  {
    var ordered := Sort(opportunities, FixedRate.ByRelease);
    SortMembers(opportunities, FixedRate.ByRelease);
    FixedRate.ServedSorted(opportunities, v);
    assert FixedRate.NonNegative(ordered, v) by {
      assert forall i :: 0 <= i < |ordered| ==> ordered[i] in opportunities;
    }
    assert ordered[0..] == ordered;
  }

  lemma UntilHeld(s: Sim, t: int)
    requires s.active.Some?
    ensures Held(Until(s, t)) == Held(s)
  {
  }

  /** A transition that completes nothing and does not empty the server keeps the conservation of work. */
  lemma ConservedFrom(opportunities: seq<Opportunity>, v: Variant, s: Sim, t: Sim)
    requires Conserved(opportunities, v, s) && Balanced(Sort(opportunities, FixedRate.ByRelease), v, t)
    requires Held(t) == Held(s)
    requires Empty(t) && t.arrivals == [] ==> Empty(s) && s.arrivals == [] && t.log == s.log && t.now == s.now
    ensures Conserved(opportunities, v, t)
  {
  }

  /** The two invariants together. */
  ghost predicate Steady(opportunities: seq<Opportunity>, v: Variant, s: Sim) {
    OnSchedule(s) && Conserved(opportunities, v, s)
  }

  lemma SteadyWake(opportunities: seq<Opportunity>, v: Variant, s: Sim)
    requires Steady(opportunities, v, s)
    ensures Steady(opportunities, v, Wake(s))
  {
    WakeOnSchedule(s);
    BalancedWake(Sort(opportunities, FixedRate.ByRelease), v, s);
  }

  lemma SteadySubmit(opportunities: seq<Opportunity>, v: Variant, s: Sim)
    requires Steady(opportunities, v, s)
    ensures Steady(opportunities, v, Submit(s, DueCount(s.arrivals, s.now)))
  {
    var n := DueCount(s.arrivals, s.now);
    BalancedSubmit(Sort(opportunities, FixedRate.ByRelease), v, s, n);
    SubmitHeld(s, n);
    SubmitOnSchedule(s, n);
    ConservedFrom(opportunities, v, s, Submit(s, n));
  }

  lemma ConservedUntil(opportunities: seq<Opportunity>, v: Variant, s: Sim, t: int)
    requires Conserved(opportunities, v, s) && s.active.Some? && s.now <= t < s.now + s.active.value.remaining
    ensures Conserved(opportunities, v, Until(s, t))
  {
    BalancedUntil(Sort(opportunities, FixedRate.ByRelease), v, s, t);
    UntilHeld(s, t);
    ConservedFrom(opportunities, v, s, Until(s, t));
  }

  lemma SteadyUntil(opportunities: seq<Opportunity>, v: Variant, s: Sim)
    requires Steady(opportunities, v, s) && MustSplit(s)
    ensures Steady(opportunities, v, Until(s, s.arrivals[0].scheduled))
  {
    UntilOnSchedule(s);
    ConservedUntil(opportunities, v, s, s.arrivals[0].scheduled);
  }

  lemma SteadyFinish(opportunities: seq<Opportunity>, v: Variant, s: Sim)
    requires Steady(opportunities, v, s) && MayFinish(s)
    ensures Steady(opportunities, v, Finish(s))
  {
    BalancedFinish(Sort(opportunities, FixedRate.ByRelease), v, s);
    FinishHeld(s);
    FinishOnSchedule(s);
  }

  lemma SteadyBegin(opportunities: seq<Opportunity>, v: Variant, s: Sim, d: Dispatch)
    requires Steady(opportunities, v, s) && s.active.None? && d.selected.Some?
    requires multiset(d.kept) + Bag(d.selected) == multiset(s.queue)
    ensures v in d.selected.value.service
    ensures Steady(opportunities, v, Begin(s, v, d))
  {
    BalancedBegin(Sort(opportunities, FixedRate.ByRelease), v, s, d);
    KeepOnSchedule(s, d);
  }

  lemma SteadyAccepts(opportunities: seq<Opportunity>, v: Variant, policy: Policy, s: Sim, n: nat, p: Sim -> bool)
    requires WorkConserving(policy) && Steady(opportunities, v, s) && s.active.None?
    requires p == (s => Steady(opportunities, v, s))
    ensures Accepts(p, s, v, policy(n, s.queue, s.now))
  {
    var d := policy(n, s.queue, s.now);
    if d.selected.Some? {
      SteadyBegin(opportunities, v, s, d);
    } else {
      NothingKept(s.queue, d);
      assert s.(queue := d.kept) == s;
    }
  }

  lemma SteadyReleases(opportunities: seq<Opportunity>, v: Variant, p: Sim -> bool)
    requires p == (s => Steady(opportunities, v, s))
    ensures forall s {:trigger Wake(s)} :: p(s) ==> p(Wake(s))
    ensures forall s {:trigger DueCount(s.arrivals, s.now)} :: p(s) ==> p(Submit(s, DueCount(s.arrivals, s.now)))
  {
    forall s | p(s) ensures p(Wake(s)) {
      SteadyWake(opportunities, v, s);
    }
    forall s | p(s) ensures p(Submit(s, DueCount(s.arrivals, s.now))) {
      SteadySubmit(opportunities, v, s);
    }
  }

  lemma SteadySplits(opportunities: seq<Opportunity>, v: Variant, p: Sim -> bool)
    requires p == (s => Steady(opportunities, v, s))
    ensures forall s {:trigger MustSplit(s)} :: p(s) && MustSplit(s) ==> p(Until(s, s.arrivals[0].scheduled))
  {
    forall s | p(s) && MustSplit(s) ensures p(Until(s, s.arrivals[0].scheduled)) {
      SteadyUntil(opportunities, v, s);
    }
  }

  lemma SteadyFinishes(opportunities: seq<Opportunity>, v: Variant, p: Sim -> bool)
    requires p == (s => Steady(opportunities, v, s))
    ensures forall s {:trigger MayFinish(s)} :: p(s) && MayFinish(s) ==> p(Finish(s))
  {
    forall s | p(s) && MayFinish(s) ensures p(Finish(s)) {
      SteadyFinish(opportunities, v, s);
    }
  }

  lemma SteadyInductive(opportunities: seq<Opportunity>, v: Variant, policy: Policy) returns (p: Sim -> bool)
    requires WorkConserving(policy)
    ensures p == (s => Steady(opportunities, v, s)) && Inductive(p, v, policy)
  {
    p := s => Steady(opportunities, v, s);
    SteadyReleases(opportunities, v, p);
    SteadySplits(opportunities, v, p);
    SteadyFinishes(opportunities, v, p);
    forall s, n | p(s) && s.active.None? ensures Accepts(p, s, v, policy(n, s.queue, s.now)) {
      SteadyAccepts(opportunities, v, policy, s, n, p);
    }
  }

  lemma NothingKept(queue: seq<Opportunity>, d: Dispatch)
    requires queue == [] && multiset(d.kept) + Bag(d.selected) == multiset(queue)
    ensures d.kept == []
  {
    assert |multiset(d.kept) + Bag(d.selected)| == 0;
  }

  /** With a work-conserving policy the loop never gives up on queued jobs. */
  lemma {:induction false} RunsToCompletion(s: Sim, v: Variant, queueLimit: nat, policy: Policy, call: nat)
    requires Legal(policy) && WorkConserving(policy)
    ensures var r := Simulate(s, v, queueLimit, policy, call); r.Success? ==> !Busy(r.value)
    decreases |s.arrivals|, Unfinished(s)
  {
    if Busy(s) {
      IterateProgress(s, v, queueLimit, policy, call);
      NeverStuck(s, v, queueLimit, policy, call);
      var o := Iterate(s, v, queueLimit, policy, call);
      if o.Next? {
        RunsToCompletion(o.sim, v, queueLimit, policy, call + 1);
      }
    }
  }

  lemma NeverStuck(s: Sim, v: Variant, queueLimit: nat, policy: Policy, call: nat)
    requires WorkConserving(policy)
    ensures !Iterate(s, v, queueLimit, policy, call).Stuck?
  {
    var released := SubmitDue(Wake(s), queueLimit);
    if released.Success? {
      var t := released.value;
      NotStuck(t, v, queueLimit, policy, call);
    }
  }

  lemma NotStuck(t: Sim, v: Variant, queueLimit: nat, policy: Policy, call: nat)
    requires WorkConserving(policy)
    ensures !Proceed(t, v, queueLimit, policy(call, t.queue, t.now)).Stuck?
  {
    var d := policy(call, t.queue, t.now);
    assert multiset(d.kept) + Bag(d.selected) == multiset(t.queue) && (t.queue != [] ==> d.selected.Some?);
    if t.queue == [] {
      NothingKept(t.queue, d);
    }
  }

  /**
   Orchestration reorders work but neither loses nor creates it: under every work-conserving policy all opportunities are
   served, and the last service ends exactly when it would in the fixed-rate run with the same service times.
   */
  lemma SameMakespan(opportunities: seq<Opportunity>, v: Variant, queueLimit: nat, policy: Policy)
    requires Legal(policy) && WorkConserving(policy) && Complete(opportunities, v)
    ensures var ordered := Sort(opportunities, FixedRate.ByRelease);
            var end := Simulate(Initial(opportunities), v, queueLimit, policy, 0);
            end.Success? ==>
              && multiset(end.value.served) == multiset(opportunities)
              && (opportunities != [] ==>
                    && Served(ordered, v)
                    && end.value.log != [] && end.value.log[|end.value.log| - 1].Done?
                    && end.value.log[|end.value.log| - 1].completion == FixedRate.Clock(ordered, v, |ordered|))
  {
    var end := Simulate(Initial(opportunities), v, queueLimit, policy, 0);
    if end.Success? {
      EndIsConserved(opportunities, v, queueLimit, policy);
      RunsToCompletion(Initial(opportunities), v, queueLimit, policy, 0);
      IdleEnd(opportunities, v, end.value);
    }
  }

  lemma EndIsConserved(opportunities: seq<Opportunity>, v: Variant, queueLimit: nat, policy: Policy)
    requires Legal(policy) && WorkConserving(policy) && Complete(opportunities, v)
    ensures var end := Simulate(Initial(opportunities), v, queueLimit, policy, 0);
            end.Success? ==> Conserved(opportunities, v, end.value)
  {
    InvInitial(opportunities, v);
    ConservedInitial(opportunities, v);
    var p := SteadyInductive(opportunities, v, policy);
    InductiveSimulate(p, Initial(opportunities), v, queueLimit, policy, 0);
  }

  /** When nothing is left to do, everything was served and the clock shows the work of all opportunities. */
  lemma {:induction false} IdleEnd(opportunities: seq<Opportunity>, v: Variant, s: Sim)
    requires Conserved(opportunities, v, s) && !Busy(s)
    ensures multiset(s.served) == multiset(opportunities)
    ensures opportunities != [] ==>
              var ordered := Sort(opportunities, FixedRate.ByRelease);
              && Served(ordered, v)
              && s.log != [] && s.log[|s.log| - 1].Done?
              && s.log[|s.log| - 1].completion == FixedRate.Clock(ordered, v, |ordered|)
  {
    IdleHeld(s);
    if opportunities != [] {
      IdleLevel(Sort(opportunities, FixedRate.ByRelease), v, s);
    }
  }

  lemma IdleHeld(s: Sim)
    requires !Busy(s)
    ensures Held(s) == multiset(s.served)
  {
  }

  lemma {:induction false} IdleLevel(ordered: seq<Opportunity>, v: Variant, s: Sim)
    requires Balanced(ordered, v, s) && !Busy(s) && ordered != []
    ensures Served(ordered, v) && s.now == FixedRate.Clock(ordered, v, |ordered|)
  {
    assert Empty(s);
  }

  // ---- The clamp, on the opportunities ----

  lemma {:induction false} NothingSkipped(opportunities: seq<Opportunity>, log: seq<Record>)
    requires forall x :: x in opportunities ==> KeyIn(x.key, log)
    ensures SkippedRecords(opportunities, log) == []
  {
    if opportunities != [] {
      var front, last := opportunities[..|opportunities| - 1], opportunities[|opportunities| - 1];
      assert last in opportunities && forall x :: x in front ==> x in opportunities;
      NothingSkipped(front, log);
    }
  }

  lemma AllKeysLogged(opportunities: seq<Opportunity>, served: seq<Opportunity>, log: seq<Record>, v: Variant)
    requires multiset(served) == multiset(opportunities) && ServiceLog(served, log, v)
    ensures forall x :: x in opportunities ==> KeyIn(x.key, log)
  {
    SamePermutationMembers(served, opportunities);
    LogKeys(served, log, v);
    forall x | x in opportunities ensures KeyIn(x.key, log) {
      var i :| 0 <= i < |served| && served[i] == x;
      assert log[i].key == x.key;
    }
  }

  lemma {:induction false} LogTotal(served: seq<Opportunity>, log: seq<Record>, v: Variant)
    requires |served| == |log| && forall i :: 0 <= i < |log| ==> ServedAs(served[i], log[i], v)
    ensures SumBy(log, ServiceWeight) == Work(served, v)
  {
    if log != [] {
      var n := |log| - 1;
      assert ServedAs(served[n], log[n], v);
      LogTotal(served[..n], log[..n], v);
    }
  }

  lemma {:induction false} WorkIsDemand(ordered: seq<Opportunity>, v: Variant, n: nat)
    requires Served(ordered, v) && n <= |ordered|
    ensures Work(ordered[..n], v) == FixedRate.Demand(ordered, v, 0, n)
  {
    if n > 0 {
      WorkIsDemand(ordered, v, n - 1);
      assert ordered[..n][..n - 1] == ordered[..n - 1] && ordered[..n][n - 1] == ordered[n - 1];
    }
  }

  /** What was logged demands as much as the opportunities, whatever the order of service. */
  lemma {:induction false} LogDemand(ordered: seq<Opportunity>, served: seq<Opportunity>, log: seq<Record>, v: Variant)
    requires multiset(served) == multiset(ordered) && ServiceLog(served, log, v) && Served(ordered, v)
    ensures SumBy(log, ServiceWeight) == FixedRate.Demand(ordered, v, 0, |ordered|)
  {
    LogTotal(served, log, v);
    SumPermutation(served, ordered, Demanded(v));
    WorkIsDemand(ordered, v, |ordered|);
    assert ordered[..|ordered|] == ordered;
  }

  lemma LogCaptures(ordered: seq<Opportunity>, served: seq<Opportunity>, log: seq<Record>, v: Variant)
    requires multiset(served) == multiset(ordered) && ServiceLog(served, log, v)
    ensures FixedRate.ReportedCaptures(log) == FixedRate.Captures(ordered)
  {
    forall i | 0 <= i < |log| ensures log[i].capture == served[i].captured {
      assert ServedAs(served[i], log[i], v);
    }
    FixedRate.CapturesReported(log, served);
    SamePermutationMembers(served, ordered);
  }

  /** A log that serves everything and ends with the fixed-rate run obeys the fixed-rate condition. */
  lemma {:induction false} LogClampIff(ordered: seq<Opportunity>, served: seq<Opportunity>, log: seq<Record>, rows: seq<Record>,
                                       v: Variant)
    requires Served(ordered, v) && FixedRate.NonNegative(ordered, v) && ordered != []
    requires multiset(served) == multiset(ordered) && ServiceLog(served, log, v) && multiset(rows) == multiset(log)
    requires log != [] && log[|log| - 1].completion == FixedRate.Clock(ordered, v, |ordered|)
    ensures (forall heavy :: Unclamped(rows, heavy)) <==> FixedRate.ServiceFitsHorizon(ordered, v)
  {
    LogDemand(ordered, served, log, v);
    SumPermutation(rows, log, ServiceWeight);
    SamePermutationMembers(rows, log);
    LogCaptures(ordered, served, log, v);
    assert FixedRate.ReportedCaptures(rows) == FixedRate.ReportedCaptures(log);
    SequentialEnd(log);
    MaxCompletionOrder(rows, log);
    forall i | 0 <= i < |rows| && rows[i].Done? ensures rows[i].serviceMs >= 0 {
      assert rows[i] in log;
    }
    FixedRate.ClampCondition(rows, ordered, v);
  }

  /**
   Under every work-conserving policy the same condition on the opportunities decides whether the duty cycle of an
   orchestrated run is ever clamped.
   */
  lemma OrchestratedClampIff(opportunities: seq<Opportunity>, v: Variant, queueLimit: nat, policy: Policy)
    requires Legal(policy) && WorkConserving(policy) && Complete(opportunities, v)
    ensures var ordered := Sort(opportunities, FixedRate.ByRelease);
            var end := Simulate(Initial(opportunities), v, queueLimit, policy, 0);
            && Served(ordered, v)
            && (end.Success? ==>
                  ((forall heavy :: Unclamped(Report(opportunities, end.value.log), heavy)) <==>
                   FixedRate.ServiceFitsHorizon(ordered, v)))
  {
    FixedRate.ServedSorted(opportunities, v);
    var end := Simulate(Initial(opportunities), v, queueLimit, policy, 0);
    if end.Success? {
      SameMakespan(opportunities, v, queueLimit, policy);
      RunServesExactly(opportunities, v, queueLimit, policy);
      ReportClampIff(opportunities, end.value.served, end.value.log, v);
    }
  }

  lemma {:induction false} ReportClampIff(opportunities: seq<Opportunity>, served: seq<Opportunity>, log: seq<Record>, v: Variant)
    requires Complete(opportunities, v) && Served(Sort(opportunities, FixedRate.ByRelease), v)
    requires multiset(served) == multiset(opportunities) && ServiceLog(served, log, v)
    requires opportunities != [] ==>
               var ordered := Sort(opportunities, FixedRate.ByRelease);
               log != [] && log[|log| - 1].completion == FixedRate.Clock(ordered, v, |ordered|)
    ensures (forall heavy :: Unclamped(Report(opportunities, log), heavy)) <==>
            FixedRate.ServiceFitsHorizon(Sort(opportunities, FixedRate.ByRelease), v)
  {
    var ordered, rows := Sort(opportunities, FixedRate.ByRelease), Report(opportunities, log);
    AllKeysLogged(opportunities, served, log, v);
    NothingSkipped(opportunities, log);
    assert log + [] == log;
    if opportunities == [] {
      SamePermutationMembers(served, opportunities);
      assert rows == [];
      NeverClampedIff(rows);
    } else {
      NonNegativeSorted(opportunities, v);
      LogClampIff(ordered, served, log, rows, v);
    }
  }

  lemma NonNegativeSorted(opportunities: seq<Opportunity>, v: Variant)
    requires Complete(opportunities, v) && Served(Sort(opportunities, FixedRate.ByRelease), v)
    ensures FixedRate.NonNegative(Sort(opportunities, FixedRate.ByRelease), v)
  {
    var ordered := Sort(opportunities, FixedRate.ByRelease);
    SortMembers(opportunities, FixedRate.ByRelease);
    forall i | 0 <= i < |ordered| ensures ordered[i].service[v] >= 0 {
      assert ordered[i] in opportunities;
    }
  }
}
