/**
 The fixed-rate mode of the benchmark lab: a first-in first-out single server.
 */
module FixedRate {
  import opened Basics
  import opened Sorting
  import opened BenchmarkRecords

  const ByRelease: (Opportunity, Opportunity) -> bool := (a: Opportunity, b: Opportunity) => a.scheduled <= b.scheduled

  /** The clock when the first `i` opportunities have been served. */
  function Clock(ordered: seq<Opportunity>, v: Variant, i: nat): int
    requires i <= |ordered| && Served(ordered, v)
    decreases i, 0
  {
    if i == 0 then 0 else Start(ordered, v, i - 1) + ordered[i - 1].service[v]
  }

  function Start(ordered: seq<Opportunity>, v: Variant, i: nat): int
    requires i < |ordered| && Served(ordered, v)
    decreases i, 1
  {
    Max(Clock(ordered, v, i), ordered[i].scheduled)
  }

  function RecordAt(ordered: seq<Opportunity>, v: Variant, i: nat): Record
    requires i < |ordered| && Served(ordered, v)
  {
    ProcessedRecord(ordered[i], ordered[i].scheduled, Start(ordered, v, i), Clock(ordered, v, i + 1))
  }

  function FixedRecords(ordered: seq<Opportunity>, v: Variant): (r: seq<Record>)
    requires Served(ordered, v)
    ensures |r| == |ordered|
  {
    seq(|ordered|, i requires 0 <= i < |ordered| => RecordAt(ordered, v, i))
  }

  lemma ServedSorted(opportunities: seq<Opportunity>, v: Variant)
    ensures Served(Sort(opportunities, ByRelease), v) <==> Served(opportunities, v)
  {
    var ordered := Sort(opportunities, ByRelease);
    SortMembers(opportunities, ByRelease);
    if Served(opportunities, v) {
      forall i | 0 <= i < |ordered| ensures v in ordered[i].service {
        assert ordered[i] in opportunities;
      }
    }
    if Served(ordered, v) {
      forall i | 0 <= i < |opportunities| ensures v in opportunities[i].service {
        assert opportunities[i] in ordered;
      }
    }
  }

  /**
   What the row of opportunity `i` must say. It completes at the latest end over the busy periods leading up to it, and it
   misses its deadline exactly when some busy period ends after it.
   */
  ghost predicate FixedRow(ordered: seq<Opportunity>, v: Variant, i: nat, r: Record)
    requires i < |ordered| && Served(ordered, v)
  {
    var item := ordered[i];
    && r.Done? && r.key == item.key && r.workload == item.workload && r.release == item.scheduled && r.capture == item.captured
    && (forall j: nat :: j <= i ==> ordered[j].scheduled + Demand(ordered, v, j, i + 1) <= r.completion)
    && (exists j: nat :: j <= i && ordered[j].scheduled + Demand(ordered, v, j, i + 1) == r.completion)
    && r.start == r.completion - item.service[v]
    && r.serviceMs == item.service[v]
    && r.queueLatency == r.start - item.scheduled
    && r.endToEnd == r.completion - item.captured
    && (r.deadlineMissed <==>
          exists j: nat :: j <= i && ordered[j].scheduled + Demand(ordered, v, j, i + 1) > item.scheduled + item.deadline)
  }

  lemma {:induction false} FixedRows(ordered: seq<Opportunity>, v: Variant, i: nat)
    requires i < |ordered| && Served(ordered, v)
    ensures FixedRow(ordered, v, i, FixedRecords(ordered, v)[i])
  {
    forall j: nat | j <= i ensures ordered[j].scheduled + Demand(ordered, v, j, i + 1) <= Clock(ordered, v, i + 1) {
      CompletionLowerBound(ordered, v, j, i + 1);
    }
    var j := CompletionAttained(ordered, v, i + 1);
    assert ordered[j].scheduled + Demand(ordered, v, j, i + 1) == Clock(ordered, v, i + 1);
  }

  lemma InReleaseOrder(opportunities: seq<Opportunity>)
    ensures var ordered := Sort(opportunities, ByRelease);
            forall i, j :: 0 <= i < j < |ordered| ==> ordered[i].scheduled <= ordered[j].scheduled
  {
    var ordered := Sort(opportunities, ByRelease);
    SortSorted(opportunities, ByRelease);
    forall i, j | 0 <= i < j < |ordered| ensures ordered[i].scheduled <= ordered[j].scheduled {
      assert ByRelease(ordered[i], ordered[j]);
    }
  }

  /** `_run_fixed`: a missing service time raises, otherwise every opportunity is served in release order. */
  method RunFixed(opportunities: seq<Opportunity>, v: Variant) returns (r: Result<seq<Record>>)
    ensures r.Success? <==> Served(opportunities, v)
    ensures r.Success? ==> Served(Sort(opportunities, ByRelease), v)
    ensures r.Success? ==> r.value == FixedRecords(Sort(opportunities, ByRelease), v)
    ensures r.Success? ==>
              var ordered := Sort(opportunities, ByRelease);
              && multiset(ordered) == multiset(opportunities)
              && (forall i, j :: 0 <= i < j < |ordered| ==> ordered[i].scheduled <= ordered[j].scheduled)
              && |r.value| == |ordered|
              && forall i :: 0 <= i < |ordered| ==> FixedRow(ordered, v, i, r.value[i])
  {
    var now := 0;
    var records: seq<Record> := [];
    var ordered := Sort(opportunities, ByRelease);
    ServedSorted(opportunities, v);
    for n := 0 to |ordered|
      invariant Served(ordered[..n], v)
      invariant now == Clock(ordered[..n], v, n)
      invariant records == FixedRecords(ordered[..n], v)
    {
      var item := ordered[n];
      if v !in item.service {
        return Failure(MissingServiceTime);
      }
      var release := item.scheduled;
      var start := Max(now, release);
      var completion := start + item.service[v];
      now := completion;
      records := records + [ProcessedRecord(item, release, start, completion)];
      PrefixAgrees(ordered[..n + 1], v, n);
      assert ordered[..n + 1][..n] == ordered[..n];
    }
    assert ordered[..|ordered|] == ordered;
    InReleaseOrder(opportunities);
    forall i | 0 <= i < |ordered| ensures FixedRow(ordered, v, i, records[i]) {
      FixedRows(ordered, v, i);
    }
    r := Success(records);
  }

  /** Serving a prefix is a prefix of the serving. */
  lemma {:induction false} PrefixAgrees(ordered: seq<Opportunity>, v: Variant, n: nat)
    requires n <= |ordered| && Served(ordered, v)
    ensures Served(ordered[..n], v)
    ensures Clock(ordered[..n], v, n) == Clock(ordered, v, n)
    ensures FixedRecords(ordered[..n], v) == FixedRecords(ordered, v)[..n]
  {
    forall i | 0 <= i <= n ensures Clock(ordered[..n], v, i) == Clock(ordered, v, i) {
      ClockPrefix(ordered, v, n, i);
    }
    forall i | 0 <= i < n ensures RecordAt(ordered[..n], v, i) == RecordAt(ordered, v, i) {
    }
  }

  lemma {:induction false} ClockPrefix(ordered: seq<Opportunity>, v: Variant, n: nat, i: nat)
    requires i <= n <= |ordered| && Served(ordered, v)
    ensures Clock(ordered[..n], v, i) == Clock(ordered, v, i)
    decreases i
  {
    if i > 0 {
      ClockPrefix(ordered, v, n, i - 1);
    }
  }

  // ---- Max-plus closed form ----

  /** Service demanded by the opportunities `j`, ..., `i - 1`. */
  function Demand(ordered: seq<Opportunity>, v: Variant, j: nat, i: nat): int
    requires j <= i <= |ordered| && Served(ordered, v)
  {
    if j == i then 0 else Demand(ordered, v, j, i - 1) + ordered[i - 1].service[v]
  }

  /** Every busy period bounds the completion time from below... */
  lemma {:induction false} CompletionLowerBound(ordered: seq<Opportunity>, v: Variant, j: nat, i: nat)
    requires j < i <= |ordered| && Served(ordered, v)
    ensures ordered[j].scheduled + Demand(ordered, v, j, i) <= Clock(ordered, v, i)
  {
    if j < i - 1 {
      CompletionLowerBound(ordered, v, j, i - 1);
    }
  }

  /** ...and one of them attains it: completion is the max-plus product of releases and services. */
  lemma {:induction false} CompletionAttained(ordered: seq<Opportunity>, v: Variant, i: nat) returns (j: nat)
    requires 0 < i <= |ordered| && Served(ordered, v)
    ensures j < i && Clock(ordered, v, i) == ordered[j].scheduled + Demand(ordered, v, j, i)
  {
    if i == 1 || Clock(ordered, v, i - 1) <= ordered[i - 1].scheduled {
      j := i - 1;
      assert Demand(ordered, v, j, i) == Demand(ordered, v, j, j) + ordered[j].service[v];
    } else {
      j := CompletionAttained(ordered, v, i - 1);
    }
  }

  /** Completion times are the maximum over busy periods, stated without the recursion. */
  lemma MaxPlusClosedForm(ordered: seq<Opportunity>, v: Variant, i: nat, c: int)
    requires 0 < i <= |ordered| && Served(ordered, v)
    ensures c == Clock(ordered, v, i) <==>
            && (forall j: nat :: j < i ==> ordered[j].scheduled + Demand(ordered, v, j, i) <= c)
            && (exists j: nat :: j < i && c == ordered[j].scheduled + Demand(ordered, v, j, i))
  {
    forall j: nat | j < i ensures ordered[j].scheduled + Demand(ordered, v, j, i) <= Clock(ordered, v, i) {
      CompletionLowerBound(ordered, v, j, i);
    }
    var k := CompletionAttained(ordered, v, i);
    assert ordered[k].scheduled + Demand(ordered, v, k, i) == Clock(ordered, v, i);
  }

  // ---- Faster services dominate ----

  ghost predicate FasterThan(ordered: seq<Opportunity>, fast: Variant, slow: Variant)
    requires Served(ordered, fast) && Served(ordered, slow)
  {
    forall i :: 0 <= i < |ordered| ==> ordered[i].service[fast] <= ordered[i].service[slow]
  }

  lemma {:induction false} ClockMonotone(ordered: seq<Opportunity>, fast: Variant, slow: Variant, i: nat)
    requires Served(ordered, fast) && Served(ordered, slow) && FasterThan(ordered, fast, slow)
    requires i <= |ordered|
    ensures Clock(ordered, fast, i) <= Clock(ordered, slow, i)
    ensures i < |ordered| ==> Start(ordered, fast, i) <= Start(ordered, slow, i)
  {
    if i > 0 {
      ClockMonotone(ordered, fast, slow, i - 1);
    }
  }

  lemma {:induction false} MissesMonotone(a: seq<Record>, b: seq<Record>)
    requires |a| == |b| && forall i :: 0 <= i < |a| ==> (a[i].deadlineMissed ==> b[i].deadlineMissed)
    ensures Misses(a) <= Misses(b)
  {
    if a != [] {
      MissesMonotone(a[..|a| - 1], b[..|b| - 1]);
    }
  }

  /** Record by record and in every reported statistic, run `a` does at least as well as run `b`. */
  ghost predicate Dominates(a: seq<Record>, b: seq<Record>, p: real) {
    && |a| == |b|
    && (forall i :: 0 <= i < |a| ==>
          && a[i].Done? && b[i].Done? && a[i].key == b[i].key
          && a[i].start <= b[i].start && a[i].completion <= b[i].completion)
    && SumBy(QueueDelays(a), Itself) <= SumBy(QueueDelays(b), Itself)
    && Misses(a) <= Misses(b)
    && Median(Latencies(a)) <= Median(Latencies(b))
    && Percentile(Latencies(a), p) <= Percentile(Latencies(b), p)
  }

  ghost predicate NoWorse(a: Record, b: Record) {
    && a.Done? && b.Done? && a.key == b.key
    && a.start <= b.start && a.completion <= b.completion
    && a.queueLatency <= b.queueLatency && a.endToEnd <= b.endToEnd
    && (a.deadlineMissed ==> b.deadlineMissed)
  }

  lemma FasterRecord(ordered: seq<Opportunity>, fast: Variant, slow: Variant, i: nat)
    requires Served(ordered, fast) && Served(ordered, slow) && FasterThan(ordered, fast, slow)
    requires i < |ordered|
    ensures NoWorse(RecordAt(ordered, fast, i), RecordAt(ordered, slow, i))
  {
    ClockMonotone(ordered, fast, slow, i);
    ClockMonotone(ordered, fast, slow, i + 1);
  }

  lemma {:induction false} PointwiseDominates(a: seq<Record>, b: seq<Record>, p: real)
    requires |a| == |b| && forall i :: 0 <= i < |a| ==> NoWorse(a[i], b[i])
    ensures Dominates(a, b, p)
  {
    ProcessedAll(a);
    ProcessedAll(b);
    SumMonotone(QueueDelays(a), QueueDelays(b));
    MissesMonotone(a, b);
    StatisticsMonotone(Latencies(a), Latencies(b), p);
  }

  /**
   If every `fast` service time is at most the `slow` one, every completion, the total queue delay, the
   number of deadline misses, the median and every percentile are at most those of the slow run.
   */
  lemma {:induction false} FasterServiceDominates(opportunities: seq<Opportunity>, fast: Variant, slow: Variant, p: real)
    requires Served(opportunities, fast) && Served(opportunities, slow)
    requires FasterThan(opportunities, fast, slow)
    ensures var ordered := Sort(opportunities, ByRelease);
            && Served(ordered, fast) && Served(ordered, slow)
            && Dominates(FixedRecords(ordered, fast), FixedRecords(ordered, slow), p)
  {
    ServedSorted(opportunities, fast);
    ServedSorted(opportunities, slow);
    FasterSorted(opportunities, fast, slow);
    var ordered := Sort(opportunities, ByRelease);
    forall i | 0 <= i < |ordered| ensures NoWorse(RecordAt(ordered, fast, i), RecordAt(ordered, slow, i)) {
      FasterRecord(ordered, fast, slow, i);
    }
    PointwiseDominates(FixedRecords(ordered, fast), FixedRecords(ordered, slow), p);
  }

  lemma FasterSorted(opportunities: seq<Opportunity>, fast: Variant, slow: Variant)
    requires Served(opportunities, fast) && Served(opportunities, slow)
    requires FasterThan(opportunities, fast, slow)
    requires Served(Sort(opportunities, ByRelease), fast) && Served(Sort(opportunities, ByRelease), slow)
    ensures FasterThan(Sort(opportunities, ByRelease), fast, slow)
  {
    var ordered := Sort(opportunities, ByRelease);
    SortMembers(opportunities, ByRelease);
    forall i | 0 <= i < |ordered| ensures ordered[i].service[fast] <= ordered[i].service[slow] {
      assert ordered[i] in opportunities;
    }
  }

  // ---- Services never overlap ----

  ghost predicate NonNegative(opportunities: seq<Opportunity>, v: Variant)
    requires Served(opportunities, v)
  {
    forall i :: 0 <= i < |opportunities| ==> opportunities[i].service[v] >= 0
  }

  lemma {:induction false} ClockAdvances(ordered: seq<Opportunity>, v: Variant, i: nat, j: nat)
    requires Served(ordered, v) && NonNegative(ordered, v)
    requires i <= j <= |ordered|
    ensures Clock(ordered, v, i) <= Clock(ordered, v, j)
  {
    if i < j {
      ClockAdvances(ordered, v, i, j - 1);
    }
  }

  lemma RecordsInOrder(ordered: seq<Opportunity>, v: Variant, i: nat, j: nat)
    requires Served(ordered, v) && NonNegative(ordered, v)
    requires i < j < |ordered|
    ensures RecordAt(ordered, v, i).completion <= RecordAt(ordered, v, j).start
  {
    ClockAdvances(ordered, v, i + 1, j);
  }

  /** What a fixed-rate row says about its opportunity. */
  ghost predicate Reports(item: Opportunity, r: Record) {
    && r.Done? && WellFormed(r)
    && r.release == item.scheduled && r.capture == item.captured
    && r.release <= r.start <= r.completion
  }

  lemma RecordReports(ordered: seq<Opportunity>, v: Variant, i: nat)
    requires Served(ordered, v) && NonNegative(ordered, v)
    requires i < |ordered|
    ensures Reports(ordered[i], RecordAt(ordered, v, i))
  {
  }

  lemma {:induction false} FixedSequential(ordered: seq<Opportunity>, v: Variant)
    requires Served(ordered, v) && NonNegative(ordered, v)
    ensures Sequential(FixedRecords(ordered, v))
    ensures NoOverlap(FixedRecords(ordered, v))
    ensures forall i :: 0 <= i < |ordered| ==> Reports(ordered[i], FixedRecords(ordered, v)[i])
  {
    var records := FixedRecords(ordered, v);
    forall i | 0 <= i < |records| ensures Reports(ordered[i], records[i]) {
      RecordReports(ordered, v, i);
    }
    forall i, j | 0 <= i < j < |records| ensures records[i].completion <= records[j].start {
      RecordsInOrder(ordered, v, i, j);
    }
    SequentialNoOverlap(records);
  }

  lemma ReportedDutyCycle(ordered: seq<Opportunity>, records: seq<Record>, heavy: set<string>)
    requires |ordered| == |records| && forall i :: 0 <= i < |ordered| ==> Reports(ordered[i], records[i])
    requires EarlyCapture(ordered)
    requires NoOverlap(records)
    ensures HeavyService(records, heavy) <= Horizon(records) && Unclamped(records, heavy)
  {
    if ordered != [] {
      var x :| x in ordered && forall y :: y in ordered ==> x.captured <= y.scheduled;
      var k :| 0 <= k < |ordered| && ordered[k] == x;
      assert Reports(ordered[k], records[k]);
      assert forall i :: 0 <= i < |ordered| ==> ordered[i] in ordered && Reports(ordered[i], records[i]);
    }
    DutyCycleNeverClamped(records, heavy);
  }

  lemma SequentialNoOverlap(records: seq<Record>)
    requires Sequential(records)
    ensures NoOverlap(records)
  {
    ProcessedAll(records);
  }

  /** Something is captured before anything is released. */
  ghost predicate EarlyCapture(opportunities: seq<Opportunity>) {
    opportunities != [] ==> exists x :: x in opportunities && forall y :: y in opportunities ==> x.captured <= y.scheduled
  }

  lemma OnTimeCaptureIsEarly(opportunities: seq<Opportunity>)
    requires forall i :: 0 <= i < |opportunities| ==> opportunities[i].captured <= opportunities[i].scheduled
    ensures EarlyCapture(opportunities)
  {
    if opportunities != [] {
      var ordered := Sort(opportunities, ByRelease);
      SortSorted(opportunities, ByRelease);
      SortMembers(opportunities, ByRelease);
      var x := ordered[0];
      assert x in opportunities;
      forall y | y in opportunities ensures x.captured <= y.scheduled {
        assert y in ordered;
        var j :| 0 <= j < |ordered| && ordered[j] == y;
        assert j > 0 ==> ByRelease(x, y);
      }
    }
  }

  /**
   A fixed-rate run with non-negative service times serves without overlap and never before release, so when some capture
   precedes every release (as when nothing is captured after its own) its duty cycle is never clamped.
   */
  lemma {:induction false} FixedDutyCycle(opportunities: seq<Opportunity>, v: Variant, heavy: set<string>)
    requires Served(opportunities, v) && NonNegative(opportunities, v)
    requires EarlyCapture(opportunities)
    ensures var ordered := Sort(opportunities, ByRelease);
            && Served(ordered, v)
            && var records := FixedRecords(ordered, v);
            && Sequential(records)
            && HeavyService(records, heavy) <= Horizon(records)
            && Unclamped(records, heavy)
  {
    var ordered := Sort(opportunities, ByRelease);
    ServedSorted(opportunities, v);
    SortMembers(opportunities, ByRelease);
    assert forall i :: 0 <= i < |ordered| ==> ordered[i] in opportunities;
    FixedSequential(ordered, v);
    assert EarlyCapture(ordered);
    ReportedDutyCycle(ordered, FixedRecords(ordered, v), heavy);
  }

  // ---- Exactly when the clamp never acts, on the opportunities ----

  /**
   All service together is at most one millisecond, or some release comes so late that the earlier services, begun at some
   capture, would be over by then.
   */
  ghost predicate ServiceFitsHorizon(ordered: seq<Opportunity>, v: Variant)
    requires Served(ordered, v)
  {
    || Demand(ordered, v, 0, |ordered|) <= 1
    || exists i, j :: 0 <= i < |ordered| && 0 <= j < |ordered| && CapturedBefore(ordered, v, i, j)
  }

  ghost predicate CapturedBefore(ordered: seq<Opportunity>, v: Variant, i: nat, j: nat)
    requires Served(ordered, v) && i < |ordered| && j < |ordered|
  {
    ordered[i].captured + Demand(ordered, v, 0, j) <= ordered[j].scheduled
  }

  lemma {:induction false} DemandSplits(ordered: seq<Opportunity>, v: Variant, j: nat, i: nat)
    requires j <= i <= |ordered| && Served(ordered, v)
    ensures Demand(ordered, v, 0, i) == Demand(ordered, v, 0, j) + Demand(ordered, v, j, i)
  {
    if j < i {
      DemandSplits(ordered, v, j, i - 1);
    }
  }

  ghost function Captures(ordered: seq<Opportunity>): set<int> {
    set x | x in ordered :: x.captured
  }

  ghost function ReportedCaptures(records: seq<Record>): set<int> {
    set r | r in records :: r.capture
  }

  ghost predicate Earliest(m: int, times: set<int>) {
    m in times && forall c :: c in times ==> m <= c
  }

  lemma MinCaptureIs(records: seq<Record>)
    requires records != []
    ensures Earliest(MinCapture(records), ReportedCaptures(records))
  {
    var m := MinCapture(records);
    forall c | c in ReportedCaptures(records) ensures m <= c {
      var r :| r in records && r.capture == c;
      var k :| 0 <= k < |records| && records[k] == r;
    }
    var k :| 0 <= k < |records| && records[k].capture == m;
    assert records[k] in records;
  }

  /** The makespan covers all service from the earliest capture exactly when the opportunities say so. */
  lemma MakespanCovers(ordered: seq<Opportunity>, v: Variant, m: int)
    requires Served(ordered, v) && ordered != [] && Earliest(m, Captures(ordered))
    ensures Demand(ordered, v, 0, |ordered|) <= Clock(ordered, v, |ordered|) - m <==>
            exists i, j :: 0 <= i < |ordered| && 0 <= j < |ordered| && CapturedBefore(ordered, v, i, j)
  {
    var n := |ordered|;
    if Demand(ordered, v, 0, n) <= Clock(ordered, v, n) - m {
      var x :| x in ordered && x.captured == m;
      var i :| 0 <= i < n && ordered[i] == x;
      var j := CompletionAttained(ordered, v, n);
      DemandSplits(ordered, v, j, n);
      assert CapturedBefore(ordered, v, i, j);
    }
    if i, j :| 0 <= i < n && 0 <= j < n && CapturedBefore(ordered, v, i, j) {
      DemandSplits(ordered, v, j, n);
      CompletionLowerBound(ordered, v, j, n);
      assert ordered[i].captured in Captures(ordered);
    }
  }

  /** Any run that serves all of `ordered` for its declared time and ends with the fixed-rate run obeys the condition. */
  lemma {:induction false} ClampCondition(records: seq<Record>, ordered: seq<Opportunity>, v: Variant)
    requires Served(ordered, v) && ordered != [] && records != [] && ReportedCaptures(records) == Captures(ordered)
    requires forall i :: 0 <= i < |records| && records[i].Done? ==> records[i].serviceMs >= 0
    requires SumBy(records, ServiceWeight) == Demand(ordered, v, 0, |ordered|)
    requires MaxCompletion(records) == Some(Clock(ordered, v, |ordered|))
    ensures (forall heavy :: Unclamped(records, heavy)) <==> ServiceFitsHorizon(ordered, v)
  {
    NeverClampedIff(records);
    MinCaptureIs(records);
    MakespanCovers(ordered, v, MinCapture(records));
    HorizonIs(records, Clock(ordered, v, |ordered|));
  }

  lemma HorizonIs(records: seq<Record>, end: int)
    requires records != [] && MaxCompletion(records) == Some(end)
    ensures Horizon(records) == Max(1, end - MinCapture(records))
  {
  }

  lemma {:induction false} FixedTotal(ordered: seq<Opportunity>, v: Variant, n: nat)
    requires Served(ordered, v) && n <= |ordered|
    ensures SumBy(FixedRecords(ordered, v)[..n], ServiceWeight) == Demand(ordered, v, 0, n)
  {
    if n > 0 {
      FixedTotal(ordered, v, n - 1);
      var records := FixedRecords(ordered, v);
      assert records[..n][..n - 1] == records[..n - 1] && records[..n][n - 1] == RecordAt(ordered, v, n - 1);
    }
  }

  lemma FixedEnd(ordered: seq<Opportunity>, v: Variant)
    requires Served(ordered, v) && NonNegative(ordered, v) && ordered != []
    ensures MaxCompletion(FixedRecords(ordered, v)) == Some(Clock(ordered, v, |ordered|))
  {
    FixedSequential(ordered, v);
    SequentialEnd(FixedRecords(ordered, v));
  }

  /**
   In a fixed-rate run with non-negative services no choice of heavy workloads is clamped if and only if the opportunities
   satisfy `ServiceFitsHorizon`, which can be checked before the run.
   */
  lemma FixedClampIff(opportunities: seq<Opportunity>, v: Variant)
    requires Served(opportunities, v) && NonNegative(opportunities, v)
    ensures var ordered := Sort(opportunities, ByRelease);
            && Served(ordered, v)
            && ((forall heavy :: Unclamped(FixedRecords(ordered, v), heavy)) <==> ServiceFitsHorizon(ordered, v))
  {
    var ordered := Sort(opportunities, ByRelease);
    ServedSorted(opportunities, v);
    SortMembers(opportunities, ByRelease);
    assert forall i :: 0 <= i < |ordered| ==> ordered[i] in opportunities;
    OrderedClampIff(ordered, v);
  }

  lemma {:induction false} OrderedClampIff(ordered: seq<Opportunity>, v: Variant)
    requires Served(ordered, v) && NonNegative(ordered, v)
    ensures (forall heavy :: Unclamped(FixedRecords(ordered, v), heavy)) <==> ServiceFitsHorizon(ordered, v)
  {
    var records := FixedRecords(ordered, v);
    FixedTotal(ordered, v, |ordered|);
    assert records[..|ordered|] == records;
    FixedSequential(ordered, v);
    if ordered == [] {
      NeverClampedIff(records);
    } else {
      FixedEnd(ordered, v);
      CapturesReported(records, ordered);
      ClampCondition(records, ordered, v);
    }
  }

  lemma CapturesReported(records: seq<Record>, ordered: seq<Opportunity>)
    requires |records| == |ordered| && forall i :: 0 <= i < |records| ==> records[i].capture == ordered[i].captured
    ensures ReportedCaptures(records) == Captures(ordered)
  {
    forall c | c in ReportedCaptures(records) ensures c in Captures(ordered) {
      var r :| r in records && r.capture == c;
      var i :| 0 <= i < |records| && records[i] == r;
      assert ordered[i] in ordered && ordered[i].captured == c;
    }
    forall c | c in Captures(ordered) ensures c in ReportedCaptures(records) {
      var x :| x in ordered && x.captured == c;
      var i :| 0 <= i < |ordered| && ordered[i] == x;
      assert records[i] in records && records[i].capture == c;
    }
  }

  /** Capturing after the release can shrink the horizon below the service: here the clamp does change the value. */
  lemma LateCaptureIsClamped()
    ensures var item := Opportunity("k", "wildfire-stage2", 0, 100, 1, map[B0 := 100]);
            && Served([item], B0)
            && var records := FixedRecords([item], B0);
            && HeavyService(records, {"wildfire-stage2"}) == 100
            && Horizon(records) == 1
            && DutyCycle(records, {"wildfire-stage2"}) == 1.0
  {
    var item := Opportunity("k", "wildfire-stage2", 0, 100, 1, map[B0 := 100]);
    var records := FixedRecords([item], B0);
    assert Clock([item], B0, 0) == 0;
    assert Start([item], B0, 0) == 0;
    assert Clock([item], B0, 1) == 100;
    assert records == [Done("k", "wildfire-stage2", 0, 100, 0, 100, 0, 100, 0, true)];
    assert records[..0] == [];
    assert MaxCompletion(records) == Some(100);
    SumAppend([], records[0], HeavyWeight({"wildfire-stage2"}));
    assert [] + [records[0]] == records;
  }
}
