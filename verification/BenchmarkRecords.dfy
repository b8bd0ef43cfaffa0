/**
 Opportunities, per-opportunity records and the aggregation that a benchmark run reports:
 the shared part of the fixed-rate and orchestrated modes of the benchmark lab.
 Times are integer milliseconds since the start of the run.
 */
module BenchmarkRecords {
  import opened Basics
  import opened Sorting

  datatype Variant = B0 | B1 | O1

  datatype RunError = MissingServiceTime | InvalidWorkload | QueueFull | ClockBackwards

  datatype Result<+T> = Success(value: T) | Failure(error: RunError)

  datatype Opportunity = Opportunity(
    key: string,
    workload: string,
    scheduled: nat,
    captured: nat,
    deadline: nat,
    service: map<Variant, int>)

  /** The row `_record` builds: `Done` has disposition "processed", `Skipped` has "skipped". */
  datatype Record =
    | Done(key: string, workload: string, release: int, capture: int, start: int, completion: int,
           queueLatency: int, serviceMs: int, endToEnd: int, deadlineMissed: bool)
    | Skipped(key: string, workload: string, release: int, capture: int, deadlineMissed: bool)

  predicate Served(opportunities: seq<Opportunity>, v: Variant) {
    forall i :: 0 <= i < |opportunities| ==> v in opportunities[i].service
  }

  function ProcessedRecord(item: Opportunity, release: int, start: int, completion: int): Record {
    Done(item.key, item.workload, release, item.captured, start, completion, start - release,
         completion - start, completion - item.captured, completion > release + item.deadline)
  }

  function SkippedRecord(item: Opportunity): Record {
    Skipped(item.key, item.workload, item.scheduled, item.captured, true)
  }

  /** The arithmetic relations between a processed record's fields. */
  ghost predicate WellFormed(r: Record) {
    r.Done? ==>
      && r.serviceMs == r.completion - r.start
      && r.queueLatency == r.start - r.release
      && r.endToEnd == r.completion - r.capture
  }

  // ---- Aggregation ----

  function Processed(records: seq<Record>): (r: seq<Record>)
    ensures forall i :: 0 <= i < |r| ==> r[i] in records && r[i].Done?
    ensures |r| <= |records|
  {
    if records == [] then []
    else
      var front := Processed(records[..|records| - 1]);
      var last := records[|records| - 1];
      if last.Done? then front + [last] else front
  }

  function Latencies(records: seq<Record>): (r: seq<int>)
    ensures |r| == |Processed(records)|
  {
    var done := Processed(records);
    seq(|done|, i requires 0 <= i < |done| => done[i].endToEnd)
  }

  function QueueDelays(records: seq<Record>): (r: seq<int>)
    ensures |r| == |Processed(records)|
  {
    var done := Processed(records);
    seq(|done|, i requires 0 <= i < |done| => done[i].queueLatency)
  }

  function Misses(records: seq<Record>): (n: nat)
    ensures n <= |records|
  {
    if records == [] then 0
    else Misses(records[..|records| - 1]) + (if records[|records| - 1].deadlineMissed then 1 else 0)
  }

  function SkippedCount(records: seq<Record>): nat {
    if records == [] then 0
    else SkippedCount(records[..|records| - 1]) + (if records[|records| - 1].Done? then 0 else 1)
  }

  /** The misses are the rows marked as missed, and the samples are the fields of the processed rows in their order. */
  lemma {:induction false} MissesCounted(records: seq<Record>)
    ensures Misses(records) == |set i | 0 <= i < |records| && records[i].deadlineMissed|
  {
    if records != [] {
      var n := |records| - 1;
      var front := records[..n];
      MissesCounted(front);
      var before := set i | 0 <= i < |front| && front[i].deadlineMissed;
      var all := set i | 0 <= i < |records| && records[i].deadlineMissed;
      assert all == if records[n].deadlineMissed then before + {n} else before;
    }
  }

  /** How many of the first `n` rows were processed. */
  ghost function ProcessedBefore(records: seq<Record>, n: nat): set<nat>
    requires n <= |records|
  {
    set i: nat | i < n && records[i].Done?
  }

  /** The k-th processed row gives the k-th latency sample and the k-th queueing delay. */
  lemma {:induction false} SamplesInOrder(records: seq<Record>, i: nat)
    requires i < |records| && records[i].Done?
    ensures var k := |ProcessedBefore(records, i)|;
            && |Latencies(records)| == |QueueDelays(records)| == |ProcessedBefore(records, |records|)|
            && k < |Latencies(records)|
            && Latencies(records)[k] == records[i].endToEnd
            && QueueDelays(records)[k] == records[i].queueLatency
  {
    ProcessedInOrder(records, i);
  }

  lemma {:induction false} ProcessedSize(records: seq<Record>)
    ensures |Processed(records)| == |ProcessedBefore(records, |records|)|
  {
    if records != [] {
      var n := |records| - 1;
      ProcessedSize(records[..n]);
      assert ProcessedBefore(records[..n], n) == ProcessedBefore(records, n);
      assert ProcessedBefore(records, n + 1) ==
             if records[n].Done? then ProcessedBefore(records, n) + {n} else ProcessedBefore(records, n);
    }
  }

  lemma {:induction false} ProcessedInOrder(records: seq<Record>, i: nat)
    requires i < |records| && records[i].Done?
    ensures |Processed(records)| == |ProcessedBefore(records, |records|)|
    ensures |ProcessedBefore(records, i)| < |Processed(records)|
    ensures Processed(records)[|ProcessedBefore(records, i)|] == records[i]
  {
    var n := |records| - 1;
    ProcessedSize(records);
    ProcessedSize(records[..n]);
    assert ProcessedBefore(records[..n], n) == ProcessedBefore(records, n);
    if i < n {
      ProcessedInOrder(records[..n], i);
      assert ProcessedBefore(records[..n], i) == ProcessedBefore(records, i);
    }
  }

  lemma {:induction false} ProcessedPlusSkipped(records: seq<Record>)
    ensures |Processed(records)| + SkippedCount(records) == |records|
  {
    if records != [] {
      ProcessedPlusSkipped(records[..|records| - 1]);
    }
  }

  lemma {:induction false} SumMonotone(a: seq<int>, b: seq<int>)
    requires |a| == |b| && forall i :: 0 <= i < |a| ==> a[i] <= b[i]
    ensures SumBy(a, Itself) <= SumBy(b, Itself)
  {
    if a != [] {
      SumMonotone(a[..|a| - 1], b[..|b| - 1]);
    }
  }

  lemma {:induction false} ProcessedAll(records: seq<Record>)
    requires forall i :: 0 <= i < |records| ==> records[i].Done?
    ensures Processed(records) == records
  {
    if records != [] {
      ProcessedAll(records[..|records| - 1]);
      assert records == records[..|records| - 1] + [records[|records| - 1]];
    }
  }

  lemma {:induction false} ProcessedCount(records: seq<Record>, x: Record)
    ensures multiset(Processed(records))[x] == if x.Done? then multiset(records)[x] else 0
  {
    if records != [] {
      var front, last := records[..|records| - 1], records[|records| - 1];
      ProcessedCount(front, x);
      assert records == front + [last];
    }
  }

  lemma ProcessedPermutation(a: seq<Record>, b: seq<Record>)
    requires multiset(a) == multiset(b)
    ensures multiset(Processed(a)) == multiset(Processed(b))
  {
    forall x ensures multiset(Processed(a))[x] == multiset(Processed(b))[x] {
      ProcessedCount(a, x);
      ProcessedCount(b, x);
    }
  }

  // ---- Percentiles ----

  function Ceil(x: real): (c: int)
    ensures x <= c as real < x + 1.0
  {
    -((-x).Floor)
  }

  function Rank(n: nat, p: real): (k: nat)
    requires n > 0
    ensures k < n
  {
    var k := Ceil(p * n as real) - 1;
    if k < 0 then 0 else if k > n - 1 then n - 1 else k
  }

  function Percentile(values: seq<int>, p: real): int {
    if values == [] then 0 else SortInts(values)[Rank(|values|, p)]
  }

  /** Nearest rank: at least a fraction `p` of the samples are at most the percentile, fewer are below it. */
  lemma {:induction false} PercentileIsNearestRank(values: seq<int>, p: real)
    requires values != [] && 0.0 < p <= 1.0
    ensures Percentile(values, p) in values
    ensures CountLe(values, Percentile(values, p)) as real >= p * |values| as real
    ensures CountLe(values, Percentile(values, p) - 1) as real < p * |values| as real
  {
    var k := Rank(|values|, p);
    CountsAtRank(values, k);
    NearestRankBounds(|values|, p);
    BetweenCounts(CountLe(values, Percentile(values, p) - 1), k, CountLe(values, Percentile(values, p)), p * |values| as real);
  }

  lemma BetweenCounts(below: nat, k: nat, upTo: nat, x: real)
    requires below <= k < upTo && k as real < x <= (k + 1) as real
    ensures below as real < x <= upTo as real
  {
  }

  lemma {:induction false} CountsAtRank(values: seq<int>, k: nat)
    requires k < |values|
    ensures SortInts(values)[k] in values
    ensures CountLe(values, SortInts(values)[k] - 1) <= k < CountLe(values, SortInts(values)[k])
  {
    var v := SortInts(values)[k];
    assert v in SortInts(values);
    SortMembers(values, IntLe);
    OrderStatistic(values, v, k);
    OrderStatistic(values, v - 1, k);
  }

  lemma NearestRankBounds(n: nat, p: real)
    requires n > 0 && 0.0 < p <= 1.0
    ensures (Rank(n, p) as real) < p * n as real <= (Rank(n, p) + 1) as real
  {
    var x := p * n as real;
    FractionOf(p, n as real);
    assert 0 <= Ceil(x) - 1 <= n - 1;
  }

  lemma FractionOf(p: real, n: real)
    requires 0.0 < p <= 1.0 && n > 0.0
    ensures 0.0 < p * n <= n
  {
  }

  lemma CeilMonotone(x: real, y: real)
    requires x <= y
    ensures Ceil(x) <= Ceil(y)
  {
  }

  lemma RankMonotone(n: nat, p: real, q: real)
    requires n > 0 && p <= q
    ensures Rank(n, p) <= Rank(n, q)
  {
    var x, y := p * n as real, q * n as real;
    assert y - x == (q - p) * n as real;
    CeilMonotone(x, y);
  }

  /** The reported percentiles are ordered as the fractions that name them. */
  lemma PercentileMonotone(values: seq<int>, p: real, q: real)
    requires p <= q
    ensures Percentile(values, p) <= Percentile(values, q)
  {
    if values != [] {
      RankMonotone(|values|, p, q);
      SortIntsSorted(values);
    }
  }

  function Median(values: seq<int>): real {
    var n := |values|;
    var s := SortInts(values);
    if n == 0 then 0.0
    else if n % 2 == 1 then s[n / 2] as real
    else (s[n / 2 - 1] + s[n / 2]) as real / 2.0
  }

  /** Without samples every statistic is zero. */
  lemma NoSamples(p: real)
    ensures Median([]) == 0.0 && Percentile([], p) == 0
  {
  }

  /** `x` is the k-th smallest sample: more than `k` samples are at most `x`, and no more than `k` are less. */
  ghost predicate HasRank(values: seq<int>, x: int, k: nat) {
    x in values && CountLe(values, x - 1) <= k < CountLe(values, x)
  }

  /** The middle sample, or the mean of the two middle ones. */
  lemma {:induction false} MedianIsMiddle(values: seq<int>) returns (low: int, high: int)
    requires values != []
    ensures HasRank(values, low, (|values| - 1) / 2) && HasRank(values, high, |values| / 2)
    ensures Median(values) == (low + high) as real / 2.0
  {
    low, high := SortInts(values)[(|values| - 1) / 2], SortInts(values)[|values| / 2];
    CountsAtRank(values, (|values| - 1) / 2);
    CountsAtRank(values, |values| / 2);
  }

  /** Whatever the order of the samples, dominance lowers the median and every percentile. */
  lemma DominanceLowersStatistics(a: seq<int>, b: seq<int>, p: real)
    requires Dominates(a, b)
    ensures Percentile(a, p) <= Percentile(b, p)
    ensures Median(a) <= Median(b)
  {
    if a != [] {
      RankByCount(a, b, Rank(|a|, p));
      RankByCount(a, b, |a| / 2);
      if |a| % 2 == 0 {
        RankByCount(a, b, |a| / 2 - 1);
      }
    }
  }

  /** Lowering samples pointwise lowers the median and every percentile. */
  lemma StatisticsMonotone(a: seq<int>, b: seq<int>, p: real)
    requires |a| == |b| && forall i :: 0 <= i < |a| ==> a[i] <= b[i]
    ensures Percentile(a, p) <= Percentile(b, p)
    ensures Median(a) <= Median(b)
  {
    forall x ensures CountLe(b, x) <= CountLe(a, x) {
      CountLeAntitone(a, b, x);
    }
    DominanceLowersStatistics(a, b, p);
  }

  // ---- Histogram ----

  const Edges: seq<int> := [0, 10, 25, 50, 100, 250, 500, 1000]

  predicate InBucket(v: int, i: nat)
    requires i < 7
  {
    Edges[i] <= v < Edges[i + 1]
  }

  /** How many values are at least `lo` and less than `hi`. */
  function CountWithin(values: seq<int>, lo: int, hi: int): int {
    CountLe(values, hi - 1) - CountLe(values, lo - 1)
  }

  function CountInBucket(values: seq<int>, i: nat): int
    requires i < 7
  {
    CountWithin(values, Edges[i], Edges[i + 1])
  }

  lemma CountOneMore(values: seq<int>, n: nat, lo: int, hi: int)
    requires n < |values| && lo <= hi
    ensures CountWithin(values[..n + 1], lo, hi) == CountWithin(values[..n], lo, hi) + (if lo <= values[n] < hi then 1 else 0)
  {
    assert values[..n + 1][..n] == values[..n];
  }

  /**
   The histogram loop: every latency lands in the one bucket that contains it, or in the overflow,
   which also receives negative latencies.
   */
  method Histogram(values: seq<int>) returns (counts: seq<nat>, overflow: nat)
    ensures |counts| == 7
    ensures counts[0] == CountWithin(values, 0, 10) && counts[1] == CountWithin(values, 10, 25)
    ensures counts[2] == CountWithin(values, 25, 50) && counts[3] == CountWithin(values, 50, 100)
    ensures counts[4] == CountWithin(values, 100, 250) && counts[5] == CountWithin(values, 250, 500)
    ensures counts[6] == CountWithin(values, 500, 1000)
    ensures overflow == |values| - CountWithin(values, 0, 1000)
    ensures counts[0] + counts[1] + counts[2] + counts[3] + counts[4] + counts[5] + counts[6] + overflow == |values|
  {
    counts := [0, 0, 0, 0, 0, 0, 0];
    overflow := 0;
    for n := 0 to |values|
      invariant |counts| == 7
      invariant forall i :: 0 <= i < 7 ==> counts[i] == CountInBucket(values[..n], i)
      invariant overflow == n - CountWithin(values[..n], 0, 1000)
    {
      forall i | 0 <= i < 7
        ensures CountInBucket(values[..n + 1], i) == CountInBucket(values[..n], i) + (if InBucket(values[n], i) then 1 else 0)
      {
        CountOneMore(values, n, Edges[i], Edges[i + 1]);
      }
      CountOneMore(values, n, 0, 1000);
      var index := BucketOf(values[n]);
      if index == 7 {
        overflow := overflow + 1;
      } else {
        counts := counts[index := counts[index] + 1];
      }
    }
    assert values[..|values|] == values;
    assert forall i :: 0 <= i < 7 ==> counts[i] == CountInBucket(values, i);
  }

  /** The first bucket that contains `v`, or 7. */
  method BucketOf(v: int) returns (index: nat)
    ensures index <= 7
    ensures forall i :: 0 <= i < 7 ==> (InBucket(v, i) <==> i == index)
    ensures index == 7 <==> !(0 <= v < 1000)
  {
    index := 0;
    while index < 7 && !InBucket(v, index)
      invariant 0 <= index <= 7
      invariant forall i :: 0 <= i < index ==> !InBucket(v, i)
    {
      index := index + 1;
    }
    if index == 7 {
      BucketsCover(v);
    } else {
      OneBucket(v, index);
    }
  }

  lemma OneBucket(v: int, k: nat)
    requires k < 7 && InBucket(v, k)
    ensures 0 <= v < 1000
    ensures forall i :: 0 <= i < 7 && InBucket(v, i) ==> i == k
  {
  }

  lemma BucketsCover(v: int)
    requires forall i :: 0 <= i < 7 ==> !InBucket(v, i)
    ensures !(0 <= v < 1000)
  {
    assert !InBucket(v, 0) && !InBucket(v, 1) && !InBucket(v, 2) && !InBucket(v, 3);
    assert !InBucket(v, 4) && !InBucket(v, 5) && !InBucket(v, 6);
  }

  // ---- Utilisation of a single server ----

  function HeavyWeight(heavy: set<string>): Record -> int {
    (r: Record) => if r.Done? && r.workload in heavy then r.serviceMs else 0
  }

  /** Total service of the processed records whose workload is in `heavy`. */
  function HeavyService(records: seq<Record>, heavy: set<string>): int {
    SumBy(records, HeavyWeight(heavy))
  }

  /** Separate sets of heavy workloads add up, and together all workloads make up the whole service. */
  lemma {:induction false} HeavyServiceAdds(records: seq<Record>, a: set<string>, b: set<string>)
    requires a !! b
    ensures HeavyService(records, a) + HeavyService(records, b) == HeavyService(records, a + b)
    ensures (forall r :: r in records && r.Done? ==> r.workload in a) ==> HeavyService(records, a) == SumBy(records, ServiceWeight)
  {
    if records != [] {
      HeavyServiceAdds(records[..|records| - 1], a, b);
      assert forall r :: r in records[..|records| - 1] ==> r in records;
      assert records[|records| - 1] in records;
    }
  }

  /** Completed services one after another, none starting before the previous one finished. */
  ghost predicate Sequential(records: seq<Record>) {
    && (forall i :: 0 <= i < |records| ==> WellFormed(records[i]) && records[i].Done?)
    && (forall i :: 0 <= i < |records| ==> records[i].start <= records[i].completion)
    && (forall i, j :: 0 <= i < j < |records| ==> records[i].completion <= records[j].start)
  }

  /** Disjoint services inside `[lo, hi]` add up to at most the interval's length. */
  lemma {:induction false} SequentialServiceFits(records: seq<Record>, heavy: set<string>, lo: int, hi: int)
    requires Sequential(records)
    requires lo <= hi
    requires forall i :: 0 <= i < |records| ==> lo <= records[i].start && records[i].completion <= hi
    ensures HeavyService(records, heavy) <= hi - lo
  {
    if records != [] {
      var last := records[|records| - 1];
      SequentialServiceFits(records[..|records| - 1], heavy, lo, last.start);
    }
  }

  function MaxCompletion(records: seq<Record>): (m: Option<int>)
    ensures m.Some? ==> forall i :: 0 <= i < |records| && records[i].Done? ==> records[i].completion <= m.value
    ensures m.Some? ==> exists i :: 0 <= i < |records| && records[i].Done? && records[i].completion == m.value
    ensures m.None? ==> forall i :: 0 <= i < |records| ==> !records[i].Done?
  {
    if records == [] then None
    else
      var front := MaxCompletion(records[..|records| - 1]);
      var last := records[|records| - 1];
      if last.Done? && (front.None? || front.value < last.completion) then Some(last.completion)
      else
        assert forall i :: 0 <= i < |records| - 1 ==> records[..|records| - 1][i] == records[i];
        front
  }

  /** The last of several services one after another completes last. */
  lemma {:induction false} SequentialEnd(records: seq<Record>)
    requires Sequential(records) && records != []
    ensures MaxCompletion(records) == Some(records[|records| - 1].completion)
  {
    var n := |records| - 1;
    assert records[n].Done?;
    forall i | 0 <= i < |records| ensures records[i].completion <= records[n].completion {
      if i < n {
        assert records[i].completion <= records[n].start <= records[n].completion;
      }
    }
  }

  /** The order of the records does not matter for the last completion. */
  lemma MaxCompletionOrder(a: seq<Record>, b: seq<Record>)
    requires forall r :: r in a <==> r in b
    ensures MaxCompletion(a) == MaxCompletion(b)
  {
    MaxCompletionWithin(a, b);
    MaxCompletionWithin(b, a);
  }

  lemma MaxCompletionWithin(a: seq<Record>, b: seq<Record>)
    requires forall r :: r in a ==> r in b
    ensures MaxCompletion(a).Some? ==> MaxCompletion(b).Some? && MaxCompletion(a).value <= MaxCompletion(b).value
  {
    if MaxCompletion(a).Some? {
      var i :| 0 <= i < |a| && a[i].Done? && a[i].completion == MaxCompletion(a).value;
      assert a[i] in b;
    }
  }

  function MinCapture(records: seq<Record>): (m: int)
    requires records != []
    ensures forall i :: 0 <= i < |records| ==> m <= records[i].capture
    ensures exists i :: 0 <= i < |records| && records[i].capture == m
  {
    var last := records[|records| - 1].capture;
    if |records| == 1 then last
    else
      var front := MinCapture(records[..|records| - 1]);
      assert forall i :: 0 <= i < |records| - 1 ==> records[..|records| - 1][i] == records[i];
      if last < front then last else front
  }

  function Horizon(records: seq<Record>): (h: int)
    ensures h >= 1
  {
    var m := MaxCompletion(records);
    var last := if m.Some? then m.value else 1;
    var first := if records == [] then 0 else MinCapture(records);
    if last - first < 1 then 1 else last - first
  }

  /** From the earliest capture to the latest completion, to 1 when nothing completed, and at least one millisecond. */
  lemma HorizonSpans(records: seq<Record>, first: int, last: int)
    requires forall i :: 0 <= i < |records| ==> first <= records[i].capture
    requires exists i :: 0 <= i < |records| && records[i].capture == first
    requires forall i :: 0 <= i < |records| && records[i].Done? ==> records[i].completion <= last
    requires if forall i :: 0 <= i < |records| ==> records[i].Skipped? then last == 1
             else exists i :: 0 <= i < |records| && records[i].Done? && records[i].completion == last
    ensures Horizon(records) == Max(1, last - first)
  {
    var i :| 0 <= i < |records| && records[i].capture == first;
    assert MinCapture(records) <= records[i].capture;
    var j :| 0 <= j < |records| && records[j].capture == MinCapture(records);
    assert first <= records[j].capture;
    var m := MaxCompletion(records);
    if m.Some? {
      var k :| 0 <= k < |records| && records[k].Done? && records[k].completion == m.value;
      assert !records[k].Skipped?;
    } else {
      forall i | 0 <= i < |records| ensures records[i].Skipped? {
        assert !records[i].Done?;
      }
    }
  }

  /** `heavy_model_duty_cycle` before rounding. */
  function DutyCycle(records: seq<Record>, heavy: set<string>): real
  {
    var share := HeavyService(records, heavy) as real / Horizon(records) as real;
    if share > 1.0 then 1.0 else share
  }

  /** Only processed records contribute to heavy service. */
  lemma {:induction false} HeavyServiceOfProcessed(records: seq<Record>, heavy: set<string>)
    ensures HeavyService(records, heavy) == HeavyService(Processed(records), heavy)
  {
    if records != [] {
      var front, last := records[..|records| - 1], records[|records| - 1];
      HeavyServiceOfProcessed(front, heavy);
      if last.Done? {
        assert (Processed(front) + [last])[..|Processed(front)|] == Processed(front);
      }
    }
  }

  /** The services of a run overlap nowhere: its processed records can be listed one after another. */
  ghost predicate NoOverlap(records: seq<Record>) {
    exists order: seq<Record> :: multiset(order) == multiset(Processed(records)) && Sequential(order)
  }

  /**
   When the earliest capture precedes every start, heavy-model service never exceeds the run horizon,
   so clamping the duty cycle to one never changes it.
   */
  lemma DutyCycleNeverClamped(records: seq<Record>, heavy: set<string>)
    requires forall i :: 0 <= i < |records| ==> WellFormed(records[i])
    requires NoOverlap(records)
    requires forall i :: 0 <= i < |records| && records[i].Done? ==> MinCapture(records) <= records[i].start
    ensures HeavyService(records, heavy) <= Horizon(records)
    ensures Unclamped(records, heavy)
  {
    var order: seq<Record> :| multiset(order) == multiset(Processed(records)) && Sequential(order);
    ServiceFits(records, order, heavy);
    ShareAtMostOne(HeavyService(records, heavy), Horizon(records));
  }

  lemma {:induction false} ServiceFits(records: seq<Record>, order: seq<Record>, heavy: set<string>)
    requires multiset(order) == multiset(Processed(records)) && Sequential(order)
    requires forall i :: 0 <= i < |records| && records[i].Done? ==> MinCapture(records) <= records[i].start
    ensures HeavyService(records, heavy) <= Horizon(records)
  {
    HeavyServiceOfProcessed(records, heavy);
    SumPermutation(order, Processed(records), HeavyWeight(heavy));
    SamePermutationMembers(order, Processed(records));
    if order != [] {
      assert order[0] in Processed(records);
      var lo, hi := MinCapture(records), MaxCompletion(records).value;
      forall i | 0 <= i < |order|
        ensures lo <= order[i].start && order[i].completion <= hi
      {
        assert order[i] in Processed(records);
        assert order[i] in records;
      }
      SequentialServiceFits(order, heavy, lo, hi);
    }
  }

  /** The clamp does not change the value. */
  ghost predicate Unclamped(records: seq<Record>, heavy: set<string>) {
    DutyCycle(records, heavy) == HeavyService(records, heavy) as real / Horizon(records) as real
  }

  lemma UnclampedIff(records: seq<Record>, heavy: set<string>)
    ensures Unclamped(records, heavy) <==> HeavyService(records, heavy) <= Horizon(records)
  {
    var part, whole := HeavyService(records, heavy), Horizon(records);
    ShareAtMostOne(part, whole);
  }

  function ServiceWeight(r: Record): int {
    if r.Done? then r.serviceMs else 0
  }

  /** The workloads that occur in `records`. */
  function Workloads(records: seq<Record>): set<string> {
    set r | r in records :: r.workload
  }

  lemma {:induction false} HeavyAtMostTotal(records: seq<Record>, heavy: set<string>)
    requires forall i :: 0 <= i < |records| && records[i].Done? ==> records[i].serviceMs >= 0
    ensures HeavyService(records, heavy) <= SumBy(records, ServiceWeight)
    ensures Workloads(records) <= heavy ==> HeavyService(records, heavy) == SumBy(records, ServiceWeight)
  {
    if records != [] {
      var front, last := records[..|records| - 1], records[|records| - 1];
      HeavyAtMostTotal(front, heavy);
      assert last in records && forall r :: r in front ==> r in records;
    }
  }

  /** With non-negative services, no choice of heavy workloads is ever clamped if and only if all service together fits. */
  lemma NeverClampedIff(records: seq<Record>)
    requires forall i :: 0 <= i < |records| && records[i].Done? ==> records[i].serviceMs >= 0
    ensures (forall heavy :: Unclamped(records, heavy)) <==> SumBy(records, ServiceWeight) <= Horizon(records)
  {
    var all := Workloads(records);
    UnclampedIff(records, all);
    HeavyAtMostTotal(records, all);
    if SumBy(records, ServiceWeight) <= Horizon(records) {
      forall heavy ensures Unclamped(records, heavy) {
        UnclampedIff(records, heavy);
        HeavyAtMostTotal(records, heavy);
      }
    }
  }

  lemma ShareAtMostOne(part: int, whole: int)
    requires 1 <= whole
    ensures part as real / whole as real <= 1.0 <==> part <= whole
  {
  }
}
