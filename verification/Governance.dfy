/**
 Benchmark governance: alternation checking, invalidation reasons kept per block index, pairing, and the bootstrap
 interval. Random draws and the sample's telemetry are inputs.
 */
module Governance {
  import opened Basics
  import opened Sorting

  datatype Variant = B0 | B1 | O1

  datatype Platform = Platform(underVoltage: bool, frequencyCapped: bool, throttled: bool, swapUsedMb: real,
                               majorFaults: int, memoryPsi: real)

  datatype Limits = Limits(maxMemoryPsi: real, maxMajorFaults: int)

  datatype Sample = Sample(block: nat, pair: string, variant: Variant, excluded: bool, declared: seq<string>,
                           platform: Option<Platform>, energyGuardrailPassed: Option<bool>)

  /** The model validator: an excluded sample states a reason. */
  predicate Valid(s: Sample) {
    s.excluded ==> s.declared != []
  }

  predicate AllValid(samples: seq<Sample>) {
    forall i :: 0 <= i < |samples| ==> Valid(samples[i])
  }

  function PlatformReasons(p: Platform, limits: Limits): set<string> {
    (if p.underVoltage then {"under_voltage_current"} else {}) +
    (if p.frequencyCapped then {"frequency_capped_current"} else {}) +
    (if p.throttled then {"throttled_current"} else {}) +
    (if p.swapUsedMb > 0.0 then {"swap_in_use"} else {}) +
    (if p.majorFaults > limits.maxMajorFaults then {"major_faults_above_envelope"} else {}) +
    (if p.memoryPsi > limits.maxMemoryPsi then {"memory_pressure_above_envelope"} else {})
  }

  /** Everything that speaks against this sample itself. */
  function OwnReasons(s: Sample, limits: Limits): set<string> {
    (set r | r in s.declared) +
    (if s.platform.Some? then PlatformReasons(s.platform.value, limits) else {}) +
    (if s.energyGuardrailPassed == Some(false) then {"quality_guardrail_failed"} else {})
  }

  /** Nothing was declared or observed against the sample. */
  ghost predicate Spotless(s: Sample, limits: Limits) {
    && s.declared == []
    && s.energyGuardrailPassed != Some(false)
    && (s.platform.Some? ==>
          var p := s.platform.value;
          && !p.underVoltage && !p.frequencyCapped && !p.throttled
          && p.swapUsedMb <= 0.0 && p.majorFaults <= limits.maxMajorFaults && p.memoryPsi <= limits.maxMemoryPsi)
  }

  lemma PlatformIff(p: Platform, limits: Limits)
    ensures var r := PlatformReasons(p, limits);
            && (p.underVoltage ==> "under_voltage_current" in r) && (p.frequencyCapped ==> "frequency_capped_current" in r)
            && (p.throttled ==> "throttled_current" in r) && (p.swapUsedMb > 0.0 ==> "swap_in_use" in r)
            && (p.majorFaults > limits.maxMajorFaults ==> "major_faults_above_envelope" in r)
            && (p.memoryPsi > limits.maxMemoryPsi ==> "memory_pressure_above_envelope" in r)
  {
  }

  lemma QuietPlatform(p: Platform, limits: Limits)
    requires !p.underVoltage && !p.frequencyCapped && !p.throttled && p.swapUsedMb <= 0.0
    requires p.majorFaults <= limits.maxMajorFaults && p.memoryPsi <= limits.maxMemoryPsi
    ensures PlatformReasons(p, limits) == {}
  {
  }

  lemma SpotlessIff(s: Sample, limits: Limits)
    ensures OwnReasons(s, limits) == {} <==> Spotless(s, limits)
  {
    if s.platform.Some? {
      PlatformIff(s.platform.value, limits);
      if Spotless(s, limits) {
        QuietPlatform(s.platform.value, limits);
      }
      assert PlatformReasons(s.platform.value, limits) <= OwnReasons(s, limits);
    }
    if s.declared != [] {
      assert s.declared[0] in OwnReasons(s, limits);
    }
    if s.energyGuardrailPassed == Some(false) {
      assert "quality_guardrail_failed" in OwnReasons(s, limits);
    }
  }

  // ---- Alternation ----

  function Unexcluded(samples: seq<Sample>): seq<Sample> {
    if samples == [] then []
    else
      var front, last := Unexcluded(samples[..|samples| - 1]), samples[|samples| - 1];
      if last.excluded then front else front + [last]
  }

  function Expected(block: nat): Variant {
    if block % 3 == 0 then B0 else if block % 3 == 1 then B1 else O1
  }

  datatype Failure = DuplicateBlock | Alternation(block: nat) | BlockGap

  const ByBlock: (Sample, Sample) -> bool := (a: Sample, b: Sample) => a.block <= b.block

  ghost predicate DistinctBlocks(s: seq<Sample>) {
    forall i, j :: 0 <= i < j < |s| ==> s[i].block != s[j].block
  }

  predicate Uses(s: seq<Sample>, b: nat) {
    exists k :: 0 <= k < |s| && s[k].block == b
  }

  /** `b` lies strictly between two used indices and is not used. */
  ghost predicate Hole(s: seq<Sample>, b: nat) {
    && !Uses(s, b)
    && (exists i :: 0 <= i < |s| && s[i].block < b)
    && (exists j :: 0 <= j < |s| && b < s[j].block)
  }

  ghost predicate Gap(s: seq<Sample>) {
    exists b: nat :: Hole(s, b)
  }

  /** `_alternation_failures`: what each failure says about the unexcluded samples, and when there is none. */
  method AlternationFailures(samples: seq<Sample>) returns (failures: set<Failure>)
    ensures DuplicateBlock in failures <==>
            exists i, j :: 0 <= i < j < |samples| && !samples[i].excluded && !samples[j].excluded
                           && samples[i].block == samples[j].block
    ensures forall b :: Alternation(b) in failures <==>
              exists i :: 0 <= i < |samples| && !samples[i].excluded && samples[i].block == b
                          && samples[i].variant != (if b % 3 == 0 then B0 else if b % 3 == 1 then B1 else O1)
    ensures BlockGap in failures <==> exists lo: nat, b: nat, hi: nat :: Skips(samples, lo, b, hi)
    ensures failures == {} <==> OnPlan(samples)
  {
    var active := Sort(Unexcluded(samples), ByBlock);
    SortSorted(Unexcluded(samples), ByBlock);
    DistinctIff(samples);
    SortedLists(samples);
    PlanIff(samples);
    failures := SortedFailures(active, samples);
  }

  /** The checks on the active samples in block order. */
  method SortedFailures(active: seq<Sample>, ghost samples: seq<Sample>) returns (failures: set<Failure>)
    requires SortedBy(active, ByBlock) && Lists(active, samples)
    ensures DuplicateBlock in failures <==> !DistinctBlocks(active)
    ensures forall b :: Alternation(b) in failures <==>
              exists i :: 0 <= i < |samples| && !samples[i].excluded && samples[i].block == b
                          && samples[i].variant != (if b % 3 == 0 then B0 else if b % 3 == 1 then B1 else O1)
    ensures BlockGap in failures <==> exists lo: nat, b: nat, hi: nat :: Skips(samples, lo, b, hi)
    ensures failures == {} <==>
            && DistinctBlocks(active) && !Gap(active)
            && forall i :: 0 <= i < |active| ==> active[i].variant == Expected(active[i].block)
  {
    failures := AlternationLoop(active);
    if active != [] {
      var gap := HasGap(active);
      if gap {
        failures := failures + {BlockGap};
      }
    }
    NoFailures(active, failures);
    GapIff(active, samples);
    forall b ensures Alternation(b) in failures <==>
        exists i :: 0 <= i < |samples| && !samples[i].excluded && samples[i].block == b
                    && samples[i].variant != (if b % 3 == 0 then B0 else if b % 3 == 1 then B1 else O1)
    {
      WrongIff(active, samples, b);
    }
  }

  /** An unexcluded sample is on block `b`. */
  ghost predicate Used(samples: seq<Sample>, b: nat) {
    exists i :: 0 <= i < |samples| && !samples[i].excluded && samples[i].block == b
  }

  /** Block `b` is left out between two used ones. */
  ghost predicate Skips(samples: seq<Sample>, lo: nat, b: nat, hi: nat) {
    Used(samples, lo) && lo < b < hi && Used(samples, hi) && !Used(samples, b)
  }

  /** The unexcluded samples are on different blocks without a gap, and B0, B1 and O1 take turns with the block index. */
  ghost predicate OnPlan(samples: seq<Sample>) {
    && (forall i, j :: 0 <= i < j < |samples| && !samples[i].excluded && !samples[j].excluded ==>
          samples[i].block != samples[j].block)
    && (forall lo: nat, b: nat, hi: nat :: !Skips(samples, lo, b, hi))
    && (forall i :: 0 <= i < |samples| && !samples[i].excluded ==>
          match samples[i].variant
          case B0 => samples[i].block % 3 == 0
          case B1 => samples[i].block % 3 == 1
          case O1 => samples[i].block % 3 == 2)
  }

  lemma {:induction false} UnexcludedMembers(samples: seq<Sample>)
    ensures forall s :: s in Unexcluded(samples) <==> s in samples && !s.excluded
  {
    if samples != [] {
      UnexcludedMembers(samples[..|samples| - 1]);
      assert samples == samples[..|samples| - 1] + [samples[|samples| - 1]];
    }
  }

  /** `active` lists the unexcluded samples in some order. */
  ghost predicate Lists(active: seq<Sample>, samples: seq<Sample>) {
    forall s :: s in active <==> s in samples && !s.excluded
  }

  lemma SortedLists(samples: seq<Sample>)
    ensures Lists(Sort(Unexcluded(samples), ByBlock), samples)
  {
    SortMembers(Unexcluded(samples), ByBlock);
    UnexcludedMembers(samples);
  }

  lemma UsedIff(active: seq<Sample>, samples: seq<Sample>, b: nat)
    requires Lists(active, samples)
    ensures Uses(active, b) <==> Used(samples, b)
  {
    if Uses(active, b) {
      var k :| 0 <= k < |active| && active[k].block == b;
      assert active[k] in active;
      var i :| 0 <= i < |samples| && samples[i] == active[k];
    }
    if Used(samples, b) {
      var i :| 0 <= i < |samples| && !samples[i].excluded && samples[i].block == b;
      assert samples[i] in samples;
      var k :| 0 <= k < |active| && active[k] == samples[i];
    }
  }

  lemma GapIff(active: seq<Sample>, samples: seq<Sample>)
    requires Lists(active, samples)
    ensures Gap(active) <==> exists lo: nat, b: nat, hi: nat :: Skips(samples, lo, b, hi)
  {
    forall b: nat ensures Uses(active, b) <==> Used(samples, b) {
      UsedIff(active, samples, b);
    }
    if Gap(active) {
      var b: nat :| Hole(active, b);
      var i :| 0 <= i < |active| && active[i].block < b;
      var j :| 0 <= j < |active| && b < active[j].block;
      assert Uses(active, active[i].block) && Uses(active, active[j].block);
      assert Skips(samples, active[i].block, b, active[j].block);
    }
    if lo: nat, b: nat, hi: nat :| Skips(samples, lo, b, hi) {
      SkippedHole(active, samples, lo, b, hi);
    }
  }

  lemma SkippedHole(active: seq<Sample>, samples: seq<Sample>, lo: nat, b: nat, hi: nat)
    requires Lists(active, samples) && Skips(samples, lo, b, hi)
    ensures Hole(active, b)
  {
    UsedIff(active, samples, lo);
    UsedIff(active, samples, b);
    UsedIff(active, samples, hi);
  }

  lemma SomeMember(active: seq<Sample>, samples: seq<Sample>, p: Sample -> bool)
    requires Lists(active, samples)
    ensures (exists i :: 0 <= i < |active| && p(active[i])) <==>
            exists i :: 0 <= i < |samples| && !samples[i].excluded && p(samples[i])
  {
    if i :| 0 <= i < |active| && p(active[i]) {
      assert active[i] in active;
      var k :| 0 <= k < |samples| && samples[k] == active[i];
    }
    if i :| 0 <= i < |samples| && !samples[i].excluded && p(samples[i]) {
      assert samples[i] in samples;
      var k :| 0 <= k < |active| && active[k] == samples[i];
    }
  }

  lemma WrongIff(active: seq<Sample>, samples: seq<Sample>, b: nat)
    requires Lists(active, samples)
    ensures (exists i :: 0 <= i < |active| && active[i].block == b && active[i].variant != Expected(b)) <==>
            exists i :: 0 <= i < |samples| && !samples[i].excluded && samples[i].block == b
                        && samples[i].variant != (if b % 3 == 0 then B0 else if b % 3 == 1 then B1 else O1)
  {
    SomeMember(active, samples, (s: Sample) => s.block == b && s.variant != Expected(b));
  }

  lemma AllMembers(active: seq<Sample>, samples: seq<Sample>, p: Sample -> bool)
    requires Lists(active, samples)
    ensures (forall i :: 0 <= i < |active| ==> p(active[i])) <==>
            forall i :: 0 <= i < |samples| && !samples[i].excluded ==> p(samples[i])
  {
    SomeMember(active, samples, (s: Sample) => !p(s));
  }

  lemma PlanIff(samples: seq<Sample>)
    ensures OnPlan(samples) <==> Alternating(samples)
  {
    var active := Sort(Unexcluded(samples), ByBlock);
    DistinctIff(samples);
    SortedLists(samples);
    GapIff(active, samples);
    VariantsIff(active, samples);
  }

  lemma VariantsIff(active: seq<Sample>, samples: seq<Sample>)
    requires Lists(active, samples)
    ensures (forall i :: 0 <= i < |active| ==> active[i].variant == Expected(active[i].block)) <==>
            forall i :: 0 <= i < |samples| && !samples[i].excluded ==>
                          match samples[i].variant
                          case B0 => samples[i].block % 3 == 0
                          case B1 => samples[i].block % 3 == 1
                          case O1 => samples[i].block % 3 == 2
  {
    AllMembers(active, samples, (s: Sample) => s.variant == Expected(s.block));
    assert forall s: Sample :: s.variant == Expected(s.block) <==>
      match s.variant
      case B0 => s.block % 3 == 0
      case B1 => s.block % 3 == 1
      case O1 => s.block % 3 == 2;
  }

  /** The planned order B0, B1, O1, B0, ... from block 0 on has no failure at any length. */
  lemma PlannedOrder(samples: seq<Sample>)
    requires forall i :: 0 <= i < |samples| ==> !samples[i].excluded && samples[i].block == i
    requires forall i :: 0 <= i < |samples| ==>
                         samples[i].variant == if i % 3 == 0 then B0 else if i % 3 == 1 then B1 else O1
    ensures OnPlan(samples)
  {
    forall lo: nat, b: nat, hi: nat ensures !Skips(samples, lo, b, hi) {
      if Used(samples, hi) && b < hi {
        assert samples[b].block == b;
      }
    }
  }

  lemma NoFailures(active: seq<Sample>, failures: set<Failure>)
    requires DuplicateBlock in failures <==> !DistinctBlocks(active)
    requires forall b :: Alternation(b) in failures <==>
               exists i :: 0 <= i < |active| && active[i].block == b && active[i].variant != Expected(b)
    requires BlockGap in failures <==> Gap(active)
    ensures failures == {} <==>
            && DistinctBlocks(active) && !Gap(active)
            && forall i :: 0 <= i < |active| ==> active[i].variant == Expected(active[i].block)
  {
    if failures == {} {
      forall i | 0 <= i < |active| ensures active[i].variant == Expected(active[i].block) {
        assert Alternation(active[i].block) !in failures;
      }
    } else {
      var f :| f in failures;
      if f.Alternation? {
        assert Alternation(f.block) in failures;
      }
    }
  }

  method AlternationLoop(active: seq<Sample>) returns (failures: set<Failure>)
    ensures DuplicateBlock in failures <==> !DistinctBlocks(active)
    ensures forall b :: Alternation(b) in failures <==>
              exists i :: 0 <= i < |active| && active[i].block == b && active[i].variant != Expected(b)
    ensures BlockGap !in failures
  {
    var seen: set<nat> := {};
    failures := {};
    for n := 0 to |active|
      invariant forall b :: b in seen <==> exists i :: 0 <= i < n && active[i].block == b
      invariant DuplicateBlock in failures <==> !DistinctBlocks(active[..n])
      invariant forall b :: Alternation(b) in failures <==>
                  exists i :: 0 <= i < n && active[i].block == b && active[i].variant != Expected(b)
      invariant BlockGap !in failures
    {
      var sample := active[n];
      DistinctStep(active, n);
      if sample.block in seen {
        failures := failures + {DuplicateBlock};
      }
      seen := seen + {sample.block};
      if sample.variant != Expected(sample.block) {
        failures := failures + {Alternation(sample.block)};
      }
    }
    assert active[..|active|] == active;
  }

  lemma DistinctStep(s: seq<Sample>, n: nat)
    requires n < |s|
    ensures DistinctBlocks(s[..n + 1]) <==> DistinctBlocks(s[..n]) && forall i :: 0 <= i < n ==> s[i].block != s[n].block
  {
    var t := s[..n + 1];
    if DistinctBlocks(t) {
      forall i, j | 0 <= i < j < n ensures s[..n][i].block != s[..n][j].block {
        assert t[i] == s[i] && t[j] == s[j];
      }
      forall i | 0 <= i < n ensures s[i].block != s[n].block {
        assert t[i] == s[i] && t[n] == s[n];
      }
    }
    if DistinctBlocks(s[..n]) && forall i :: 0 <= i < n ==> s[i].block != s[n].block {
      forall i, j | 0 <= i < j < |t| ensures t[i].block != t[j].block {
        if j < n {
          assert s[..n][i] == t[i] && s[..n][j] == t[j];
        }
      }
    }
  }

  /** Looks for an index between the first and the last that no sample uses. */
  method HasGap(active: seq<Sample>) returns (gap: bool)
    requires active != [] && SortedBy(active, ByBlock)
    ensures gap <==> Gap(active)
  {
    var lo, hi := active[0].block, active[|active| - 1].block;
    SortedEnds(active);
    assert Uses(active, lo) && Uses(active, hi);
    for b := lo to hi + 1
      invariant forall c: nat :: lo <= c < b ==> Uses(active, c)
    {
      if !Uses(active, b) {
        assert active[0].block < b < active[|active| - 1].block;
        assert Hole(active, b);
        return true;
      }
    }
    gap := false;
    forall b: nat ensures !Hole(active, b) {
      if lo <= b <= hi {
        assert Uses(active, b);
      }
    }
  }

  lemma SortedEnds(active: seq<Sample>)
    requires active != [] && SortedBy(active, ByBlock)
    ensures forall i :: 0 <= i < |active| ==> active[0].block <= active[i].block <= active[|active| - 1].block
  {
    forall i | 0 <= i < |active| ensures active[0].block <= active[i].block <= active[|active| - 1].block {
      assert i == 0 || ByBlock(active[0], active[i]);
      assert i == |active| - 1 || ByBlock(active[i], active[|active| - 1]);
    }
  }

  // ---- Balanced variants ----

  /** Sorted, distinct and gapless blocks are consecutive. */
  lemma {:induction false} Consecutive(active: seq<Sample>, i: nat)
    requires SortedBy(active, ByBlock) && DistinctBlocks(active) && !Gap(active)
    requires i < |active|
    ensures active[i].block == active[0].block + i
  {
    if i > 0 {
      Consecutive(active, i - 1);
      StepByOne(active, i);
    }
  }

  lemma StepByOne(active: seq<Sample>, i: nat)
    requires SortedBy(active, ByBlock) && DistinctBlocks(active) && !Gap(active)
    requires 0 < i < |active|
    ensures active[i].block == active[i - 1].block + 1
  {
    assert ByBlock(active[i - 1], active[i]);
    assert active[i - 1].block != active[i].block;
    var b := active[i - 1].block + 1;
    if b < active[i].block {
      forall k | 0 <= k < |active| ensures active[k].block != b {
        if k < i - 1 {
          assert ByBlock(active[k], active[i - 1]);
        } else if k > i {
          assert ByBlock(active[i], active[k]);
        }
      }
      assert active[i - 1].block < b < active[i].block;
      assert Hole(active, b);
    }
  }

  function IsVariant(v: Variant): Sample -> int {
    (s: Sample) => if s.variant == v then 1 else 0
  }

  /** How many samples have variant `v`. */
  function CountVariant(samples: seq<Sample>, v: Variant): int {
    SumBy(samples, IsVariant(v))
  }

  /** Variants follow the block index from `lo` on. */
  ghost predicate Alternates(active: seq<Sample>, lo: nat) {
    forall i :: 0 <= i < |active| ==> active[i].variant == Expected(lo + i)
  }

  lemma ThreeInARow(x: nat, v: Variant)
    ensures (if Expected(x) == v then 1 else 0) + (if Expected(x + 1) == v then 1 else 0) +
            (if Expected(x + 2) == v then 1 else 0) == 1
  {
  }

  lemma {:induction false} AlternatingCounts(active: seq<Sample>, lo: nat, v: Variant)
    requires Alternates(active, lo)
    ensures |active| / 3 <= CountVariant(active, v) <= (|active| + 2) / 3
    decreases |active|
  {
    var n := |active|;
    if n >= 3 {
      AlternatingCounts(active[..n - 3], lo, v);
      LastThree(active, v);
      ThreeInARow(lo + n - 3, v);
    } else {
      FewCounts(active, lo, v);
    }
  }

  lemma FewCounts(active: seq<Sample>, lo: nat, v: Variant)
    requires Alternates(active, lo) && |active| < 3
    ensures |active| / 3 <= CountVariant(active, v) <= (|active| + 2) / 3
  {
    if |active| > 0 {
      SumAppend([], active[0], IsVariant(v));
      assert [] + [active[0]] == [active[0]];
      if |active| == 2 {
        SumAppend([active[0]], active[1], IsVariant(v));
        assert active == [active[0]] + [active[1]];
        ThreeInARow(lo, v);
      } else {
        assert active == [active[0]];
      }
    }
  }

  lemma LastThree(active: seq<Sample>, v: Variant)
    requires |active| >= 3
    ensures var n := |active|;
            CountVariant(active, v) == CountVariant(active[..n - 3], v) + IsVariant(v)(active[n - 3]) +
                                       IsVariant(v)(active[n - 2]) + IsVariant(v)(active[n - 1])
  {
    var n := |active|;
    SumAppend(active[..n - 1], active[n - 1], IsVariant(v));
    SumAppend(active[..n - 2], active[n - 2], IsVariant(v));
    SumAppend(active[..n - 3], active[n - 3], IsVariant(v));
    assert active == active[..n - 1] + [active[n - 1]];
    assert active[..n - 1] == active[..n - 2] + [active[n - 2]];
    assert active[..n - 2] == active[..n - 3] + [active[n - 3]];
  }

  /** What an empty list of alternation failures means. */
  ghost predicate Alternating(samples: seq<Sample>) {
    var active := Sort(Unexcluded(samples), ByBlock);
    && DistinctBlocks(active) && !Gap(active)
    && forall i :: 0 <= i < |active| ==> active[i].variant == Expected(active[i].block)
  }

  lemma SortedAlternates(active: seq<Sample>)
    requires SortedBy(active, ByBlock) && DistinctBlocks(active) && !Gap(active) && active != []
    requires forall i :: 0 <= i < |active| ==> active[i].variant == Expected(active[i].block)
    ensures Alternates(active, active[0].block)
  {
    forall i | 0 <= i < |active| ensures active[i].variant == Expected(active[0].block + i) {
      Consecutive(active, i);
    }
  }

  /** The positions of the unexcluded samples of variant `v`. */
  ghost function Turns(samples: seq<Sample>, v: Variant): set<nat> {
    set i: nat | i < |samples| && !samples[i].excluded && samples[i].variant == v
  }

  lemma {:induction false} TurnsCounted(samples: seq<Sample>, v: Variant)
    ensures |Turns(samples, v)| == CountVariant(Unexcluded(samples), v)
  {
    if samples != [] {
      var n := |samples| - 1;
      TurnsCounted(samples[..n], v);
      TurnsStep(samples, v);
      if !samples[n].excluded {
        SumAppend(Unexcluded(samples[..n]), samples[n], IsVariant(v));
      }
    }
  }

  lemma TurnsStep(samples: seq<Sample>, v: Variant)
    requires samples != []
    ensures var n := |samples| - 1;
            |Turns(samples, v)| == |Turns(samples[..n], v)| + (if !samples[n].excluded && samples[n].variant == v then 1 else 0)
  {
    var n := |samples| - 1;
    var before := Turns(samples[..n], v);
    assert Turns(samples, v) == if !samples[n].excluded && samples[n].variant == v then before + {n} else before;
  }

  /** If no alternation failure is reported, the unexcluded samples of any two variants differ in number by at most one. */
  lemma BalancedVariants(samples: seq<Sample>, v: Variant, w: Variant)
    requires OnPlan(samples)
    ensures -1 <= |Turns(samples, v)| - |Turns(samples, w)| <= 1
  {
    PlanIff(samples);
    TurnsCounted(samples, v);
    TurnsCounted(samples, w);
    var active := Sort(Unexcluded(samples), ByBlock);
    SortSorted(Unexcluded(samples), ByBlock);
    if active != [] {
      SortedAlternates(active);
      AlternatingCounts(active, active[0].block, v);
      AlternatingCounts(active, active[0].block, w);
    }
    SumPermutation(active, Unexcluded(samples), IsVariant(v));
    SumPermutation(active, Unexcluded(samples), IsVariant(w));
  }

  // ---- Invalidation per block index ----

  /** The per-index reasons: a later sample overwrites an earlier one with the same index. */
  function Effective(samples: seq<Sample>, limits: Limits): map<nat, set<string>> {
    if samples == [] then map[]
    else
      var last := samples[|samples| - 1];
      Effective(samples[..|samples| - 1], limits)[last.block := OwnReasons(last, limits)]
  }

  predicate Dropped(s: Sample, effective: map<nat, set<string>>) {
    s.excluded || (s.block in effective && effective[s.block] != {})
  }

  function Analysed(samples: seq<Sample>, effective: map<nat, set<string>>): seq<Sample> {
    if samples == [] then []
    else
      var front, last := Analysed(samples[..|samples| - 1], effective), samples[|samples| - 1];
      if Dropped(last, effective) then front else front + [last]
  }

  /** The invalidation and selection loops of `analyze_execution`. */
  method SelectActive(samples: seq<Sample>, limits: Limits) returns (active: seq<Sample>)
    ensures active == Analysed(samples, Effective(samples, limits))
  {
    var effective: map<nat, set<string>> := map[];
    for n := 0 to |samples|
      invariant effective == Effective(samples[..n], limits)
    {
      assert samples[..n + 1][..n] == samples[..n];
      effective := effective[samples[n].block := OwnReasons(samples[n], limits)];
    }
    assert samples[..|samples|] == samples;
    active := [];
    for n := 0 to |samples|
      invariant active == Analysed(samples[..n], effective)
    {
      assert samples[..n + 1][..n] == samples[..n];
      var sample := samples[n];
      if !sample.excluded && (sample.block !in effective || effective[sample.block] == {}) {
        active := active + [sample];
      }
    }
  }

  /** The position of the last sample with the block of sample `i`. */
  function LastWith(samples: seq<Sample>, i: nat): (k: nat)
    requires i < |samples|
    ensures i <= k < |samples| && samples[k].block == samples[i].block
    ensures forall j :: k < j < |samples| ==> samples[j].block != samples[i].block
  {
    var n := |samples| - 1;
    if samples[n].block == samples[i].block then n else LastWith(samples[..n], i)
  }

  lemma {:induction false} EffectiveIsLast(samples: seq<Sample>, limits: Limits, i: nat)
    requires i < |samples|
    ensures samples[i].block in Effective(samples, limits)
    ensures Effective(samples, limits)[samples[i].block] == OwnReasons(samples[LastWith(samples, i)], limits)
  {
    var n := |samples| - 1;
    if samples[n].block != samples[i].block {
      EffectiveIsLast(samples[..n], limits, i);
    }
  }

  lemma {:induction false} AnalysedMembers(samples: seq<Sample>, effective: map<nat, set<string>>)
    ensures forall s :: s in Analysed(samples, effective) <==> s in samples && !Dropped(s, effective)
  {
    if samples != [] {
      AnalysedMembers(samples[..|samples| - 1], effective);
      assert samples == samples[..|samples| - 1] + [samples[|samples| - 1]];
    }
  }

  /** The analysed samples keep the order of the record. */
  lemma {:induction false} AnalysedInOrder(samples: seq<Sample>, effective: map<nat, set<string>>, i: nat, j: nat)
    returns (k: nat, l: nat)
    requires i < j < |samples| && !Dropped(samples[i], effective) && !Dropped(samples[j], effective)
    ensures var analysed := Analysed(samples, effective);
            k < l < |analysed| && analysed[k] == samples[i] && analysed[l] == samples[j]
  {
    var n := |samples| - 1;
    var front := samples[..n];
    if j < n {
      k, l := AnalysedInOrder(front, effective, i, j);
    } else {
      AnalysedMembers(front, effective);
      assert front[i] in front;
      k :| 0 <= k < |Analysed(front, effective)| && Analysed(front, effective)[k] == samples[i];
      l := |Analysed(front, effective)|;
    }
  }

  /** Sample `k` is the last one on the block of sample `i`. */
  ghost predicate LastOnBlock(samples: seq<Sample>, i: nat, k: nat)
    requires i < |samples|
  {
    && i <= k < |samples| && samples[k].block == samples[i].block
    && forall j :: k < j < |samples| ==> samples[j].block != samples[i].block
  }

  /** A sample is analysed if and only if it is unexcluded and nothing speaks against the last sample on its block. */
  lemma AnalysedIff(samples: seq<Sample>, limits: Limits, i: nat)
    requires i < |samples|
    ensures samples[i] in Analysed(samples, Effective(samples, limits)) <==>
            !samples[i].excluded && exists k: nat :: LastOnBlock(samples, i, k) && Spotless(samples[k], limits)
  {
    LastDecides(samples, limits, i);
    var last := LastWith(samples, i);
    assert LastOnBlock(samples, i, last);
    SpotlessIff(samples[last], limits);
    forall k: nat | LastOnBlock(samples, i, k) ensures k == last {
    }
  }

  lemma LastDecides(samples: seq<Sample>, limits: Limits, i: nat)
    requires i < |samples|
    ensures samples[i] in Analysed(samples, Effective(samples, limits)) <==>
            !samples[i].excluded && OwnReasons(samples[LastWith(samples, i)], limits) == {}
  {
    AnalysedMembers(samples, Effective(samples, limits));
    EffectiveIsLast(samples, limits, i);
  }

  /** Every analysed sample is unexcluded and free of its own reasons. */
  ghost predicate AllAnalysedClean(samples: seq<Sample>, limits: Limits) {
    forall s :: s in Analysed(samples, Effective(samples, limits)) ==> !s.excluded && OwnReasons(s, limits) == {}
  }

  /** No sample with reasons has its entry overwritten, in the end, by one without. */
  ghost predicate NoLaundering(samples: seq<Sample>, limits: Limits) {
    forall i :: 0 <= i < |samples| && !samples[i].excluded && OwnReasons(samples[i], limits) != {} ==>
      OwnReasons(samples[LastWith(samples, i)], limits) != {}
  }

  /** The analysis is clean if and only if no unexcluded sample with reasons shares its block with a clean last one. */
  lemma AnalysisCleanIff(samples: seq<Sample>, limits: Limits)
    ensures AllAnalysedClean(samples, limits) <==> NoLaundering(samples, limits)
  {
    var analysed := Analysed(samples, Effective(samples, limits));
    if NoLaundering(samples, limits) {
      AnalysedMembers(samples, Effective(samples, limits));
      forall s | s in analysed ensures !s.excluded && OwnReasons(s, limits) == {} {
        var i :| 0 <= i < |samples| && samples[i] == s;
        LastDecides(samples, limits, i);
      }
    }
    if AllAnalysedClean(samples, limits) {
      forall i | 0 <= i < |samples| && !samples[i].excluded && OwnReasons(samples[i], limits) != {}
        ensures OwnReasons(samples[LastWith(samples, i)], limits) != {}
      {
        LastDecides(samples, limits, i);
      }
    }
  }

  /** No two unexcluded samples share a block. */
  ghost predicate NoDuplicates(samples: seq<Sample>) {
    forall i, j :: 0 <= i < j < |samples| && !samples[i].excluded && !samples[j].excluded ==>
      samples[i].block != samples[j].block
  }

  /**
   Without duplicate blocks every analysed sample is unexcluded and free of its own invalidation reasons, even though
   reasons are stored per index: whatever overwrote its entry was excluded, and so has a reason.
   */
  lemma AnalysedSamplesAreClean(samples: seq<Sample>, limits: Limits, s: Sample)
    requires AllValid(samples) && NoDuplicates(samples)
    requires s in Analysed(samples, Effective(samples, limits))
    ensures s in samples && !s.excluded && OwnReasons(s, limits) == {}
  {
    AnalysedMembers(samples, Effective(samples, limits));
    var i :| 0 <= i < |samples| && samples[i] == s;
    EffectiveIsLast(samples, limits, i);
    var k := LastWith(samples, i);
    if k != i && samples[k].excluded {
      DeclaredCounts(samples[k], limits);
    }
  }

  lemma DeclaredCounts(s: Sample, limits: Limits)
    requires s.declared != []
    ensures OwnReasons(s, limits) != {}
  {
    assert s.declared[0] in OwnReasons(s, limits);
  }

  /** The other direction fails only through overwriting: a clean sample is analysed unless a later excluded one shares its index. */
  lemma CleanSampleAnalysedIff(samples: seq<Sample>, limits: Limits, i: nat)
    requires AllValid(samples) && NoDuplicates(samples) && i < |samples|
    requires !samples[i].excluded && OwnReasons(samples[i], limits) == {}
    ensures samples[i] in Analysed(samples, Effective(samples, limits)) <==>
            forall j :: i < j < |samples| && samples[j].block == samples[i].block ==> !samples[j].excluded
  {
    AnalysedMembers(samples, Effective(samples, limits));
    EffectiveIsLast(samples, limits, i);
    var k := LastWith(samples, i);
    if k != i {
      assert samples[k].excluded;
      DeclaredCounts(samples[k], limits);
    } else {
      assert forall j :: i < j < |samples| ==> samples[j].block != samples[i].block;
    }
  }

  /** With a duplicate block a dirty sample can be analysed, because a clean one overwrote its entry. */
  lemma DuplicateLaundersReasons(limits: Limits)
    ensures var dirty := Sample(0, "p", B0, false, ["thermal"], None, None);
            var clean := Sample(0, "q", B0, false, [], None, None);
            && AllValid([dirty, clean]) && OwnReasons(dirty, limits) != {}
            && dirty in Analysed([dirty, clean], Effective([dirty, clean], limits))
  {
    var dirty := Sample(0, "p", B0, false, ["thermal"], None, None);
    var clean := Sample(0, "q", B0, false, [], None, None);
    DeclaredCounts(dirty, limits);
    var both := [dirty, clean];
    assert both[..1] == [dirty];
    assert OwnReasons(clean, limits) == {};
    AnalysedMembers(both, Effective(both, limits));
    assert dirty == both[0];
  }

  /** Unexcluded samples on block `b`. */
  function Occupants(samples: seq<Sample>, b: nat): int {
    SumBy(Unexcluded(samples), OnBlock(b))
  }

  lemma OccupantsStep(samples: seq<Sample>, b: nat)
    requires samples != []
    ensures var n := |samples| - 1;
            Occupants(samples, b) == Occupants(samples[..n], b) + (if !samples[n].excluded && samples[n].block == b then 1 else 0)
  {
    var n := |samples| - 1;
    if !samples[n].excluded {
      SumAppend(Unexcluded(samples[..n]), samples[n], OnBlock(b));
    }
  }

  lemma {:induction false} OccupantsNonNegative(samples: seq<Sample>, b: nat)
    ensures Occupants(samples, b) >= 0
  {
    if samples != [] {
      OccupantsNonNegative(samples[..|samples| - 1], b);
      OccupantsStep(samples, b);
    }
  }

  lemma {:induction false} UnexcludedOnce(samples: seq<Sample>, i: nat)
    requires i < |samples| && !samples[i].excluded
    ensures Occupants(samples, samples[i].block) >= 1
  {
    var n := |samples| - 1;
    OccupantsStep(samples, samples[i].block);
    if i < n {
      UnexcludedOnce(samples[..n], i);
    } else {
      OccupantsNonNegative(samples[..n], samples[i].block);
    }
  }

  lemma {:induction false} UnexcludedDistinct(samples: seq<Sample>, i: nat, j: nat)
    requires i < j < |samples| && !samples[i].excluded && !samples[j].excluded && samples[i].block == samples[j].block
    ensures Occupants(samples, samples[i].block) >= 2
  {
    var n := |samples| - 1;
    var front := samples[..n];
    OccupantsStep(samples, samples[i].block);
    assert front[i] == samples[i];
    if j < n {
      assert front[j] == samples[j];
      UnexcludedDistinct(front, i, j);
    } else {
      UnexcludedOnce(front, i);
    }
  }

  function OnBlock(b: nat): Sample -> int {
    (s: Sample) => if s.block == b then 1 else 0
  }

  lemma {:induction false} DistinctOnce(s: seq<Sample>, b: nat)
    requires DistinctBlocks(s)
    ensures SumBy(s, OnBlock(b)) <= 1
    ensures !Uses(s, b) ==> SumBy(s, OnBlock(b)) == 0
  {
    if s != [] {
      var front := s[..|s| - 1];
      DistinctOnce(front, b);
      if s[|s| - 1].block == b {
        assert !Uses(front, b);
      } else if Uses(front, b) {
        var k :| 0 <= k < |front| && front[k].block == b;
        assert s[k].block == b;
      }
    }
  }

  /** Distinct blocks in the sorted unexcluded samples mean no duplicates in the execution record. */
  lemma SortedDistinctMeansNoDuplicates(samples: seq<Sample>)
    requires DistinctBlocks(Sort(Unexcluded(samples), ByBlock))
    ensures NoDuplicates(samples)
  {
    var active := Sort(Unexcluded(samples), ByBlock);
    forall i, j | 0 <= i < j < |samples| && !samples[i].excluded && !samples[j].excluded
      ensures samples[i].block != samples[j].block
    {
      if samples[i].block == samples[j].block {
        UnexcludedDistinct(samples, i, j);
        SumPermutation(active, Unexcluded(samples), OnBlock(samples[i].block));
        DistinctOnce(active, samples[i].block);
      }
    }
  }

  lemma OneOccupant(samples: seq<Sample>, b: nat) returns (i: nat)
    requires Occupants(samples, b) >= 1
    ensures i < |samples| && !samples[i].excluded && samples[i].block == b
  {
    var n := |samples| - 1;
    OccupantsStep(samples, b);
    if !samples[n].excluded && samples[n].block == b {
      i := n;
    } else {
      i := OneOccupant(samples[..n], b);
    }
  }

  lemma TwoOccupants(samples: seq<Sample>, b: nat) returns (i: nat, j: nat)
    requires Occupants(samples, b) >= 2
    ensures i < j < |samples| && !samples[i].excluded && !samples[j].excluded && samples[i].block == b == samples[j].block
  {
    var n := |samples| - 1;
    OccupantsStep(samples, b);
    if !samples[n].excluded && samples[n].block == b {
      j := n;
      i := OneOccupant(samples[..n], b);
    } else {
      i, j := TwoOccupants(samples[..n], b);
    }
  }

  lemma {:induction false} PairOnBlock(s: seq<Sample>, i: nat, j: nat)
    requires i < j < |s| && s[i].block == s[j].block
    ensures SumBy(s, OnBlock(s[i].block)) >= 2
  {
    var b := s[i].block;
    SumWithout(s, OnBlock(b), j);
    var rest := Without(s, j);
    assert rest[i] == s[i];
    SumWithout(rest, OnBlock(b), i);
    SumNonNegative(Without(rest, i), OnBlock(b));
  }

  /** The sorted unexcluded samples are on distinct blocks exactly when the execution record has no duplicates. */
  lemma DistinctIff(samples: seq<Sample>)
    ensures DistinctBlocks(Sort(Unexcluded(samples), ByBlock)) <==> NoDuplicates(samples)
  {
    var active := Sort(Unexcluded(samples), ByBlock);
    if DistinctBlocks(active) {
      SortedDistinctMeansNoDuplicates(samples);
    } else {
      var i, j :| 0 <= i < j < |active| && active[i].block == active[j].block;
      PairOnBlock(active, i, j);
      SumPermutation(active, Unexcluded(samples), OnBlock(active[i].block));
      var k, l := TwoOccupants(samples, active[i].block);
    }
  }

  /**
   An analysis without duplicate, alternation or gap failure draws only on clean samples, and its unexcluded variants are
   balanced to within one.
   */
  lemma CleanAnalysis(samples: seq<Sample>, limits: Limits)
    requires AllValid(samples) && OnPlan(samples)
    ensures forall s :: s in Analysed(samples, Effective(samples, limits)) ==> !s.excluded && OwnReasons(s, limits) == {}
    ensures forall v, w :: -1 <= |Turns(samples, v)| - |Turns(samples, w)| <= 1
  {
    forall s | s in Analysed(samples, Effective(samples, limits)) ensures !s.excluded && OwnReasons(s, limits) == {} {
      AnalysedSamplesAreClean(samples, limits, s);
    }
    forall v, w ensures -1 <= |Turns(samples, v)| - |Turns(samples, w)| <= 1 {
      BalancedVariants(samples, v, w);
    }
  }

  // ---- Pairing ----

  /** The last analysed sample of a pair and variant. */
  function LastOf(active: seq<Sample>, pair: string, v: Variant): Option<Sample> {
    if active == [] then None
    else if active[|active| - 1].pair == pair && active[|active| - 1].variant == v then Some(active[|active| - 1])
    else LastOf(active[..|active| - 1], pair, v)
  }

  /** `by_pair`: a later sample of the same pair and variant replaces an earlier one. */
  method PairUp(active: seq<Sample>) returns (byPair: map<string, map<Variant, Sample>>, complete: set<string>)
    ensures forall p, v :: p in byPair && v in byPair[p] <==> Ran(active, p, v)
    ensures forall i: nat :: Latest(active, i) ==>
              active[i].pair in byPair && active[i].variant in byPair[active[i].pair]
              && byPair[active[i].pair][active[i].variant] == active[i]
    ensures forall p :: p in complete <==> Ran(active, p, B0) && Ran(active, p, B1) && Ran(active, p, O1)
  {
    byPair, complete := PairLoop(active);
    forall p, v ensures LastOf(active, p, v).Some? <==> Ran(active, p, v) {
      LastOfRan(active, p, v);
    }
    forall p, v ensures p in byPair && v in byPair[p] <==> Ran(active, p, v) {
      assert (if p in byPair && v in byPair[p] then Some(byPair[p][v]) else None) == LastOf(active, p, v);
    }
    forall i: nat | Latest(active, i)
      ensures active[i].pair in byPair && active[i].variant in byPair[active[i].pair]
              && byPair[active[i].pair][active[i].variant] == active[i]
    {
      LastOfIs(active, i);
    }
  }

  /** Some analysed sample of the pair ran the variant. */
  ghost predicate Ran(active: seq<Sample>, pair: string, v: Variant) {
    exists i :: 0 <= i < |active| && active[i].pair == pair && active[i].variant == v
  }

  /** No later analysed sample is of the same pair and variant. */
  ghost predicate Latest(active: seq<Sample>, i: nat) {
    i < |active| && forall j :: i < j < |active| ==> active[j].pair != active[i].pair || active[j].variant != active[i].variant
  }

  lemma {:induction false} LastOfRan(active: seq<Sample>, pair: string, v: Variant)
    ensures LastOf(active, pair, v).Some? <==> Ran(active, pair, v)
  {
    if active != [] {
      var n := |active| - 1;
      LastOfRan(active[..n], pair, v);
      if Ran(active[..n], pair, v) {
        var i :| 0 <= i < n && active[..n][i].pair == pair && active[..n][i].variant == v;
        assert active[i].pair == pair && active[i].variant == v;
      }
      if i :| 0 <= i < n && active[i].pair == pair && active[i].variant == v {
        assert active[..n][i].pair == pair;
      }
    }
  }

  lemma {:induction false} LastOfIs(active: seq<Sample>, i: nat)
    requires Latest(active, i)
    ensures LastOf(active, active[i].pair, active[i].variant) == Some(active[i])
  {
    if i < |active| - 1 {
      LastOfIs(active[..|active| - 1], i);
    }
  }

  method PairLoop(active: seq<Sample>) returns (byPair: map<string, map<Variant, Sample>>, complete: set<string>)
    ensures forall p, v :: (if p in byPair && v in byPair[p] then Some(byPair[p][v]) else None) == LastOf(active, p, v)
    ensures forall p :: p in complete <==>
              LastOf(active, p, B0).Some? && LastOf(active, p, B1).Some? && LastOf(active, p, O1).Some?
  {
    byPair := map[];
    for n := 0 to |active|
      invariant forall p, v :: (if p in byPair && v in byPair[p] then Some(byPair[p][v]) else None) == LastOf(active[..n], p, v)
    {
      assert active[..n + 1][..n] == active[..n];
      var s := active[n];
      var row := if s.pair in byPair then byPair[s.pair] else map[];
      byPair := byPair[s.pair := row[s.variant := s]];
    }
    assert active[..|active|] == active;
    complete := set p | p in byPair && B0 in byPair[p] && B1 in byPair[p] && O1 in byPair[p];
    forall p ensures p in complete <==>
        LastOf(active, p, B0).Some? && LastOf(active, p, B1).Some? && LastOf(active, p, O1).Some?
    {
      assert (if p in byPair && B0 in byPair[p] then Some(byPair[p][B0]) else None) == LastOf(active, p, B0);
      assert (if p in byPair && B1 in byPair[p] then Some(byPair[p][B1]) else None) == LastOf(active, p, B1);
      assert (if p in byPair && O1 in byPair[p] then Some(byPair[p][O1]) else None) == LastOf(active, p, O1);
    }
  }

  // ---- Bootstrap interval ----

  const RealLe: (real, real) -> bool := (a: real, b: real) => a <= b

  function Total(values: seq<real>): real {
    if values == [] then 0.0 else Total(values[..|values| - 1]) + values[|values| - 1]
  }

  ghost predicate Within(values: seq<real>, lo: real, hi: real) {
    forall i :: 0 <= i < |values| ==> lo <= values[i] <= hi
  }

  lemma {:induction false} TotalWithin(values: seq<real>, lo: real, hi: real)
    requires Within(values, lo, hi)
    ensures lo * |values| as real <= Total(values) <= hi * |values| as real
  {
    if values != [] {
      var n := |values| - 1;
      TotalWithin(values[..n], lo, hi);
      assert lo * (n + 1) as real == lo * n as real + lo;
      assert hi * (n + 1) as real == hi * n as real + hi;
    }
  }

  lemma DivideBounds(total: real, n: real, lo: real, hi: real)
    requires n > 0.0 && lo * n <= total <= hi * n
    ensures lo <= total / n <= hi
  {
    var q := total / n;
    assert q * n == total;
    if q < lo {
      PositiveProduct(lo - q, n);
    }
    if q > hi {
      PositiveProduct(q - hi, n);
    }
  }

  lemma MeanWithin(values: seq<real>, lo: real, hi: real)
    requires values != [] && Within(values, lo, hi)
    ensures lo <= Total(values) / |values| as real <= hi
  {
    TotalWithin(values, lo, hi);
    DivideBounds(Total(values), |values| as real, lo, hi);
  }

  function Clamp(i: int, n: nat): (k: nat)
    requires n > 0
    ensures k < n
  {
    var capped := if i > n - 1 then n - 1 else i;
    if capped < 0 then 0 else capped
  }

  function Ceil(x: real): (c: int)
    ensures (c - 1) as real < x <= c as real
  {
    -((-x).Floor)
  }

  function LowIndex(tail: real, n: nat): (k: nat)
    requires n > 0
    ensures k < n
  {
    Clamp((tail * n as real).Floor, n)
  }

  function HighIndex(tail: real, n: nat): (k: nat)
    requires n > 0
    ensures k < n
  {
    Clamp(Ceil((1.0 - tail) * n as real) - 1, n)
  }

  lemma IndicesOrdered(tail: real, n: nat)
    requires n > 0 && 0.0 < tail < 0.25
    ensures LowIndex(tail, n) <= HighIndex(tail, n)
  {
    var x, y := tail * n as real, (1.0 - tail) * n as real;
    assert y - x == (1.0 - 2.0 * tail) * n as real;
    PositiveProduct(1.0 - 2.0 * tail, n as real);
    FloorBelowCeil(x, y);
  }

  lemma PositiveProduct(a: real, b: real)
    requires a > 0.0 && b > 0.0
    ensures a * b > 0.0
  {
  }

  lemma FloorBelowCeil(x: real, y: real)
    requires x < y
    ensures x.Floor <= Ceil(y) - 1
  {
  }

  /** The values drawn for resample `r`. */
  ghost function Drawn(values: seq<real>, draw: (nat, nat) -> nat, r: nat): seq<real>
    requires forall k :: draw(r, k) < |values|
  {
    seq(|values|, k requires 0 <= k < |values| => values[draw(r, k)])
  }

  ghost function MeanOf(values: seq<real>, draw: (nat, nat) -> nat, r: nat): real
    requires values != [] && forall k :: draw(r, k) < |values|
  {
    Total(Drawn(values, draw, r)) / |values| as real
  }

  /** `x` has exactly `k` of the values in front of it in their order. */
  ghost predicate HasRank(values: seq<real>, x: real, k: int) {
    exists below, above :: RankedBetween(values, x, k, below, above)
  }

  ghost predicate RankedBetween(values: seq<real>, x: real, k: int, below: seq<real>, above: seq<real>) {
    && multiset(values) == multiset(below + [x] + above) && |below| == k
    && (forall i :: 0 <= i < |below| ==> below[i] <= x)
    && (forall i :: 0 <= i < |above| ==> x <= above[i])
  }

  lemma SortedRank(values: seq<real>, k: nat)
    requires k < |values|
    ensures HasRank(values, Sort(values, RealLe)[k], k)
  {
    var s := Sort(values, RealLe);
    SortSorted(values, RealLe);
    SplitRank(values, s, k);
  }

  lemma SplitRank(values: seq<real>, s: seq<real>, k: nat)
    requires k < |s| && multiset(s) == multiset(values) && SortedBy(s, RealLe)
    ensures HasRank(values, s[k], k)
  {
    var below, above := s[..k], s[k + 1..];
    assert s == below + [s[k]] + above;
    forall i | 0 <= i < |below| ensures below[i] <= s[k] {
      assert RealLe(s[i], s[k]);
    }
    forall i | 0 <= i < |above| ensures s[k] <= above[i] {
      assert RealLe(s[k], s[k + 1 + i]);
    }
    assert RankedBetween(values, s[k], k, below, above);
  }

  /** Sums are additive, and one value is its own sum. */
  lemma {:induction false} TotalConcat(a: seq<real>, b: seq<real>)
    ensures Total(a + b) == Total(a) + Total(b)
    ensures forall x :: Total([x]) == x
  {
    if b == [] {
      assert a + b == a;
    } else {
      var n := |b| - 1;
      TotalConcat(a, b[..n]);
      assert (a + b)[..|a| + n] == a + b[..n];
    }
    forall x ensures Total([x]) == x {
      assert [x][..0] == [];
    }
  }

  /** `k` of `n` values make up the fraction `p`, rounded down. */
  ghost predicate RoundedDown(p: real, n: nat, k: int) {
    k as real <= p * n as real < (k + 1) as real
  }

  /** `k` is the last of the `n` values that make up the fraction `p`, rounded up. */
  ghost predicate RoundedUp(p: real, n: nat, k: int) {
    (k as real) < p * n as real <= (k + 1) as real
  }

  /** The cut points: as many means lie in front of them as the tails of the distribution are to hold. */
  lemma IndicesAreCuts(tail: real, n: nat)
    requires n > 0 && 0.0 < tail < 0.25
    ensures RoundedDown(tail, n, LowIndex(tail, n))
    ensures RoundedUp(1.0 - tail, n, HighIndex(tail, n))
  {
    LowerCut(tail, n);
    UpperCut(1.0 - tail, n);
  }

  lemma LowerCut(p: real, n: nat)
    requires n > 0 && 0.0 < p < 1.0
    ensures RoundedDown(p, n, Clamp((p * n as real).Floor, n))
  {
    var x := p * n as real;
    Portion(p, n as real);
    FloorClamped(x, n);
  }

  lemma UpperCut(p: real, n: nat)
    requires n > 0 && 0.0 < p < 1.0
    ensures RoundedUp(p, n, Clamp(Ceil(p * n as real) - 1, n))
  {
    Portion(p, n as real);
    CeilOfPortion(p, n, p * n as real);
  }

  lemma CeilOfPortion(p: real, n: nat, x: real)
    requires x == p * n as real && 0.0 < x < n as real
    ensures RoundedUp(p, n, Clamp(Ceil(x) - 1, n))
  {
    CeilClamped(x, n);
  }

  lemma Portion(p: real, n: real)
    requires 0.0 < p < 1.0 && n > 0.0
    ensures 0.0 < p * n < n
  {
    PositiveProduct(p, n);
    PositiveProduct(1.0 - p, n);
    assert (1.0 - p) * n == n - p * n;
  }

  lemma FloorClamped(x: real, n: nat)
    requires 0.0 < x < n as real
    ensures Clamp(x.Floor, n) as real <= x < (Clamp(x.Floor, n) + 1) as real
  {
  }

  lemma CeilClamped(x: real, n: nat)
    requires 0.0 < x < n as real
    ensures (Clamp(Ceil(x) - 1, n) as real) < x <= (Clamp(Ceil(x) - 1, n) + 1) as real
  {
  }

  /**
   `_bootstrap_interval`, with `draw(r, k)` the k-th index drawn for resample `r`: the two ends are the means of resamples,
   with as many means in front of them as the tails call for.
   */
  method BootstrapInterval(values: seq<real>, confidence: real, resamples: nat, draw: (nat, nat) -> nat)
    returns (low: real, high: real, ghost means: seq<real>, ghost i: int, ghost j: int)
    requires 0.5 < confidence < 1.0 && resamples >= 1
    requires forall r, k :: values != [] ==> draw(r, k) < |values|
    ensures values == [] ==> low == 0.0 && high == 0.0
    ensures |values| == 1 ==> low == high == values[0]
    ensures values != [] ==> low <= high
    ensures forall lo, hi :: values != [] && Within(values, lo, hi) ==> lo <= low && high <= hi
    ensures |values| > 1 ==>
              var tail := (1.0 - confidence) / 2.0;
              && |means| == resamples
              && (forall r: nat :: r < resamples ==> means[r] == MeanOf(values, draw, r))
              && HasRank(means, low, i) && RoundedDown(tail, resamples, i)
              && HasRank(means, high, j) && RoundedUp(1.0 - tail, resamples, j)
  {
    means, i, j := [], 0, 0;
    if values == [] {
      low, high := 0.0, 0.0;
      return;
    }
    if |values| == 1 {
      low, high := values[0], values[0];
      return;
    }
    var sample: seq<real> := [];
    for r := 0 to resamples
      invariant |sample| == r
      invariant forall q: nat :: q < r ==> sample[q] == MeanOf(values, draw, q)
      invariant forall lo, hi :: Within(values, lo, hi) ==> Within(sample, lo, hi)
    {
      var mean := ResampleMean(values, r, draw);
      sample := sample + [mean];
    }
    means := sample;
    low, high, i, j := Quantiles(sample, (1.0 - confidence) / 2.0);
  }

  /** The ends of the interval among the means. */
  method Quantiles(sample: seq<real>, tail: real) returns (low: real, high: real, ghost i: int, ghost j: int)
    requires 0.0 < tail < 0.25 && sample != []
    ensures low <= high && low in sample && high in sample
    ensures HasRank(sample, low, i) && RoundedDown(tail, |sample|, i)
    ensures HasRank(sample, high, j) && RoundedUp(1.0 - tail, |sample|, j)
  {
    var means := Sort(sample, RealLe);
    var lowIndex, highIndex := LowIndex(tail, |means|), HighIndex(tail, |means|);
    IndicesOrdered(tail, |means|);
    IndicesAreCuts(tail, |means|);
    SortedPair(sample, lowIndex, highIndex);
    low, high := means[lowIndex], means[highIndex];
    i, j := lowIndex, highIndex;
  }

  lemma SortedPair(sample: seq<real>, k: nat, l: nat)
    requires k <= l < |sample|
    ensures var means := Sort(sample, RealLe);
            means[k] <= means[l] && HasRank(sample, means[k], k) && HasRank(sample, means[l], l)
            && means[k] in sample && means[l] in sample
  {
    var means := Sort(sample, RealLe);
    SortSorted(sample, RealLe);
    SortMembers(sample, RealLe);
    SortedRank(sample, k);
    SortedRank(sample, l);
    assert k < l ==> RealLe(means[k], means[l]);
    assert means[k] in means && means[l] in means;
  }

  method ResampleMean(values: seq<real>, r: nat, draw: (nat, nat) -> nat) returns (mean: real)
    requires values != [] && forall k :: draw(r, k) < |values|
    ensures mean == MeanOf(values, draw, r)
    ensures forall lo, hi :: Within(values, lo, hi) ==> lo <= mean <= hi
  {
    var drawn: seq<real> := [];
    for k := 0 to |values|
      invariant |drawn| == k
      invariant forall i :: 0 <= i < k ==> drawn[i] == values[draw(r, i)]
    {
      drawn := drawn + [values[draw(r, k)]];
    }
    assert drawn == Drawn(values, draw, r);
    mean := Total(drawn) / |drawn| as real;
    forall lo, hi | Within(values, lo, hi) ensures lo <= mean <= hi {
      assert Within(drawn, lo, hi);
      MeanWithin(drawn, lo, hi);
    }
  }
}
