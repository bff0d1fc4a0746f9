/** Metrics derived from an accepted counter stream: last values, allocation rate and fragmentation. */
module ResourceMetrics {
  import opened Outcomes
  import opened CounterStream

  datatype RawMetric = RawMetric(value: nat, samples: seq<Sample>)

  /** The metric dictionary, split by the kind of semantic in its keys. */
  datatype Metrics = Metrics(raw: map<Identity, RawMetric>, rates: map<string, real>, fragmentations: map<string, real>)

  datatype RebuildFault =
    | StreamFault(fault: Fault) | BadHeader | EmptyStream | NoCounters | NoFunctions | NoObservations | MissingSemantic
    | TooFewSamples | NotSynchronized | BadFragmentationInputs | UsageViolated

  const NANOSECONDS: real := 1_000_000_000.0

  // ---------------------------------------------------------------- raw metrics

  ghost predicate EveryCounterObserved(p: Progress) {
    Invariant(p) && forall c :: c in p.definitions ==> c in p.samples
  }

  function Summary(rows: seq<Sample>): RawMetric
    requires rows != []
  {
    RawMetric(rows[|rows| - 1].value, rows)
  }

  /** One metric per defined counter, under the identity it declares. */
  function RawMetrics(p: Progress): map<Identity, RawMetric>
    requires EveryCounterObserved(p)
  {
    map i | i in p.counters :: Summary(p.samples[p.counters[i]])
  }

  method CollectRawMetrics(p: Progress) returns (r: Option<map<Identity, RawMetric>>)
    requires Invariant(p)
    ensures r.Some? <==> EveryCounterObserved(p)
    ensures r.Some? ==> r.value == RawMetrics(p)
  {
    var metrics: map<Identity, RawMetric> := map[];
    var remaining := p.definitions.Keys;
    while remaining != {}
      invariant remaining <= p.definitions.Keys
      invariant forall c :: c in p.definitions && c !in remaining ==> c in p.samples
      invariant forall i :: i in metrics <==> i in p.counters && p.counters[i] !in remaining
      invariant forall i :: i in metrics ==> metrics[i] == Summary(p.samples[p.counters[i]])
      decreases remaining
    {
      var c :| c in remaining;
      remaining := remaining - {c};
      if c !in p.samples { return None; }
      metrics := metrics[p.definitions[c] := Summary(p.samples[c])];
    }
    return Some(metrics);
  }

  // ---------------------------------------------------------------- allocation rate

  function RateFor(raw: map<Identity, RawMetric>, subject: string): Result<real, RebuildFault> {
    var count := Identity(HeapAllocationCount, subject);
    if count !in raw then Raised(MissingSemantic)
    else
      var rows := raw[count].samples;
      if |rows| < 2 then Raised(TooFewSamples)
      else
        var window := rows[|rows| - 1].ts - rows[0].ts;
        if window <= 0 then Raised(TooFewSamples)
        else Ok((raw[count].value - rows[0].value) as real * NANOSECONDS / window as real)
  }

  // ---------------------------------------------------------------- fragmentation

  /** The values of both counters at their latest common timestamp. */
  function LatestCommon(free: seq<Sample>, largest: seq<Sample>): Option<(nat, nat)>
    decreases |free| + |largest|
  {
    if free == [] || largest == [] then None
    else
      var f, l := free[|free| - 1], largest[|largest| - 1];
      if f.ts == l.ts then Some((f.value, l.value))
      else if l.ts < f.ts then LatestCommon(free[..|free| - 1], largest)
      else LatestCommon(free, largest[..|largest| - 1])
  }

  ghost predicate Increasing(rows: seq<Sample>) {
    forall i, j :: 0 <= i < j < |rows| ==> rows[i].ts < rows[j].ts
  }

  ghost predicate CommonAt(free: seq<Sample>, largest: seq<Sample>, i: int, j: int) {
    0 <= i < |free| && 0 <= j < |largest| && free[i].ts == largest[j].ts
  }

  /** Walking both lists back from their ends finds the latest common timestamp, or that there is none. */
  lemma {:induction false} LatestCommonIsLatest(free: seq<Sample>, largest: seq<Sample>)
    requires Increasing(free) && Increasing(largest)
    ensures forall i, j :: CommonAt(free, largest, i, j)
              && (forall k, m :: CommonAt(free, largest, k, m) ==> free[k].ts <= free[i].ts)
              ==> LatestCommon(free, largest) == Some((free[i].value, largest[j].value))
    ensures LatestCommon(free, largest).Some? ==> exists i, j :: CommonAt(free, largest, i, j)
    decreases |free| + |largest|
  {
    if free != [] && largest != [] {
      var n, m := |free| - 1, |largest| - 1;
      if free[n].ts == largest[m].ts {
        assert CommonAt(free, largest, n, m);
      } else if largest[m].ts < free[n].ts {
        LatestCommonIsLatest(free[..n], largest);
        forall i, j ensures CommonAt(free, largest, i, j) <==> CommonAt(free[..n], largest, i, j) {
          if CommonAt(free, largest, i, j) && j < m { assert largest[j].ts < largest[m].ts; }
        }
      } else {
        LatestCommonIsLatest(free, largest[..m]);
        forall i, j ensures CommonAt(free, largest, i, j) <==> CommonAt(free, largest[..m], i, j) {
          if CommonAt(free, largest, i, j) && i < n { assert free[i].ts < free[n].ts; }
        }
      }
    }
  }

  method ByTimestamp(rows: seq<Sample>) returns (byTs: map<int, nat>)
    requires Increasing(rows)
    ensures forall t :: t in byTs <==> exists i :: 0 <= i < |rows| && rows[i].ts == t
    ensures forall i :: 0 <= i < |rows| ==> byTs[rows[i].ts] == rows[i].value
  {
    byTs := map[];
    for n := 0 to |rows|
      invariant forall t :: t in byTs <==> exists i :: 0 <= i < n && rows[i].ts == t
      invariant forall i :: 0 <= i < n ==> byTs[rows[i].ts] == rows[i].value
    {
      byTs := byTs[rows[n].ts := rows[n].value];
    }
  }

  lemma {:induction false} Inhabited(times: set<int>)
    ensures times == {} || exists t :: t in times
  {
    if forall t :: t !in times {
      assert times == {};
    }
  }

  method Greatest(times: set<int>) returns (latest: int)
    requires times != {}
    ensures latest in times && forall t :: t in times ==> t <= latest
  {
    Inhabited(times);
    latest :| latest in times;
    var rest := times - {latest};
    while rest != {}
      invariant rest <= times && latest in times
      invariant forall t :: t in times && t !in rest ==> t <= latest
      decreases rest
    {
      Inhabited(rest);
      var t :| t in rest;
      rest := rest - {t};
      if latest < t { latest := t; }
    }
  }

  lemma {:induction false} CommonTimes(free: seq<Sample>, largest: seq<Sample>, times: set<int>)
    requires Increasing(free) && Increasing(largest)
    requires forall t :: t in times <==> (exists i :: 0 <= i < |free| && free[i].ts == t) && exists j :: 0 <= j < |largest| && largest[j].ts == t
    ensures times == {} ==> LatestCommon(free, largest).None?
    ensures forall i, j :: CommonAt(free, largest, i, j) && (forall t :: t in times ==> t <= free[i].ts) ==>
              LatestCommon(free, largest) == Some((free[i].value, largest[j].value))
  {
    LatestCommonIsLatest(free, largest);
    forall i, j | CommonAt(free, largest, i, j) ensures free[i].ts in times {}
  }

  /** The dictionary form: intersect the timestamps and take the greatest. */
  method LatestSynchronized(free: seq<Sample>, largest: seq<Sample>) returns (r: Option<(nat, nat)>)
    requires Increasing(free) && Increasing(largest)
    ensures r == LatestCommon(free, largest)
  {
    var freeByTs := ByTimestamp(free);
    var largestByTs := ByTimestamp(largest);
    var synchronized := freeByTs.Keys * largestByTs.Keys;
    CommonTimes(free, largest, synchronized);
    if synchronized == {} { return None; }
    var latest := Greatest(synchronized);
    ghost var i :| 0 <= i < |free| && free[i].ts == latest;
    ghost var j :| 0 <= j < |largest| && largest[j].ts == latest;
    assert CommonAt(free, largest, i, j);
    return Some((freeByTs[latest], largestByTs[latest]));
  }

  function FragmentationFor(raw: map<Identity, RawMetric>, subject: string): Result<real, RebuildFault> {
    var free, largest := Identity(HeapFreeBytes, subject), Identity(HeapLargestFree, subject);
    if free !in raw || largest !in raw then Raised(MissingSemantic)
    else
      match LatestCommon(raw[free].samples, raw[largest].samples)
      case None => Raised(NotSynchronized)
      case Some((f, l)) =>
        if f <= 0 || f < l then Raised(BadFragmentationInputs) else Ok(1.0 - l as real / f as real)
  }

  // ---------------------------------------------------------------- allocators

  function Allocators(raw: map<Identity, RawMetric>): set<string> {
    set i | i in raw && Heap(i.semantic) :: i.subject
  }

  predicate AllocatorComplete(raw: map<Identity, RawMetric>, subject: string) {
    RateFor(raw, subject).Ok? && FragmentationFor(raw, subject).Ok?
  }

  predicate AllocatorsComplete(raw: map<Identity, RawMetric>) {
    forall s :: s in Allocators(raw) ==> AllocatorComplete(raw, s)
  }

  function Derive(raw: map<Identity, RawMetric>): Metrics
    requires AllocatorsComplete(raw)
  {
    Metrics(raw,
            map s | s in Allocators(raw) :: RateFor(raw, s).value,
            map s | s in Allocators(raw) :: FragmentationFor(raw, s).value)
  }

  ghost predicate SamplesIncrease(raw: map<Identity, RawMetric>) {
    forall i :: i in raw ==> Increasing(raw[i].samples)
  }

  method DeriveAllocators(raw: map<Identity, RawMetric>) returns (r: Result<Metrics, RebuildFault>)
    requires SamplesIncrease(raw)
    ensures r.Ok? <==> AllocatorsComplete(raw)
    ensures r.Ok? ==> r.value == Derive(raw)
  {
    var rates: map<string, real>, fragmentations: map<string, real> := map[], map[];
    var remaining := Allocators(raw);
    while remaining != {}
      invariant remaining <= Allocators(raw)
      invariant rates.Keys == fragmentations.Keys == Allocators(raw) - remaining
      invariant forall s :: s in rates ==> DerivesTo(raw, s, rates[s], fragmentations[s])
      decreases remaining
    {
      var s :| s in remaining;
      remaining := remaining - {s};
      var rate := AllocationRate(raw, s);
      if rate.Raised? { return Raised(rate.fault); }
      var fragmentation := ExternalFragmentation(raw, s);
      if fragmentation.Raised? { return Raised(fragmentation.fault); }
      rates := rates[s := rate.value];
      fragmentations := fragmentations[s := fragmentation.value];
    }
    DeriveIs(raw, rates, fragmentations);
    return Ok(Metrics(raw, rates, fragmentations));
  }

  ghost predicate DerivesTo(raw: map<Identity, RawMetric>, subject: string, rate: real, fragmentation: real) {
    RateFor(raw, subject) == Ok(rate) && FragmentationFor(raw, subject) == Ok(fragmentation)
  }

  lemma {:induction false} DeriveIs(raw: map<Identity, RawMetric>, rates: map<string, real>, fragmentations: map<string, real>)
    requires rates.Keys == fragmentations.Keys == Allocators(raw)
    requires forall s :: s in rates ==> DerivesTo(raw, s, rates[s], fragmentations[s])
    ensures AllocatorsComplete(raw) && Derive(raw) == Metrics(raw, rates, fragmentations)
  {
    forall s | s in Allocators(raw) ensures AllocatorComplete(raw, s) {
      assert DerivesTo(raw, s, rates[s], fragmentations[s]);
    }
    forall s | s in Allocators(raw) ensures RateFor(raw, s) == Ok(rates[s]) && FragmentationFor(raw, s) == Ok(fragmentations[s]) {
      assert DerivesTo(raw, s, rates[s], fragmentations[s]);
    }
    RatesAre(raw, rates);
    FragmentationsAre(raw, fragmentations);
  }

  lemma {:induction false} RatesAre(raw: map<Identity, RawMetric>, rates: map<string, real>)
    requires AllocatorsComplete(raw) && rates.Keys == Allocators(raw)
    requires forall s :: s in Allocators(raw) ==> RateFor(raw, s) == Ok(rates[s])
    ensures Derive(raw).rates == rates
  {
    assert Derive(raw).rates.Keys == rates.Keys;
  }

  lemma {:induction false} FragmentationsAre(raw: map<Identity, RawMetric>, fragmentations: map<string, real>)
    requires AllocatorsComplete(raw) && fragmentations.Keys == Allocators(raw)
    requires forall s :: s in Allocators(raw) ==> FragmentationFor(raw, s) == Ok(fragmentations[s])
    ensures Derive(raw).fragmentations == fragmentations
  {
    assert Derive(raw).fragmentations.Keys == fragmentations.Keys;
  }

  method AllocationRate(raw: map<Identity, RawMetric>, subject: string) returns (r: Result<real, RebuildFault>)
    ensures r == RateFor(raw, subject)
  {
    var count := Identity(HeapAllocationCount, subject);
    if count !in raw { return Raised(MissingSemantic); }
    var rows := raw[count].samples;
    if |rows| < 2 { return Raised(TooFewSamples); }
    var window := rows[|rows| - 1].ts - rows[0].ts;
    if window <= 0 { return Raised(TooFewSamples); }
    return Ok((raw[count].value - rows[0].value) as real * NANOSECONDS / window as real);
  }

  method ExternalFragmentation(raw: map<Identity, RawMetric>, subject: string) returns (r: Result<real, RebuildFault>)
    requires SamplesIncrease(raw)
    ensures r == FragmentationFor(raw, subject)
  {
    var free, largest := Identity(HeapFreeBytes, subject), Identity(HeapLargestFree, subject);
    if free !in raw || largest !in raw { return Raised(MissingSemantic); }
    var latest := LatestSynchronized(raw[free].samples, raw[largest].samples);
    if latest.None? { return Raised(NotSynchronized); }
    var (f, l) := latest.value;
    if f <= 0 || f < l { return Raised(BadFragmentationInputs); }
    return Ok(1.0 - l as real / f as real);
  }

  // ---------------------------------------------------------------- usage

  predicate CapacityHolds(raw: map<Identity, RawMetric>, subject: string, capacity: Semantic, current: Semantic, peak: Semantic) {
    Identity(capacity, subject) in raw ==>
      && Identity(current, subject) in raw && Identity(peak, subject) in raw
      && raw[Identity(current, subject)].value <= raw[Identity(peak, subject)].value <= raw[Identity(capacity, subject)].value
  }

  predicate UsageHolds(raw: map<Identity, RawMetric>, subject: string) {
    && CapacityHolds(raw, subject, StackCapacity, StackCurrent, StackPeak)
    && CapacityHolds(raw, subject, TraceCapacity, TraceCurrent, TracePeak)
    && (Identity(HeapCurrent, subject) in raw ==>
          && Identity(HeapPeak, subject) in raw
          && raw[Identity(HeapCurrent, subject)].value <= raw[Identity(HeapPeak, subject)].value)
  }

  ghost predicate UsageHoldsEverywhere(raw: map<Identity, RawMetric>) {
    forall subject :: UsageHolds(raw, subject)
  }

  method CheckUsage(raw: map<Identity, RawMetric>) returns (ok: bool)
    ensures ok <==> UsageHoldsEverywhere(raw)
  {
    var subjects := set i | i in raw :: i.subject;
    var remaining := subjects;
    while remaining != {}
      invariant remaining <= subjects
      invariant forall s :: s in subjects && s !in remaining ==> UsageHolds(raw, s)
      decreases remaining
    {
      var s :| s in remaining;
      remaining := remaining - {s};
      if !UsageHolds(raw, s) { return false; }
    }
    forall s ensures UsageHolds(raw, s) {
      if s !in subjects {
        assert forall semantic :: Identity(semantic, s) in raw ==> Identity(semantic, s).subject in subjects;
      }
    }
    return true;
  }

  // ---------------------------------------------------------------- the whole reconstruction

  /** `header` is None for an empty artifact, otherwise whether its first line is a valid header. */
  ghost predicate Acceptable(header: Option<bool>, records: seq<Record>) {
    && header == Some(true)
    && Run(records).Ok?
    && var p := Run(records).value;
       && 0 < p.resourceCount && 0 < p.functionCount
       && EveryCounterObserved(p)
       && AllocatorsComplete(RawMetrics(p))
       && UsageHoldsEverywhere(RawMetrics(p))
  }

  lemma {:induction false} RawSamplesIncrease(p: Progress)
    requires EveryCounterObserved(p)
    ensures SamplesIncrease(RawMetrics(p))
  {
    forall i | i in RawMetrics(p) ensures Increasing(RawMetrics(p)[i].samples) {
      assert Ordered(p.definitions[p.counters[i]].semantic, p.samples[p.counters[i]]);
    }
  }

  method RebuildDynamicMetrics(header: Option<bool>, records: seq<Record>)
    returns (r: Result<(Metrics, map<Key, Event>), RebuildFault>)
    ensures r.Ok? <==> Acceptable(header, records)
    ensures r.Ok? ==> r.value == (Derive(RawMetrics(Run(records).value)), Run(records).value.observed)
  {
    if header.None? { return Raised(EmptyStream); }
    if !header.value { return Raised(BadHeader); }
    var stream := ReadStream(records);
    if stream.Raised? { return Raised(StreamFault(stream.fault)); }
    var p := stream.value;
    RunKeepsInvariant(records);
    if p.resourceCount == 0 { return Raised(NoCounters); }
    if p.functionCount == 0 { return Raised(NoFunctions); }
    var raw := CollectRawMetrics(p);
    if raw.None? { return Raised(NoObservations); }
    RawSamplesIncrease(p);
    var metrics := DeriveAllocators(raw.value);
    if metrics.Raised? { return Raised(metrics.fault); }
    var ok := CheckUsage(raw.value);
    if !ok { return Raised(UsageViolated); }
    return Ok((metrics.value, p.observed));
  }

  // ---------------------------------------------------------------- properties of accepted evidence

  /** Identities and counters correspond one to one, and every metric summarises its counter's samples. */
  lemma {:induction false} MetricsFollowCounters(header: Option<bool>, records: seq<Record>)
    requires Acceptable(header, records)
    ensures var p := Run(records).value;
            && (forall c :: c in p.definitions ==> p.counters[p.definitions[c]] == c)
            && (forall c, d :: c in p.definitions && d in p.definitions && p.definitions[c] == p.definitions[d] ==> c == d)
            && RawMetrics(p).Keys == p.counters.Keys == p.definitions.Values
            && forall c :: c in p.definitions ==> RawMetrics(p)[p.definitions[c]].samples == p.samples[c]
  {
    RunKeepsInvariant(records);
    var p := Run(records).value;
    assert forall i :: i in p.counters ==> p.definitions[p.counters[i]] == i;
    assert p.counters.Keys == p.definitions.Values;
  }

  /** The reported value of a high-watermark is the maximum of all its samples. */
  lemma {:induction false} HighWatermarkIsMaximum(header: Option<bool>, records: seq<Record>, i: Identity)
    requires Acceptable(header, records) && i in RawMetrics(Run(records).value) && Monotonic(i.semantic)
    ensures var m := RawMetrics(Run(records).value)[i];
            && (exists k :: 0 <= k < |m.samples| && m.samples[k].value == m.value)
            && forall k :: 0 <= k < |m.samples| ==> m.samples[k].value <= m.value
  {
    var p := Run(records).value;
    assert Ordered(p.definitions[p.counters[i]].semantic, p.samples[p.counters[i]]);
    var m := RawMetrics(p)[i];
    assert m.samples[|m.samples| - 1].value == m.value;
  }

  /** Every sample of a peak, not only the last, stays within every sample of its capacity. */
  lemma {:induction false} PeaksStayWithinCapacity(header: Option<bool>, records: seq<Record>, subject: string, capacity: Semantic, peak: Semantic)
    requires Acceptable(header, records)
    requires (capacity == StackCapacity && peak == StackPeak) || (capacity == TraceCapacity && peak == TracePeak)
    requires Identity(capacity, subject) in RawMetrics(Run(records).value)
    ensures var raw := RawMetrics(Run(records).value);
            && Identity(peak, subject) in raw
            && forall k, n :: 0 <= k < |raw[Identity(peak, subject)].samples| && 0 <= n < |raw[Identity(capacity, subject)].samples| ==>
                 raw[Identity(peak, subject)].samples[k].value <= raw[Identity(capacity, subject)].samples[n].value
  {
    var p := Run(records).value;
    var raw := RawMetrics(p);
    var c, k := Identity(capacity, subject), Identity(peak, subject);
    assert UsageHolds(raw, subject);
    HighWatermarkIsMaximum(header, records, k);
    assert Ordered(p.definitions[p.counters[c]].semantic, p.samples[p.counters[c]]);
    var rows := raw[c].samples;
    forall n | 0 <= n < |rows| ensures rows[n].value == raw[c].value {
      if n < |rows| - 1 { assert rows[n].value == rows[|rows| - 1].value; }
    }
  }

  lemma {:induction false} RateNonNegative(raw: map<Identity, RawMetric>, subject: string)
    requires RateFor(raw, subject).Ok?
    requires raw[Identity(HeapAllocationCount, subject)].samples[0].value <= raw[Identity(HeapAllocationCount, subject)].value
    ensures 0.0 <= RateFor(raw, subject).value
  {
    var m := raw[Identity(HeapAllocationCount, subject)];
    QuotientInRange((m.value - m.samples[0].value) as real * NANOSECONDS,
                    (m.samples[|m.samples| - 1].ts - m.samples[0].ts) as real);
  }

  lemma {:induction false} FragmentationInRange(raw: map<Identity, RawMetric>, subject: string)
    requires FragmentationFor(raw, subject).Ok?
    ensures 0.0 <= FragmentationFor(raw, subject).value <= 1.0
  {
    var (f, l) := LatestCommon(raw[Identity(HeapFreeBytes, subject)].samples, raw[Identity(HeapLargestFree, subject)].samples).value;
    QuotientInRange(l as real, f as real);
  }

  lemma {:induction false} QuotientInRange(a: real, b: real)
    requires 0.0 <= a && 0.0 < b
    ensures 0.0 <= a / b && (a <= b ==> a / b <= 1.0)
  {
  }

  /** Allocation rates are never negative and fragmentation is a ratio. */
  lemma {:induction false} DerivedMetricsInRange(header: Option<bool>, records: seq<Record>, subject: string)
    requires Acceptable(header, records) && subject in Allocators(RawMetrics(Run(records).value))
    ensures var m := Derive(RawMetrics(Run(records).value));
            0.0 <= m.rates[subject] && 0.0 <= m.fragmentations[subject] <= 1.0
  {
    var raw := RawMetrics(Run(records).value);
    assert AllocatorComplete(raw, subject);
    HighWatermarkIsMaximum(header, records, Identity(HeapAllocationCount, subject));
    RateNonNegative(raw, subject);
    FragmentationInRange(raw, subject);
  }
}
