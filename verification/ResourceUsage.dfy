/** Current usage against capacity: what the comparison of last values implies about all samples. */
module ResourceUsage {
  import opened Outcomes
  import opened CounterStream
  import opened ResourceMetrics

  /** Every event of the second counter carries at most the value of the first event of the first. */
  predicate EventsStayWithin(records: seq<Record>, limit: string, counter: string) {
    var limits := Observations(records, limit);
    limits != [] && forall v :: v in Observations(records, counter) ==> v <= limits[0]
  }

  /** The samples of a metric are the values of its counter's events, in order. */
  lemma {:induction false} MetricIsObservations(header: Option<bool>, records: seq<Record>, c: string, i: Identity)
    requires Acceptable(header, records) && Declares(records, c, i)
    ensures var raw := RawMetrics(Run(records).value);
            i in raw && Values(raw[i].samples) == Observations(records, c)
  {
    SamplesAreObservations(records, c, i);
  }

  lemma {:induction false} MetricIsDeclared(header: Option<bool>, records: seq<Record>, i: Identity) returns (c: string)
    requires Acceptable(header, records) && i in RawMetrics(Run(records).value)
    ensures Declares(records, c, i)
  {
    c := Run(records).value.counters[i];
    SamplesAreObservations(records, c, i);
  }

  lemma {:induction false} CapacityIsConstant(header: Option<bool>, records: seq<Record>, i: Identity)
    requires Acceptable(header, records) && i in RawMetrics(Run(records).value) && Capacity(i.semantic)
    ensures var m := RawMetrics(Run(records).value)[i];
            m.samples != [] && forall k :: 0 <= k < |m.samples| ==> m.samples[k].value == m.value
  {
    var p := Run(records).value;
    assert Ordered(p.definitions[p.counters[i]].semantic, p.samples[p.counters[i]]);
    var rows := RawMetrics(p)[i].samples;
    forall k | 0 <= k < |rows| ensures rows[k].value == rows[|rows| - 1].value {
      if k < |rows| - 1 { assert rows[k].value == rows[|rows| - 1].value; }
    }
  }

  lemma {:induction false} ValuesAre(rows: seq<Sample>, limit: nat)
    ensures (forall k :: 0 <= k < |rows| ==> rows[k].value <= limit) <==> (forall v :: v in Values(rows) ==> v <= limit)
  {
    forall k | 0 <= k < |rows| ensures rows[k].value in Values(rows) {
      assert Values(rows)[k] == rows[k].value;
    }
  }

  ghost predicate SamplesStayWithin(m: RawMetric, limit: nat) {
    forall k :: 0 <= k < |m.samples| ==> m.samples[k].value <= limit
  }

  lemma {:induction false} StaysWithinIffEvents(
      header: Option<bool>, records: seq<Record>, a: string, of: Identity, b: string, used: Identity)
    requires Acceptable(header, records) && Capacity(of.semantic)
    requires Declares(records, a, of) && Declares(records, b, used)
    ensures var raw := RawMetrics(Run(records).value);
            && of in raw && used in raw
            && (SamplesStayWithin(raw[used], raw[of].value) <==> EventsStayWithin(records, a, b))
  {
    var raw := RawMetrics(Run(records).value);
    MetricIsObservations(header, records, a, of);
    MetricIsObservations(header, records, b, used);
    CapacityIsConstant(header, records, of);
    FirstOfConstant(raw[of].samples, raw[of].value);
    ValuesAre(raw[used].samples, raw[of].value);
  }

  lemma {:induction false} FirstOfConstant(rows: seq<Sample>, value: nat)
    requires rows != [] && forall k :: 0 <= k < |rows| ==> rows[k].value == value
    ensures Values(rows) != [] && Values(rows)[0] == value
  {
  }

  /** The usage check compares last values. Over all its samples the current usage of accepted evidence
      stays within the capacity exactly when the events of the stream say so. */
  lemma {:induction false} CurrentStaysWithinCapacityIff(
      header: Option<bool>, records: seq<Record>, subject: string, capacity: Semantic, current: Semantic)
    requires Acceptable(header, records)
    requires (capacity == StackCapacity && current == StackCurrent) || (capacity == TraceCapacity && current == TraceCurrent)
    requires Identity(capacity, subject) in RawMetrics(Run(records).value)
    ensures var raw, of, used := RawMetrics(Run(records).value), Identity(capacity, subject), Identity(current, subject);
            && used in raw
            && (exists a, b :: Declares(records, a, of) && Declares(records, b, used))
            && forall a, b :: Declares(records, a, of) && Declares(records, b, used) ==>
                 (SamplesStayWithin(raw[used], raw[of].value) <==> EventsStayWithin(records, a, b))
  {
    var raw, of, used := RawMetrics(Run(records).value), Identity(capacity, subject), Identity(current, subject);
    assert UsageHolds(raw, subject);
    var x := MetricIsDeclared(header, records, of);
    var y := MetricIsDeclared(header, records, used);
    forall a, b | Declares(records, a, of) && Declares(records, b, used)
      ensures SamplesStayWithin(raw[used], raw[of].value) <==> EventsStayWithin(records, a, b)
    {
      StaysWithinIffEvents(header, records, a, of, b, used);
    }
  }

  ghost predicate BoundedBy(values: seq<nat>, tops: seq<nat>) {
    forall v :: v in values ==> exists w :: w in tops && v <= w
  }

  /** A peak that no event of the current usage exceeds is enough: then no sample exceeds the capacity. */
  lemma {:induction false} TruePeakBoundsCurrent(
      header: Option<bool>, records: seq<Record>, subject: string, capacity: Semantic, current: Semantic, peak: Semantic,
      peaks: string, used: string)
    requires Acceptable(header, records)
    requires (capacity == StackCapacity && current == StackCurrent && peak == StackPeak)
          || (capacity == TraceCapacity && current == TraceCurrent && peak == TracePeak)
    requires Identity(capacity, subject) in RawMetrics(Run(records).value)
    requires Declares(records, peaks, Identity(peak, subject)) && Declares(records, used, Identity(current, subject))
    requires BoundedBy(Observations(records, used), Observations(records, peaks))
    ensures var raw := RawMetrics(Run(records).value);
            && Identity(current, subject) in raw
            && SamplesStayWithin(raw[Identity(current, subject)], raw[Identity(capacity, subject)].value)
  {
    var raw := RawMetrics(Run(records).value);
    assert UsageHolds(raw, subject);
    MetricIsObservations(header, records, peaks, Identity(peak, subject));
    MetricIsObservations(header, records, used, Identity(current, subject));
    HighWatermarkIsMaximum(header, records, Identity(peak, subject));
    var top := raw[Identity(peak, subject)];
    ValuesAre(top.samples, top.value);
    BoundedByAll(Observations(records, used), Observations(records, peaks), top.value);
    ValuesAre(raw[Identity(current, subject)].samples, top.value);
  }

  lemma {:induction false} BoundedByAll(values: seq<nat>, tops: seq<nat>, limit: nat)
    requires BoundedBy(values, tops)
    requires forall w :: w in tops ==> w <= limit
    ensures forall v :: v in values ==> v <= limit
  {
  }

  // ---------------------------------------------------------------- streams whose earlier usage exceeds the capacity

  /** A source, three counters of one stack, a limit, and a usage that is high before it is low. */
  datatype Excess = Excess(
    source: string, of: string, used: string, top: string, subject: string, limit: nat, high: nat, low: nat)

  predicate Proper(x: Excess) {
    && BoundedText(x.source) && BoundedText(x.of) && BoundedText(x.used) && BoundedText(x.top)
    && x.of != x.used && x.used != x.top && x.of != x.top
    && x.low <= x.limit < x.high <= MAX_SAFE_INTEGER
  }

  function Reading(source: string, sequence: nat, ts: int, counter: string, value: nat): Event {
    CounterEvent(Some(source), Some(sequence), Some(ts), true, Some(counter), Some(value))
  }

  function Watch(c: string, i: Identity): Record {
    Record([ResourceCounter(c, i)], NoType)
  }

  function Of(x: Excess): Identity { Identity(StackCapacity, x.subject) }
  function Used(x: Excess): Identity { Identity(StackCurrent, x.subject) }
  function Top(x: Excess): Identity { Identity(StackPeak, x.subject) }

  function Dictionary(x: Excess): seq<Record> {
    [Watch(x.of, Of(x)), Watch(x.used, Used(x)), Watch(x.top, Top(x))]
  }

  function EarlierExcess(x: Excess): seq<Record> {
    Dictionary(x)
    + [Record([], FunctionEvent(Some(x.source), Some(0), Some(0)))]
    + [Record([], Reading(x.source, 1, 0, x.of, x.limit))] + [Record([], Reading(x.source, 2, 0, x.used, x.high))]
    + [Record([], Reading(x.source, 3, 0, x.top, x.limit))] + [Record([], Reading(x.source, 4, 1, x.used, x.low))]
  }

  lemma {:induction false} WatchDefines(records: seq<Record>, c: string, i: Identity)
    requires Run(records).Ok? && !Run(records).value.started
    requires var p := Run(records).value;
             c !in p.definitions && c !in p.ignored && i !in p.counters && |p.definitions| < MAX_COUNTER_DEFINITIONS
    ensures var p := Run(records).value;
            Run(records + [Watch(c, i)]) == Ok(p.(definitions := p.definitions[c := i], counters := p.counters[i := c]))
  {
    RunAppend(records, Watch(c, i));
    var p, e := Run(records).value, ResourceCounter(c, i);
    assert DefineAll(p, [e]) == Define(p, e) by { assert [e][..0] == []; }
  }

  lemma {:induction false} DictionaryRuns(x: Excess)
    requires Proper(x)
    ensures Run(Dictionary(x)) ==
            Ok(START.(definitions := map[][x.of := Of(x)][x.used := Used(x)][x.top := Top(x)],
                      counters := map[][Of(x) := x.of][Used(x) := x.used][Top(x) := x.top]))
  {
    WatchDefines([], x.of, Of(x));
    assert [] + [Watch(x.of, Of(x))] == [Watch(x.of, Of(x))];
    WatchDefines([Watch(x.of, Of(x))], x.used, Used(x));
    assert [Watch(x.of, Of(x))] + [Watch(x.used, Used(x))] == [Watch(x.of, Of(x)), Watch(x.used, Used(x))];
    WatchDefines([Watch(x.of, Of(x)), Watch(x.used, Used(x))], x.top, Top(x));
    assert [Watch(x.of, Of(x)), Watch(x.used, Used(x))] + [Watch(x.top, Top(x))] == Dictionary(x);
  }

  /** What a stream has read: the three counters, one function event, and the observations below `next`. */
  ghost predicate Reached(records: seq<Record>, x: Excess, next: nat, samples: map<string, seq<Sample>>) {
    && 0 < next && Run(records).Ok?
    && var p := Run(records).value;
       && p.definitions == map[][x.of := Of(x)][x.used := Used(x)][x.top := Top(x)]
       && p.counters == map[][Of(x) := x.of][Used(x) := x.used][Top(x) := x.top]
       && p.ignored == {} && p.resourceCount == next - 1 && p.functionCount == 1 && p.samples == samples
       && forall k :: k in p.observed ==> k.sequence < next
  }

  /** An observation of a known counter that breaks no rule adds its sample. */
  lemma {:induction false} ReadingAdds(
      records: seq<Record>, x: Excess, next: nat, samples: map<string, seq<Sample>>, c: string, i: Identity, before: seq<Sample>,
      ts: int, value: nat)
    requires Reached(records, x, next, samples) && next < 10 && Defined(records, c, i)
    requires before == SamplesOf(samples, c) && Continues(i.semantic, before, Sample(ts, value, Key(x.source, next))).None?
    ensures Reached(records + [Record([], Reading(x.source, next, ts, c, value))], x, next + 1,
                    samples[c := before + [Sample(ts, value, Key(x.source, next))]])
  {
    RunAppend(records, Record([], Reading(x.source, next, ts, c, value)));
    var p := Run(records).value;
    assert Key(x.source, next) !in p.observed;
    assert StepEvent(p, Reading(x.source, next, ts, c, value)).Ok?;
  }

  ghost predicate Defined(records: seq<Record>, c: string, i: Identity) {
    Run(records).Ok? && var d := Run(records).value.definitions; c in d && d[c] == i
  }

  lemma {:induction false} ReachedDefines(records: seq<Record>, x: Excess, next: nat, samples: map<string, seq<Sample>>)
    requires Proper(x) && Reached(records, x, next, samples)
    ensures Defined(records, x.of, Of(x)) && Defined(records, x.used, Used(x)) && Defined(records, x.top, Top(x))
  {
  }

  function Begun(x: Excess): seq<Record> {
    Dictionary(x) + [Record([], FunctionEvent(Some(x.source), Some(0), Some(0)))]
  }

  lemma {:induction false} FunctionEventCounts(x: Excess, p: Progress)
    requires p.observed == map[]
    ensures StepEvent(p, FunctionEvent(Some(x.source), Some(0), Some(0))) ==
            Ok(p.(observed := map[][Key(x.source, 0) := FunctionEvent(Some(x.source), Some(0), Some(0))],
                   started := true, functionCount := p.functionCount + 1))
  {
  }

  lemma {:induction false} BegunReached(x: Excess)
    requires Proper(x)
    ensures Reached(Begun(x), x, 1, map[])
  {
    DictionaryRuns(x);
    FunctionEventCounts(x, Run(Dictionary(x)).value);
    RunAppend(Dictionary(x), Record([], FunctionEvent(Some(x.source), Some(0), Some(0))));
  }

  function Half(x: Excess): seq<Record> {
    Begun(x) + [Record([], Reading(x.source, 1, 0, x.of, x.limit))] + [Record([], Reading(x.source, 2, 0, x.used, x.high))]
  }

  function HalfSamples(x: Excess): map<string, seq<Sample>> {
    map[][x.of := [] + [Sample(0, x.limit, Key(x.source, 1))]][x.used := [] + [Sample(0, x.high, Key(x.source, 2))]]
  }

  lemma {:induction false} HalfReached(x: Excess)
    requires Proper(x)
    ensures Reached(Half(x), x, 3, HalfSamples(x))
  {
    BegunReached(x);
    ReachedDefines(Begun(x), x, 1, map[]);
    ReadingAdds(Begun(x), x, 1, map[], x.of, Of(x), [], 0, x.limit);
    var r1, m1 := Begun(x) + [Record([], Reading(x.source, 1, 0, x.of, x.limit))], map[][x.of := [] + [Sample(0, x.limit, Key(x.source, 1))]];
    ReachedDefines(r1, x, 2, m1);
    ReadingAdds(r1, x, 2, m1, x.used, Used(x), [], 0, x.high);
  }

  function ExcessSamples(x: Excess): map<string, seq<Sample>> {
    HalfSamples(x)[x.top := [] + [Sample(0, x.limit, Key(x.source, 3))]]
                  [x.used := [] + [Sample(0, x.high, Key(x.source, 2))] + [Sample(1, x.low, Key(x.source, 4))]]
  }

  lemma {:induction false} ExcessReached(x: Excess)
    requires Proper(x)
    ensures Reached(EarlierExcess(x), x, 5, ExcessSamples(x))
  {
    HalfReached(x);
    var h, m := Half(x), HalfSamples(x);
    ReachedDefines(h, x, 3, m);
    ReadingAdds(h, x, 3, m, x.top, Top(x), [], 0, x.limit);
    var r, n := h + [Record([], Reading(x.source, 3, 0, x.top, x.limit))], m[x.top := [] + [Sample(0, x.limit, Key(x.source, 3))]];
    ReachedDefines(r, x, 4, n);
    ReadingAdds(r, x, 4, n, x.used, Used(x), [] + [Sample(0, x.high, Key(x.source, 2))], 1, x.low);
  }

  /** Accepted streams in which the current usage exceeded the capacity before it fell again. */
  lemma {:induction false} EarlierUsageIsUnchecked(x: Excess)
    requires Proper(x)
    ensures var records := EarlierExcess(x);
            && AllReadable(records) && Acceptable(Some(true), records)
            && var raw := RawMetrics(Run(records).value);
               && Of(x) in raw && Used(x) in raw
               && raw[Of(x)].value == x.limit && raw[Used(x)].value == x.low && raw[Used(x)].samples[0].value == x.high
               && !SamplesStayWithin(raw[Used(x)], raw[Of(x)].value)
  {
    var records := EarlierExcess(x);
    ExcessReadable(x);
    ExcessReached(x);
    RunKeepsInvariant(records);
    var p := Run(records).value;
    ExcessObserved(x, p);
    ExcessRaw(x, p);
    ExcessUsage(x, RawMetrics(p));
    assert RawMetrics(p)[Used(x)].samples[0].value > RawMetrics(p)[Of(x)].value;
  }

  predicate AllReadable(records: seq<Record>) {
    forall r :: r in records ==> Readable(r)
  }

  lemma {:induction false} ExcessReadable(x: Excess)
    requires Proper(x)
    ensures AllReadable(EarlierExcess(x))
  {
    forall r | r in Dictionary(x) ensures Readable(r) {
      assert r == Watch(x.of, Of(x)) || r == Watch(x.used, Used(x)) || r == Watch(x.top, Top(x));
    }
  }

  predicate OnlyThree(x: Excess, definitions: map<string, Identity>) {
    forall c :: c in definitions ==> c == x.of || c == x.used || c == x.top
  }

  lemma {:induction false} ExcessObserved(x: Excess, p: Progress)
    requires Proper(x) && Invariant(p) && p.samples == ExcessSamples(x) && OnlyThree(x, p.definitions)
    ensures EveryCounterObserved(p)
  {
    ExcessLookups(x);
  }

  ghost predicate ExcessMetrics(x: Excess, raw: map<Identity, RawMetric>) {
    && (forall i :: i in raw <==> i == Of(x) || i == Used(x) || i == Top(x))
    && raw[Of(x)].value == x.limit && raw[Top(x)].value == x.limit && raw[Used(x)].value == x.low
    && raw[Used(x)].samples != [] && raw[Used(x)].samples[0].value == x.high
  }

  predicate ExcessIndex(x: Excess, counters: map<Identity, string>) {
    && (forall i :: i in counters ==> i == Of(x) || i == Used(x) || i == Top(x))
    && Of(x) in counters && counters[Of(x)] == x.of && Used(x) in counters && counters[Used(x)] == x.used
    && Top(x) in counters && counters[Top(x)] == x.top
  }

  lemma {:induction false} ExcessRaw(x: Excess, p: Progress)
    requires Proper(x) && EveryCounterObserved(p) && p.samples == ExcessSamples(x) && ExcessIndex(x, p.counters)
    ensures ExcessMetrics(x, RawMetrics(p))
  {
    ExcessLookups(x);
    RawLookup(p, Of(x), x.of);
    RawLookup(p, Used(x), x.used);
    RawLookup(p, Top(x), x.top);
  }

  lemma {:induction false} ExcessLookups(x: Excess)
    requires Proper(x)
    ensures var m := ExcessSamples(x);
            && x.of in m && m[x.of] == [Sample(0, x.limit, Key(x.source, 1))]
            && x.used in m && m[x.used] == [Sample(0, x.high, Key(x.source, 2)), Sample(1, x.low, Key(x.source, 4))]
            && x.top in m && m[x.top] == [Sample(0, x.limit, Key(x.source, 3))]
  {
  }

  lemma {:induction false} RawLookup(p: Progress, i: Identity, c: string)
    requires EveryCounterObserved(p) && i in p.counters && p.counters[i] == c
    ensures c in p.samples && p.samples[c] != [] && i in RawMetrics(p) && RawMetrics(p)[i] == Summary(p.samples[c])
  {
  }

  lemma {:induction false} ExcessUsage(x: Excess, raw: map<Identity, RawMetric>)
    requires ExcessMetrics(x, raw) && x.low <= x.limit
    ensures UsageHoldsEverywhere(raw) && AllocatorsComplete(raw)
  {
    assert forall i :: i in raw ==> i.subject == x.subject && !Heap(i.semantic);
    forall s ensures UsageHolds(raw, s) {
    }
    assert Allocators(raw) == {};
  }

  // ---------------------------------------------------------------- every accepted stream can go on to exceed

  /** An observation of a defined counter that breaks no rule. */
  function Counted(p: Progress, e: Event, c: string, s: Sample): Progress {
    p.(observed := p.observed[s.key := e], started := true, resourceCount := p.resourceCount + 1,
       samples := p.samples[c := SamplesOf(p.samples, c) + [s]])
  }

  lemma {:induction false} ReadingCounts(records: seq<Record>, source: string, sequence: nat, ts: int, c: string, value: nat)
    requires Run(records).Ok?
    requires var p := Run(records).value;
             && c in p.definitions && c !in p.ignored && Key(source, sequence) !in p.observed
             && p.resourceCount < MAX_RESOURCE_OBSERVATIONS
             && Continues(p.definitions[c].semantic, SamplesOf(p.samples, c), Sample(ts, value, Key(source, sequence))).None?
    ensures var e := Reading(source, sequence, ts, c, value);
            Run(records + [Record([], e)]) == Ok(Counted(Run(records).value, e, c, Sample(ts, value, Key(source, sequence))))
  {
    RunAppend(records, Record([], Reading(source, sequence, ts, c, value)));
  }

  /** Two more readings of the current usage: above the capacity, and back at its last value. */
  datatype Detour = Detour(source: string, sequence: nat, ts: int, counter: string, high: nat, last: nat)

  function Detoured(records: seq<Record>, d: Detour): seq<Record> {
    records
    + [Record([], Reading(d.source, d.sequence, d.ts, d.counter, d.high))]
    + [Record([], Reading(d.source, d.sequence + 1, d.ts + 1, d.counter, d.last))]
  }

  function DetourSamples(d: Detour): seq<Sample> {
    [Sample(d.ts, d.high, Key(d.source, d.sequence)), Sample(d.ts + 1, d.last, Key(d.source, d.sequence + 1))]
  }

  /** The detour is later than every sample so far, under identities that are still free. */
  predicate Follows(p: Progress, d: Detour) {
    && Key(d.source, d.sequence) !in p.observed && Key(d.source, d.sequence + 1) !in p.observed
    && p.resourceCount + 2 <= MAX_RESOURCE_OBSERVATIONS
    && forall s :: s in SamplesOf(p.samples, d.counter) ==> s.ts < d.ts
  }

  /** What the two readings change: more samples of one counter, and no more than that. */
  ghost predicate Extends(p: Progress, q: Progress, d: Detour) {
    && q.definitions == p.definitions && q.ignored == p.ignored && q.counters == p.counters && q.functionCount == p.functionCount
    && q.resourceCount == p.resourceCount + 2
    && q.samples == p.samples[d.counter := SamplesOf(p.samples, d.counter) + DetourSamples(d)]
  }

  lemma {:induction false} DetourContinues(semantic: Semantic, rows: seq<Sample>, d: Detour)
    requires !Monotonic(semantic) && !Capacity(semantic) && forall s :: s in rows ==> s.ts < d.ts
    ensures Continues(semantic, rows, DetourSamples(d)[0]).None?
    ensures Continues(semantic, rows + [DetourSamples(d)[0]], DetourSamples(d)[1]).None?
    ensures rows + [DetourSamples(d)[0]] + [DetourSamples(d)[1]] == rows + DetourSamples(d)
  {
    if rows != [] { assert rows[|rows| - 1] in rows; }
  }

  lemma {:induction false} DetourRuns(records: seq<Record>, d: Detour)
    requires Run(records).Ok? && Follows(Run(records).value, d)
    requires var p := Run(records).value;
             && d.counter in p.definitions && d.counter !in p.ignored
             && !Monotonic(p.definitions[d.counter].semantic) && !Capacity(p.definitions[d.counter].semantic)
    ensures Run(Detoured(records, d)).Ok? && Extends(Run(records).value, Run(Detoured(records, d)).value, d)
  {
    var p, c := Run(records).value, d.counter;
    DetourContinues(p.definitions[c].semantic, SamplesOf(p.samples, c), d);
    ReadingCounts(records, d.source, d.sequence, d.ts, c, d.high);
    var once := records + [Record([], Reading(d.source, d.sequence, d.ts, c, d.high))];
    ReadingCounts(once, d.source, d.sequence + 1, d.ts + 1, c, d.last);
  }

  /** The metrics differ in one identity only, and there only in the samples. */
  ghost predicate OnlySamplesDiffer(raw: map<Identity, RawMetric>, other: map<Identity, RawMetric>, used: Identity) {
    && other.Keys == raw.Keys && used in raw && other[used].value == raw[used].value
    && forall i :: i in raw && i != used ==> other[i] == raw[i]
  }

  lemma {:induction false} ExtendsObserved(p: Progress, q: Progress, d: Detour)
    requires EveryCounterObserved(p) && Invariant(q) && Extends(p, q, d)
    ensures EveryCounterObserved(q)
  {
  }

  lemma {:induction false} ExtendedMetric(p: Progress, q: Progress, d: Detour, used: Identity)
    requires EveryCounterObserved(p) && EveryCounterObserved(q) && Extends(p, q, d)
    requires used in p.counters && p.counters[used] == d.counter
    ensures used in RawMetrics(q)
    ensures RawMetrics(q)[used] == RawMetric(d.last, RawMetrics(p)[used].samples + DetourSamples(d))
  {
    var rows := p.samples[d.counter] + DetourSamples(d);
    assert rows[|rows| - 1].value == d.last;
    RawLookup(q, used, d.counter);
  }

  lemma {:induction false} OtherMetric(p: Progress, q: Progress, d: Detour, used: Identity, i: Identity)
    requires EveryCounterObserved(p) && EveryCounterObserved(q) && Extends(p, q, d)
    requires used in p.counters && p.counters[used] == d.counter && i in p.counters && i != used
    ensures i in RawMetrics(q) && RawMetrics(q)[i] == RawMetrics(p)[i]
  {
    assert p.definitions[p.counters[i]] == i && p.definitions[d.counter] == used;
    RawLookup(p, i, p.counters[i]);
    RawLookup(q, i, p.counters[i]);
  }

  lemma {:induction false} DetourMetrics(p: Progress, q: Progress, d: Detour, used: Identity)
    requires EveryCounterObserved(p) && EveryCounterObserved(q) && Extends(p, q, d)
    requires used in p.counters && p.counters[used] == d.counter && RawMetrics(p)[used].value == d.last
    ensures OnlySamplesDiffer(RawMetrics(p), RawMetrics(q), used)
  {
    ExtendedMetric(p, q, d, used);
    forall i | i in RawMetrics(p) && i != used ensures RawMetrics(q)[i] == RawMetrics(p)[i] {
      OtherMetric(p, q, d, used, i);
    }
  }

  lemma {:induction false} SameAllocator(raw: map<Identity, RawMetric>, other: map<Identity, RawMetric>, used: Identity, s: string)
    requires OnlySamplesDiffer(raw, other, used) && !Heap(used.semantic)
    ensures RateFor(other, s) == RateFor(raw, s) && FragmentationFor(other, s) == FragmentationFor(raw, s)
  {
    assert Identity(HeapAllocationCount, s) != used && Identity(HeapFreeBytes, s) != used && Identity(HeapLargestFree, s) != used;
  }

  /** Metrics that differ only in earlier samples of a counter outside the heap pass the same checks. */
  lemma {:induction false} SameChecks(raw: map<Identity, RawMetric>, other: map<Identity, RawMetric>, used: Identity)
    requires OnlySamplesDiffer(raw, other, used) && !Heap(used.semantic)
    requires AllocatorsComplete(raw) && UsageHoldsEverywhere(raw)
    ensures AllocatorsComplete(other) && UsageHoldsEverywhere(other)
  {
    assert Allocators(other) == Allocators(raw);
    forall s | s in Allocators(other) ensures AllocatorComplete(other, s) {
      assert AllocatorComplete(raw, s);
      SameAllocator(raw, other, used, s);
    }
    forall s ensures UsageHolds(other, s) { SameUsage(raw, other, used, s); }
  }

  lemma {:induction false} SameUsage(raw: map<Identity, RawMetric>, other: map<Identity, RawMetric>, used: Identity, s: string)
    requires OnlySamplesDiffer(raw, other, used) && UsageHoldsEverywhere(raw)
    ensures UsageHolds(other, s)
  {
    assert UsageHolds(raw, s);
    assert forall i :: i in raw ==> other[i].value == raw[i].value;
  }

  lemma {:induction false} DetourIsAccepted(header: Option<bool>, records: seq<Record>, d: Detour, used: Identity)
    requires Acceptable(header, records) && Follows(Run(records).value, d) && Declares(records, d.counter, used)
    requires !Monotonic(used.semantic) && !Capacity(used.semantic) && !Heap(used.semantic)
    requires used in RawMetrics(Run(records).value) && RawMetrics(Run(records).value)[used].value == d.last
    ensures Acceptable(header, Detoured(records, d))
    ensures var p, q := Run(records).value, Run(Detoured(records, d)).value;
            Extends(p, q, d) && OnlySamplesDiffer(RawMetrics(p), RawMetrics(q), used)
            && RawMetrics(q)[used].samples == RawMetrics(p)[used].samples + DetourSamples(d)
  {
    var p := Run(records).value;
    SamplesAreObservations(records, d.counter, used);
    DetourRuns(records, d);
    RunKeepsInvariant(Detoured(records, d));
    var q := Run(Detoured(records, d)).value;
    ExtendsObserved(p, q, d);
    ExtendedMetric(p, q, d, used);
    DetourMetrics(p, q, d, used);
    SameChecks(RawMetrics(p), RawMetrics(q), used);
  }

  lemma {:induction false} DetourIsReadable(records: seq<Record>, d: Detour, used: Identity)
    requires Declares(records, d.counter, used) && d.last <= d.high
    ensures AllReadable(records) && BoundedText(d.source) && d.high <= MAX_SAFE_INTEGER ==> AllReadable(Detoured(records, d))
  {
    var r :| r in records && ResourceCounter(d.counter, used) in r.entries;
  }

  lemma {:induction false} LastWithinCapacity(raw: map<Identity, RawMetric>, subject: string, capacity: Semantic, current: Semantic)
    requires UsageHoldsEverywhere(raw) && Identity(capacity, subject) in raw
    requires (capacity == StackCapacity && current == StackCurrent) || (capacity == TraceCapacity && current == TraceCurrent)
    ensures Identity(current, subject) in raw && raw[Identity(current, subject)].value <= raw[Identity(capacity, subject)].value
  {
    assert UsageHolds(raw, subject);
  }

  lemma {:induction false} HighSampleExceeds(m: RawMetric, before: seq<Sample>, d: Detour, limit: nat)
    requires m.samples == before + DetourSamples(d) && limit < d.high
    ensures !SamplesStayWithin(m, limit)
  {
    assert m.samples[|before|].value == d.high;
  }

  /** Whatever else a stream has shown, no accepted stream is safe from it: any stack or trace buffer
      with a capacity can exceed it and return, and the longer stream is accepted again. */
  lemma {:induction false} ExcessCanFollow(
      header: Option<bool>, records: seq<Record>, subject: string, capacity: Semantic, current: Semantic, d: Detour)
    requires Acceptable(header, records)
    requires (capacity == StackCapacity && current == StackCurrent) || (capacity == TraceCapacity && current == TraceCurrent)
    requires var raw := RawMetrics(Run(records).value);
             && Identity(capacity, subject) in raw && Identity(current, subject) in raw
             && raw[Identity(capacity, subject)].value < d.high && raw[Identity(current, subject)].value == d.last
    requires Declares(records, d.counter, Identity(current, subject)) && Follows(Run(records).value, d)
    ensures Acceptable(header, Detoured(records, d))
    ensures AllReadable(records) && BoundedText(d.source) && d.high <= MAX_SAFE_INTEGER ==> AllReadable(Detoured(records, d))
    ensures var raw := RawMetrics(Run(Detoured(records, d)).value);
            && Identity(capacity, subject) in raw && Identity(current, subject) in raw
            && !SamplesStayWithin(raw[Identity(current, subject)], raw[Identity(capacity, subject)].value)
  {
    var of, used := Identity(capacity, subject), Identity(current, subject);
    DetourIsAccepted(header, records, d, used);
    LastWithinCapacity(RawMetrics(Run(records).value), subject, capacity, current);
    DetourIsReadable(records, d, used);
    var raw := RawMetrics(Run(Detoured(records, d)).value);
    HighSampleExceeds(raw[used], RawMetrics(Run(records).value)[used].samples, d, raw[of].value);
  }
}
