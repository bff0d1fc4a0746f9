/** The one-pass reading of resource counters: dictionary first, then time-ordered observations. */
module CounterStream {
  import opened Outcomes
  import opened Texts

  const MAX_TEXT_BYTES := 256
  const MAX_SAFE_INTEGER := 0x20_0000_0000_0000
  const MAX_COUNTER_DEFINITIONS := 65536
  const MAX_RESOURCE_OBSERVATIONS := 1_000_000

  datatype Semantic =
    | HeapCurrent | HeapPeak | HeapAllocationCount | HeapFreeCount | HeapLargestAllocation | HeapFreeBytes | HeapLargestFree
    | StackCapacity | StackCurrent | StackPeak
    | TraceCapacity | TraceCurrent | TracePeak

  predicate Heap(s: Semantic) {
    s in {HeapCurrent, HeapPeak, HeapAllocationCount, HeapFreeCount, HeapLargestAllocation, HeapFreeBytes, HeapLargestFree}
  }

  predicate Monotonic(s: Semantic) {
    s in {HeapPeak, HeapAllocationCount, HeapFreeCount, HeapLargestAllocation, StackPeak, TracePeak}
  }

  predicate Capacity(s: Semantic) {
    s == StackCapacity || s == TraceCapacity
  }

  /** What a counter measures: the semantic and the canonical text of its subject. */
  datatype Identity = Identity(semantic: Semantic, subject: string)

  /** A dictionary entry: other kinds of definition, a malformed counter, one without a known semantic,
      or a resource counter. */
  datatype Entry = OtherDefinition | MalformedCounter | IgnoredCounter(id: string) | ResourceCounter(id: string, identity: Identity)

  /** Fields are None where reading the field fails, because it is missing, ill-typed or out of bounds. */
  datatype Event =
    | NoType
    | OtherType
    | FunctionEvent(source: Option<string>, sequence: Option<nat>, ts: Option<int>)
    | CounterEvent(source: Option<string>, sequence: Option<nat>, ts: Option<int>,
                   exact: bool, counter: Option<string>, value: Option<nat>)

  datatype Record = Record(entries: seq<Entry>, event: Event)

  predicate BoundedText(s: string) {
    Bounded(s, MAX_TEXT_BYTES)
  }

  /** The bounds of every field that was read. */
  predicate Readable(r: Record) {
    && (forall e :: e in r.entries ==>
          && (e.IgnoredCounter? ==> BoundedText(e.id))
          && (e.ResourceCounter? ==> BoundedText(e.id)))
    && match r.event
       case NoType => true
       case OtherType => true
       case FunctionEvent(source, _, _) => source.Some? ==> BoundedText(source.value)
       case CounterEvent(source, _, _, _, counter, value) =>
         && (source.Some? ==> BoundedText(source.value)) && (counter.Some? ==> BoundedText(counter.value))
         && (value.Some? ==> value.value <= MAX_SAFE_INTEGER)
  }

  datatype Key = Key(source: string, sequence: nat)

  datatype Sample = Sample(ts: int, value: nat, key: Key)

  datatype Fault =
    | LateDictionary | BadDefinition | DuplicateDefinition | DuplicateIdentity | TooManyDefinitions
    | BadField | DuplicateObservation | TooManyObservations | NotExact | UndefinedCounter
    | TimeReversed | TimeRepeated | NotMonotonic | CapacityChanged

  datatype Progress = Progress(
    definitions: map<string, Identity>,
    ignored: set<string>,
    counters: map<Identity, string>,
    samples: map<string, seq<Sample>>,
    observed: map<Key, Event>,
    started: bool,
    resourceCount: nat,
    functionCount: nat)

  const START := Progress(map[], {}, map[], map[], map[], false, 0, 0)

  type Step = Result<Progress, Fault>

  // ---------------------------------------------------------------- the dictionary

  function Define(p: Progress, e: Entry): Step {
    match e
    case OtherDefinition => Ok(p)
    case MalformedCounter => Raised(BadDefinition)
    case IgnoredCounter(id) =>
      if id in p.definitions || id in p.ignored then Raised(DuplicateDefinition) else Ok(p.(ignored := p.ignored + {id}))
    case ResourceCounter(id, identity) =>
      if id in p.definitions || id in p.ignored then Raised(DuplicateDefinition)
      else if identity in p.counters then Raised(DuplicateIdentity)
      else if MAX_COUNTER_DEFINITIONS <= |p.definitions| then Raised(TooManyDefinitions)
      else Ok(p.(definitions := p.definitions[id := identity], counters := p.counters[identity := id]))
  }

  function DefineAll(p: Progress, entries: seq<Entry>): Step {
    if entries == [] then Ok(p)
    else
      var before :- DefineAll(p, entries[..|entries| - 1]);
      Define(before, entries[|entries| - 1])
  }

  // ---------------------------------------------------------------- observations

  function SamplesOf(samples: map<string, seq<Sample>>, counter: string): seq<Sample> {
    if counter in samples then samples[counter] else []
  }

  /** The order and value rules of one counter, given its last sample. */
  function Continues(semantic: Semantic, rows: seq<Sample>, s: Sample): Option<Fault> {
    if rows == [] then None
    else
      var last := rows[|rows| - 1];
      if s.ts < last.ts then Some(TimeReversed)
      else if s.ts == last.ts then Some(TimeRepeated)
      else if Monotonic(semantic) && s.value < last.value then Some(NotMonotonic)
      else if Capacity(semantic) && s.value != last.value then Some(CapacityChanged)
      else None
  }

  function Observed(p: Progress, key: Key, e: Event): Progress {
    p.(observed := p.observed[key := e])
  }

  /** The identity checks shared by counter and function events. */
  function KeyOf(p: Progress, e: Event): Result<Key, Fault>
    requires e.FunctionEvent? || e.CounterEvent?
  {
    if e.source.None? || e.sequence.None? then Raised(BadField)
    else
      var key := Key(e.source.value, e.sequence.value);
      if key in p.observed then Raised(DuplicateObservation)
      else if e.ts.None? then Raised(BadField)
      else Ok(key)
  }

  function CountSample(p: Progress, key: Key, e: Event): Step
    requires e.CounterEvent? && e.ts.Some?
  {
    if MAX_RESOURCE_OBSERVATIONS <= p.resourceCount then Raised(TooManyObservations)
    else
      var q := p.(resourceCount := p.resourceCount + 1);
      if !e.exact then Raised(NotExact)
      else if e.counter.None? then Raised(BadField)
      else if e.counter.value in p.ignored then Ok(q)
      else if e.counter.value !in p.definitions then Raised(UndefinedCounter)
      else if e.value.None? then Raised(BadField)
      else
        var c, s := e.counter.value, Sample(e.ts.value, e.value.value, key);
        var rows := SamplesOf(p.samples, c);
        var fault := Continues(p.definitions[c].semantic, rows, s);
        if fault.Some? then Raised(fault.value) else Ok(q.(samples := q.samples[c := rows + [s]]))
  }

  function StepEvent(p: Progress, e: Event): Step {
    match e
    case NoType => Ok(p)
    case OtherType => Ok(p.(started := true))
    case FunctionEvent(_, _, _) =>
      var key :- KeyOf(p, e);
      Ok(Observed(p, key, e).(started := true, functionCount := p.functionCount + 1))
    case CounterEvent(_, _, _, _, _, _) =>
      var key :- KeyOf(p, e);
      CountSample(Observed(p, key, e).(started := true), key, e)
  }

  function StepRecord(p: Progress, r: Record): Step {
    if r.entries != [] then
      if p.started then Raised(LateDictionary) else DefineAll(p, r.entries)
    else StepEvent(p, r.event)
  }

  /** The state after the records that follow a valid header. */
  function Run(records: seq<Record>): Step {
    if records == [] then Ok(START)
    else
      var before :- Run(records[..|records| - 1]);
      StepRecord(before, records[|records| - 1])
  }

  // ---------------------------------------------------------------- the loop

  lemma {:induction false} DefineAllStops(p: Progress, entries: seq<Entry>, n: nat)
    requires n <= |entries|
    ensures DefineAll(p, entries[..n]).Raised? ==> DefineAll(p, entries) == DefineAll(p, entries[..n])
    decreases |entries|
  {
    if n < |entries| {
      assert entries[..|entries| - 1][..n] == entries[..n];
      DefineAllStops(p, entries[..|entries| - 1], n);
    } else {
      assert entries[..n] == entries;
    }
  }

  lemma {:induction false} DefineAllNext(p: Progress, entries: seq<Entry>, i: nat)
    requires i < |entries| && DefineAll(p, entries[..i]).Ok?
    ensures DefineAll(p, entries[..i + 1]) == Define(DefineAll(p, entries[..i]).value, entries[i])
    ensures DefineAll(p, entries[..i + 1]).Raised? ==> DefineAll(p, entries) == DefineAll(p, entries[..i + 1])
  {
    DefineAllStops(p, entries, i + 1);
    assert entries[..i + 1][..i] == entries[..i];
  }

  lemma {:induction false} RunStops(records: seq<Record>, n: nat)
    requires n <= |records|
    ensures Run(records[..n]).Raised? ==> Run(records) == Run(records[..n])
    decreases |records|
  {
    if n < |records| {
      assert records[..|records| - 1][..n] == records[..n];
      RunStops(records[..|records| - 1], n);
    } else {
      assert records[..n] == records;
    }
  }

  lemma {:induction false} RunNext(records: seq<Record>, i: nat)
    requires i < |records| && Run(records[..i]).Ok?
    ensures Run(records[..i + 1]) == StepRecord(Run(records[..i]).value, records[i])
    ensures Run(records[..i + 1]).Raised? ==> Run(records) == Run(records[..i + 1])
  {
    RunStops(records, i + 1);
    assert records[..i + 1][..i] == records[..i];
  }

  method ReadDictionary(p: Progress, entries: seq<Entry>) returns (r: Step)
    ensures r == DefineAll(p, entries)
  {
    var definitions, ignored, counters := p.definitions, p.ignored, p.counters;
    for i := 0 to |entries|
      invariant DefineAll(p, entries[..i]) == Ok(p.(definitions := definitions, ignored := ignored, counters := counters))
    {
      DefineAllNext(p, entries, i);
      match entries[i]
      case OtherDefinition =>
      case MalformedCounter => return Raised(BadDefinition);
      case IgnoredCounter(id) =>
        if id in definitions || id in ignored { return Raised(DuplicateDefinition); }
        ignored := ignored + {id};
      case ResourceCounter(id, identity) =>
        if id in definitions || id in ignored { return Raised(DuplicateDefinition); }
        if identity in counters { return Raised(DuplicateIdentity); }
        if MAX_COUNTER_DEFINITIONS <= |definitions| { return Raised(TooManyDefinitions); }
        definitions := definitions[id := identity];
        counters := counters[identity := id];
    }
    assert entries[..|entries|] == entries;
    return Ok(p.(definitions := definitions, ignored := ignored, counters := counters));
  }

  method ReadStream(records: seq<Record>) returns (r: Step)
    ensures r == Run(records)
  {
    var p := START;
    for i := 0 to |records|
      invariant Run(records[..i]) == Ok(p)
    {
      RunNext(records, i);
      var record := records[i];
      if record.entries != [] {
        if p.started { return Raised(LateDictionary); }
        var defined := ReadDictionary(p, record.entries);
        if defined.Raised? { return defined; }
        p := defined.value;
      } else {
        var stepped := ReadEvent(p, record.event);
        if stepped.Raised? { return stepped; }
        p := stepped.value;
      }
    }
    assert records[..|records|] == records;
    return Ok(p);
  }

  /** The observation branch: identity, quality, order and value rules in the order they are applied. */
  method ReadEvent(p: Progress, e: Event) returns (r: Step)
    ensures r == StepEvent(p, e)
  {
    if e.NoType? { return Ok(p); }
    if e.OtherType? { return Ok(p.(started := true)); }
    if e.source.None? || e.sequence.None? { return Raised(BadField); }
    var key := Key(e.source.value, e.sequence.value);
    if key in p.observed { return Raised(DuplicateObservation); }
    if e.ts.None? { return Raised(BadField); }
    var q := p.(observed := p.observed[key := e], started := true);
    if e.FunctionEvent? { return Ok(q.(functionCount := q.functionCount + 1)); }
    if MAX_RESOURCE_OBSERVATIONS <= q.resourceCount { return Raised(TooManyObservations); }
    q := q.(resourceCount := q.resourceCount + 1);
    if !e.exact { return Raised(NotExact); }
    if e.counter.None? { return Raised(BadField); }
    var c := e.counter.value;
    if c in q.ignored { return Ok(q); }
    if c !in q.definitions { return Raised(UndefinedCounter); }
    if e.value.None? { return Raised(BadField); }
    var rows := SamplesOf(q.samples, c);
    var semantic := q.definitions[c].semantic;
    if rows != [] {
      var last := rows[|rows| - 1];
      if e.ts.value < last.ts { return Raised(TimeReversed); }
      if e.ts.value == last.ts { return Raised(TimeRepeated); }
      if Monotonic(semantic) && e.value.value < last.value { return Raised(NotMonotonic); }
      if Capacity(semantic) && e.value.value != last.value { return Raised(CapacityChanged); }
    }
    return Ok(q.(samples := q.samples[c := rows + [Sample(e.ts.value, e.value.value, key)]]));
  }

  // ---------------------------------------------------------------- what every accepted stream satisfies

  /** Strictly increasing in time; never falling for a high-watermark; constant for a capacity. */
  ghost predicate Ordered(semantic: Semantic, rows: seq<Sample>) {
    forall i, j :: 0 <= i < j < |rows| ==>
      && rows[i].ts < rows[j].ts
      && (Monotonic(semantic) ==> rows[i].value <= rows[j].value)
      && (Capacity(semantic) ==> rows[i].value == rows[j].value)
  }

  ghost predicate Bijective(definitions: map<string, Identity>, counters: map<Identity, string>) {
    && (forall c :: c in definitions ==> definitions[c] in counters && counters[definitions[c]] == c)
    && (forall i :: i in counters ==> counters[i] in definitions && definitions[counters[i]] == i)
  }

  ghost predicate Invariant(p: Progress) {
    && Bijective(p.definitions, p.counters)
    && p.ignored !! p.definitions.Keys
    && (forall c :: c in p.samples ==> c in p.definitions && p.samples[c] != [] && Ordered(p.definitions[c].semantic, p.samples[c]))
    && (p.samples != map[] ==> p.started)
  }

  lemma {:induction false} DefineKeepsInvariant(p: Progress, e: Entry)
    requires Invariant(p) && !p.started && Define(p, e).Ok?
    ensures Invariant(Define(p, e).value) && !Define(p, e).value.started
  {
    var q := Define(p, e).value;
    assert q.samples == p.samples;
    assert Bijective(q.definitions, q.counters);
    assert forall c :: c in p.definitions ==> q.definitions[c] == p.definitions[c];
  }

  lemma {:induction false} DefineAllKeepsInvariant(p: Progress, entries: seq<Entry>)
    requires Invariant(p) && !p.started
    ensures DefineAll(p, entries).Ok? ==> Invariant(DefineAll(p, entries).value) && !DefineAll(p, entries).value.started
  {
    if entries != [] && DefineAll(p, entries).Ok? {
      var init, last := entries[..|entries| - 1], entries[|entries| - 1];
      DefineAllKeepsInvariant(p, init);
      DefineKeepsInvariant(DefineAll(p, init).value, last);
    }
  }

  lemma {:induction false} ContinuesKeepsOrder(semantic: Semantic, rows: seq<Sample>, s: Sample)
    requires Ordered(semantic, rows) && Continues(semantic, rows, s).None?
    ensures Ordered(semantic, rows + [s])
  {
  }

  lemma {:induction false} EventKeepsInvariant(p: Progress, e: Event)
    requires Invariant(p) && StepEvent(p, e).Ok?
    ensures Invariant(StepEvent(p, e).value)
  {
    var q := StepEvent(p, e).value;
    if e.CounterEvent? && e.counter.value in p.definitions {
      var c := e.counter.value;
      var s := Sample(e.ts.value, e.value.value, Key(e.source.value, e.sequence.value));
      assert q.samples == p.samples[c := SamplesOf(p.samples, c) + [s]];
      ContinuesKeepsOrder(p.definitions[c].semantic, SamplesOf(p.samples, c), s);
    } else {
      assert q.samples == p.samples;
    }
  }

  lemma {:induction false} RunKeepsInvariant(records: seq<Record>)
    ensures Run(records).Ok? ==> Invariant(Run(records).value)
  {
    if records != [] && Run(records).Ok? {
      RunKeepsInvariant(records[..|records| - 1]);
      var p, r := Run(records[..|records| - 1]).value, records[|records| - 1];
      if r.entries != [] { DefineAllKeepsInvariant(p, r.entries); } else { EventKeepsInvariant(p, r.event); }
    }
  }

  // ---------------------------------------------------------------- observation identities

  /** The identities of the counter and function observations of a stream, in order. */
  function Keys(records: seq<Record>): seq<Key> {
    if records == [] then []
    else
      var r := records[|records| - 1];
      var e := r.event;
      Keys(records[..|records| - 1])
      + if r.entries == [] && (e.FunctionEvent? || e.CounterEvent?) && e.source.Some? && e.sequence.Some?
        then [Key(e.source.value, e.sequence.value)] else []
  }

  /** No two observations of an accepted stream share an identity, and the index holds exactly them. */
  lemma {:induction false} IdentitiesAreUnique(records: seq<Record>)
    requires Run(records).Ok?
    ensures forall i, j :: 0 <= i < j < |Keys(records)| ==> Keys(records)[i] != Keys(records)[j]
    ensures forall k :: k in Run(records).value.observed <==> k in Keys(records)
    ensures Run(records).value.resourceCount + Run(records).value.functionCount == |Keys(records)|
  {
    if records != [] {
      var prefix, r := records[..|records| - 1], records[|records| - 1];
      IdentitiesAreUnique(prefix);
      var p := Run(prefix).value;
      if r.entries != [] {
        DefineAllKeepsObserved(p, r.entries);
        assert Keys(records) == Keys(prefix);
      } else {
        EventAddsKey(p, r.event);
      }
    }
  }

  lemma {:induction false} EventAddsKey(p: Progress, e: Event)
    requires StepEvent(p, e).Ok?
    ensures var q := StepEvent(p, e).value;
            if e.FunctionEvent? || e.CounterEvent? then
              && e.source.Some? && e.sequence.Some?
              && var k := Key(e.source.value, e.sequence.value);
                 && k !in p.observed && q.observed == p.observed[k := e]
                 && q.resourceCount + q.functionCount == p.resourceCount + p.functionCount + 1
            else q.observed == p.observed && q.resourceCount == p.resourceCount && q.functionCount == p.functionCount
  {
  }

  lemma {:induction false} DefineAllKeepsObserved(p: Progress, entries: seq<Entry>)
    requires DefineAll(p, entries).Ok?
    ensures var q := DefineAll(p, entries).value;
            q.observed == p.observed && q.resourceCount == p.resourceCount && q.functionCount == p.functionCount
  {
    if entries != [] {
      DefineAllKeepsObserved(p, entries[..|entries| - 1]);
    }
  }

  // ---------------------------------------------------------------- from records to samples

  predicate Observes(r: Record, c: string) {
    r.entries == [] && r.event.CounterEvent? && r.event.counter == Some(c) && r.event.value.Some?
  }

  /** The values that the events of one counter carry, in the order of the stream. */
  function Observations(records: seq<Record>, c: string): seq<nat> {
    if records == [] then []
    else
      var r := records[|records| - 1];
      Observations(records[..|records| - 1], c) + if Observes(r, c) then [r.event.value.value] else []
  }

  predicate Declares(records: seq<Record>, c: string, i: Identity) {
    exists r :: r in records && ResourceCounter(c, i) in r.entries
  }

  function Values(rows: seq<Sample>): seq<nat> {
    seq(|rows|, k requires 0 <= k < |rows| => rows[k].value)
  }

  lemma {:induction false} RunAppend(records: seq<Record>, r: Record)
    ensures Run(records + [r]) == if Run(records).Ok? then StepRecord(Run(records).value, r) else Run(records)
    ensures forall c :: Observations(records + [r], c) == Observations(records, c) + if Observes(r, c) then [r.event.value.value] else []
    ensures forall c, i :: Declares(records + [r], c, i) <==> Declares(records, c, i) || ResourceCounter(c, i) in r.entries
  {
    assert (records + [r])[..|records|] == records;
  }

  predicate Counts(p: Progress, c: string, i: Identity) {
    i in p.counters && p.counters[i] == c
  }

  lemma {:induction false} DefineDeclares(p: Progress, e: Entry, c: string, i: Identity)
    requires Bijective(p.definitions, p.counters) && Define(p, e).Ok?
    ensures var q := Define(p, e).value;
            && q.samples == p.samples && p.ignored <= q.ignored
            && (Counts(q, c, i) <==> Counts(p, c, i) || e == ResourceCounter(c, i))
  {
  }

  /** A dictionary leaves the samples alone and takes over exactly the resource counters it lists. */
  lemma {:induction false} DefineAllDeclares(p: Progress, entries: seq<Entry>, c: string, i: Identity)
    requires Invariant(p) && !p.started && DefineAll(p, entries).Ok?
    ensures var q := DefineAll(p, entries).value;
            && q.samples == p.samples && p.ignored <= q.ignored
            && (Counts(q, c, i) <==> Counts(p, c, i) || ResourceCounter(c, i) in entries)
  {
    if entries != [] {
      var init, last := entries[..|entries| - 1], entries[|entries| - 1];
      DefineAllDeclares(p, init, c, i);
      DefineAllKeepsInvariant(p, init);
      DefineDeclares(DefineAll(p, init).value, last, c, i);
      assert ResourceCounter(c, i) in init + [last] <==> ResourceCounter(c, i) in init || last == ResourceCounter(c, i);
      assert entries == init + [last];
    }
  }

  lemma {:induction false} EventObserves(p: Progress, e: Event, c: string)
    requires Invariant(p) && StepEvent(p, e).Ok? && c !in p.ignored
    ensures var q := StepEvent(p, e).value;
            Values(SamplesOf(q.samples, c)) == Values(SamplesOf(p.samples, c)) + if Observes(Record([], e), c) then [e.value.value] else []
  {
    var q := StepEvent(p, e).value;
    if e.CounterEvent? && e.counter.value in p.definitions {
      var s := Sample(e.ts.value, e.value.value, Key(e.source.value, e.sequence.value));
      assert q.samples == p.samples[e.counter.value := SamplesOf(p.samples, e.counter.value) + [s]];
    } else {
      assert q.samples == p.samples;
    }
  }

  lemma {:induction false} RecordObserves(p: Progress, r: Record, c: string, i: Identity)
    requires Invariant(p) && StepRecord(p, r).Ok?
    ensures var q := StepRecord(p, r).value;
            && p.ignored <= q.ignored
            && (Counts(q, c, i) <==> Counts(p, c, i) || ResourceCounter(c, i) in r.entries)
            && (c !in p.ignored ==>
                  Values(SamplesOf(q.samples, c)) == Values(SamplesOf(p.samples, c)) + if Observes(r, c) then [r.event.value.value] else [])
  {
    if r.entries != [] {
      DefineAllDeclares(p, r.entries, c, i);
    } else {
      EventKeepsIndex(p, r.event);
      if c !in p.ignored { EventObserves(p, r.event, c); }
    }
  }

  lemma {:induction false} EventKeepsIndex(p: Progress, e: Event)
    requires StepEvent(p, e).Ok?
    ensures var q := StepEvent(p, e).value; q.counters == p.counters && q.ignored == p.ignored
  {
  }

  /** The samples of a counter are exactly the values of its events, and the index of counters is
      exactly what the dictionaries declare. */
  lemma {:induction false} SamplesAreObservations(records: seq<Record>, c: string, i: Identity)
    requires Run(records).Ok?
    ensures var p := Run(records).value;
            && (Counts(p, c, i) <==> Declares(records, c, i))
            && (c !in p.ignored ==> Values(SamplesOf(p.samples, c)) == Observations(records, c))
  {
    if records != [] {
      var init, r := records[..|records| - 1], records[|records| - 1];
      assert records == init + [r];
      RunAppend(init, r);
      SamplesAreObservations(init, c, i);
      RunKeepsInvariant(init);
      RecordObserves(Run(init).value, r, c, i);
    }
  }
}
