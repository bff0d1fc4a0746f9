/**
 The parsers of native reference rows. Each loop keeps its own running state; the contracts state
 what is accepted without that state, and what is returned.
 */
module NativeReference {
  import opened Outcomes
  import opened Prefixes
  import opened Scalars
  import opened ContextSwitches
  import opened NestedInterrupts

  const MAX_NATIVE_TIMELINE_EVENTS := 16384

  datatype Fault =
    | RowCount | NotAnObject | FieldSet | BadField | BrokenChain | BadKind | MissingKinds
    | BadNesting | Unclosed | NoNestedInterrupt | NoPreemptedTask

  // ---------------------------------------------------------------- rows as documents

  datatype SwitchRow = NotARow | SwitchRow(
    unexpectedFields: bool,
    ts: Json, core: Json, previous: Json, next: Json, nextName: Json, nextKind: Json, nextPriority: Json)
  {
    predicate ExactFields()
      requires SwitchRow?
    {
      && !unexpectedFields && ts != Absent && core != Absent && previous != Absent && next != Absent
      && nextName != Absent && nextKind != Absent && nextPriority != Absent
    }
  }

  function ReadSwitch(row: SwitchRow): Option<Switch> {
    if row.NotARow? || !row.ExactFields() then None
    else
      var core :- RequiredNat(row.core);
      var previous :- NullableString(row.previous);
      var next :- RequiredString(row.next);
      var kind :- RequiredString(row.nextKind);
      if kind != TASK && kind != IDLE then None
      else
        var ts :- RequiredNonNegativeNumber(row.ts);
        var name :- RequiredString(row.nextName);
        var priority :- RequiredInt(row.nextPriority);
        Some(Switch(ts, core, previous, next, name, kind, priority))
  }

  function WriteSwitch(s: Switch): SwitchRow {
    SwitchRow(false, Real(s.ts), Int(s.core), NullableText(s.previous), Text(s.next),
              Text(s.nextName), Text(s.nextKind), Int(s.nextPriority))
  }

  datatype InterruptRow = NotARow | InterruptRow(
    unexpectedFields: bool,
    event: Json, ts: Json, core: Json, id: Json, name: Json, priority: Json,
    activation: Json, depth: Json, parent: Json, preempted: Json)
  {
    predicate ExactFields()
      requires InterruptRow?
    {
      && !unexpectedFields && event != Absent && ts != Absent && core != Absent && id != Absent
      && name != Absent && priority != Absent && activation != Absent && depth != Absent
      && parent != Absent && preempted != Absent
    }
  }

  const ENTER: string := "enter"
  const EXIT: string := "exit"

  function ReadInterrupt(row: InterruptRow): Option<Interrupt> {
    if row.NotARow? || !row.ExactFields() then None
    else
      var event :- RequiredString(row.event);
      if event != ENTER && event != EXIT then None
      else
        var core :- RequiredNat(row.core);
        var ts :- RequiredNonNegativeNumber(row.ts);
        var id :- RequiredString(row.id);
        var name :- RequiredString(row.name);
        var priority :- RequiredInt(row.priority);
        var activation :- RequiredString(row.activation);
        var depth :- RequiredNat(row.depth);
        var parent :- NullableString(row.parent);
        var preempted :- NullableString(row.preempted);
        Some(Interrupt(event == ENTER, ts, core, id, name, priority, activation, depth, parent, preempted))
  }

  function WriteInterrupt(i: Interrupt): InterruptRow {
    InterruptRow(false, Text(if i.entering then ENTER else EXIT), Real(i.ts), Int(i.core), Text(i.id), Text(i.name),
                 Int(i.priority), Text(i.activation), Int(i.depth), NullableText(i.parent), NullableText(i.preempted))
  }

  predicate NonBlankOption(s: Option<string>) {
    s.Some? ==> NonBlank(s.value)
  }

  /** What reading a written row needs besides a non-negative timestamp. */
  predicate WritableSwitch(s: Switch) {
    && NonBlankOption(s.previous) && NonBlank(s.next) && NonBlank(s.nextName)
    && (s.nextKind == TASK || s.nextKind == IDLE)
  }

  predicate WritableInterrupt(i: Interrupt) {
    NonBlank(i.id) && NonBlank(i.name) && NonBlank(i.activation) && NonBlankOption(i.parent) && NonBlankOption(i.preempted)
  }

  lemma {:induction false} KnownWordsAreNonBlank()
    ensures NonBlank(TASK) && NonBlank(IDLE) && NonBlank(ENTER) && NonBlank(EXIT)
  {
    assert !IsSpace(TASK[0]) && !IsSpace(IDLE[0]) && !IsSpace(ENTER[0]) && !IsSpace(EXIT[0]);
  }

  ghost predicate SwitchFieldsAgree(w: SwitchRow, s: Switch) {
    && w.SwitchRow? && w.ExactFields()
    && RequiredNat(w.core) == Some(s.core) && NullableString(w.previous) == Some(s.previous)
    && RequiredString(w.next) == Some(s.next) && RequiredString(w.nextName) == Some(s.nextName)
    && RequiredString(w.nextKind) == Some(s.nextKind) && RequiredInt(w.nextPriority) == Some(s.nextPriority)
  }

  lemma {:induction false} WrittenSwitchFields(s: Switch)
    requires WritableSwitch(s)
    ensures SwitchFieldsAgree(WriteSwitch(s), s)
  {
    KnownWordsAreNonBlank();
    assert WriteSwitch(s).ExactFields();
    NullableReadsBack(s.previous);
    TextReadsBack(s.next);
    TextReadsBack(s.nextName);
    TextReadsBack(s.nextKind);
  }

  lemma {:induction false} SwitchFieldsReadBack(w: SwitchRow, s: Switch)
    requires SwitchFieldsAgree(w, s) && (s.nextKind == TASK || s.nextKind == IDLE)
    ensures RequiredNonNegativeNumber(w.ts) == Some(s.ts) ==> ReadSwitch(w) == Some(s)
    ensures RequiredNonNegativeNumber(w.ts).None? ==> ReadSwitch(w).None?
  {
  }

  /** A switch survives being written and read back exactly when its timestamp is non-negative. */
  lemma {:induction false} SwitchRoundTrip(s: Switch)
    requires WritableSwitch(s)
    ensures ReadSwitch(WriteSwitch(s)) == if 0.0 <= s.ts then Some(s) else None
  {
    WrittenSwitchFields(s);
    SwitchFieldsReadBack(WriteSwitch(s), s);
  }

  lemma {:induction false} InterruptRoundTrip(i: Interrupt)
    requires WritableInterrupt(i)
    ensures ReadInterrupt(WriteInterrupt(i)) == if 0.0 <= i.ts then Some(i) else None
  {
    var w := WriteInterrupt(i);
    WrittenFieldsReadBack(i);
    if i.ts < 0.0 {
      assert RequiredNonNegativeNumber(w.ts).None?;
    } else {
      assert RequiredNonNegativeNumber(w.ts) == Some(i.ts);
      FieldsReadBack(w, i);
    }
  }

  ghost predicate FieldsAgree(w: InterruptRow, i: Interrupt) {
    && w.InterruptRow? && w.ExactFields()
    && RequiredString(w.event) == Some(if i.entering then ENTER else EXIT)
    && RequiredNat(w.core) == Some(i.core)
    && RequiredString(w.id) == Some(i.id)
    && RequiredString(w.name) == Some(i.name)
    && RequiredInt(w.priority) == Some(i.priority)
    && RequiredString(w.activation) == Some(i.activation)
    && RequiredNat(w.depth) == Some(i.depth)
    && NullableString(w.parent) == Some(i.parent)
    && NullableString(w.preempted) == Some(i.preempted)
  }

  lemma {:induction false} WrittenFieldsReadBack(i: Interrupt)
    requires WritableInterrupt(i)
    ensures FieldsAgree(WriteInterrupt(i), i)
  {
    KnownWordsAreNonBlank();
    var w := WriteInterrupt(i);
    assert w.ExactFields();
    TextReadsBack(if i.entering then ENTER else EXIT);
    TextReadsBack(i.id);
    TextReadsBack(i.name);
    TextReadsBack(i.activation);
    NullableReadsBack(i.parent);
    NullableReadsBack(i.preempted);
  }

  lemma {:induction false} FieldsReadBack(w: InterruptRow, i: Interrupt)
    requires FieldsAgree(w, i) && RequiredNonNegativeNumber(w.ts) == Some(i.ts)
    ensures ReadInterrupt(w) == Some(i)
  {
    assert ENTER[1] != EXIT[1];
  }

  // ---------------------------------------------------------------- context switches

  /** Every row read in order; None when some row is malformed. */
  function ReadSwitches(raw: seq<SwitchRow>): Option<seq<Switch>> {
    if raw == [] then Some([])
    else
      var rows :- ReadSwitches(raw[..|raw| - 1]);
      var row :- ReadSwitch(raw[|raw| - 1]);
      Some(rows + [row])
  }

  predicate Switches(rows: seq<Switch>, kind: string) {
    exists i :: 0 <= i < |rows| && rows[i].nextKind == kind
  }

  ghost predicate AcceptableSwitches(raw: seq<SwitchRow>) {
    && 1 <= |raw| <= MAX_NATIVE_TIMELINE_EVENTS
    && var read := ReadSwitches(raw);
       && read.Some?
       && Chained(read.value)
       && Switches(read.value, TASK) && Switches(read.value, IDLE)
  }

  method ReadSwitchRow(row: SwitchRow) returns (r: Result<Switch, Fault>)
    ensures r.Ok? <==> ReadSwitch(row).Some?
    ensures r.Ok? ==> ReadSwitch(row) == Some(r.value)
  {
    if row.NotARow? { return Raised(NotAnObject); }
    if !row.ExactFields() { return Raised(FieldSet); }
    var read := ReadSwitch(row);
    if read.None? { return Raised(BadField); }
    return Ok(read.value);
  }

  method ParseContextSwitches(raw: seq<SwitchRow>) returns (r: Result<seq<Switch>, Fault>)
    ensures r.Ok? <==> AcceptableSwitches(raw)
    ensures r.Ok? ==> ReadSwitches(raw) == Some(r.value)
  {
    if |raw| == 0 || MAX_NATIVE_TIMELINE_EVENTS < |raw| {
      return Raised(RowCount);
    }
    var rows: seq<Switch> := [];
    var active: map<nat, string> := map[];
    var observedKinds: set<string> := {};
    for i := 0 to |raw|
      invariant ReadSwitches(raw[..i]) == Some(rows)
      invariant Chained(rows) && active == ActiveAfter(rows)
      invariant forall kind :: kind in observedKinds <==> Switches(rows, kind)
      invariant observedKinds <= {TASK, IDLE}
    {
      ReadSwitchesPrefix(raw, i + 1);
      assert raw[..i + 1][..i] == raw[..i];
      var read := ReadSwitchRow(raw[i]);
      if read.Raised? { return Raised(read.fault); }
      var row := read.value;
      assert row.nextKind in {TASK, IDLE};
      ChainedAppend(rows, row);
      if !Follows(active, row) { return Raised(BrokenChain); }
      ActiveAfterAppend(rows, row);
      SwitchesAppend(rows, row);
      rows := rows + [row];
      active := active[row.core := row.next];
      observedKinds := observedKinds + {row.nextKind};
    }
    assert raw[..|raw|] == raw;
    if observedKinds != {TASK, IDLE} { return Raised(MissingKinds); }
    return Ok(rows);
  }

  lemma {:induction false} SwitchesAppend(rows: seq<Switch>, row: Switch)
    ensures forall kind :: Switches(rows + [row], kind) <==> Switches(rows, kind) || row.nextKind == kind
  {
    var all := rows + [row];
    assert all[|rows|] == row;
    assert forall i :: 0 <= i < |rows| ==> all[i] == rows[i];
  }

  lemma {:induction false} ReadSwitchesPrefix(raw: seq<SwitchRow>, n: nat)
    requires n <= |raw|
    ensures ReadSwitches(raw).Some? ==>
              && ReadSwitches(raw[..n]).Some?
              && (Chained(ReadSwitches(raw).value) ==> Chained(ReadSwitches(raw[..n]).value))
    decreases |raw|
  {
    if n < |raw| && ReadSwitches(raw).Some? {
      var prefix := raw[..|raw| - 1];
      assert prefix[..n] == raw[..n];
      ReadSwitchesPrefix(prefix, n);
      ChainedAppend(ReadSwitches(prefix).value, ReadSwitch(raw[|raw| - 1]).value);
    } else {
      assert n == |raw| ==> raw[..n] == raw;
    }
  }

  // ---------------------------------------------------------------- interrupts

  function ReadInterrupts(raw: seq<InterruptRow>): Option<seq<Interrupt>> {
    if raw == [] then Some([])
    else
      var rows :- ReadInterrupts(raw[..|raw| - 1]);
      var row :- ReadInterrupt(raw[|raw| - 1]);
      Some(rows + [row])
  }

  predicate HasNested(rows: seq<Interrupt>) {
    exists i :: 0 <= i < |rows| && rows[i].entering && 2 <= rows[i].depth
  }

  predicate HasPreemptedTask(rows: seq<Interrupt>) {
    exists i :: 0 <= i < |rows| && rows[i].entering && rows[i].preempted.Some?
  }

  /** The rows of every core traverse a well nested forest. */
  ghost predicate BracketedOnEveryCore(rows: seq<Interrupt>) {
    forall core: nat :: Bracketed(OnCore(rows, core))
  }

  ghost predicate AcceptableInterrupts(raw: seq<InterruptRow>) {
    && 1 <= |raw| <= MAX_NATIVE_TIMELINE_EVENTS
    && var read := ReadInterrupts(raw);
       && read.Some?
       && BracketedOnEveryCore(read.value)
       && HasNested(read.value)
       && HasPreemptedTask(read.value)
  }

  function StackOn(stacks: map<nat, Stack>, core: nat): Stack {
    if core in stacks then stacks[core] else []
  }

  ghost predicate Tracks(stacks: map<nat, Stack>, rows: seq<Interrupt>) {
    forall core: nat :: OpenAfter(OnCore(rows, core)) == Some(StackOn(stacks, core))
  }

  method ReadInterruptRow(row: InterruptRow) returns (r: Result<Interrupt, Fault>)
    ensures r.Ok? <==> ReadInterrupt(row).Some?
    ensures r.Ok? ==> ReadInterrupt(row) == Some(r.value)
  {
    if row.NotARow? { return Raised(NotAnObject); }
    if !row.ExactFields() { return Raised(FieldSet); }
    var read := ReadInterrupt(row);
    if read.None? { return Raised(BadField); }
    return Ok(read.value);
  }

  /** What the loop knows of the rows it has read. */
  ghost predicate Parsed(
      raw: seq<InterruptRow>, rows: seq<Interrupt>, stacks: map<nat, Stack>, maximumDepth: nat, observedPreemptedTask: bool)
  {
    && ReadInterrupts(raw) == Some(rows) && Tracks(stacks, rows)
    && (2 <= maximumDepth <==> HasNested(rows)) && (observedPreemptedTask <==> HasPreemptedTask(rows))
  }

  lemma {:induction false} ReadNext(raw: seq<InterruptRow>, w: InterruptRow)
    requires ReadInterrupts(raw).Some?
    ensures ReadInterrupts(raw + [w]) ==
            if ReadInterrupt(w).None? then None else Some(ReadInterrupts(raw).value + [ReadInterrupt(w).value])
  {
    assert (raw + [w])[..|raw|] == raw;
  }

  lemma {:induction false} ParsedNext(
      raw: seq<InterruptRow>, w: InterruptRow, rows: seq<Interrupt>, row: Interrupt, stacks: map<nat, Stack>,
      maximumDepth: nat, observedPreemptedTask: bool)
    requires Parsed(raw, rows, stacks, maximumDepth, observedPreemptedTask) && ReadInterrupt(w) == Some(row)
    requires Nest(StackOn(stacks, row.core), row).Some?
    ensures Parsed(raw + [w], rows + [row], stacks[row.core := Nest(StackOn(stacks, row.core), row).value],
                   if row.entering && maximumDepth < row.depth then row.depth else maximumDepth,
                   observedPreemptedTask || (row.entering && row.preempted.Some?))
  {
    ReadNext(raw, w);
    TracksAppend(stacks, rows, row);
    SeenAppend(rows, row);
  }

  /** A prefix that cannot be read, or does not nest, spoils every continuation. */
  lemma {:induction false} BadRowRejects(raw: seq<InterruptRow>, i: nat, rows: seq<Interrupt>, stacks: map<nat, Stack>)
    requires i < |raw| && ReadInterrupts(raw[..i]) == Some(rows) && Tracks(stacks, rows)
    ensures AcceptableInterrupts(raw) ==>
              && ReadInterrupt(raw[i]).Some?
              && var row := ReadInterrupt(raw[i]).value;
                 row.depth != 0 && Nest(StackOn(stacks, row.core), row).Some?
  {
    PrefixGrows(raw, i);
    ReadNext(raw[..i], raw[i]);
    ReadInterruptsPrefix(raw, i + 1);
    if ReadInterrupt(raw[i]).Some? { TracksAppend(stacks, rows, ReadInterrupt(raw[i]).value); }
  }

  method ParseInterrupts(raw: seq<InterruptRow>) returns (r: Result<seq<Interrupt>, Fault>)
    ensures r.Ok? <==> AcceptableInterrupts(raw)
    ensures r.Ok? ==> ReadInterrupts(raw) == Some(r.value)
  {
    if |raw| == 0 || MAX_NATIVE_TIMELINE_EVENTS < |raw| {
      return Raised(RowCount);
    }
    var rows: seq<Interrupt> := [];
    var stacks: map<nat, Stack> := map[];
    var maximumDepth: nat := 0;
    var observedPreemptedTask := false;
    for i := 0 to |raw|
      invariant Parsed(raw[..i], rows, stacks, maximumDepth, observedPreemptedTask)
    {
      BadRowRejects(raw, i, rows, stacks);
      var read := ReadInterruptRow(raw[i]);
      if read.Raised? { return Raised(read.fault); }
      var row := read.value;
      var nested := Nest(StackOn(stacks, row.core), row);
      if row.depth == 0 || nested.None? { return Raised(BadNesting); }
      PrefixGrows(raw, i);
      ParsedNext(raw[..i], raw[i], rows, row, stacks, maximumDepth, observedPreemptedTask);
      rows := rows + [row];
      stacks := stacks[row.core := nested.value];
      if row.entering {
        maximumDepth := if maximumDepth < row.depth then row.depth else maximumDepth;
        observedPreemptedTask := observedPreemptedTask || row.preempted.Some?;
      }
    }
    PrefixIsWhole(raw);
    NothingOpenIffBracketed(rows, stacks);
    if exists core :: core in stacks && stacks[core] != [] { return Raised(Unclosed); }
    if maximumDepth < 2 { return Raised(NoNestedInterrupt); }
    if !observedPreemptedTask { return Raised(NoPreemptedTask); }
    return Ok(rows);
  }

  /** A row that does not nest leaves its core's rows with no forest to belong to. */
  lemma {:induction false} TracksAppend(stacks: map<nat, Stack>, rows: seq<Interrupt>, row: Interrupt)
    requires Tracks(stacks, rows)
    ensures var nested := Nest(StackOn(stacks, row.core), row);
            if nested.Some? then 1 <= row.depth && Tracks(stacks[row.core := nested.value], rows + [row])
            else OpenAfter(OnCore(rows + [row], row.core)).None?
  {
    OnCoreAppend(rows, row);
    OpenAfterAppend(OnCore(rows, row.core), row);
    var nested := Nest(StackOn(stacks, row.core), row);
    if nested.Some? {
      var updated := stacks[row.core := nested.value];
      forall core: nat
        ensures OpenAfter(OnCore(rows + [row], core)) == Some(StackOn(updated, core))
      {
        if core != row.core {
          assert OnCore(rows + [row], core) == OnCore(rows, core);
        }
      }
    }
  }

  lemma {:induction false} SeenAppend(rows: seq<Interrupt>, row: Interrupt)
    ensures HasNested(rows + [row]) <==> HasNested(rows) || (row.entering && 2 <= row.depth)
    ensures HasPreemptedTask(rows + [row]) <==> HasPreemptedTask(rows) || (row.entering && row.preempted.Some?)
  {
    var all := rows + [row];
    assert all[|rows|] == row;
    assert forall i :: 0 <= i < |rows| ==> all[i] == rows[i];
  }

  lemma {:induction false} ReadInterruptsPrefix(raw: seq<InterruptRow>, n: nat)
    requires n <= |raw|
    ensures ReadInterrupts(raw).Some? ==>
              && ReadInterrupts(raw[..n]).Some?
              && (BracketedOnEveryCore(ReadInterrupts(raw).value) ==>
                    forall core: nat :: OpenAfter(OnCore(ReadInterrupts(raw[..n]).value, core)).Some?)
  {
    if ReadInterrupts(raw).Some? {
      ReadInterruptsTake(raw, n);
      var rows := ReadInterrupts(raw).value;
      if BracketedOnEveryCore(rows) {
        forall core: nat ensures OpenAfter(OnCore(rows[..n], core)).Some? {
          AcceptedIffBracketed(OnCore(rows, core));
          OnCorePrefix(rows, n, core);
          var part := OnCore(rows[..n], core);
          OpenAfterPrefix(OnCore(rows, core), |part|);
          assert OnCore(rows, core)[..|part|] == part;
        }
      }
    }
  }

  lemma {:induction false} ReadInterruptsTake(raw: seq<InterruptRow>, n: nat)
    requires n <= |raw| && ReadInterrupts(raw).Some?
    ensures var rows := ReadInterrupts(raw).value;
            |rows| == |raw| && ReadInterrupts(raw[..n]) == Some(rows[..n])
    decreases |raw|
  {
    if n < |raw| {
      var prefix := raw[..|raw| - 1];
      assert prefix[..n] == raw[..n];
      ReadInterruptsTake(prefix, n);
      ReadInterruptsTake(prefix, |prefix|);
      assert ReadInterrupts(raw).value[..n] == ReadInterrupts(prefix).value[..n];
    } else if n == 0 {
      assert raw == [] && raw[..n] == raw;
    } else {
      ReadInterruptsTake(raw[..n - 1], n - 1);
      assert raw[..n] == raw;
      assert ReadInterrupts(raw).value[..n] == ReadInterrupts(raw).value;
    }
  }

  lemma {:induction false} NothingOpenIffBracketed(rows: seq<Interrupt>, stacks: map<nat, Stack>)
    requires Tracks(stacks, rows)
    ensures BracketedOnEveryCore(rows) <==> forall core :: core in stacks ==> stacks[core] == []
  {
    forall core: nat
      ensures Bracketed(OnCore(rows, core)) <==> StackOn(stacks, core) == []
    {
      AcceptedIffBracketed(OnCore(rows, core));
    }
    if BracketedOnEveryCore(rows) {
      forall core | core in stacks ensures stacks[core] == [] {
        assert Bracketed(OnCore(rows, core));
      }
    }
  }
}
