/**
 The streaming reconstruction of a session's timeline: context definitions, the context scheduled
 on each core, and each core's stack of open interrupts.
 */
module Timeline {
  import opened Outcomes
  import opened Scalars
  import opened Counting
  import opened ContextSwitches
  import opened NestedInterrupts
  import opened NativeReference

  const ISR: string := "isr"

  // ---------------------------------------------------------------- the observation stream

  datatype ContextEntry = ContextEntry(id: Json, kind: Json, name: Json, core: Json, priority: Json)

  datatype Event =
    | NoEvent
    | SwitchEvent(core: Json, next: Json, prev: Json, legacyPrevious: Json, ts: Json)
    | InterruptEvent(entering: bool, core: Json, interrupt: Json, activation: Json, priority: Json, ts: Json)

  /** One observation record: its session tag, the DefineContext entries it carries, and its event. */
  datatype Record = Record(session: Json, entries: seq<ContextEntry>, event: Event)

  datatype StreamFault =
    | ForeignSession | DuplicateContext | BadDefinition | TooManyEvents | BadEventField | UndefinedContext
    | WrongKind | NoPriority | WrongCore | NonCanonicalPrevious | BadFirstPrevious | PreviousMismatch
    | NothingScheduled | NothingOpen | NotTopActivation | PriorityChanged
    | KindsMissing | NotNested | NoTaskPreempted | StillOpen

  datatype Context = Context(kind: string, name: string, core: Option<nat>, priority: Option<int>)

  datatype OpenInterrupt = OpenInterrupt(id: string, activation: string, priority: int, preempted: Option<string>)

  datatype Progress = Progress(
    contexts: map<string, Context>,
    active: map<nat, string>,
    stacks: map<nat, seq<OpenInterrupt>>,
    switches: seq<Switch>,
    interrupts: seq<Interrupt>,
    taskCounts: map<string, nat>,
    isrCounts: map<string, nat>,
    kinds: set<string>,
    maximumDepth: nat,
    preemptedTask: bool)

  const START := Progress(map[], map[], map[], [], [], map[], map[], {}, 0, false)

  type Step = Result<Progress, StreamFault>

  function Need<T>(read: Option<T>, fault: StreamFault): Result<T, StreamFault> {
    if read.None? then Raised(fault) else Ok(read.value)
  }

  function OpenOn(stacks: map<nat, seq<OpenInterrupt>>, core: nat): seq<OpenInterrupt> {
    if core in stacks then stacks[core] else []
  }

  predicate OnOtherCore(c: Context, core: nat) {
    c.core.Some? && c.core.value != core
  }

  predicate Schedulable(kind: string) {
    kind == TASK || kind == IDLE
  }

  // ---------------------------------------------------------------- one record

  function ReadOptionalCore(j: Json): Option<Option<nat>> {
    if j == Absent || j == Null then Some(None)
    else if j.Int? && 0 <= j.n then Some(Some(j.n))
    else None
  }

  function ReadOptionalPriority(j: Json): Option<Option<int>> {
    if j == Absent || j == Null then Some(None)
    else if j.Int? then Some(Some(j.n))
    else None
  }

  function ReadContext(e: ContextEntry): Option<Context> {
    var kind :- RequiredString(e.kind);
    var name :- RequiredString(e.name);
    var core :- ReadOptionalCore(e.core);
    var priority :- ReadOptionalPriority(e.priority);
    Some(Context(kind, name, core, priority))
  }

  function Define(contexts: map<string, Context>, entry: ContextEntry): Result<map<string, Context>, StreamFault> {
    var id :- Need(RequiredString(entry.id), BadDefinition);
    if id in contexts then Raised(DuplicateContext)
    else
      var context :- Need(ReadContext(entry), BadDefinition);
      Ok(contexts[id := context])
  }

  function DefineAll(contexts: map<string, Context>, entries: seq<ContextEntry>): Result<map<string, Context>, StreamFault> {
    if entries == [] then Ok(contexts)
    else
      var before :- DefineAll(contexts, entries[..|entries| - 1]);
      Define(before, entries[|entries| - 1])
  }

  /** The first switch seen on a core may name a previous context, but only a fitting one. */
  predicate FirstPreviousFits(contexts: map<string, Context>, previous: string, core: nat) {
    && previous in contexts
    && Schedulable(contexts[previous].kind)
    && !OnOtherCore(contexts[previous], core)
  }

  function CheckPrevious(p: Progress, core: nat, declared: Option<string>): Option<StreamFault> {
    match Lookup(p.active, core)
    case None =>
      if declared.Some? && !FirstPreviousFits(p.contexts, declared.value, core) then Some(BadFirstPrevious) else None
    case Some(tracked) =>
      if declared != Some(tracked) then Some(PreviousMismatch) else None
  }

  /** The row that a context-switch event appends, or the fault it raises. */
  function SwitchOf(p: Progress, e: Event): Result<Switch, StreamFault>
    requires e.SwitchEvent?
  {
    if MAX_NATIVE_TIMELINE_EVENTS <= |p.switches| then Raised(TooManyEvents)
    else
      var core :- Need(RequiredNat(e.core), BadEventField);
      var next :- Need(RequiredString(e.next), BadEventField);
      if next !in p.contexts then Raised(UndefinedContext)
      else
        var c := p.contexts[next];
        if !Schedulable(c.kind) then Raised(WrongKind)
        else if c.priority.None? then Raised(NoPriority)
        else if OnOtherCore(c, core) then Raised(WrongCore)
        else if e.legacyPrevious != Absent then Raised(NonCanonicalPrevious)
        else
          var declared :- Need(NullableString(e.prev), BadEventField);
          var fault := CheckPrevious(p, core, declared);
          if fault.Some? then Raised(fault.value)
          else
            var ts :- Need(RequiredInt(e.ts), BadEventField);
            Ok(Switch(ts as real, core, declared, next, c.name, c.kind, c.priority.value))
  }

  function Switched(p: Progress, row: Switch): Progress {
    p.(switches := p.switches + [row],
       active := p.active[row.core := row.next],
       kinds := p.kinds + {row.nextKind},
       taskCounts := if row.nextKind == TASK then Tally(p.taskCounts, row.next) else p.taskCounts)
  }

  function EventPriority(priority: Json, default: Option<int>): Option<int> {
    if priority == Absent then default else RequiredInt(priority)
  }

  function ParentActivation(stack: seq<OpenInterrupt>): Option<string> {
    if stack == [] then None else Some(stack[|stack| - 1].activation)
  }

  /** The row that an interrupt event appends, or the fault it raises. */
  function InterruptOf(p: Progress, e: Event): (r: Result<Interrupt, StreamFault>)
    requires e.InterruptEvent?
    ensures r.Ok? ==> r.value.entering == e.entering && (!e.entering ==> OpenOn(p.stacks, r.value.core) != [])
  {
    if MAX_NATIVE_TIMELINE_EVENTS <= |p.interrupts| then Raised(TooManyEvents)
    else
      var core :- Need(RequiredNat(e.core), BadEventField);
      var id :- Need(RequiredString(e.interrupt), BadEventField);
      var activation :- Need(RequiredString(e.activation), BadEventField);
      if id !in p.contexts || p.contexts[id].kind != ISR then Raised(UndefinedContext)
      else if OnOtherCore(p.contexts[id], core) then Raised(WrongCore)
      else
        var priority :- Need(EventPriority(e.priority, p.contexts[id].priority), NoPriority);
        if core !in p.active then Raised(NothingScheduled)
        else if p.active[core] !in p.contexts || !Schedulable(p.contexts[p.active[core]].kind) then Raised(WrongKind)
        else
          var stack := OpenOn(p.stacks, core);
          var row :- if e.entering then Ok(EnterRow(p, core, id, activation, priority))
                     else LeaveRow(p, core, id, activation, priority);
          var ts :- Need(RequiredInt(e.ts), BadEventField);
          Ok(row.(ts := ts as real))
  }

  function EnterRow(p: Progress, core: nat, id: string, activation: string, priority: int): Interrupt
    requires core in p.active && p.active[core] in p.contexts && id in p.contexts
  {
    var stack := OpenOn(p.stacks, core);
    var preempted := if p.contexts[p.active[core]].kind == TASK then Some(p.active[core]) else None;
    Interrupt(true, 0.0, core, id, p.contexts[id].name, priority, activation, |stack| + 1,
              ParentActivation(stack), preempted)
  }

  function LeaveRow(p: Progress, core: nat, id: string, activation: string, priority: int)
    : Result<Interrupt, StreamFault>
    requires id in p.contexts
  {
    var stack := OpenOn(p.stacks, core);
    if stack == [] then Raised(NothingOpen)
    else
      var top := stack[|stack| - 1];
      if id != top.id || activation != top.activation then Raised(NotTopActivation)
      else if priority != top.priority then Raised(PriorityChanged)
      else
        Ok(Interrupt(false, 0.0, core, id, p.contexts[id].name, priority, activation, |stack|,
                     ParentActivation(stack[..|stack| - 1]), top.preempted))
  }

  /** The state change that goes with an accepted interrupt row. */
  function Interrupted(p: Progress, row: Interrupt): Progress
    requires !row.entering ==> OpenOn(p.stacks, row.core) != []
  {
    var stack := OpenOn(p.stacks, row.core);
    if row.entering then
      p.(interrupts := p.interrupts + [row],
         stacks := p.stacks[row.core := stack + [OpenInterrupt(row.id, row.activation, row.priority, row.preempted)]],
         maximumDepth := if p.maximumDepth < row.depth then row.depth else p.maximumDepth,
         preemptedTask := p.preemptedTask || row.preempted.Some?,
         isrCounts := Tally(p.isrCounts, row.id))
    else
      p.(interrupts := p.interrupts + [row], stacks := p.stacks[row.core := stack[..|stack| - 1]])
  }

  function StepEvent(p: Progress, e: Event): Step {
    match e
    case NoEvent => Ok(p)
    case SwitchEvent(_, _, _, _, _) => var row :- SwitchOf(p, e); Ok(Switched(p, row))
    case InterruptEvent(_, _, _, _, _, _) => var row :- InterruptOf(p, e); Ok(Interrupted(p, row))
  }

  function StepRecord(session: string, p: Progress, r: Record): Step {
    if r.session != Absent && r.session != Null && r.session != Text(session) then Raised(ForeignSession)
    else
      var contexts :- DefineAll(p.contexts, r.entries);
      StepEvent(p.(contexts := contexts), r.event)
  }

  /** The state after a prefix of the stream, or the fault that stopped it. */
  function Run(session: string, records: seq<Record>): Step {
    if records == [] then Ok(START)
    else
      var before :- Run(session, records[..|records| - 1]);
      StepRecord(session, before, records[|records| - 1])
  }

  /** What the end of the stream still requires. */
  function EndFault(p: Progress): Option<StreamFault> {
    if p.kinds != {TASK, IDLE} then Some(KindsMissing)
    else if p.maximumDepth < 2 then Some(NotNested)
    else if !p.preemptedTask then Some(NoTaskPreempted)
    else if exists core :: core in p.stacks && p.stacks[core] != [] then Some(StillOpen)
    else None
  }

  function Extract(session: string, records: seq<Record>): Step {
    var p :- Run(session, records);
    var fault := EndFault(p);
    if fault.Some? then Raised(fault.value) else Ok(p)
  }

  // ---------------------------------------------------------------- the streaming loop

  method DefineContexts(contexts: map<string, Context>, entries: seq<ContextEntry>)
    returns (r: Result<map<string, Context>, StreamFault>)
    ensures r == DefineAll(contexts, entries)
  {
    var defined := contexts;
    for i := 0 to |entries|
      invariant DefineAll(contexts, entries[..i]) == Ok(defined)
    {
      DefineAllStops(contexts, entries, i + 1);
      assert entries[..i + 1][..i] == entries[..i];
      var next := Define(defined, entries[i]);
      if next.Raised? { return next; }
      defined := next.value;
    }
    assert entries[..|entries|] == entries;
    return Ok(defined);
  }

  lemma {:induction false} DefineAllStops(contexts: map<string, Context>, entries: seq<ContextEntry>, n: nat)
    requires n <= |entries|
    ensures DefineAll(contexts, entries[..n]).Raised? ==> DefineAll(contexts, entries) == DefineAll(contexts, entries[..n])
    decreases |entries|
  {
    if n < |entries| {
      assert entries[..|entries| - 1][..n] == entries[..n];
      DefineAllStops(contexts, entries[..|entries| - 1], n);
    } else {
      assert entries[..n] == entries;
    }
  }

  /** A fault in a prefix of the stream is the fault of the whole stream. */
  lemma {:induction false} RunStops(session: string, records: seq<Record>, n: nat)
    requires n <= |records|
    ensures Run(session, records[..n]).Raised? ==> Run(session, records) == Run(session, records[..n])
    decreases |records|
  {
    if n < |records| {
      assert records[..|records| - 1][..n] == records[..n];
      RunStops(session, records[..|records| - 1], n);
    } else {
      assert records[..n] == records;
    }
  }

  lemma {:induction false} RunNext(session: string, records: seq<Record>, i: nat)
    requires i < |records| && Run(session, records[..i]).Ok?
    ensures Run(session, records[..i + 1]) == StepRecord(session, Run(session, records[..i]).value, records[i])
    ensures Run(session, records[..i + 1]).Raised? ==> Run(session, records) == Run(session, records[..i + 1])
  {
    RunStops(session, records, i + 1);
    assert records[..i + 1][..i] == records[..i];
  }

  /** The extractor: dictionaries and stacks updated in place, one record at a time. */
  method ExtractTimeline(session: string, records: seq<Record>) returns (r: Step)
    ensures r == Extract(session, records)
  {
    var contexts: map<string, Context> := map[];
    var active: map<nat, string> := map[];
    var stacks: map<nat, seq<OpenInterrupt>> := map[];
    var switches: seq<Switch>, interrupts: seq<Interrupt> := [], [];
    var taskCounts: map<string, nat>, isrCounts: map<string, nat> := map[], map[];
    var kinds: set<string> := {};
    var maximumDepth: nat, preemptedTask := 0, false;
    ghost var p := START;
    for i := 0 to |records|
      invariant Run(session, records[..i]) == Ok(p)
      invariant p.contexts == contexts && p.active == active && p.stacks == stacks
      invariant p.switches == switches && p.interrupts == interrupts
      invariant p.taskCounts == taskCounts && p.isrCounts == isrCounts && p.kinds == kinds
      invariant p.maximumDepth == maximumDepth && p.preemptedTask == preemptedTask
    {
      RunNext(session, records, i);
      var record := records[i];
      if record.session != Absent && record.session != Null && record.session != Text(session) {
        return Raised(ForeignSession);
      }
      var defined := DefineContexts(contexts, record.entries);
      if defined.Raised? { return Raised(defined.fault); }
      contexts := defined.value;
      p := p.(contexts := contexts);
      assert Run(session, records[..i + 1]) == StepEvent(p, record.event);
      if record.event.SwitchEvent? {
        var accepted := AcceptSwitch(contexts, active, |switches|, record.event, p);
        if accepted.Raised? { return Raised(accepted.fault); }
        var row := accepted.value;
        p := Switched(p, row);
        switches := switches + [row];
        active := active[row.core := row.next];
        kinds := kinds + {row.nextKind};
        if row.nextKind == TASK {
          taskCounts := Tally(taskCounts, row.next);
        }
      } else if record.event.InterruptEvent? {
        var accepted := AcceptInterrupt(contexts, active, stacks, |interrupts|, record.event, p);
        if accepted.Raised? { return Raised(accepted.fault); }
        var row := accepted.value;
        var stack := OpenOn(stacks, row.core);
        p := Interrupted(p, row);
        if row.entering {
          stacks := stacks[row.core := stack + [OpenInterrupt(row.id, row.activation, row.priority, row.preempted)]];
          maximumDepth := if maximumDepth < row.depth then row.depth else maximumDepth;
          preemptedTask := preemptedTask || row.preempted.Some?;
          isrCounts := Tally(isrCounts, row.id);
        } else {
          stacks := stacks[row.core := stack[..|stack| - 1]];
        }
        interrupts := interrupts + [row];
      }
    }
    assert records[..|records|] == records;
    var reached := Progress(contexts, active, stacks, switches, interrupts,
                            taskCounts, isrCounts, kinds, maximumDepth, preemptedTask);
    assert reached == p;
    r := RequireReference(reached);
  }

  method RequireReference(p: Progress) returns (r: Step)
    ensures r == if EndFault(p).Some? then Raised(EndFault(p).value) else Ok(p)
  {
    if p.kinds != {TASK, IDLE} { return Raised(KindsMissing); }
    if p.maximumDepth < 2 { return Raised(NotNested); }
    if !p.preemptedTask { return Raised(NoTaskPreempted); }
    if exists core :: core in p.stacks && p.stacks[core] != [] { return Raised(StillOpen); }
    return Ok(p);
  }

  /** The checks of the context-switch branch, up to the row that is appended. */
  method AcceptSwitch(contexts: map<string, Context>, active: map<nat, string>, seen: nat, e: Event, ghost p: Progress)
    returns (r: Result<Switch, StreamFault>)
    requires e.SwitchEvent? && p.contexts == contexts && p.active == active && |p.switches| == seen
    ensures r == SwitchOf(p, e)
  {
    if MAX_NATIVE_TIMELINE_EVENTS <= seen { return Raised(TooManyEvents); }
    var core :- Need(RequiredNat(e.core), BadEventField);
    var next :- Need(RequiredString(e.next), BadEventField);
    if next !in contexts { return Raised(UndefinedContext); }
    var definition := contexts[next];
    if !Schedulable(definition.kind) { return Raised(WrongKind); }
    if definition.priority.None? { return Raised(NoPriority); }
    if OnOtherCore(definition, core) { return Raised(WrongCore); }
    var tracked := Lookup(active, core);
    if e.legacyPrevious != Absent { return Raised(NonCanonicalPrevious); }
    var declared :- Need(NullableString(e.prev), BadEventField);
    if tracked.None? && declared.Some? && !FirstPreviousFits(contexts, declared.value, core) {
      return Raised(BadFirstPrevious);
    }
    if tracked.Some? && declared != tracked { return Raised(PreviousMismatch); }
    var ts :- Need(RequiredInt(e.ts), BadEventField);
    return Ok(Switch(ts as real, core, declared, next, definition.name, definition.kind, definition.priority.value));
  }

  /** The checks of the interrupt branch, up to the row that is appended. */
  method AcceptInterrupt(contexts: map<string, Context>, active: map<nat, string>,
                         stacks: map<nat, seq<OpenInterrupt>>, seen: nat, e: Event, ghost p: Progress)
    returns (r: Result<Interrupt, StreamFault>)
    requires e.InterruptEvent?
    requires p.contexts == contexts && p.active == active && p.stacks == stacks && |p.interrupts| == seen
    ensures r == InterruptOf(p, e)
  {
    if MAX_NATIVE_TIMELINE_EVENTS <= seen { return Raised(TooManyEvents); }
    var core :- Need(RequiredNat(e.core), BadEventField);
    var id :- Need(RequiredString(e.interrupt), BadEventField);
    var activation :- Need(RequiredString(e.activation), BadEventField);
    if id !in contexts || contexts[id].kind != ISR { return Raised(UndefinedContext); }
    if OnOtherCore(contexts[id], core) { return Raised(WrongCore); }
    var priority :- Need(EventPriority(e.priority, contexts[id].priority), NoPriority);
    if core !in active { return Raised(NothingScheduled); }
    var scheduled := active[core];
    if scheduled !in contexts || !Schedulable(contexts[scheduled].kind) { return Raised(WrongKind); }
    var stack := OpenOn(stacks, core);
    if e.entering {
      var preempted := if contexts[scheduled].kind == TASK then Some(scheduled) else None;
      var ts :- Need(RequiredInt(e.ts), BadEventField);
      return Ok(Interrupt(true, ts as real, core, id, contexts[id].name, priority, activation, |stack| + 1,
                          ParentActivation(stack), preempted));
    }
    if stack == [] { return Raised(NothingOpen); }
    var top := stack[|stack| - 1];
    if id != top.id || activation != top.activation { return Raised(NotTopActivation); }
    if priority != top.priority { return Raised(PriorityChanged); }
    var ts :- Need(RequiredInt(e.ts), BadEventField);
    return Ok(Interrupt(false, ts as real, core, id, contexts[id].name, priority, activation, |stack|,
                        ParentActivation(stack[..|stack| - 1]), top.preempted));
  }
}
