/**
 What every accepted observation stream satisfies, and the agreement of the extractor with the
 independently written native parsers.
 */
module TimelineAgreement {
  import opened Outcomes
  import opened Scalars
  import opened Counting
  import opened ContextSwitches
  import opened NestedInterrupts
  import opened NativeReference
  import opened Timeline

  // ---------------------------------------------------------------- what the counts count

  function SwitchesInto(rows: seq<Switch>, task: string): nat {
    if rows == [] then 0
    else
      var row := rows[|rows| - 1];
      SwitchesInto(rows[..|rows| - 1], task) + if row.nextKind == TASK && row.next == task then 1 else 0
  }

  function TaskSwitches(rows: seq<Switch>): nat {
    if rows == [] then 0
    else TaskSwitches(rows[..|rows| - 1]) + if rows[|rows| - 1].nextKind == TASK then 1 else 0
  }

  function ActivationsOf(rows: seq<Interrupt>, id: string): nat {
    if rows == [] then 0
    else
      var row := rows[|rows| - 1];
      ActivationsOf(rows[..|rows| - 1], id) + if row.entering && row.id == id then 1 else 0
  }

  // ---------------------------------------------------------------- the invariant of the stream

  /** The extractor's stack entries carry the closing obligations of the open rows. */
  predicate Mirrors(rows: Stack, stack: seq<OpenInterrupt>) {
    && |rows| == |stack|
    && forall i :: 0 <= i < |stack| ==>
         && rows[i].id == stack[i].id
         && rows[i].activation == stack[i].activation
         && rows[i].priority == stack[i].priority
         && rows[i].preempted == stack[i].preempted
  }

  ghost predicate StacksMirror(p: Progress) {
    forall core: nat ::
      var open := OpenAfter(OnCore(p.interrupts, core));
      open.Some? && Mirrors(open.value, OpenOn(p.stacks, core))
  }

  /** The same for one core. */
  predicate MirrorsOn(p: Progress, core: nat) {
    var open := OpenAfter(OnCore(p.interrupts, core));
    open.Some? && Mirrors(open.value, OpenOn(p.stacks, core))
  }

  predicate Named(contexts: map<string, Context>) {
    forall id :: id in contexts ==> NonBlank(id) && NonBlank(contexts[id].name)
  }

  predicate Labelled(stack: seq<OpenInterrupt>) {
    forall i :: 0 <= i < |stack| ==> NonBlank(stack[i].activation) && NonBlankOption(stack[i].preempted)
  }

  ghost predicate SwitchInvariant(p: Progress) {
    && |p.switches| <= MAX_NATIVE_TIMELINE_EVENTS
    && (forall s :: s in p.switches ==> WritableSwitch(s))
    && Chained(p.switches)
    && p.active == ActiveAfter(p.switches)
    && p.kinds <= {TASK, IDLE}
    && (forall kind :: kind in p.kinds <==> Switches(p.switches, kind))
    && (forall task :: Count(p.taskCounts, task) == SwitchesInto(p.switches, task))
    && Total(p.taskCounts) == TaskSwitches(p.switches)
  }

  /** Open interrupts are labelled, and only a scheduled core has any. */
  predicate StacksFit(p: Progress) {
    && (forall core :: core in p.stacks ==> Labelled(p.stacks[core]))
    && (forall core :: core in p.stacks && p.stacks[core] != [] ==> core in p.active)
  }

  ghost predicate InterruptInvariant(p: Progress) {
    && |p.interrupts| <= MAX_NATIVE_TIMELINE_EVENTS
    && (forall i :: i in p.interrupts ==> WritableInterrupt(i))
    && StacksMirror(p)
    && StacksFit(p)
    && (2 <= p.maximumDepth <==> HasNested(p.interrupts))
    && (p.preemptedTask <==> HasPreemptedTask(p.interrupts))
    && (forall id :: Count(p.isrCounts, id) == ActivationsOf(p.interrupts, id))
    && Total(p.isrCounts) == Enters(p.interrupts)
  }

  ghost predicate Invariant(p: Progress) {
    Named(p.contexts) && SwitchInvariant(p) && InterruptInvariant(p)
  }

  lemma {:induction false} DefineAllNamed(contexts: map<string, Context>, entries: seq<ContextEntry>)
    requires Named(contexts)
    ensures DefineAll(contexts, entries).Ok? ==> Named(DefineAll(contexts, entries).value)
    ensures DefineAll(contexts, entries).Ok? ==>
              forall id :: id in contexts ==> id in DefineAll(contexts, entries).value && DefineAll(contexts, entries).value[id] == contexts[id]
  {
    if entries != [] {
      DefineAllNamed(contexts, entries[..|entries| - 1]);
    }
  }

  predicate GoodSwitch(p: Progress, row: Switch) {
    |p.switches| < MAX_NATIVE_TIMELINE_EVENTS && WritableSwitch(row) && Follows(p.active, row)
  }

  lemma {:induction false} SwitchOfIsGood(p: Progress, e: Event)
    requires Named(p.contexts) && e.SwitchEvent? && SwitchOf(p, e).Ok?
    ensures GoodSwitch(p, SwitchOf(p, e).value)
  {
  }

  lemma {:induction false} SwitchKeepsInvariant(p: Progress, row: Switch)
    requires SwitchInvariant(p) && GoodSwitch(p, row)
    ensures SwitchInvariant(Switched(p, row))
  {
    var q := Switched(p, row);
    ChainedAppend(p.switches, row);
    ActiveAfterAppend(p.switches, row);
    SwitchesAppend(p.switches, row);
    SwitchKeepsCounts(p, row);
  }

  lemma {:induction false} SwitchesNext(rows: seq<Switch>, row: Switch, task: string)
    ensures SwitchesInto(rows + [row], task) == SwitchesInto(rows, task) + if row.nextKind == TASK && row.next == task then 1 else 0
    ensures TaskSwitches(rows + [row]) == TaskSwitches(rows) + if row.nextKind == TASK then 1 else 0
  {
    assert (rows + [row])[..|rows|] == rows;
  }

  lemma {:induction false} SwitchKeepsCount(p: Progress, row: Switch, task: string)
    requires Count(p.taskCounts, task) == SwitchesInto(p.switches, task)
    ensures Count(Switched(p, row).taskCounts, task) == SwitchesInto(Switched(p, row).switches, task)
  {
    SwitchesNext(p.switches, row, task);
  }

  lemma {:induction false} SwitchKeepsTotal(p: Progress, row: Switch)
    requires Total(p.taskCounts) == TaskSwitches(p.switches)
    ensures Total(Switched(p, row).taskCounts) == TaskSwitches(Switched(p, row).switches)
  {
    SwitchesNext(p.switches, row, row.next);
    TallyAddsOne(p.taskCounts, row.next);
  }

  lemma {:induction false} SwitchKeepsCounts(p: Progress, row: Switch)
    requires forall task :: Count(p.taskCounts, task) == SwitchesInto(p.switches, task)
    requires Total(p.taskCounts) == TaskSwitches(p.switches)
    ensures forall task :: Count(Switched(p, row).taskCounts, task) == SwitchesInto(Switched(p, row).switches, task)
    ensures Total(Switched(p, row).taskCounts) == TaskSwitches(Switched(p, row).switches)
  {
    forall task ensures Count(Switched(p, row).taskCounts, task) == SwitchesInto(Switched(p, row).switches, task) {
      SwitchKeepsCount(p, row, task);
    }
    SwitchKeepsTotal(p, row);
  }

  /** What the extractor guarantees of a row, given the open rows of its core. */
  ghost predicate GoodInterrupt(p: Progress, row: Interrupt, open: Stack) {
    && |p.interrupts| < MAX_NATIVE_TIMELINE_EVENTS
    && WritableInterrupt(row)
    && row.core in p.active
    && (!row.entering ==> OpenOn(p.stacks, row.core) != [])
    && Nest(open, row).Some?
    && Mirrors(Nest(open, row).value, OpenOn(Interrupted(p, row).stacks, row.core))
  }

  /** The row built from the extractor's stack is one the native nesting rule accepts. */
  lemma {:induction false} InterruptOfIsGood(p: Progress, e: Event, open: Stack)
    requires Named(p.contexts) && StacksFit(p)
    requires e.InterruptEvent? && InterruptOf(p, e).Ok?
    requires Mirrors(open, OpenOn(p.stacks, InterruptOf(p, e).value.core))
    ensures GoodInterrupt(p, InterruptOf(p, e).value, open)
  {
    var row := InterruptOf(p, e).value;
    var stack := OpenOn(p.stacks, row.core);
    assert Labelled(stack);
    InterruptOfFacts(p, e);
    MirroredRowNests(p, row, open);
  }

  /** The fields of a row in terms of the extractor's stack. */
  predicate BuiltFrom(row: Interrupt, stack: seq<OpenInterrupt>) {
    if row.entering then row.depth == |stack| + 1 && row.parent == ParentActivation(stack)
    else
      && stack != []
      && var top := stack[|stack| - 1];
         && row.depth == |stack| && row.parent == ParentActivation(stack[..|stack| - 1])
         && row.id == top.id && row.activation == top.activation
         && row.priority == top.priority && row.preempted == top.preempted
  }

  lemma {:induction false} InterruptOfFacts(p: Progress, e: Event)
    requires Named(p.contexts) && e.InterruptEvent? && InterruptOf(p, e).Ok?
    requires Labelled(OpenOn(p.stacks, InterruptOf(p, e).value.core))
    ensures var row := InterruptOf(p, e).value;
            && BuiltFrom(row, OpenOn(p.stacks, row.core))
            && WritableInterrupt(row)
            && row.core in p.active
            && |p.interrupts| < MAX_NATIVE_TIMELINE_EVENTS
  {
    TextReadsBack(InterruptOf(p, e).value.activation);
  }

  lemma {:induction false} MirroredRowNests(p: Progress, row: Interrupt, open: Stack)
    requires var stack := OpenOn(p.stacks, row.core); BuiltFrom(row, stack) && Mirrors(open, stack)
    ensures Nest(open, row).Some?
    ensures Mirrors(Nest(open, row).value, OpenOn(Interrupted(p, row).stacks, row.core))
  {
    var stack := OpenOn(p.stacks, row.core);
    if row.entering {
      assert row.parent == TopActivation(open);
    } else {
      assert Mirrors(open[..|open| - 1], stack[..|stack| - 1]);
      assert row.parent == TopActivation(open[..|open| - 1]);
    }
  }

  lemma {:induction false} InterruptKeepsInvariant(p: Progress, row: Interrupt)
    requires InterruptInvariant(p) && GoodInterrupt(p, row, OpenAfter(OnCore(p.interrupts, row.core)).value)
    ensures InterruptInvariant(Interrupted(p, row))
  {
    var open := OpenAfter(OnCore(p.interrupts, row.core)).value;
    InterruptKeepsStacks(p, row);
    InterruptKeepsFit(p, row);
    SeenAppend(p.interrupts, row);
    DepthOfNested(open, row);
    InterruptKeepsCounts(p, row);
  }

  lemma {:induction false} InterruptKeepsFit(p: Progress, row: Interrupt)
    requires StacksFit(p) && WritableInterrupt(row) && row.core in p.active
    requires !row.entering ==> OpenOn(p.stacks, row.core) != []
    ensures StacksFit(Interrupted(p, row))
  {
    var stack := OpenOn(p.stacks, row.core);
    assert Labelled(stack);
    forall core | core in Interrupted(p, row).stacks ensures Labelled(Interrupted(p, row).stacks[core]) {
      if core != row.core {
        assert Interrupted(p, row).stacks[core] == p.stacks[core];
      }
    }
  }

  lemma {:induction false} DepthOfNested(open: Stack, row: Interrupt)
    requires Nest(open, row).Some?
    ensures 1 <= row.depth
  {
  }

  lemma {:induction false} InterruptKeepsStacks(p: Progress, row: Interrupt)
    requires StacksMirror(p) && (!row.entering ==> OpenOn(p.stacks, row.core) != [])
    requires var open := OpenAfter(OnCore(p.interrupts, row.core)).value;
             Nest(open, row).Some? && Mirrors(Nest(open, row).value, OpenOn(Interrupted(p, row).stacks, row.core))
    ensures StacksMirror(Interrupted(p, row))
  {
    var q := Interrupted(p, row);
    forall core: nat
      ensures var open := OpenAfter(OnCore(q.interrupts, core));
              open.Some? && Mirrors(open.value, OpenOn(q.stacks, core))
    {
      assert MirrorsOn(p, core);
      if core == row.core { OwnStackMirrors(p, row); } else { OtherStackMirrors(p, row, core); }
      assert MirrorsOn(q, core);
    }
  }

  lemma {:induction false} OwnStackMirrors(p: Progress, row: Interrupt)
    requires MirrorsOn(p, row.core) && (!row.entering ==> OpenOn(p.stacks, row.core) != [])
    requires var open := OpenAfter(OnCore(p.interrupts, row.core)).value;
             Nest(open, row).Some? && Mirrors(Nest(open, row).value, OpenOn(Interrupted(p, row).stacks, row.core))
    ensures MirrorsOn(Interrupted(p, row), row.core)
  {
    OnCoreAppend(p.interrupts, row);
    OpenAfterAppend(OnCore(p.interrupts, row.core), row);
  }

  lemma {:induction false} OtherStackMirrors(p: Progress, row: Interrupt, core: nat)
    requires MirrorsOn(p, core) && core != row.core && (!row.entering ==> OpenOn(p.stacks, row.core) != [])
    ensures MirrorsOn(Interrupted(p, row), core)
  {
    OnCoreAppend(p.interrupts, row);
    assert OnCore(p.interrupts, core) + [] == OnCore(p.interrupts, core);
  }

  lemma {:induction false} ActivationsNext(rows: seq<Interrupt>, row: Interrupt, id: string)
    ensures ActivationsOf(rows + [row], id) == ActivationsOf(rows, id) + if row.entering && row.id == id then 1 else 0
    ensures Enters(rows + [row]) == Enters(rows) + if row.entering then 1 else 0
  {
    assert (rows + [row])[..|rows|] == rows;
  }

  lemma {:induction false} InterruptKeepsCount(p: Progress, row: Interrupt, id: string)
    requires !row.entering ==> OpenOn(p.stacks, row.core) != []
    requires Count(p.isrCounts, id) == ActivationsOf(p.interrupts, id)
    ensures Count(Interrupted(p, row).isrCounts, id) == ActivationsOf(Interrupted(p, row).interrupts, id)
  {
    ActivationsNext(p.interrupts, row, id);
  }

  lemma {:induction false} InterruptKeepsTotal(p: Progress, row: Interrupt)
    requires !row.entering ==> OpenOn(p.stacks, row.core) != []
    requires Total(p.isrCounts) == Enters(p.interrupts)
    ensures Total(Interrupted(p, row).isrCounts) == Enters(Interrupted(p, row).interrupts)
  {
    ActivationsNext(p.interrupts, row, row.id);
    TallyAddsOne(p.isrCounts, row.id);
  }

  lemma {:induction false} InterruptKeepsCounts(p: Progress, row: Interrupt)
    requires !row.entering ==> OpenOn(p.stacks, row.core) != []
    requires forall id :: Count(p.isrCounts, id) == ActivationsOf(p.interrupts, id)
    requires Total(p.isrCounts) == Enters(p.interrupts)
    ensures forall id :: Count(Interrupted(p, row).isrCounts, id) == ActivationsOf(Interrupted(p, row).interrupts, id)
    ensures Total(Interrupted(p, row).isrCounts) == Enters(Interrupted(p, row).interrupts)
  {
    forall id ensures Count(Interrupted(p, row).isrCounts, id) == ActivationsOf(Interrupted(p, row).interrupts, id) {
      InterruptKeepsCount(p, row, id);
    }
    InterruptKeepsTotal(p, row);
  }

  /** The invariant holds after every accepted prefix of a stream. */
  lemma {:induction false} RunKeepsInvariant(session: string, records: seq<Record>)
    ensures Run(session, records).Ok? ==> Invariant(Run(session, records).value)
  {
    if records == [] {
      StartInvariant();
    } else if Run(session, records).Ok? {
      RunKeepsInvariant(session, records[..|records| - 1]);
      var p, r := Run(session, records[..|records| - 1]).value, records[|records| - 1];
      DefineAllNamed(p.contexts, r.entries);
      var q := p.(contexts := DefineAll(p.contexts, r.entries).value);
      assert InterruptInvariant(q) && SwitchInvariant(q);
      if r.event.SwitchEvent? {
        var row := SwitchOf(q, r.event).value;
        SwitchOfIsGood(q, r.event);
        SwitchKeepsInvariant(q, row);
        SwitchKeepsInterrupts(q, row);
      } else if r.event.InterruptEvent? {
        var row := InterruptOf(q, r.event).value;
        InterruptOfIsGood(q, r.event, OpenAfter(OnCore(q.interrupts, row.core)).value);
        InterruptKeepsInvariant(q, row);
      }
    }
  }

  lemma {:induction false} SwitchKeepsInterrupts(p: Progress, row: Switch)
    requires InterruptInvariant(p)
    ensures InterruptInvariant(Switched(p, row))
  {
    var q := Switched(p, row);
    assert q.stacks == p.stacks && q.interrupts == p.interrupts;
    assert StacksMirror(q);
  }

  lemma {:induction false} StartInvariant()
    ensures Invariant(START)
  {
    forall core: nat ensures OnCore([], core) == [] && OpenAfter([]) == Some([]) {}
  }

  // ---------------------------------------------------------------- accepted timelines

  /** Every accepted timeline is, on each core, a forest of activations whose depths and parents are
      the recorded ones; the counters are exact, and each later switch leaves the context entered before. */
  lemma {:induction false} AcceptedTimelineIsWellFormed(session: string, records: seq<Record>)
    requires Extract(session, records).Ok?
    ensures var t := Extract(session, records).value;
            && BracketedOnEveryCore(t.interrupts)
            && |t.interrupts| == 2 * Total(t.isrCounts)
            && Total(t.taskCounts) == TaskSwitches(t.switches)
            && (forall id :: Count(t.isrCounts, id) == ActivationsOf(t.interrupts, id))
            && (forall task :: Count(t.taskCounts, task) == SwitchesInto(t.switches, task))
            && Chained(t.switches)
            && Switches(t.switches, TASK) && Switches(t.switches, IDLE)
            && HasNested(t.interrupts) && HasPreemptedTask(t.interrupts)
  {
    RunKeepsInvariant(session, records);
    var t := Extract(session, records).value;
    assert TASK in t.kinds && IDLE in t.kinds;
    forall core: nat ensures OpenAfter(OnCore(t.interrupts, core)) == Some([]) {
      assert OpenOn(t.stacks, core) == [];
    }
    forall core: nat ensures Bracketed(OnCore(t.interrupts, core)) {
      AcceptedIffBracketed(OnCore(t.interrupts, core));
    }
    BracketedCount(t.interrupts);
  }

  /** Rows that are bracketed on every core are half enters and half exits. */
  lemma {:induction false} BracketedCount(rows: seq<Interrupt>)
    requires forall core: nat :: OpenAfter(OnCore(rows, core)) == Some([])
    ensures |rows| == 2 * Enters(rows)
    decreases |rows|
  {
    if rows != [] {
      var core := rows[0].core;
      var mine, rest := OnCore(rows, core), OffCore(rows, core);
      OpenCount(mine);
      SplitByCore(rows, core);
      OffCoreShrinks(rows, core);
      forall other: nat ensures OpenAfter(OnCore(rest, other)) == Some([]) {
        OffCoreKeepsOthers(rows, core, other);
        assert OpenAfter([]) == Some([]);
      }
      BracketedCount(rest);
    }
  }

  function OffCore(rows: seq<Interrupt>, core: nat): seq<Interrupt> {
    if rows == [] then []
    else
      var row := rows[|rows| - 1];
      OffCore(rows[..|rows| - 1], core) + if row.core == core then [] else [row]
  }

  lemma {:induction false} SplitByCore(rows: seq<Interrupt>, core: nat)
    ensures |rows| == |OnCore(rows, core)| + |OffCore(rows, core)|
    ensures Enters(rows) == Enters(OnCore(rows, core)) + Enters(OffCore(rows, core))
  {
    if rows != [] {
      var prefix, row := rows[..|rows| - 1], rows[|rows| - 1];
      SplitByCore(prefix, core);
      EntersAppend(OnCore(prefix, core), row);
      EntersAppend(OffCore(prefix, core), row);
    }
  }

  lemma {:induction false} EntersAppend(rows: seq<Interrupt>, row: Interrupt)
    ensures Enters(rows + [row]) == Enters(rows) + if row.entering then 1 else 0
    ensures rows + [] == rows
  {
    assert (rows + [row])[..|rows|] == rows;
  }

  lemma {:induction false} OffCoreShrinks(rows: seq<Interrupt>, core: nat)
    requires exists i :: 0 <= i < |rows| && rows[i].core == core
    ensures |OffCore(rows, core)| < |rows|
  {
    SplitByCore(rows, core);
    var i :| 0 <= i < |rows| && rows[i].core == core;
    OnCorePrefix(rows, i + 1, core);
    assert rows[..i + 1][|rows[..i + 1]| - 1] == rows[i];
  }

  lemma {:induction false} OffCoreKeepsOthers(rows: seq<Interrupt>, core: nat, other: nat)
    ensures OnCore(OffCore(rows, core), other) == if other == core then [] else OnCore(rows, other)
  {
    if rows != [] {
      var prefix, row := rows[..|rows| - 1], rows[|rows| - 1];
      OffCoreKeepsOthers(prefix, core, other);
      OnCoreAppend(OffCore(prefix, core), row);
      assert OffCore(prefix, core) + [] == OffCore(prefix, core);
    }
  }

  // ---------------------------------------------------------------- scheduling and preemption

  /** Every accepted interrupt event, entering or leaving, finds a context scheduled on its core. An
      entering one preempts the task that the core's last switch entered; a leaving one gives back what
      the activation on top of the stack preempted. */
  lemma {:induction false} PreemptedIsScheduledTask(session: string, records: seq<Record>) returns (row: Interrupt, i: nat)
    requires records != [] && Run(session, records).Ok? && records[|records| - 1].event.InterruptEvent?
    ensures var before, after := Run(session, records[..|records| - 1]).value, Run(session, records).value;
            && after.interrupts == before.interrupts + [row] && row.entering == records[|records| - 1].event.entering
            && LastOn(before.switches, row.core, i)
            && var scheduled, open := before.switches[i].next, OpenOn(before.stacks, row.core);
               && scheduled in after.contexts && Schedulable(after.contexts[scheduled].kind)
               && (row.entering ==> row.preempted == if after.contexts[scheduled].kind == TASK then Some(scheduled) else None)
               && (!row.entering ==> open != [] && row.preempted == open[|open| - 1].preempted)
  {
    var prefix := records[..|records| - 1];
    RunKeepsInvariant(session, prefix);
    var before, r := Run(session, prefix).value, records[|records| - 1];
    var q := before.(contexts := DefineAll(before.contexts, r.entries).value);
    row := InterruptOf(q, r.event).value;
    InterruptFindsActive(q, r.event);
    i := LastOnCore(before.switches, row.core);
    ActiveIsLastNext(before.switches, row.core);
  }

  lemma {:induction false} InterruptFindsActive(p: Progress, e: Event)
    requires e.InterruptEvent? && InterruptOf(p, e).Ok?
    ensures var row, open := InterruptOf(p, e).value, OpenOn(p.stacks, InterruptOf(p, e).value.core);
            && row.entering == e.entering && row.core in p.active && p.active[row.core] in p.contexts
            && Schedulable(p.contexts[p.active[row.core]].kind)
            && (row.entering ==> row.preempted == if p.contexts[p.active[row.core]].kind == TASK then Some(p.active[row.core]) else None)
            && (!row.entering ==> open != [] && row.preempted == open[|open| - 1].preempted)
  {
  }
}
