/** A small timeline at any point in time: the extractor accepts it wherever it starts. */
module TimelineShift {
  import opened Outcomes
  import opened Scalars
  import opened ContextSwitches
  import opened NestedInterrupts
  import opened NativeReference
  import opened Timeline
  import opened TimelineEvents
  import opened NativeDifferential

  /** The ids of a task, an idle context and an interrupt, which also serve as names and activations. */
  datatype Names = Names(task: string, idle: string, isr: string)

  predicate Proper(x: Names) {
    && NonBlank(x.task) && NonBlank(x.idle) && NonBlank(x.isr)
    && x.task != x.idle && x.idle != x.isr && x.task != x.isr
  }

  function Defines(id: string, kind: string): Record {
    Record(Absent, [ContextEntry(Text(id), Text(kind), Text(id), Absent, Int(0))], NoEvent)
  }

  function Enters(next: string, previous: Option<string>, ts: int): Event {
    SwitchEvent(Int(0), Text(next), NullableText(previous), Absent, Int(ts))
  }

  function Interrupts(entering: bool, id: string, ts: int): Event {
    InterruptEvent(entering, Int(0), Text(id), Text(id), Absent, Int(ts))
  }

  function Happens(e: Event): Record {
    Record(Absent, [], e)
  }

  /** A task is scheduled, interrupted twice, and left for the idle context, from time `ts` on. */
  function Shifted(x: Names, ts: int): seq<Record> {
    Opening(x, ts)
    + [Happens(Interrupts(false, x.isr, ts + 3))] + [Happens(Interrupts(false, x.isr, ts + 4))]
    + [Happens(Enters(x.idle, Some(x.task), ts + 5))]
  }

  function Opening(x: Names, ts: int): seq<Record> {
    Dictionary(x) + [Happens(Enters(x.task, None, ts))]
    + [Happens(Interrupts(true, x.isr, ts + 1))] + [Happens(Interrupts(true, x.isr, ts + 2))]
  }

  function Dictionary(x: Names): seq<Record> {
    [Defines(x.task, TASK), Defines(x.idle, IDLE), Defines(x.isr, ISR)]
  }

  function Contexts(x: Names): map<string, Context> {
    map[][x.task := Context(TASK, x.task, None, Some(0))][x.idle := Context(IDLE, x.idle, None, Some(0))]
         [x.isr := Context(ISR, x.isr, None, Some(0))]
  }

  // ---------------------------------------------------------------- one record at a time

  lemma {:induction false} RunAppend(session: string, records: seq<Record>, r: Record)
    requires Run(session, records).Ok?
    ensures Run(session, records + [r]) == StepRecord(session, Run(session, records).value, r)
  {
    assert (records + [r])[..|records|] == records;
  }

  lemma {:induction false} DefinesContext(session: string, records: seq<Record>, id: string, kind: string)
    requires Run(session, records).Ok? && id !in Run(session, records).value.contexts && NonBlank(id) && NonBlank(kind)
    ensures var p := Run(session, records).value;
            Run(session, records + [Defines(id, kind)]) == Ok(p.(contexts := p.contexts[id := Context(kind, id, None, Some(0))]))
  {
    var p, r := Run(session, records).value, Defines(id, kind);
    RunAppend(session, records, r);
    assert r.entries[..0] == [];
    assert DefineAll(p.contexts, r.entries) == Define(p.contexts, r.entries[0]);
  }

  lemma {:induction false} IsrIsNotBlank()
    ensures NonBlank(ISR)
  {
    assert !IsSpace(ISR[0]);
  }

  lemma {:induction false} DictionaryRuns(session: string, x: Names)
    requires Proper(x)
    ensures Run(session, Dictionary(x)) == Ok(START.(contexts := Contexts(x)))
  {
    KnownWordsAreNonBlank();
    IsrIsNotBlank();
    var d := Dictionary(x);
    DefinesContext(session, [], x.task, TASK);
    assert [] + [d[0]] == [d[0]];
    DefinesContext(session, [d[0]], x.idle, IDLE);
    assert [d[0]] + [d[1]] == [d[0], d[1]];
    DefinesContext(session, [d[0], d[1]], x.isr, ISR);
    assert [d[0], d[1]] + [d[2]] == d;
  }

  /** What the stream has been read to. */
  datatype Point = Point(
    active: Option<string>, stack: seq<OpenInterrupt>, kinds: set<string>, depth: nat, preempted: bool,
    switches: seq<Switch>, interrupts: nat)

  ghost predicate At(p: Progress, x: Names, at: Point) {
    && p.contexts == Contexts(x) && (forall core :: core in p.active ==> core == 0) && Lookup(p.active, 0) == at.active
    && (forall core :: core in p.stacks ==> core == 0) && OpenOn(p.stacks, 0) == at.stack
    && p.kinds == at.kinds && p.maximumDepth == at.depth && p.preemptedTask == at.preempted
    && p.switches == at.switches && |p.interrupts| == at.interrupts
  }

  ghost predicate Reads(session: string, records: seq<Record>, x: Names, at: Point) {
    Run(session, records).Ok? && At(Run(session, records).value, x, at)
  }

  lemma {:induction false} EventRuns(session: string, records: seq<Record>, e: Event)
    requires Run(session, records).Ok?
    ensures Run(session, records + [Happens(e)]) == StepEvent(Run(session, records).value, e)
  {
    RunAppend(session, records, Happens(e));
  }

  function KindOf(x: Names, next: string): string {
    if next == x.task then TASK else IDLE
  }

  lemma {:induction false} SwitchReads(
      session: string, records: seq<Record>, x: Names, at: Point, next: string, previous: Option<string>, ts: int)
    requires Proper(x) && Reads(session, records, x, at) && (next == x.task || next == x.idle)
    requires previous == at.active && (previous.Some? ==> NonBlank(previous.value)) && |at.switches| < 10
    ensures Reads(session, records + [Happens(Enters(next, previous, ts))], x,
                  at.(active := Some(next), kinds := at.kinds + {KindOf(x, next)},
                      switches := at.switches + [Switch(ts as real, 0, previous, next, next, KindOf(x, next), 0)]))
  {
    EventRuns(session, records, Enters(next, previous, ts));
    var p, e := Run(session, records).value, Enters(next, previous, ts);
    var row := Switch(ts as real, 0, previous, next, next, KindOf(x, next), 0);
    NullableReadsBack(previous);
    assert p.contexts[next] == Context(KindOf(x, next), next, None, Some(0));
    assert SwitchOf(p, e) == Ok(row);
  }

  function Opened(x: Names): OpenInterrupt {
    OpenInterrupt(x.isr, x.isr, 0, Some(x.task))
  }

  lemma {:induction false} EnterRowIs(p: Progress, x: Names, at: Point, ts: int)
    requires Proper(x) && At(p, x, at) && at.active == Some(x.task) && at.interrupts < 10
    ensures InterruptOf(p, Interrupts(true, x.isr, ts)) ==
            Ok(Interrupt(true, ts as real, 0, x.isr, x.isr, 0, x.isr, |at.stack| + 1, ParentActivation(at.stack), Some(x.task)))
  {
    assert p.contexts[x.isr] == Context(ISR, x.isr, None, Some(0)) && p.contexts[x.task].kind == TASK;
  }

  lemma {:induction false} EnterReads(session: string, records: seq<Record>, x: Names, at: Point, ts: int)
    requires Proper(x) && Reads(session, records, x, at) && at.active == Some(x.task) && at.interrupts < 10
    ensures Reads(session, records + [Happens(Interrupts(true, x.isr, ts))], x,
                  at.(stack := at.stack + [Opened(x)], depth := if at.depth < |at.stack| + 1 then |at.stack| + 1 else at.depth,
                      preempted := true, interrupts := at.interrupts + 1))
  {
    EventRuns(session, records, Interrupts(true, x.isr, ts));
    EnterRowIs(Run(session, records).value, x, at, ts);
  }

  lemma {:induction false} LeaveRowIs(p: Progress, x: Names, at: Point, stack: seq<OpenInterrupt>, ts: int)
    requires Proper(x) && At(p, x, at) && at.active == Some(x.task) && at.interrupts < 10 && at.stack == stack + [Opened(x)]
    ensures InterruptOf(p, Interrupts(false, x.isr, ts)) ==
            Ok(Interrupt(false, ts as real, 0, x.isr, x.isr, 0, x.isr, |at.stack|, ParentActivation(stack), Some(x.task)))
  {
    assert p.contexts[x.isr] == Context(ISR, x.isr, None, Some(0)) && p.contexts[x.task].kind == TASK;
    assert at.stack[..|at.stack| - 1] == stack;
  }

  lemma {:induction false} LeftStack(p: Progress, x: Names, at: Point, stack: seq<OpenInterrupt>, row: Interrupt)
    requires At(p, x, at) && at.stack == stack + [Opened(x)] && !row.entering && row.core == 0
    ensures At(Interrupted(p, row), x, at.(stack := stack, interrupts := at.interrupts + 1))
  {
    assert at.stack[..|at.stack| - 1] == stack;
  }

  lemma {:induction false} LeaveReads(session: string, records: seq<Record>, x: Names, at: Point, stack: seq<OpenInterrupt>, ts: int)
    requires Proper(x) && Reads(session, records, x, at) && at.active == Some(x.task) && at.interrupts < 10
    requires at.stack == stack + [Opened(x)]
    ensures Reads(session, records + [Happens(Interrupts(false, x.isr, ts))], x, at.(stack := stack, interrupts := at.interrupts + 1))
  {
    EventRuns(session, records, Interrupts(false, x.isr, ts));
    var p := Run(session, records).value;
    LeaveRowIs(p, x, at, stack, ts);
    LeftStack(p, x, at, stack, InterruptOf(p, Interrupts(false, x.isr, ts)).value);
  }

  function FirstSwitch(x: Names, ts: int): Switch {
    Switch(ts as real, 0, None, x.task, x.task, TASK, 0)
  }

  lemma {:induction false} OpeningReads(session: string, x: Names, ts: int)
    requires Proper(x)
    ensures Reads(session, Opening(x, ts), x,
                  Point(Some(x.task), [] + [Opened(x)] + [Opened(x)], {} + {TASK}, 2, true, [] + [FirstSwitch(x, ts)], 2))
  {
    DictionaryRuns(session, x);
    var a0 := Point(None, [], {}, 0, false, [], 0);
    var d := Dictionary(x);
    SwitchReads(session, d, x, a0, x.task, None, ts);
    var a1 := a0.(active := Some(x.task), kinds := {} + {TASK}, switches := [] + [FirstSwitch(x, ts)]);
    var r1 := d + [Happens(Enters(x.task, None, ts))];
    EnterReads(session, r1, x, a1, ts + 1);
    var a2 := a1.(stack := [] + [Opened(x)], depth := 1, preempted := true, interrupts := 1);
    EnterReads(session, r1 + [Happens(Interrupts(true, x.isr, ts + 1))], x, a2, ts + 2);
  }

  lemma {:induction false} ShiftedReads(session: string, x: Names, ts: int)
    requires Proper(x)
    ensures Reads(session, Shifted(x, ts), x,
                  Point(Some(x.idle), [], {} + {TASK} + {IDLE}, 2, true,
                        [] + [FirstSwitch(x, ts)] + [Switch((ts + 5) as real, 0, Some(x.task), x.idle, x.idle, IDLE, 0)], 4))
  {
    OpeningReads(session, x, ts);
    var r0 := Opening(x, ts);
    var a0 := Point(Some(x.task), [] + [Opened(x)] + [Opened(x)], {} + {TASK}, 2, true, [] + [FirstSwitch(x, ts)], 2);
    LeaveReads(session, r0, x, a0, [] + [Opened(x)], ts + 3);
    var r1, a1 := r0 + [Happens(Interrupts(false, x.isr, ts + 3))], a0.(stack := [] + [Opened(x)], interrupts := 3);
    LeaveReads(session, r1, x, a1, [], ts + 4);
    var r2, a2 := r1 + [Happens(Interrupts(false, x.isr, ts + 4))], a1.(stack := [], interrupts := 4);
    SwitchReads(session, r2, x, a2, x.idle, Some(x.task), ts + 5);
  }

  lemma {:induction false} OpeningTimes(x: Names, ts: int)
    ensures forall r :: r in Opening(x, ts) ==> (EarlySwitch(r) ==> ts < 0) && (EarlyInterrupt(r) ==> ts + 1 < 0)
    ensures Happens(Enters(x.task, None, ts)) in Opening(x, ts) && Happens(Interrupts(true, x.isr, ts + 1)) in Opening(x, ts)
  {
    var d := Dictionary(x) + [Happens(Enters(x.task, None, ts))];
    forall r | r in Dictionary(x) ensures !EarlySwitch(r) && !EarlyInterrupt(r) {
      assert r.event.NoEvent?;
    }
    assert Happens(Enters(x.task, None, ts)) in d;
    assert Happens(Interrupts(true, x.isr, ts + 1)) in d + [Happens(Interrupts(true, x.isr, ts + 1))];
  }

  /** The first switch and the first interrupt are the earliest. */
  lemma {:induction false} ShiftedTimes(x: Names, ts: int)
    ensures (forall r :: r in Shifted(x, ts) ==> !EarlySwitch(r)) <==> 0 <= ts
    ensures (forall r :: r in Shifted(x, ts) ==> !EarlyInterrupt(r)) <==> 0 <= ts + 1
  {
    OpeningTimes(x, ts);
    forall r | r in Shifted(x, ts) ensures (EarlySwitch(r) ==> ts < 0) && (EarlyInterrupt(r) ==> ts + 1 < 0) {
      assert r in Opening(x, ts) || r == Happens(Interrupts(false, x.isr, ts + 3)) || r == Happens(Interrupts(false, x.isr, ts + 4))
          || r == Happens(Enters(x.idle, Some(x.task), ts + 5));
    }
    var first, entry := Happens(Enters(x.task, None, ts)), Happens(Interrupts(true, x.isr, ts + 1));
    assert first in Shifted(x, ts) && entry in Shifted(x, ts);
    assert (EarlySwitch(first) <==> ts < 0) && (EarlyInterrupt(entry) <==> ts + 1 < 0);
  }

  lemma {:induction false} ShiftedIsAccepted(session: string, x: Names, ts: int)
    requires Proper(x)
    ensures var r := Extract(session, Shifted(x, ts));
            && r.Ok?
            && |r.value.switches| == 2 && |r.value.interrupts| == 4 && r.value.switches[0].ts == ts as real
  {
    ShiftedReads(session, x, ts);
    var p := Run(session, Shifted(x, ts)).value;
    assert p.kinds == {TASK, IDLE};
    forall core | core in p.stacks ensures p.stacks[core] == [] { assert core == 0 && OpenOn(p.stacks, 0) == []; }
    assert EndFault(p).None?;
  }

  /** The extractor accepts the timeline at every start; the native parser accepts its switches exactly
      when the start is not negative, and its interrupts, which begin one later, exactly when that is not. */
  lemma {:induction false} AcceptedAtEveryStart(session: string, x: Names, ts: int)
    requires Proper(x)
    ensures var r := Extract(session, Shifted(x, ts));
            && r.Ok?
            && |r.value.switches| == 2 && |r.value.interrupts| == 4 && r.value.switches[0].ts == ts as real
            && (AcceptableSwitches(WriteSwitches(r.value.switches)) <==> 0 <= ts)
            && (AcceptableInterrupts(WriteInterrupts(r.value.interrupts)) <==> 0 <= ts + 1)
  {
    ShiftedIsAccepted(session, x, ts);
    ShiftedTimes(x, ts);
    SwitchesAgreeWithNativeParser(session, Shifted(x, ts), 0.0);
    InterruptsAgreeWithNativeParser(session, Shifted(x, ts), 0.0);
  }
}
