/**
 The comparison of native reference rows with the reconstructed timeline, and the agreement of the
 two implementations on every stream the extractor accepts.
 */
module NativeDifferential {
  import opened Outcomes
  import opened ContextSwitches
  import opened NestedInterrupts
  import opened NativeReference
  import opened Timeline
  import opened TimelineAgreement
  import opened TimelineEvents

  // ---------------------------------------------------------------- comparison

  function Abs(x: real): real {
    if x < 0.0 then -x else x
  }

  /** Within half a percent of the native time, or within one tick. */
  predicate TimeAgrees(native: real, observed: real, tick: real) {
    var relative := Abs(native) * 0.005;
    Abs(observed - native) <= if relative < tick then tick else relative
  }

  predicate SwitchAgrees(native: Switch, observed: Switch, tick: real) {
    TimeAgrees(native.ts, observed.ts, tick) && observed == native.(ts := observed.ts)
  }

  predicate InterruptAgrees(native: Interrupt, observed: Interrupt, tick: real) {
    TimeAgrees(native.ts, observed.ts, tick) && observed == native.(ts := observed.ts)
  }

  method CompareSwitches(native: seq<Switch>, actual: seq<Switch>, tick: real) returns (agree: bool)
    ensures agree <==> |native| == |actual| && forall i :: 0 <= i < |native| ==> SwitchAgrees(native[i], actual[i], tick)
  {
    if |native| != |actual| { return false; }
    for i := 0 to |native|
      invariant forall k :: 0 <= k < i ==> SwitchAgrees(native[k], actual[k], tick)
    {
      var expected, observed := native[i], actual[i];
      if !TimeAgrees(expected.ts, observed.ts, tick) { return false; }
      if || expected.core != observed.core || expected.previous != observed.previous || expected.next != observed.next
         || expected.nextName != observed.nextName || expected.nextKind != observed.nextKind
         || expected.nextPriority != observed.nextPriority
      {
        return false;
      }
    }
    return true;
  }

  method CompareInterrupts(native: seq<Interrupt>, actual: seq<Interrupt>, tick: real) returns (agree: bool)
    ensures agree <==> |native| == |actual| && forall i :: 0 <= i < |native| ==> InterruptAgrees(native[i], actual[i], tick)
  {
    if |native| != |actual| { return false; }
    for i := 0 to |native|
      invariant forall k :: 0 <= k < i ==> InterruptAgrees(native[k], actual[k], tick)
    {
      var expected, observed := native[i], actual[i];
      if !TimeAgrees(expected.ts, observed.ts, tick) { return false; }
      if || expected.entering != observed.entering || expected.core != observed.core || expected.id != observed.id
         || expected.name != observed.name || expected.priority != observed.priority
         || expected.activation != observed.activation || expected.depth != observed.depth
         || expected.parent != observed.parent || expected.preempted != observed.preempted
      {
        return false;
      }
    }
    return true;
  }

  // ---------------------------------------------------------------- writing a timeline as native rows

  function WriteSwitches(rows: seq<Switch>): seq<SwitchRow> {
    if rows == [] then [] else WriteSwitches(rows[..|rows| - 1]) + [WriteSwitch(rows[|rows| - 1])]
  }

  function WriteInterrupts(rows: seq<Interrupt>): seq<InterruptRow> {
    if rows == [] then [] else WriteInterrupts(rows[..|rows| - 1]) + [WriteInterrupt(rows[|rows| - 1])]
  }

  predicate SwitchTimesNonNegative(rows: seq<Switch>) {
    forall i :: 0 <= i < |rows| ==> 0.0 <= rows[i].ts
  }

  predicate InterruptTimesNonNegative(rows: seq<Interrupt>) {
    forall i :: 0 <= i < |rows| ==> 0.0 <= rows[i].ts
  }

  lemma {:induction false} SwitchesReadBack(rows: seq<Switch>)
    requires forall s :: s in rows ==> WritableSwitch(s)
    ensures |WriteSwitches(rows)| == |rows|
    ensures ReadSwitches(WriteSwitches(rows)) == if SwitchTimesNonNegative(rows) then Some(rows) else None
  {
    if rows != [] {
      var prefix, row := rows[..|rows| - 1], rows[|rows| - 1];
      assert rows == prefix + [row] && row in rows;
      SwitchesReadBack(prefix);
      SwitchRoundTrip(row);
      var written := WriteSwitches(rows);
      assert written[..|written| - 1] == WriteSwitches(prefix);
      assert SwitchTimesNonNegative(rows) <==> SwitchTimesNonNegative(prefix) && 0.0 <= row.ts;
    }
  }

  lemma {:induction false} InterruptsReadBack(rows: seq<Interrupt>)
    requires forall i :: i in rows ==> WritableInterrupt(i)
    ensures |WriteInterrupts(rows)| == |rows|
    ensures ReadInterrupts(WriteInterrupts(rows)) == if InterruptTimesNonNegative(rows) then Some(rows) else None
  {
    if rows != [] {
      var prefix, row := rows[..|rows| - 1], rows[|rows| - 1];
      assert rows == prefix + [row] && row in rows;
      InterruptsReadBack(prefix);
      InterruptRoundTrip(row);
      var written := WriteInterrupts(rows);
      assert written[..|written| - 1] == WriteInterrupts(prefix);
      assert InterruptTimesNonNegative(rows) <==> InterruptTimesNonNegative(prefix) && 0.0 <= row.ts;
    }
  }

  /** Of what a written timeline must satisfy, only the timestamps are left to decide. */
  lemma {:induction false} WrittenSwitches(rows: seq<Switch>)
    requires forall s :: s in rows ==> WritableSwitch(s)
    requires |rows| <= MAX_NATIVE_TIMELINE_EVENTS && Chained(rows) && Switches(rows, TASK) && Switches(rows, IDLE)
    ensures AcceptableSwitches(WriteSwitches(rows)) <==> SwitchTimesNonNegative(rows)
    ensures SwitchTimesNonNegative(rows) ==> ReadSwitches(WriteSwitches(rows)) == Some(rows)
  {
    SwitchesReadBack(rows);
  }

  lemma {:induction false} WrittenInterrupts(rows: seq<Interrupt>)
    requires forall i :: i in rows ==> WritableInterrupt(i)
    requires |rows| <= MAX_NATIVE_TIMELINE_EVENTS && BracketedOnEveryCore(rows) && HasNested(rows) && HasPreemptedTask(rows)
    ensures AcceptableInterrupts(WriteInterrupts(rows)) <==> InterruptTimesNonNegative(rows)
    ensures InterruptTimesNonNegative(rows) ==> ReadInterrupts(WriteInterrupts(rows)) == Some(rows)
  {
    InterruptsReadBack(rows);
  }

  lemma {:induction false} AcceptedSwitchesAreWritable(session: string, records: seq<Record>)
    requires Extract(session, records).Ok?
    ensures var rows := Extract(session, records).value.switches;
            && (forall s :: s in rows ==> WritableSwitch(s)) && |rows| <= MAX_NATIVE_TIMELINE_EVENTS
            && Chained(rows) && Switches(rows, TASK) && Switches(rows, IDLE)
  {
    RunKeepsInvariant(session, records);
    AcceptedTimelineIsWellFormed(session, records);
  }

  /** The two implementations agree: the switches of an accepted timeline, written as native rows, are
      accepted by the native parser exactly when no switch record carries a negative timestamp; they are
      then read back unchanged and compare as equal at every tick length. */
  lemma {:induction false} SwitchesAgreeWithNativeParser(session: string, records: seq<Record>, tick: real)
    requires Extract(session, records).Ok?
    ensures var rows := Extract(session, records).value.switches;
            && (AcceptableSwitches(WriteSwitches(rows)) <==> SwitchTimesNonNegative(rows))
            && (SwitchTimesNonNegative(rows) ==> ReadSwitches(WriteSwitches(rows)) == Some(rows))
            && forall i :: 0 <= i < |rows| ==> SwitchAgrees(rows[i], rows[i], tick)
    ensures SwitchTimesNonNegative(Extract(session, records).value.switches) <==> forall r :: r in records ==> !EarlySwitch(r)
  {
    AcceptedSwitchesAreWritable(session, records);
    WrittenSwitches(Extract(session, records).value.switches);
    SwitchTimesAreRecorded(session, records);
  }

  lemma {:induction false} AcceptedInterruptsAreWritable(session: string, records: seq<Record>)
    requires Extract(session, records).Ok?
    ensures var rows := Extract(session, records).value.interrupts;
            && (forall i :: i in rows ==> WritableInterrupt(i)) && |rows| <= MAX_NATIVE_TIMELINE_EVENTS
            && BracketedOnEveryCore(rows) && HasNested(rows) && HasPreemptedTask(rows)
  {
    RunKeepsInvariant(session, records);
    AcceptedTimelineIsWellFormed(session, records);
  }

  /** The same for interrupts, on the timestamps of the interrupt records. */
  lemma {:induction false} InterruptsAgreeWithNativeParser(session: string, records: seq<Record>, tick: real)
    requires Extract(session, records).Ok?
    ensures var rows := Extract(session, records).value.interrupts;
            && (AcceptableInterrupts(WriteInterrupts(rows)) <==> InterruptTimesNonNegative(rows))
            && (InterruptTimesNonNegative(rows) ==> ReadInterrupts(WriteInterrupts(rows)) == Some(rows))
            && forall i :: 0 <= i < |rows| ==> InterruptAgrees(rows[i], rows[i], tick)
    ensures InterruptTimesNonNegative(Extract(session, records).value.interrupts) <==> forall r :: r in records ==> !EarlyInterrupt(r)
  {
    AcceptedInterruptsAreWritable(session, records);
    WrittenInterrupts(Extract(session, records).value.interrupts);
    InterruptTimesAreRecorded(session, records);
  }
}
