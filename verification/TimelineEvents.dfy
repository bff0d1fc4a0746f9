/** The rows of an accepted timeline are the events of its records, one for one and in order. */
module TimelineEvents {
  import opened Outcomes
  import opened Scalars
  import opened ContextSwitches
  import opened NestedInterrupts
  import opened Timeline

  function SwitchEvents(records: seq<Record>): seq<Event> {
    if records == [] then []
    else
      var e := records[|records| - 1].event;
      SwitchEvents(records[..|records| - 1]) + if e.SwitchEvent? then [e] else []
  }

  function InterruptEvents(records: seq<Record>): seq<Event> {
    if records == [] then []
    else
      var e := records[|records| - 1].event;
      InterruptEvents(records[..|records| - 1]) + if e.InterruptEvent? then [e] else []
  }

  /** The row has the core, the contexts and the timestamp of the event. */
  predicate SwitchRow(e: Event, row: Switch) {
    && e.SwitchEvent? && RequiredNat(e.core) == Some(row.core) && RequiredString(e.next) == Some(row.next)
    && NullableString(e.prev) == Some(row.previous) && e.ts.Int? && row.ts == e.ts.n as real
  }

  /** The row has the direction, the core, the identities and the timestamp of the event. */
  predicate InterruptRow(e: Event, row: Interrupt) {
    && e.InterruptEvent? && row.entering == e.entering && RequiredNat(e.core) == Some(row.core)
    && RequiredString(e.interrupt) == Some(row.id) && RequiredString(e.activation) == Some(row.activation)
    && e.ts.Int? && row.ts == e.ts.n as real
  }

  predicate SwitchRows(events: seq<Event>, rows: seq<Switch>) {
    |events| == |rows| && forall i :: 0 <= i < |rows| ==> SwitchRow(events[i], rows[i])
  }

  predicate InterruptRows(events: seq<Event>, rows: seq<Interrupt>) {
    |events| == |rows| && forall i :: 0 <= i < |rows| ==> InterruptRow(events[i], rows[i])
  }

  lemma {:induction false} SwitchOfIsItsEvent(p: Progress, e: Event)
    requires e.SwitchEvent? && SwitchOf(p, e).Ok?
    ensures SwitchRow(e, SwitchOf(p, e).value)
  {
  }

  lemma {:induction false} InterruptOfIsItsEvent(p: Progress, e: Event)
    requires e.InterruptEvent? && InterruptOf(p, e).Ok?
    ensures InterruptRow(e, InterruptOf(p, e).value)
  {
  }

  lemma {:induction false} StepAddsItsEvent(p: Progress, e: Event)
    requires StepEvent(p, e).Ok?
    ensures var q := StepEvent(p, e).value;
            && (e.SwitchEvent? ==> SwitchOf(p, e).Ok? && q.switches == p.switches + [SwitchOf(p, e).value])
            && (!e.SwitchEvent? ==> q.switches == p.switches)
            && (e.InterruptEvent? ==> InterruptOf(p, e).Ok? && q.interrupts == p.interrupts + [InterruptOf(p, e).value])
            && (!e.InterruptEvent? ==> q.interrupts == p.interrupts)
  {
  }

  /** After every accepted prefix the switch and interrupt rows are the switch and interrupt events of
      the records. */
  lemma {:induction false} RowsAreEvents(session: string, records: seq<Record>)
    requires Run(session, records).Ok?
    ensures SwitchRows(SwitchEvents(records), Run(session, records).value.switches)
    ensures InterruptRows(InterruptEvents(records), Run(session, records).value.interrupts)
  {
    if records != [] {
      var init, r := records[..|records| - 1], records[|records| - 1];
      RowsAreEvents(session, init);
      var before := Run(session, init).value;
      var p := before.(contexts := DefineAll(before.contexts, r.entries).value);
      StepAddsItsEvent(p, r.event);
      if r.event.SwitchEvent? { SwitchOfIsItsEvent(p, r.event); }
      if r.event.InterruptEvent? { InterruptOfIsItsEvent(p, r.event); }
    }
  }

  // ---------------------------------------------------------------- timestamps

  predicate EarlySwitch(r: Record) {
    r.event.SwitchEvent? && r.event.ts.Int? && r.event.ts.n < 0
  }

  predicate EarlyInterrupt(r: Record) {
    r.event.InterruptEvent? && r.event.ts.Int? && r.event.ts.n < 0
  }

  lemma {:induction false} SwitchEventsAre(records: seq<Record>, e: Event)
    ensures e in SwitchEvents(records) <==> e.SwitchEvent? && exists r :: r in records && r.event == e
  {
    if records != [] {
      var init, last := records[..|records| - 1], records[|records| - 1];
      assert records == init + [last];
      SwitchEventsAre(init, e);
    }
  }

  lemma {:induction false} InterruptEventsAre(records: seq<Record>, e: Event)
    ensures e in InterruptEvents(records) <==> e.InterruptEvent? && exists r :: r in records && r.event == e
  {
    if records != [] {
      var init, last := records[..|records| - 1], records[|records| - 1];
      assert records == init + [last];
      InterruptEventsAre(init, e);
    }
  }

  /** No row is negative exactly when no record carries a negative time. */
  lemma {:induction false} SwitchTimesAreRecorded(session: string, records: seq<Record>)
    requires Run(session, records).Ok?
    ensures (forall row :: row in Run(session, records).value.switches ==> 0.0 <= row.ts) <==> forall r :: r in records ==> !EarlySwitch(r)
  {
    RowsAreEvents(session, records);
    var events, rows := SwitchEvents(records), Run(session, records).value.switches;
    forall r | r in records && EarlySwitch(r) ensures exists row :: row in rows && row.ts < 0.0 {
      SwitchEventsAre(records, r.event);
      var i :| 0 <= i < |events| && events[i] == r.event;
      assert SwitchRow(events[i], rows[i]) && rows[i] in rows;
    }
    forall row | row in rows && row.ts < 0.0 ensures exists r :: r in records && EarlySwitch(r) {
      var i :| 0 <= i < |rows| && rows[i] == row;
      assert SwitchRow(events[i], rows[i]) && events[i] in events;
      SwitchEventsAre(records, events[i]);
      var r :| r in records && r.event == events[i];
      assert EarlySwitch(r);
    }
  }

  lemma {:induction false} InterruptTimesAreRecorded(session: string, records: seq<Record>)
    requires Run(session, records).Ok?
    ensures (forall row :: row in Run(session, records).value.interrupts ==> 0.0 <= row.ts) <==> forall r :: r in records ==> !EarlyInterrupt(r)
  {
    RowsAreEvents(session, records);
    var events, rows := InterruptEvents(records), Run(session, records).value.interrupts;
    forall r | r in records && EarlyInterrupt(r) ensures exists row :: row in rows && row.ts < 0.0 {
      InterruptEventsAre(records, r.event);
      var i :| 0 <= i < |events| && events[i] == r.event;
      assert InterruptRow(events[i], rows[i]) && rows[i] in rows;
    }
    forall row | row in rows && row.ts < 0.0 ensures exists r :: r in records && EarlyInterrupt(r) {
      var i :| 0 <= i < |rows| && rows[i] == row;
      assert InterruptRow(events[i], rows[i]) && events[i] in events;
      InterruptEventsAre(records, events[i]);
      var r :| r in records && r.event == events[i];
      assert EarlyInterrupt(r);
    }
  }
}
