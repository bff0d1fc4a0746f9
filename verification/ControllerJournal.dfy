/** The append-only driver journal: one immutable event per transaction and kind, and its projection. */
module ControllerJournal {
  import opened Outcomes
  import opened SessionCatalog
  import opened DriverEvents

  const MAX_EVENT_BYTES := 65536

  /** The document format of events, the hash, and the syntax checks. */
  datatype Env = Env(digest: string -> string, encode: Event -> string, decode: string -> Option<Event>, syntax: Syntax)

  /** Documents read back. */
  ghost predicate Lawful(env: Env) {
    forall e :: env.decode(env.encode(e)) == Some(e) && env.encode(e) != ""
  }

  // ---------------------------------------------------------------- recording

  datatype Fault = Invalid | BadEnvelope | Unreadable | Conflict | TooLarge | MissingIntent

  function InputsOf(e: Event): seq<Id> {
    [e.request] + (if e.abort.artifact.Some? then [e.abort.artifact.value] else [])
    + if e.workload.deployment.Some? then [e.workload.deployment.value] else []
  }

  function ArtifactFor(e: Event, transaction: string, env: Env): Artifact {
    Artifact(EventId(transaction, e.kind), DriverEventForm(EventPath(transaction, e.kind)), InputsOf(e), env.encode(e), env.digest(env.encode(e)))
  }

  /** The artifact carries the event's identity and inputs, and its size is in bounds. */
  predicate EnvelopeFits(a: Artifact, e: Event) {
    && a.id == EventId(e.binding.transaction, e.kind) && a.form == DriverEventForm(EventPath(e.binding.transaction, e.kind))
    && a.inputs == InputsOf(e) && 0 < |a.content| <= MAX_EVENT_BYTES
  }

  function ReadEvent(a: Artifact, env: Env): Option<Event> {
    if |a.content| <= MAX_EVENT_BYTES then env.decode(a.content) else None
  }

  /** The one event stored under the id is this event. */
  predicate HoldsExactly(a: Artifact, r: Request, plan: Option<Plan>, e: Event, env: Env) {
    EnvelopeFits(a, e) && ReadEvent(a, env) == Some(e) && Valid(e, r, plan, env.syntax)
  }

  class JournalStore {
    var catalog: Catalog
    const env: Env

    constructor (catalog: Catalog, env: Env)
      ensures this.catalog == catalog && this.env == env
    {
      this.catalog, this.env := catalog, env;
    }

    method EventExistsExact(r: Request, plan: Option<Plan>, e: Event) returns (present: Result<bool, Fault>)
      ensures var id := EventId(r.binding.transaction, e.kind);
              && (present == Ok(false) <==> Valid(e, r, plan, env.syntax) && !Contains(catalog, id))
              && (present == Ok(true) <==> Contains(catalog, id) && HoldsExactly(Find(catalog, id).value, r, plan, e, env))
    {
      if !Valid(e, r, plan, env.syntax) { return Raised(Invalid); }
      var found := Find(catalog, EventId(r.binding.transaction, e.kind));
      if found.None? { return Ok(false); }
      if !EnvelopeFits(found.value, e) { return Raised(BadEnvelope); }
      var actual := ReadEvent(found.value, env);
      if actual.None? { return Raised(Unreadable); }
      if !Valid(actual.value, r, plan, env.syntax) { return Raised(Invalid); }
      if actual.value != e { return Raised(Conflict); }
      return Ok(true);
    }

    /** Appends the event, or finds exactly it; anything else leaves the catalog alone. */
    method Record(r: Request, plan: Option<Plan>, e: Event) returns (result: Result<(), Fault>)
      modifies this
      ensures (catalog, result.Ok?) == RecordStep(old(catalog), r, plan, e, env)
      ensures var id := EventId(r.binding.transaction, e.kind);
              && (result.Raised? ==> catalog == old(catalog))
              && (result.Ok? && Lawful(env) ==> Contains(catalog, id) && HoldsExactly(Find(catalog, id).value, r, plan, e, env))
              && (catalog != old(catalog) ==> !Contains(old(catalog), id) && |catalog| == |old(catalog)| + 1 && old(catalog) <= catalog)
    {
      RecordedHoldsExactly(catalog, r, plan, e, env);
      var present := EventExistsExact(r, plan, e);
      if present.Raised? { return Raised(present.fault); }
      if present.value { return Ok(()); }
      var bytes := env.encode(e);
      if MAX_EVENT_BYTES < |bytes| { return Raised(TooLarge); }
      catalog := catalog + [ArtifactFor(e, r.binding.transaction, env)];
      return Ok(());
    }

    /** Which kinds are recorded for the request's transaction. */
    method Project(r: Request, plan: Option<Plan>) returns (result: Result<Projection, Fault>)
      ensures result.Ok? <==> EveryEventReads(catalog, r, plan, env) && IntentsPrecede(catalog, r.binding.transaction)
      ensures result.Ok? ==> forall k :: Recorded(result.value, k) <==> Contains(catalog, EventId(r.binding.transaction, k))
    {
      var p, t := Projection(false, false, false, false, false, false, false), r.binding.transaction;
      for i := 0 to |KINDS|
        invariant forall j :: 0 <= j < i ==> EventReads(catalog, r, plan, KINDS[j], env)
        invariant forall j :: 0 <= j < |KINDS| ==> (Recorded(p, KINDS[j]) <==> j < i && Contains(catalog, EventId(t, KINDS[j])))
      {
        var k := KINDS[i];
        var found := Find(catalog, EventId(t, k));
        if found.Some? {
          assert EventReads(catalog, r, plan, k, env) <==>
            && ReadEvent(found.value, env).Some? && EnvelopeFits(found.value, ReadEvent(found.value, env).value)
            && Valid(ReadEvent(found.value, env).value, r, plan, env.syntax);
          var actual := ReadEvent(found.value, env);
          if actual.None? { return Raised(Unreadable); }
          if !EnvelopeFits(found.value, actual.value) { return Raised(BadEnvelope); }
          if !Valid(actual.value, r, plan, env.syntax) { return Raised(Invalid); }
          p := Mark(p, k);
          MarkRecords(i);
        }
      }
      KindsCoverAll(p, catalog, r, plan, env);
      if p.abortSuccessObserved && !p.abortAttempted { return Raised(MissingIntent); }
      if p.faultTriggered && !p.faultIntent { return Raised(MissingIntent); }
      if p.workloadComplete && !p.workloadIntent { return Raised(MissingIntent); }
      return Ok(p);
    }
  }

  function RecordStep(c: Catalog, r: Request, plan: Option<Plan>, e: Event, env: Env): (Catalog, bool) {
    var id := EventId(r.binding.transaction, e.kind);
    if !Valid(e, r, plan, env.syntax) then (c, false)
    else if Contains(c, id) then (c, HoldsExactly(Find(c, id).value, r, plan, e, env))
    else if MAX_EVENT_BYTES < |env.encode(e)| then (c, false)
    else (c + [ArtifactFor(e, r.binding.transaction, env)], true)
  }

  lemma {:induction false} RecordedHoldsExactly(c: Catalog, r: Request, plan: Option<Plan>, e: Event, env: Env)
    ensures var next, id := RecordStep(c, r, plan, e, env).0, EventId(r.binding.transaction, e.kind);
            && (Lawful(env) && RecordStep(c, r, plan, e, env).1 ==>
                  Contains(next, id) && HoldsExactly(Find(next, id).value, r, plan, e, env))
  {
    FindAfterAppend(c, [ArtifactFor(e, r.binding.transaction, env)], EventId(r.binding.transaction, e.kind));
  }

  // ---------------------------------------------------------------- projection

  datatype Projection = Projection(
    dispatchIntent: bool, faultIntent: bool, faultTriggered: bool, abortAttempted: bool, abortSuccessObserved: bool,
    workloadIntent: bool, workloadComplete: bool)

  const KINDS: seq<EventKind> :=
    [DispatchIntent, FaultIntent, FaultTriggered, AbortAttempt, AbortSuccessObserved, WorkloadIntent, WorkloadComplete]

  function Recorded(p: Projection, k: EventKind): bool {
    match k
    case DispatchIntent => p.dispatchIntent
    case FaultIntent => p.faultIntent
    case FaultTriggered => p.faultTriggered
    case AbortAttempt => p.abortAttempted
    case AbortSuccessObserved => p.abortSuccessObserved
    case WorkloadIntent => p.workloadIntent
    case WorkloadComplete => p.workloadComplete
  }

  function Mark(p: Projection, k: EventKind): (marked: Projection)
    ensures forall other :: Recorded(marked, other) <==> Recorded(p, other) || other == k
  {
    match k
    case DispatchIntent => p.(dispatchIntent := true)
    case FaultIntent => p.(faultIntent := true)
    case FaultTriggered => p.(faultTriggered := true)
    case AbortAttempt => p.(abortAttempted := true)
    case AbortSuccessObserved => p.(abortSuccessObserved := true)
    case WorkloadIntent => p.(workloadIntent := true)
    case WorkloadComplete => p.(workloadComplete := true)
  }

  lemma {:induction false} MarkRecords(i: nat)
    requires i < |KINDS|
    ensures forall j :: 0 <= j < |KINDS| && j != i ==> KINDS[j] != KINDS[i]
  {
  }

  /** What holds of each listed kind holds of every kind. */
  lemma {:induction false} KindsCoverAll(p: Projection, c: Catalog, r: Request, plan: Option<Plan>, env: Env)
    requires forall j :: 0 <= j < |KINDS| ==> EventReads(c, r, plan, KINDS[j], env)
    requires forall j :: 0 <= j < |KINDS| ==> (Recorded(p, KINDS[j]) <==> Contains(c, EventId(r.binding.transaction, KINDS[j])))
    ensures EveryEventReads(c, r, plan, env)
    ensures forall k :: Recorded(p, k) <==> Contains(c, EventId(r.binding.transaction, k))
    ensures IntentsPrecede(c, r.binding.transaction) <==>
              (p.abortSuccessObserved ==> p.abortAttempted) && (p.faultTriggered ==> p.faultIntent)
              && (p.workloadComplete ==> p.workloadIntent)
  {
    forall k: EventKind ensures EventReads(c, r, plan, k, env) && (Recorded(p, k) <==> Contains(c, EventId(r.binding.transaction, k))) {
      match k
      case DispatchIntent => assert KINDS[0] == k;
      case FaultIntent => assert KINDS[1] == k;
      case FaultTriggered => assert KINDS[2] == k;
      case AbortAttempt => assert KINDS[3] == k;
      case AbortSuccessObserved => assert KINDS[4] == k;
      case WorkloadIntent => assert KINDS[5] == k;
      case WorkloadComplete => assert KINDS[6] == k;
    }
    assert (Recorded(p, AbortAttempt) <==> p.abortAttempted) && (Recorded(p, FaultIntent) <==> p.faultIntent)
        && (Recorded(p, WorkloadIntent) <==> p.workloadIntent) && (Recorded(p, AbortSuccessObserved) <==> p.abortSuccessObserved)
        && (Recorded(p, FaultTriggered) <==> p.faultTriggered) && (Recorded(p, WorkloadComplete) <==> p.workloadComplete);
  }

  /** An event that is present can be read, has its own envelope and is valid for the request and plan. */
  predicate EventReads(c: Catalog, r: Request, plan: Option<Plan>, k: EventKind, env: Env) {
    var found := Find(c, EventId(r.binding.transaction, k));
    found.Some? ==>
      && ReadEvent(found.value, env).Some?
      && EnvelopeFits(found.value, ReadEvent(found.value, env).value)
      && Valid(ReadEvent(found.value, env).value, r, plan, env.syntax)
  }

  ghost predicate EveryEventReads(c: Catalog, r: Request, plan: Option<Plan>, env: Env) {
    forall k :: EventReads(c, r, plan, k, env)
  }

  predicate IntentsPrecede(c: Catalog, t: string) {
    && (Contains(c, EventId(t, AbortSuccessObserved)) ==> Contains(c, EventId(t, AbortAttempt)))
    && (Contains(c, EventId(t, FaultTriggered)) ==> Contains(c, EventId(t, FaultIntent)))
    && (Contains(c, EventId(t, WorkloadComplete)) ==> Contains(c, EventId(t, WorkloadIntent)))
  }

  // ---------------------------------------------------------------- whole runs

  /** Each call is given the abort plan found at that moment. Anything else that is published has an
      id outside the journal. */
  datatype Op = RecordEvent(request: Request, plan: Option<Plan>, event: Event) | Publish(artifact: Artifact)

  predicate Reserved(id: Id) {
    id.Controller? && ID_PREFIX <= id.suffix
  }

  function PublishStep(c: Catalog, a: Artifact): Catalog {
    if Contains(c, a.id) || Reserved(a.id) then c else c + [a]
  }

  function Step(c: Catalog, op: Op, env: Env): Catalog {
    match op
    case RecordEvent(r, plan, e) => RecordStep(c, r, plan, e, env).0
    case Publish(a) => PublishStep(c, a)
  }

  function Run(c: Catalog, ops: seq<Op>, env: Env): Catalog {
    if ops == [] then c else Step(Run(c, ops[..|ops| - 1], env), ops[|ops| - 1], env)
  }

  lemma {:induction false} StepAppends(c: Catalog, op: Op, env: Env)
    ensures var next := Step(c, op, env);
            && c <= next && |next| <= |c| + 1
            && (UniqueIds(c) ==> UniqueIds(next))
            && forall id :: Contains(c, id) ==> Contains(next, id) && Find(next, id) == Find(c, id)
  {
    var next := Step(c, op, env);
    if next != c {
      var a := next[|c|];
      assert next == c + [a];
      forall id ensures Contains(c, id) ==> Contains(next, id) && Find(next, id) == Find(c, id) {
        FindAfterAppend(c, [a], id);
      }
      FindFinds(c, a.id);
      assert forall i :: 0 <= i < |c| ==> c[i].id != a.id;
    }
  }

  /** Nothing that was recorded is ever changed or recorded twice. */
  lemma {:induction false} EventsAreImmutable(c: Catalog, ops: seq<Op>, env: Env)
    ensures var reached := Run(c, ops, env);
            && c <= reached
            && (UniqueIds(c) ==> UniqueIds(reached))
            && forall id :: Contains(c, id) ==> Contains(reached, id) && Find(reached, id) == Find(c, id)
  {
    if ops != [] {
      var init := ops[..|ops| - 1];
      EventsAreImmutable(c, init, env);
      StepAppends(Run(c, init, env), ops[|ops| - 1], env);
    }
  }

  /** After a record succeeded, the same record made with the plan of a later moment succeeds again
      without a trace, as long as the event is valid for that plan, and any other event for the same
      transaction and kind fails without one, however many operations lie between. */
  lemma {:induction false} RetryAndConflict(
      c: Catalog, r: Request, plan: Option<Plan>, e: Event, between: seq<Op>, laterPlan: Option<Plan>, other: Op, env: Env)
    requires Lawful(env) && RecordStep(c, r, plan, e, env).1
    requires other.RecordEvent? && other.request.binding.transaction == r.binding.transaction
    requires other.event.kind == e.kind && other.event != e
    ensures var later := Run(RecordStep(c, r, plan, e, env).0, between, env);
            && RecordStep(later, r, laterPlan, e, env) == (later, Valid(e, r, laterPlan, env.syntax))
            && (plan.None? || laterPlan == plan ==> Valid(e, r, laterPlan, env.syntax))
            && RecordStep(later, other.request, other.plan, other.event, env) == (later, false)
  {
    RecordedHoldsExactly(c, r, plan, e, env);
    EventsAreImmutable(RecordStep(c, r, plan, e, env).0, between, env);
    ValidWhenPlanAppears(e, r, laterPlan, env.syntax);
  }

  /** A call that can record its event at all. */
  predicate Recordable(op: Op, env: Env)
    requires op.RecordEvent?
  {
    Valid(op.event, op.request, op.plan, env.syntax) && |env.encode(op.event)| <= MAX_EVENT_BYTES
  }

  ghost predicate NoEvents(c: Catalog, t: string) {
    forall k :: !Contains(c, EventId(t, k))
  }

  /** One request per transaction, and at most one plan: calls made before it was published have none. */
  ghost predicate OneRequest(ops: seq<Op>, r: Request, p: Plan) {
    forall op :: op in ops ==> SameRequest(op, r, p)
  }

  predicate SameRequest(op: Op, r: Request, p: Plan) {
    op.RecordEvent? && op.request.binding.transaction == r.binding.transaction ==>
      op.request == r && (op.plan == None || op.plan == Some(p))
  }

  predicate Asks(op: Op, t: string, k: EventKind, env: Env) {
    op.RecordEvent? && op.request.binding.transaction == t && op.event.kind == k && Recordable(op, env)
  }

  predicate Asked(ops: seq<Op>, t: string, k: EventKind, env: Env) {
    exists op :: op in ops && Asks(op, t, k, env)
  }

  lemma {:induction false} StepRecords(c: Catalog, op: Op, r: Request, p: Plan, k: EventKind, env: Env)
    requires Lawful(env) && EventReads(c, r, Some(p), k, env) && SameRequest(op, r, p)
    ensures var next, t := Step(c, op, env), r.binding.transaction;
            && (Contains(next, EventId(t, k)) <==> Contains(c, EventId(t, k)) || Asks(op, t, k, env))
            && EventReads(next, r, Some(p), k, env)
  {
    var next, id := Step(c, op, env), EventId(r.binding.transaction, k);
    if next != c {
      var a := next[|c|];
      assert next == c + [a];
      FindAfterOne(c, a, id);
      if op.RecordEvent? {
        if a.id == id { EventIdIsInjective(op.request.binding.transaction, op.event.kind, r.binding.transaction, k); }
        ValidWhenPlanAppears(op.event, op.request, Some(p), env.syntax);
      }
    }
  }

  /** After any run from a journal without events of a transaction, in which its abort plan may appear
      at any moment, the recorded kinds are exactly those some call could record, and every one of them
      reads back with the plan. */
  lemma {:induction false} RunRecordsWhatWasAsked(c: Catalog, ops: seq<Op>, r: Request, p: Plan, k: EventKind, env: Env)
    requires Lawful(env) && NoEvents(c, r.binding.transaction) && OneRequest(ops, r, p)
    ensures var reached, t := Run(c, ops, env), r.binding.transaction;
            && (Contains(reached, EventId(t, k)) <==> Asked(ops, t, k, env))
            && EventReads(reached, r, Some(p), k, env)
  {
    if ops != [] {
      var init, last := ops[..|ops| - 1], ops[|ops| - 1];
      assert ops == init + [last];
      RunRecordsWhatWasAsked(c, init, r, p, k, env);
      StepRecords(Run(c, init, env), last, r, p, k, env);
      AskedNext(init, last, r.binding.transaction, k, env);
    }
  }

  lemma {:induction false} AskedNext(ops: seq<Op>, op: Op, t: string, k: EventKind, env: Env)
    ensures Asked(ops + [op], t, k, env) <==> Asked(ops, t, k, env) || Asks(op, t, k, env)
  {
    var all := ops + [op];
    assert op in all && forall x :: x in all <==> x in ops || x == op;
  }

  /** Projecting after the run: with the plan it succeeds exactly when every completion asked for has its
      intent; without it, exactly when in addition no kind that needs the plan was asked for. */
  lemma {:induction false} ProjectionReportsTheRun(c: Catalog, ops: seq<Op>, r: Request, p: Plan, env: Env)
    requires Lawful(env) && NoEvents(c, r.binding.transaction) && OneRequest(ops, r, p)
    ensures var reached, t := Run(c, ops, env), r.binding.transaction;
            && EveryEventReads(reached, r, Some(p), env)
            && (EveryEventReads(reached, r, None, env) <==> forall k :: NeedsPlan(k) ==> !Asked(ops, t, k, env))
            && (forall k :: Contains(reached, EventId(t, k)) <==> Asked(ops, t, k, env))
            && (IntentsPrecede(reached, t) <==>
                  && (Asked(ops, t, AbortSuccessObserved, env) ==> Asked(ops, t, AbortAttempt, env))
                  && (Asked(ops, t, FaultTriggered, env) ==> Asked(ops, t, FaultIntent, env))
                  && (Asked(ops, t, WorkloadComplete, env) ==> Asked(ops, t, WorkloadIntent, env)))
  {
    var reached, t := Run(c, ops, env), r.binding.transaction;
    forall k
      ensures EventReads(reached, r, Some(p), k, env) && (Contains(reached, EventId(t, k)) <==> Asked(ops, t, k, env))
      ensures EventReads(reached, r, None, k, env) <==> (NeedsPlan(k) ==> !Asked(ops, t, k, env))
    {
      RunRecordsWhatWasAsked(c, ops, r, p, k, env);
      ReadsWithoutPlan(reached, r, p, k, env);
    }
  }

  /** What reads back with the plan reads back without it unless its kind needs the plan. */
  lemma {:induction false} ReadsWithoutPlan(c: Catalog, r: Request, p: Plan, k: EventKind, env: Env)
    requires EventReads(c, r, Some(p), k, env)
    ensures EventReads(c, r, None, k, env) <==> (NeedsPlan(k) ==> !Contains(c, EventId(r.binding.transaction, k)))
  {
    var found := Find(c, EventId(r.binding.transaction, k));
    if found.Some? {
      var e := ReadEvent(found.value, env).value;
      FindFinds(c, EventId(r.binding.transaction, k));
      EventIdIsInjective(e.binding.transaction, e.kind, r.binding.transaction, k);
      ValidWhenPlanAppears(e, r, Some(p), env.syntax);
    }
  }
}
