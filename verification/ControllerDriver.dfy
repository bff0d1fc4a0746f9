/** The driver's calls on the journal: transaction events, workload events and abort plans, over whole runs. */
module ControllerDriver {
  import opened Outcomes
  import opened SessionCatalog
  import opened DriverEvents
  import opened ControllerJournal

  const MAX_REQUEST_BYTES := 65536
  const REQUEST_PATH := "logs/controller/requests/"
  const ABORT_PATH := "logs/controller/aborts/"

  function RequestPath(t: string): string { REQUEST_PATH + t + ".json" }

  function AbortPath(t: string): string { ABORT_PATH + t + ".json" }

  datatype RequestDocument = RequestDocument(binding: Binding, operation: Operation, faultAction: Option<string>)

  datatype Formats = Formats(
    journal: Env, decodeRequest: string -> Option<RequestDocument>,
    encodePlan: PlanDocument -> string, decodePlan: string -> Option<PlanDocument>)

  ghost predicate Sane(f: Formats) {
    Lawful(f.journal) && forall d :: f.decodePlan(f.encodePlan(d)) == Some(d)
  }

  // ---------------------------------------------------------------- reading the request and the plan

  function RequestOf(c: Catalog, t: string, f: Formats): Option<Request> {
    match Find(c, RequestId(t))
    case None => None
    case Some(a) =>
      if a.form != RequestForm(RequestPath(t)) || MAX_REQUEST_BYTES < |a.content| then None
      else
        match f.decodeRequest(a.content)
        case None => None
        case Some(d) => if d.binding.transaction != t then None else Some(Request(d.binding, d.operation, d.faultAction, a.id, a.sha256))
  }

  datatype DriverFault =
    | NoRequest | BadPlan | NoPlan | Journal(fault: ControllerJournal.Fault) | Closed | NotYet | WrongKind | PlanTooLarge | OtherReason

  function PlanOf(c: Catalog, r: Request, f: Formats): Result<Option<Plan>, DriverFault> {
    match Find(c, AbortId(r.binding.transaction))
    case None => Ok(None)
    case Some(a) =>
      if !a.form.AbortPlanForm? || MAX_REQUEST_BYTES < |a.content| then Raised(BadPlan)
      else
        match f.decodePlan(a.content)
        case None => Raised(BadPlan)
        case Some(d) => if BoundTo(d, r) then Ok(Some(Plan(d, a.id, a.sha256))) else Raised(BadPlan)
  }

  /** The event of a kind that the request and the plan determine. */
  function EventFor(r: Request, plan: Option<Plan>, k: EventKind): Option<Event> {
    if !NeedsPlan(k) then Some(Event(k, r.binding, r.artifact, r.sha256, r.operation, r.faultAction, NO_ABORT, NO_WORKLOAD))
    else
      match plan
      case None => None
      case Some(p) => Some(Event(k, r.binding, r.artifact, r.sha256, r.operation, r.faultAction,
                                 AbortClaim(Some(p.document.reason), Some(p.artifact), Some(p.sha256)), NO_WORKLOAD))
  }

  function WorkloadEvent(r: Request, k: EventKind, w: WorkloadClaim): Event {
    Event(k, r.binding, r.artifact, r.sha256, r.operation, r.faultAction, NO_ABORT, w)
  }

  // ---------------------------------------------------------------- the calls

  /** Who may still act: `blocked` when the Session or the evidence around the request is refused,
      `closed` when the transaction or the capture phase is over or owned by someone else. */
  datatype World = World(blocked: bool, closed: bool)

  /** What must already be recorded, or requested, before a new transaction event. */
  predicate TransactionReady(c: Catalog, r: Request, plan: Option<Plan>, k: EventKind) {
    match k
    case DispatchIntent => true
    case FaultIntent => r.faultAction.Some?
    case FaultTriggered => r.faultAction.Some? && plan.Some? && Contains(c, EventId(r.binding.transaction, FaultIntent))
    case AbortAttempt => plan.Some?
    case AbortSuccessObserved => Contains(c, EventId(r.binding.transaction, AbortAttempt))
    case WorkloadIntent => false
    case WorkloadComplete => false
  }

  predicate WorkloadReady(c: Catalog, r: Request, k: EventKind) {
    k == WorkloadIntent || (k == WorkloadComplete && Contains(c, EventId(r.binding.transaction, WorkloadIntent)))
  }

  ghost predicate Projects(c: Catalog, r: Request, plan: Option<Plan>, f: Formats) {
    EveryEventReads(c, r, plan, f.journal) && IntentsPrecede(c, r.binding.transaction)
  }

  /** An event that is there already is only compared; a new one needs an open world, a journal that
      projects, and its predecessors. */
  ghost function NewOrSame(c: Catalog, r: Request, plan: Option<Plan>, e: Event, closed: bool, ready: bool, f: Formats): (Catalog, bool) {
    if !Contains(c, EventId(r.binding.transaction, e.kind)) && (closed || !Projects(c, r, plan, f) || !ready) then (c, false)
    else RecordStep(c, r, plan, e, f.journal)
  }

  ghost function TransactionStep(c: Catalog, t: string, k: EventKind, w: World, f: Formats): (Catalog, bool) {
    var r := RequestOf(c, t, f);
    if r.None? || w.blocked || PlanOf(c, r.value, f).Raised? then (c, false)
    else
      var plan := PlanOf(c, r.value, f).value;
      var e := EventFor(r.value, plan, k);
      if e.None? then (c, false)
      else NewOrSame(c, r.value, plan, e.value, w.closed, TransactionReady(c, r.value, plan, k), f)
  }

  ghost function WorkloadStep(c: Catalog, t: string, k: EventKind, claim: WorkloadClaim, w: World, f: Formats): (Catalog, bool) {
    var r := RequestOf(c, t, f);
    if r.None? || w.blocked || r.value.operation != Start then (c, false)
    else NewOrSame(c, r.value, None, WorkloadEvent(r.value, k, claim), w.closed, WorkloadReady(c, r.value, k), f)
  }

  function PlanArtifact(r: Request, reason: string, f: Formats): Artifact {
    var content := f.encodePlan(PlanDocument(r.binding, r.artifact, r.sha256, true, reason));
    Artifact(AbortId(r.binding.transaction), AbortPlanForm(AbortPath(r.binding.transaction)), [r.artifact], content, f.journal.digest(content))
  }

  function AbortStep(c: Catalog, t: string, reason: string, w: World, f: Formats): (Catalog, bool) {
    var r := RequestOf(c, t, f);
    if r.None? || w.blocked then (c, false)
    else
      match Find(c, AbortId(t))
      case Some(a) =>
        (c, |a.content| <= MAX_REQUEST_BYTES && f.decodePlan(a.content).Some?
            && BoundTo(f.decodePlan(a.content).value, r.value) && f.decodePlan(a.content).value.reason == reason)
      case None =>
        var a := PlanArtifact(r.value, reason, f);
        if w.closed || MAX_REQUEST_BYTES < |a.content| then (c, false) else (c + [a], true)
  }

  // ---------------------------------------------------------------- what every reachable journal keeps

  datatype Call =
    | Transaction(transaction: string, kind: EventKind, world: World)
    | Workload(transaction: string, kind: EventKind, claim: WorkloadClaim, world: World)
    | Abort(transaction: string, reason: string, world: World)
    | PublishOther(artifact: Artifact)

  ghost function CallStep(c: Catalog, call: Call, f: Formats): Catalog {
    match call
    case Transaction(t, k, w) => TransactionStep(c, t, k, w, f).0
    case Workload(t, k, claim, w) => WorkloadStep(c, t, k, claim, w, f).0
    case Abort(t, reason, w) => AbortStep(c, t, reason, w, f).0
    case PublishOther(a) => PublishStep(c, a)
  }

  ghost function Calls(c: Catalog, calls: seq<Call>, f: Formats): Catalog {
    if calls == [] then c else CallStep(Calls(c, calls[..|calls| - 1], f), calls[|calls| - 1], f)
  }

  /** The plan that a projection can use: none while there is none, or while it cannot be read. */
  function PlanSeen(c: Catalog, r: Request, f: Formats): Option<Plan> {
    if PlanOf(c, r, f).Ok? then PlanOf(c, r, f).value else None
  }

  /** Every recorded event of the transaction belongs to its request and plan, and none is there
      without its intent; without a request there is no event. */
  ghost predicate Sound(c: Catalog, t: string, f: Formats) {
    match RequestOf(c, t, f)
    case None => NoEvents(c, t)
    case Some(r) => Projects(c, r, PlanSeen(c, r, f), f)
  }

  /** How a call changes the catalog: not at all, or by one artifact whose id was absent. */
  lemma {:induction false} CallAppends(c: Catalog, call: Call, f: Formats)
    ensures var next := CallStep(c, call, f);
            next == c || exists a :: next == c + [a] && !Contains(c, a.id) && Appended(c, call, a, f)
  {
    var next := CallStep(c, call, f);
    match call
    case Transaction(t, k, w) =>
      if next != c {
        var r := RequestOf(c, t, f).value;
        var a := ArtifactFor(EventFor(r, PlanOf(c, r, f).value, k).value, t, f.journal);
        assert next == c + [a] && Appended(c, call, a, f);
      }
    case Workload(t, k, claim, w) =>
      if next != c {
        var r := RequestOf(c, t, f).value;
        var a := ArtifactFor(WorkloadEvent(r, k, claim), t, f.journal);
        assert next == c + [a] && Appended(c, call, a, f);
      }
    case Abort(t, reason, w) =>
      if next != c {
        var a := PlanArtifact(RequestOf(c, t, f).value, reason, f);
        assert next == c + [a] && Appended(c, call, a, f);
      }
    case PublishOther(a) =>
      if next != c { assert next == c + [a] && Appended(c, call, a, f); }
  }

  /** What kind of artifact a call can append. */
  ghost predicate Appended(c: Catalog, call: Call, a: Artifact, f: Formats) {
    match call
    case Transaction(t, k, w) =>
      && RequestOf(c, t, f).Some?
      && var r := RequestOf(c, t, f).value;
         && PlanOf(c, r, f).Ok? && TransactionReady(c, r, PlanOf(c, r, f).value, k)
         && EventFor(r, PlanOf(c, r, f).value, k).Some?
         && var e := EventFor(r, PlanOf(c, r, f).value, k).value;
            Admits(c, r, PlanOf(c, r, f).value, e, f) && a == ArtifactFor(e, t, f.journal)
    case Workload(t, k, claim, w) =>
      && RequestOf(c, t, f).Some?
      && var r := RequestOf(c, t, f).value;
         && WorkloadReady(c, r, k)
         && Admits(c, r, None, WorkloadEvent(r, k, claim), f) && a == ArtifactFor(WorkloadEvent(r, k, claim), t, f.journal)
    case Abort(t, reason, w) => a.id == AbortId(t)
    case PublishOther(other) => a == other && !Reserved(a.id)
  }

  ghost predicate Admits(c: Catalog, r: Request, plan: Option<Plan>, e: Event, f: Formats) {
    && Valid(e, r, plan, f.journal.syntax) && |f.journal.encode(e)| <= MAX_EVENT_BYTES && Projects(c, r, plan, f)
  }

  lemma {:induction false} RequestStays(c: Catalog, a: Artifact, t: string, f: Formats)
    requires !Contains(c, a.id)
    ensures var next := c + [a];
            && (RequestOf(c, t, f).Some? ==> RequestOf(next, t, f) == RequestOf(c, t, f))
            && (a.id != RequestId(t) ==> RequestOf(next, t, f) == RequestOf(c, t, f))
  {
    FindAfterOne(c, a, RequestId(t));
  }

  lemma {:induction false} PlanStays(c: Catalog, a: Artifact, r: Request, f: Formats)
    requires !Contains(c, a.id)
    ensures var next := c + [a];
            && (PlanOf(c, r, f) != Ok(None) ==> PlanOf(next, r, f) == PlanOf(c, r, f))
            && (a.id != AbortId(r.binding.transaction) ==> PlanOf(next, r, f) == PlanOf(c, r, f))
  {
    FindAfterOne(c, a, AbortId(r.binding.transaction));
  }

  /** An artifact that is no event of the transaction leaves its events as they are. */
  lemma {:induction false} EventsStay(c: Catalog, a: Artifact, t: string)
    requires !Contains(c, a.id) && forall k :: a.id != EventId(t, k)
    ensures forall k :: Find(c + [a], EventId(t, k)) == Find(c, EventId(t, k))
  {
    forall k ensures Find(c + [a], EventId(t, k)) == Find(c, EventId(t, k)) {
      FindAfterOne(c, a, EventId(t, k));
    }
  }

  lemma {:induction false} ReadsWithLaterPlan(c: Catalog, next: Catalog, r: Request, plan: Option<Plan>, later: Option<Plan>, f: Formats)
    requires forall k :: Find(next, EventId(r.binding.transaction, k)) == Find(c, EventId(r.binding.transaction, k))
    requires Projects(c, r, plan, f) && (plan.None? || later == plan)
    ensures Projects(next, r, later, f)
  {
    var t := r.binding.transaction;
    forall k ensures EventReads(next, r, later, k, f.journal) {
      assert EventReads(c, r, plan, k, f.journal);
      var found := Find(c, EventId(t, k));
      if found.Some? { ValidWhenPlanAppears(ReadEvent(found.value, f.journal).value, r, later, f.journal.syntax); }
    }
  }

  /** Appending something else than an event of the transaction. */
  lemma {:induction false} OtherKeepsSound(c: Catalog, a: Artifact, t: string, f: Formats)
    requires Sound(c, t, f) && !Contains(c, a.id) && forall k :: a.id != EventId(t, k)
    ensures Sound(c + [a], t, f)
  {
    EventsStay(c, a, t);
    RequestStays(c, a, t, f);
    match RequestOf(c, t, f)
    case None =>
      assert NoEvents(c + [a], t);
      if RequestOf(c + [a], t, f).Some? { NoEventsProject(c + [a], RequestOf(c + [a], t, f).value, f); }
    case Some(r) =>
      PlanStays(c, a, r, f);
      ReadsWithLaterPlan(c, c + [a], r, PlanSeen(c, r, f), PlanSeen(c + [a], r, f), f);
  }

  lemma {:induction false} NoEventsProject(c: Catalog, r: Request, f: Formats)
    requires NoEvents(c, r.binding.transaction)
    ensures forall plan :: Projects(c, r, plan, f)
  {
  }

  /** Appending a new event of the transaction. */
  lemma {:induction false} EventKeepsSound(c: Catalog, r: Request, plan: Option<Plan>, e: Event, f: Formats)
    requires Sane(f) && RequestOf(c, r.binding.transaction, f) == Some(r) && Projects(c, r, PlanSeen(c, r, f), f)
    requires Valid(e, r, plan, f.journal.syntax) && |f.journal.encode(e)| <= MAX_EVENT_BYTES
    requires plan.None? || plan == PlanSeen(c, r, f)
    requires !Contains(c, EventId(r.binding.transaction, e.kind)) && PrecededIn(c, r.binding.transaction, e.kind)
    ensures Sound(c + [ArtifactFor(e, r.binding.transaction, f.journal)], r.binding.transaction, f)
  {
    var t, a := r.binding.transaction, ArtifactFor(e, r.binding.transaction, f.journal);
    var next, seen := c + [a], PlanSeen(c, r, f);
    IdsAreApart(t, t, e.kind);
    RequestStays(c, a, t, f);
    PlanStays(c, a, r, f);
    ValidWhenPlanAppears(e, r, seen, f.journal.syntax);
    forall k
      ensures EventReads(next, r, seen, k, f.journal)
      ensures Contains(next, EventId(t, k)) <==> Contains(c, EventId(t, k)) || k == e.kind
    {
      EventReadsAfter(c, r, seen, e, k, f.journal);
    }
  }

  lemma {:induction false} EventReadsAfter(c: Catalog, r: Request, plan: Option<Plan>, e: Event, k: EventKind, env: Env)
    requires Lawful(env) && EventReads(c, r, plan, k, env) && !Contains(c, EventId(r.binding.transaction, e.kind))
    requires Valid(e, r, plan, env.syntax) && |env.encode(e)| <= MAX_EVENT_BYTES
    ensures var next, t := c + [ArtifactFor(e, r.binding.transaction, env)], r.binding.transaction;
            EventReads(next, r, plan, k, env) && (Contains(next, EventId(t, k)) <==> Contains(c, EventId(t, k)) || k == e.kind)
  {
    var a, t := ArtifactFor(e, r.binding.transaction, env), r.binding.transaction;
    FindAfterOne(c, a, EventId(t, k));
    if a.id == EventId(t, k) { EventIdIsInjective(t, e.kind, t, k); }
  }

  predicate PrecededIn(c: Catalog, t: string, k: EventKind) {
    && (k == AbortSuccessObserved ==> Contains(c, EventId(t, AbortAttempt)))
    && (k == FaultTriggered ==> Contains(c, EventId(t, FaultIntent)))
    && (k == WorkloadComplete ==> Contains(c, EventId(t, WorkloadIntent)))
  }

  lemma {:induction false} EventIdsAreReserved(t: string)
    ensures forall k :: Reserved(EventId(t, k))
  {
    forall k ensures Reserved(EventId(t, k)) {
      assert ID_PREFIX <= EventSuffix(t, k);
    }
  }

  lemma {:induction false} OtherTransactions(s: string, k: EventKind, t: string)
    requires s != t
    ensures forall j :: EventId(s, k) != EventId(t, j)
  {
    forall j ensures EventId(s, k) != EventId(t, j) {
      if EventId(s, k) == EventId(t, j) { EventIdIsInjective(s, k, t, j); }
    }
  }

  lemma {:induction false} CallKeepsSound(c: Catalog, call: Call, t: string, f: Formats)
    requires Sane(f) && Sound(c, t, f)
    ensures Sound(CallStep(c, call, f), t, f)
  {
    CallAppends(c, call, f);
    var next := CallStep(c, call, f);
    if next != c {
      var a :| next == c + [a] && !Contains(c, a.id) && Appended(c, call, a, f);
      AppendKeepsSound(c, call, a, t, f);
    }
  }

  lemma {:induction false} AppendKeepsSound(c: Catalog, call: Call, a: Artifact, t: string, f: Formats)
    requires Sane(f) && Sound(c, t, f) && !Contains(c, a.id) && Appended(c, call, a, f)
    ensures Sound(c + [a], t, f)
  {
    match call
    case Transaction(s, k, w) =>
      var r := RequestOf(c, s, f).value;
      var plan := PlanOf(c, r, f).value;
      if s == t { EventKeepsSound(c, r, plan, EventFor(r, plan, k).value, f); }
      else { OtherTransactions(s, k, t); OtherKeepsSound(c, a, t, f); }
    case Workload(s, k, claim, w) =>
      if s == t { EventKeepsSound(c, RequestOf(c, s, f).value, None, WorkloadEvent(RequestOf(c, s, f).value, k, claim), f); }
      else { OtherTransactions(s, k, t); OtherKeepsSound(c, a, t, f); }
    case Abort(s, reason, w) =>
      forall k ensures a.id != EventId(t, k) { IdsAreApart(s, t, k); }
      OtherKeepsSound(c, a, t, f);
    case PublishOther(other) =>
      EventIdsAreReserved(t);
      OtherKeepsSound(c, a, t, f);
  }

  /** Whatever calls are made in whatever order, and whatever else is published, the journal of a
      transaction stays sound. */
  lemma {:induction false} EveryReachableJournalIsSound(c: Catalog, calls: seq<Call>, t: string, f: Formats)
    requires Sane(f) && Sound(c, t, f)
    ensures Sound(Calls(c, calls, f), t, f)
  {
    if calls != [] {
      EveryReachableJournalIsSound(c, calls[..|calls| - 1], t, f);
      CallKeepsSound(Calls(c, calls[..|calls| - 1], f), calls[|calls| - 1], t, f);
    }
  }

  /** Starting without events, the projection that the driver asks for never fails once the request and
      the plan can be read. */
  lemma {:induction false} EveryReachableJournalProjects(c: Catalog, calls: seq<Call>, t: string, f: Formats)
    requires Sane(f) && NoEvents(c, t)
    ensures var reached := Calls(c, calls, f);
            var r := RequestOf(reached, t, f);
            r.Some? && PlanOf(reached, r.value, f).Ok? ==> Projects(reached, r.value, PlanOf(reached, r.value, f).value, f)
  {
    if RequestOf(c, t, f).Some? { NoEventsProject(c, RequestOf(c, t, f).value, f); }
    EveryReachableJournalIsSound(c, calls, t, f);
  }

  // ---------------------------------------------------------------- what a call decides

  /** In a sound journal the recorded event of a kind without workload claims is the one the call builds. */
  lemma {:induction false} RecordedIsExpected(c: Catalog, r: Request, plan: Option<Plan>, e: Event, f: Formats)
    requires EventReads(c, r, plan, e.kind, f.journal) && Contains(c, EventId(r.binding.transaction, e.kind))
    requires Valid(e, r, plan, f.journal.syntax) && !OfWorkload(e.kind)
    ensures HoldsExactly(Find(c, EventId(r.binding.transaction, e.kind)).value, r, plan, e, f.journal)
  {
    var found := Find(c, EventId(r.binding.transaction, e.kind)).value;
    var actual := ReadEvent(found, f.journal).value;
    FindFinds(c, EventId(r.binding.transaction, e.kind));
    EventIdIsInjective(actual.binding.transaction, actual.kind, r.binding.transaction, e.kind);
    ValidEventIsDetermined(actual, e, r, plan, f.journal.syntax);
  }

  /** The facts about the request and the plan that a transaction event of a kind needs. */
  predicate Authorised(r: Request, plan: Option<Plan>, k: EventKind, f: Formats) {
    && f.journal.syntax.binding(r.binding) && !OfWorkload(k)
    && (k == FaultIntent || k == FaultTriggered ==> r.faultAction.Some?)
    && (NeedsPlan(k) ==> plan.Some? && BoundTo(plan.value.document, r))
  }

  lemma {:induction false} EventForIsValid(r: Request, plan: Option<Plan>, k: EventKind, f: Formats)
    ensures Authorised(r, plan, k, f) <==>
            EventFor(r, plan, k).Some? && Valid(EventFor(r, plan, k).value, r, plan, f.journal.syntax)
  {
    match k
    case DispatchIntent => case FaultIntent => case FaultTriggered => case AbortAttempt =>
    case AbortSuccessObserved => case WorkloadIntent => case WorkloadComplete =>
  }

  ghost predicate Fits(r: Request, plan: Option<Plan>, k: EventKind, f: Formats) {
    EventFor(r, plan, k).Some? && |f.journal.encode(EventFor(r, plan, k).value)| <= MAX_EVENT_BYTES
  }

  /** A transaction call on a sound journal: it succeeds exactly when it is authorised and its event is
      already there, or may still be added after its predecessor. It never finds a conflict. */
  lemma {:induction false} TransactionDecides(c: Catalog, t: string, k: EventKind, w: World, f: Formats)
    requires Sound(c, t, f) && RequestOf(c, t, f).Some? && PlanOf(c, RequestOf(c, t, f).value, f).Ok?
    ensures var r := RequestOf(c, t, f).value;
            var plan, id := PlanOf(c, r, f).value, EventId(t, k);
            && (TransactionStep(c, t, k, w, f).1 <==>
                  && !w.blocked && Authorised(r, plan, k, f)
                  && (Contains(c, id) || (!w.closed && PrecededIn(c, t, k) && Fits(r, plan, k, f))))
            && (TransactionStep(c, t, k, w, f).0 == c <==> !TransactionStep(c, t, k, w, f).1 || Contains(c, id))
  {
    var r := RequestOf(c, t, f).value;
    var plan := PlanOf(c, r, f).value;
    EventForIsValid(r, plan, k, f);
    if EventFor(r, plan, k).Some? {
      ReadyIsPreceded(c, r, plan, k, f);
      NewOrSameDecides(c, r, plan, EventFor(r, plan, k).value, w.closed, TransactionReady(c, r, plan, k), f);
    }
  }

  lemma {:induction false} ReadyIsPreceded(c: Catalog, r: Request, plan: Option<Plan>, k: EventKind, f: Formats)
    ensures Authorised(r, plan, k, f) ==> (TransactionReady(c, r, plan, k) <==> PrecededIn(c, r.binding.transaction, k))
  {
  }

  lemma {:induction false} NewOrSameDecides(
      c: Catalog, r: Request, plan: Option<Plan>, e: Event, closed: bool, ready: bool, f: Formats)
    requires Projects(c, r, plan, f)
    ensures var (next, ok) := NewOrSame(c, r, plan, e, closed, ready, f);
            var present := Contains(c, EventId(r.binding.transaction, e.kind));
            && (next == c <==> !ok || present)
            && (!OfWorkload(e.kind) ==>
                  (ok <==> Valid(e, r, plan, f.journal.syntax)
                           && (present || (!closed && ready && |f.journal.encode(e)| <= MAX_EVENT_BYTES))))
  {
    if Valid(e, r, plan, f.journal.syntax) && Contains(c, EventId(r.binding.transaction, e.kind)) && !OfWorkload(e.kind) {
      assert EventReads(c, r, plan, e.kind, f.journal);
      RecordedIsExpected(c, r, plan, e, f);
    }
  }

  lemma {:induction false} CallsKeepFinds(c: Catalog, calls: seq<Call>, id: Id, f: Formats)
    requires Contains(c, id)
    ensures Find(Calls(c, calls, f), id) == Find(c, id)
  {
    if calls != [] {
      var before, last := Calls(c, calls[..|calls| - 1], f), calls[|calls| - 1];
      CallsKeepFinds(c, calls[..|calls| - 1], id, f);
      CallAppends(before, last, f);
      if CallStep(before, last, f) != before {
        var a :| CallStep(before, last, f) == before + [a] && !Contains(before, a.id) && Appended(before, last, a, f);
        FindAfterOne(before, a, id);
      }
    }
  }

  /** A transaction event that was accepted is accepted again at every later moment, also after the
      transaction was closed, without a trace; only a refused Session or an unreadable plan stops it. */
  lemma {:induction false} TransactionRetrySucceeds(
      c: Catalog, t: string, k: EventKind, w: World, between: seq<Call>, later: World, f: Formats)
    requires Sane(f) && Sound(c, t, f) && TransactionStep(c, t, k, w, f).1
    ensures var reached := Calls(TransactionStep(c, t, k, w, f).0, between, f);
            var r := RequestOf(reached, t, f);
            && r.Some? && r == RequestOf(c, t, f)
            && TransactionStep(reached, t, k, later, f) == (reached, !later.blocked && PlanOf(reached, r.value, f).Ok?)
  {
    var next := TransactionStep(c, t, k, w, f).0;
    TransactionDecides(c, t, k, w, f);
    AcceptedIsThere(c, t, k, w, f);
    CallKeepsSound(c, Transaction(t, k, w), t, f);
    EveryReachableJournalIsSound(next, between, t, f);
    var reached, r := Calls(next, between, f), RequestOf(c, t, f).value;
    AuthorityStays(c, next, between, r, k, f);
    if PlanOf(reached, r, f).Ok? { TransactionDecides(reached, t, k, later, f); }
  }

  /** What was authorised stays authorised as long as the plan can be read. */
  lemma {:induction false} AuthorityStays(c: Catalog, next: Catalog, between: seq<Call>, r: Request, k: EventKind, f: Formats)
    requires var t := r.binding.transaction;
             && RequestOf(c, t, f) == Some(r) && PlanOf(c, r, f).Ok? && Authorised(r, PlanOf(c, r, f).value, k, f)
             && Contains(next, EventId(t, k)) && Contains(next, RequestId(t))
             && Find(next, RequestId(t)) == Find(c, RequestId(t)) && Find(next, AbortId(t)) == Find(c, AbortId(t))
    ensures var reached, t := Calls(next, between, f), r.binding.transaction;
            && RequestOf(reached, t, f) == Some(r) && Contains(reached, EventId(t, k))
            && (PlanOf(reached, r, f).Ok? ==> Authorised(r, PlanOf(reached, r, f).value, k, f))
  {
    var t := r.binding.transaction;
    CallsKeepFinds(next, between, EventId(t, k), f);
    CallsKeepFinds(next, between, RequestId(t), f);
    if Contains(c, AbortId(t)) { CallsKeepFinds(next, between, AbortId(t), f); }
  }

  lemma {:induction false} AcceptedIsThere(c: Catalog, t: string, k: EventKind, w: World, f: Formats)
    requires Sane(f) && TransactionStep(c, t, k, w, f).1
    ensures var next := TransactionStep(c, t, k, w, f).0;
            && RequestOf(c, t, f).Some? && Contains(next, EventId(t, k)) && Contains(next, RequestId(t))
            && Find(next, RequestId(t)) == Find(c, RequestId(t)) && Find(next, AbortId(t)) == Find(c, AbortId(t))
  {
    var r := RequestOf(c, t, f).value;
    var e := EventFor(r, PlanOf(c, r, f).value, k).value;
    var a := ArtifactFor(e, t, f.journal);
    RecordedHoldsExactly(c, r, PlanOf(c, r, f).value, e, f.journal);
    IdsAreApart(t, t, k);
    FindAfterAppend(c, [a], RequestId(t));
    FindAfterAppend(c, [a], AbortId(t));
    FindFinds([a], RequestId(t));
    FindFinds([a], AbortId(t));
    assert [a][0] == a;
  }

  // ---------------------------------------------------------------- workload events and aborts

  /** Workload events are checked without the plan, so once an abort or a fault is recorded no workload
      event of the same transaction is ever added. */
  lemma {:induction false} NoWorkloadAfterAbort(c: Catalog, calls: seq<Call>, t: string, aborted: EventKind, k: EventKind, f: Formats)
    requires Sane(f) && Sound(c, t, f) && NeedsPlan(aborted) && Contains(c, EventId(t, aborted)) && OfWorkload(k)
    ensures Contains(Calls(c, calls, f), EventId(t, k)) <==> Contains(c, EventId(t, k))
  {
    if Contains(c, EventId(t, k)) { CallsKeepFinds(c, calls, EventId(t, k), f); }
    if calls != [] {
      var init, last := calls[..|calls| - 1], calls[|calls| - 1];
      NoWorkloadAfterAbort(c, init, t, aborted, k, f);
      EveryReachableJournalIsSound(c, init, t, f);
      CallsKeepFinds(c, init, EventId(t, aborted), f);
      NoWorkloadStep(Calls(c, init, f), last, t, aborted, k, f);
    }
  }

  lemma {:induction false} NoWorkloadStep(c: Catalog, call: Call, t: string, aborted: EventKind, k: EventKind, f: Formats)
    requires Sound(c, t, f) && NeedsPlan(aborted) && Contains(c, EventId(t, aborted)) && OfWorkload(k)
    ensures Contains(CallStep(c, call, f), EventId(t, k)) ==> Contains(c, EventId(t, k))
  {
    CallAppends(c, call, f);
    if CallStep(c, call, f) != c {
      var a :| CallStep(c, call, f) == c + [a] && !Contains(c, a.id) && Appended(c, call, a, f);
      FindAfterOne(c, a, EventId(t, k));
      assert RequestOf(c, t, f).Some?;
      AbortedDoesNotProject(c, RequestOf(c, t, f).value, aborted, f);
      NoNewWorkload(c, call, a, t, k, f);
    }
  }

  lemma {:induction false} AbortedDoesNotProject(c: Catalog, r: Request, aborted: EventKind, f: Formats)
    requires NeedsPlan(aborted) && Contains(c, EventId(r.binding.transaction, aborted))
    ensures !Projects(c, r, None, f)
  {
    var found := Find(c, EventId(r.binding.transaction, aborted)).value;
    if EventReads(c, r, None, aborted, f.journal) {
      var e := ReadEvent(found, f.journal).value;
      FindFinds(c, EventId(r.binding.transaction, aborted));
      EventIdIsInjective(e.binding.transaction, e.kind, r.binding.transaction, aborted);
      ValidWhenPlanAppears(e, r, None, f.journal.syntax);
    }
  }

  lemma {:induction false} NoNewWorkload(c: Catalog, call: Call, a: Artifact, t: string, k: EventKind, f: Formats)
    requires Appended(c, call, a, f) && OfWorkload(k) && RequestOf(c, t, f).Some? && !Projects(c, RequestOf(c, t, f).value, None, f)
    ensures a.id != EventId(t, k)
  {
    match call
    case Transaction(s, j, w) => if a.id == EventId(t, k) { EventIdIsInjective(s, j, t, k); }
    case Workload(s, j, claim, w) => if a.id == EventId(t, k) { EventIdIsInjective(s, j, t, k); }
    case Abort(s, reason, w) => IdsAreApart(s, t, k);
    case PublishOther(other) => EventIdsAreReserved(t);
  }

  // ---------------------------------------------------------------- the driver

  ghost predicate KeepsSound(before: Catalog, after: Catalog, f: Formats) {
    Sane(f) ==> forall t :: Sound(before, t, f) ==> Sound(after, t, f)
  }

  lemma {:induction false} CallKeepsAllSound(c: Catalog, call: Call, f: Formats)
    ensures KeepsSound(c, CallStep(c, call, f), f)
  {
    if Sane(f) {
      forall t | Sound(c, t, f) ensures Sound(CallStep(c, call, f), t, f) { CallKeepsSound(c, call, t, f); }
    }
  }

  /** Why a new transaction event of a kind is refused, from what the journal holds. */
  function Refusal(p: Projection, r: Request, plan: Option<Plan>, k: EventKind): Option<DriverFault> {
    match k
    case DispatchIntent => None
    case FaultIntent => if r.faultAction.None? then Some(NotYet) else None
    case FaultTriggered => if r.faultAction.Some? && p.faultIntent && plan.Some? then None else Some(NotYet)
    case AbortAttempt => if plan.None? then Some(NotYet) else None
    case AbortSuccessObserved => if !p.abortAttempted then Some(NotYet) else None
    case WorkloadIntent => Some(WrongKind)
    case WorkloadComplete => Some(WrongKind)
  }

  lemma {:induction false} RefusalIsUnready(c: Catalog, p: Projection, r: Request, plan: Option<Plan>, k: EventKind)
    requires forall j :: Recorded(p, j) <==> Contains(c, EventId(r.binding.transaction, j))
    ensures Refusal(p, r, plan, k).None? <==> TransactionReady(c, r, plan, k)
  {
    assert (Recorded(p, FaultIntent) <==> p.faultIntent) && (Recorded(p, AbortAttempt) <==> p.abortAttempted);
  }

  class Driver {
    const journal: JournalStore
    const formats: Formats

    constructor (journal: JournalStore, formats: Formats)
      requires journal.env == formats.journal
      ensures this.journal == journal && this.formats == formats && Bound()
    {
      this.journal, this.formats := journal, formats;
    }

    ghost predicate Bound() {
      journal.env == formats.journal
    }

    /** Nothing to do for an event that is there already, otherwise what the journal holds. */
    method ProjectIfNew(r: Request, plan: Option<Plan>, e: Event, closed: bool) returns (result: Result<Option<Projection>, DriverFault>)
      requires Bound()
      ensures var c, id := journal.catalog, EventId(r.binding.transaction, e.kind);
              && (result == Ok(None) <==> Contains(c, id) && HoldsExactly(Find(c, id).value, r, plan, e, formats.journal))
              && (result.Ok? && result.value.Some? <==>
                    Valid(e, r, plan, formats.journal.syntax) && !Contains(c, id) && !closed && Projects(c, r, plan, formats))
              && (result.Ok? && result.value.Some? ==>
                    forall k :: Recorded(result.value.value, k) <==> Contains(c, EventId(r.binding.transaction, k)))
    {
      var present := journal.EventExistsExact(r, plan, e);
      if present.Raised? { return Raised(Journal(present.fault)); }
      if present.value { return Ok(None); }
      if closed { return Raised(Closed); }
      var projected := journal.Project(r, plan);
      if projected.Raised? { return Raised(Journal(projected.fault)); }
      return Ok(Some(projected.value));
    }

    method RecordTransactionEvent(t: string, k: EventKind, w: World) returns (result: Result<(), DriverFault>)
      requires Bound()
      modifies journal
      ensures (journal.catalog, result.Ok?) == TransactionStep(old(journal.catalog), t, k, w, formats)
      ensures KeepsSound(old(journal.catalog), journal.catalog, formats)
    {
      CallKeepsAllSound(journal.catalog, Transaction(t, k, w), formats);
      var request := RequestOf(journal.catalog, t, formats);
      if request.None? { return Raised(NoRequest); }
      if w.blocked { return Raised(OtherReason); }
      var r := request.value;
      var read := PlanOf(journal.catalog, r, formats);
      if read.Raised? { return Raised(read.fault); }
      var plan := read.value;
      var built := EventFor(r, plan, k);
      if built.None? { return Raised(NoPlan); }
      var e := built.value;
      var projected := ProjectIfNew(r, plan, e, w.closed);
      if projected.Raised? { return Raised(projected.fault); }
      if projected.value.None? { return Ok(()); }
      var p := projected.value.value;
      RefusalIsUnready(journal.catalog, p, r, plan, k);
      var refusal := Refusal(p, r, plan, k);
      if refusal.Some? { return Raised(refusal.value); }
      var recorded := journal.Record(r, plan, e);
      if recorded.Raised? { return Raised(Journal(recorded.fault)); }
      return Ok(());
    }

    method RecordWorkloadEvent(t: string, k: EventKind, claim: WorkloadClaim, w: World) returns (result: Result<(), DriverFault>)
      requires Bound()
      modifies journal
      ensures (journal.catalog, result.Ok?) == WorkloadStep(old(journal.catalog), t, k, claim, w, formats)
      ensures KeepsSound(old(journal.catalog), journal.catalog, formats)
    {
      CallKeepsAllSound(journal.catalog, Workload(t, k, claim, w), formats);
      var request := RequestOf(journal.catalog, t, formats);
      if request.None? { return Raised(NoRequest); }
      if w.blocked || request.value.operation != Start { return Raised(OtherReason); }
      var r, e := request.value, WorkloadEvent(request.value, k, claim);
      var projected := ProjectIfNew(r, None, e, w.closed);
      if projected.Raised? { return Raised(projected.fault); }
      if projected.value.None? { return Ok(()); }
      var p := projected.value.value;
      assert Recorded(p, WorkloadIntent) <==> p.workloadIntent;
      if !OfWorkload(k) { return Raised(WrongKind); }
      if k == WorkloadComplete && !p.workloadIntent { return Raised(NotYet); }
      var recorded := journal.Record(r, None, e);
      if recorded.Raised? { return Raised(Journal(recorded.fault)); }
      return Ok(());
    }

    /** Publishes the abort plan, or finds one with the same reason. */
    method PlanAbort(t: string, reason: string, w: World) returns (result: Result<(), DriverFault>)
      requires Bound()
      modifies journal
      ensures (journal.catalog, result.Ok?) == AbortStep(old(journal.catalog), t, reason, w, formats)
      ensures KeepsSound(old(journal.catalog), journal.catalog, formats)
    {
      CallKeepsAllSound(journal.catalog, Abort(t, reason, w), formats);
      var request := RequestOf(journal.catalog, t, formats);
      if request.None? { return Raised(NoRequest); }
      if w.blocked { return Raised(OtherReason); }
      var found := Find(journal.catalog, AbortId(t));
      if found.Some? {
        if MAX_REQUEST_BYTES < |found.value.content| { return Raised(BadPlan); }
        var plan := formats.decodePlan(found.value.content);
        if plan.None? || !BoundTo(plan.value, request.value) || plan.value.reason != reason { return Raised(BadPlan); }
        return Ok(());
      }
      if w.closed { return Raised(Closed); }
      var a := PlanArtifact(request.value, reason, formats);
      if MAX_REQUEST_BYTES < |a.content| { return Raised(PlanTooLarge); }
      journal.catalog := journal.catalog + [a];
      return Ok(());
    }
  }
}
