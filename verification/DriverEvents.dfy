/** The events of the driver journal: their identifiers, and their validation against a request and an abort plan. */
module DriverEvents {
  import opened Outcomes
  import opened SessionCatalog

  datatype EventKind =
    | DispatchIntent | FaultIntent | FaultTriggered | AbortAttempt | AbortSuccessObserved | WorkloadIntent | WorkloadComplete

  datatype Operation = Start | OtherOperation(name: string)

  /** `rest` stands for the Session, the nonce and the digest that bind the transaction. */
  datatype Binding = Binding(transaction: string, rest: string)

  /** An immutable request together with the identity of the artifact that holds it. */
  datatype Request = Request(binding: Binding, operation: Operation, faultAction: Option<string>, artifact: Id, sha256: string)

  /** An immutable abort plan together with the identity of the artifact that holds it. */
  datatype Plan = Plan(document: PlanDocument, artifact: Id, sha256: string)

  datatype PlanDocument = PlanDocument(binding: Binding, request: Id, requestSha256: string, abortTool: bool, reason: string)

  datatype AbortClaim = AbortClaim(reason: Option<string>, artifact: Option<Id>, sha256: Option<string>)

  datatype WorkloadClaim = WorkloadClaim(
    targetState: Option<string>, identity: Option<string>, deployment: Option<Id>, deploymentSha256: Option<string>,
    deploymentBlock: Option<string>, executable: Option<string>)

  const NO_ABORT := AbortClaim(None, None, None)
  const NO_WORKLOAD := WorkloadClaim(None, None, None, None, None, None)

  datatype Event = Event(
    kind: EventKind, binding: Binding, request: Id, requestSha256: string, operation: Operation, faultAction: Option<string>,
    abort: AbortClaim, workload: WorkloadClaim)

  /** The syntax checks that no rule here looks into. */
  datatype Syntax = Syntax(binding: Binding -> bool, text: string -> bool, id: Id -> bool)

  // ---------------------------------------------------------------- validation

  predicate BoundTo(p: PlanDocument, r: Request) {
    p.binding == r.binding && p.request == r.artifact && p.requestSha256 == r.sha256 && p.abortTool
  }

  predicate ClaimsPlan(e: Event, r: Request, plan: Option<Plan>) {
    match plan
    case None => false
    case Some(p) =>
      && e.workload == NO_WORKLOAD
      && e.abort == AbortClaim(Some(p.document.reason), Some(p.artifact), Some(p.sha256))
      && BoundTo(p.document, r)
  }

  predicate ClaimsWorkload(e: Event, syntax: Syntax) {
    var w := e.workload;
    && e.abort == NO_ABORT && e.operation == Start && w.targetState.Some?
    && w.identity.Some? && syntax.text(w.identity.value)
    && (w.deployment.Some? ==> syntax.id(w.deployment.value))
    && (w.deployment.Some? || w.deploymentSha256.Some? || w.deploymentBlock.Some? || w.executable.Some? ==>
          w.deployment.Some? && w.deploymentSha256.Some? && w.deploymentBlock.Some? && w.executable.Some?)
  }

  predicate Valid(e: Event, r: Request, plan: Option<Plan>, syntax: Syntax) {
    && syntax.binding(e.binding)
    && e.binding == r.binding && e.request == r.artifact && e.requestSha256 == r.sha256
    && e.operation == r.operation && e.faultAction == r.faultAction
    && match e.kind
       case DispatchIntent => e.abort == NO_ABORT && e.workload == NO_WORKLOAD
       case FaultIntent => e.faultAction.Some? && e.abort == NO_ABORT && e.workload == NO_WORKLOAD
       case FaultTriggered => e.faultAction.Some? && ClaimsPlan(e, r, plan)
       case AbortAttempt => ClaimsPlan(e, r, plan)
       case AbortSuccessObserved => ClaimsPlan(e, r, plan)
       case WorkloadIntent => ClaimsWorkload(e, syntax)
       case WorkloadComplete => ClaimsWorkload(e, syntax)
  }

  predicate NeedsPlan(k: EventKind) {
    k == FaultTriggered || k == AbortAttempt || k == AbortSuccessObserved
  }

  predicate OfWorkload(k: EventKind) {
    k == WorkloadIntent || k == WorkloadComplete
  }

  /** A plan that appears later spoils no event, and only three kinds look at it. */
  lemma {:induction false} ValidWhenPlanAppears(e: Event, r: Request, plan: Option<Plan>, syntax: Syntax)
    ensures Valid(e, r, None, syntax) ==> Valid(e, r, plan, syntax)
    ensures !NeedsPlan(e.kind) ==> (Valid(e, r, plan, syntax) <==> Valid(e, r, None, syntax))
    ensures NeedsPlan(e.kind) ==> !Valid(e, r, None, syntax)
  {
    match e.kind
    case DispatchIntent => case FaultIntent => case FaultTriggered => case AbortAttempt =>
    case AbortSuccessObserved => case WorkloadIntent => case WorkloadComplete =>
  }

  /** Except for the workload claims, a request and its plan leave no choice: two valid events of the
      same kind are equal. */
  lemma {:induction false} ValidEventIsDetermined(e: Event, f: Event, r: Request, plan: Option<Plan>, syntax: Syntax)
    requires Valid(e, r, plan, syntax) && Valid(f, r, plan, syntax) && e.kind == f.kind
    ensures e.abort == f.abort
    ensures e == f <==> e.workload == f.workload
    ensures !OfWorkload(e.kind) ==> e == f
  {
    match e.kind
    case DispatchIntent => case FaultIntent => case FaultTriggered => case AbortAttempt =>
    case AbortSuccessObserved => case WorkloadIntent => case WorkloadComplete =>
  }

  // ---------------------------------------------------------------- identifiers

  /** The parts of the reserved ids that follow `controller-`. */
  const ID_PREFIX := "driver-event-"
  const REQUEST_PREFIX := "request-"
  const ABORT_PREFIX := "abort-"
  const PATH_PREFIX := "logs/controller/driver-events/"

  function RequestId(transaction: string): Id {
    Controller(REQUEST_PREFIX + transaction)
  }

  function AbortId(transaction: string): Id {
    Controller(ABORT_PREFIX + transaction)
  }

  function KindName(k: EventKind): string {
    match k
    case DispatchIntent => "dispatch-intent"
    case FaultIntent => "fault-intent"
    case FaultTriggered => "fault-triggered"
    case AbortAttempt => "abort-attempt"
    case AbortSuccessObserved => "abort-success-observed"
    case WorkloadIntent => "workload-intent"
    case WorkloadComplete => "workload-complete"
  }

  function EventSuffix(transaction: string, k: EventKind): string {
    ID_PREFIX + transaction + "-" + KindName(k)
  }

  function EventId(transaction: string, k: EventKind): Id {
    Controller(EventSuffix(transaction, k))
  }

  function EventPath(transaction: string, k: EventKind): string {
    PATH_PREFIX + transaction + "/" + KindName(k) + ".json"
  }

  /** In a longer name the position just before a shorter name's length never holds the separator. */
  lemma {:induction false} NamesDoNotOverlap(a: EventKind, b: EventKind)
    ensures |KindName(b)| < |KindName(a)| ==> KindName(a)[|KindName(a)| - |KindName(b)| - 1] != '-'
    ensures KindName(a) == KindName(b) ==> a == b
  {
    assert |KindName(a)| == |KindName(b)| && KindName(a)[0] == KindName(b)[0] ==> a == b;
    match a
    case DispatchIntent => assert |KindName(b)| in {15, 12, 13, 22, 17};
    case FaultIntent => assert |KindName(b)| in {15, 12, 13, 22, 17};
    case FaultTriggered => assert |KindName(b)| in {15, 12, 13, 22, 17};
    case AbortAttempt => assert |KindName(b)| in {15, 12, 13, 22, 17};
    case AbortSuccessObserved => assert |KindName(b)| in {15, 12, 13, 22, 17};
    case WorkloadIntent => assert |KindName(b)| in {15, 12, 13, 22, 17};
    case WorkloadComplete => assert |KindName(b)| in {15, 12, 13, 22, 17};
  }

  lemma {:induction false} EventIdTail(transaction: string, k: EventKind, i: nat)
    requires i < |KindName(k)|
    ensures var id := EventSuffix(transaction, k);
            && |id| == |ID_PREFIX| + |transaction| + 1 + |KindName(k)|
            && id[|id| - |KindName(k)| - 1] == '-'
            && id[|id| - |KindName(k)| + i] == KindName(k)[i]
  {
  }

  /** No two (transaction, kind) pairs share an id, whatever the transaction strings are. */
  lemma {:induction false} EventIdIsInjective(s: string, a: EventKind, t: string, b: EventKind)
    requires EventId(s, a) == EventId(t, b)
    ensures s == t && a == b
  {
    if |KindName(b)| <= |KindName(a)| { SameIdSameEvent(s, a, t, b); } else { SameIdSameEvent(t, b, s, a); }
  }

  /** Two equal texts of the same form with last parts of the same length have equal parts. */
  lemma {:induction false} SameParts(prefix: string, s: string, x: string, t: string, y: string)
    requires prefix + s + "-" + x == prefix + t + "-" + y && |x| == |y|
    ensures s == t && x == y
  {
    var u, v := prefix + s + "-" + x, prefix + t + "-" + y;
    assert |s| == |t|;
    assert u[|prefix|..|prefix| + |s|] == s && v[|prefix|..|prefix| + |t|] == t;
    assert u[|u| - |x|..] == x && v[|v| - |y|..] == y;
  }

  /** Otherwise the separator of the shorter last part lies in the longer one. */
  lemma {:induction false} SeparatorInside(prefix: string, s: string, x: string, t: string, y: string)
    requires prefix + s + "-" + x == prefix + t + "-" + y && |y| < |x|
    ensures x[|x| - |y| - 1] == '-'
  {
    var u, v := prefix + s + "-" + x, prefix + t + "-" + y;
    assert u[|u| - |x|..] == x;
    assert v[|v| - |y| - 1] == '-';
  }

  lemma {:induction false} SameIdSameEvent(s: string, a: EventKind, t: string, b: EventKind)
    requires EventId(s, a) == EventId(t, b) && |KindName(b)| <= |KindName(a)|
    ensures s == t && a == b
  {
    assert EventSuffix(s, a) == EventSuffix(t, b);
    if |KindName(b)| < |KindName(a)| { SeparatorInside(ID_PREFIX, s, KindName(a), t, KindName(b)); }
    NamesDoNotOverlap(a, b);
    SameParts(ID_PREFIX, s, KindName(a), t, KindName(b));
  }

  /** Requests, abort plans and events never share an id. */
  lemma {:induction false} IdsAreApart(s: string, t: string, k: EventKind)
    ensures RequestId(s) != AbortId(t) && RequestId(s) != EventId(t, k) && AbortId(s) != EventId(t, k)
    ensures (RequestId(s) == RequestId(t) <==> s == t) && (AbortId(s) == AbortId(t) <==> s == t)
  {
    EventIdTail(t, k, 0);
    assert RequestId(s).suffix[0] == 'r' && AbortId(t).suffix[0] == 'a' && AbortId(s).suffix[0] == 'a';
    assert EventSuffix(t, k)[0] == 'd';
    assert RequestId(s).suffix[|REQUEST_PREFIX|..] == s && RequestId(t).suffix[|REQUEST_PREFIX|..] == t;
    assert AbortId(s).suffix[|ABORT_PREFIX|..] == s && AbortId(t).suffix[|ABORT_PREFIX|..] == t;
  }
}
