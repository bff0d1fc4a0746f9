/** The closed sampling run: what must hold before the target is sampled, and what a PASS receipt proves. */
module SamplingRun {
  import opened Outcomes
  import opened Scalars
  import opened Texts

  // ---------------------------------------------------------------- documents

  /** A reported flag: a boolean, the word unknown, or anything else. */
  datatype Flag = Known(value: bool) | Unreported | Malformed

  /** `exact` says that no other field is present. */
  datatype Target = Target(powered: Flag, running: Flag, halted: Flag, exact: bool)

  const RUNNING_TARGET := Target(Known(true), Known(true), Known(false), true)

  datatype Method = Realtime | StopAndGo
  datatype MethodPolicy = RealtimeOnly | AllowStopAndGo

  /** `schemas` says that both schema names have their one accepted value; `supported` is None when the
      method list is malformed; `size` is the length of the canonical document. */
  datatype Capabilities = Capabilities(
    schemas: bool, software: Option<string>, endpoint: Option<string>, probe: Option<string>, cpu: Option<string>,
    target: Option<Target>, pcsnoop: Flag, supported: Option<seq<Method>>, size: nat)

  const UNAVAILABLE :=
    Capabilities(false, None, None, None, None, Some(Target(Unreported, Unreported, Unreported, true)), Unreported, Some([]), 0)

  datatype Config = Config(
    boardId: string, mcuFamily: string, probeId: string, expectedCpu: string, software: string,
    endpoint: string, probe: string, requestSha: string)

  /** Only a sampling configuration pins endpoint, probe, software and CPU. */
  datatype Board = Pinned(config: Config) | Unpinned(config: Config)

  datatype Policy = Policy(minHits: int, minDuration: int, minRetained: real, maxSnoopFailures: int)

  const DEFAULT_POLICY := Policy(100, 100_000_000, 90.0, 0)

  datatype Histogram = Histogram(
    endpoint: string, software: string, cpu: string, before: Target, after: Target, chosen: Method, retained: Option<real>,
    cleanup: bool, sampleRate: Option<int>, inScopeHits: int, duration: int, snoopFailures: int)

  datatype Status = Pass | NotReady | Fail

  datatype CheckName =
    | StateReadable | Powered | Running | Unhalted | CapabilitiesSchema | Trace32Identity | ExpectedCpu
    | SamplingBoardConfig | MethodAvailable | HistogramIdentity | QuantitativePolicy

  datatype Check = Check(name: CheckName, passed: bool)

  datatype Role = CaptureReceipt | HistogramArtifact | AddressHeatmap | Svg

  datatype Binding = Binding(role: Role, id: string, sha256: string)

  datatype Identity = Identity(
    mcuFamily: string, probeId: string, observedScope: bool, expected: Option<string>, observed: Option<string>, probeObserved: bool)

  datatype Receipt = Receipt(
    boardId: string, session: string, status: Status, requestSha: string, sessionRequestSha: string, capabilities: Capabilities,
    operation: string, methodPolicy: MethodPolicy, identity: Identity, checks: seq<Check>, bindings: seq<Binding>,
    endpoint: Option<string>, selected: Option<Method>, before: Option<Target>, after: Option<Target>, policy: Option<Policy>,
    statistical: bool, diagnosticOnly: bool)

  const MAX_CAPABILITIES := 65536
  const MAX_TEXT := 1024

  // ---------------------------------------------------------------- the receipt validator

  predicate Operation(s: string) {
    |s| == 32 && forall i :: 0 <= i < |s| ==> '0' <= s[i] <= '9' || 'a' <= s[i] <= 'f'
  }

  predicate ValidTarget(t: Target) {
    t.exact && !t.powered.Malformed? && !t.running.Malformed? && !t.halted.Malformed?
  }

  predicate ValidIdentity(i: Identity) {
    && NonBlank(i.mcuFamily) && NonBlank(i.probeId)
    && (i.expected.Some? ==> Sha256(i.expected.value)) && (i.observed.Some? ==> Sha256(i.observed.value))
    && i.observedScope == i.observed.Some? == i.probeObserved
  }

  predicate AtLeastDefault(p: Policy) {
    100 <= p.minHits && 100_000_000 <= p.minDuration && 90.0 <= p.minRetained <= 100.0 && p.maxSnoopFailures == 0
  }

  predicate ValidBindings(bindings: seq<Binding>) {
    && |bindings| <= 16
    && (forall i :: 0 <= i < |bindings| ==> bindings[i].id != "" && Sha256(bindings[i].sha256))
    && forall i, j :: 0 <= i < j < |bindings| ==> bindings[i].role != bindings[j].role
  }

  function Roles(bindings: seq<Binding>): set<Role> {
    set b | b in bindings :: b.role
  }

  predicate ValidFields(r: Receipt) {
    && NonBlank(r.boardId) && |r.boardId| <= MAX_TEXT && PortableSession(r.session)
    && Sha256(r.requestSha) && Sha256(r.sessionRequestSha) && r.capabilities.size <= MAX_CAPABILITIES
    && Operation(r.operation) && ValidIdentity(r.identity)
    && (r.before.Some? ==> ValidTarget(r.before.value)) && (r.after.Some? ==> ValidTarget(r.after.value))
    && (r.endpoint.Some? ==> Sha256(r.endpoint.value))
    && (r.policy.Some? ==> AtLeastDefault(r.policy.value))
    && |r.checks| <= 64 && ValidBindings(r.bindings)
  }

  /** What a PASS must show. */
  predicate PassRules(r: Receipt) {
    && Roles(r.bindings) == {CaptureReceipt, HistogramArtifact, AddressHeatmap, Svg}
    && r.statistical && r.diagnosticOnly
    && r.policy.Some? && r.endpoint.Some? && r.selected.Some?
    && (forall i :: 0 <= i < |r.checks| ==> r.checks[i].passed)
    && r.identity.observedScope && r.identity.probeObserved && r.identity.expected == r.identity.observed
    && r.capabilities.schemas && r.capabilities.probe.Some? && r.capabilities.probe == r.identity.observed
    && r.capabilities.endpoint == r.endpoint
    && r.before == Some(RUNNING_TARGET) && r.after == Some(RUNNING_TARGET)
  }

  predicate ValidReceipt(r: Receipt) {
    ValidFields(r) && if r.status.Pass? then PassRules(r) else r.bindings == []
  }

  // ---------------------------------------------------------------- readiness

  predicate Readable(t: Target) {
    t.powered.Known? && t.running.Known? && t.halted.Known?
  }

  function ReadinessChecks(board: Board, c: Capabilities): seq<Check> {
    var readable := c.target.Some? && Readable(c.target.value);
    var powered := readable && c.target.value.powered.value;
    [Check(StateReadable, readable), Check(Powered, powered),
     Check(Running, readable && c.target.value.running.value), Check(Unhalted, readable && !c.target.value.halted.value)]
    + if board.Pinned? then
        [Check(CapabilitiesSchema, c.schemas),
         Check(Trace32Identity, c.software == Some(board.config.software) && c.endpoint == Some(board.config.endpoint)
                                && c.probe == Some(board.config.probe)),
         Check(ExpectedCpu, powered && c.cpu == Some(board.config.expectedCpu))]
      else []
  }

  predicate AllPassed(checks: seq<Check>) {
    forall i :: 0 <= i < |checks| ==> checks[i].passed
  }

  predicate MethodOffered(c: Capabilities, policy: MethodPolicy)
    requires c.supported.Some?
  {
    || (c.pcsnoop == Known(true) && Realtime in c.supported.value)
    || (c.pcsnoop == Known(false) && policy.AllowStopAndGo? && StopAndGo in c.supported.value)
  }

  /** A pinned board, all readiness checks passed, and an allowed method on offer. */
  predicate CaptureAllowed(board: Board, c: Capabilities, policy: MethodPolicy) {
    board.Pinned? && AllPassed(ReadinessChecks(board, c)) && c.supported.Some? && MethodOffered(c, policy)
  }

  /** The seven facts behind the checks of a pinned board. */
  lemma {:induction false} ReadinessMeans(board: Board, c: Capabilities)
    requires board.Pinned?
    ensures AllPassed(ReadinessChecks(board, c)) <==>
      && c.target.Some? && c.target.value.powered == Known(true) && c.target.value.running == Known(true)
      && c.target.value.halted == Known(false)
      && c.schemas && c.software == Some(board.config.software) && c.endpoint == Some(board.config.endpoint)
      && c.probe == Some(board.config.probe) && c.cpu == Some(board.config.expectedCpu)
    ensures |ReadinessChecks(board, c)| == 7
  {
    var checks := ReadinessChecks(board, c);
    assert |checks| == 7;
    assert AllPassed(checks) <==>
      checks[0].passed && checks[1].passed && checks[2].passed && checks[3].passed && checks[4].passed && checks[5].passed && checks[6].passed;
  }

  // ---------------------------------------------------------------- quantitative readiness

  predicate RunningState(t: Target) {
    t.powered == Known(true) && t.running == Known(true) && t.halted == Known(false)
  }

  predicate QuantitativelyReady(h: Histogram) {
    && RunningState(h.before) && RunningState(h.after)
    && h.cleanup && h.sampleRate.Some? && 0 < h.sampleRate.value
    && 100 <= h.inScopeHits && 100_000_000 <= h.duration && h.snoopFailures == 0
    && (h.chosen.Realtime? || (h.retained.Some? && 90.0 <= h.retained.value))
  }

  predicate MeetsPolicy(h: Histogram, p: Policy) {
    && p.minHits <= h.inScopeHits && p.minDuration <= h.duration && h.snoopFailures <= p.maxSnoopFailures
    && (h.chosen.Realtime? || p.minRetained <= if h.retained.Some? then h.retained.value else -1.0)
  }

  /** The separately written gates agree: readiness is the audited heatmap's policy, a settled capture,
      and a snoop count that is not negative. */
  lemma {:induction false} ReadyMeetsAuditedPolicy(h: Histogram)
    ensures QuantitativelyReady(h) <==>
      && MeetsPolicy(h, DEFAULT_POLICY)
      && RunningState(h.before) && RunningState(h.after) && h.cleanup && h.sampleRate.Some? && 0 < h.sampleRate.value
      && 0 <= h.snoopFailures
  {
  }

  // ---------------------------------------------------------------- the run

  datatype Call = PrepareCall | CapabilitiesCall | CaptureCall | IngestCall | AnalyzeCall | SummaryCall | RenderCall

  datatype Ref = Ref(id: string, sha256: string)

  datatype Projection = Projection(artifact: Ref, statistical: bool, diagnosticOnly: bool)

  datatype Summary = Summary(policy: Option<Policy>, statistical: bool, diagnosticOnly: bool, denominator: int)

  /** Every answer of Host and sidecar, each None when its own checks reject it. `capabilities` is None
      when the command fails; `audited` says that the audit of the Host Session accepts, which fixes the
      heatmap's policy to the default. */
  datatype Answers = Answers(
    prepared: Option<(string, string)>, capabilities: Option<Capabilities>, captured: Option<(Histogram, string)>,
    ingested: Option<(Ref, Ref)>, analysis: Option<Projection>, summary: Option<Summary>, rendered: Option<Projection>, audited: bool)

  function CapabilitiesIn(a: Answers): Capabilities {
    if a.capabilities.Some? then a.capabilities.value else UNAVAILABLE
  }

  function IdentityOf(board: Board, c: Capabilities): Identity {
    var observed := if c.probe.Some? && Sha256(c.probe.value) then c.probe else None;
    Identity(board.config.mcuFamily, board.config.probeId, observed.Some?,
             if board.Pinned? then Some(board.config.probe) else None, observed, observed.Some?)
  }

  function Early(board: Board, session: string, policy: MethodPolicy, a: Answers, status: Status, checks: seq<Check>): Receipt
    requires a.prepared.Some?
  {
    var c := CapabilitiesIn(a);
    Receipt(board.config.boardId, session, status, board.config.requestSha, a.prepared.value.1, c, a.prepared.value.0, policy,
            IdentityOf(board, c), checks, [], None, None, None, None, None, true, false)
  }

  function Captured(early: Receipt, h: Histogram): Receipt {
    early.(endpoint := Some(h.endpoint), selected := Some(h.chosen), before := Some(h.before), after := Some(h.after),
           statistical := true, diagnosticOnly := true)
  }

  /** What a run that stops short of a PASS writes; an early stop has no histogram to show. */
  function Stopped(board: Board, session: string, policy: MethodPolicy, a: Answers, status: Status, checks: seq<Check>): (r: Receipt)
    requires a.prepared.Some? && !status.Pass?
    ensures !r.status.Pass?
  {
    Early(board, session, policy, a, status, checks)
  }

  function Failed(
      board: Board, session: string, policy: MethodPolicy, a: Answers, h: Histogram, checks: seq<Check>, shown: Option<Policy>): (r: Receipt)
    requires a.prepared.Some?
    ensures !r.status.Pass?
  {
    Captured(Early(board, session, policy, a, Fail, checks), h).(policy := shown)
  }

  predicate SameIdentity(board: Board, c: Capabilities, h: Histogram) {
    && h.endpoint == board.config.endpoint && c.endpoint == Some(h.endpoint)
    && h.software == board.config.software && c.software == Some(h.software)
    && h.cpu == board.config.expectedCpu && c.cpu == Some(h.cpu)
  }

  predicate Sufficient(h: Histogram, a: Answers)
    requires a.analysis.Some? && a.summary.Some? && a.rendered.Some?
  {
    && a.analysis.value.statistical && a.analysis.value.diagnosticOnly
    && a.summary.value.statistical && a.summary.value.diagnosticOnly
    && a.rendered.value.statistical && a.rendered.value.diagnosticOnly
    && a.summary.value.denominator == h.inScopeHits
    && a.summary.value.policy == Some(DEFAULT_POLICY) && MeetsPolicy(h, DEFAULT_POLICY)
  }

  function PassBindings(a: Answers): seq<Binding>
    requires a.ingested.Some? && a.analysis.Some? && a.rendered.Some?
  {
    [Binding(CaptureReceipt, a.ingested.value.1.id, a.ingested.value.1.sha256),
     Binding(HistogramArtifact, a.ingested.value.0.id, a.ingested.value.0.sha256),
     Binding(AddressHeatmap, a.analysis.value.artifact.id, a.analysis.value.artifact.sha256),
     Binding(Svg, a.rendered.value.artifact.id, a.rendered.value.artifact.sha256)]
  }

  function PassReceipt(board: Board, session: string, policy: MethodPolicy, a: Answers): Receipt
    requires a.prepared.Some? && a.captured.Some? && a.ingested.Some? && a.analysis.Some? && a.rendered.Some?
  {
    var checks := ReadinessChecks(board, CapabilitiesIn(a)) + [Check(QuantitativePolicy, true)];
    Captured(Early(board, session, policy, a, Pass, checks), a.captured.value.0)
      .(bindings := PassBindings(a), policy := Some(DEFAULT_POLICY))
  }

  predicate ValidRef(r: Ref) {
    r.id != "" && Sha256(r.sha256)
  }

  predicate Prepared(a: Answers) {
    a.prepared.Some? && Operation(a.prepared.value.0) && Sha256(a.prepared.value.1)
  }

  /** The whole evidence for a PASS, step by step. */
  predicate EvidenceSuffices(board: Board, policy: MethodPolicy, a: Answers) {
    && Prepared(a) && CaptureAllowed(board, CapabilitiesIn(a), policy)
    && CapturedHere(board, policy, a) && IngestedReady(a) && HostProjects(a) && Sufficient(a.captured.value.0, a)
  }

  /** The capture used an allowed method on the configured target. */
  predicate CapturedHere(board: Board, policy: MethodPolicy, a: Answers) {
    && a.captured.Some? && (a.captured.value.0.chosen.StopAndGo? ==> policy.AllowStopAndGo?)
    && SameIdentity(board, CapabilitiesIn(a), a.captured.value.0)
  }

  /** The capture was ingested as it is, and is ready. */
  predicate IngestedReady(a: Answers)
    requires a.captured.Some?
  {
    && a.ingested.Some? && ValidRef(a.ingested.value.0) && ValidRef(a.ingested.value.1)
    && a.ingested.value.0.sha256 == a.captured.value.1
    && QuantitativelyReady(a.captured.value.0)
  }

  /** Analysis, summary and rendering answered, and the Session they left was audited. */
  predicate HostProjects(a: Answers) {
    && a.analysis.Some? && ValidRef(a.analysis.value.artifact) && a.summary.Some?
    && a.rendered.Some? && ValidRef(a.rendered.value.artifact) && a.audited
  }

  /** The bounds that the run itself does not check. */
  predicate BoundedInputs(board: Board, session: string, a: Answers)
    requires a.captured.Some?
  {
    BoundedIdentifiers(board, session, a) && a.captured.value.0.before.exact && a.captured.value.0.after.exact
  }

  predicate BoundedIdentifiers(board: Board, session: string, a: Answers) {
    && NonBlank(board.config.boardId) && |board.config.boardId| <= MAX_TEXT && PortableSession(session)
    && NonBlank(board.config.mcuFamily) && NonBlank(board.config.probeId)
    && Sha256(board.config.requestSha) && Sha256(board.config.probe) && Sha256(board.config.endpoint)
    && CapabilitiesIn(a).size <= MAX_CAPABILITIES
  }

  class Runner {
    var calls: seq<Call>

    constructor ()
      ensures calls == []
    {
      calls := [];
    }

    /** One run. None stands for a raised error; every returned receipt has been validated. */
    method Run(board: Board, session: string, policy: MethodPolicy, a: Answers) returns (receipt: Option<Receipt>)
      modifies this
      ensures old(calls) <= calls
      ensures CaptureCall in calls[|old(calls)|..] <==> Prepared(a) && CaptureAllowed(board, CapabilitiesIn(a), policy)
      ensures receipt.Some? ==> ValidReceipt(receipt.value)
      ensures receipt.Some? && receipt.value.status.Pass? <==>
                EvidenceSuffices(board, policy, a) && ValidReceipt(PassReceipt(board, session, policy, a))
      ensures receipt.Some? && receipt.value.status.Pass? ==> receipt.value == PassReceipt(board, session, policy, a)
    {
      ghost var before := calls;
      calls := calls + [PrepareCall];
      if !Prepared(a) { return None; }
      calls := calls + [CapabilitiesCall];
      var c := CapabilitiesIn(a);
      var checks := ReadinessChecks(board, c);
      if !board.Pinned? { return Build(Stopped(board, session, policy, a, Fail, checks + [Check(SamplingBoardConfig, false)])); }
      if !AllPassed(checks) {
        return Build(Stopped(board, session, policy, a, StatusOf(checks), checks));
      }
      if c.supported.None? { return None; }
      if !MethodOffered(c, policy) {
        return Build(Stopped(board, session, policy, a, NotReady, checks + [Check(MethodAvailable, false)]));
      }
      calls := calls + [CaptureCall];
      receipt := AfterCapture(board, session, policy, a, checks);
      assert calls[|before|..][2] == CaptureCall;
    }

    method AfterCapture(board: Board, session: string, policy: MethodPolicy, a: Answers, checks: seq<Check>) returns (receipt: Option<Receipt>)
      requires Prepared(a) && CaptureAllowed(board, CapabilitiesIn(a), policy) && checks == ReadinessChecks(board, CapabilitiesIn(a))
      modifies this
      ensures old(calls) <= calls
      ensures receipt.Some? ==> ValidReceipt(receipt.value)
      ensures receipt.Some? && receipt.value.status.Pass? <==>
                EvidenceSuffices(board, policy, a) && ValidReceipt(PassReceipt(board, session, policy, a))
      ensures receipt.Some? && receipt.value.status.Pass? ==> receipt.value == PassReceipt(board, session, policy, a)
    {
      if a.captured.None? { return None; }
      var h := a.captured.value.0;
      if h.chosen.StopAndGo? && policy.RealtimeOnly? { return None; }
      if !SameIdentity(board, CapabilitiesIn(a), h) {
        return Build(Failed(board, session, policy, a, h, checks + [Check(HistogramIdentity, false)], None));
      }
      receipt := AfterIdentity(board, session, policy, a, checks);
    }

    method AfterIdentity(board: Board, session: string, policy: MethodPolicy, a: Answers, checks: seq<Check>) returns (receipt: Option<Receipt>)
      requires a.prepared.Some? && a.captured.Some?
      modifies this
      ensures old(calls) <= calls
      ensures receipt.Some? ==> ValidReceipt(receipt.value)
      ensures receipt.Some? && receipt.value.status.Pass? <==>
                IngestedReady(a) && HostProjects(a) && Sufficient(a.captured.value.0, a)
                && ValidReceipt(PassReceipt(board, session, policy, a))
      ensures receipt.Some? && receipt.value.status.Pass? ==> receipt.value == PassReceipt(board, session, policy, a)
    {
      var h := a.captured.value.0;
      calls := calls + [IngestCall];
      if a.ingested.None? || !ValidRef(a.ingested.value.0) || !ValidRef(a.ingested.value.1) { return None; }
      if a.ingested.value.0.sha256 != a.captured.value.1 { return None; }
      if !QuantitativelyReady(h) {
        return Build(Failed(board, session, policy, a, h, checks + [Check(QuantitativePolicy, false)], None));
      }
      receipt := AfterReadiness(board, session, policy, a, checks);
    }

    method AfterReadiness(board: Board, session: string, policy: MethodPolicy, a: Answers, checks: seq<Check>) returns (receipt: Option<Receipt>)
      requires a.prepared.Some? && a.captured.Some? && a.ingested.Some?
      modifies this
      ensures old(calls) <= calls
      ensures receipt.Some? ==> ValidReceipt(receipt.value)
      ensures receipt.Some? && receipt.value.status.Pass? <==>
                HostProjects(a) && Sufficient(a.captured.value.0, a) && ValidReceipt(PassReceipt(board, session, policy, a))
      ensures receipt.Some? && receipt.value.status.Pass? ==> receipt.value == PassReceipt(board, session, policy, a)
    {
      var h := a.captured.value.0;
      calls := calls + [AnalyzeCall];
      if a.analysis.None? || !ValidRef(a.analysis.value.artifact) { return None; }
      calls := calls + [SummaryCall];
      if a.summary.None? { return None; }
      calls := calls + [RenderCall];
      if a.rendered.None? || !ValidRef(a.rendered.value.artifact) { return None; }
      if !a.audited { return None; }
      if !Sufficient(h, a) {
        return Build(Failed(board, session, policy, a, h, checks + [Check(QuantitativePolicy, false)], a.summary.value.policy));
      }
      return Build(PassReceipt(board, session, policy, a));
    }
  }

  /** Which failure the first unmet readiness check is. */
  function StatusOf(checks: seq<Check>): Status
    requires |checks| == 7
  {
    if !checks[4].passed || !checks[5].passed then Fail
    else if checks[1].passed && !checks[6].passed then Fail
    else NotReady
  }

  function Build(r: Receipt): Option<Receipt> {
    if ValidReceipt(r) then Some(r) else None
  }

  // ---------------------------------------------------------------- what a PASS proves

  /** Given sufficient evidence, the PASS document passes its validator exactly when the identifiers and
      capabilities are in bounds and both target states carry nothing else. */
  lemma {:induction false} PassDocumentValidates(board: Board, session: string, policy: MethodPolicy, a: Answers)
    requires EvidenceSuffices(board, policy, a)
    ensures ValidReceipt(PassReceipt(board, session, policy, a)) <==> BoundedInputs(board, session, a)
  {
    ReadinessMeans(board, CapabilitiesIn(a));
    var r := PassReceipt(board, session, policy, a);
    assert AllPassed(r.checks);
    var h := a.captured.value.0;
    assert h.before == RUNNING_TARGET <==> h.before.exact;
    assert h.after == RUNNING_TARGET <==> h.after.exact;
  }

  /** The Host's own reading of a target state: the three booleans and nothing else, and no contradiction. */
  predicate StrictTarget(t: Target) {
    && t.exact && t.powered.Known? && t.running.Known? && t.halted.Known?
    && !(t.running.value && t.halted.value) && (t.powered.value || (!t.running.value && !t.halted.value))
  }

  /** This repository's Host ingests only a histogram that it reads strictly, and reports the digest of
      the bytes it read; equal digests stand for equal bytes. */
  predicate StrictHost(a: Answers) {
    a.captured.Some? && a.ingested.Some? && a.ingested.value.0.sha256 == a.captured.value.1 ==>
      StrictTarget(a.captured.value.0.before) && StrictTarget(a.captured.value.0.after)
  }

  /** With this repository's Host no target state is left to spoil the PASS document: sufficient evidence
      gives a valid receipt exactly when the configured identifiers and the capabilities are in bounds. */
  lemma {:induction false} StrictHostNeverSpoilsAPass(board: Board, session: string, policy: MethodPolicy, a: Answers)
    requires EvidenceSuffices(board, policy, a) && StrictHost(a)
    ensures ValidReceipt(PassReceipt(board, session, policy, a)) <==> BoundedIdentifiers(board, session, a)
  {
    PassDocumentValidates(board, session, policy, a);
  }

  /** A PASS therefore pins probe, endpoint and CPU, saw a running target throughout, and meets the
      policy that the audited heatmap carries. */
  lemma {:induction false} PassMeansPinnedAndQuantitative(board: Board, session: string, policy: MethodPolicy, a: Answers)
    requires EvidenceSuffices(board, policy, a) && ValidReceipt(PassReceipt(board, session, policy, a))
    ensures var r, h := PassReceipt(board, session, policy, a), a.captured.value.0;
            && board.Pinned? && r.identity.observed == Some(board.config.probe) && r.capabilities.probe == Some(board.config.probe)
            && r.endpoint == Some(board.config.endpoint) && h.cpu == board.config.expectedCpu
            && MeetsPolicy(h, r.policy.value) && r.before == Some(RUNNING_TARGET) && r.after == Some(RUNNING_TARGET)
            && (r.selected == Some(StopAndGo) ==> policy.AllowStopAndGo?)
  {
    ReadinessMeans(board, CapabilitiesIn(a));
    ReadyMeetsAuditedPolicy(a.captured.value.0);
  }

  /** The policy gate on the Host summary can never be what turns a ready capture into a FAIL. */
  lemma {:induction false} ReadyNeverFailsThePolicyGate(h: Histogram, a: Answers)
    requires QuantitativelyReady(h) && a.analysis.Some? && a.summary.Some? && a.rendered.Some?
    ensures Sufficient(h, a) <==>
      && a.analysis.value.statistical && a.analysis.value.diagnosticOnly
      && a.summary.value.statistical && a.summary.value.diagnosticOnly
      && a.rendered.value.statistical && a.rendered.value.diagnosticOnly
      && a.summary.value.denominator == h.inScopeHits && a.summary.value.policy == Some(DEFAULT_POLICY)
  {
    ReadyMeetsAuditedPolicy(h);
  }
}
