/** Deployment qualification: ordered publication of immutable evidence, and the reader that admits only
    complete evidence. */
module Qualification {
  import opened Outcomes
  import opened SessionCatalog

  const MAX_POLICY_BYTES := 16384
  const MAX_HIL_BYTES := 4194304
  const MAX_QUALIFICATION_BYTES := 65536
  const MAX_ADMISSION_BYTES := 16384
  const MAX_RECOVERY_BYTES := 65536

  // ---------------------------------------------------------------- documents

  datatype Profile = Profile(adapter: string, version: string, firmware: string, implementation: string, claim: Option<string>, rest: string)
  datatype Policy = Policy(
    id: string, candidate: string, qualified: string, qualification: string, hil: string,
    firmware: string, t32mcp: string, scenarios: seq<string>, rest: string)
  datatype Binding = Binding(sha256: string, document: string)
  datatype Hil = Hil(recovery: Option<Binding>, rest: string)
  datatype Receipt = Receipt(adapter: string, version: string, candidate: string, hil: string, rest: string)

  datatype Snapshot = Snapshot(
    policyId: string, policySha: string, hilSha: string, qualificationSha: string, candidateSha: string, qualifiedSha: string,
    implementation: string, firmware: string, t32mcp: string, scenarios: seq<string>)

  /** The parts of the deployment that are fixed outside a Session: hashing, document formats, the
      compiled profiles, the trust store, the remaining rules of the qualification validator, and the
      admission rules of the adapter catalog. */
  datatype Env = Env(
    digest: string -> string,
    trusted: string -> Option<string>,
    parsePolicy: string -> Option<Policy>, parseHil: string -> Option<Hil>, parseReceipt: string -> Option<Receipt>,
    parseSnapshot: string -> Option<Snapshot>, encodeSnapshot: Snapshot -> string, parseRecovery: string -> Option<string>,
    profiles: seq<Profile>, candidateSha: Profile -> string, profileSha: Profile -> string,
    otherRules: (Policy, Profile, string, string) -> bool, admits: (Profile, string) -> bool)

  // ---------------------------------------------------------------- profile selection

  function Select(profiles: seq<Profile>, p: Profile -> bool): seq<Profile> {
    if profiles == [] then []
    else Select(profiles[..|profiles| - 1], p) + if p(profiles[|profiles| - 1]) then [profiles[|profiles| - 1]] else []
  }

  /** The one profile that fits; none when no profile or several profiles do. */
  function OnlyMatch(profiles: seq<Profile>, p: Profile -> bool): Option<Profile> {
    var matches := Select(profiles, p);
    if |matches| == 1 then Some(matches[0]) else None
  }

  lemma {:induction false} SelectFinds(profiles: seq<Profile>, p: Profile -> bool)
    ensures |Select(profiles, p)| == 0 <==> forall i :: 0 <= i < |profiles| ==> !p(profiles[i])
    ensures |Select(profiles, p)| == 1 <==> exists i :: FitsAlone(profiles, p, i)
    ensures forall i :: FitsAlone(profiles, p, i) ==> Select(profiles, p) == [profiles[i]]
  {
    if profiles != [] {
      var n := |profiles| - 1;
      var init := profiles[..n];
      SelectFinds(init, p);
      forall i ensures i < n && !p(profiles[n]) ==> (FitsAlone(profiles, p, i) <==> FitsAlone(init, p, i)) {
        assert forall j :: 0 <= j < n ==> profiles[j] == init[j];
      }
      if FitsAlone(profiles, p, n) {
        assert forall j :: 0 <= j < n ==> !p(init[j]);
      }
      if p(profiles[n]) && |Select(init, p)| == 0 {
        assert FitsAlone(profiles, p, n);
      }
      forall i ensures FitsAlone(profiles, p, i) && p(profiles[n]) ==> i == n {}
    }
  }

  ghost predicate FitsAlone(profiles: seq<Profile>, p: Profile -> bool, i: int) {
    0 <= i < |profiles| && p(profiles[i]) && forall j :: 0 <= j < |profiles| && j != i ==> !p(profiles[j])
  }

  /** A profile is selected exactly when it is the only compiled one that fits. */
  lemma {:induction false} SelectionIsUnambiguous(profiles: seq<Profile>, p: Profile -> bool, chosen: Profile)
    ensures OnlyMatch(profiles, p) == Some(chosen) <==> exists i :: FitsAlone(profiles, p, i) && profiles[i] == chosen
  {
    SelectFinds(profiles, p);
  }

  function ProfileForFirmware(env: Env, sha256: string): Option<Profile> {
    OnlyMatch(env.profiles, (p: Profile) => p.firmware == sha256)
  }

  function ProfileForReceipt(env: Env, r: Receipt): Option<Profile> {
    OnlyMatch(env.profiles, (p: Profile) => p.adapter == r.adapter && p.version == r.version && env.candidateSha(p) == r.candidate)
  }

  // ---------------------------------------------------------------- the qualification validator

  /** The policy pins the bytes of both receipts, and the digests of the candidate and of the profile
      that claims the qualification. */
  predicate Validates(policy: Policy, candidate: Profile, qualificationBytes: string, hilBytes: string, env: Env) {
    && env.parseReceipt(qualificationBytes).Some?
    && env.candidateSha(candidate) == policy.candidate
    && env.profileSha(Claimed(candidate, qualificationBytes, env)) == policy.qualified
    && policy.firmware == candidate.firmware
    && env.digest(qualificationBytes) == policy.qualification && env.digest(hilBytes) == policy.hil
    && env.parseReceipt(qualificationBytes).value.hil == env.digest(hilBytes)
    && env.otherRules(policy, candidate, qualificationBytes, hilBytes)
  }

  // ---------------------------------------------------------------- the admission snapshot

  function Claimed(candidate: Profile, qualification: string, env: Env): Profile {
    candidate.(claim := Some(env.digest(qualification)))
  }

  function SnapshotOf(policy: Policy, candidate: Profile, policyBytes: string, hilBytes: string, qualificationBytes: string, env: Env): Snapshot {
    Snapshot(
      policy.id, env.digest(policyBytes), env.digest(hilBytes), env.digest(qualificationBytes),
      env.candidateSha(candidate), env.profileSha(Claimed(candidate, qualificationBytes, env)),
      candidate.implementation, candidate.firmware, policy.t32mcp, policy.scenarios)
  }

  // ---------------------------------------------------------------- provisioning arguments and their plan

  datatype Status = Created | Capturing | Later

  /** Bytes that the caller staged; the policy comes from the trust store. */
  datatype Args = Args(policyId: string, qualification: string, hil: string, recovery: Option<string>)

  /** Everything that was checked before the first publication. */
  datatype Plan = Plan(policy: string, hil: string, qualification: string, recovery: Option<string>, snapshot: string, candidate: Profile)

  predicate ControllerIdle(c: Catalog) {
    forall a :: a in c ==> !a.id.Controller?
  }

  /** The registered firmware, when its identity is the fixed one and it selects one profile. */
  function Firmware(c: Catalog, env: Env): Option<Artifact> {
    var a :- Find(c, FirmwareId);
    if a.form.FirmwareForm? && a.inputs == [] && ProfileForFirmware(env, a.sha256).Some? then Some(a) else None
  }

  function MatchingRecovery(hil: Hil, staged: Option<string>, env: Env): Option<Option<string>> {
    match (hil.recovery, staged)
    case (None, None) => Some(None)
    case (None, Some(_)) => None
    case (Some(_), None) => None
    case (Some(binding), Some(bytes)) =>
      if |bytes| <= MAX_RECOVERY_BYTES && BindsRecovery(binding, bytes, env) then Some(Some(bytes)) else None
  }

  predicate BindsRecovery(binding: Binding, bytes: string, env: Env) {
    env.parseRecovery(bytes) == Some(binding.document) && env.digest(bytes) == binding.sha256
  }

  function Prepare(c: Catalog, status: Status, args: Args, env: Env): Option<Plan> {
    if status.Later? || !ControllerIdle(c) then None else PrepareFor(Firmware(c, env), args, env)
  }

  function PrepareFor(registered: Option<Artifact>, args: Args, env: Env): Option<Plan> {
    var policyBytes :- env.trusted(args.policyId);
    if MAX_POLICY_BYTES < |policyBytes| || MAX_QUALIFICATION_BYTES < |args.qualification| || MAX_HIL_BYTES < |args.hil| then None
    else
      var policy :- env.parsePolicy(policyBytes);
      var receipt :- env.parseReceipt(args.qualification);
      var hil :- env.parseHil(args.hil);
      var recovery :- MatchingRecovery(hil, args.recovery, env);
      var candidate :- ProfileForReceipt(env, receipt);
      var firmware :- registered;
      if policy.id != args.policyId || firmware.sha256 != candidate.firmware || firmware.sha256 != policy.firmware
         || !Validates(policy, candidate, args.qualification, args.hil, env) then None
      else
        var snapshot := SnapshotOf(policy, candidate, policyBytes, args.hil, args.qualification, env);
        Some(Plan(policyBytes, args.hil, args.qualification, recovery, env.encodeSnapshot(snapshot), candidate))
  }

  function Document(id: Id, form: Form, inputs: seq<Id>, content: string, env: Env): Artifact {
    Artifact(id, form, inputs, content, env.digest(content))
  }

  function RecoveryInput(p: Plan): seq<Id> {
    if p.recovery.Some? then [RecoveryId] else []
  }

  function PolicyStep(p: Plan, env: Env): Artifact {
    Document(PolicyId, PolicyForm, [], p.policy, env)
  }

  function RecoveryStep(bytes: string, env: Env): Artifact {
    Document(RecoveryId, RecoveryForm, [], bytes, env)
  }

  function HilStep(p: Plan, env: Env): Artifact {
    Document(HilId, HilForm, [], p.hil, env)
  }

  function QualificationStep(p: Plan, env: Env): Artifact {
    Document(QualificationId, QualificationForm, [PolicyId, HilId] + RecoveryInput(p), p.qualification, env)
  }

  function SnapshotStep(p: Plan, env: Env): Artifact {
    Document(SnapshotId, SnapshotForm, [PolicyId, HilId, QualificationId, FirmwareId] + RecoveryInput(p), p.snapshot, env)
  }

  /** The publications in order. */
  function Steps(p: Plan, env: Env): seq<Artifact> {
    match p.recovery
    case None => [PolicyStep(p, env), HilStep(p, env), QualificationStep(p, env), SnapshotStep(p, env)]
    case Some(bytes) =>
      [PolicyStep(p, env), RecoveryStep(bytes, env), HilStep(p, env), QualificationStep(p, env), SnapshotStep(p, env)]
  }

  // ---------------------------------------------------------------- publication

  datatype Fault = Refused | Conflict | Crashed | NotAdmitted

  /** An existing artifact stands for a publication when everything but the bytes agrees, and the bytes
      agree in their digest. */
  predicate StandsFor(existing: Artifact, a: Artifact) {
    existing.form == a.form && existing.inputs == a.inputs && existing.sha256 == a.sha256
  }

  datatype Progress = Progress(catalog: Catalog, survives: nat, fault: Option<Fault>)

  /** One publication, when the process survives only so many further ones. */
  function Publish(c: Catalog, survives: nat, a: Artifact): Progress {
    match Find(c, a.id)
    case Some(existing) => Progress(c, survives, if StandsFor(existing, a) then None else Some(Conflict))
    case None => if survives == 0 then Progress(c, 0, Some(Crashed)) else Progress(c + [a], survives - 1, None)
  }

  /** Publishing the steps from i on, up to the first that fails. */
  function PublishFrom(c: Catalog, survives: nat, steps: seq<Artifact>, i: nat): Progress
    requires i <= |steps|
    decreases |steps| - i
  {
    if i == |steps| then Progress(c, survives, None)
    else
      var p := Publish(c, survives, steps[i]);
      if p.fault.Some? then p else PublishFrom(p.catalog, p.survives, steps, i + 1)
  }

  class Deployment {
    var catalog: Catalog
    var survives: nat
    const env: Env

    constructor (catalog: Catalog, survives: nat, env: Env)
      ensures this.catalog == catalog && this.survives == survives && this.env == env
    {
      this.catalog, this.survives, this.env := catalog, survives, env;
    }

    /** Publishes one artifact, or finds it already published. */
    method EnsureOrIngest(a: Artifact) returns (r: Result<Artifact, Fault>)
      modifies this
      ensures Progress(catalog, survives, if r.Ok? then None else Some(r.fault)) == Publish(old(catalog), old(survives), a)
      ensures r.Ok? ==> Find(catalog, a.id) == Some(r.value) && StandsFor(r.value, a)
    {
      var existing := Find(catalog, a.id);
      if existing.Some? {
        if !StandsFor(existing.value, a) { return Raised(Conflict); }
        return Ok(existing.value);
      }
      if survives == 0 { return Raised(Crashed); }
      FindAfterAppend(catalog, [a], a.id);
      survives := survives - 1;
      catalog := catalog + [a];
      return Ok(a);
    }

    /** One provisioning attempt. */
    method Provision(status: Status, args: Args) returns (r: Result<Artifact, Fault>)
      modifies this
      ensures var plan := Prepare(old(catalog), status, args, env);
              if plan.None? then catalog == old(catalog) && survives == old(survives) && r == Raised(Refused)
              else
                var progress := PublishFrom(old(catalog), old(survives), Steps(plan.value, env), 0);
                && catalog == progress.catalog && survives == progress.survives
                && (r.Ok? <==> progress.fault.None? && Load(progress.catalog, env).Some?)
    {
      var prepared := Prepare(catalog, status, args, env);
      if prepared.None? { return Raised(Refused); }
      r := PublishPlan(prepared.value);
      if r.Raised? { return; }
      var admission := Load(catalog, env);
      if admission.None? { return Raised(NotAdmitted); }
    }

    method PublishPlan(plan: Plan) returns (r: Result<Artifact, Fault>)
      modifies this
      ensures Progress(catalog, survives, if r.Ok? then None else Some(r.fault))
           == PublishFrom(old(catalog), old(survives), Steps(plan, env), 0)
    {
      ghost var steps, i := Steps(plan, env), 0;
      StepsInOrder(plan, env);
      r := EnsureOrIngest(PolicyStep(plan, env));
      if r.Raised? { return; }
      i := i + 1;
      if plan.recovery.Some? {
        r := EnsureOrIngest(RecoveryStep(plan.recovery.value, env));
        if r.Raised? { return; }
        i := i + 1;
      }
      assert PublishFrom(old(catalog), old(survives), steps, 0) == PublishFrom(catalog, survives, steps, i);
      r := PublishRest(plan, i);
    }

    method PublishRest(plan: Plan, ghost i: nat) returns (r: Result<Artifact, Fault>)
      requires i == if plan.recovery.Some? then 2 else 1
      requires i <= |Steps(plan, env)|
      modifies this
      ensures Progress(catalog, survives, if r.Ok? then None else Some(r.fault))
           == PublishFrom(old(catalog), old(survives), Steps(plan, env), i)
    {
      ghost var steps := Steps(plan, env);
      StepsInOrder(plan, env);
      r := EnsureOrIngest(HilStep(plan, env));
      if r.Raised? { return; }
      assert PublishFrom(old(catalog), old(survives), steps, i) == PublishFrom(catalog, survives, steps, i + 1);
      r := EnsureOrIngest(QualificationStep(plan, env));
      if r.Raised? { return; }
      assert PublishFrom(old(catalog), old(survives), steps, i) == PublishFrom(catalog, survives, steps, i + 2);
      PublishLast(catalog, survives, steps);
      r := EnsureOrIngest(SnapshotStep(plan, env));
    }
  }

  lemma {:induction false} PublishLast(c: Catalog, survives: nat, steps: seq<Artifact>)
    requires steps != []
    ensures PublishFrom(c, survives, steps, |steps| - 1) == Publish(c, survives, steps[|steps| - 1])
  {
    var p := Publish(c, survives, steps[|steps| - 1]);
    assert p.fault.None? ==> PublishFrom(p.catalog, p.survives, steps, |steps|) == p;
  }

  lemma {:induction false} StepsInOrder(p: Plan, env: Env)
    ensures var steps, n := Steps(p, env), if p.recovery.Some? then 2 else 1;
            && |steps| == n + 3 && steps[0] == PolicyStep(p, env)
            && (p.recovery.Some? ==> steps[1] == RecoveryStep(p.recovery.value, env))
            && steps[n] == HilStep(p, env) && steps[n + 1] == QualificationStep(p, env) && steps[n + 2] == SnapshotStep(p, env)
  {
  }

  // ---------------------------------------------------------------- the reader

  datatype Admission = Admission(profile: Profile, provenance: seq<Artifact>, scenarios: seq<string>)

  predicate HasIdentity(a: Artifact, step: Artifact) {
    a.id == step.id && a.form == step.form
  }

  /** The bytes of an artifact, when they fit the limit and still have the digest of the catalog. */
  function Read(a: Artifact, maximum: nat, env: Env): Option<string> {
    if |a.content| <= maximum && env.digest(a.content) == a.sha256 then Some(a.content) else None
  }

  function LoadCandidate(c: Catalog, env: Env): Option<Admission> {
    if Contains(c, RecoveryId) then None
    else
      var firmware :- Firmware(c, env);
      var profile :- ProfileForFirmware(env, firmware.sha256);
      Some(Admission(profile, [], ["normal"]))
  }

  function LoadRecovery(c: Catalog, hil: Hil, env: Env): Option<Option<string>> {
    match (hil.recovery, Find(c, RecoveryId))
    case (None, None) => Some(None)
    case (None, Some(_)) => None
    case (Some(_), None) => None
    case (Some(binding), Some(a)) =>
      var bytes :- Read(a, MAX_RECOVERY_BYTES, env);
      if HasIdentity(a, RecoveryStep(bytes, env)) && a.inputs == [] && BindsRecovery(binding, bytes, env) then Some(Some(bytes)) else None
  }

  function LoadQualified(
      c: Catalog, policyA: Artifact, hilA: Artifact, qualificationA: Artifact, snapshotA: Artifact, env: Env): Option<Admission>
  {
    var policyBytes :- Read(policyA, MAX_POLICY_BYTES, env);
    var hilBytes :- Read(hilA, MAX_HIL_BYTES, env);
    var qualificationBytes :- Read(qualificationA, MAX_QUALIFICATION_BYTES, env);
    var snapshotBytes :- Read(snapshotA, MAX_ADMISSION_BYTES, env);
    var policy :- env.parsePolicy(policyBytes);
    var hil :- env.parseHil(hilBytes);
    var receipt :- env.parseReceipt(qualificationBytes);
    var snapshot :- env.parseSnapshot(snapshotBytes);
    var candidate :- ProfileForReceipt(env, receipt);
    var firmware :- Firmware(c, env);
    var recovery :- LoadRecovery(c, hil, env);
    var plan := Plan(policyBytes, hilBytes, qualificationBytes, recovery, snapshotBytes, candidate);
    if !HasIdentity(policyA, PolicyStep(plan, env)) || !HasIdentity(hilA, HilStep(plan, env))
       || !HasIdentity(qualificationA, QualificationStep(plan, env)) || !HasIdentity(snapshotA, SnapshotStep(plan, env))
       || policyA.inputs != [] || hilA.inputs != []
       || qualificationA.inputs != QualificationStep(plan, env).inputs || snapshotA.inputs != SnapshotStep(plan, env).inputs
       || firmware.sha256 != candidate.firmware
       || !Validates(policy, candidate, qualificationBytes, hilBytes, env)
       || snapshot != SnapshotOf(policy, candidate, policyBytes, hilBytes, qualificationBytes, env)
       || !env.admits(Claimed(candidate, qualificationBytes, env), qualificationBytes)
    then None
    else
      Some(Admission(
        Claimed(candidate, qualificationBytes, env),
        [policyA, hilA, qualificationA, snapshotA] + (if recovery.Some? then [Find(c, RecoveryId).value] else []),
        snapshot.scenarios))
  }

  function Load(c: Catalog, env: Env): Option<Admission> {
    match (Find(c, PolicyId), Find(c, HilId), Find(c, QualificationId), Find(c, SnapshotId))
    case (None, None, None, None) => LoadCandidate(c, env)
    case (Some(p), Some(h), Some(q), Some(s)) => LoadQualified(c, p, h, q, s, env)
    case _ => None
  }
}
