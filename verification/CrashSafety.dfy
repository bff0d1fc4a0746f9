/** Provisioning under crashes and retries: what every reachable catalog keeps, and when it is admitted. */
module CrashSafety {
  import opened Outcomes
  import opened SessionCatalog
  import opened Qualification

  predicate Qualifying(id: Id) {
    id in {PolicyId, HilId, RecoveryId, QualificationId, SnapshotId}
  }

  /** No deployment evidence has been published yet. */
  ghost predicate Fresh(c: Catalog) {
    forall id :: Qualifying(id) ==> !Contains(c, id)
  }

  ghost predicate OnlyQualificationIds(more: Catalog) {
    forall i :: 0 <= i < |more| ==> Qualifying(more[i].id)
  }

  // ---------------------------------------------------------------- the checks before publication are stable

  lemma {:induction false} FirmwareIsStable(c: Catalog, more: Catalog, env: Env)
    requires OnlyQualificationIds(more)
    ensures Firmware(c + more, env) == Firmware(c, env)
  {
    FindAfterAppend(c, more, FirmwareId);
    FindFinds(more, FirmwareId);
  }

  lemma {:induction false} ControllerIdleIsStable(c: Catalog, more: Catalog)
    requires OnlyQualificationIds(more)
    ensures ControllerIdle(c + more) <==> ControllerIdle(c)
  {
    assert forall a :: a in c + more <==> a in c || a in more;
  }

  /** Publishing evidence changes nothing that an attempt checks before its first publication. */
  lemma {:induction false} PrepareIsStable(c: Catalog, more: Catalog, status: Status, args: Args, env: Env)
    requires OnlyQualificationIds(more)
    ensures Prepare(c + more, status, args, env) == Prepare(c, status, args, env)
  {
    FirmwareIsStable(c, more, env);
    ControllerIdleIsStable(c, more);
  }

  lemma {:induction false} StepIds(p: Plan, env: Env)
    ensures OnlyQualificationIds(Steps(p, env)) && UniqueIds(Steps(p, env))
  {
    StepsInOrder(p, env);
    var steps := Steps(p, env);
    assert |steps| == 4 || |steps| == 5;
  }

  // ---------------------------------------------------------------- resuming

  function Min(a: nat, b: nat): nat {
    if a <= b then a else b
  }

  ghost predicate Disjoint(c: Catalog, steps: seq<Artifact>) {
    forall i :: 0 <= i < |steps| ==> !Contains(c, steps[i].id)
  }

  lemma {:induction false} StepIsFound(c: Catalog, steps: seq<Artifact>, k: nat, i: nat)
    requires Disjoint(c, steps) && UniqueIds(steps) && k <= |steps| && i < |steps|
    ensures Find(c + steps[..k], steps[i].id) == if i < k then Some(steps[i]) else None
  {
    FindAfterAppend(c, steps[..k], steps[i].id);
    if i < k {
      assert steps[..k][i] == steps[i];
      FindUnique(steps[..k], i);
    } else {
      assert forall j :: 0 <= j < k ==> steps[..k][j].id != steps[i].id;
      FindFinds(steps[..k], steps[i].id);
    }
  }

  lemma {:induction false} PublishAgain(c: Catalog, steps: seq<Artifact>, k: nat, i: nat, s: nat)
    requires Disjoint(c, steps) && UniqueIds(steps) && i <= k <= |steps| && i < |steps|
    ensures Publish(c + steps[..k], s, steps[i]) ==
            if i < k then Progress(c + steps[..k], s, None)
            else if s == 0 then Progress(c + steps[..k], 0, Some(Crashed)) else Progress(c + steps[..k + 1], s - 1, None)
  {
    StepIsFound(c, steps, k, i);
    if i == k { assert c + steps[..k] + [steps[k]] == c + steps[..k + 1]; }
  }

  /** From k published steps, an attempt that survives s more publications ends with min(k + s, n). */
  lemma {:induction false} Resume(c: Catalog, steps: seq<Artifact>, k: nat, i: nat, s: nat)
    requires Disjoint(c, steps) && UniqueIds(steps) && i <= k <= |steps|
    ensures var p := PublishFrom(c + steps[..k], s, steps, i);
            && p.catalog == c + steps[..Min(k + s, |steps|)]
            && (p.fault.None? <==> |steps| <= k + s)
    decreases |steps| - i
  {
    if i < |steps| {
      PublishAgain(c, steps, k, i, s);
      if i < k {
        Resume(c, steps, k, i + 1, s);
      } else if s > 0 {
        Resume(c, steps, k + 1, i + 1, s - 1);
      }
    }
  }

  /** One attempt, complete or cut short by a crash. */
  function Attempt(c: Catalog, status: Status, args: Args, survives: nat, env: Env): Catalog {
    match Prepare(c, status, args, env)
    case None => c
    case Some(plan) => PublishFrom(c, survives, Steps(plan, env), 0).catalog
  }

  function Attempts(c: Catalog, status: Status, args: Args, survivals: seq<nat>, env: Env): Catalog {
    if survivals == [] then c
    else Attempt(Attempts(c, status, args, survivals[..|survivals| - 1], env), status, args, survivals[|survivals| - 1], env)
  }

  function Total(survivals: seq<nat>): nat {
    if survivals == [] then 0 else Total(survivals[..|survivals| - 1]) + survivals[|survivals| - 1]
  }

  lemma {:induction false} AttemptExtends(c: Catalog, status: Status, args: Args, k: nat, s: nat, env: Env, plan: Plan)
    requires Fresh(c) && Prepare(c, status, args, env) == Some(plan) && k <= |Steps(plan, env)|
    ensures var steps := Steps(plan, env);
            Attempt(c + steps[..k], status, args, s, env) == c + steps[..Min(k + s, |steps|)]
  {
    var steps := Steps(plan, env);
    StepIds(plan, env);
    PrepareIsStable(c, steps[..k], status, args, env);
    Resume(c, steps, k, 0, s);
  }

  /** However often provisioning crashes between publications, retrying with the same arguments only
      ever extends one and the same list of publications, and reaches its end. */
  lemma {:induction false} RetryConverges(c: Catalog, status: Status, args: Args, survivals: seq<nat>, env: Env, plan: Plan)
    requires Fresh(c) && Prepare(c, status, args, env) == Some(plan)
    ensures Attempts(c, status, args, survivals, env) == c + Steps(plan, env)[..Min(Total(survivals), |Steps(plan, env)|)]
  {
    if survivals == [] {
      assert c + Steps(plan, env)[..0] == c;
    } else {
      var init, s := survivals[..|survivals| - 1], survivals[|survivals| - 1];
      RetryConverges(c, status, args, init, env, plan);
      AttemptExtends(c, status, args, Min(Total(init), |Steps(plan, env)|), s, env, plan);
    }
  }

  // ---------------------------------------------------------------- every reachable catalog is closed

  ghost predicate InputsBefore(c: Catalog, steps: seq<Artifact>) {
    forall i, input :: 0 <= i < |steps| && input in steps[i].inputs ==> Contains(c, input) || Contains(steps[..i], input)
  }

  lemma {:induction false} PrefixKeepsWellFormed(c: Catalog, steps: seq<Artifact>, k: nat)
    requires WellFormed(c) && Disjoint(c, steps) && UniqueIds(steps) && InputsBefore(c, steps) && k <= |steps|
    ensures WellFormed(c + steps[..k])
    decreases k
  {
    if k == 0 {
      assert c + steps[..0] == c;
    } else {
      PrefixKeepsWellFormed(c, steps, k - 1);
      var a := steps[k - 1];
      StepIsFound(c, steps, k - 1, k - 1);
      forall input | input in a.inputs ensures Contains(c + steps[..k - 1], input) {
        ContainsAfterAppend(c, steps[..k - 1], input);
      }
      PublishKeepsWellFormed(c + steps[..k - 1], a);
      assert c + steps[..k] == c + steps[..k - 1] + [a];
    }
  }

  lemma {:induction false} StepsHaveInputsBefore(c: Catalog, p: Plan, env: Env)
    requires Contains(c, FirmwareId)
    ensures InputsBefore(c, Steps(p, env))
  {
    var steps := Steps(p, env);
    var n := if p.recovery.Some? then 2 else 1;
    StepsInOrder(p, env);
    forall i, input | 0 <= i < |steps| && input in steps[i].inputs ensures Contains(c, input) || Contains(steps[..i], input) {
      FindFinds(steps[..i], input);
      assert i == n + 1 || i == n + 2;
      assert steps[..i][0].id == PolicyId && steps[..i][n].id == HilId;
      if p.recovery.Some? { assert steps[..i][1].id == RecoveryId; }
      if i == n + 2 { assert steps[..i][n + 1].id == QualificationId; }
    }
  }

  // ---------------------------------------------------------------- what a reader sees

  /** The deployment that a completed plan must reconstruct. */
  function Expected(p: Plan, policy: Policy, env: Env): Admission {
    Admission(Claimed(p.candidate, p.qualification, env),
              [PolicyStep(p, env), HilStep(p, env), QualificationStep(p, env), SnapshotStep(p, env)]
                + (if p.recovery.Some? then [RecoveryStep(p.recovery.value, env)] else []),
              policy.scenarios)
  }

  /** The snapshot format reads back what it wrote, within its limit, and the qualified profile is
      admitted by the adapter catalog. */
  ghost predicate Readable(p: Plan, env: Env) {
    && (forall s :: env.parseSnapshot(env.encodeSnapshot(s)) == Some(s))
    && |p.snapshot| <= MAX_ADMISSION_BYTES
    && env.admits(Claimed(p.candidate, p.qualification, env), p.qualification)
  }

  /** Any proper part of the four documents is refused. */
  lemma {:induction false} PartialEvidenceIsRefused(c: Catalog, env: Env)
    requires Contains(c, PolicyId) || Contains(c, HilId) || Contains(c, QualificationId) || Contains(c, SnapshotId)
    requires !(Contains(c, PolicyId) && Contains(c, HilId) && Contains(c, QualificationId) && Contains(c, SnapshotId))
    ensures Load(c, env).None?
  {
  }

  lemma {:induction false} PrefixIsRefused(c: Catalog, p: Plan, k: nat, env: Env)
    requires Fresh(c) && 0 < k < |Steps(p, env)|
    ensures Load(c + Steps(p, env)[..k], env).None?
  {
    var steps := Steps(p, env);
    StepIds(p, env);
    StepsInOrder(p, env);
    StepIsFound(c, steps, k, 0);
    StepIsFound(c, steps, k, |steps| - 1);
    PartialEvidenceIsRefused(c + steps[..k], env);
  }

  lemma {:induction false} NoRecoveryFound(c: Catalog, p: Plan, env: Env)
    requires Fresh(c) && p.recovery.None?
    ensures Find(c + Steps(p, env), RecoveryId).None?
  {
    var steps := Steps(p, env);
    StepsInOrder(p, env);
    assert forall i :: 0 <= i < |steps| ==> steps[i].id != RecoveryId;
    FindFinds(steps, RecoveryId);
    FindAfterAppend(c, steps, RecoveryId);
  }

  lemma {:induction false} StepFoundAt(c: Catalog, p: Plan, i: nat, env: Env)
    requires Fresh(c) && i < |Steps(p, env)|
    ensures Find(c + Steps(p, env), Steps(p, env)[i].id) == Some(Steps(p, env)[i])
  {
    var steps := Steps(p, env);
    StepIds(p, env);
    StepIsFound(c, steps, |steps|, i);
    assert steps[..|steps|] == steps;
  }

  lemma {:induction false} CompleteIsFound(c: Catalog, p: Plan, env: Env)
    requires Fresh(c)
    ensures Published(c + Steps(p, env), p, env)
  {
    var n := if p.recovery.Some? then 2 else 1;
    StepsInOrder(p, env);
    StepFoundAt(c, p, 0, env);
    StepFoundAt(c, p, n, env);
    StepFoundAt(c, p, n + 1, env);
    StepFoundAt(c, p, n + 2, env);
    if p.recovery.Some? { StepFoundAt(c, p, 1, env); } else { NoRecoveryFound(c, p, env); }
  }

  /** The catalog holds what the plan publishes. */
  predicate Published(c: Catalog, p: Plan, env: Env) {
    && Find(c, PolicyId) == Some(PolicyStep(p, env)) && Find(c, HilId) == Some(HilStep(p, env))
    && Find(c, QualificationId) == Some(QualificationStep(p, env)) && Find(c, SnapshotId) == Some(SnapshotStep(p, env))
    && Find(c, RecoveryId) == if p.recovery.Some? then Some(RecoveryStep(p.recovery.value, env)) else None
  }

  /** What an attempt checked before it published the plan. */
  ghost predicate Checked(firmware: Option<Artifact>, p: Plan, env: Env) {
    && |p.policy| <= MAX_POLICY_BYTES && |p.hil| <= MAX_HIL_BYTES && |p.qualification| <= MAX_QUALIFICATION_BYTES
    && env.parsePolicy(p.policy).Some? && env.parseHil(p.hil).Some? && env.parseReceipt(p.qualification).Some?
    && ProfileForReceipt(env, env.parseReceipt(p.qualification).value) == Some(p.candidate)
    && firmware.Some? && firmware.value.sha256 == p.candidate.firmware
    && MatchingRecovery(env.parseHil(p.hil).value, p.recovery, env) == Some(p.recovery)
    && Validates(env.parsePolicy(p.policy).value, p.candidate, p.qualification, p.hil, env)
    && p.snapshot == env.encodeSnapshot(SnapshotOf(env.parsePolicy(p.policy).value, p.candidate, p.policy, p.hil, p.qualification, env))
  }

  lemma {:induction false} PreparedIsChecked(c: Catalog, status: Status, args: Args, p: Plan, env: Env)
    requires Prepare(c, status, args, env) == Some(p)
    ensures Checked(Firmware(c, env), p, env)
  {
  }

  lemma {:induction false} PublishedRecoveryLoads(c: Catalog, p: Plan, env: Env)
    requires Published(c, p, env) && Checked(Firmware(c, env), p, env)
    ensures LoadRecovery(c, env.parseHil(p.hil).value, env) == Some(p.recovery)
  {
  }

  lemma {:induction false} PublishedIsQualified(
      c: Catalog, p: Plan, policyA: Artifact, hilA: Artifact, receiptA: Artifact, snapshotA: Artifact, env: Env)
    requires Checked(Firmware(c, env), p, env) && Readable(p, env)
    requires LoadRecovery(c, env.parseHil(p.hil).value, env) == Some(p.recovery)
    requires p.recovery.Some? ==> Find(c, RecoveryId) == Some(RecoveryStep(p.recovery.value, env))
    requires policyA == PolicyStep(p, env) && hilA == HilStep(p, env)
    requires receiptA == QualificationStep(p, env) && snapshotA == SnapshotStep(p, env)
    ensures LoadQualified(c, policyA, hilA, receiptA, snapshotA, env) == Some(Expected(p, env.parsePolicy(p.policy).value, env))
  {
    var policy := env.parsePolicy(p.policy).value;
    assert env.parseSnapshot(p.snapshot) == Some(SnapshotOf(policy, p.candidate, p.policy, p.hil, p.qualification, env));
  }

  lemma {:induction false} PublishedIsAdmitted(c: Catalog, p: Plan, env: Env)
    requires Published(c, p, env) && Checked(Firmware(c, env), p, env) && Readable(p, env)
    ensures Load(c, env) == Some(Expected(p, env.parsePolicy(p.policy).value, env))
  {
    PublishedRecoveryLoads(c, p, env);
    PublishedIsQualified(c, p, PolicyStep(p, env), HilStep(p, env), QualificationStep(p, env), SnapshotStep(p, env), env);
  }

  /** Loading the complete catalog reconstructs the qualified admission with the policy's scenarios. */
  lemma {:induction false} CompleteIsAdmitted(c: Catalog, status: Status, args: Args, p: Plan, env: Env)
    requires Fresh(c) && Prepare(c, status, args, env) == Some(p) && Readable(p, env)
    ensures env.parsePolicy(p.policy).Some?
    ensures Load(c + Steps(p, env), env) == Some(Expected(p, env.parsePolicy(p.policy).value, env))
  {
    PreparedIsChecked(c, status, args, p, env);
    CompleteIsFound(c, p, env);
    StepIds(p, env);
    FirmwareIsStable(c, Steps(p, env), env);
    PublishedIsAdmitted(c + Steps(p, env), p, env);
  }

  /** The whole claim: after any sequence of crashed and completed attempts with the same arguments, the
      catalog is closed under inputs and only extends the first one; nothing published means nothing
      changed, something but not everything published is refused, and everything published is admitted. */
  lemma {:induction false} ProvisioningIsCrashSafe(c: Catalog, status: Status, args: Args, survivals: seq<nat>, env: Env, p: Plan)
    requires Fresh(c) && WellFormed(c) && Prepare(c, status, args, env) == Some(p) && Readable(p, env)
    ensures var reached, n := Attempts(c, status, args, survivals, env), |Steps(p, env)|;
            && WellFormed(reached) && c <= reached
            && (Total(survivals) == 0 ==> reached == c)
            && (0 < Total(survivals) < n ==> Load(reached, env).None?)
            && (n <= Total(survivals) ==>
                  && reached == c + Steps(p, env)
                  && env.parsePolicy(p.policy).Some?
                  && Load(reached, env) == Some(Expected(p, env.parsePolicy(p.policy).value, env)))
  {
    var steps := Steps(p, env);
    var k := Min(Total(survivals), |steps|);
    RetryConverges(c, status, args, survivals, env, p);
    StepIds(p, env);
    PreparedIsChecked(c, status, args, p, env);
    StepsHaveInputsBefore(c, p, env);
    PrefixKeepsWellFormed(c, steps, k);
    if 0 < k < |steps| { PrefixIsRefused(c, p, k, env); }
    if k == |steps| {
      assert steps[..k] == steps;
      CompleteIsAdmitted(c, status, args, p, env);
    }
  }

  // ---------------------------------------------------------------- attempts with other arguments

  /** No two contents in play share a digest. */
  ghost predicate CollisionFree(env: Env) {
    forall a, b :: env.digest(a) == env.digest(b) ==> a == b
  }

  lemma {:induction false} SameRecovery(hil: Hil, a: Option<string>, b: Option<string>, env: Env)
    requires CollisionFree(env)
    requires MatchingRecovery(hil, a, env) == Some(a) && MatchingRecovery(hil, b, env) == Some(b)
    ensures a == b
  {
  }

  lemma {:induction false} CheckedByPolicy(f: Option<Artifact>, g: Option<Artifact>, p: Plan, q: Plan, env: Env)
    requires CollisionFree(env) && Checked(f, p, env) && Checked(g, q, env) && p.policy == q.policy
    ensures p == q
  {
    assert env.digest(p.qualification) == env.digest(q.qualification) && env.digest(p.hil) == env.digest(q.hil);
    assert p.qualification == q.qualification && p.hil == q.hil;
    SameRecovery(env.parseHil(p.hil).value, p.recovery, q.recovery, env);
  }

  /** The policy pins everything else: attempts that agree on the policy's digest have the same plan. */
  lemma {:induction false} PolicyDeterminesThePlan(
      c: Catalog, s: Status, a: Args, p: Plan, d: Catalog, t: Status, b: Args, q: Plan, env: Env)
    requires CollisionFree(env) && Prepare(c, s, a, env) == Some(p) && Prepare(d, t, b, env) == Some(q)
    requires env.digest(p.policy) == env.digest(q.policy)
    ensures p == q
  {
    PreparedIsChecked(c, s, a, p, env);
    PreparedIsChecked(d, t, b, q, env);
    CheckedByPolicy(Firmware(c, env), Firmware(d, env), p, q, env);
  }

  datatype Try = Try(status: Status, args: Args, survives: nat)

  function Tries(c: Catalog, tries: seq<Try>, env: Env): Catalog {
    if tries == [] then c
    else
      var last := tries[|tries| - 1];
      Attempt(Tries(c, tries[..|tries| - 1], env), last.status, last.args, last.survives, env)
  }

  /** The catalog holds the first k publications of a plan that one of the attempts would make on c. */
  ghost predicate Follows(c: Catalog, reached: Catalog, tries: seq<Try>, p: Plan, k: nat, env: Env) {
    && k <= |Steps(p, env)| && reached == c + Steps(p, env)[..k]
    && exists t :: t in tries && Prepare(c, t.status, t.args, env) == Some(p)
  }

  /** After the policy is out, another attempt continues the same plan or changes nothing. */
  lemma {:induction false} NextTry(c: Catalog, p: Plan, k: nat, s: Status, a: Args, t: Try, env: Env)
    requires CollisionFree(env) && Fresh(c) && Prepare(c, s, a, env) == Some(p) && 0 < k <= |Steps(p, env)|
    ensures var reached := c + Steps(p, env)[..k];
            var next := Attempt(reached, t.status, t.args, t.survives, env);
            next == reached || next == c + Steps(p, env)[..Min(k + t.survives, |Steps(p, env)|)]
  {
    var steps := Steps(p, env);
    var reached := c + steps[..k];
    StepIds(p, env);
    PrepareIsStable(c, steps[..k], t.status, t.args, env);
    var prepared := Prepare(c, t.status, t.args, env);
    if prepared.Some? {
      var q := prepared.value;
      StepsInOrder(p, env);
      StepsInOrder(q, env);
      StepIsFound(c, steps, k, 0);
      if env.digest(p.policy) == env.digest(q.policy) {
        PolicyDeterminesThePlan(c, s, a, p, c, t.status, t.args, q, env);
        AttemptExtends(c, t.status, t.args, k, t.survives, env, p);
      } else {
        assert Publish(reached, t.survives, Steps(q, env)[0]) == Progress(reached, t.survives, Some(Conflict));
      }
    }
  }

  lemma {:induction false} FirstTry(c: Catalog, t: Try, env: Env)
    requires Fresh(c)
    ensures var next := Attempt(c, t.status, t.args, t.survives, env);
            match Prepare(c, t.status, t.args, env)
            case None => next == c
            case Some(p) => next == c + Steps(p, env)[..Min(t.survives, |Steps(p, env)|)]
  {
    var prepared := Prepare(c, t.status, t.args, env);
    if prepared.Some? {
      assert c + Steps(prepared.value, env)[..0] == c;
      AttemptExtends(c, t.status, t.args, 0, t.survives, env, prepared.value);
    }
  }

  /** Whatever arguments the attempts have, and wherever they crash: nothing is published, or what is
      published is a prefix of one attempt's plan. The first policy to be published decides. */
  lemma {:induction false} FirstPolicyDecides(c: Catalog, tries: seq<Try>, env: Env) returns (p: Option<Plan>, k: nat)
    requires CollisionFree(env) && Fresh(c)
    ensures p.None? ==> Tries(c, tries, env) == c
    ensures p.Some? ==> 0 < k && Follows(c, Tries(c, tries, env), tries, p.value, k, env)
  {
    if tries == [] {
      return None, 0;
    }
    var init, last := tries[..|tries| - 1], tries[|tries| - 1];
    assert tries == init + [last] && last in tries;
    p, k := FirstPolicyDecides(c, init, env);
    if p.None? {
      FirstTry(c, last, env);
      p := Prepare(c, last.status, last.args, env);
      if p.Some? {
        k := Min(last.survives, |Steps(p.value, env)|);
        if k == 0 { p := None; assert c + Steps(Prepare(c, last.status, last.args, env).value, env)[..0] == c; }
      }
    } else {
      var t :| t in init && Prepare(c, t.status, t.args, env) == Some(p.value);
      assert t in tries;
      NextTry(c, p.value, k, t.status, t.args, last, env);
      if Tries(c, tries, env) != Tries(c, init, env) { k := Min(k + last.survives, |Steps(p.value, env)|); }
    }
  }

  /** The claim for all attempts together: every reachable catalog is closed under inputs and extends
      the first one, and what a reader gets from it is the original state, a refusal, or the qualified
      admission of one attempt's plan. */
  lemma {:induction false} AnyAttemptsAreSafe(c: Catalog, tries: seq<Try>, env: Env) returns (p: Option<Plan>, k: nat)
    requires CollisionFree(env) && Fresh(c) && WellFormed(c)
    requires forall t :: t in tries && Prepare(c, t.status, t.args, env).Some? ==> Readable(Prepare(c, t.status, t.args, env).value, env)
    ensures var reached := Tries(c, tries, env);
            && WellFormed(reached) && c <= reached
            && match p
               case None => reached == c
               case Some(plan) =>
                 && 0 < k && Follows(c, reached, tries, plan, k, env)
                 && env.parsePolicy(plan.policy).Some?
                 && Load(reached, env) == if k < |Steps(plan, env)| then None
                                          else Some(Expected(plan, env.parsePolicy(plan.policy).value, env))
  {
    p, k := FirstPolicyDecides(c, tries, env);
    if p.Some? {
      var plan := p.value;
      var steps := Steps(plan, env);
      var t :| t in tries && Prepare(c, t.status, t.args, env) == Some(plan);
      StepIds(plan, env);
      PreparedIsChecked(c, t.status, t.args, plan, env);
      StepsHaveInputsBefore(c, plan, env);
      PrefixKeepsWellFormed(c, steps, k);
      if k < |steps| {
        PrefixIsRefused(c, plan, k, env);
      } else {
        assert steps[..k] == steps;
        CompleteIsAdmitted(c, t.status, t.args, plan, env);
      }
    }
  }

  // ---------------------------------------------------------------- an admission is final

  predicate FourDocuments(c: Catalog) {
    Contains(c, PolicyId) && Contains(c, HilId) && Contains(c, QualificationId) && Contains(c, SnapshotId)
  }

  lemma {:induction false} PresentStepsChangeNothing(c: Catalog, s: nat, steps: seq<Artifact>, i: nat)
    requires i <= |steps| && forall k :: i <= k < |steps| ==> Contains(c, steps[k].id)
    ensures PublishFrom(c, s, steps, i).catalog == c
    decreases |steps| - i
  {
    if i < |steps| { PresentStepsChangeNothing(c, s, steps, i + 1); }
  }

  lemma {:induction false} BlockedRun(c: Catalog, s: nat, p: Plan, env: Env)
    requires FourDocuments(c)
    requires p.recovery.None? || Contains(c, RecoveryId) || s == 0 || !StandsFor(Find(c, PolicyId).value, PolicyStep(p, env))
    ensures PublishFrom(c, s, Steps(p, env), 0).catalog == c
  {
    var steps := Steps(p, env);
    StepsInOrder(p, env);
    if p.recovery.None? || Contains(c, RecoveryId) {
      PresentStepsChangeNothing(c, s, steps, 0);
    }
  }

  lemma {:induction false} LoadedIsPinned(c: Catalog, env: Env)
    requires FourDocuments(c) && Load(c, env).Some?
    ensures var policy, hil := Find(c, PolicyId).value, Find(c, HilId).value;
            && env.digest(policy.content) == policy.sha256
            && env.parsePolicy(policy.content).Some? && env.parseHil(hil.content).Some?
            && env.digest(hil.content) == env.parsePolicy(policy.content).value.hil
            && (env.parseHil(hil.content).value.recovery.Some? <==> Contains(c, RecoveryId))
  {
  }

  /** A reader admits nothing but what an attempt could have published: the documents of an admitted
      catalog are, byte for byte, the publications of one plan whose checks hold and whose snapshot
      restates it. */
  lemma {:induction false} AdmittedIsPublished(c: Catalog, env: Env) returns (p: Plan)
    requires FourDocuments(c) && Load(c, env).Some?
    ensures Published(c, p, env)
    ensures env.parsePolicy(p.policy).Some? && env.parseHil(p.hil).Some? && env.parseReceipt(p.qualification).Some?
    ensures ProfileForReceipt(env, env.parseReceipt(p.qualification).value) == Some(p.candidate)
    ensures Firmware(c, env).Some? && Firmware(c, env).value.sha256 == p.candidate.firmware
    ensures MatchingRecovery(env.parseHil(p.hil).value, p.recovery, env) == Some(p.recovery)
    ensures var policy := env.parsePolicy(p.policy).value;
            && Validates(policy, p.candidate, p.qualification, p.hil, env)
            && env.parseSnapshot(p.snapshot) == Some(SnapshotOf(policy, p.candidate, p.policy, p.hil, p.qualification, env))
            && Load(c, env) == Some(Expected(p, policy, env))
  {
    var policy, hil := Find(c, PolicyId).value, Find(c, HilId).value;
    var receipt, snapshot := Find(c, QualificationId).value, Find(c, SnapshotId).value;
    FindFinds(c, PolicyId);
    FindFinds(c, HilId);
    FindFinds(c, QualificationId);
    FindFinds(c, SnapshotId);
    p := QualifiedPlan(c, policy, hil, receipt, snapshot, env);
  }

  lemma {:induction false} QualifiedPlan(
      c: Catalog, policyA: Artifact, hilA: Artifact, receiptA: Artifact, snapshotA: Artifact, env: Env) returns (p: Plan)
    requires LoadQualified(c, policyA, hilA, receiptA, snapshotA, env).Some?
    ensures policyA == PolicyStep(p, env) && hilA == HilStep(p, env)
    ensures receiptA == QualificationStep(p, env) && snapshotA == SnapshotStep(p, env)
    ensures Find(c, RecoveryId) == if p.recovery.Some? then Some(RecoveryStep(p.recovery.value, env)) else None
    ensures env.parsePolicy(p.policy).Some? && env.parseHil(p.hil).Some? && env.parseReceipt(p.qualification).Some?
    ensures ProfileForReceipt(env, env.parseReceipt(p.qualification).value) == Some(p.candidate)
    ensures Firmware(c, env).Some? && Firmware(c, env).value.sha256 == p.candidate.firmware
    ensures MatchingRecovery(env.parseHil(p.hil).value, p.recovery, env) == Some(p.recovery)
    ensures var policy := env.parsePolicy(p.policy).value;
            && Validates(policy, p.candidate, p.qualification, p.hil, env)
            && env.parseSnapshot(p.snapshot) == Some(SnapshotOf(policy, p.candidate, p.policy, p.hil, p.qualification, env))
            && LoadQualified(c, policyA, hilA, receiptA, snapshotA, env) == Some(Expected(p, policy, env))
  {
    var hil := env.parseHil(hilA.content).value;
    var recovery := LoadRecovery(c, hil, env).value;
    var candidate := ProfileForReceipt(env, env.parseReceipt(receiptA.content).value).value;
    p := Plan(policyA.content, hilA.content, receiptA.content, recovery, snapshotA.content, candidate);
    LoadedRecoveryIsStep(c, hil, env);
  }

  lemma {:induction false} LoadedRecoveryIsStep(c: Catalog, hil: Hil, env: Env)
    requires LoadRecovery(c, hil, env).Some?
    ensures var recovery := LoadRecovery(c, hil, env).value;
            && Find(c, RecoveryId) == (if recovery.Some? then Some(RecoveryStep(recovery.value, env)) else None)
            && MatchingRecovery(hil, recovery, env) == Some(recovery)
  {
  }

  lemma {:induction false} PlanMatchesLoaded(c: Catalog, p: Plan, firmware: Option<Artifact>, env: Env)
    requires CollisionFree(env) && FourDocuments(c) && Load(c, env).Some? && Checked(firmware, p, env)
    requires StandsFor(Find(c, PolicyId).value, PolicyStep(p, env))
    ensures p.recovery.Some? <==> Contains(c, RecoveryId)
  {
    LoadedIsPinned(c, env);
    assert env.digest(Find(c, PolicyId).value.content) == env.digest(p.policy);
    assert env.digest(Find(c, HilId).value.content) == env.digest(p.hil);
  }

  /** Once a qualified admission loads, no later attempt, whatever its arguments, changes the catalog. */
  lemma {:induction false} AdmissionIsFinal(c: Catalog, status: Status, args: Args, s: nat, env: Env)
    requires CollisionFree(env) && FourDocuments(c) && Load(c, env).Some?
    ensures Attempt(c, status, args, s, env) == c
  {
    var prepared := Prepare(c, status, args, env);
    if prepared.Some? {
      PreparedIsChecked(c, status, args, prepared.value, env);
      if StandsFor(Find(c, PolicyId).value, PolicyStep(prepared.value, env)) {
        PlanMatchesLoaded(c, prepared.value, Firmware(c, env), env);
      }
      BlockedRun(c, s, prepared.value, env);
    }
  }
}
