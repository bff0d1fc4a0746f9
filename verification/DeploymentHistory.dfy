/** Whole histories of a Session: provisioning attempts with any arguments, crashing anywhere, among any
    other publications, with a controller that may start at any moment. */
module DeploymentHistory {
  import opened Outcomes
  import opened SessionCatalog
  import opened Qualification
  import opened CrashSafety

  /** `Other` publishes an artifact outside the deployment evidence, for instance a capture, the
      firmware, or an artifact of the controller. */
  datatype Happening = Attempted(try: Try) | Other(artifact: Artifact)

  function PublishOther(c: Catalog, a: Artifact): Catalog {
    if Contains(c, a.id) || Qualifying(a.id) then c else c + [a]
  }

  function After(c: Catalog, h: Happening, env: Env): Catalog {
    match h
    case Attempted(t) => Attempt(c, t.status, t.args, t.survives, env)
    case Other(a) => PublishOther(c, a)
  }

  function History(c: Catalog, hs: seq<Happening>, env: Env): Catalog {
    if hs == [] then c else After(History(c, hs[..|hs| - 1], env), hs[|hs| - 1], env)
  }

  /** Of the plan's publications the first k are there, byte for byte, and of the deployment evidence
      nothing else; and the plan still passes every check against the firmware of the Session. */
  ghost predicate Holds(c: Catalog, p: Plan, k: nat, env: Env) {
    && 0 < k <= |Steps(p, env)| && Checked(Firmware(c, env), p, env)
    && (p.recovery.None? ==> !Contains(c, RecoveryId))
    && forall i :: 0 <= i < |Steps(p, env)| ==> HoldsStep(c, p, k, i, env)
  }

  predicate HoldsStep(c: Catalog, p: Plan, k: nat, i: nat, env: Env)
    requires i < |Steps(p, env)|
  {
    Find(c, Steps(p, env)[i].id) == if i < k then Some(Steps(p, env)[i]) else None
  }

  // ---------------------------------------------------------------- one publication

  /** The next publication of the plan. */
  lemma {:induction false} NextStepHolds(c: Catalog, p: Plan, k: nat, env: Env)
    requires Holds(c, p, k, env) && k < |Steps(p, env)|
    ensures !Contains(c, Steps(p, env)[k].id) && Holds(c + [Steps(p, env)[k]], p, k + 1, env)
  {
    var steps, more := Steps(p, env), k + 1;
    var next := c + [steps[k]];
    StepIds(p, env);
    assert HoldsStep(c, p, k, k, env);
    FindAfterOne(c, steps[k], FirmwareId);
    forall i | 0 <= i < |steps| ensures HoldsStep(next, p, more, i, env) {
      assert HoldsStep(c, p, k, i, env);
      FindAfterOne(c, steps[k], steps[i].id);
    }
    FindAfterOne(c, steps[k], RecoveryId);
    RecoveryIsNoStep(p, k, env);
  }

  lemma {:induction false} RecoveryIsNoStep(p: Plan, i: nat, env: Env)
    requires i < |Steps(p, env)|
    ensures p.recovery.None? ==> Steps(p, env)[i].id != RecoveryId
  {
    StepsInOrder(p, env);
  }

  lemma {:induction false} HeldStepIsSkipped(c: Catalog, p: Plan, k: nat, i: nat, s: nat, env: Env)
    requires Holds(c, p, k, env) && i < k
    ensures PublishFrom(c, s, Steps(p, env), i) == PublishFrom(c, s, Steps(p, env), i + 1)
  {
    assert HoldsStep(c, p, k, i, env);
  }

  lemma {:induction false} SkipHeld(c: Catalog, p: Plan, k: nat, i: nat, s: nat, env: Env)
    requires Holds(c, p, k, env) && i <= k
    ensures PublishFrom(c, s, Steps(p, env), i) == PublishFrom(c, s, Steps(p, env), k)
    decreases k - i
  {
    if i < k {
      HeldStepIsSkipped(c, p, k, i, s, env);
      SkipHeld(c, p, k, i + 1, s, env);
    }
  }

  lemma {:induction false} PublishMissing(c: Catalog, steps: seq<Artifact>, k: nat, s: nat)
    requires k < |steps| && !Contains(c, steps[k].id)
    ensures PublishFrom(c, s, steps, k) ==
            if s == 0 then Progress(c, 0, Some(Crashed)) else PublishFrom(c + [steps[k]], s - 1, steps, k + 1)
  {
  }

  /** Publishing goes on, step by missing step, as far as the process survives. */
  lemma {:induction false} Continue(c: Catalog, steps: seq<Artifact>, k: nat, s: nat, holds: (Catalog, nat) -> bool)
    requires k <= |steps| && holds(c, k)
    requires forall d: Catalog, i: nat :: holds(d, i) && i < |steps| ==> !Contains(d, steps[i].id) && holds(d + [steps[i]], i + 1)
    ensures var reached := PublishFrom(c, s, steps, k).catalog;
            c <= reached && holds(reached, Min(k + s, |steps|))
    decreases s
  {
    if k < |steps| {
      PublishMissing(c, steps, k, s);
      if s > 0 { Continue(c + [steps[k]], steps, k + 1, s - 1, holds); }
    }
  }

  /** From k publications on, an attempt with the same plan adds the next ones, as far as it survives. */
  lemma {:induction false} AttemptContinues(c: Catalog, p: Plan, k: nat, i: nat, s: nat, env: Env)
    requires Holds(c, p, k, env) && i <= k
    ensures var reached := PublishFrom(c, s, Steps(p, env), i).catalog;
            c <= reached && Holds(reached, p, Min(k + s, |Steps(p, env)|), env)
  {
    SkipHeld(c, p, k, i, s, env);
    var steps, holds := Steps(p, env), (d: Catalog, j: nat) => Holds(d, p, j, env);
    forall d: Catalog, j: nat | holds(d, j) && j < |steps| ensures !Contains(d, steps[j].id) && holds(d + [steps[j]], j + 1) {
      NextStepHolds(d, p, j, env);
    }
    Continue(c, steps, k, s, holds);
  }

  // ---------------------------------------------------------------- what a happening changes

  /** The first publication of a plan. */
  lemma {:induction false} FirstStepHolds(c: Catalog, p: Plan, env: Env)
    requires Fresh(c) && Checked(Firmware(c, env), p, env)
    ensures Steps(p, env) != [] && !Contains(c, Steps(p, env)[0].id) && Holds(c + [Steps(p, env)[0]], p, 1, env)
  {
    var steps := Steps(p, env);
    StepIds(p, env);
    StepsInOrder(p, env);
    var next := c + [steps[0]];
    FindAfterOne(c, steps[0], FirmwareId);
    FindAfterOne(c, steps[0], RecoveryId);
    assert Qualifying(RecoveryId) && steps[0].id == PolicyId;
    forall i | 0 <= i < |steps| ensures HoldsStep(next, p, 1, i, env) {
      assert Qualifying(steps[i].id);
      FindAfterOne(c, steps[0], steps[i].id);
    }
  }

  lemma {:induction false} ShorterPrefix(c: Catalog, a: Artifact, reached: Catalog)
    requires c + [a] <= reached
    ensures c <= reached
  {
  }

  /** Publishing a whole plan where there is no evidence yet. */
  lemma {:induction false} FreshContinues(c: Catalog, p: Plan, s: nat, env: Env)
    requires Fresh(c) && Checked(Firmware(c, env), p, env) && 0 < s
    ensures var reached := PublishFrom(c, s, Steps(p, env), 0).catalog;
            c <= reached && Holds(reached, p, Min(s, |Steps(p, env)|), env)
  {
    FirstStepHolds(c, p, env);
    var a := Steps(p, env)[0];
    FirstIsPublished(c, Steps(p, env), s);
    AttemptContinues(c + [a], p, 1, 1, s - 1, env);
    ShorterPrefix(c, a, PublishFrom(c + [a], s - 1, Steps(p, env), 1).catalog);
  }

  lemma {:induction false} FirstIsPublished(c: Catalog, steps: seq<Artifact>, s: nat)
    requires steps != [] && !Contains(c, steps[0].id) && 0 < s
    ensures PublishFrom(c, s, steps, 0).catalog == PublishFrom(c + [steps[0]], s - 1, steps, 1).catalog
  {
    PublishMissing(c, steps, 0, s);
  }

  lemma {:induction false} CrashedAtOnce(c: Catalog, p: Plan, env: Env)
    requires Fresh(c) && Checked(Firmware(c, env), p, env)
    ensures PublishFrom(c, 0, Steps(p, env), 0).catalog == c
  {
    FirstStepHolds(c, p, env);
    PublishMissing(c, Steps(p, env), 0, 0);
  }

  /** An attempt on a Session without evidence publishes nothing, or starts its own plan. */
  lemma {:induction false} FreshAttempt(c: Catalog, t: Try, env: Env)
    requires Fresh(c)
    ensures var next, p := Attempt(c, t.status, t.args, t.survives, env), Prepare(c, t.status, t.args, env);
            if p.None? || t.survives == 0 then next == c
            else Holds(next, p.value, Min(t.survives, |Steps(p.value, env)|), env) && c <= next
  {
    var prepared := Prepare(c, t.status, t.args, env);
    if prepared.Some? {
      PreparedIsChecked(c, t.status, t.args, prepared.value, env);
      if t.survives == 0 { CrashedAtOnce(c, prepared.value, env); } else { FreshContinues(c, prepared.value, t.survives, env); }
    }
  }

  /** After its first publication a plan is continued or left alone by every attempt. */
  lemma {:induction false} LaterAttempt(c: Catalog, p: Plan, k: nat, t: Try, env: Env)
    requires CollisionFree(env) && Holds(c, p, k, env)
    ensures var next := Attempt(c, t.status, t.args, t.survives, env);
            c <= next && (Holds(next, p, k, env) || Holds(next, p, Min(k + t.survives, |Steps(p, env)|), env))
  {
    var prepared := Prepare(c, t.status, t.args, env);
    if prepared.Some? {
      var q := prepared.value;
      PreparedIsChecked(c, t.status, t.args, q, env);
      StepsInOrder(p, env);
      StepsInOrder(q, env);
      assert HoldsStep(c, p, k, 0, env);
      if p.policy == q.policy {
        CheckedByPolicy(Firmware(c, env), Firmware(c, env), p, q, env);
        AttemptContinues(c, p, k, 0, t.survives, env);
      } else {
        assert Publish(c, t.survives, Steps(q, env)[0]) == Progress(c, t.survives, Some(Conflict));
      }
    }
  }

  lemma {:induction false} OtherKeepsHolds(c: Catalog, p: Plan, k: nat, a: Artifact, env: Env)
    requires Holds(c, p, k, env)
    ensures Holds(PublishOther(c, a), p, k, env)
  {
    if PublishOther(c, a) != c {
      FindAfterOne(c, a, FirmwareId);
      FindAfterOne(c, a, RecoveryId);
      StepIds(p, env);
      forall i | 0 <= i < |Steps(p, env)| ensures HoldsStep(PublishOther(c, a), p, k, i, env) {
        assert HoldsStep(c, p, k, i, env);
        FindAfterOne(c, a, Steps(p, env)[i].id);
      }
    }
  }

  lemma {:induction false} OtherKeepsFresh(c: Catalog, a: Artifact)
    requires Fresh(c)
    ensures Fresh(PublishOther(c, a))
  {
    if PublishOther(c, a) != c {
      forall id | Qualifying(id) ensures !Contains(PublishOther(c, a), id) { FindAfterOne(c, a, id); }
    }
  }

  // ---------------------------------------------------------------- every history

  /** Some attempt of the history had this plan at its moment. */
  ghost predicate Originates(c: Catalog, hs: seq<Happening>, p: Plan, env: Env) {
    exists i :: 0 <= i < |hs| && Prepares(History(c, hs[..i], env), hs[i], p, env)
  }

  predicate Prepares(c: Catalog, h: Happening, p: Plan, env: Env) {
    h.Attempted? && Prepare(c, h.try.status, h.try.args, env) == Some(p)
  }

  lemma {:induction false} OriginatesLater(c: Catalog, hs: seq<Happening>, h: Happening, p: Plan, env: Env)
    ensures Originates(c, hs, p, env) ==> Originates(c, hs + [h], p, env)
    ensures Prepares(History(c, hs, env), h, p, env) ==> Originates(c, hs + [h], p, env)
  {
    var all := hs + [h];
    if i :| 0 <= i < |hs| && Prepares(History(c, hs[..i], env), hs[i], p, env) {
      assert all[..i] == hs[..i] && all[i] == hs[i];
    }
    assert all[..|hs|] == hs && all[|hs|] == h;
  }

  /** From a Session without evidence, one happening leaves it so or starts the plan of its own attempt. */
  lemma {:induction false} AfterFresh(c: Catalog, h: Happening, env: Env) returns (p: Option<Plan>, k: nat)
    requires Fresh(c)
    ensures c <= After(c, h, env)
    ensures p.None? ==> Fresh(After(c, h, env))
    ensures p.Some? ==> Holds(After(c, h, env), p.value, k, env) && Prepares(c, h, p.value, env)
  {
    match h
    case Attempted(t) =>
      FreshAttempt(c, t, env);
      p := if t.survives == 0 then None else Prepare(c, t.status, t.args, env);
      k := if p.Some? then Min(t.survives, |Steps(p.value, env)|) else 0;
    case Other(a) =>
      OtherKeepsFresh(c, a);
      return None, 0;
  }

  /** Once a plan is begun, a happening only continues it. */
  lemma {:induction false} AfterHeld(c: Catalog, p: Plan, k: nat, h: Happening, env: Env) returns (more: nat)
    requires CollisionFree(env) && Holds(c, p, k, env)
    ensures c <= After(c, h, env) && Holds(After(c, h, env), p, more, env)
  {
    match h
    case Attempted(t) =>
      LaterAttempt(c, p, k, t, env);
      more := if Holds(After(c, h, env), p, k, env) then k else Min(k + t.survives, |Steps(p, env)|);
    case Other(a) =>
      OtherKeepsHolds(c, p, k, a, env);
      more := k;
  }

  /** Whatever else is published in between, the first policy to be published decides: of the deployment
      evidence there is nothing, or a prefix of the plan that one attempt had when it was made. */
  lemma {:induction false} HistoryFollowsOnePlan(c: Catalog, hs: seq<Happening>, env: Env) returns (p: Option<Plan>, k: nat)
    requires CollisionFree(env) && Fresh(c)
    ensures c <= History(c, hs, env)
    ensures p.None? ==> Fresh(History(c, hs, env))
    ensures p.Some? ==> Holds(History(c, hs, env), p.value, k, env) && Originates(c, hs, p.value, env)
  {
    if hs == [] {
      return None, 0;
    }
    var init, last := hs[..|hs| - 1], hs[|hs| - 1];
    var before := History(c, init, env);
    p, k := HistoryFollowsOnePlan(c, init, env);
    assert hs == init + [last];
    if p.Some? {
      k := AfterHeld(before, p.value, k, last, env);
    } else {
      p, k := AfterFresh(before, last, env);
    }
    if p.Some? { OriginatesLater(c, init, last, p.value, env); }
  }

  /** What a reader gets after any history: as long as nothing of a plan is there, the candidate; then a
      refusal; and from the last publication on the admission of that one plan. */
  lemma {:induction false} EveryHistoryIsSafe(c: Catalog, hs: seq<Happening>, env: Env) returns (p: Option<Plan>, k: nat)
    requires CollisionFree(env) && Fresh(c)
    ensures c <= History(c, hs, env)
    ensures match p
            case None => Fresh(History(c, hs, env)) && Load(History(c, hs, env), env) == LoadCandidate(History(c, hs, env), env)
            case Some(plan) =>
              && Holds(History(c, hs, env), plan, k, env) && Originates(c, hs, plan, env)
              && (k < |Steps(plan, env)| ==> Load(History(c, hs, env), env).None?)
              && env.parsePolicy(plan.policy).Some?
              && (k == |Steps(plan, env)| && Readable(plan, env) ==>
                    Load(History(c, hs, env), env) == Some(Expected(plan, env.parsePolicy(plan.policy).value, env)))
  {
    p, k := HistoryFollowsOnePlan(c, hs, env);
    if p.Some? { HeldPlanLoads(History(c, hs, env), p.value, k, env); } else { FreshIsCandidate(History(c, hs, env), env); }
  }

  lemma {:induction false} FreshIsCandidate(c: Catalog, env: Env)
    requires Fresh(c)
    ensures Load(c, env) == LoadCandidate(c, env)
  {
    assert Qualifying(PolicyId) && Qualifying(HilId) && Qualifying(QualificationId) && Qualifying(SnapshotId);
  }

  lemma {:induction false} HeldPlanLoads(c: Catalog, p: Plan, k: nat, env: Env)
    requires Holds(c, p, k, env)
    ensures k < |Steps(p, env)| ==> Load(c, env).None?
    ensures env.parsePolicy(p.policy).Some?
    ensures k == |Steps(p, env)| && Readable(p, env) ==> Load(c, env) == Some(Expected(p, env.parsePolicy(p.policy).value, env))
  {
    StepsInOrder(p, env);
    var n := if p.recovery.Some? then 2 else 1;
    assert HoldsStep(c, p, k, 0, env) && HoldsStep(c, p, k, n, env) && HoldsStep(c, p, k, n + 1, env) && HoldsStep(c, p, k, n + 2, env);
    if k < |Steps(p, env)| {
      PartialEvidenceIsRefused(c, env);
    } else if Readable(p, env) {
      if p.recovery.Some? { assert HoldsStep(c, p, k, 1, env); }
      PublishedIsAdmitted(c, p, env);
    }
  }

  // ---------------------------------------------------------------- the controller

  lemma {:induction false} HistoryGrows(c: Catalog, hs: seq<Happening>, env: Env)
    ensures c <= History(c, hs, env)
  {
    if hs != [] {
      var before := History(c, hs[..|hs| - 1], env);
      HistoryGrows(c, hs[..|hs| - 1], env);
      match hs[|hs| - 1]
      case Attempted(t) =>
        var prepared := Prepare(before, t.status, t.args, env);
        if prepared.Some? { PublishGrows(before, t.survives, Steps(prepared.value, env), 0); }
      case Other(a) =>
    }
  }

  lemma {:induction false} PublishGrows(c: Catalog, s: nat, steps: seq<Artifact>, i: nat)
    requires i <= |steps|
    ensures c <= PublishFrom(c, s, steps, i).catalog
    decreases |steps| - i
  {
    if i < |steps| {
      var p := Publish(c, s, steps[i]);
      if p.fault.None? { PublishGrows(p.catalog, p.survives, steps, i + 1); }
    }
  }

  /** Once the controller has published anything, every later attempt is refused, and the deployment
      evidence stays for ever what it was at that moment. */
  lemma {:induction false} ControllerFreezesTheEvidence(c: Catalog, hs: seq<Happening>, t: Try, env: Env)
    requires !ControllerIdle(c)
    ensures var reached := History(c, hs, env);
            && Prepare(reached, t.status, t.args, env).None? && Attempt(reached, t.status, t.args, t.survives, env) == reached
            && forall id :: Qualifying(id) ==> Find(reached, id) == Find(c, id)
  {
    HistoryGrows(c, hs, env);
    var busy :| busy in c && busy.id.Controller?;
    assert busy in History(c, hs, env);
    if hs != [] {
      var init, last := hs[..|hs| - 1], hs[|hs| - 1];
      match last
      case Attempted(later) => ControllerFreezesTheEvidence(c, init, later, env);
      case Other(a) =>
        ControllerFreezesTheEvidence(c, init, t, env);
        var before := History(c, init, env);
        if PublishOther(before, a) != before {
          forall id | Qualifying(id) ensures Find(PublishOther(before, a), id) == Find(c, id) { FindAfterOne(before, a, id); }
        }
    }
  }
}
