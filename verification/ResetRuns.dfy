/**
 * The life of one inventory's plan secret: the inventory controller, bootstrap
 * overwrites and the machine's agent, in any order. A reconcile stores its secret
 * write and its status together; the agent applies a plan and reports in one step.
 */
module ResetRuns {
  import opened Wrappers
  import opened Conditions
  import opened Objects
  import I = InventoryReconcile
  import opened InventoryDecisions
  import opened InventoryFacts

  /** A plan the agent applied successfully, and when. */
  datatype Applied = Applied(content: PlanContent, at: nat)

  datatype Machine = Machine(
    inv: Inventory,
    secret: Option<Secret>,
    clock: nat,
    deletedAt: Option<nat>,
    log: seq<Applied>)

  datatype Action =
    | RequestDeletion
    | Edit(edited: Inventory)
    | SecretAppears(appeared: Secret)
    | SecretDeleted
    | Bootstrap
    | AgentReports(ok: bool, applied: string, failed: string)
    | Reconcile(answers: I.Answers)

  /** A new secret is either the controller's empty one or somebody else's. */
  predicate Appears(s: Secret) {
    s.owned ==> s == Secret(EmptyType, EmptyPlan, true, "", "")
  }

  /** Anything about an inventory may change from outside except its identity, deletion mark and status. */
  predicate Edited(inv: Inventory, e: Inventory) {
    e.name == inv.name && e.deleting == inv.deleting && e.conds == inv.conds && e.plan == inv.plan
  }

  /** The secret when the plan status is read: the reconcile may just have created it. */
  function SecretAtStatusRead(m: Machine, a: I.Answers): Option<Secret> {
    if !m.inv.deleting && m.inv.finalizer && a.createOk && !I.SkipsPlanCreation(m.inv)
    then AfterOp(m.secret, I.CreateSecret, m.clock)
    else m.secret
  }

  /** Reads of the secret may fail; a reset write is either done and answered, or not done. */
  predicate Faithful(m: Machine, a: I.Answers) {
    && (a.secret.Some? ==> a.secret == m.secret)
    && (a.status.Some? ==> a.status == SecretAtStatusRead(m, a))
    && a.resetFate != AnswerLost
  }

  predicate Enabled(m: Machine, a: Action) {
    match a
    case RequestDeletion => !m.inv.deleting
    case Edit(e) => Edited(m.inv, e)
    case SecretAppears(s) => m.secret.None? && Appears(s)
    case SecretDeleted => m.secret.Some?
    case Bootstrap => m.secret.Some?
    case AgentReports(ok, applied, _) =>
      m.secret.Some? && (if ok then applied != "" else applied == "" || applied == m.secret.value.applied)
    case Reconcile(answers) => Faithful(m, answers)
  }

  /** The secret after a reconcile; creating finds an existing one unchanged. */
  function AfterOp(secret: Option<Secret>, op: I.SecretOp, clock: nat): Option<Secret> {
    match op
    case KeepSecret => secret
    case CreateSecret => if secret.Some? then secret else Some(Secret(EmptyType, EmptyPlan, true, "", ""))
    case WriteReset =>
      if secret.None? then None
      else Some(secret.value.(planType := ResetType, content := ResetPlan(clock), applied := "", failed := ""))
  }

  function Do(m: Machine, a: Action): Machine
    requires Enabled(m, a)
  {
    var next := m.(clock := m.clock + 1);
    match a
    case RequestDeletion => next.(inv := m.inv.(deleting := true), deletedAt := Some(m.clock))
    case Edit(e) => next.(inv := e)
    case SecretAppears(s) => next.(secret := Some(s))
    case SecretDeleted => next.(secret := None)
    case Bootstrap => next.(secret := Some(m.secret.value.(planType := BootstrapType, content := BootstrapPlan)))
    case AgentReports(ok, applied, failed) =>
      next.(secret := Some(m.secret.value.(applied := applied, failed := failed)),
            log := if ok then m.log + [Applied(m.secret.value.content, m.clock)] else m.log)
    case Reconcile(answers) =>
      match I.Reconcile(m.inv, answers)
      case NilDeref => next
      case Go(inv, op) => next.(inv := inv, secret := AfterOp(m.secret, op, m.clock))
      case Stop(inv, op) => next.(inv := inv, secret := AfterOp(m.secret, op, m.clock))
  }

  /** A registered inventory starts without status, deletion mark or owned secret. */
  predicate Initial(m: Machine) {
    && m.inv.conds == map[] && m.inv.plan.None? && !m.inv.deleting
    && m.deletedAt.None? && m.log == [] && (m.secret.Some? ==> !m.secret.value.owned)
  }

  predicate StepAt(ms: seq<Machine>, actions: seq<Action>, i: nat)
    requires i < |actions| < |ms|
  {
    Enabled(ms[i], actions[i]) && ms[i + 1] == Do(ms[i], actions[i])
  }

  predicate Run(ms: seq<Machine>, actions: seq<Action>) {
    |ms| == |actions| + 1 && Initial(ms[0]) && forall i: nat :: i < |actions| ==> StepAt(ms, actions, i)
  }

  /** The agent applied a reset plan that was written after deletion was requested. */
  predicate ResetDone(m: Machine) {
    m.deletedAt.Some? &&
    exists e <- m.log :: e.content.ResetPlan? && m.deletedAt.value <= e.content.writtenAt <= e.at
  }

  predicate OwnedReset(m: Machine) {
    m.secret.Some? && m.secret.value.owned && m.secret.value.planType == ResetType
  }

  predicate Inv(m: Machine) {
    && PlanOk(m.inv)
    && (m.inv.deleting <==> m.deletedAt.Some?)
    && (m.deletedAt.Some? ==> m.deletedAt.value < m.clock)
    && (OwnedReset(m) ==>
          && m.deletedAt.Some? && m.secret.value.content.ResetPlan?
          && m.deletedAt.value <= m.secret.value.content.writtenAt < m.clock
          && (m.secret.value.applied != "" ==> ResetDone(m))
          && (m.inv.plan.Some? && m.inv.plan.value.state == PlanApplied ==> ResetDone(m)))
  }

  lemma AgentKeeps(m: Machine, ok: bool, applied: string, failed: string)
    requires Inv(m) && Enabled(m, AgentReports(ok, applied, failed))
    ensures Inv(Do(m, AgentReports(ok, applied, failed)))
  {
  }

  /** Keeping the log and the deletion time keeps what the agent has done. */
  lemma DoneStays(m: Machine, m': Machine)
    requires ResetDone(m) && m'.deletedAt == m.deletedAt && m.log <= m'.log
    ensures ResetDone(m')
  {
  }

  lemma ReconcileKeeps(m: Machine, a: I.Answers)
    requires Inv(m) && Faithful(m, a)
    ensures Inv(Do(m, Reconcile(a)))
  {
    ReconcileKeepsPlan(m.inv, a);
    var m' := Do(m, Reconcile(a));
    if !m.inv.deleting {
      LiveStep(m.inv, a);
    } else if ResetDone(m) {
      DoneStays(m, m');
    }
  }

  lemma OutsideKeeps(m: Machine, a: Action)
    requires Inv(m) && Enabled(m, a) && !a.AgentReports? && !a.Reconcile?
    ensures Inv(Do(m, a))
  {
  }

  lemma {:induction false} Reachable(ms: seq<Machine>, actions: seq<Action>, i: nat)
    requires Run(ms, actions) && i < |ms|
    ensures Inv(ms[i])
  {
    if i > 0 {
      Reachable(ms, actions, i - 1);
      assert StepAt(ms, actions, i - 1);
      var m, a := ms[i - 1], actions[i - 1];
      match a
      case AgentReports(ok, applied, failed) => AgentKeeps(m, ok, applied, failed);
      case Reconcile(answers) => ReconcileKeeps(m, answers);
      case _ => OutsideKeeps(m, a);
    }
  }

  /**
   * Reset before release: in every run, a reconcile takes the finalizer off a resettable
   * inventory only after deletion was requested and only if the agent has applied a reset
   * plan that was written after that request.
   */
  lemma ResetBeforeRelease(ms: seq<Machine>, actions: seq<Action>, i: nat)
    requires Run(ms, actions) && i < |actions| && actions[i].Reconcile?
    requires ms[i].inv.resettable && ms[i].inv.finalizer && !ms[i + 1].inv.finalizer
    ensures ms[i].inv.deleting && ms[i].deletedAt.Some?
    ensures exists e <- ms[i].log :: e.content.ResetPlan? && ms[i].deletedAt.value <= e.content.writtenAt <= e.at
  {
    Reachable(ms, actions, i);
    assert StepAt(ms, actions, i);
    var m, a := ms[i], actions[i].answers;
    ReconcileKeepsPlan(m.inv, a);
    if !m.inv.deleting {
      LiveStep(m.inv, a);
    }
    assert ResetDone(m);
  }

  /**
   * In every run, a reconcile of a deleted inventory takes its finalizer off if and only if the inventory wants no
   * reset, or its own reset plan is reported as applied; one that wants no reset is let go by whatever reconcile
   * comes first.
   */
  lemma ReleaseInRuns(ms: seq<Machine>, actions: seq<Action>, i: nat)
    requires Run(ms, actions) && i < |actions| && actions[i].Reconcile?
    requires ms[i].inv.deleting && ms[i].inv.finalizer
    ensures !ms[i + 1].inv.finalizer <==> !ms[i].inv.resettable || ResetReported(ms[i].inv, actions[i].answers)
    ensures !ms[i].inv.resettable ==> ms[i + 1].secret == ms[i].secret
  {
    assert StepAt(ms, actions, i);
    ReleaseIff(ms[i].inv, actions[i].answers);
  }

  // ---- A run that resets and releases ----

  const FRESH := Inventory("machine", [], false, true, true, {}, {}, map[], map[], map[], None)

  const PLANNED := FRESH.(
    conds := map[
      Ready := Condition(CondFalse, WaitingForPlan, 0),
      NetworkConfigReady := Condition(CondTrue, ReconcilingNetworkConfig, 0),
      AdoptionReady := Condition(CondFalse, WaitingToBeAdopted, 0)],
    plan := Some(PlanStatus(Some("machine"), "", PlanUnset)))

  const DELETED := PLANNED.(deleting := true)
  const RESETTING := DELETED.(plan := Some(PlanStatus(Some("machine"), "reset", PlanUnset)))
  const RELEASED := RESETTING.(
    finalizer := false,
    conds := RESETTING.conds[Ready := Condition(CondTrue, PlanSuccessfullyApplied, 0)],
    plan := Some(PlanStatus(Some("machine"), "reset", PlanApplied)))

  const EMPTY_SECRET := Secret(EmptyType, EmptyPlan, true, "", "")
  const RESET_SECRET := Secret(ResetType, ResetPlan(2), true, "", "")
  const APPLIED_SECRET := RESET_SECRET.(applied := "reset")

  function AnswersOn(secret: Secret): I.Answers {
    I.Answers(0, 0, true, I.NetworkAnswer(I.NetworkDone, {}, map[]), Some(secret), Some(secret), Some("reset"),
              Delivered, None)
  }

  const CREATE := AnswersOn(EMPTY_SECRET).(secret := None)

  const MACHINES := [
    Machine(FRESH, None, 0, None, []),
    Machine(PLANNED, Some(EMPTY_SECRET), 1, None, []),
    Machine(DELETED, Some(EMPTY_SECRET), 2, Some(1), []),
    Machine(RESETTING, Some(RESET_SECRET), 3, Some(1), []),
    Machine(RESETTING, Some(APPLIED_SECRET), 4, Some(1), [Applied(ResetPlan(2), 3)]),
    Machine(RELEASED, Some(APPLIED_SECRET), 5, Some(1), [Applied(ResetPlan(2), 3)])
  ]

  const RESET_ACTIONS := [
    Reconcile(CREATE),
    RequestDeletion,
    Reconcile(AnswersOn(EMPTY_SECRET)),
    AgentReports(true, "reset", ""),
    Reconcile(AnswersOn(APPLIED_SECRET))
  ]

  lemma PlanCreated()
    ensures I.Reconcile(FRESH, CREATE) == I.Go(PLANNED, I.CreateSecret)
  {
    var planned := I.CreatePlan(FRESH, CREATE).inv;
    assert !I.NetworkNeedsReconcile(planned);
    var networked := planned.(conds := Set(planned.conds, NetworkConfigReady, CondTrue, ReconcilingNetworkConfig, 0));
    var updated := I.UpdatePlanStatus(networked, CREATE).inv;
    assert I.UpdateAdoption(updated, CREATE) == I.Go(PLANNED, I.KeepSecret);
  }

  lemma ResetWritten()
    ensures I.Reconcile(DELETED, AnswersOn(EMPTY_SECRET)) == I.Go(RESETTING, I.WriteReset)
    ensures I.Reconcile(RESETTING, AnswersOn(APPLIED_SECRET)) == I.Go(RELEASED, I.KeepSecret)
  {
  }

  /** The premise of the main result can be met: a run that writes a reset plan, applies it and drops the finalizer. */
  lemma ResetHappens() returns (ms: seq<Machine>, actions: seq<Action>)
    ensures Run(ms, actions) && |actions| == 5 && actions[4].Reconcile?
    ensures ms[4].inv.resettable && ms[4].inv.finalizer && !ms[5].inv.finalizer
  {
    ms, actions := MACHINES, RESET_ACTIONS;
    forall i: nat | i < |actions| ensures StepAt(ms, actions, i) {
      if i == 0 {
        PlanCreated();
      } else if i == 2 || i == 4 {
        ResetWritten();
      }
    }
  }
}
