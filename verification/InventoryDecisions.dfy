/** What a MachineInventory reconcile decides, and exactly when. */
module InventoryDecisions {
  import opened Wrappers
  import opened Conditions
  import opened Objects
  import opened InventoryReconcile
  import opened InventoryFacts

  // ---- Deletion ----

  /** Plan, secret reference and the controller's own secret are all there. */
  predicate SecretKnown(inv: Inventory, a: Answers) {
    inv.plan.Some? && inv.plan.value.secretRef.Some? && a.secret.Some? && a.secret.value.owned
  }

  /** The reset plan in the secret is reported as applied, now or already before. */
  predicate ResetReported(inv: Inventory, a: Answers) {
    && SecretKnown(inv, a) && a.secret.value.planType == ResetType && a.status.Some?
    && (a.status.value.applied != "" || (a.status.value.failed == "" && inv.plan.value.state == PlanApplied))
  }

  /** The finalizer of a deleted inventory goes if and only if no reset is wanted or the reset is reported. */
  lemma ReleaseIff(inv: Inventory, a: Answers)
    requires inv.deleting && inv.finalizer
    ensures Reconcile(inv, a) != NilDeref
    ensures !Reconcile(inv, a).inv.finalizer <==> !inv.resettable || ResetReported(inv, a)
  {
  }

  /** A reset plan is written if and only if one is wanted, can be made, and the secret holds another plan. */
  lemma ResetWrittenIff(inv: Inventory, a: Answers)
    requires PlanOk(inv)
    ensures Reconcile(inv, a) != NilDeref
    ensures
      Reconcile(inv, a).op == WriteReset <==>
        && inv.deleting && inv.finalizer && inv.resettable && SecretKnown(inv, a)
        && a.secret.value.planType != ResetType && a.resetPlan.Some? && a.resetFate != Lost
    ensures
      Reconcile(inv, a).op == WriteReset && a.resetFate == Delivered ==>
        Reconcile(inv, a).inv.plan == Some(PlanStatus(inv.plan.value.secretRef, a.resetPlan.value, PlanUnset))
  {
    ReconcileKeepsPlan(inv, a);
    if !inv.deleting {
      LiveStep(inv, a);
    }
  }

  /** A deletion fails, to be tried again, exactly when a wanted reset cannot be written or is not reported. */
  lemma DeletionFailsIff(inv: Inventory, a: Answers)
    requires inv.deleting && inv.finalizer
    ensures
      Reconcile(inv, a).Stop? <==>
        && inv.resettable
        && (|| !SecretKnown(inv, a)
            || (a.secret.value.planType != ResetType && (a.resetPlan.None? || a.resetFate != Delivered))
            || (a.secret.value.planType == ResetType
                && (a.status.None? || (a.status.value.applied == "" && a.status.value.failed != ""))))
  {
  }

  // ---- The plan of a live inventory ----

  /** No attempt to create the plan secret has succeeded yet. */
  predicate PlanMissing(inv: Inventory) {
    Ready !in inv.conds || inv.conds[Ready].reason == PlanCreationFailure
  }

  lemma CreationIff(inv: Inventory, a: Answers)
    requires PlanOk(inv) && !inv.deleting
    ensures Reconcile(inv, a) != NilDeref
    ensures Reconcile(inv, a).op == CreateSecret <==> inv.finalizer && PlanMissing(inv) && a.createOk
    ensures
      inv.finalizer && PlanMissing(inv) && !a.createOk ==>
        && Reconcile(inv, a).Stop? && Reconcile(inv, a).inv.plan == inv.plan
        && Reconcile(inv, a).inv.conds[Ready].reason == PlanCreationFailure
  {
    ReconcileKeepsPlan(inv, a);
  }

  predicate PoolWithoutAddress(inv: Inventory) {
    exists p <- inv.pools :: p !in inv.addresses
  }

  /** The reconcile of a live inventory gets as far as the report of the agent. */
  predicate GetsToReport(inv: Inventory, a: Answers) {
    !inv.deleting && inv.finalizer && (PlanMissing(inv) ==> a.createOk) && !PoolWithoutAddress(inv)
  }

  /** The inventory as it is when the report is read. */
  function Planned(inv: Inventory, a: Answers): Inventory
    requires CreatePlan(inv, a).Go?
  {
    var created := CreatePlan(inv, a).inv;
    created.(conds := Set(created.conds, NetworkConfigReady, CondTrue, ReconcilingNetworkConfig, a.now))
  }

  predicate SameAdoption(before: Inventory, after: Inventory) {
    && after.name == before.name && after.owners == before.owners
    && (AdoptionReady in before.conds <==> AdoptionReady in after.conds)
    && (AdoptionReady in before.conds ==> after.conds[AdoptionReady] == before.conds[AdoptionReady])
  }

  /** A new plan names the secret of the inventory and has no state yet; one that was made before is kept. */
  lemma PlannedIs(inv: Inventory, a: Answers)
    requires PlanOk(inv) && GetsToReport(inv, a)
    ensures CreatePlan(inv, a).Go?
    ensures
      var planned := Planned(inv, a);
      && planned.plan.Some? && IsTrue(planned.conds, NetworkConfigReady) && SameAdoption(inv, planned)
      && planned.plan == (if PlanMissing(inv) then Some(PlanStatus(Some(inv.name), "", PlanUnset)) else inv.plan)
  {
  }

  lemma ReconcileFrom(inv: Inventory, a: Answers)
    requires PlanOk(inv) && GetsToReport(inv, a)
    ensures CreatePlan(inv, a).Go?
    ensures
      var status := UpdatePlanStatus(Planned(inv, a), a);
      && status != NilDeref
      && (status.Stop? ==>
            Reconcile(inv, a) == Stop(SetReady(status.inv, CondFalse, PlanFailure, a.now), CreatePlan(inv, a).op))
      && (status.Go? ==>
            var adoption := UpdateAdoption(status.inv, a);
            && adoption != NilDeref && Reconcile(inv, a).inv == adoption.inv
            && (Reconcile(inv, a).Stop? <==> adoption.Stop?) && !Reconcile(inv, a).NilDeref?)
  {
    PlannedIs(inv, a);
  }

  /** What the report leaves, whatever comes of the adoption after it. */
  predicate Reported(before: Inventory, after: Inventory, report: Option<Secret>)
    requires before.plan.Some?
  {
    && IsTrue(after.conds, NetworkConfigReady) && after.plan.Some?
    && (IsTrue(after.conds, Ready) <==> report.Some? && report.value.applied != "")
    && (report.Some? && report.value.applied != "" ==>
          after.plan == Some(PlanStatus(before.plan.value.secretRef, report.value.applied, PlanApplied)))
    && (report.Some? && report.value.applied == "" && report.value.failed != "" ==>
          after.plan == Some(PlanStatus(before.plan.value.secretRef, report.value.failed, PlanFailed)))
    && (report.None? || (report.value.applied == "" && report.value.failed == "") ==> after.plan == before.plan)
  }

  lemma StatusReports(planned: Inventory, a: Answers)
    requires planned.plan.Some? && IsTrue(planned.conds, NetworkConfigReady)
    ensures
      var status := UpdatePlanStatus(planned, a);
      && status != NilDeref && SameAdoption(planned, status.inv)
      && (status.Stop? <==> a.status.None? || (a.status.value.applied == "" && a.status.value.failed != ""))
      && (status.Go? ==> Reported(planned, status.inv, a.status))
      && (status.Stop? ==>
            Reported(planned, SetReady(status.inv, CondFalse, PlanFailure, a.now), a.status))
  {
  }

  lemma AdoptionKeepsReport(before: Inventory, mem: Inventory, a: Answers)
    requires before.plan.Some? && Reported(before, mem, a.status)
    ensures UpdateAdoption(mem, a) != NilDeref && Reported(before, UpdateAdoption(mem, a).inv, a.status)
  {
    AdoptionOnly(mem, a);
  }

  /**
   * The agent's report decides the plan state, nothing but an applied plan makes the inventory ready, and
   * the reconcile fails before the adoption exactly when the report is missing or tells of a failure.
   */
  lemma ReportDecides(inv: Inventory, a: Answers)
    requires PlanOk(inv) && GetsToReport(inv, a)
    ensures CreatePlan(inv, a).Go? && Reconcile(inv, a) != NilDeref && Planned(inv, a).plan.Some?
    ensures Reported(Planned(inv, a), Reconcile(inv, a).inv, a.status)
    ensures a.status.None? || (a.status.value.applied == "" && a.status.value.failed != "") ==> Reconcile(inv, a).Stop?
  {
    PlannedIs(inv, a);
    ReconcileFrom(inv, a);
    StatusReports(Planned(inv, a), a);
    var status := UpdatePlanStatus(Planned(inv, a), a);
    if status.Go? {
      AdoptionKeepsReport(Planned(inv, a), status.inv, a);
    }
  }

  // ---- The adoption ----

  /** The report is no failure, so the reconcile goes on to the adoption. */
  predicate GetsToAdoption(inv: Inventory, a: Answers) {
    GetsToReport(inv, a) && a.status.Some? && (a.status.value.applied != "" || a.status.value.failed == "")
  }

  /** Since when the inventory has been waiting for the selector's answer. */
  function WaitingSince(inv: Inventory, now: int): int {
    if AdoptionReady in inv.conds && inv.conds[AdoptionReady].status == CondUnknown then inv.conds[AdoptionReady].since
    else now
  }

  /** The selector refers to another machine, or to none when its time is up. */
  predicate Forsaken(inv: Inventory, selector: Selector, a: Answers) {
    if selector.ref.Some? then selector.ref.value != inv.name else a.later >= WaitingSince(inv, a.now) + 5
  }

  /** What the adoption phase makes of an owned inventory that is not adopted yet, once it has read the selector. */
  predicate Judgement(inv: Inventory, selector: Selector, a: Answers, after: Inventory, err: bool) {
    && (err <==> Forsaken(inv, selector, a))
    && (Adopted(after) <==> selector.ref == Some(inv.name))
    && (!err ==> after.owners == inv.owners)
    && (err ==>
          var idx := FirstSelector(inv.owners);
          idx >= 0 && multiset(after.owners) == multiset(inv.owners) - multiset{inv.owners[idx]})
  }

  lemma AdoptionForsakes(mem: Inventory, a: Answers)
    requires OwnerName(mem).Some? && !Adopted(mem) && a.selector.Some? && Forsaken(mem, a.selector.value, a)
    ensures
      var step := UpdateAdoption(mem, a);
      && step.Stop? && !Adopted(step.inv)
      && multiset(step.inv.owners) == multiset(mem.owners) - multiset{mem.owners[FirstSelector(mem.owners)]}
  {
    DropSelectorRemovesOne(mem.owners);
  }

  lemma AdoptionWaitsOrConfirms(mem: Inventory, a: Answers)
    requires OwnerName(mem).Some? && !Adopted(mem) && a.selector.Some? && !Forsaken(mem, a.selector.value, a)
    ensures
      var step := UpdateAdoption(mem, a);
      && step.Go? && step.inv.owners == mem.owners
      && (Adopted(step.inv) <==> a.selector.value.ref == Some(mem.name))
  {
  }

  lemma AdoptionJudges(mem: Inventory, a: Answers)
    requires OwnerName(mem).Some? && !Adopted(mem) && a.selector.Some?
    ensures
      var step := UpdateAdoption(mem, a);
      step != NilDeref && Judgement(mem, a.selector.value, a, step.inv, step.Stop?)
  {
    if Forsaken(mem, a.selector.value, a) {
      AdoptionForsakes(mem, a);
    } else {
      AdoptionWaitsOrConfirms(mem, a);
    }
  }

  lemma SameJudgement(inv: Inventory, mem: Inventory, selector: Selector, a: Answers, after: Inventory, err: bool)
    requires SameAdoption(inv, mem) && Judgement(mem, selector, a, after, err)
    ensures Judgement(inv, selector, a, after, err)
  {
  }

  /**
   * A reconcile that reads the owner's selector adopts the inventory exactly when the selector refers to
   * it; it gives up the selector, and only the selector, exactly when that refers to another inventory or
   * to none after the time allowed.
   */
  lemma ReconcileJudges(inv: Inventory, a: Answers)
    requires PlanOk(inv) && GetsToAdoption(inv, a)
    requires OwnerName(inv).Some? && !Adopted(inv) && a.selector.Some?
    ensures
      var step := Reconcile(inv, a);
      step != NilDeref && Judgement(inv, a.selector.value, a, step.inv, step.Stop?)
  {
    PlannedIs(inv, a);
    ReconcileFrom(inv, a);
    StatusReports(Planned(inv, a), a);
    var mem := UpdatePlanStatus(Planned(inv, a), a).inv;
    AdoptionJudges(mem, a);
    SameJudgement(inv, mem, a.selector.value, a, Reconcile(inv, a).inv, Reconcile(inv, a).Stop?);
  }

  lemma AdoptionLeaves(mem: Inventory, a: Answers)
    requires OwnerName(mem).None? || Adopted(mem) || a.selector.None?
    ensures
      var step := UpdateAdoption(mem, a);
      && step != NilDeref && step.inv.owners == mem.owners
      && (Adopted(step.inv) <==> Adopted(mem) && OwnerName(mem).Some?)
      && (step.Stop? <==> OwnerName(mem).Some? && !Adopted(mem))
  {
  }

  /** Without an owner, or once adopted, nothing is to be decided; a selector that cannot be read is an error. */
  lemma ReconcileLeaves(inv: Inventory, a: Answers)
    requires PlanOk(inv) && GetsToAdoption(inv, a)
    requires OwnerName(inv).None? || Adopted(inv) || a.selector.None?
    ensures
      var step := Reconcile(inv, a);
      && step != NilDeref && step.inv.owners == inv.owners
      && (Adopted(step.inv) <==> Adopted(inv) && OwnerName(inv).Some?)
      && (step.Stop? <==> OwnerName(inv).Some? && !Adopted(inv))
  {
    PlannedIs(inv, a);
    ReconcileFrom(inv, a);
    StatusReports(Planned(inv, a), a);
    AdoptionLeaves(UpdatePlanStatus(Planned(inv, a), a).inv, a);
  }

  /** Whatever it reads, a reconcile adopts only an inventory that the selector it reads refers to. */
  lemma AdoptsOnlyReferred(inv: Inventory, a: Answers)
    requires PlanOk(inv) && (Adopted(inv) ==> OwnerName(inv).Some?)
    requires Reconcile(inv, a) != NilDeref && Adopted(Reconcile(inv, a).inv) && !Adopted(inv)
    ensures OwnerName(inv).Some? && a.selector.Some? && a.selector.value.ref == Some(inv.name)
  {
    if inv.deleting {
      ResetKeepsOwner(inv, a);
      ResetOnly(inv, a);
      ReadyKeepsAdoption(ReconcileReset(inv, a).inv, CondFalse, PlanFailure, a.later);
    } else if GetsToAdoption(inv, a) {
      if OwnerName(inv).Some? && a.selector.Some? {
        ReconcileJudges(inv, a);
      } else {
        ReconcileLeaves(inv, a);
      }
    } else {
      StopsUnadopted(inv, a);
    }
  }

  /** A live reconcile that stops before the adoption does not touch it. */
  lemma StopsUnadopted(inv: Inventory, a: Answers)
    requires PlanOk(inv) && !inv.deleting && !GetsToAdoption(inv, a)
    ensures Reconcile(inv, a) != NilDeref && (Adopted(Reconcile(inv, a).inv) <==> Adopted(inv))
  {
    if GetsToReport(inv, a) {
      PlannedIs(inv, a);
      ReconcileFrom(inv, a);
      StatusReports(Planned(inv, a), a);
    } else if inv.finalizer {
      CreationNeutral(inv, a);
      var created := CreatePlan(inv, a);
      if created.Go? {
        NetworkNeutral(created.inv, a, created.op);
      }
    }
  }

  // ---- The network ----

  /** While a pool has no address the adoption waits and the inventory is not ready. */
  lemma NetworkFirst(inv: Inventory, a: Answers)
    requires PlanOk(inv) && !inv.deleting && inv.finalizer && (PlanMissing(inv) ==> a.createOk)
    requires PoolWithoutAddress(inv)
    ensures
      var step := Reconcile(inv, a);
      && step != NilDeref && !IsTrue(step.inv.conds, Ready) && step.inv.owners == inv.owners
      && step.inv.claims == a.network.claims && step.inv.addresses == a.network.addresses
      && (step.Stop? <==> a.network.result.NetworkFailed?)
      && (a.network.result.NetworkWaiting? ==>
            NetworkConfigReady in step.inv.conds && step.inv.conds[NetworkConfigReady].status == CondFalse)
      && (Adopted(step.inv) <==> Adopted(inv))
  {
    CreationNeutral(inv, a);
    NetworkNeutral(CreatePlan(inv, a).inv, a, CreatePlan(inv, a).op);
  }

  /** A live inventory without the finalizer gets it, and nothing else happens. */
  lemma FinalizerFirst(inv: Inventory, a: Answers)
    requires !inv.deleting && !inv.finalizer
    ensures Reconcile(inv, a) == Go(inv.(finalizer := true), KeepSecret)
  {
  }
}
