/** What one inventory reconcile keeps, whatever it learns from outside. */
module InventoryFacts {
  import opened Conditions
  import opened Objects
  import opened InventoryReconcile

  /** A plan reference names the inventory's own secret; a live inventory that skips creation has a plan. */
  predicate PlanOk(v: Inventory) {
    && (v.plan.Some? && v.plan.value.secretRef.Some? ==> v.plan.value.secretRef.value == v.name)
    && (!v.deleting && SkipsPlanCreation(v) ==> v.plan.Some?)
  }

  // ---- The plan ----

  /** A phase does not crash and leaves a sound plan on the same object. */
  predicate PlanKept(mem: Inventory, step: Step) {
    step != NilDeref && step.inv.name == mem.name && step.inv.deleting == mem.deleting && PlanOk(step.inv)
  }

  lemma PlanStatusKeepsPlan(mem: Inventory, a: Answers)
    requires PlanOk(mem) && mem.plan.Some?
    ensures PlanKept(mem, UpdatePlanStatus(mem, a)) && UpdatePlanStatus(mem, a).inv.plan.Some?
  {
  }

  /** The adoption phase touches the owners and its own condition only. */
  predicate OnlyAdoption(before: Inventory, after: Inventory) {
    && after == before.(owners := after.owners, conds := after.conds)
    && (forall k :: k != AdoptionReady ==> (k in before.conds <==> k in after.conds))
    && (forall k <- before.conds :: k != AdoptionReady ==> after.conds[k] == before.conds[k])
  }

  lemma SetAdoptionOnly(before: Inventory, mem: Inventory, status: Status, reason: Reason, now: int)
    requires OnlyAdoption(before, mem)
    ensures OnlyAdoption(before, SetAdoption(mem, status, reason, now))
    ensures Adopted(SetAdoption(mem, status, reason, now)) <==> status == CondTrue
  {
  }

  /** What the adoption phase leaves of an inventory. */
  predicate AdoptionStep(mem: Inventory, step: Step) {
    && step != NilDeref && step.op == KeepSecret && OnlyAdoption(mem, step.inv)
    && (Adopted(mem) && OwnerName(mem).Some? ==> step.inv == mem)
    && (Adopted(step.inv) ==> step.inv.owners == mem.owners && OwnerName(mem).Some?)
  }

  /** The phase ends before it looks at the selector. */
  lemma AdoptionUnjudged(mem: Inventory, a: Answers)
    requires OwnerName(mem).None? || Adopted(mem) || a.selector.None?
    ensures AdoptionStep(mem, UpdateAdoption(mem, a))
  {
    SetAdoptionOnly(mem, mem, CondFalse, WaitingToBeAdopted, a.now);
    SetAdoptionOnly(mem, mem, CondFalse, AdoptionFailure, a.now);
  }

  /** The selector confirms, is given more time, or loses the inventory. */
  lemma AdoptionJudged(mem: Inventory, a: Answers)
    requires OwnerName(mem).Some? && !Adopted(mem) && a.selector.Some?
    ensures AdoptionStep(mem, UpdateAdoption(mem, a))
  {
    var validating := SetAdoption(mem, CondUnknown, ValidatingAdoption, a.now);
    var dropped := validating.(owners := DropSelector(mem.owners));
    SetAdoptionOnly(mem, mem, CondUnknown, ValidatingAdoption, a.now);
    SetAdoptionOnly(mem, dropped, CondFalse, AdoptionFailure, a.later);
    SetAdoptionOnly(mem, validating, CondTrue, SuccessfullyAdopted, a.later);
  }

  lemma AdoptionOnly(mem: Inventory, a: Answers)
    ensures AdoptionStep(mem, UpdateAdoption(mem, a))
  {
    if OwnerName(mem).None? || Adopted(mem) || a.selector.None? {
      AdoptionUnjudged(mem, a);
    } else {
      AdoptionJudged(mem, a);
    }
  }

  lemma AdoptionKeepsPlan(mem: Inventory, a: Answers)
    requires PlanOk(mem) && mem.plan.Some?
    ensures PlanKept(mem, UpdateAdoption(mem, a))
  {
    AdoptionOnly(mem, a);
    var inv := UpdateAdoption(mem, a).inv;
    assert inv.plan == mem.plan && inv.name == mem.name && inv.deleting == mem.deleting;
    assert SkipsPlanCreation(inv) <==> SkipsPlanCreation(mem);
  }

  lemma CreationKeepsPlan(mem: Inventory, a: Answers)
    requires PlanOk(mem) && !mem.deleting
    ensures
      var step := CreatePlan(mem, a);
      PlanKept(mem, step) && (step.Go? ==> step.inv.plan.Some?)
  {
  }

  lemma LiveKeepsPlan(base: Inventory, a: Answers)
    requires PlanOk(base) && !base.deleting
    ensures PlanKept(base, ReconcileLive(base, a))
  {
    CreationKeepsPlan(base, a);
    var created := CreatePlan(base, a);
    if base.finalizer && created.Go? && !NetworkNeedsReconcile(created.inv) {
      var planned := created.inv;
      var conds := Set(planned.conds, NetworkConfigReady, CondTrue, ReconcilingNetworkConfig, a.now);
      var networked := planned.(conds := conds);
      PlanStatusKeepsPlan(networked, a);
      if UpdatePlanStatus(networked, a).Go? {
        AdoptionKeepsPlan(UpdatePlanStatus(networked, a).inv, a);
      }
    }
  }

  lemma ReconcileKeepsPlan(base: Inventory, a: Answers)
    requires PlanOk(base)
    ensures PlanKept(base, Reconcile(base, a))
  {
    if !base.deleting {
      LiveKeepsPlan(base, a);
    } else if base.plan.Some? {
      PlanStatusKeepsPlan(base, a);
    }
  }

  // ---- The owner and the adoption ----

  /** Adoption is only added to an owned inventory, and an adopted inventory keeps its owners. */
  predicate AdoptionKept(base: Inventory, mem: Inventory) {
    && (Adopted(base) ==> Adopted(mem))
    && (Adopted(base) || Adopted(mem) ==> mem.owners == base.owners && OwnerName(base).Some?)
  }

  /** A phase that leaves owners, adoption and finalizer alone and writes no reset plan. */
  predicate Neutral(mem: Inventory, step: Step) {
    && step != NilDeref && step.op != WriteReset
    && step.inv.owners == mem.owners && step.inv.finalizer == mem.finalizer
    && (Adopted(step.inv) <==> Adopted(mem))
  }

  lemma CreationNeutral(mem: Inventory, a: Answers)
    ensures Neutral(mem, CreatePlan(mem, a))
  {
  }

  lemma NetworkNeutral(mem: Inventory, a: Answers, op: SecretOp)
    requires op != WriteReset
    ensures Neutral(mem, ReconcileNetwork(mem, a, op))
  {
  }

  lemma PlanStatusNeutral(mem: Inventory, a: Answers)
    requires mem.plan.Some?
    ensures Neutral(mem, UpdatePlanStatus(mem, a))
  {
  }

  lemma AdoptionKeepsOwner(mem: Inventory, a: Answers)
    ensures
      var step := UpdateAdoption(mem, a);
      && step != NilDeref && step.op == KeepSecret && step.inv.finalizer == mem.finalizer
      && ((Adopted(mem) ==> OwnerName(mem).Some?) ==> AdoptionKept(mem, step.inv))
  {
    AdoptionOnly(mem, a);
  }

  /** A live inventory's reconcile never writes a reset plan and never drops the finalizer. */
  lemma LiveStep(base: Inventory, a: Answers)
    requires PlanOk(base) && !base.deleting
    ensures
      var step := ReconcileLive(base, a);
      && step != NilDeref && step.op != WriteReset && step.inv.finalizer
      && ((Adopted(base) ==> OwnerName(base).Some?) ==> AdoptionKept(base, step.inv))
  {
    if base.finalizer {
      CreationNeutral(base, a);
      CreationKeepsPlan(base, a);
      var created := CreatePlan(base, a);
      if created.Go? {
        var planned := created.inv;
        NetworkNeutral(planned, a, created.op);
        if !NetworkNeedsReconcile(planned) {
          var conds := Set(planned.conds, NetworkConfigReady, CondTrue, ReconcilingNetworkConfig, a.now);
          var networked := planned.(conds := conds);
          PlanStatusNeutral(networked, a);
          var updated := UpdatePlanStatus(networked, a);
          if updated.Go? {
            AdoptionKeepsOwner(updated.inv, a);
          }
        }
      }
    }
  }

  lemma ReadyKeepsAdoption(inv: Inventory, status: Status, reason: Reason, now: int)
    ensures Adopted(SetReady(inv, status, reason, now)) <==> Adopted(inv)
  {
  }

  /** The reset of a deleted inventory touches neither its owners nor its adoption. */
  lemma ResetOnly(base: Inventory, a: Answers)
    ensures
      var step := ReconcileReset(base, a);
      step != NilDeref && step.inv.owners == base.owners && (Adopted(step.inv) <==> Adopted(base))
  {
    if base.plan.Some? {
      PlanStatusNeutral(base, a);
    }
  }

  lemma ResetKeepsOwner(base: Inventory, a: Answers)
    requires Adopted(base) ==> OwnerName(base).Some?
    ensures
      var step := ReconcileDeleted(base, a);
      step != NilDeref && AdoptionKept(base, step.inv)
  {
    ResetOnly(base, a);
    ReadyKeepsAdoption(ReconcileReset(base, a).inv, CondFalse, PlanFailure, a.later);
  }
}
