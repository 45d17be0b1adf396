/** What the phases of a MachineInventorySelector reconcile decide, and exactly when. */
module SelectorDecisions {
  import opened Wrappers
  import opened Conditions
  import opened Objects
  import opened SelectorReconcile

  predicate SameStatusBut(before: Selector, after: Selector) {
    after == before.(ref := after.ref, conds := after.conds)
  }

  /** A selector without a reference refers to an inventory exactly when its claim of one is answered. */
  lemma ClaimDecides(sel: Selector, listed: Option<seq<Inventory>>, accepted: bool, now: int)
    ensures
      var step := FindAndAdopt(sel, listed, accepted, now);
      && step != NilDeref && SameStatusBut(sel, step.sel)
      && (sel.ref.Some? ==> step == Go(sel))
      && (sel.ref.None? ==>
            && (step.sel.ref.Some? <==> ClaimChoice(sel, listed).Some? && accepted)
            && (step.sel.ref.Some? ==>
                  && step.sel.ref.value == listed.value[ClaimChoice(sel, listed).value].name
                  && InventoryReady in step.sel.conds && !IsTrue(step.sel.conds, InventoryReady))
            && (step.Stop? <==> listed.None? || (ClaimChoice(sel, listed).Some? && !accepted)))
  {
  }

  /** The inventory belongs to another selector, or has not been confirmed in the time allowed. */
  predicate GivenUp(sel: Selector, inv: Inventory, now: int)
    requires InventoryReady in sel.conds
  {
    || (OwnerName(inv).Some? && OwnerName(inv).value != sel.name)
    || (!Confirmed(inv, sel.name) && now > sel.conds[InventoryReady].since + 5)
  }

  /**
   * A selector that waits for its inventory is confirmed exactly when the inventory it reads is, gives the
   * inventory up exactly when that belongs to another selector or the time is up, and fails exactly when it
   * gives up or cannot read.
   */
  lemma WaitingDecides(sel: Selector, got: Option<Inventory>, now: int)
    requires sel.ref.Some? && InventoryReady in sel.conds && !IsTrue(sel.conds, InventoryReady)
    ensures
      var step := UpdateAdoption(sel, got, now);
      && step != NilDeref && SameStatusBut(sel, step.sel)
      && (IsTrue(step.sel.conds, InventoryReady) <==> got.Some? && Confirmed(got.value, sel.name))
      && (step.sel.ref != sel.ref <==> got.Some? && GivenUp(sel, got.value, now))
      && (step.sel.ref != sel.ref ==> step.sel.ref.None?)
      && (step.Stop? <==> got.None? || GivenUp(sel, got.value, now))
  {
  }

  /** A reference without the condition that goes with it is an error, and does not confirm anything. */
  lemma UnmarkedFails(sel: Selector, got: Option<Inventory>, now: int)
    requires sel.ref.Some? && InventoryReady !in sel.conds
    ensures
      var step := UpdateAdoption(sel, got, now);
      step.Stop? && step.sel.ref == sel.ref && !IsTrue(step.sel.conds, InventoryReady)
  {
  }

  /** Nothing moves a selector that refers to nothing or is confirmed. */
  lemma SettledStays(sel: Selector, got: Option<Inventory>, now: int)
    requires sel.ref.None? || IsTrue(sel.conds, InventoryReady)
    ensures UpdateAdoption(sel, got, now) == Go(sel)
  {
  }

  /** The selector is confirmed and its bootstrap plan has not been written yet. */
  predicate WantsBootstrap(sel: Selector) {
    IsTrue(sel.conds, InventoryReady) && sel.checksum == ""
  }

  /** The inventory that was read names its plan secret. */
  predicate NamesSecret(got: Option<Inventory>) {
    got.Some? && got.value.plan.Some? && got.value.plan.value.secretRef.Some?
  }

  /**
   * The checksum is stored exactly when the plan was made and its write into the secret was answered; a
   * write that cannot be made or is not answered is an error that leaves the checksum unset.
   */
  lemma BootstrapDecides(sel: Selector, got: Option<Inventory>, plan: Option<string>, found: bool, accepted: bool,
                         now: int)
    ensures
      var step := UpdatePlanSecret(sel, got, plan, found, accepted, now);
      && (step == NilDeref <==> WantsBootstrap(sel) && sel.ref.None?)
      && (step != NilDeref ==>
            && step.sel == sel.(checksum := step.sel.checksum, conds := step.sel.conds)
            && step.sel.checksum == (if WantsBootstrap(sel) && NamesSecret(got) && plan.Some? && found && accepted
                                     then plan.value else sel.checksum)
            && (step.Stop? <==>
                  WantsBootstrap(sel) && (got.None? || (NamesSecret(got) && (plan.None? || !found || !accepted))))
            && (step.Stop? ==> !IsTrue(step.sel.conds, Ready))
            && (IsTrue(step.sel.conds, InventoryReady) <==> IsTrue(sel.conds, InventoryReady)))
  {
  }

  /** The inventory's secret is written to exactly when there is a plan to write and a secret to hold it. */
  lemma WriteDecides(sel: Selector, got: Option<Inventory>, plan: Option<string>, found: bool)
    ensures
      var target := BootstrapTarget(sel, got, plan, found);
      && (target.Some? <==> WantsBootstrap(sel) && sel.ref.Some? && NamesSecret(got) && plan.Some? && found)
      && (target.Some? ==> target == got.value.plan.value.secretRef)
  {
  }

  /** The label of an inventory that gives an address of a kind. */
  function AddressLabel(kind: AddressKind): string {
    match kind
    case ExternalIP => "elemental.cattle.io/ExternalIP"
    case InternalIP => "elemental.cattle.io/InternalIP"
    case HostName => "elemental.cattle.io/Hostname"
  }

  predicate Labels(inv: Inventory, a: Address) {
    AddressLabel(a.kind) in inv.labels && inv.labels[AddressLabel(a.kind)] == a.value && a.value != ""
  }

  /**
   * The selector becomes ready exactly when its plan is written and its inventory can be read, and then the
   * addresses that the inventory's labels give, and no others, are added to those it has.
   */
  lemma ReadyDecides(sel: Selector, got: Option<Inventory>, now: int)
    ensures
      var step := SetAddresses(sel, got, now);
      && step != NilDeref
      && step.sel == sel.(ready := step.sel.ready, addresses := step.sel.addresses, conds := step.sel.conds)
      && (step.sel.ready <==> sel.ready || (sel.ref.Some? && sel.checksum != "" && got.Some?))
      && (step.Stop? <==> sel.ref.Some? && sel.checksum != "" && got.None?)
      && (step.Stop? ==> !IsTrue(step.sel.conds, Ready))
      && sel.addresses <= step.sel.addresses
      && (sel.ref.Some? && sel.checksum != "" && got.Some? ==>
            forall a :: a in step.sel.addresses[|sel.addresses|..] <==> Labels(got.value, a))
      && (!(sel.ref.Some? && sel.checksum != "" && got.Some?) ==> step.sel.addresses == sel.addresses)
  {
    if got.Some? {
      assert (sel.addresses + LabelAddresses(got.value.labels))[|sel.addresses|..] == LabelAddresses(got.value.labels);
    }
  }
}
