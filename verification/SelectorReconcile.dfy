/** The four phases of one MachineInventorySelector reconcile. */
module SelectorReconcile {
  import opened Wrappers
  import opened Conditions
  import opened Objects
  import opened ApiServer

  /** What a phase leaves: go on, stop with an error, or dereference a nil reference. */
  datatype Step = Go(sel: Selector) | Stop(sel: Selector) | NilDeref

  predicate Claimable(inv: Inventory) {
    !inv.deleting && OwnerName(inv).None?
  }

  /** The item a selector without a reference tries to claim: the first claimable one. */
  function ClaimChoice(sel: Selector, listed: Option<seq<Inventory>>): (choice: Option<nat>)
    ensures choice.Some? ==>
              && sel.ref.None? && listed.Some? && choice.value < |listed.value|
              && Claimable(listed.value[choice.value])
              && forall i :: 0 <= i < choice.value ==> !Claimable(listed.value[i])
    ensures choice.None? && sel.ref.None? && listed.Some? ==>
              forall i :: 0 <= i < |listed.value| ==> !Claimable(listed.value[i])
  {
    if sel.ref.Some? || listed.None? then None else FirstClaimable(listed.value, 0)
  }

  function FirstClaimable(items: seq<Inventory>, from: nat): (choice: Option<nat>)
    requires from <= |items|
    ensures choice.Some? ==>
              && from <= choice.value < |items| && Claimable(items[choice.value])
              && forall i :: from <= i < choice.value ==> !Claimable(items[i])
    ensures choice.None? ==> forall i :: from <= i < |items| ==> !Claimable(items[i])
    decreases |items| - from
  {
    if from == |items| then None
    else if Claimable(items[from]) then Some(from)
    else FirstClaimable(items, from + 1)
  }

  /** The claim replaces every owner reference by one to the selector. */
  function ClaimedBy(inv: Inventory, sel: Name): Inventory {
    inv.(owners := [OwnerRef(SelectorKind, sel)])
  }

  function FindAndAdopt(sel: Selector, listed: Option<seq<Inventory>>, accepted: bool, now: int): Step {
    if sel.ref.Some? then Go(sel)
    else
      var waiting := sel.(conds := Set(sel.conds, Ready, CondFalse, WaitingForInventory, now));
      var failed := Stop(waiting.(conds := Set(waiting.conds, Ready, CondFalse, FailedToAdoptInventory, now)));
      if listed.None? then failed
      else
        var choice := ClaimChoice(sel, listed);
        if choice.None? then Go(waiting)
        else if !accepted then failed
        else Go(waiting.(
                ref := Some(listed.value[choice.value].name),
                conds := Set(waiting.conds, InventoryReady, CondUnknown, WaitForInventoryCheck, now)))
  }

  function AdoptionFailed(sel: Selector, now: int): Step {
    Stop(sel.(conds := Set(sel.conds, InventoryReady, CondFalse, FailedToAdoptInventory, now)))
  }

  function UpdateAdoption(sel: Selector, got: Option<Inventory>, now: int): Step {
    if sel.ref.None? then Go(sel)
    else if InventoryReady !in sel.conds then AdoptionFailed(sel, now)
    else if IsTrue(sel.conds, InventoryReady) then Go(sel)
    else if got.None? then AdoptionFailed(sel, now)
    else
      var owner := OwnerName(got.value);
      var orphan := owner.None? || !Adopted(got.value);
      var deadline := sel.conds[InventoryReady].since + ADOPTION_TIMEOUT;
      if owner.Some? && owner.value != sel.name then AdoptionFailed(sel.(ref := None), now)
      else if orphan && now > deadline then AdoptionFailed(sel.(ref := None), now)
      else if orphan then
        Go(sel.(conds := Set(sel.conds, InventoryReady, CondUnknown, WaitForInventoryCheck, now)))
      else
        Go(sel.(conds := Set(sel.conds, InventoryReady, CondTrue, SuccessfullyAdoptedInventory, now)))
  }

  /** The plan secret a bootstrap phase writes to, when it gets as far as writing. */
  function BootstrapTarget(sel: Selector, got: Option<Inventory>, plan: Option<string>,
                           secretFound: bool): Option<Name> {
    if IsTrue(sel.conds, InventoryReady) && sel.checksum == "" && sel.ref.Some?
       && got.Some? && got.value.plan.Some? && plan.Some? && secretFound
    then got.value.plan.value.secretRef
    else None
  }

  function PlanUpdateFailed(sel: Selector, now: int): Step {
    Stop(sel.(conds := Set(sel.conds, Ready, CondFalse, FailedToUpdatePlan, now)))
  }

  function UpdatePlanSecret(sel: Selector, got: Option<Inventory>, plan: Option<string>, secretFound: bool,
                            accepted: bool, now: int): Step
  {
    if !IsTrue(sel.conds, InventoryReady) || sel.checksum != "" then Go(sel)
    else if sel.ref.None? then NilDeref
    else if got.None? then PlanUpdateFailed(sel, now)
    else if got.value.plan.None? || got.value.plan.value.secretRef.None? then Go(sel)
    else if plan.None? || !secretFound || !accepted then PlanUpdateFailed(sel, now)
    else Go(sel.(checksum := plan.value,
                 conds := Set(sel.conds, Ready, CondFalse, SuccessfullyUpdatedPlan, now)))
  }

  function LabelOf(kind: AddressKind): string {
    match kind
    case ExternalIP => "elemental.cattle.io/ExternalIP"
    case InternalIP => "elemental.cattle.io/InternalIP"
    case HostName => "elemental.cattle.io/Hostname"
  }

  function AddressOf(labels: map<string, string>, kind: AddressKind): seq<Address> {
    if LabelOf(kind) in labels && labels[LabelOf(kind)] != "" then [Address(kind, labels[LabelOf(kind)])] else []
  }

  /** The addresses an inventory's labels give: exactly the non-empty ones, external before internal before host. */
  function LabelAddresses(labels: map<string, string>): (addresses: seq<Address>)
    ensures forall a :: a in addresses <==> LabelOf(a.kind) in labels && labels[LabelOf(a.kind)] == a.value != ""
    ensures |addresses| <= 3
  {
    AddressOf(labels, ExternalIP) + AddressOf(labels, InternalIP) + AddressOf(labels, HostName)
  }

  function SetAddresses(sel: Selector, got: Option<Inventory>, now: int): Step {
    if sel.ref.None? || sel.checksum == "" then Go(sel)
    else if got.None? then Stop(sel.(conds := Set(sel.conds, Ready, CondFalse, FailedToSetAddresses, now)))
    else Go(sel.(addresses := sel.addresses + LabelAddresses(got.value.labels), ready := true,
                 conds := Set(sel.conds, Ready, CondTrue, SelectorReady, now)))
  }

  /** The selector as one reconcile holds it in memory; the phases update it in place. */
  class Reconciler {
    var sel: Selector

    constructor (stored: Selector)
      ensures sel == stored
    {
      sel := stored;
    }

    ghost function After(err: bool): Step
      reads this
    {
      if err then Stop(sel) else Go(sel)
    }

    method SetCondition(k: Kind, status: Status, reason: Reason, now: int)
      modifies this
      ensures sel == old(sel).(conds := Set(old(sel.conds), k, status, reason, now))
    {
      sel := sel.(conds := Set(sel.conds, k, status, reason, now));
    }

    method FindAndAdoptInventory(api: Server, listing: Option<seq<Read>>, fate: Fate, now: int) returns (err: bool)
      requires listing.Some? ==> Readable(api.invs, listing.value)
      modifies this, api`invs
      ensures
        var listed := if listing.None? then None else Some(ItemsOf(old(api.invs), listing.value));
        var choice := ClaimChoice(old(sel), listed);
        if choice.None? then
          && api.invs == old(api.invs)
          && After(err) == FindAndAdopt(old(sel), listed, false, now)
        else
          var r := listing.value[choice.value];
          var history := old(api.invs)[r.inv];
          && api.invs == old(api.invs)[r.inv :=
               Patched(history, r.version, ClaimedBy(listed.value[choice.value], old(sel.name)), r.inv !in api.gone,
                       fate)]
          && var accepted := Lands(|history|, r.version, r.inv !in api.gone, fate) && fate == Delivered;
             After(err) == FindAndAdopt(old(sel), listed, accepted, now)
    {
      if sel.ref.Some? {
        return false;
      }
      SetCondition(Ready, CondFalse, WaitingForInventory, now);
      if listing.None? {
        SetCondition(Ready, CondFalse, FailedToAdoptInventory, now);
        return true;
      }
      var items := ItemsOf(api.invs, listing.value);
      var chosen := -1;
      for i := 0 to |items|
        invariant chosen == -1
        invariant FirstClaimable(items, 0) == FirstClaimable(items, i)
      {
        if items[i].deleting {
          continue;
        }
        if FirstSelector(items[i].owners) < 0 {
          chosen := i;
          break;
        }
      }
      if chosen == -1 {
        return false;
      }
      var r := listing.value[chosen];
      var ok := api.PatchInventory(r, ClaimedBy(items[chosen], sel.name), fate);
      if !ok {
        SetCondition(Ready, CondFalse, FailedToAdoptInventory, now);
        return true;
      }
      sel := sel.(ref := Some(items[chosen].name));
      SetCondition(InventoryReady, CondUnknown, WaitForInventoryCheck, now);
      return false;
    }

    method UpdateAdoptionStatus(got: Option<Inventory>, now: int) returns (err: bool)
      modifies this
      ensures After(err) == UpdateAdoption(old(sel), got, now)
    {
      if sel.ref.None? {
        return false;
      }
      if InventoryReady in sel.conds && sel.conds[InventoryReady].status == CondTrue {
        return false;
      }
      err := InventoryReady !in sel.conds || got.None?;
      if !err {
        var owner := OwnerName(got.value);
        var orphan := owner.None? || !IsTrue(got.value.conds, AdoptionReady);
        var deadline := sel.conds[InventoryReady].since + ADOPTION_TIMEOUT;
        if owner.Some? && owner.value != sel.name {
          sel, err := sel.(ref := None), true;
        } else if orphan && now > deadline {
          sel, err := sel.(ref := None), true;
        } else if orphan {
          SetCondition(InventoryReady, CondUnknown, WaitForInventoryCheck, now);
        } else {
          SetCondition(InventoryReady, CondTrue, SuccessfullyAdoptedInventory, now);
        }
      }
      if err {
        SetCondition(InventoryReady, CondFalse, FailedToAdoptInventory, now);
      }
    }

    method UpdatePlanSecretWithBootstrap(api: Server, got: Option<Inventory>, plan: Option<string>, secretFound: bool,
                                         fate: Fate, now: int)
      returns (err: bool)
      requires IsTrue(sel.conds, InventoryReady) && sel.checksum == "" ==> sel.ref.Some?
      modifies this, api`bootWrites
      ensures After(err) == UpdatePlanSecret(old(sel), got, plan, secretFound, fate == Delivered, now)
      ensures
        var target := BootstrapTarget(old(sel), got, plan, secretFound);
        api.bootWrites == old(api.bootWrites) +
                          (if target.None? || fate == Lost then [] else [BootWrite(old(sel.name), target.value)])
    {
      if !IsTrue(sel.conds, InventoryReady) || sel.checksum != "" {
        return false;
      }
      err := got.None?;
      if !err {
        if got.value.plan.None? || got.value.plan.value.secretRef.None? {
          return false;
        }
        err := plan.None? || !secretFound;
        if !err {
          var ok := api.PatchPlanSecret(sel.name, got.value.plan.value.secretRef.value, fate);
          err := !ok;
        }
      }
      if err {
        SetCondition(Ready, CondFalse, FailedToUpdatePlan, now);
        return true;
      }
      sel := sel.(checksum := plan.value);
      SetCondition(Ready, CondFalse, SuccessfullyUpdatedPlan, now);
    }

    method AppendAddress(labels: map<string, string>, kind: AddressKind)
      modifies this
      ensures sel == old(sel).(addresses := old(sel.addresses) + AddressOf(labels, kind))
    {
      var val := if LabelOf(kind) in labels then labels[LabelOf(kind)] else "";
      if val != "" {
        sel := sel.(addresses := sel.addresses + [Address(kind, val)]);
      }
    }

    method SetSelectorAddresses(got: Option<Inventory>, now: int) returns (err: bool)
      modifies this
      ensures After(err) == SetAddresses(old(sel), got, now)
    {
      if sel.ref.None? || sel.checksum == "" {
        return false;
      }
      if got.None? {
        SetCondition(Ready, CondFalse, FailedToSetAddresses, now);
        return true;
      }
      ghost var before := sel.addresses;
      AppendAddress(got.value.labels, ExternalIP);
      AppendAddress(got.value.labels, InternalIP);
      AppendAddress(got.value.labels, HostName);
      assert sel.addresses == before + LabelAddresses(got.value.labels);
      sel := sel.(ready := true);
      SetCondition(Ready, CondTrue, SelectorReady, now);
      return false;
    }
  }
}
