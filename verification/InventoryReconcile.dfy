/** One MachineInventory reconcile: plan secret, network, plan status, adoption and reset. */
module InventoryReconcile {
  import opened Wrappers
  import opened Conditions
  import opened Objects

  /** What the reconcile does to the plan secret. */
  datatype SecretOp = KeepSecret | CreateSecret | WriteReset

  /** A phase succeeds, fails, or dereferences a nil plan status. */
  datatype Step = Go(inv: Inventory, op: SecretOp) | Stop(inv: Inventory, op: SecretOp) | NilDeref

  datatype NetworkResult = NetworkFailed | NetworkWaiting | NetworkDone

  datatype AddressRead = Assigned(value: string) | NotAssigned | ReadFailed

  /** The address claims and addresses a network reconcile leaves in the spec. */
  datatype NetworkAnswer = NetworkAnswer(result: NetworkResult, claims: set<Name>, addresses: map<Name, string>)

  /** Everything a reconcile learns from outside; `secret` and `status` are two separate reads. */
  datatype Answers = Answers(
    now: int,
    later: int,
    createOk: bool,
    network: NetworkAnswer,
    secret: Option<Secret>,
    status: Option<Secret>,
    resetPlan: Option<string>,
    resetFate: Fate,
    selector: Option<Selector>)

  function SetReady(inv: Inventory, status: Status, reason: Reason, now: int): Inventory {
    inv.(conds := Set(inv.conds, Ready, status, reason, now))
  }

  function SetAdoption(inv: Inventory, status: Status, reason: Reason, now: int): Inventory {
    inv.(conds := Set(inv.conds, AdoptionReady, status, reason, now))
  }

  predicate SkipsPlanCreation(inv: Inventory) {
    Ready in inv.conds && inv.conds[Ready].reason != PlanCreationFailure
  }

  function CreatePlan(inv: Inventory, a: Answers): Step {
    if SkipsPlanCreation(inv) then Go(inv, KeepSecret)
    else if !a.createOk then Stop(SetReady(inv, CondFalse, PlanCreationFailure, a.now), KeepSecret)
    else Go(SetReady(inv.(plan := Some(PlanStatus(Some(inv.name), "", PlanUnset))),
                     CondFalse, WaitingForPlan, a.now), CreateSecret)
  }

  predicate NetworkNeedsReconcile(inv: Inventory) {
    exists p :: p in inv.pools && p !in inv.addresses
  }

  /** What a network reconcile finds of an inventory, and what the cluster answers to its requests. */
  datatype NetworkRequest = NetworkRequest(
    pools: set<Name>,
    claims: set<Name>,
    addresses: map<Name, string>,
    claimed: Name -> bool,
    address: Name -> AddressRead)

  function RequestOf(inv: Inventory, claimed: Name -> bool, address: Name -> AddressRead): NetworkRequest {
    NetworkRequest(inv.pools, inv.claims, inv.addresses, claimed, address)
  }

  /** What the two loops of a network reconcile can answer, over all orders of the maps. */
  predicate NetworkOutcome(req: NetworkRequest, answer: NetworkAnswer) {
    var claims := req.claims + req.pools;
    && (answer.result.NetworkDone? <==>
          (forall p <- req.pools :: req.claimed(p)) && forall c <- claims :: req.address(c).Assigned?)
    && (answer.result.NetworkFailed? ==>
          (exists p <- req.pools :: !req.claimed(p)) || exists c <- claims :: req.address(c).ReadFailed?)
    && (answer.result.NetworkWaiting? ==>
          (forall p <- req.pools :: req.claimed(p)) && exists c <- claims :: req.address(c).NotAssigned?)
    && req.claims <= answer.claims <= req.claims + (set p | p in req.pools && req.claimed(p))
    && (!answer.result.NetworkFailed? ==> answer.claims == claims)
    && (answer.result.NetworkDone? ==> claims <= answer.addresses.Keys)
    && req.addresses.Keys <= answer.addresses.Keys <= req.addresses.Keys + answer.claims
    && (forall c <- answer.addresses :: AddressFrom(req, answer.addresses, c))
  }

  /** An address is the one its claim has now, or the one it was. */
  predicate AddressFrom(req: NetworkRequest, addresses: map<Name, string>, c: Name)
    requires c in addresses
  {
    req.address(c) == Assigned(addresses[c]) || (c in req.addresses && addresses[c] == req.addresses[c])
  }

  function ReconcileNetwork(inv: Inventory, a: Answers, op: SecretOp): Step {
    var marked := SetReady(inv, CondFalse, ReconcilingNetworkConfig, a.now)
                  .(claims := a.network.claims, addresses := a.network.addresses);
    match a.network.result
    case NetworkDone => Go(marked, op)
    case NetworkWaiting =>
      Go(marked.(conds := Set(marked.conds, NetworkConfigReady, CondFalse, WaitingForIPAddress, a.now)), op)
    case NetworkFailed => Stop(SetReady(marked, CondFalse, NetworkConfigFailure, a.now), op)
  }

  function UpdatePlanStatus(inv: Inventory, a: Answers): Step {
    if a.status.None? then Stop(inv, KeepSecret)
    else if a.status.value.applied != "" then
      if inv.plan.None? then NilDeref
      else Go(SetReady(inv.(plan := Some(inv.plan.value.(state := PlanApplied, checksum := a.status.value.applied))),
                       CondTrue, PlanSuccessfullyApplied, a.now), KeepSecret)
    else if a.status.value.failed != "" then
      if inv.plan.None? then NilDeref
      else Stop(inv.(plan := Some(inv.plan.value.(state := PlanFailed, checksum := a.status.value.failed))), KeepSecret)
    else Go(SetReady(inv, CondFalse, WaitingForPlan, a.now), KeepSecret)
  }

  /** Dropping the selector's ownership moves the last owner reference into its place. */
  function DropSelector(owners: seq<OwnerRef>): seq<OwnerRef> {
    var idx := FirstSelector(owners);
    if idx < 0 then owners else owners[idx := owners[|owners| - 1]][..|owners| - 1]
  }

  lemma SwapOut<T>(s: seq<T>, i: nat)
    requires i < |s|
    ensures multiset(s[i := s[|s| - 1]][..|s| - 1]) == multiset(s) - multiset{s[i]}
  {
    var last := s[|s| - 1];
    var kept := s[..|s| - 1];
    assert s == kept + [last];
    if i == |s| - 1 {
      assert s[i := last][..|s| - 1] == kept;
    } else {
      assert s[i := last][..|s| - 1] == kept[i := last];
      assert kept[i] == s[i];
    }
  }

  /** Exactly the selector's own reference goes, whatever the order of the others. */
  lemma DropSelectorRemovesOne(owners: seq<OwnerRef>)
    ensures
      var idx := FirstSelector(owners);
      multiset(DropSelector(owners)) == if idx < 0 then multiset(owners) else multiset(owners) - multiset{owners[idx]}
  {
    var idx := FirstSelector(owners);
    if idx >= 0 {
      SwapOut(owners, idx);
    }
  }

  function UpdateAdoption(inv: Inventory, a: Answers): Step {
    var owner := OwnerName(inv);
    if owner.None? then Go(SetAdoption(inv, CondFalse, WaitingToBeAdopted, a.now), KeepSecret)
    else if Adopted(inv) then Go(inv, KeepSecret)
    else if a.selector.None? then Stop(SetAdoption(inv, CondFalse, AdoptionFailure, a.now), KeepSecret)
    else
      var validating := SetAdoption(inv, CondUnknown, ValidatingAdoption, a.now);
      var deadline := validating.conds[AdoptionReady].since + ADOPTION_TIMEOUT;
      var dropped := SetAdoption(validating.(owners := DropSelector(inv.owners)), CondFalse, AdoptionFailure, a.later);
      if a.selector.value.ref.None? then
        if a.later < deadline then Go(validating, KeepSecret) else Stop(dropped, KeepSecret)
      else if a.selector.value.ref.value != inv.name then Stop(dropped, KeepSecret)
      else Go(SetAdoption(validating, CondTrue, SuccessfullyAdopted, a.later), KeepSecret)
  }

  function ReconcileReset(inv: Inventory, a: Answers): Step {
    if !inv.resettable then Go(inv.(finalizer := false), KeepSecret)
    else if inv.plan.None? || inv.plan.value.secretRef.None? then Stop(inv, KeepSecret)
    else if a.secret.None? || !a.secret.value.owned then Stop(inv, KeepSecret)
    else if a.secret.value.planType != ResetType then
      var op := if a.resetPlan.None? || a.resetFate == Lost then KeepSecret else WriteReset;
      if a.resetPlan.None? || a.resetFate != Delivered then Stop(inv, op)
      else Go(inv.(plan := Some(PlanStatus(inv.plan.value.secretRef, a.resetPlan.value, PlanUnset))), op)
    else
      match UpdatePlanStatus(inv, a)
      case Go(updated, op) =>
        if updated.plan.value.state == PlanApplied then Go(updated.(finalizer := false), op) else Go(updated, op)
      case other => other
  }

  function ReconcileDeleted(inv: Inventory, a: Answers): Step {
    if !inv.finalizer then Go(inv, KeepSecret)
    else
      match ReconcileReset(inv, a)
      case Stop(failed, op) => Stop(SetReady(failed, CondFalse, PlanFailure, a.later), op)
      case other => other
  }

  function ReconcileLive(inv: Inventory, a: Answers): Step {
    if !inv.finalizer then Go(inv.(finalizer := true), KeepSecret)
    else
      match CreatePlan(inv, a)
      case Stop(failed, op) => Stop(failed, op)
      case NilDeref => NilDeref
      case Go(planned, op) =>
        if NetworkNeedsReconcile(planned) then ReconcileNetwork(planned, a, op)
        else
          var conds := Set(planned.conds, NetworkConfigReady, CondTrue, ReconcilingNetworkConfig, a.now);
          var networked := planned.(conds := conds);
          match UpdatePlanStatus(networked, a)
          case NilDeref => NilDeref
          case Stop(failed, _) => Stop(SetReady(failed, CondFalse, PlanFailure, a.now), op)
          case Go(updated, _) =>
            match UpdateAdoption(updated, a)
            case NilDeref => NilDeref
            case Stop(failed, _) => Stop(failed, op)
            case Go(adopted, _) => Go(adopted, op)
  }

  function Reconcile(inv: Inventory, a: Answers): Step {
    if inv.deleting then ReconcileDeleted(inv, a) else ReconcileLive(inv, a)
  }

  /** The reconcile of a live inventory gets to its network. */
  predicate ReachesNetwork(inv: Inventory, a: Answers) {
    inv.finalizer && CreatePlan(inv, a).Go? && NetworkNeedsReconcile(inv)
  }

  /** The inventory as one reconcile holds it in memory; the phases update it in place. */
  class Reconciler {
    var inv: Inventory
    var op: SecretOp

    constructor (stored: Inventory)
      ensures inv == stored && op == KeepSecret
    {
      inv, op := stored, KeepSecret;
    }

    ghost function After(err: bool): Step
      reads this
    {
      if err then Stop(inv, op) else Go(inv, op)
    }

    method SetCondition(k: Kind, status: Status, reason: Reason, now: int)
      modifies `inv
      ensures inv == old(inv).(conds := Set(old(inv.conds), k, status, reason, now))
    {
      inv := inv.(conds := Set(inv.conds, k, status, reason, now));
    }

    method CreatePlanSecret(a: Answers) returns (err: bool)
      requires op == KeepSecret
      modifies this
      ensures After(err) == CreatePlan(old(inv), a)
    {
      if Ready in inv.conds && inv.conds[Ready].reason != PlanCreationFailure {
        return false;
      }
      if !a.createOk {
        SetCondition(Ready, CondFalse, PlanCreationFailure, a.now);
        return true;
      }
      op := CreateSecret;
      inv := inv.(plan := Some(PlanStatus(Some(inv.name), "", PlanUnset)));
      SetCondition(Ready, CondFalse, WaitingForPlan, a.now);
      return false;
    }

    method NetworkMissing() returns (needs: bool)
      ensures needs == NetworkNeedsReconcile(inv)
    {
      var rest := inv.pools;
      while rest != {}
        invariant rest <= inv.pools
        invariant forall p :: p in inv.pools && p !in rest ==> p in inv.addresses
        decreases rest
      {
        var p :| p in rest;
        if p !in inv.addresses {
          return true;
        }
        rest := rest - {p};
      }
      return false;
    }

    /**
     * The two loops of a network reconcile: a claim for every pool, then the address of every claim. Each
     * goes over a map, in any order, up to the first request that fails or finds no address yet.
     */
    method ClaimAddresses(claimed: Name -> bool, address: Name -> AddressRead) returns (answer: NetworkAnswer)
      ensures NetworkOutcome(RequestOf(inv, claimed, address), answer)
    {
      answer := NetworkAnswer(NetworkDone, inv.claims, inv.addresses);
      var pools := inv.pools;
      while pools != {}
        invariant pools <= inv.pools && answer.result.NetworkDone? && answer.addresses == inv.addresses
        invariant (forall p <- inv.pools - pools :: claimed(p)) && answer.claims == inv.claims + (inv.pools - pools)
        decreases pools
      {
        var p :| p in pools;
        pools := pools - {p};
        if !claimed(p) {
          return answer.(result := NetworkFailed);
        }
        answer := answer.(claims := answer.claims + {p});
      }
      var claims := answer.claims;
      while claims != {}
        invariant claims <= answer.claims == inv.claims + inv.pools && answer.result.NetworkDone?
        invariant forall c <- answer.claims - claims :: c in answer.addresses && address(c).Assigned?
        invariant inv.addresses.Keys <= answer.addresses.Keys <= inv.addresses.Keys + answer.claims
        invariant forall c <- answer.addresses :: AddressFrom(RequestOf(inv, claimed, address), answer.addresses, c)
        decreases claims
      {
        var c :| c in claims;
        claims := claims - {c};
        match address(c) {
          case NotAssigned => return answer.(result := NetworkWaiting);
          case ReadFailed => return answer.(result := NetworkFailed);
          case Assigned(value) => answer := answer.(addresses := answer.addresses[c := value]);
        }
      }
    }

    /** `network` is the answer of the loops, for any order of the maps. */
    method ReconcileNetworkConfig(a: Answers, claimed: Name -> bool, address: Name -> AddressRead)
      returns (err: bool, network: NetworkAnswer)
      modifies this
      ensures NetworkOutcome(RequestOf(old(inv), claimed, address), network)
      ensures After(err) == ReconcileNetwork(old(inv), a.(network := network), old(op))
      ensures network.result.NetworkDone? ==> !NetworkNeedsReconcile(inv)
    {
      SetCondition(Ready, CondFalse, ReconcilingNetworkConfig, a.now);
      network := ClaimAddresses(claimed, address);
      inv := inv.(claims := network.claims, addresses := network.addresses);
      err := network.result.NetworkFailed?;
      if network.result.NetworkWaiting? {
        SetCondition(NetworkConfigReady, CondFalse, WaitingForIPAddress, a.now);
      } else if err {
        SetCondition(Ready, CondFalse, NetworkConfigFailure, a.now);
      }
    }

    /** Callers must hold a plan status whenever the secret reports a result. */
    method UpdateInventoryWithPlanStatus(a: Answers) returns (err: bool)
      requires UpdatePlanStatus(inv, a) != NilDeref
      modifies `inv
      ensures if err then UpdatePlanStatus(old(inv), a) == Stop(inv, KeepSecret)
              else UpdatePlanStatus(old(inv), a) == Go(inv, KeepSecret)
    {
      if a.status.None? {
        return true;
      }
      if a.status.value.applied != "" {
        inv := inv.(plan := Some(inv.plan.value.(state := PlanApplied, checksum := a.status.value.applied)));
        SetCondition(Ready, CondTrue, PlanSuccessfullyApplied, a.now);
        return false;
      }
      if a.status.value.failed != "" {
        inv := inv.(plan := Some(inv.plan.value.(state := PlanFailed, checksum := a.status.value.failed)));
        return true;
      }
      SetCondition(Ready, CondFalse, WaitingForPlan, a.now);
      return false;
    }

    method RemoveSelectorOwnership()
      modifies `inv
      ensures inv == old(inv).(owners := DropSelector(old(inv.owners)))
    {
      var idx := FirstSelector(inv.owners);
      if idx >= 0 {
        var owners := inv.owners;
        owners := owners[idx := owners[|owners| - 1]];
        inv := inv.(owners := owners[..|owners| - 1]);
      }
    }

    method UpdateInventoryWithAdoptionStatus(a: Answers) returns (err: bool)
      modifies `inv
      ensures if err then UpdateAdoption(old(inv), a) == Stop(inv, KeepSecret)
              else UpdateAdoption(old(inv), a) == Go(inv, KeepSecret)
    {
      var owner := OwnerName(inv);
      if owner.None? {
        SetCondition(AdoptionReady, CondFalse, WaitingToBeAdopted, a.now);
        return false;
      }
      if IsTrue(inv.conds, AdoptionReady) {
        return false;
      }
      if a.selector.None? {
        SetCondition(AdoptionReady, CondFalse, AdoptionFailure, a.now);
        return true;
      }
      SetCondition(AdoptionReady, CondUnknown, ValidatingAdoption, a.now);
      var deadline := inv.conds[AdoptionReady].since + ADOPTION_TIMEOUT;
      var ref := a.selector.value.ref;
      if ref.None? && a.later < deadline {
        SetCondition(AdoptionReady, CondUnknown, ValidatingAdoption, a.later);
        return false;
      }
      if ref.None? || ref.value != inv.name {
        RemoveSelectorOwnership();
        SetCondition(AdoptionReady, CondFalse, AdoptionFailure, a.later);
        return true;
      }
      SetCondition(AdoptionReady, CondTrue, SuccessfullyAdopted, a.later);
      return false;
    }

    method UpdatePlanSecretWithReset(a: Answers) returns (err: bool)
      requires inv.plan.Some?
      modifies this
      ensures
        var written := a.resetPlan.Some? && a.resetFate != Lost;
        && err == (a.resetPlan.None? || a.resetFate != Delivered)
        && op == (if written then WriteReset else old(op))
        && inv == (if err then old(inv)
                   else
                     var reset := PlanStatus(old(inv).plan.value.secretRef, a.resetPlan.value, PlanUnset);
                     old(inv).(plan := Some(reset)))
    {
      if a.resetPlan.None? || a.resetFate == Lost {
        return true;
      }
      op := WriteReset;
      if a.resetFate == AnswerLost {
        return true;
      }
      inv := inv.(plan := Some(PlanStatus(inv.plan.value.secretRef, a.resetPlan.value, PlanUnset)));
      return false;
    }

    method ReconcileResetPlanSecret(a: Answers) returns (err: bool)
      requires op == KeepSecret && ReconcileReset(inv, a) != NilDeref
      modifies this
      ensures After(err) == ReconcileReset(old(inv), a)
    {
      if !inv.resettable {
        inv := inv.(finalizer := false);
        return false;
      }
      if inv.plan.None? || inv.plan.value.secretRef.None? || a.secret.None? || !a.secret.value.owned {
        return true;
      }
      if a.secret.value.planType != ResetType {
        err := UpdatePlanSecretWithReset(a);
        return;
      }
      err := UpdateInventoryWithPlanStatus(a);
      if !err && inv.plan.value.state == PlanApplied {
        inv := inv.(finalizer := false);
      }
    }

    /** The reconcile of a live version. */
    method RunLive(a: Answers, claimed: Name -> bool, address: Name -> AddressRead)
      returns (err: bool, network: NetworkAnswer)
      requires op == KeepSecret && ReconcileLive(inv, a) != NilDeref
      modifies this
      ensures After(err) == ReconcileLive(old(inv), a.(network := network))
      ensures ReachesNetwork(old(inv), a) ==> NetworkOutcome(RequestOf(old(inv), claimed, address), network)
    {
      network := a.network;
      if !inv.finalizer {
        inv := inv.(finalizer := true);
        return false, network;
      }
      err := CreatePlanSecret(a);
      if err {
        return;
      }
      var needs := NetworkMissing();
      if needs {
        err, network := ReconcileNetworkConfig(a, claimed, address);
        return;
      }
      SetCondition(NetworkConfigReady, CondTrue, ReconcilingNetworkConfig, a.now);
      err := UpdateInventoryWithPlanStatus(a);
      if err {
        SetCondition(Ready, CondFalse, PlanFailure, a.now);
        return;
      }
      err := UpdateInventoryWithAdoptionStatus(a);
    }

    /** The reconcile of a version on which no nil plan status is dereferenced. */
    method Run(a: Answers, claimed: Name -> bool, address: Name -> AddressRead)
      returns (err: bool, network: NetworkAnswer)
      requires op == KeepSecret && Reconcile(inv, a) != NilDeref
      modifies this
      ensures After(err) == Reconcile(old(inv), a.(network := network))
      ensures !old(inv).deleting && ReachesNetwork(old(inv), a) ==>
                NetworkOutcome(RequestOf(old(inv), claimed, address), network)
    {
      if !inv.deleting {
        err, network := RunLive(a, claimed, address);
        return;
      }
      network := a.network;
      if !inv.finalizer {
        return false, network;
      }
      err := ReconcileResetPlanSecret(a);
      if err {
        SetCondition(Ready, CondFalse, PlanFailure, a.later);
      }
    }
  }
}
