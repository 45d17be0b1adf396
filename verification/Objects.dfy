/** The two objects that take part in the adoption of a machine, and the plan secret. */
module Objects {
  import opened Wrappers
  import opened Conditions

  type Name = string

  /** Seconds both controllers wait for the other side to confirm an adoption. */
  const ADOPTION_TIMEOUT: int := 5

  /** Only the API version and kind of an owner matter besides its name. */
  datatype OwnerKind = SelectorKind | OtherKind
  datatype OwnerRef = OwnerRef(kind: OwnerKind, name: Name)

  datatype PlanState = PlanUnset | PlanApplied | PlanFailed
  datatype PlanStatus = PlanStatus(secretRef: Option<Name>, checksum: string, state: PlanState)

  /** A MachineInventory: metadata and spec first, then the status (`conds` and `plan`). */
  datatype Inventory = Inventory(
    name: Name,
    owners: seq<OwnerRef>,
    deleting: bool,
    finalizer: bool,
    resettable: bool,
    pools: set<Name>,
    claims: set<Name>,
    addresses: map<Name, string>,
    labels: map<string, string>,
    conds: ConditionMap,
    plan: Option<PlanStatus>)

  datatype AddressKind = ExternalIP | InternalIP | HostName
  datatype Address = Address(kind: AddressKind, value: string)

  /** A MachineInventorySelector; everything but `name` and `deleting` is status. */
  datatype Selector = Selector(
    name: Name,
    deleting: bool,
    conds: ConditionMap,
    ref: Option<Name>,
    checksum: string,
    ready: bool,
    addresses: seq<Address>)

  /** The plan type annotation of a secret and what the secret really holds. */
  datatype PlanType = NoType | EmptyType | BootstrapType | ResetType
  datatype PlanContent = EmptyPlan | BootstrapPlan | ResetPlan(writtenAt: nat)

  /** `owned` tells whether the secret carries the inventory's UID as an owner. */
  datatype Secret = Secret(
    planType: PlanType,
    content: PlanContent,
    owned: bool,
    applied: string,
    failed: string)

  /** How a request fares: delivered and answered, lost, or delivered with the answer lost. */
  datatype Fate = Delivered | Lost | AnswerLost

  function FirstSelector(owners: seq<OwnerRef>): (idx: int)
    ensures -1 <= idx < |owners|
    ensures idx >= 0 ==> owners[idx].kind == SelectorKind
    ensures forall i :: 0 <= i < (if idx < 0 then |owners| else idx) ==> owners[i].kind != SelectorKind
  {
    if owners == [] then -1
    else if owners[0].kind == SelectorKind then 0
    else
      var rest := FirstSelector(owners[1..]);
      if rest < 0 then -1 else rest + 1
  }

  /** The name of the selector that owns an inventory, if any. */
  function OwnerName(inv: Inventory): Option<Name> {
    var idx := FirstSelector(inv.owners);
    if idx < 0 then None else Some(inv.owners[idx].name)
  }

  predicate Adopted(inv: Inventory) {
    IsTrue(inv.conds, AdoptionReady)
  }

  predicate Confirmed(inv: Inventory, sel: Name) {
    Adopted(inv) && OwnerName(inv) == Some(sel)
  }
}
