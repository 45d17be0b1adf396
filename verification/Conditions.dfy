/** Status conditions, as every reconciler keeps them: at most one per type. */
module Conditions {
  datatype Status = CondTrue | CondFalse | CondUnknown

  datatype Kind = Ready | InventoryReady | AdoptionReady | NetworkConfigReady

  datatype Reason =
    // MachineInventory
    | PlanCreationFailure | WaitingForPlan | PlanFailure | PlanSuccessfullyApplied
    | WaitingToBeAdopted | ValidatingAdoption | SuccessfullyAdopted | AdoptionFailure
    | ReconcilingNetworkConfig | NetworkConfigFailure | WaitingForIPAddress
    // MachineInventorySelector
    | WaitingForInventory | FailedToAdoptInventory | WaitForInventoryCheck
    | SuccessfullyAdoptedInventory | SuccessfullyUpdatedPlan | FailedToUpdatePlan
    | FailedToSetAddresses | SelectorReady
    // ManagedOSVersionChannel
    | InvalidConfiguration | Synchronizing | Synchronized | FailedToSync
    | FailedToCreatePod | ChannelDisabled
    // MachineRegistration
    | SuccessfullyCreated | MissingTokenOrServerURL | RbacCreationFailure | DuplicateToken

  /** `since` is the last transition time. */
  datatype Condition = Condition(status: Status, reason: Reason, since: int)

  type ConditionMap = map<Kind, Condition>

  predicate IsTrue(cs: ConditionMap, k: Kind) {
    k in cs && cs[k].status == CondTrue
  }

  /** Setting a condition moves its transition time only when its status changes. */
  function Set(cs: ConditionMap, k: Kind, status: Status, reason: Reason, now: int): ConditionMap {
    var since := if k in cs && cs[k].status == status then cs[k].since else now;
    cs[k := Condition(status, reason, since)]
  }
}
