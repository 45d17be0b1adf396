# Verification of the Elemental operator

The Elemental operator registers machines, hands them to cluster-API selectors, installs and
resets them, and keeps the list of OS versions a channel delivers. This project models the
parts of it that are state machines over shared state, and the string and selection code that
feeds them, and proves what they promise. `dafny verify dfyconfig.toml` checks all of it.

## How the model is built

Every controller, server or client whose methods update fields is a class whose methods update
the same fields in the same order. Each such method is proved equal to a specification function
of the old state; runs are sequences of states made by those functions, and the main results are
lemmas about every state of every run. The `Decisions` modules say of the same functions, in terms
of what is read and stored and without their branches, exactly when each outcome occurs; the runs
build on some of them.

| Part | Files | Main results |
|---|---|---|
| Adoption of a MachineInventory by a MachineInventorySelector | `ApiServer`, `SelectorReconcile`, `InventoryReconcile`, `InventoryFacts`, `AdoptionRuns`, `AdoptionSafety`, `AdoptionTheorems`, `AdoptionReferences`, `AdoptionWitness`, `SelectorDecisions`, `InventoryDecisions` | `ExclusiveAdoption`, `ConfirmedForever`, `ClaimsOnlyFree`, `SingleBootstrapWriter`, `PipelineForever`, `ConfirmedWasReferred`, `ReadyWasBootstrapped`, `ReconcileJudges`, `PlanNeverNil` |
| Plan secret and finalizer | `ResetRuns`, `InventoryDecisions` | `ResetBeforeRelease`, `ReleaseInRuns`, `ResetHappens` |
| ManagedOSVersionChannel | `ChannelReconcile`, `ChannelRuns`, `ChannelSync`, `ChannelDecisions`, `SyncDecisions` | `BoundedRetries`, `BoundsReached`, `LastSyncedNeverNil`, `BecomesReady`, `Exactness`, `CreateManagedOSVersions` |
| Registration session | `Protocol`, `SessionRuns`, `SessionSafety`, `SessionCode`, `SessionRefinement`, `SessionDecisions` | `VersionSkewSafety`, `SameForm`, `NeverBothWaiting`, `SessionEnds`, `CodeAgrees`, `UnknownIsRefused`, `WelcomeIsConfigured` |
| Inventory store and registration token | `InventoryStore`, `StoreDecisions`, `RegistrationToken`, `RegistrationDecisions` | `HashesUnique`, `NoDuplicate`, `OnlyGetChangesStore`, `CommitsOnce`, `StoredWasPresented`, `UrlRoundTrip`, `StaticTaken` |
| Strings and selection | `Templater`, `LabelSanitizer`, `Placeholders`, `DiskSelection` | `UniqueSplit`, `DecodeJoins`, `IdempotentIff`, `LettersKept`, `ConfluentIff`, `CompleteIff`, `FindInstallationDevice` |

**Adoption.** The API server is a history of versions for each object. A reconcile reads any past
version of any object (the client caches inventories and selectors,
`cmd/operator/operator/root.go:214-222`) and its phases interleave freely with everything else.
A locked patch adds a version only when its base is the newest one; every write may be lost, or be
done with its answer lost. Claiming an inventory, and recording the reference on the selector, are
separate writes. The status patch shares its base with the metadata patch, so after a metadata
change it may be rejected or may land; both are allowed. Objects are in one namespace, names are
not reused, and nobody else edits owner references or statuses.

**Reset.** One reconcile with its secret write and its stored status is one step, and so is one
apply-and-report of the agent; bootstrap overwrites, edits of the inventory, and creation or
deletion of the secret come in between in any order.

**Sessions.** Client and server have arbitrary last message types of at least `MsgVersion`, and a
reliable FIFO connection; each may fail or give up at any point. `SessionRefinement` ties the runs
to the code: what either side does in a run that it ends without giving up is what its loop does
over the frames of the other's messages. The inventory store serves any number of such loops at
once, on arbitrary frames, while others edit and delete inventories.

## Results where the code falls short of a simple claim

- The placeholder loops visit a map in random order. The result is the same for every order if and
  only if no address occurs inside the name of another address (`ConfluentIff`), and no known
  placeholder is ever left if and only if, besides, no address occurs inside its own name
  (`CompleteIff`). An empty address occurs inside every name: it always breaks completeness, and it
  makes the order matter unless it is the only address.
- A sync that reports success leaves a version exactly as intended if and only if it is not an
  orphan that still needs its mark and either could not be listed or already carries the new
  timestamp (`ChannelSync.Exactness`). Timestamps have a resolution of one second, so two syncs can
  share one (`StampedOrphanStays`); a list that fails is only logged, and every orphan then stays
  unmarked (`UnlistedOrphanStays`). Disabling a channel has the second weakness too (`DeprecateAll`).
- Sanitising twice equals sanitising once if and only if the trimmed text fits in 58 characters or
  its 58th character is a letter or digit (`IdempotentIff`): the cut comes after the trimming, and
  57 letters, a dash and a letter show it (`CutBehindDash`). A second pass always settles it (`SanitizeSettles`). In the second trimming loop the branch for a
  single character is dead.
- A size comparison reads the disk's unsigned size as a signed number. It tells the true order if
  and only if the size is below 2^63 or both readings lie on the same side of the limit
  (`SizeOrderIff`); a disk of 2^63 bytes passes for smaller than one byte (`LargeDiskIsSmall`).
- Devices are kept by name, so a disk that fails removes every disk of that name. When the
  evaluation does not end early, the choice is exactly the filter if and only if not every disk
  that meets the selector has a namesake that does not (`FindInstallationDevice`). Two disks of one
  name show it (`NamesakeShadows`); the names the kernel gives are distinct, and then the choice
  always is the filter. A size requirement without a value crashes where the evaluation reaches it.
- A static token set on a registration that is not ready and already has another token is not taken
  up by the next reconcile, which makes it ready under the old one; the one after that takes it
  (`StaticTaken`).

## Model

| member | source | states |
|---|---|---|
| AdoptionTheorems.ExclusiveAdoption | controllers/machineselector_controller.go:254-314 | In every run, a stored selector with InventoryReady=True refers to an inventory whose present owner is that selector and whose AdoptionReady is now True |
| AdoptionTheorems.NoSharedInventory | controllers/machineselector_controller.go:180-252 | No two selectors are ever confirmed on one inventory |
| AdoptionTheorems.ConfirmedForever | controllers/machineinventory_controller.go:632-699 | From a version with an owner and AdoptionReady=True on, every version of the inventory has both, for the same owner |
| AdoptionTheorems.ClaimsOnlyFree | controllers/machineselector_controller.go:205-237 | A claim that changes an inventory found its newest version neither deleted nor owned, and adds exactly one version owned by the claimant |
| AdoptionTheorems.SingleBootstrapWriter | controllers/machineselector_controller.go:316-379 | All bootstrap writes ever made into one plan secret come from one selector, the confirmed owner then and ever after |
| AdoptionTheorems.PipelineForever | controllers/machineselector_controller.go:121-178 | Ready needs a checksum, which needs InventoryReady=True, which needs a reference, and no later version undoes any of them |
| AdoptionTheorems.PlanNeverNil | controllers/machineinventory_controller.go:580-628 | No reconcile of any stored version, whatever it reads, dereferences a nil plan; a live version that skips plan creation has a plan |
| AdoptionTheorems.SelectorNeverNil | controllers/machineselector_controller.go:316-340 | A reconcile in flight that is about to write the bootstrap plan holds a reference |
| AdoptionReferences.ConfirmedWasReferred | controllers/machineinventory_controller.go:675-696 | In every run, an inventory is confirmed only for a stored selector of which some version refers to that inventory |
| AdoptionReferences.ReferredWasClaimed | controllers/machineselector_controller.go:205-250 | A stored selector refers only to an inventory of which some version is owned by it |
| AdoptionReferences.ReadyWasBootstrapped | controllers/machineselector_controller.go:353-376 | A stored selector that is ready or has a checksum has had its bootstrap plan written into the plan secret of the inventory it refers to |
| AdoptionReferences.HeldWasBootstrapped | controllers/machineselector_controller.go:316-379 | The same of every selector held in memory by a reconcile in flight |
| AdoptionReferences.RunReferences | controllers/machineselector_controller.go:74-119 | Every step of either controller keeps references, confirmations and bootstrap writes tied to each other |
| AdoptionWitness.AdoptionHappens | controllers/machineselector_controller.go:121-178 | The premises can be met: a run from the empty server to a stored selector that is ready, with one bootstrap write in the secret of the inventory it owns |
| AdoptionSafety.Reachable | controllers/machineselector_controller.go:74-119 | Every step of either controller, with stale reads and lost writes, keeps the invariant on all histories and all reconciles in flight |
| AdoptionSafety.ReconcileDerives | controllers/machineinventory_controller.go:79-124 | From any sound version, every mixture of old and new metadata and status a reconcile may leave stored is sound and keeps an adoption |
| ApiServer.Server.PatchInventory | controllers/machineselector_controller.go:223-230 | An optimistic-lock patch adds a version exactly when its base is the newest of an object that exists and the request is not lost |
| SelectorReconcile.Reconciler.FindAndAdoptInventory | controllers/machineselector_controller.go:180-252 | The whole new selector and the whole new history: the first claimable item is claimed, and the reference is recorded only when the claim is answered |
| SelectorReconcile.ClaimChoice | controllers/machineselector_controller.go:205-219 | The first listed inventory that is live and unowned, for a selector without a reference; none only when there is no such item |
| SelectorReconcile.Reconciler.UpdateAdoptionStatus | controllers/machineselector_controller.go:254-314 | The new selector in every branch: confirmed, other owner, timeout, still waiting, failed read |
| SelectorReconcile.Reconciler.UpdatePlanSecretWithBootstrap | controllers/machineselector_controller.go:316-379 | The new selector and exactly the bootstrap write that was made, if any |
| SelectorReconcile.Reconciler.SetSelectorAddresses | controllers/machineselector_controller.go:512-567 | Ready is set, and the inventory's addresses appended, exactly when a checksum is stored and the inventory is read |
| SelectorReconcile.LabelAddresses | controllers/machineselector_controller.go:537-556 | The appended addresses are exactly the non-empty address labels |
| SelectorDecisions.ClaimDecides | controllers/machineselector_controller.go:180-252 | A selector without a reference gets one exactly when its claim of an item is answered, and then to that item; it fails exactly when the list or the claim does |
| SelectorDecisions.WaitingDecides | controllers/machineselector_controller.go:272-314 | A waiting selector is confirmed exactly when the inventory it reads is; it gives the inventory up exactly when that has another owner or the time is up |
| SelectorDecisions.UnmarkedFails | controllers/machineselector_controller.go:260-271 | A reference without the condition that goes with it is an error and confirms nothing |
| SelectorDecisions.SettledStays | controllers/machineselector_controller.go:254-271 | A selector without a reference, or one that is confirmed, is left as it is |
| SelectorDecisions.BootstrapDecides | controllers/machineselector_controller.go:316-379 | The checksum is stored exactly when the plan was made and its write into an existing secret was answered; otherwise it stays empty, so that the write is tried again, with an error if the inventory names its secret or cannot be read |
| SelectorDecisions.WriteDecides | controllers/machineselector_controller.go:341-369 | The secret written to is the inventory's, exactly when there is a plan and the secret exists |
| SelectorDecisions.ReadyDecides | controllers/machineselector_controller.go:512-567 | Ready exactly when the plan is written and the inventory can be read; the addresses added are exactly those its three labels give |
| InventoryReconcile.Reconciler.CreatePlanSecret | controllers/machineinventory_controller.go:526-578 | The secret is created and the plan status set unless the Ready condition says it was done |
| InventoryReconcile.Reconciler.NetworkMissing | controllers/machineinventory_controller.go:308-316 | Some address pool has no address yet |
| InventoryReconcile.Reconciler.ClaimAddresses | controllers/machineinventory_controller.go:329-411 | In any order of the maps: done exactly when every pool is claimed and every claim has its address, and then the network needs no further reconcile; what is kept when it waits or fails |
| InventoryReconcile.Reconciler.ReconcileNetworkConfig | controllers/machineinventory_controller.go:167-188 | Claims, addresses and conditions after the two loops are done, waiting or failed; once they are done the network needs no further reconcile |
| InventoryReconcile.Reconciler.UpdateInventoryWithPlanStatus | controllers/machineinventory_controller.go:580-628 | The plan status and condition after the secret's applied or failed checksum is read |
| InventoryReconcile.Reconciler.RemoveSelectorOwnership | controllers/machineinventory_controller.go:751-758 | The owner list without the selector's reference |
| InventoryReconcile.DropSelectorRemovesOne | controllers/machineinventory_controller.go:751-758 | Moving the last owner into the selector's place removes exactly that one reference, whatever the order |
| InventoryReconcile.Reconciler.UpdateInventoryWithAdoptionStatus | controllers/machineinventory_controller.go:632-699 | The new inventory in every branch: unowned, already adopted, waiting, confirmed, taken back |
| InventoryReconcile.Reconciler.UpdatePlanSecretWithReset | controllers/machineinventory_controller.go:262-305 | The reset write and the cleared plan status, and what is left when the write is lost |
| InventoryReconcile.Reconciler.ReconcileResetPlanSecret | controllers/machineinventory_controller.go:215-260 | The finalizer goes at once when no reset is wanted, otherwise only after a reset plan reported as applied |
| InventoryReconcile.Reconciler.Run | controllers/machineinventory_controller.go:126-213 | The whole reconcile, phase by phase, as the runs use it, with the network answer one that the two loops can give |
| InventoryFacts.ReconcileKeepsPlan | controllers/machineinventory_controller.go:126-213 | No reconcile of a sound version dereferences a nil plan status, and the version it leaves is sound again |
| InventoryFacts.LiveStep | controllers/machineinventory_controller.go:126-213 | The reconcile of a live inventory writes no reset plan, keeps the finalizer, and adopts only for the owner it read |
| InventoryDecisions.ReconcileJudges | controllers/machineinventory_controller.go:632-699 | A reconcile that reads the selector of an owned inventory adopts it exactly when the selector refers to it; a reference to another inventory, or none at the deadline, loses exactly the selector's owner reference and is an error; otherwise the owners stay |
| InventoryDecisions.ReconcileLeaves | controllers/machineinventory_controller.go:632-660 | Without an owner an inventory is not adopted, and an adopted one stays so; a selector that cannot be read is an error; no owner is lost |
| InventoryDecisions.AdoptsOnlyReferred | controllers/machineinventory_controller.go:126-213 | Whatever it reads, a reconcile adopts only an owned inventory that the selector it reads refers to |
| InventoryDecisions.ReleaseIff | controllers/machineinventory_controller.go:215-260 | A deleted inventory loses its finalizer if and only if no reset is wanted, or its own reset secret is reported as applied, now or already before |
| InventoryDecisions.ResetWrittenIff | controllers/machineinventory_controller.go:245-305 | A reset plan is written if and only if the deleted inventory wants one, its own secret is known and holds another plan, and the write is not lost; it clears the reported state |
| InventoryDecisions.DeletionFailsIff | controllers/machineinventory_controller.go:215-260 | A deletion is an error, to be tried again, exactly when a wanted reset cannot be written or its report is missing or tells of a failure |
| InventoryDecisions.CreationIff | controllers/machineinventory_controller.go:526-578 | The plan secret is created exactly for a live inventory with finalizer for which that has not succeeded yet |
| InventoryDecisions.PlannedIs | controllers/machineinventory_controller.go:526-578 | A new plan status names the secret of the inventory and has no state; one made before is kept, and the adoption is not touched |
| InventoryDecisions.ReportDecides | controllers/machineinventory_controller.go:580-628 | The report decides the plan state: ready if and only if a plan is reported as applied, and an error when the report is missing or tells of a failure |
| InventoryDecisions.NetworkFirst | controllers/machineinventory_controller.go:167-188 | While a pool has no address the inventory is not ready, and its owners and adoption are left alone |
| InventoryDecisions.FinalizerFirst | controllers/machineinventory_controller.go:131-136 | A live inventory without the finalizer gets it, and nothing else happens |
| ResetRuns.ResetBeforeRelease | controllers/machineinventory_controller.go:215-305 | In every run, a resettable inventory loses its finalizer only if the agent has applied a reset plan written after deletion was requested |
| ResetRuns.ReconcileKeeps | controllers/machineinventory_controller.go:215-260 | A reconcile keeps the link between the secret's type, its content, its report and the agent's log |
| ResetRuns.ReleaseInRuns | controllers/machineinventory_controller.go:215-260 | In every run, a reconcile of a deleted inventory drops the finalizer if and only if no reset is wanted or the reset is reported; without a wanted reset the first one does |
| ResetRuns.ResetHappens | controllers/machineinventory_controller.go:215-305 | The premise can be met: a run that writes a reset plan, sees it applied and drops the finalizer |
| ChannelReconcile.Reconciler.Run | controllers/managedosversionchannel_controller.go:138-257 | The status after one reconcile in every branch, whether the counter was reset and whether a pod creation was tried |
| ChannelReconcile.Reconciler.HandleSyncPod | controllers/managedosversionchannel_controller.go:260-306 | The status after each pod phase |
| ChannelReconcile.Reconciler.HandleFailedSync | controllers/managedosversionchannel_controller.go:309-325 | A failed sync stamps the time, counts one failure and is not ready |
| ChannelReconcile.Reconciler.CreateSyncerPod | controllers/managedosversionchannel_controller.go:531-559 | A try stamps the time before the pod is created; a refusal counts one failure |
| ChannelDecisions.SyncDecides | controllers/managedosversionchannel_controller.go:260-306 | A sync under way becomes ready, and its counter zero, if and only if the operator's own pod has succeeded, its logs were read and every version was stored; the counter grows by one, with an error, on every outcome but a pod at work or an answered creation |
| ChannelDecisions.PodDecides | controllers/managedosversionchannel_controller.go:230-306 | While a sync is under way, exactly when a pod creation is tried, when the last-sync time moves, and the reason of every outcome |
| ChannelDecisions.DueDecides | controllers/managedosversionchannel_controller.go:204-218 | A sync that never ran, is of an older generation, or whose interval has passed starts over with no failures |
| ChannelDecisions.SettledStays | controllers/managedosversionchannel_controller.go:219-227 | A sync that is done, or failed more than four times in a row, changes nothing until it is due |
| ChannelDecisions.InactiveDecides | controllers/managedosversionchannel_controller.go:138-202 | An invalid spec is not ready; a disabled channel is ready exactly when its versions are marked and its pod is gone |
| ChannelDecisions.BecomesReady | controllers/managedosversionchannel_controller.go:138-306 | A channel becomes ready if and only if a sync under way succeeds in every part, or the channel is disabled and put away |
| ChannelRuns.BoundedFailures | controllers/managedosversionchannel_controller.go:204-225 | In every stored version of every run the failure counter is at most the limit plus one |
| ChannelRuns.BoundedRetries | controllers/managedosversionchannel_controller.go:204-257 | With stored statuses and a fixed operator image, at most limit-plus-one pod creations are tried between two resets of the counter |
| ChannelRuns.BoundsReached | controllers/managedosversionchannel_controller.go:204-257 | Both bounds are exact: a run in which every pod creation is refused reaches them |
| ChannelRuns.LastSyncedNeverNil | controllers/managedosversionchannel_controller.go:181-227 | Over all runs, with disabled and invalid specs, the last-sync time is set wherever a reconcile dereferences it |
| ChannelSync.Syncer.CreateManagedOSVersions | controllers/managedosversionchannel_controller.go:328-429 | It reports no error exactly when every entry goes through and every orphan it knows is flagged; then every name is as an exact sync leaves it if and only if it could be flagged, and after a failed list the listed names are new and nothing else changed; an error in the loop touches no orphan |
| ChannelSync.Exactness | controllers/managedosversionchannel_controller.go:345-425 | After an error-free loop and flagging, listed or not: listed names hold their last entry rewritten and stamped, the channel's other versions are marked, all else is unchanged, if and only if no orphan needs a mark and could not be listed or carries the new timestamp |
| SyncDecisions.ListedIsCurrent | controllers/managedosversionchannel_controller.go:345-414 | After an error-free sync that could list the stored versions, a listed name has the channel's label and the new timestamp and nothing besides |
| SyncDecisions.UnlistedIsOrphaned | controllers/managedosversionchannel_controller.go:418-452 | Every other version of the channel without the new timestamp gets the out-of-sync annotation, and its deletion is requested exactly when the channel says so; nothing else changes |
| SyncDecisions.LastEntryWins | controllers/managedosversionchannel_controller.go:345-414 | Of several entries with a name the last one is stored, rewritten for the channel, and the owner of a known version stays |
| SyncDecisions.PlainStays | controllers/managedosversionchannel_controller.go:360-389 | Without a registry an entry of any type is stored as listed, but for the channel's upgrade container |
| ChannelSync.FineIff | controllers/managedosversionchannel_controller.go:345-414 | From any known versions the loop reports no error over a prefix of the list if and only if each of its entries is answered, can be rewritten, and is known or new |
| ChannelSync.AddedNew | controllers/managedosversionchannel_controller.go:463-467 | After a failed list an error-free loop has only created versions |
| ChannelSync.StampedOrphanStays | controllers/managedosversionchannel_controller.go:419-421 | A store that a sync with a repeated timestamp leaves inexact |
| ChannelSync.UnlistedOrphanStays | controllers/managedosversionchannel_controller.go:463-467 | A store that a sync after a failed list leaves inexact |
| ChannelSync.AbortKeepsOrphans | controllers/managedosversionchannel_controller.go:371-381 | An entry of unknown type under a registry ends the sync with no orphan touched |
| ChannelSync.ListedStored | controllers/managedosversionchannel_controller.go:391-413 | Without errors every listed name holds its last entry, with owner and deletion mark kept |
| ChannelSync.Syncer.FlagOrphans | controllers/managedosversionchannel_controller.go:419-426 | Exactly the known versions without the new timestamp are marked, in any order; success if and only if every call was answered |
| ChannelSync.Syncer.DeprecateVersion | controllers/managedosversionchannel_controller.go:432-452 | The version after the patch and the deletion request, for every fate of the two calls |
| ChannelSync.Syncer.DeprecateAll | controllers/managedosversionchannel_controller.go:181-193 | On success a disabled channel has marked each of its versions if and only if they were listed or it was marked before; no other version changes, and after a failed list none does |
| ChannelSync.Syncer.RewriteEntry | controllers/managedosversionchannel_controller.go:364-389 | The spec with the channel's upgrade container and registry |
| ChannelSync.RewriteReferences | controllers/managedosversionchannel_controller.go:364-389 | Under a registry the image field, and only it, becomes the quoted reference of the unquoted old value; unknown types are refused |
| ChannelSync.Reference | controllers/managedosversionchannel_controller.go:383-388 | A reference starts with the registry and ends with the value, with a slash where they meet, added only when neither brings one |
| ChannelSync.UnquotedDrops | controllers/managedosversionchannel_controller.go:382-382 | Only quotes are dropped from the value, and all of them at its ends |
| Protocol.DecodeProtocolVersion | pkg/server/api_registration.go:401-420 | The minimum of both releases, refused exactly for malformed or too old clients |
| Protocol.FrameRoundTrip | pkg/register/websocket.go:154-168 | Reading back a written message gives it back if and only if the reader knows its type |
| SessionSafety.VersionSkewSafety | pkg/register/register.go:66-146 | Both sides use the minimum of their releases, no type above it is ever sent, neither meets an unexpected message |
| SessionSafety.SameForm | pkg/server/api_registration.go:174-204 | Raw configuration only below the config message's version; a configured client holds what the server sent in that form |
| SessionSafety.OneCommit | pkg/server/api_registration.go:349-383 | At most one commit in a session, only after the client's Get, by a server that then ends |
| SessionSafety.NeverBothWaiting | pkg/server/api_registration.go:233-302 | The two sides are never both waiting to read |
| SessionSafety.Progress | pkg/register/websocket.go:124-152 | In every reachable state that is not over somebody can move without giving up |
| SessionSafety.SessionEnds | pkg/register/register.go:66-146 | No session is longer than 51 moves, and one that cannot go on has both sides done |
| SessionDecisions.UnknownIsRefused | pkg/server/api_registration.go:304-313 | In every session in which a machine updates that the server does not know, the client is never configured and nothing is committed |
| SessionDecisions.KnownIsServed | pkg/server/api_registration.go:304-313 | In every session of a machine the server knows, no error is sent before the client has asked for its configuration |
| SessionDecisions.ConfiguredHasSentAll | pkg/register/register.go:66-146 | A configured client has sent its version and then every message of its session, each once and in order |
| SessionDecisions.TodoIs | pkg/register/register.go:90-127 | A session has exactly the messages its version and settings call for: update, SMBIOS, system data, annotations, labels and Get, in this order |
| SessionDecisions.ConfiguredIsStored | pkg/server/api_registration.go:349-383 | A configured client has exactly one committed inventory: no configuration is written before the commit |
| SessionDecisions.WelcomeIsConfigured | pkg/server/api_registration.go:233-302 | A session in which nothing goes wrong, of a new machine or an update of a known one, can only stop with the client configured and one commit |
| SessionDecisions.UpdateDecides | pkg/server/api_registration.go:304-313 | An update is answered by an error, and the session over, exactly when the machine is new; otherwise it is acknowledged and goes on |
| SessionDecisions.ReportDecides | pkg/server/api_registration.go:254-290 | A report of the machine is acknowledged exactly when it can be parsed |
| SessionDecisions.GetDecides | pkg/server/api_registration.go:349-383 | A Get commits exactly when templates and commit succeed, is answered by the configuration exactly when nothing fails, and else by an error the client knows |
| SessionRefinement.ServerRunsItsLoop | pkg/server/api_registration.go:233-302 | A server that ends a session without giving up has the state and the messages of the loop over the frames it read |
| SessionRefinement.ClientRunsItsCode | pkg/register/register.go:66-146 | A client that ends a session without giving up has the end and the messages of the registration over the frames it read |
| SessionRefinement.ServerReadsInOrder | pkg/register/websocket.go:93-122 | The frames the server reads are those of the client's messages, in order |
| SessionRefinement.ClientReadsInOrder | pkg/register/websocket.go:93-122 | The frames the client reads are those of the server's messages, in order |
| SessionRefinement.CodeAgrees | pkg/register/register.go:66-146 | Of loop and registration, each fed by the other: no type above the smaller release, at most one commit, and the client's configuration is one the loop wrote in the agreed form |
| SessionCode.InventoryServer.ServeLoop | pkg/server/api_registration.go:233-302 | The loop over a connection ends in the state, and writes the messages, of `ServeAll`, which `ServerRunsItsLoop` ties to the session runs |
| SessionCode.InventoryServer.Turn | pkg/server/api_registration.go:248-300 | One turn of the switch |
| SessionCode.InventoryServer.Get | pkg/server/api_registration.go:349-383 | Commit, network and configuration, and which failures are reported |
| SessionCode.InventoryServer.ReportError | pkg/server/api_registration.go:387-399 | Errors are sent only to clients that know them |
| SessionCode.RegisterClient.Register | pkg/register/register.go:66-146 | What the client sends and where it ends, over all frames to come, is what `ClientRun` says, which `ClientRunsItsCode` ties to the session runs |
| SessionCode.RegisterClient.Negotiate | pkg/register/register.go:233-255 | Authentication and version exchange, with every failure |
| SessionCode.RegisterClient.SendHardware | pkg/register/register.go:270-300 | SMBIOS data, then system data in the form the agreed version knows |
| SessionCode.RegisterClient.Exchange | pkg/register/websocket.go:124-152 | A message counts as sent only once it is acknowledged; an update may be refused |
| SessionCode.RegisterClient.GetConfig | pkg/register/register.go:419-439 | The configuration, framed or raw, or the server's error |
| InventoryStore.HashesUnique | pkg/server/server.go:175-239 | For any interleaving of sessions no two stored inventories share a non-empty hash |
| InventoryStore.NoDuplicate | pkg/plainauth/plainauth.go:67-77 | The duplicate branch of authentication is unreachable, whatever past store a cached list shows |
| InventoryStore.OnlyGetCommits | pkg/server/api_registration.go:237-301 | On any frame, a turn of the loop gets to a commit if and only if it is a Get whose templates resolve, and a Get always ends the loop |
| InventoryStore.OnlyGetChangesStore | pkg/server/api_registration.go:237-301 | A session leaves the store alone until it serves a Get; the change is then the commit of its own inventory, and the session is over |
| InventoryStore.CommitsOnce | pkg/server/api_registration.go:237-301 | Whatever frames a session is sent, it changes the store in at most one step and counts at most one commit |
| InventoryStore.CountedIsStored | pkg/server/api_registration.go:349-358 | A commit that is counted has left the session's hashes and data in the store |
| StoreDecisions.AuthBinds | pkg/plainauth/plainauth.go:48-91 | A session works on the one listed inventory with the hash its header proves, or on a new one with that hash alone: the digest of a plain token, or the TPM's hash |
| StoreDecisions.StoredWasPresented | pkg/server/server.go:175-239 | Over any interleaving of sessions every stored TPM hash was presented by a session, and every machine hash is the digest of a token that one presented |
| StoreDecisions.CreationDecides | pkg/server/server.go:175-215 | A new inventory is stored if and only if it has a hash, its name is free and no listed inventory has that hash |
| StoreDecisions.UpdateDecides | pkg/server/server.go:217-239 | A known inventory gets its new data if and only if it is still as it was read; its hashes and all other inventories stay |
| InventoryStore.Lookup | pkg/tpm/auth_tpm.go:63-104 | Several matches are an error, none gives a new inventory, one is returned |
| InventoryStore.FindByHash | pkg/plainauth/plainauth.go:67-88 | The loop of both authenticators finds what the lookup says |
| InventoryStore.Authenticate | pkg/server/server.go:126-137 | The first authenticator that recognises the header decides |
| InventoryStore.Server.CreateMachineInventory | pkg/server/server.go:175-215 | An inventory is created exactly when it has a hash, no listed one clashes with it and its name is free |
| InventoryStore.Server.CommitMachineInventory | pkg/server/server.go:227-239 | A new inventory is created, an existing one replaced while it is unchanged since it was read; an error exactly when neither can be done |
| RegistrationToken.TokensDistinct | controllers/machineregistration_controller.go:185-234 | In every run non-empty tokens are pairwise distinct and a non-empty URL ends in the current token |
| RegistrationToken.UrlRoundTrip | pkg/server/server.go:241-281 | Looking up the last path element of a ready registration's URL returns that registration |
| RegistrationDecisions.ReadyDecides | controllers/machineregistration_controller.go:115-161 | After a reconcile with something to do, ready if and only if token, URL and access objects are there |
| RegistrationDecisions.RestStays | controllers/machineregistration_controller.go:120-128 | A registration being deleted, or ready with its token up to date and its secret there, is left as it is |
| RegistrationDecisions.TokenDecides | controllers/machineregistration_controller.go:163-204 | The token is kept unless a ready registration was given another static one; a static token is taken exactly when it is free, a random one only without a static one |
| RegistrationDecisions.UrlDecides | controllers/machineregistration_controller.go:206-212 | A new URL is the server's, the registration path and the token just given; a URL goes with its token |
| RegistrationDecisions.StaticTaken | controllers/machineregistration_controller.go:163-215 | With working lookups a free static token is taken up by the second reconcile at the latest, from any state, and by the first unless the registration is not ready and holds another token |
| RegistrationToken.GetMachineRegistration | pkg/server/server.go:241-281 | Two matches are an error, none is an error, one must be ready |
| RegistrationToken.BaseOfUrl | pkg/server/api_registration.go:56-56 | The last path element of a URL that ends in a safe token is the token |
| RegistrationToken.Reconciler.IsReady | controllers/machineregistration_controller.go:163-183 | Another static token resets token and URL; otherwise readiness needs the stored secret |
| RegistrationToken.Reconciler.CheckTokenUniqueness | controllers/machineregistration_controller.go:217-234 | A token is refused if and only if another registration has it |
| RegistrationToken.Reconciler.SetRegistrationTokenAndURL | controllers/machineregistration_controller.go:185-215 | The token and URL in every branch, and what a failure leaves behind |
| RegistrationToken.Reconciler.Run | controllers/machineregistration_controller.go:115-161 | The whole reconcile, as the runs use it |
| Templater.UniqueSplit | pkg/templater/templater.go:59-87 | A text splits into literals and holes in exactly one way, and the parts print back to the text |
| Templater.DecodeFails | pkg/templater/templater.go:89-102 | Decoding fails if and only if the lookup of some hole fails |
| Templater.DecodeJoins | pkg/templater/templater.go:59-87 | Otherwise the result joins the literals with the looked-up values, which are never looked at again |
| Templater.DecodeConcat | pkg/templater/templater.go:59-87 | Decoding a concatenation is decoding its parts, when the first part leaves nothing open |
| Templater.UnclosedStays | pkg/templater/templater.go:69-73 | At the end of any text, a text without closing brace stays as it is, even where it opens a hole |
| Templater.UniquePath | pkg/templater/templater.go:76-76 | The path of a hole is the one list of slash-free keys that joins to its text |
| Templater.ReplaceStringData | pkg/templater/templater.go:59-87 | The loop terminates and computes the decoding of the one split |
| Templater.Templater.Fill | pkg/templater/templater.go:49-53 | New values replace those under the same key and keep every other |
| Templater.Templater.Decode | pkg/templater/templater.go:55-57 | Decoding with all values filled in so far |
| LabelSanitizer.SanitizeContract | pkg/server/labeltmpl.go:194-220 | At most 58 characters, only allowed ones and dashes, no double dash, a letter or digit first, empty if and only if the input has neither; a letter or digit last when nothing is cut |
| LabelSanitizer.LettersKept | pkg/server/labeltmpl.go:198-220 | Up to the cut every letter and digit is kept in its order |
| LabelSanitizer.IdempotentIff | pkg/server/labeltmpl.go:198-220 | Sanitising again changes nothing if and only if the trimmed text fits in 58 or its 58th character is a letter or digit |
| LabelSanitizer.CutBehindDash | pkg/server/labeltmpl.go:216-218 | A text that a second pass shortens, because the cut falls behind a dash |
| LabelSanitizer.SanitizeSettles | pkg/server/labeltmpl.go:198-220 | A third pass never changes anything |
| LabelSanitizer.UnchangedIff | pkg/server/labeltmpl.go:198-220 | Exactly the texts that are short enough, clean, and framed by letters or digits are left as they are |
| LabelSanitizer.LabelCharacters | pkg/server/labeltmpl.go:188-192 | Labels hold letters, digits, dots, underscores and dashes, and exactly the valid ones stay as they are |
| LabelSanitizer.HostnameCharacters | pkg/server/labeltmpl.go:182-186 | Host names hold letters, digits, dots and dashes, and exactly the valid ones stay as they are |
| LabelSanitizer.SanitizeText | pkg/server/labeltmpl.go:198-220 | Both loops terminate without slicing an empty text and compute the sanitised text |
| LabelSanitizer.SanitizeLabel | pkg/server/labeltmpl.go:188-192 | The contract for labels, which keep dots and underscores |
| LabelSanitizer.SanitizeHostname | pkg/server/labeltmpl.go:182-186 | The contract for host names, which keep dots and drop underscores |
| Placeholders.ConfluentIff | pkg/network/nmconnections.go:68-73 | The result is the same in every order of the map if and only if no address occurs in another's name |
| Placeholders.CompleteIff | pkg/network/nmstate.go:51-54 | No known placeholder ever remains if and only if no address occurs in any name |
| Placeholders.OrderReaches | pkg/network/nmc.go:51-54 | Every order computes the simultaneous substitution |
| Placeholders.SubstituteText | pkg/network/nmc.go:51-54 | The loop over one text, in whatever order the map comes |
| Placeholders.SubstituteConnections | pkg/network/nmconnections.go:68-73 | Every connection is rewritten, none is added or lost |
| DiskSelection.FindInstallationDevice | pkg/install/install.go:152-181 | An evaluation error, or a crash, exactly when the first disk on which the evaluation ends ends it so; otherwise a listed device all of whose namesakes meet every requirement, or none if there is no such device; this is the filter if and only if not all fitting disks are shadowed, and always with distinct names |
| DiskSelection.NamesakeShadows | pkg/install/install.go:155-173 | Two disks of one name, of which only one fits, leave no device |
| DiskSelection.ValuesPreventCrash | pkg/install/install.go:215-243 | With a value on every size requirement nothing crashes, and an error means exactly that some disk reaches a requirement that fails to evaluate |
| DiskSelection.EvaluateSelector | pkg/install/install.go:159-173 | Whether a disk meets every requirement, stopping at the first that does not hold or ends the evaluation |
| DiskSelection.FindName | pkg/install/install.go:198-210 | A disk is accepted by its name or its path under /dev |
| DiskSelection.NameDecides | pkg/install/install.go:198-214 | A name requirement accepts exactly the disks of which a value is the name or the path; its negation exactly the others |
| DiskSelection.SizeDecides | pkg/install/install.go:215-243 | A size requirement compares the size, read as a signed 64-bit number, strictly with its first value |
| DiskSelection.FailureDecides | pkg/install/install.go:183-243 | Exactly when a requirement fails to evaluate, and exactly when it crashes |
| DiskSelection.SizeOrderIff | pkg/install/install.go:215-243 | For every limit, exactly when the signed comparisons tell the true order of sizes |
| DiskSelection.LargeDiskIsSmall | pkg/install/install.go:215-228 | A disk of 2^63 bytes that passes for smaller than one byte |

## Left out

- Transport, TLS, TPM attestation, websockets, HTTP routing, deadlines, shell commands and file writes: only messages and state are modelled.
- JSON and YAML encoding, SHA-256, regular expressions as an engine, quantity and duration parsing and plan checksums: parameters or answers.
- `util.RemoveInvalidConditions`: the model's conditions are always valid; condition messages and requeue delays are not modelled either.
- AdoptionSafety.Reachable: a network reconcile in a run may leave any claims and addresses, of which those the loops can leave (`ClaimAddresses`) are a part.
- Label selectors: a list is any sequence of readable versions; the selector's own metadata patch changes nothing and is not a step.
- Events and watches of the controllers.
- InventoryStore.HashesUnique: list and create at commit are one step, as are the reconciles of RegistrationToken; races between a list and the following create are not modelled.
- ResetRuns.ResetBeforeRelease: a reset write whose answer or whose status patch is lost is outside the model, because the code then keeps the old plan state and the claim does not hold of it.
- RegistrationToken.UrlRoundTrip: random tokens are taken to be fresh and URL-safe, static ones to match the pattern of their field.
- SessionSafety.NeverBothWaiting: the exchange inside TPM authentication is one step.
- The wait for a network configuration inside Get is one answer of the outcome.
- ChannelSync.Syncer.CreateManagedOSVersions: metadata is always a map; the source would fail on a version without any metadata under a registry.
- Templater.ReplaceStringData: the lookup is a function of the values filled in, so random templates, whose lookup draws a fresh value, are covered only for one fixed draw.
- Merging of labels and annotations into inventories, sanitising of user input, and the rendering of configurations.
- Seed images, managed OS images, DMI decoding, host information, the support command and generated code.
- Liveness of adoption under arbitrary delays, garbage collection, and edits of statuses and owner references by hand.
