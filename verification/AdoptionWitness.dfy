/** The promises of the adoption protocol are not empty: a run that adopts and bootstraps a machine. */
module AdoptionWitness {
  import opened Wrappers
  import opened Conditions
  import opened Objects
  import opened ApiServer
  import opened AdoptionRuns
  import S = SelectorReconcile
  import I = InventoryReconcile

  const MACHINE: Name := "machine"
  const SELECTOR: Name := "selector"

  // ---- The versions of both objects ----

  const FREE := Inventory(MACHINE, [], false, true, true, {}, {}, map[], map[], map[], None)
  const CLAIMED := FREE.(owners := [OwnerRef(SelectorKind, SELECTOR)])
  const ADOPTED := CLAIMED.(
    conds := map[
      Ready := Condition(CondFalse, WaitingForPlan, 0),
      NetworkConfigReady := Condition(CondTrue, ReconcilingNetworkConfig, 0),
      AdoptionReady := Condition(CondTrue, SuccessfullyAdopted, 0)],
    plan := Some(PlanStatus(Some(MACHINE), "", PlanUnset)))

  const LOOKING := Selector(SELECTOR, false, map[], None, "", false, [])
  const REFERRING := LOOKING.(
    ref := Some(MACHINE),
    conds := map[
      Ready := Condition(CondFalse, WaitingForInventory, 0),
      InventoryReady := Condition(CondUnknown, WaitForInventoryCheck, 0)])
  const CONFIRMED := REFERRING.(
    conds := REFERRING.conds[InventoryReady := Condition(CondTrue, SuccessfullyAdoptedInventory, 0)])
  const BOOTSTRAPPED := CONFIRMED.(
    checksum := "checksum", conds := CONFIRMED.conds[Ready := Condition(CondFalse, SuccessfullyUpdatedPlan, 0)])
  const COMPLETE := BOOTSTRAPPED.(
    ready := true, conds := BOOTSTRAPPED.conds[Ready := Condition(CondTrue, SelectorReady, 0)])

  const NO_NETWORK := I.NetworkAnswer(I.NetworkDone, {}, map[])
  const ANSWERS := I.Answers(0, 0, true, NO_NETWORK, None, Some(Secret(EmptyType, EmptyPlan, true, "", "")), None,
                             Delivered, None)

  // ---- The phases on these versions ----

  lemma ClaimPhase()
    ensures S.ClaimChoice(LOOKING, Some([FREE])) == Some(0) && S.ClaimedBy(FREE, SELECTOR) == CLAIMED
    ensures S.FindAndAdopt(LOOKING, Some([FREE]), true, 0) == S.Go(REFERRING)
  {
  }

  lemma WaitingPhases()
    ensures S.UpdateAdoption(REFERRING, Some(CLAIMED), 0) == S.Go(REFERRING)
    ensures S.SetAddresses(REFERRING, Some(CLAIMED), 0) == S.Go(REFERRING)
  {
    assert OwnerName(CLAIMED) == Some(SELECTOR);
  }

  lemma BootstrapPhases()
    ensures S.UpdateAdoption(REFERRING, Some(ADOPTED), 0) == S.Go(CONFIRMED)
    ensures S.BootstrapTarget(CONFIRMED, Some(ADOPTED), Some("checksum"), true) == Some(MACHINE)
    ensures S.UpdatePlanSecret(CONFIRMED, Some(ADOPTED), Some("checksum"), true, true, 0) == S.Go(BOOTSTRAPPED)
    ensures S.SetAddresses(BOOTSTRAPPED, Some(ADOPTED), 0) == S.Go(COMPLETE)
  {
    assert OwnerName(ADOPTED) == Some(SELECTOR);
  }

  lemma InventoryPhase()
    ensures I.Reconcile(CLAIMED, ANSWERS.(selector := Some(REFERRING))) == I.Go(ADOPTED, I.CreateSecret)
  {
    var a := ANSWERS.(selector := Some(REFERRING));
    var planned := I.CreatePlan(CLAIMED, a).inv;
    assert !I.NetworkNeedsReconcile(planned);
    var networked := planned.(conds := Set(planned.conds, NetworkConfigReady, CondTrue, ReconcilingNetworkConfig, 0));
    var updated := I.UpdatePlanStatus(networked, a).inv;
    assert OwnerName(updated) == Some(SELECTOR);
    assert I.UpdateAdoption(updated, a) == I.Go(ADOPTED, I.KeepSecret);
  }

  // ---- The run ----

  function Stored(invs: seq<Inventory>, sels: seq<Selector>): World {
    World(map[MACHINE := invs], map[SELECTOR := sels], {}, {}, map[], map[], [], false)
  }

  function Job(w: World, base: nat, mem: Selector, stage: SelStage): World {
    w.(selJobs := map[0 := SelJob(SELECTOR, base, mem, stage)])
  }

  const READY_TO_CLAIM := Stored([FREE], [LOOKING])
  const WAITING := Stored([FREE, CLAIMED], [LOOKING])
  const READY_TO_CONFIRM := Stored([FREE, CLAIMED], [LOOKING, REFERRING])
  const READY_TO_BOOTSTRAP := Stored([FREE, CLAIMED, ADOPTED], [LOOKING, REFERRING])
  const WRITTEN := READY_TO_BOOTSTRAP.(bootWrites := [BootWrite(SELECTOR, MACHINE)])

  /** Some run leads to this world. */
  ghost predicate Reached(w: World) {
    exists ws, actions :: Run(ws, actions) && Last(ws) == w
  }

  lemma Next(w: World, a: Action, w': World)
    requires Reached(w) && Enabled(w, a) && w' == Do(w, a)
    ensures Reached(w')
  {
    var ws, actions :| Run(ws, actions) && Last(ws) == w;
    var ws', actions' := ws + [w'], actions + [a];
    forall i: nat | i < |actions'| ensures StepAt(ws', actions', i) {
      if i < |actions| {
        assert StepAt(ws, actions, i);
      }
    }
    assert Run(ws', actions') && Last(ws') == w';
  }

  predicate Held(w: World, base: nat) {
    !w.crashed && SELECTOR in w.sels && base < |w.sels[SELECTOR]|
  }

  predicate ShownAt(w: World, k: nat, v: Inventory) {
    MACHINE in w.invs && k < |w.invs[MACHINE]| && w.invs[MACHINE][k] == v
  }

  lemma Created()
    ensures Reached(READY_TO_CLAIM)
  {
    assert Run([EMPTY], []) && Last([EMPTY]) == EMPTY;
    var w := EMPTY.(invs := map[MACHINE := [FREE]]);
    Next(EMPTY, CreateInventory(FREE), w);
    Next(w, CreateSelector(LOOKING), READY_TO_CLAIM);
  }

  lemma Begun(w: World, k: nat, mem: Selector)
    requires Reached(w) && Held(w, k) && w.sels[SELECTOR][k] == mem && !mem.deleting && w.selJobs == map[]
    ensures Reached(Job(w, k, mem, Finding))
  {
    Next(w, BeginSelector(0, SELECTOR, k), Job(w, k, mem, Finding));
  }

  lemma ClaimComputed()
    ensures
      var w := Job(READY_TO_CLAIM, 0, LOOKING, Finding);
      && SelJobAt(w, 0, Finding) && Readable(w.invs, [Read(MACHINE, 0)])
      && DoFindAndAdopt(w, 0, Some([Read(MACHINE, 0)]), Delivered, 0) == Job(WAITING, 0, REFERRING, Adopting)
  {
    ClaimPhase();
    var w := Job(READY_TO_CLAIM, 0, LOOKING, Finding);
    assert ItemsOf(w.invs, [Read(MACHINE, 0)]) == [FREE];
    assert Patched([FREE], 0, CLAIMED, true, Delivered) == [FREE, CLAIMED];
    assert w.invs[MACHINE := [FREE, CLAIMED]] == WAITING.invs;
  }

  lemma ClaimMade()
    requires Reached(Job(READY_TO_CLAIM, 0, LOOKING, Finding))
    ensures Reached(Job(WAITING, 0, REFERRING, Adopting))
  {
    ClaimComputed();
    Next(Job(READY_TO_CLAIM, 0, LOOKING, Finding), FindAndAdopt(0, Some([Read(MACHINE, 0)]), Delivered, 0),
         Job(WAITING, 0, REFERRING, Adopting));
  }

  lemma ClaimSkipped(w: World, base: nat, mem: Selector)
    requires Reached(Job(w, base, mem, Finding)) && Held(w, base) && mem.ref.Some?
    ensures Reached(Job(w, base, mem, Adopting))
  {
    Next(Job(w, base, mem, Finding), FindAndAdopt(0, Some([]), Delivered, 0), Job(w, base, mem, Adopting));
  }

  lemma AdoptionSeen(w: World, base: nat, mem: Selector, k: nat, v: Inventory, mem': Selector)
    requires Reached(Job(w, base, mem, Adopting)) && Held(w, base)
    requires mem.ref == Some(MACHINE) && ShownAt(w, k, v) && S.UpdateAdoption(mem, Some(v), 0) == S.Go(mem')
    ensures Reached(Job(w, base, mem', Bootstrapping))
  {
    Next(Job(w, base, mem, Adopting), UpdateAdoption(0, Some(k), 0), Job(w, base, mem', Bootstrapping));
  }

  lemma BootstrapSkipped(w: World, base: nat, mem: Selector)
    requires Reached(Job(w, base, mem, Bootstrapping)) && Held(w, base) && !IsTrue(mem.conds, InventoryReady)
    ensures Reached(Job(w, base, mem, Addressing))
  {
    assert w.bootWrites + [] == w.bootWrites;
    Next(Job(w, base, mem, Bootstrapping), UpdatePlanSecret(0, None, None, false, Lost, 0),
         Job(w, base, mem, Addressing));
  }

  lemma BootstrapMade()
    requires Reached(Job(READY_TO_BOOTSTRAP, 1, CONFIRMED, Bootstrapping))
    ensures Reached(Job(WRITTEN, 1, BOOTSTRAPPED, Addressing))
  {
    BootstrapPhases();
    Next(Job(READY_TO_BOOTSTRAP, 1, CONFIRMED, Bootstrapping),
         UpdatePlanSecret(0, Some(2), Some("checksum"), true, Delivered, 0), Job(WRITTEN, 1, BOOTSTRAPPED, Addressing));
  }

  lemma Addressed(w: World, base: nat, mem: Selector, k: nat, v: Inventory, mem': Selector)
    requires Reached(Job(w, base, mem, Addressing)) && Held(w, base)
    requires mem.ref == Some(MACHINE) && ShownAt(w, k, v) && S.SetAddresses(mem, Some(v), 0) == S.Go(mem')
    ensures Reached(Job(w, base, mem', Storing))
  {
    Next(Job(w, base, mem, Addressing), SetAddresses(0, Some(k), 0), Job(w, base, mem', Storing));
  }

  lemma SelectorStored(w: World, before: seq<Selector>, mem: Selector)
    requires before != [] && Reached(Job(w, |before| - 1, mem, Storing)) && mem != Last(before)
    requires !w.crashed && w.sels == map[SELECTOR := before] && w.selJobs == map[] && w.selsGone == {}
    ensures Reached(w.(sels := map[SELECTOR := before + [mem]]))
  {
    var job := Job(w, |before| - 1, mem, Storing);
    assert job.selJobs - {0} == w.selJobs;
    assert Patched(before, |before| - 1, mem, true, Delivered) == before + [mem];
    assert w.sels[SELECTOR := before + [mem]] == map[SELECTOR := before + [mem]];
    Next(job, StoreSelector(0, Delivered), w.(sels := map[SELECTOR := before + [mem]]));
  }

  function Reconciling(mem: Inventory, stage: InvStage): World {
    READY_TO_CONFIRM.(invJobs := map[0 := InvJob(MACHINE, 1, mem, stage)])
  }

  lemma InventoryReconciled()
    requires Reached(Reconciling(CLAIMED, Computing))
    ensures Reached(Reconciling(ADOPTED, PatchingMeta))
  {
    InventoryPhase();
    assert OwnerName(CLAIMED) == Some(SELECTOR);
    Next(Reconciling(CLAIMED, Computing), ReconcileInventory(0, Some(1), ANSWERS), Reconciling(ADOPTED, PatchingMeta));
  }

  lemma InventoryPatched()
    requires Reached(Reconciling(ADOPTED, PatchingMeta))
    ensures Reached(READY_TO_BOOTSTRAP)
  {
    assert WithMeta(CLAIMED, ADOPTED) == CLAIMED && WithStatus(CLAIMED, ADOPTED) == ADOPTED;
    assert Patched([FREE, CLAIMED], 1, CLAIMED, true, Delivered) == [FREE, CLAIMED];
    assert Patched([FREE, CLAIMED], 1, ADOPTED, true, Delivered) == [FREE, CLAIMED, ADOPTED];
    var w := Reconciling(ADOPTED, PatchingStatus(None));
    assert w.invJobs - {0} == map[];
    Next(Reconciling(ADOPTED, PatchingMeta), PatchInventoryMeta(0, Delivered), w);
    Next(w, PatchInventoryStatus(0, Delivered, false), READY_TO_BOOTSTRAP);
  }

  lemma ClaimHappens()
    ensures Reached(Job(WAITING, 0, REFERRING, Adopting))
  {
    Created();
    Begun(READY_TO_CLAIM, 0, LOOKING);
    ClaimMade();
  }

  lemma ReferenceHappens()
    requires Reached(Job(WAITING, 0, REFERRING, Adopting))
    ensures Reached(READY_TO_CONFIRM)
  {
    WaitingPhases();
    AdoptionSeen(WAITING, 0, REFERRING, 1, CLAIMED, REFERRING);
    BootstrapSkipped(WAITING, 0, REFERRING);
    Addressed(WAITING, 0, REFERRING, 1, CLAIMED, REFERRING);
    SelectorStored(WAITING, [LOOKING], REFERRING);
    assert [LOOKING] + [REFERRING] == [LOOKING, REFERRING];
  }

  lemma ConfirmHappens()
    requires Reached(READY_TO_CONFIRM)
    ensures Reached(READY_TO_BOOTSTRAP)
  {
    Next(READY_TO_CONFIRM, BeginInventory(0, MACHINE, 1), Reconciling(CLAIMED, Computing));
    InventoryReconciled();
    InventoryPatched();
  }

  lemma ConfirmationSeen()
    requires Reached(READY_TO_BOOTSTRAP)
    ensures Reached(Job(READY_TO_BOOTSTRAP, 1, CONFIRMED, Bootstrapping))
  {
    BootstrapPhases();
    Begun(READY_TO_BOOTSTRAP, 1, REFERRING);
    ClaimSkipped(READY_TO_BOOTSTRAP, 1, REFERRING);
    AdoptionSeen(READY_TO_BOOTSTRAP, 1, REFERRING, 2, ADOPTED, CONFIRMED);
  }

  lemma BootstrapHappens()
    requires Reached(Job(READY_TO_BOOTSTRAP, 1, CONFIRMED, Bootstrapping))
    ensures Reached(WRITTEN.(sels := map[SELECTOR := [LOOKING, REFERRING, COMPLETE]]))
  {
    BootstrapPhases();
    BootstrapMade();
    Addressed(WRITTEN, 1, BOOTSTRAPPED, 2, ADOPTED, COMPLETE);
    SelectorStored(WRITTEN, [LOOKING, REFERRING], COMPLETE);
    assert [LOOKING, REFERRING] + [COMPLETE] == [LOOKING, REFERRING, COMPLETE];
  }

  /** From nothing to a stored selector that is ready, with its one bootstrap write in the machine's secret. */
  lemma AdoptionHappens() returns (ws: seq<World>, actions: seq<Action>)
    ensures Run(ws, actions)
    ensures
      var w := ws[|actions|];
      && w.bootWrites == [BootWrite(SELECTOR, MACHINE)]
      && SELECTOR in w.sels && w.sels[SELECTOR] != [] && Last(w.sels[SELECTOR]).ready
      && MACHINE in w.invs && w.invs[MACHINE] != [] && Confirmed(Last(w.invs[MACHINE]), SELECTOR)
  {
    ClaimHappens();
    ReferenceHappens();
    ConfirmHappens();
    ConfirmationSeen();
    BootstrapHappens();
    var end := WRITTEN.(sels := map[SELECTOR := [LOOKING, REFERRING, COMPLETE]]);
    ws, actions :| Run(ws, actions) && Last(ws) == end;
    assert OwnerName(ADOPTED) == Some(SELECTOR);
  }
}
