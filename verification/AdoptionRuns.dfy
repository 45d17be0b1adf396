/**
 * Every interleaving of selector reconciles, inventory reconciles and outside
 * edits over the API server, with stale reads and lost or unanswered writes.
 */
module AdoptionRuns {
  import opened Wrappers
  import opened Objects
  import opened ApiServer
  import S = SelectorReconcile
  import I = InventoryReconcile

  type JobId = nat

  datatype SelStage = Finding | Adopting | Bootstrapping | Addressing | Storing

  /** A selector reconcile in flight: the version it read and what it holds in memory. */
  datatype SelJob = SelJob(sel: Name, base: nat, mem: Selector, stage: SelStage)

  datatype InvStage = Computing | PatchingMeta | PatchingStatus(metaAt: Option<nat>)

  /** An inventory reconcile in flight; `metaAt` is the version its metadata patch made. */
  datatype InvJob = InvJob(inv: Name, base: nat, mem: Inventory, stage: InvStage)

  datatype World = World(
    invs: Histories<Inventory>,
    sels: Histories<Selector>,
    gone: set<Name>,
    selsGone: set<Name>,
    selJobs: map<JobId, SelJob>,
    invJobs: map<JobId, InvJob>,
    bootWrites: seq<BootWrite>,
    crashed: bool)

  datatype Action =
    | CreateInventory(newInv: Inventory)
    | EditInventory(edited: Inventory)
    | RemoveInventory(inv: Name)
    | CreateSelector(newSel: Selector)
    | EditSelector(editedSel: Selector)
    | RemoveSelector(sel: Name)
    | BeginSelector(job: JobId, sel: Name, version: nat)
    | FindAndAdopt(job: JobId, listing: Option<seq<Read>>, fate: Fate, now: int)
    | UpdateAdoption(job: JobId, read: Option<nat>, now: int)
    | UpdatePlanSecret(job: JobId, read: Option<nat>, plan: Option<string>, secretFound: bool, fate: Fate, now: int)
    | SetAddresses(job: JobId, read: Option<nat>, now: int)
    | StoreSelector(job: JobId, fate: Fate)
    | BeginInventory(job: JobId, inv: Name, version: nat)
    | ReconcileInventory(job: JobId, selectorRead: Option<nat>, answers: I.Answers)
    | PatchInventoryMeta(job: JobId, fate: Fate)
    | PatchInventoryStatus(job: JobId, fate: Fate, rebased: bool)
    | AbandonSelectorJob(job: JobId)
    | AbandonInventoryJob(job: JobId)

  function Last<T>(s: seq<T>): T
    requires s != []
  {
    s[|s| - 1]
  }

  /** A new inventory has no status, no selector owner and no deletion mark. */
  predicate FreshInventory(v: Inventory) {
    v.conds == map[] && v.plan.None? && OwnerName(v).None? && !v.deleting
  }

  predicate FreshSelector(s: Selector) {
    s.conds == map[] && s.ref.None? && s.checksum == "" && !s.ready && s.addresses == [] && !s.deleting
  }

  /** Others may edit anything but owners and status; a deletion mark stays. */
  predicate OutsideEdit(v: Inventory, e: Inventory) {
    e.name == v.name && e.owners == v.owners && e.conds == v.conds && e.plan == v.plan && (v.deleting ==> e.deleting)
  }

  predicate OutsideSelectorEdit(s: Selector, e: Selector) {
    e == s.(deleting := e.deleting) && (s.deleting ==> e.deleting)
  }

  /** What the metadata patch stores, and what the status patch stores, of a reconciled inventory. */
  function WithMeta(base: Inventory, mem: Inventory): Inventory {
    mem.(conds := base.conds, plan := base.plan)
  }

  function WithStatus(current: Inventory, mem: Inventory): Inventory {
    current.(conds := mem.conds, plan := mem.plan)
  }

  predicate Present(objects: map<Name, seq<Inventory>>, gone: set<Name>, n: Name) {
    n in objects && n !in gone && objects[n] != []
  }

  predicate SelJobAt(w: World, j: JobId, stage: SelStage) {
    j in w.selJobs && w.selJobs[j].stage == stage
    && w.selJobs[j].sel in w.sels && w.selJobs[j].base < |w.sels[w.selJobs[j].sel]|
  }

  predicate InvJobIn(w: World, j: JobId) {
    j in w.invJobs && w.invJobs[j].inv in w.invs && w.invJobs[j].base < |w.invs[w.invJobs[j].inv]|
  }

  predicate Enabled(w: World, a: Action) {
    !w.crashed &&
    match a
    case CreateInventory(v) => v.name !in w.invs && FreshInventory(v)
    case EditInventory(e) => Present(w.invs, w.gone, e.name) && OutsideEdit(Last(w.invs[e.name]), e)
    case RemoveInventory(n) =>
      Present(w.invs, w.gone, n) && Last(w.invs[n]).deleting && !Last(w.invs[n]).finalizer
    case CreateSelector(s) => s.name !in w.sels && FreshSelector(s)
    case EditSelector(e) =>
      e.name in w.sels && e.name !in w.selsGone && w.sels[e.name] != [] && OutsideSelectorEdit(Last(w.sels[e.name]), e)
    case RemoveSelector(n) => n in w.sels && n !in w.selsGone && w.sels[n] != [] && Last(w.sels[n]).deleting
    case BeginSelector(j, s, k) => j !in w.selJobs && s in w.sels && k < |w.sels[s]|
    case FindAndAdopt(j, listing, _, _) => SelJobAt(w, j, Finding)
        && (listing.Some? ==> Readable(w.invs, listing.value))
    case UpdateAdoption(j, _, _) => SelJobAt(w, j, Adopting)
    case UpdatePlanSecret(j, _, plan, _, _, _) => SelJobAt(w, j, Bootstrapping) && plan != Some("")
    case SetAddresses(j, _, _) => SelJobAt(w, j, Addressing)
    case StoreSelector(j, _) => SelJobAt(w, j, Storing)
    case BeginInventory(j, n, k) => j !in w.invJobs && n in w.invs && k < |w.invs[n]|
    case ReconcileInventory(j, _, _) => InvJobIn(w, j) && w.invJobs[j].stage.Computing?
    case PatchInventoryMeta(j, _) => InvJobIn(w, j) && w.invJobs[j].stage.PatchingMeta?
    case PatchInventoryStatus(j, _, _) => InvJobIn(w, j) && w.invJobs[j].stage.PatchingStatus?
    case AbandonSelectorJob(j) => j in w.selJobs
    case AbandonInventoryJob(j) => j in w.invJobs
  }

  /** A phase result moves the job on, sends it to its patches, or crashes the operator. */
  function AfterPhase(w: World, j: JobId, step: S.Step, next: SelStage): World
    requires j in w.selJobs
  {
    match step
    case Go(sel) => w.(selJobs := w.selJobs[j := w.selJobs[j].(mem := sel, stage := next)])
    case Stop(sel) => w.(selJobs := w.selJobs[j := w.selJobs[j].(mem := sel, stage := Storing)])
    case NilDeref => w.(crashed := true)
  }

  function DoFindAndAdopt(w: World, j: JobId, listing: Option<seq<Read>>, fate: Fate, now: int): World
    requires SelJobAt(w, j, Finding)
    requires listing.Some? ==> Readable(w.invs, listing.value)
  {
    var sel := w.selJobs[j].mem;
    var listed := if listing.None? then None else Some(ItemsOf(w.invs, listing.value));
    var choice := S.ClaimChoice(sel, listed);
    if choice.None? then AfterPhase(w, j, S.FindAndAdopt(sel, listed, false, now), Adopting)
    else
      var r := listing.value[choice.value];
      var history := w.invs[r.inv];
      var claimed := S.ClaimedBy(listed.value[choice.value], sel.name);
      var accepted := Lands(|history|, r.version, r.inv !in w.gone, fate) && fate == Delivered;
      AfterPhase(w.(invs := w.invs[r.inv := Patched(history, r.version, claimed, r.inv !in w.gone, fate)]), j,
                 S.FindAndAdopt(sel, listed, accepted, now), Adopting)
  }

  function DoUpdatePlanSecret(w: World, j: JobId, got: Option<Inventory>, plan: Option<string>, secretFound: bool,
                              fate: Fate, now: int): World
    requires SelJobAt(w, j, Bootstrapping)
  {
    var sel := w.selJobs[j].mem;
    var target := S.BootstrapTarget(sel, got, plan, secretFound);
    var written := if target.None? || fate == Lost then [] else [BootWrite(sel.name, target.value)];
    AfterPhase(w.(bootWrites := w.bootWrites + written), j,
               S.UpdatePlanSecret(sel, got, plan, secretFound, fate == Delivered, now), Addressing)
  }

  function DoStoreSelector(w: World, j: JobId, fate: Fate): World
    requires SelJobAt(w, j, Storing)
  {
    var job := w.selJobs[j];
    w.(selJobs := w.selJobs - {j},
       sels := w.sels[job.sel := Patched(w.sels[job.sel], job.base, job.mem, job.sel !in w.selsGone, fate)])
  }

  function DoReconcileInventory(w: World, j: JobId, selectorRead: Option<nat>, answers: I.Answers): World
    requires InvJobIn(w, j)
  {
    var mem := w.invJobs[j].mem;
    match I.Reconcile(mem, answers.(selector := Get(w.sels, OwnerName(mem), selectorRead)))
    case NilDeref => w.(crashed := true)
    case Go(inv, _) => w.(invJobs := w.invJobs[j := w.invJobs[j].(mem := inv, stage := PatchingMeta)])
    case Stop(inv, _) => w.(invJobs := w.invJobs[j := w.invJobs[j].(mem := inv, stage := PatchingMeta)])
  }

  function DoPatchMeta(w: World, j: JobId, fate: Fate): World
    requires InvJobIn(w, j)
  {
    var job := w.invJobs[j];
    var history := w.invs[job.inv];
    var stored := WithMeta(history[job.base], job.mem);
    var patched := Patched(history, job.base, stored, job.inv !in w.gone, fate);
    var metaAt := if |patched| > |history| then Some(|history|) else None;
    w.(invs := w.invs[job.inv := patched], invJobs := w.invJobs[j := job.(stage := PatchingStatus(metaAt))])
  }

  /**
   * The status patch shares the base of the metadata patch, so after a metadata
   * change it may be rejected (`rebased` false) or may still land on that change.
   */
  function DoPatchStatus(w: World, j: JobId, fate: Fate, rebased: bool): World
    requires InvJobIn(w, j) && w.invJobs[j].stage.PatchingStatus?
  {
    var job := w.invJobs[j];
    var history := w.invs[job.inv];
    var metaAt := job.stage.metaAt;
    var base := if rebased && metaAt.Some? && metaAt.value < |history| then metaAt.value else job.base;
    var stored := WithStatus(history[base], job.mem);
    w.(invs := w.invs[job.inv := Patched(history, base, stored, job.inv !in w.gone, fate)], invJobs := w.invJobs - {j})
  }

  function Do(w: World, a: Action): World
    requires Enabled(w, a)
  {
    match a
    case CreateInventory(v) => w.(invs := w.invs[v.name := [v]])
    case EditInventory(e) => w.(invs := w.invs[e.name := w.invs[e.name] + [e]])
    case RemoveInventory(n) => w.(gone := w.gone + {n})
    case CreateSelector(s) => w.(sels := w.sels[s.name := [s]])
    case EditSelector(e) => w.(sels := w.sels[e.name := w.sels[e.name] + [e]])
    case RemoveSelector(n) => w.(selsGone := w.selsGone + {n})
    case BeginSelector(j, s, k) =>
      var read := w.sels[s][k];
      w.(selJobs := w.selJobs[j := SelJob(s, k, read, if read.deleting then Storing else Finding)])
    case FindAndAdopt(j, listing, fate, now) => DoFindAndAdopt(w, j, listing, fate, now)
    case UpdateAdoption(j, read, now) =>
      var sel := w.selJobs[j].mem;
      AfterPhase(w, j, S.UpdateAdoption(sel, Get(w.invs, sel.ref, read), now), Bootstrapping)
    case UpdatePlanSecret(j, read, plan, secretFound, fate, now) =>
      DoUpdatePlanSecret(w, j, Get(w.invs, w.selJobs[j].mem.ref, read), plan, secretFound, fate, now)
    case SetAddresses(j, read, now) =>
      var sel := w.selJobs[j].mem;
      AfterPhase(w, j, S.SetAddresses(sel, Get(w.invs, sel.ref, read), now), Storing)
    case StoreSelector(j, fate) => DoStoreSelector(w, j, fate)
    case BeginInventory(j, n, k) => w.(invJobs := w.invJobs[j := InvJob(n, k, w.invs[n][k], Computing)])
    case ReconcileInventory(j, selectorRead, answers) => DoReconcileInventory(w, j, selectorRead, answers)
    case PatchInventoryMeta(j, fate) => DoPatchMeta(w, j, fate)
    case PatchInventoryStatus(j, fate, rebased) => DoPatchStatus(w, j, fate, rebased)
    case AbandonSelectorJob(j) => w.(selJobs := w.selJobs - {j})
    case AbandonInventoryJob(j) => w.(invJobs := w.invJobs - {j})
  }

  const EMPTY := World(map[], map[], {}, {}, map[], map[], [], false)

  predicate StepAt(ws: seq<World>, actions: seq<Action>, i: nat)
    requires i < |actions| < |ws|
  {
    Enabled(ws[i], actions[i]) && ws[i + 1] == Do(ws[i], actions[i])
  }

  /** A run: worlds from the empty one on, each made from the one before by an enabled action. */
  predicate Run(ws: seq<World>, actions: seq<Action>) {
    && |ws| == |actions| + 1
    && ws[0] == EMPTY
    && forall i: nat :: i < |actions| ==> StepAt(ws, actions, i)
  }
}
