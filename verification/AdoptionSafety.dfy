/** What every reachable world of the adoption protocol keeps. */
module AdoptionSafety {
  import opened Wrappers
  import opened Conditions
  import opened Objects
  import opened ApiServer
  import opened AdoptionRuns
  import S = SelectorReconcile
  import I = InventoryReconcile
  import opened InventoryFacts

  // ---- Invariants of single versions and of histories ----

  predicate VersionOk(v: Inventory) {
    (Adopted(v) ==> OwnerName(v).Some?) && PlanOk(v)
  }

  /** Once adopted, the adoption and the owner stay. */
  predicate Keeps(before: Inventory, after: Inventory) {
    Adopted(before) ==> Adopted(after) && OwnerName(after) == OwnerName(before)
  }

  predicate HistoryOk(n: Name, h: seq<Inventory>) {
    && h != []
    && (forall v <- h :: v.name == n && VersionOk(v))
    && (forall i, k :: 0 <= i <= k < |h| ==> Keeps(h[i], h[k]))
  }

  predicate Grows(before: Selector, after: Selector) {
    && after.name == before.name
    && (IsTrue(before.conds, InventoryReady) ==> IsTrue(after.conds, InventoryReady) && after.ref == before.ref)
    && (before.checksum != "" ==> after.checksum == before.checksum)
    && (before.ready ==> after.ready)
  }

  predicate ConfirmedNow(invs: Histories<Inventory>, inv: Name, sel: Name) {
    inv in invs && invs[inv] != [] && Confirmed(Last(invs[inv]), sel)
  }

  /** Ready needs a bootstrap checksum, which needs InventoryReady, which needs a confirmed inventory. */
  predicate Pipeline(invs: Histories<Inventory>, s: Selector) {
    && (s.ready ==> s.checksum != "")
    && (s.checksum != "" ==> IsTrue(s.conds, InventoryReady))
    && (IsTrue(s.conds, InventoryReady) ==> s.ref.Some? && ConfirmedNow(invs, s.ref.value, s.name))
  }

  predicate SelHistoryOk(invs: Histories<Inventory>, n: Name, h: seq<Selector>) {
    && h != []
    && (forall s <- h :: s.name == n && Pipeline(invs, s))
    && (forall i, k :: 0 <= i <= k < |h| ==> Grows(h[i], h[k]))
  }

  predicate SelJobOk(w: World, j: SelJob) {
    && j.sel in w.sels && j.base < |w.sels[j.sel]|
    && Grows(w.sels[j.sel][j.base], j.mem) && j.mem.name == j.sel
    && Pipeline(w.invs, j.mem)
  }

  /** Every mixture of old and new metadata and status that may be stored is sound. */
  predicate Derived(base: Inventory, mem: Inventory) {
    && mem.name == base.name
    && VersionOk(mem) && VersionOk(WithMeta(base, mem)) && VersionOk(WithStatus(base, mem))
    && Keeps(base, WithMeta(base, mem)) && Keeps(base, WithStatus(base, mem)) && Keeps(WithMeta(base, mem), mem)
  }

  predicate InvJobOk(w: World, j: InvJob) {
    && j.inv in w.invs && j.base < |w.invs[j.inv]|
    && var base := w.invs[j.inv][j.base];
       match j.stage
       case Computing => j.mem == base
       case PatchingMeta => Derived(base, j.mem)
       case PatchingStatus(metaAt) =>
         Derived(base, j.mem)
         && (metaAt.Some? ==> metaAt.value < |w.invs[j.inv]| && w.invs[j.inv][metaAt.value] == WithMeta(base, j.mem))
  }

  predicate InvsOk(w: World) {
    forall n <- w.invs :: HistoryOk(n, w.invs[n])
  }

  predicate SelsOk(w: World) {
    forall n <- w.sels :: SelHistoryOk(w.invs, n, w.sels[n])
  }

  predicate SelJobsOk(w: World) {
    forall j <- w.selJobs :: SelJobOk(w, w.selJobs[j])
  }

  predicate InvJobsOk(w: World) {
    forall j <- w.invJobs :: InvJobOk(w, w.invJobs[j])
  }

  predicate WritesOk(w: World) {
    forall b <- w.bootWrites :: ConfirmedNow(w.invs, b.secret, b.sel)
  }

  predicate Inv(w: World) {
    !w.crashed && InvsOk(w) && SelsOk(w) && SelJobsOk(w) && InvJobsOk(w) && WritesOk(w)
  }

  // ---- One reconcile ----

  lemma KeptDerives(base: Inventory, mem: Inventory)
    requires VersionOk(base) && AdoptionKept(base, mem)
    requires mem.name == base.name && mem.deleting == base.deleting && PlanOk(mem)
    ensures Derived(base, mem)
  {
    assert WithMeta(base, mem).owners == mem.owners && WithStatus(base, mem).owners == base.owners;
  }

  /** No stored version makes a reconcile dereference a nil plan, and all it may store is sound. */
  lemma ReconcileDerives(base: Inventory, a: I.Answers)
    requires VersionOk(base)
    ensures
      var step := I.Reconcile(base, a);
      step != I.NilDeref && Derived(base, step.inv)
  {
    ReconcileKeepsPlan(base, a);
    if base.deleting {
      ResetKeepsOwner(base, a);
    } else {
      LiveStep(base, a);
    }
    KeptDerives(base, I.Reconcile(base, a).inv);
  }

  // ---- Frame lemmas: what growing one history leaves true ----

  lemma ConfirmedStays(invs: Histories<Inventory>, n: Name, v: Inventory, inv: Name, sel: Name)
    requires n in invs ==> HistoryOk(n, invs[n]) && Keeps(Last(invs[n]), v)
    requires ConfirmedNow(invs, inv, sel)
    ensures ConfirmedNow(invs[n := (if n in invs then invs[n] else []) + [v]], inv, sel)
  {
  }

  lemma AppendVersion(n: Name, h: seq<Inventory>, v: Inventory)
    requires v.name == n && VersionOk(v)
    requires h != [] ==> HistoryOk(n, h) && Keeps(Last(h), v)
    ensures HistoryOk(n, h + [v])
  {
  }

  lemma AppendSelector(invs: Histories<Inventory>, n: Name, h: seq<Selector>, s: Selector)
    requires s.name == n && Pipeline(invs, s)
    requires h != [] ==> SelHistoryOk(invs, n, h) && Grows(Last(h), s)
    ensures SelHistoryOk(invs, n, h + [s])
  {
  }

  /** Adding a sound version to an inventory, or a first one, keeps the whole invariant. */
  lemma AddVersion(w: World, n: Name, v: Inventory)
    requires Inv(w) && v.name == n && VersionOk(v)
    requires n in w.invs ==> Keeps(Last(w.invs[n]), v)
    ensures Inv(w.(invs := w.invs[n := (if n in w.invs then w.invs[n] else []) + [v]]))
  {
    var h := if n in w.invs then w.invs[n] else [];
    var invs := w.invs[n := h + [v]];
    var w' := w.(invs := invs);
    AppendVersion(n, h, v);
    forall s: Selector | Pipeline(w.invs, s) ensures Pipeline(invs, s) {
      if IsTrue(s.conds, InventoryReady) {
        ConfirmedStays(w.invs, n, v, s.ref.value, s.name);
      }
    }
    forall m | m in w'.sels ensures SelHistoryOk(invs, m, w'.sels[m]) {
      assert SelHistoryOk(w.invs, m, w.sels[m]);
    }
    forall j | j in w'.selJobs ensures SelJobOk(w', w'.selJobs[j]) {
      assert SelJobOk(w, w.selJobs[j]);
    }
    forall j | j in w'.invJobs ensures InvJobOk(w', w'.invJobs[j]) {
      assert InvJobOk(w, w.invJobs[j]);
    }
    forall b | b in w'.bootWrites ensures ConfirmedNow(invs, b.secret, b.sel) {
      ConfirmedStays(w.invs, n, v, b.secret, b.sel);
    }
  }

  /** A locked patch whose result is sound whenever its base is the newest version. */
  lemma PatchVersion(w: World, n: Name, base: nat, v: Inventory, exists_: bool, fate: Fate)
    requires Inv(w) && n in w.invs && base < |w.invs[n]|
    requires v.name == n && VersionOk(v) && Keeps(w.invs[n][base], v)
    ensures Inv(w.(invs := w.invs[n := Patched(w.invs[n], base, v, exists_, fate)]))
  {
    var h := w.invs[n];
    if Patched(h, base, v, exists_, fate) == h {
      assert w.invs[n := h] == w.invs;
      assert w.(invs := w.invs) == w;
    } else {
      AddVersion(w, n, v);
    }
  }

  lemma AddSelectorVersion(w: World, n: Name, s: Selector)
    requires Inv(w) && s.name == n && Pipeline(w.invs, s)
    requires n in w.sels ==> Grows(Last(w.sels[n]), s)
    ensures Inv(w.(sels := w.sels[n := (if n in w.sels then w.sels[n] else []) + [s]]))
  {
    var h := if n in w.sels then w.sels[n] else [];
    var w' := w.(sels := w.sels[n := h + [s]]);
    AppendSelector(w.invs, n, h, s);
    forall j | j in w'.selJobs ensures SelJobOk(w', w'.selJobs[j]) {
      assert SelJobOk(w, w.selJobs[j]);
    }
    forall j | j in w'.invJobs ensures InvJobOk(w', w'.invJobs[j]) {
      assert InvJobOk(w, w.invJobs[j]);
    }
  }

  lemma SetSelJob(w: World, j: JobId, job: SelJob)
    requires Inv(w) && SelJobOk(w, job)
    ensures Inv(w.(selJobs := w.selJobs[j := job]))
  {
  }

  lemma SetInvJob(w: World, j: JobId, job: InvJob)
    requires Inv(w) && InvJobOk(w, job)
    ensures Inv(w.(invJobs := w.invJobs[j := job]))
  {
    var w' := w.(invJobs := w.invJobs[j := job]);
    forall k | k in w'.selJobs ensures SelJobOk(w', w'.selJobs[k]) {
      assert SelJobOk(w, w.selJobs[k]);
    }
    forall k | k in w'.invJobs ensures InvJobOk(w', w'.invJobs[k]) {
      assert k != j ==> InvJobOk(w, w.invJobs[k]);
    }
  }

  lemma DropJobs(w: World, sj: set<JobId>, ij: set<JobId>)
    requires Inv(w)
    ensures Inv(w.(selJobs := w.selJobs - sj, invJobs := w.invJobs - ij))
  {
  }

  // ---- The selector's phases ----

  /** A phase result may replace the selector held in memory. */
  predicate PhaseOk(invs: Histories<Inventory>, before: Selector, step: S.Step) {
    step != S.NilDeref && Grows(before, step.sel) && Pipeline(invs, step.sel)
  }

  lemma PhaseKeeps(w: World, j: JobId, step: S.Step, next: SelStage)
    requires Inv(w) && j in w.selJobs && PhaseOk(w.invs, w.selJobs[j].mem, step)
    ensures Inv(AfterPhase(w, j, step, next))
  {
    var job := w.selJobs[j];
    assert SelJobOk(w, job);
    match step
    case Go(sel) => SetSelJob(w, j, job.(mem := sel, stage := next));
    case Stop(sel) => SetSelJob(w, j, job.(mem := sel, stage := Storing));
  }

  lemma FindPhase(invs: Histories<Inventory>, sel: Selector, listed: Option<seq<Inventory>>, accepted: bool, now: int)
    requires Pipeline(invs, sel)
    ensures PhaseOk(invs, sel, S.FindAndAdopt(sel, listed, accepted && S.ClaimChoice(sel, listed).Some?, now))
  {
  }

  /** A claim is made only on an unowned, live version, so it cannot disturb an adoption. */
  lemma ClaimKeeps(w: World, r: Read, sel: Name, fate: Fate)
    requires Inv(w) && Readable(w.invs, [r]) && S.Claimable(w.invs[r.inv][r.version])
    ensures
      var claimed := S.ClaimedBy(w.invs[r.inv][r.version], sel);
      Inv(w.(invs := w.invs[r.inv := Patched(w.invs[r.inv], r.version, claimed, r.inv !in w.gone, fate)]))
  {
    assert r in [r];
    var item := w.invs[r.inv][r.version];
    assert item in w.invs[r.inv] && HistoryOk(r.inv, w.invs[r.inv]);
    PatchVersion(w, r.inv, r.version, S.ClaimedBy(item, sel), r.inv !in w.gone, fate);
  }

  lemma FindKeeps(w: World, j: JobId, listing: Option<seq<Read>>, fate: Fate, now: int)
    requires Inv(w) && Enabled(w, FindAndAdopt(j, listing, fate, now))
    ensures Inv(DoFindAndAdopt(w, j, listing, fate, now))
  {
    var sel := w.selJobs[j].mem;
    assert SelJobOk(w, w.selJobs[j]);
    var listed := if listing.None? then None else Some(ItemsOf(w.invs, listing.value));
    var choice := S.ClaimChoice(sel, listed);
    if choice.None? {
      FindPhase(w.invs, sel, listed, false, now);
      PhaseKeeps(w, j, S.FindAndAdopt(sel, listed, false, now), Adopting);
    } else {
      var r := listing.value[choice.value];
      assert r in listing.value;
      var claimed := S.ClaimedBy(listed.value[choice.value], sel.name);
      ClaimKeeps(w, r, sel.name, fate);
      var w1 := w.(invs := w.invs[r.inv := Patched(w.invs[r.inv], r.version, claimed, r.inv !in w.gone, fate)]);
      var accepted := Lands(|w.invs[r.inv]|, r.version, r.inv !in w.gone, fate) && fate == Delivered;
      assert SelJobOk(w1, w1.selJobs[j]);
      FindPhase(w1.invs, sel, listed, accepted, now);
      PhaseKeeps(w1, j, S.FindAndAdopt(sel, listed, accepted, now), Adopting);
    }
  }

  /** A read that shows an adoption, however stale, shows the present one. */
  lemma StaleReadConfirms(w: World, ref: Option<Name>, read: Option<nat>, sel: Name)
    requires InvsOk(w) && Get(w.invs, ref, read).Some? && Confirmed(Get(w.invs, ref, read).value, sel)
    ensures ConfirmedNow(w.invs, ref.value, sel)
  {
  }

  lemma AdoptionPhase(invs: Histories<Inventory>, sel: Selector, got: Option<Inventory>, now: int)
    requires Pipeline(invs, sel)
    requires got.Some? && Confirmed(got.value, sel.name) && sel.ref.Some? ==>
              ConfirmedNow(invs, sel.ref.value, sel.name)
    ensures PhaseOk(invs, sel, S.UpdateAdoption(sel, got, now))
  {
  }

  lemma AdoptionKeeps(w: World, j: JobId, read: Option<nat>, now: int)
    requires Inv(w) && Enabled(w, UpdateAdoption(j, read, now))
    ensures Inv(Do(w, UpdateAdoption(j, read, now)))
  {
    var sel := w.selJobs[j].mem;
    assert SelJobOk(w, w.selJobs[j]);
    var got := Get(w.invs, sel.ref, read);
    if got.Some? && Confirmed(got.value, sel.name) {
      StaleReadConfirms(w, sel.ref, read, sel.name);
    }
    AdoptionPhase(w.invs, sel, got, now);
    PhaseKeeps(w, j, S.UpdateAdoption(sel, got, now), Bootstrapping);
  }

  /** Every bootstrap write goes to the secret of the inventory that is confirmed for the writer. */
  lemma BootstrapWrites(w: World, sel: Selector, read: Option<nat>, plan: Option<string>, found: bool)
    requires InvsOk(w) && Pipeline(w.invs, sel)
    ensures
      var target := S.BootstrapTarget(sel, Get(w.invs, sel.ref, read), plan, found);
      target.Some? ==> ConfirmedNow(w.invs, target.value, sel.name)
  {
  }

  lemma AddWrites(w: World, written: seq<BootWrite>)
    requires Inv(w) && forall b <- written :: ConfirmedNow(w.invs, b.secret, b.sel)
    ensures Inv(w.(bootWrites := w.bootWrites + written))
  {
  }

  lemma BootstrapPhase(invs: Histories<Inventory>, sel: Selector, got: Option<Inventory>, plan: Option<string>,
                       found: bool, accepted: bool, now: int)
    requires Pipeline(invs, sel) && plan != Some("")
    ensures PhaseOk(invs, sel, S.UpdatePlanSecret(sel, got, plan, found, accepted, now))
  {
  }

  lemma WriteKeeps(w: World, j: JobId, got: Option<Inventory>, plan: Option<string>, found: bool, fate: Fate, now: int)
    requires Inv(w) && SelJobAt(w, j, Bootstrapping) && plan != Some("")
    requires
      var target := S.BootstrapTarget(w.selJobs[j].mem, got, plan, found);
      target.Some? ==> ConfirmedNow(w.invs, target.value, w.selJobs[j].mem.name)
    ensures Inv(DoUpdatePlanSecret(w, j, got, plan, found, fate, now))
  {
    var sel := w.selJobs[j].mem;
    assert SelJobOk(w, w.selJobs[j]);
    var target := S.BootstrapTarget(sel, got, plan, found);
    var written := if target.None? || fate == Lost then [] else [BootWrite(sel.name, target.value)];
    AddWrites(w, written);
    var w1 := w.(bootWrites := w.bootWrites + written);
    BootstrapPhase(w.invs, sel, got, plan, found, fate == Delivered, now);
    PhaseKeeps(w1, j, S.UpdatePlanSecret(sel, got, plan, found, fate == Delivered, now), Addressing);
  }

  lemma BootstrapKeeps(w: World, j: JobId, read: Option<nat>, plan: Option<string>, found: bool, fate: Fate, now: int)
    requires Inv(w) && Enabled(w, UpdatePlanSecret(j, read, plan, found, fate, now))
    ensures Inv(DoUpdatePlanSecret(w, j, Get(w.invs, w.selJobs[j].mem.ref, read), plan, found, fate, now))
  {
    var sel := w.selJobs[j].mem;
    assert SelJobOk(w, w.selJobs[j]);
    BootstrapWrites(w, sel, read, plan, found);
    WriteKeeps(w, j, Get(w.invs, sel.ref, read), plan, found, fate, now);
  }

  lemma StoreKeeps(w: World, j: JobId, fate: Fate)
    requires Inv(w) && Enabled(w, StoreSelector(j, fate))
    ensures Inv(DoStoreSelector(w, j, fate))
  {
    var job := w.selJobs[j];
    assert SelJobOk(w, job);
    DropJobs(w, {j}, {});
    var w1 := w.(selJobs := w.selJobs - {j}, invJobs := w.invJobs - {});
    assert w.invJobs - {} == w.invJobs;
    var patched := Patched(w.sels[job.sel], job.base, job.mem, job.sel !in w.selsGone, fate);
    if patched == w.sels[job.sel] {
      assert w.sels[job.sel := patched] == w.sels;
      assert DoStoreSelector(w, j, fate) == w1;
    } else {
      AddSelectorVersion(w1, job.sel, job.mem);
    }
  }

  // ---- The inventory's phases ----

  lemma ReconcileKeeps(w: World, j: JobId, selectorRead: Option<nat>, answers: I.Answers)
    requires Inv(w) && Enabled(w, ReconcileInventory(j, selectorRead, answers))
    ensures Inv(DoReconcileInventory(w, j, selectorRead, answers))
  {
    var job := w.invJobs[j];
    assert InvJobOk(w, job);
    assert HistoryOk(job.inv, w.invs[job.inv]);
    assert job.mem in w.invs[job.inv];
    var a := answers.(selector := Get(w.sels, OwnerName(job.mem), selectorRead));
    ReconcileDerives(job.mem, a);
    SetInvJob(w, j, job.(mem := I.Reconcile(job.mem, a).inv, stage := PatchingMeta));
  }

  lemma MetaKeeps(w: World, j: JobId, fate: Fate)
    requires Inv(w) && Enabled(w, PatchInventoryMeta(j, fate))
    ensures Inv(DoPatchMeta(w, j, fate))
  {
    var job := w.invJobs[j];
    assert InvJobOk(w, job);
    var history := w.invs[job.inv];
    assert HistoryOk(job.inv, history);
    assert history[job.base] in history;
    var stored := WithMeta(history[job.base], job.mem);
    PatchVersion(w, job.inv, job.base, stored, job.inv !in w.gone, fate);
    var patched := Patched(history, job.base, stored, job.inv !in w.gone, fate);
    var metaAt := if |patched| > |history| then Some(|history|) else None;
    SetInvJob(w.(invs := w.invs[job.inv := patched]), j, job.(stage := PatchingStatus(metaAt)));
  }

  lemma StatusKeeps(w: World, j: JobId, fate: Fate, rebased: bool)
    requires Inv(w) && Enabled(w, PatchInventoryStatus(j, fate, rebased))
    ensures Inv(DoPatchStatus(w, j, fate, rebased))
  {
    var job := w.invJobs[j];
    assert InvJobOk(w, job);
    var history := w.invs[job.inv];
    assert HistoryOk(job.inv, history);
    assert history[job.base] in history;
    var metaAt := job.stage.metaAt;
    var base := if rebased && metaAt.Some? && metaAt.value < |history| then metaAt.value else job.base;
    var stored := WithStatus(history[base], job.mem);
    DropJobs(w, {}, {j});
    var w1 := w.(selJobs := w.selJobs - {}, invJobs := w.invJobs - {j});
    assert w.selJobs - {} == w.selJobs;
    PatchVersion(w1, job.inv, base, stored, job.inv !in w.gone, fate);
    assert DoPatchStatus(w, j, fate, rebased)
        == w1.(invs := w1.invs[job.inv := Patched(history, base, stored, job.inv !in w.gone, fate)]);
  }

  // ---- Every action ----

  lemma EditKeeps(w: World, e: Inventory)
    requires Inv(w) && Enabled(w, EditInventory(e))
    ensures Inv(Do(w, EditInventory(e)))
  {
    var last := Last(w.invs[e.name]);
    assert HistoryOk(e.name, w.invs[e.name]);
    assert last in w.invs[e.name] && VersionOk(last);
    assert VersionOk(e) && Keeps(last, e);
    AddVersion(w, e.name, e);
  }

  lemma CreateKeeps(w: World, v: Inventory)
    requires Inv(w) && Enabled(w, CreateInventory(v))
    ensures Inv(Do(w, CreateInventory(v)))
  {
    AddVersion(w, v.name, v);
    assert [] + [v] == [v];
  }

  lemma CreateSelectorKeeps(w: World, s: Selector)
    requires Inv(w) && Enabled(w, CreateSelector(s))
    ensures Inv(Do(w, CreateSelector(s)))
  {
    AddSelectorVersion(w, s.name, s);
    assert [] + [s] == [s];
  }

  lemma EditSelectorKeeps(w: World, e: Selector)
    requires Inv(w) && Enabled(w, EditSelector(e))
    ensures Inv(Do(w, EditSelector(e)))
  {
    var last := Last(w.sels[e.name]);
    assert SelHistoryOk(w.invs, e.name, w.sels[e.name]);
    assert last in w.sels[e.name] && Pipeline(w.invs, last);
    assert Pipeline(w.invs, e) && Grows(last, e);
    AddSelectorVersion(w, e.name, e);
  }

  lemma SameObjects(w: World, w': World)
    requires Inv(w) && w' == w.(gone := w'.gone, selsGone := w'.selsGone)
    ensures Inv(w')
  {
  }

  lemma BeginKeeps(w: World, a: Action)
    requires Inv(w) && Enabled(w, a) && (a.BeginSelector? || a.BeginInventory?)
    ensures Inv(Do(w, a))
  {
    match a
    case BeginSelector(j, s, k) =>
      var read := w.sels[s][k];
      assert SelHistoryOk(w.invs, s, w.sels[s]);
      assert read in w.sels[s] && Grows(w.sels[s][k], w.sels[s][k]);
      SetSelJob(w, j, SelJob(s, k, read, if read.deleting then Storing else Finding));
    case BeginInventory(j, n, k) => SetInvJob(w, j, InvJob(n, k, w.invs[n][k], Computing));
  }

  lemma AddressesPhase(invs: Histories<Inventory>, sel: Selector, got: Option<Inventory>, now: int)
    requires Pipeline(invs, sel)
    ensures PhaseOk(invs, sel, S.SetAddresses(sel, got, now))
  {
  }

  lemma AddressesKeeps(w: World, j: JobId, read: Option<nat>, now: int)
    requires Inv(w) && Enabled(w, SetAddresses(j, read, now))
    ensures Inv(Do(w, SetAddresses(j, read, now)))
  {
    var sel := w.selJobs[j].mem;
    assert SelJobOk(w, w.selJobs[j]);
    var step := S.SetAddresses(sel, Get(w.invs, sel.ref, read), now);
    AddressesPhase(w.invs, sel, Get(w.invs, sel.ref, read), now);
    PhaseKeeps(w, j, step, Storing);
  }

  lemma SelectorActionKeeps(w: World, a: Action)
    requires Inv(w) && Enabled(w, a)
    requires a.FindAndAdopt? || a.UpdateAdoption? || a.UpdatePlanSecret? || a.SetAddresses? || a.StoreSelector?
    ensures Inv(Do(w, a))
  {
    match a
    case FindAndAdopt(j, listing, fate, now) => FindKeeps(w, j, listing, fate, now);
    case UpdateAdoption(j, read, now) => AdoptionKeeps(w, j, read, now);
    case UpdatePlanSecret(j, read, plan, found, fate, now) => BootstrapKeeps(w, j, read, plan, found, fate, now);
    case SetAddresses(j, read, now) => AddressesKeeps(w, j, read, now);
    case StoreSelector(j, fate) => StoreKeeps(w, j, fate);
  }

  lemma InventoryActionKeeps(w: World, a: Action)
    requires Inv(w) && Enabled(w, a)
    requires a.ReconcileInventory? || a.PatchInventoryMeta? || a.PatchInventoryStatus?
    ensures Inv(Do(w, a))
  {
    match a
    case ReconcileInventory(j, selectorRead, answers) => ReconcileKeeps(w, j, selectorRead, answers);
    case PatchInventoryMeta(j, fate) => MetaKeeps(w, j, fate);
    case PatchInventoryStatus(j, fate, rebased) => StatusKeeps(w, j, fate, rebased);
  }

  lemma AbandonKeeps(w: World, sj: set<JobId>, ij: set<JobId>)
    requires Inv(w)
    ensures Inv(w.(selJobs := w.selJobs - sj)) && Inv(w.(invJobs := w.invJobs - ij))
  {
  }

  lemma ActionKeeps(w: World, a: Action)
    requires Inv(w) && Enabled(w, a)
    ensures Inv(Do(w, a))
  {
    if a.BeginSelector? || a.BeginInventory? {
      BeginKeeps(w, a);
    } else if a.CreateInventory? {
      CreateKeeps(w, a.newInv);
    } else if a.EditInventory? {
      EditKeeps(w, a.edited);
    } else if a.RemoveInventory? {
      SameObjects(w, Do(w, a));
    } else if a.CreateSelector? {
      CreateSelectorKeeps(w, a.newSel);
    } else if a.EditSelector? {
      EditSelectorKeeps(w, a.editedSel);
    } else if a.RemoveSelector? {
      SameObjects(w, Do(w, a));
    } else if a.AbandonSelectorJob? || a.AbandonInventoryJob? {
      AbandonKeeps(w, {a.job}, {a.job});
    } else if a.ReconcileInventory? || a.PatchInventoryMeta? || a.PatchInventoryStatus? {
      InventoryActionKeeps(w, a);
    } else {
      SelectorActionKeeps(w, a);
    }
  }

  lemma {:induction false} Reachable(ws: seq<World>, actions: seq<Action>, i: nat)
    requires Run(ws, actions) && i < |ws|
    ensures Inv(ws[i])
  {
    if i > 0 {
      Reachable(ws, actions, i - 1);
      assert StepAt(ws, actions, i - 1);
      ActionKeeps(ws[i - 1], actions[i - 1]);
    }
  }
}
