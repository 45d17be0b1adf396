/** What the claims, confirmations and plan writes of a run refer to. */
module AdoptionReferences {
  import opened Wrappers
  import opened Conditions
  import opened Objects
  import opened ApiServer
  import opened AdoptionRuns
  import opened AdoptionSafety
  import opened AdoptionTheorems
  import S = SelectorReconcile
  import I = InventoryReconcile
  import opened InventoryFacts
  import InventoryDecisions
  import SelectorDecisions

  // ---- What a version or a job may refer to ----

  /** The selector's reference names an inventory that some version shows as its own. */
  predicate RefersToClaimed(invs: Histories<Inventory>, s: Selector) {
    s.ref.Some? ==>
      s.ref.value in invs && exists v <- invs[s.ref.value] :: OwnerName(v) == Some(s.name)
  }

  /** A checksum stands for a bootstrap plan that was written into the secret of the inventory referred to. */
  predicate PlanWritten(writes: seq<BootWrite>, s: Selector) {
    s.checksum != "" ==> s.ref.Some? && BootWrite(s.name, s.ref.value) in writes
  }

  predicate Grounded(w: World, s: Selector) {
    RefersToClaimed(w.invs, s) && PlanWritten(w.bootWrites, s)
  }

  /** Some stored version of the selector refers to the inventory. */
  predicate ReferredBy(sels: Histories<Selector>, sel: Name, inv: Name) {
    sel in sels && exists s <- sels[sel] :: s.ref == Some(inv)
  }

  /** An adopted inventory was referred to by its owner. */
  predicate Answered(sels: Histories<Selector>, v: Inventory) {
    Adopted(v) ==> OwnerName(v).Some? && ReferredBy(sels, OwnerName(v).value, v.name)
  }

  predicate InvJobAnswered(w: World, j: InvJob) {
    && Answered(w.sels, j.mem) && j.inv in w.invs && j.base < |w.invs[j.inv]|
    && (Adopted(j.mem) ==> j.mem.owners == w.invs[j.inv][j.base].owners)
  }

  predicate InvsAnswered(w: World) {
    forall n <- w.invs, v <- w.invs[n] :: Answered(w.sels, v)
  }

  predicate SelsGrounded(w: World) {
    forall n <- w.sels, s <- w.sels[n] :: Grounded(w, s)
  }

  predicate SelJobsGrounded(w: World) {
    forall j <- w.selJobs :: Grounded(w, w.selJobs[j].mem)
  }

  predicate InvJobsAnswered(w: World) {
    forall j <- w.invJobs :: InvJobAnswered(w, w.invJobs[j])
  }

  predicate References(w: World) {
    InvsAnswered(w) && SelsGrounded(w) && SelJobsGrounded(w) && InvJobsAnswered(w)
  }

  // ---- Growing worlds keep references ----

  lemma GroundedGrows(w: World, w': World, s: Selector)
    requires WorldGrows(w, w') && Grounded(w, s)
    ensures Grounded(w', s)
  {
    if s.ref.Some? {
      var v :| v in w.invs[s.ref.value] && OwnerName(v) == Some(s.name);
      assert v in w'.invs[s.ref.value];
    }
  }

  lemma AnsweredGrows(w: World, w': World, v: Inventory)
    requires WorldGrows(w, w') && Answered(w.sels, v)
    ensures Answered(w'.sels, v)
  {
    if Adopted(v) {
      var owner := OwnerName(v).value;
      var s :| s in w.sels[owner] && s.ref == Some(v.name);
      assert s in w'.sels[owner];
    }
  }

  lemma InvJobGrows(w: World, w': World, j: InvJob)
    requires WorldGrows(w, w') && InvJobAnswered(w, j)
    ensures InvJobAnswered(w', j)
  {
    AnsweredGrows(w, w', j.mem);
    assert w.invs[j.inv] <= w'.invs[j.inv];
  }

  predicate NewInvsAnswered(w: World, w': World) {
    forall n <- w'.invs, v <- w'.invs[n] :: (n in w.invs && v in w.invs[n]) || Answered(w'.sels, v)
  }

  predicate NewSelsGrounded(w: World, w': World) {
    forall n <- w'.sels, s <- w'.sels[n] :: (n in w.sels && s in w.sels[n]) || Grounded(w', s)
  }

  predicate NewSelJobsGrounded(w: World, w': World) {
    forall j <- w'.selJobs ::
      (j in w.selJobs && w'.selJobs[j].mem == w.selJobs[j].mem) || Grounded(w', w'.selJobs[j].mem)
  }

  predicate NewInvJobsAnswered(w: World, w': World) {
    forall j <- w'.invJobs ::
      (j in w.invJobs && SameWork(w'.invJobs[j], w.invJobs[j])) || InvJobAnswered(w', w'.invJobs[j])
  }

  predicate SameWork(j: InvJob, k: InvJob) {
    j.inv == k.inv && j.base == k.base && j.mem == k.mem
  }

  lemma AssembleInvs(w: World, w': World)
    requires InvsAnswered(w) && WorldGrows(w, w') && NewInvsAnswered(w, w')
    ensures InvsAnswered(w')
  {
    forall n, v | n in w'.invs && v in w'.invs[n] ensures Answered(w'.sels, v) {
      if n in w.invs && v in w.invs[n] {
        AnsweredGrows(w, w', v);
      }
    }
  }

  lemma AssembleSels(w: World, w': World)
    requires SelsGrounded(w) && WorldGrows(w, w') && NewSelsGrounded(w, w')
    ensures SelsGrounded(w')
  {
    forall n, s | n in w'.sels && s in w'.sels[n] ensures Grounded(w', s) {
      if n in w.sels && s in w.sels[n] {
        GroundedGrows(w, w', s);
      }
    }
  }

  lemma AssembleSelJobs(w: World, w': World)
    requires SelJobsGrounded(w) && WorldGrows(w, w') && NewSelJobsGrounded(w, w')
    ensures SelJobsGrounded(w')
  {
    forall j | j in w'.selJobs ensures Grounded(w', w'.selJobs[j].mem) {
      if j in w.selJobs && w'.selJobs[j].mem == w.selJobs[j].mem {
        GroundedGrows(w, w', w.selJobs[j].mem);
      }
    }
  }

  lemma AssembleInvJobs(w: World, w': World)
    requires InvJobsAnswered(w) && WorldGrows(w, w') && NewInvJobsAnswered(w, w')
    ensures InvJobsAnswered(w')
  {
    forall j | j in w'.invJobs ensures InvJobAnswered(w', w'.invJobs[j]) {
      if j in w.invJobs && SameWork(w'.invJobs[j], w.invJobs[j]) {
        InvJobGrows(w, w', w.invJobs[j]);
      }
    }
  }

  /** Only what is new has to be looked at. */
  lemma Assemble(w: World, w': World)
    requires References(w) && WorldGrows(w, w')
    requires NewInvsAnswered(w, w') && NewSelsGrounded(w, w') && NewSelJobsGrounded(w, w') && NewInvJobsAnswered(w, w')
    ensures References(w')
  {
    AssembleInvs(w, w');
    AssembleSels(w, w');
    AssembleSelJobs(w, w');
    AssembleInvJobs(w, w');
  }

  // ---- The selector's phases ----

  /** A phase that keeps the checksum, and the reference unless it drops it, keeps a sound selector grounded. */
  lemma KeptGrounded(w: World, before: Selector, after: Selector)
    requires Grounded(w, before) && Grows(before, after) && Pipeline(w.invs, before)
    requires after.checksum == before.checksum && (after.ref == before.ref || after.ref.None?)
    ensures Grounded(w, after)
  {
  }

  lemma WriteWorldReferences(w: World, written: seq<BootWrite>)
    requires References(w)
    ensures References(w.(bootWrites := w.bootWrites + written))
  {
    Assemble(w, w.(bootWrites := w.bootWrites + written));
  }

  /** The world after a phase whose result is grounded already. */
  lemma HeldReferences(w: World, j: JobId, step: S.Step, next: SelStage)
    requires References(w) && j in w.selJobs && step != S.NilDeref && Grounded(w, step.sel)
    ensures References(AfterPhase(w, j, step, next))
  {
    PhaseGrows(w, j, step, next);
    Assemble(w, AfterPhase(w, j, step, next));
  }

  lemma UnclaimedAnswered(w: World, w1: World, n: Name, v: Inventory)
    requires n in w.invs && n in w1.invs && !Adopted(v)
    requires w1 == w.(invs := w.invs[n := w1.invs[n]])
    requires w1.invs[n] == w.invs[n] || w1.invs[n] == w.invs[n] + [v]
    ensures NewInvsAnswered(w, w1)
  {
  }

  /** An answered claim leaves a version that the claimant owns. */
  lemma ClaimGrounds(w: World, r: Read, sel: Name, fate: Fate)
    requires InvsOk(w) && Readable(w.invs, [r]) && S.Claimable(w.invs[r.inv][r.version])
    requires Lands(|w.invs[r.inv]|, r.version, r.inv !in w.gone, fate)
    ensures
      var item := w.invs[r.inv][r.version];
      var claimed := S.ClaimedBy(item, sel);
      && item.name == r.inv && !Adopted(claimed) && OwnerName(claimed) == Some(sel)
      && claimed in Patched(w.invs[r.inv], r.version, claimed, r.inv !in w.gone, fate)
  {
    assert r in [r];
    var item := w.invs[r.inv][r.version];
    assert HistoryOk(r.inv, w.invs[r.inv]) && item in w.invs[r.inv];
    assert OwnerName(item) != OwnerName(S.ClaimedBy(item, sel));
  }

  lemma FindReferences(w: World, j: JobId, listing: Option<seq<Read>>, fate: Fate, now: int)
    requires Inv(w) && References(w) && Enabled(w, FindAndAdopt(j, listing, fate, now))
    ensures References(DoFindAndAdopt(w, j, listing, fate, now))
  {
    var sel := w.selJobs[j].mem;
    assert SelJobOk(w, w.selJobs[j]);
    var listed := if listing.None? then None else Some(ItemsOf(w.invs, listing.value));
    var choice := S.ClaimChoice(sel, listed);
    if choice.None? {
      FindPhase(w.invs, sel, listed, false, now);
      SelectorDecisions.ClaimDecides(sel, listed, false, now);
      KeptGrounded(w, sel, S.FindAndAdopt(sel, listed, false, now).sel);
      HeldReferences(w, j, S.FindAndAdopt(sel, listed, false, now), Adopting);
    } else {
      var r := listing.value[choice.value];
      assert r in listing.value;
      ClaimReferences(w, j, r, listed, fate, now);
    }
  }

  lemma ClaimReferences(w: World, j: JobId, r: Read, listed: Option<seq<Inventory>>, fate: Fate, now: int)
    requires Inv(w) && References(w) && SelJobAt(w, j, Finding) && Readable(w.invs, [r]) && r.inv in w.invs
    requires
      var choice := S.ClaimChoice(w.selJobs[j].mem, listed);
      choice.Some? && listed.value[choice.value] == w.invs[r.inv][r.version]
    ensures
      var sel, history := w.selJobs[j].mem, w.invs[r.inv];
      var accepted := Lands(|history|, r.version, r.inv !in w.gone, fate) && fate == Delivered;
      var claimed := S.ClaimedBy(history[r.version], sel.name);
      var w1 := w.(invs := w.invs[r.inv := Patched(history, r.version, claimed, r.inv !in w.gone, fate)]);
      References(AfterPhase(w1, j, S.FindAndAdopt(sel, listed, accepted, now), Adopting))
  {
    assert r in [r];
    var sel, history := w.selJobs[j].mem, w.invs[r.inv];
    assert SelJobOk(w, w.selJobs[j]);
    var claimed := S.ClaimedBy(history[r.version], sel.name);
    var w1 := w.(invs := w.invs[r.inv := Patched(history, r.version, claimed, r.inv !in w.gone, fate)]);
    var accepted := Lands(|history|, r.version, r.inv !in w.gone, fate) && fate == Delivered;
    var step := S.FindAndAdopt(sel, listed, accepted, now);
    assert HistoryOk(r.inv, history) && history[r.version] in history;
    SelectorDecisions.ClaimDecides(sel, listed, accepted, now);
    if accepted {
      ClaimGrounds(w, r, sel.name, fate);
    }
    UnclaimedAnswered(w, w1, r.inv, claimed);
    PatchExtends(w.invs, r.inv, r.version, claimed, r.inv !in w.gone, fate);
    Assemble(w, w1);
    assert Grounded(w1, step.sel);
    HeldReferences(w1, j, step, Adopting);
  }

  lemma AdoptionReferences(w: World, j: JobId, read: Option<nat>, now: int)
    requires Inv(w) && References(w) && Enabled(w, UpdateAdoption(j, read, now))
    ensures References(Do(w, UpdateAdoption(j, read, now)))
  {
    var sel := w.selJobs[j].mem;
    assert SelJobOk(w, w.selJobs[j]);
    var got := Get(w.invs, sel.ref, read);
    if got.Some? && Confirmed(got.value, sel.name) {
      StaleReadConfirms(w, sel.ref, read, sel.name);
    }
    AdoptionPhase(w.invs, sel, got, now);
    var step := S.UpdateAdoption(sel, got, now);
    AdoptionKeepsGround(sel, got, now);
    KeptGrounded(w, sel, step.sel);
    HeldReferences(w, j, step, Bootstrapping);
  }

  lemma AdoptionKeepsGround(sel: Selector, got: Option<Inventory>, now: int)
    ensures
      var step := S.UpdateAdoption(sel, got, now);
      step != S.NilDeref && step.sel.checksum == sel.checksum && (step.sel.ref == sel.ref || step.sel.ref.None?)
  {
  }

  /** An answered write went into the secret of the inventory the selector refers to. */
  lemma WriteReferences(w: World, sel: Selector, read: Option<nat>, plan: Option<string>, found: bool)
    requires InvsOk(w) && Pipeline(w.invs, sel)
    ensures
      var target := S.BootstrapTarget(sel, Get(w.invs, sel.ref, read), plan, found);
      target.Some? ==> sel.ref.Some? && target.value == sel.ref.value
  {
    var got := Get(w.invs, sel.ref, read);
    if S.BootstrapTarget(sel, got, plan, found).Some? {
      assert HistoryOk(sel.ref.value, w.invs[sel.ref.value]);
      assert got.value in w.invs[sel.ref.value];
    }
  }

  lemma WrittenGrounds(w: World, sel: Selector, got: Option<Inventory>, plan: Option<string>, found: bool, fate: Fate,
                       now: int)
    requires Grounded(w, sel) && Pipeline(w.invs, sel) && plan != Some("")
    requires
      var target := S.BootstrapTarget(sel, got, plan, found);
      target.Some? ==> sel.ref.Some? && target.value == sel.ref.value
    ensures
      var target := S.BootstrapTarget(sel, got, plan, found);
      var written := if target.None? || fate == Lost then [] else [BootWrite(sel.name, target.value)];
      var step := S.UpdatePlanSecret(sel, got, plan, found, fate == Delivered, now);
      step != S.NilDeref && Grounded(w.(bootWrites := w.bootWrites + written), step.sel)
  {
    SelectorDecisions.WriteDecides(sel, got, plan, found);
    SelectorDecisions.BootstrapDecides(sel, got, plan, found, fate == Delivered, now);
  }

  lemma BootstrapReferences(w: World, j: JobId, read: Option<nat>, plan: Option<string>, found: bool, fate: Fate,
                            now: int)
    requires Inv(w) && References(w) && Enabled(w, UpdatePlanSecret(j, read, plan, found, fate, now))
    ensures References(DoUpdatePlanSecret(w, j, Get(w.invs, w.selJobs[j].mem.ref, read), plan, found, fate, now))
  {
    var sel := w.selJobs[j].mem;
    assert SelJobOk(w, w.selJobs[j]);
    WriteReferences(w, sel, read, plan, found);
    WriteStepReferences(w, j, Get(w.invs, sel.ref, read), plan, found, fate, now);
  }

  lemma WriteStepReferences(w: World, j: JobId, got: Option<Inventory>, plan: Option<string>, found: bool, fate: Fate,
                            now: int)
    requires References(w) && SelJobAt(w, j, Bootstrapping) && Pipeline(w.invs, w.selJobs[j].mem) && plan != Some("")
    requires
      var sel := w.selJobs[j].mem;
      var target := S.BootstrapTarget(sel, got, plan, found);
      target.Some? ==> sel.ref.Some? && target.value == sel.ref.value
    ensures References(DoUpdatePlanSecret(w, j, got, plan, found, fate, now))
  {
    var sel := w.selJobs[j].mem;
    var target := S.BootstrapTarget(sel, got, plan, found);
    var written := if target.None? || fate == Lost then [] else [BootWrite(sel.name, target.value)];
    var w1 := w.(bootWrites := w.bootWrites + written);
    var step := S.UpdatePlanSecret(sel, got, plan, found, fate == Delivered, now);
    WrittenGrounds(w, sel, got, plan, found, fate, now);
    WriteWorldReferences(w, written);
    HeldReferences(w1, j, step, Addressing);
  }

  lemma AddressReferences(w: World, j: JobId, read: Option<nat>, now: int)
    requires Inv(w) && References(w) && Enabled(w, SetAddresses(j, read, now))
    ensures References(Do(w, SetAddresses(j, read, now)))
  {
    var sel := w.selJobs[j].mem;
    assert SelJobOk(w, w.selJobs[j]);
    var step := S.SetAddresses(sel, Get(w.invs, sel.ref, read), now);
    SelectorDecisions.ReadyDecides(sel, Get(w.invs, sel.ref, read), now);
    HeldReferences(w, j, step, Storing);
  }

  // ---- The inventory's phases ----

  lemma ReconcileReferences(w: World, j: JobId, selectorRead: Option<nat>, answers: I.Answers)
    requires Inv(w) && References(w) && Enabled(w, ReconcileInventory(j, selectorRead, answers))
    ensures References(DoReconcileInventory(w, j, selectorRead, answers))
  {
    var job := w.invJobs[j];
    assert InvJobOk(w, job) && InvJobAnswered(w, job);
    assert HistoryOk(job.inv, w.invs[job.inv]) && job.mem in w.invs[job.inv];
    var a := answers.(selector := Get(w.sels, OwnerName(job.mem), selectorRead));
    ReconcileAnswered(w, job.mem, a, selectorRead);
    InvJobReferences(w, j, job.(mem := I.Reconcile(job.mem, a).inv, stage := PatchingMeta));
  }

  lemma InvJobReferences(w: World, j: JobId, job: InvJob)
    requires References(w) && InvJobAnswered(w, job)
    ensures References(w.(invJobs := w.invJobs[j := job]))
  {
    Assemble(w, w.(invJobs := w.invJobs[j := job]));
  }

  lemma SelJobReferences(w: World, j: JobId, job: SelJob)
    requires References(w) && Grounded(w, job.mem)
    ensures References(w.(selJobs := w.selJobs[j := job]))
  {
    Assemble(w, w.(selJobs := w.selJobs[j := job]));
  }

  lemma ReconcileAnswered(w: World, base: Inventory, a: I.Answers, selectorRead: Option<nat>)
    requires VersionOk(base) && Answered(w.sels, base) && a.selector == Get(w.sels, OwnerName(base), selectorRead)
    ensures
      var step := I.Reconcile(base, a);
      && step != I.NilDeref && Answered(w.sels, step.inv)
      && (Adopted(step.inv) ==> step.inv.owners == base.owners)
  {
    ReconcileKeepsPlan(base, a);
    if base.deleting {
      ResetKeepsOwner(base, a);
    } else {
      LiveStep(base, a);
    }
    if Adopted(I.Reconcile(base, a).inv) && !Adopted(base) {
      InventoryDecisions.AdoptsOnlyReferred(base, a);
      assert a.selector.value in w.sels[OwnerName(base).value];
    }
  }

  /** `w'` adds to `w` at most the version `stored` of one inventory, and no new work. */
  predicate PatchedWorld(w: World, w': World, n: Name, stored: Inventory) {
    && w'.sels == w.sels && w'.bootWrites == w.bootWrites && w'.selJobs == w.selJobs
    && n in w.invs && n in w'.invs && w'.invs == w.invs[n := w'.invs[n]]
    && (w'.invs[n] == w.invs[n] || w'.invs[n] == w.invs[n] + [stored])
    && (forall j <- w'.invJobs :: j in w.invJobs && SameWork(w'.invJobs[j], w.invJobs[j]))
  }

  /** A locked patch with an answered object keeps all references. */
  lemma PatchReferences(w: World, w': World, n: Name, stored: Inventory)
    requires References(w) && WorldGrows(w, w') && PatchedWorld(w, w', n, stored) && Answered(w.sels, stored)
    ensures References(w')
  {
    Assemble(w, w');
  }

  lemma MetaPatches(w: World, j: JobId, fate: Fate)
    requires Enabled(w, PatchInventoryMeta(j, fate))
    ensures
      var job := w.invJobs[j];
      PatchedWorld(w, DoPatchMeta(w, j, fate), job.inv, WithMeta(w.invs[job.inv][job.base], job.mem))
  {
  }

  lemma MetaReferences(w: World, j: JobId, fate: Fate)
    requires Inv(w) && References(w) && Enabled(w, PatchInventoryMeta(j, fate))
    ensures References(DoPatchMeta(w, j, fate))
  {
    var job := w.invJobs[j];
    assert InvJobOk(w, job);
    var base := w.invs[job.inv][job.base];
    assert base in w.invs[job.inv] && Answered(w.sels, base);
    assert Answered(w.sels, WithMeta(base, job.mem));
    PatchingGrows(w, PatchInventoryMeta(j, fate));
    MetaPatches(w, j, fate);
    PatchReferences(w, DoPatchMeta(w, j, fate), job.inv, WithMeta(base, job.mem));
  }

  /** The version a status patch is made on, or the one its metadata patch has added. */
  function StatusBase(w: World, j: JobId, rebased: bool): (base: nat)
    requires InvJobIn(w, j) && w.invJobs[j].stage.PatchingStatus?
    ensures base < |w.invs[w.invJobs[j].inv]|
  {
    var job := w.invJobs[j];
    var metaAt := job.stage.metaAt;
    if rebased && metaAt.Some? && metaAt.value < |w.invs[job.inv]| then metaAt.value else job.base
  }

  lemma StatusPatches(w: World, j: JobId, fate: Fate, rebased: bool)
    requires Enabled(w, PatchInventoryStatus(j, fate, rebased))
    ensures
      var job := w.invJobs[j];
      PatchedWorld(w, DoPatchStatus(w, j, fate, rebased), job.inv,
                   WithStatus(w.invs[job.inv][StatusBase(w, j, rebased)], job.mem))
  {
  }

  lemma StatusAnswered(w: World, j: JobId, rebased: bool)
    requires InvsOk(w) && InvJobIn(w, j) && w.invJobs[j].stage.PatchingStatus?
    requires InvJobOk(w, w.invJobs[j]) && InvJobAnswered(w, w.invJobs[j])
    ensures
      var job := w.invJobs[j];
      Answered(w.sels, WithStatus(w.invs[job.inv][StatusBase(w, j, rebased)], job.mem))
  {
    var job := w.invJobs[j];
    var history := w.invs[job.inv];
    assert HistoryOk(job.inv, history) && history[StatusBase(w, j, rebased)] in history && history[job.base] in history;
  }

  lemma StatusReferences(w: World, j: JobId, fate: Fate, rebased: bool)
    requires Inv(w) && References(w) && Enabled(w, PatchInventoryStatus(j, fate, rebased))
    ensures References(DoPatchStatus(w, j, fate, rebased))
  {
    var job := w.invJobs[j];
    assert InvJobOk(w, job) && InvJobAnswered(w, job);
    StatusAnswered(w, j, rebased);
    PatchingGrows(w, PatchInventoryStatus(j, fate, rebased));
    StatusPatches(w, j, fate, rebased);
    PatchReferences(w, DoPatchStatus(w, j, fate, rebased), job.inv,
                    WithStatus(w.invs[job.inv][StatusBase(w, j, rebased)], job.mem));
  }

  /** `w'` adds to `w` at most the version `stored` of one selector, and no new work. */
  predicate StoredWorld(w: World, w': World, n: Name, stored: Selector) {
    && w'.invs == w.invs && w'.bootWrites == w.bootWrites && w'.invJobs == w.invJobs
    && n in w.sels && n in w'.sels && w'.sels == w.sels[n := w'.sels[n]]
    && (w'.sels[n] == w.sels[n] || w'.sels[n] == w.sels[n] + [stored])
    && (forall j <- w'.selJobs :: j in w.selJobs && w'.selJobs[j] == w.selJobs[j])
  }

  lemma StoreStores(w: World, j: JobId, fate: Fate)
    requires Enabled(w, StoreSelector(j, fate))
    ensures StoredWorld(w, DoStoreSelector(w, j, fate), w.selJobs[j].sel, w.selJobs[j].mem)
  {
  }

  lemma StoredReferences(w: World, w': World, n: Name, stored: Selector)
    requires References(w) && WorldGrows(w, w') && StoredWorld(w, w', n, stored) && Grounded(w, stored)
    ensures References(w')
  {
    GroundedGrows(w, w', stored);
    Assemble(w, w');
  }

  lemma StoreReferences(w: World, j: JobId, fate: Fate)
    requires References(w) && Enabled(w, StoreSelector(j, fate))
    ensures References(DoStoreSelector(w, j, fate))
  {
    PatchingGrows(w, StoreSelector(j, fate));
    StoreStores(w, j, fate);
    StoredReferences(w, DoStoreSelector(w, j, fate), w.selJobs[j].sel, w.selJobs[j].mem);
  }

  // ---- Every action ----

  lemma InventoryAdded(w: World, n: Name, v: Inventory)
    requires References(w) && Answered(w.sels, v)
    ensures References(w.(invs := w.invs[n := (if n in w.invs then w.invs[n] else []) + [v]]))
  {
    Assemble(w, w.(invs := w.invs[n := (if n in w.invs then w.invs[n] else []) + [v]]));
  }

  lemma SelectorAdded(w: World, n: Name, s: Selector)
    requires References(w) && Grounded(w, s)
    ensures References(w.(sels := w.sels[n := (if n in w.sels then w.sels[n] else []) + [s]]))
  {
    Assemble(w, w.(sels := w.sels[n := (if n in w.sels then w.sels[n] else []) + [s]]));
  }

  lemma OutsideReferences(w: World, a: Action)
    requires References(w) && Enabled(w, a)
    requires a.CreateInventory? || a.EditInventory? || a.CreateSelector? || a.EditSelector?
    ensures References(Do(w, a))
  {
    match a
    case CreateInventory(v) =>
      InventoryAdded(w, v.name, v);
      assert [] + [v] == [v];
    case EditInventory(e) =>
      assert Last(w.invs[e.name]) in w.invs[e.name] && Answered(w.sels, Last(w.invs[e.name]));
      assert Answered(w.sels, e);
      InventoryAdded(w, e.name, e);
    case CreateSelector(s) =>
      SelectorAdded(w, s.name, s);
      assert [] + [s] == [s];
    case EditSelector(e) =>
      assert Last(w.sels[e.name]) in w.sels[e.name] && Grounded(w, Last(w.sels[e.name]));
      assert Grounded(w, e);
      SelectorAdded(w, e.name, e);
  }

  lemma BeginReferences(w: World, a: Action)
    requires References(w) && Enabled(w, a) && (a.BeginSelector? || a.BeginInventory?)
    ensures References(Do(w, a))
  {
    match a
    case BeginSelector(j, s, k) =>
      var read := w.sels[s][k];
      assert read in w.sels[s] && Grounded(w, read);
      SelJobReferences(w, j, SelJob(s, k, read, if read.deleting then Storing else Finding));
    case BeginInventory(j, n, k) =>
      var read := w.invs[n][k];
      assert read in w.invs[n] && Answered(w.sels, read);
      InvJobReferences(w, j, InvJob(n, k, read, Computing));
  }

  /** Removing objects or abandoning work adds nothing. */
  lemma FewerReferences(w: World, w': World)
    requires References(w) && w'.invs == w.invs && w'.sels == w.sels && w'.bootWrites == w.bootWrites
    requires forall j <- w'.selJobs :: j in w.selJobs && w'.selJobs[j] == w.selJobs[j]
    requires forall j <- w'.invJobs :: j in w.invJobs && w'.invJobs[j] == w.invJobs[j]
    ensures References(w')
  {
    Assemble(w, w');
  }

  lemma SelectorReferences(w: World, a: Action)
    requires Inv(w) && References(w) && Enabled(w, a)
    requires a.FindAndAdopt? || a.UpdateAdoption? || a.UpdatePlanSecret? || a.SetAddresses? || a.StoreSelector?
    ensures References(Do(w, a))
  {
    match a
    case FindAndAdopt(j, listing, fate, now) => FindReferences(w, j, listing, fate, now);
    case UpdateAdoption(j, read, now) => AdoptionReferences(w, j, read, now);
    case UpdatePlanSecret(j, read, plan, found, fate, now) => BootstrapReferences(w, j, read, plan, found, fate, now);
    case SetAddresses(j, read, now) => AddressReferences(w, j, read, now);
    case StoreSelector(j, fate) => StoreReferences(w, j, fate);
  }

  lemma PatchingReferences(w: World, a: Action)
    requires Inv(w) && References(w) && Enabled(w, a) && (a.PatchInventoryMeta? || a.PatchInventoryStatus?)
    ensures References(Do(w, a))
  {
    match a
    case PatchInventoryMeta(j, fate) => MetaReferences(w, j, fate);
    case PatchInventoryStatus(j, fate, rebased) => StatusReferences(w, j, fate, rebased);
  }

  lemma ActionReferences(w: World, a: Action)
    requires Inv(w) && References(w) && Enabled(w, a)
    ensures References(Do(w, a))
  {
    if a.CreateInventory? || a.EditInventory? || a.CreateSelector? || a.EditSelector? {
      OutsideReferences(w, a);
    } else if a.BeginSelector? || a.BeginInventory? {
      BeginReferences(w, a);
    } else if a.ReconcileInventory? {
      ReconcileReferences(w, a.job, a.selectorRead, a.answers);
    } else if a.PatchInventoryMeta? || a.PatchInventoryStatus? {
      PatchingReferences(w, a);
    } else if a.AbandonSelectorJob? || a.AbandonInventoryJob? || a.RemoveInventory? || a.RemoveSelector? {
      FewerReferences(w, Do(w, a));
    } else {
      SelectorReferences(w, a);
    }
  }

  lemma {:induction false} RunReferences(ws: seq<World>, actions: seq<Action>, i: nat)
    requires Run(ws, actions) && i < |ws|
    ensures References(ws[i])
  {
    if i > 0 {
      RunReferences(ws, actions, i - 1);
      Reachable(ws, actions, i - 1);
      assert StepAt(ws, actions, i - 1);
      ActionReferences(ws[i - 1], actions[i - 1]);
    }
  }

  // ---- Main results ----

  /** An inventory is confirmed only for a selector that has referred to it. */
  lemma ConfirmedWasReferred(ws: seq<World>, actions: seq<Action>, i: nat, n: Name, k: nat, sel: Name)
    requires Run(ws, actions) && i < |ws|
    requires n in ws[i].invs && k < |ws[i].invs[n]| && Confirmed(ws[i].invs[n][k], sel)
    ensures sel in ws[i].sels && exists s <- ws[i].sels[sel] :: s.ref == Some(n)
  {
    RunReferences(ws, actions, i);
    Reachable(ws, actions, i);
    var v := ws[i].invs[n][k];
    assert HistoryOk(n, ws[i].invs[n]) && v in ws[i].invs[n];
    assert Answered(ws[i].sels, v);
  }

  /** A selector refers only to an inventory that has been its own. */
  lemma ReferredWasClaimed(ws: seq<World>, actions: seq<Action>, i: nat, n: Name, k: nat)
    requires Run(ws, actions) && i < |ws|
    requires n in ws[i].sels && k < |ws[i].sels[n]| && ws[i].sels[n][k].ref.Some?
    ensures
      var ref := ws[i].sels[n][k].ref.value;
      ref in ws[i].invs && exists v <- ws[i].invs[ref] :: OwnerName(v) == Some(n)
  {
    RunReferences(ws, actions, i);
    Reachable(ws, actions, i);
    assert SelHistoryOk(ws[i].invs, n, ws[i].sels[n]);
    assert ws[i].sels[n][k] in ws[i].sels[n];
    assert Grounded(ws[i], ws[i].sels[n][k]);
  }

  /**
   * A stored selector with a checksum, and so every ready one, has had its bootstrap plan written into the
   * plan secret of the inventory it refers to.
   */
  lemma ReadyWasBootstrapped(ws: seq<World>, actions: seq<Action>, i: nat, n: Name, k: nat)
    requires Run(ws, actions) && i < |ws|
    requires n in ws[i].sels && k < |ws[i].sels[n]|
    requires ws[i].sels[n][k].checksum != "" || ws[i].sels[n][k].ready
    ensures
      var s := ws[i].sels[n][k];
      s.ref.Some? && BootWrite(n, s.ref.value) in ws[i].bootWrites
  {
    RunReferences(ws, actions, i);
    Reachable(ws, actions, i);
    assert SelHistoryOk(ws[i].invs, n, ws[i].sels[n]);
    assert ws[i].sels[n][k] in ws[i].sels[n];
    assert Grounded(ws[i], ws[i].sels[n][k]);
  }

  /** The same holds of every selector held in memory by a reconcile in flight. */
  lemma HeldWasBootstrapped(ws: seq<World>, actions: seq<Action>, i: nat, j: JobId)
    requires Run(ws, actions) && i < |ws| && j in ws[i].selJobs
    requires ws[i].selJobs[j].mem.checksum != "" || ws[i].selJobs[j].mem.ready
    ensures
      var s := ws[i].selJobs[j].mem;
      s.ref.Some? && BootWrite(s.name, s.ref.value) in ws[i].bootWrites
  {
    RunReferences(ws, actions, i);
    Reachable(ws, actions, i);
    assert SelJobOk(ws[i], ws[i].selJobs[j]);
  }
}
