/** The promises of the adoption protocol, over every run. */
module AdoptionTheorems {
  import opened Wrappers
  import opened Conditions
  import opened Objects
  import opened ApiServer
  import opened AdoptionRuns
  import opened AdoptionSafety
  import S = SelectorReconcile
  import I = InventoryReconcile

  // ---- Histories and the write log only grow ----

  predicate Extends<T(==)>(before: Histories<T>, after: Histories<T>) {
    forall n <- before :: n in after && before[n] <= after[n]
  }

  predicate WorldGrows(w: World, w': World) {
    Extends(w.invs, w'.invs) && Extends(w.sels, w'.sels) && w.bootWrites <= w'.bootWrites
  }

  lemma PatchExtends<T>(objects: Histories<T>, n: Name, base: nat, obj: T, exists_: bool, fate: Fate)
    requires n in objects && base < |objects[n]|
    ensures Extends(objects, objects[n := Patched(objects[n], base, obj, exists_, fate)])
  {
  }

  lemma PhaseGrows(w: World, j: JobId, step: S.Step, next: SelStage)
    requires j in w.selJobs
    ensures WorldGrows(w, AfterPhase(w, j, step, next))
  {
  }

  lemma FindGrows(w: World, j: JobId, listing: Option<seq<Read>>, fate: Fate, now: int)
    requires Enabled(w, FindAndAdopt(j, listing, fate, now))
    ensures WorldGrows(w, DoFindAndAdopt(w, j, listing, fate, now))
  {
    var sel := w.selJobs[j].mem;
    var listed := if listing.None? then None else Some(ItemsOf(w.invs, listing.value));
    var choice := S.ClaimChoice(sel, listed);
    if choice.Some? {
      var r := listing.value[choice.value];
      assert r in listing.value;
      PatchExtends(w.invs, r.inv, r.version, S.ClaimedBy(listed.value[choice.value], sel.name), r.inv !in w.gone, fate);
    }
  }

  lemma PatchingGrows(w: World, a: Action)
    requires Enabled(w, a) && (a.StoreSelector? || a.PatchInventoryMeta? || a.PatchInventoryStatus?)
    ensures WorldGrows(w, Do(w, a))
  {
  }

  lemma OutsideGrows(w: World, a: Action)
    requires Enabled(w, a) && (a.CreateInventory? || a.EditInventory? || a.CreateSelector? || a.EditSelector?)
    ensures WorldGrows(w, Do(w, a))
  {
  }

  lemma WriteGrows(w: World, j: JobId, got: Option<Inventory>, plan: Option<string>, found: bool, fate: Fate, now: int)
    requires SelJobAt(w, j, Bootstrapping)
    ensures WorldGrows(w, DoUpdatePlanSecret(w, j, got, plan, found, fate, now))
  {
    var sel := w.selJobs[j].mem;
    var target := S.BootstrapTarget(sel, got, plan, found);
    var written := if target.None? || fate == Lost then [] else [BootWrite(sel.name, target.value)];
    var w1 := w.(bootWrites := w.bootWrites + written);
    PhaseGrows(w1, j, S.UpdatePlanSecret(sel, got, plan, found, fate == Delivered, now), Addressing);
  }

  lemma PhaseActionGrows(w: World, a: Action)
    requires Enabled(w, a) && (a.UpdateAdoption? || a.UpdatePlanSecret? || a.SetAddresses?)
    ensures WorldGrows(w, Do(w, a))
  {
    var sel := w.selJobs[a.job].mem;
    match a
    case UpdateAdoption(j, read, now) =>
      PhaseGrows(w, j, S.UpdateAdoption(sel, Get(w.invs, sel.ref, read), now), Bootstrapping);
    case UpdatePlanSecret(j, read, plan, found, fate, now) =>
      WriteGrows(w, j, Get(w.invs, sel.ref, read), plan, found, fate, now);
    case SetAddresses(j, read, now) =>
      PhaseGrows(w, j, S.SetAddresses(sel, Get(w.invs, sel.ref, read), now), Storing);
  }

  lemma JobActionGrows(w: World, a: Action)
    requires Enabled(w, a)
    requires a.BeginSelector? || a.BeginInventory? || a.ReconcileInventory? || a.AbandonSelectorJob?
              || a.AbandonInventoryJob?
    ensures WorldGrows(w, Do(w, a))
  {
  }

  lemma ActionGrows(w: World, a: Action)
    requires Enabled(w, a)
    ensures WorldGrows(w, Do(w, a))
  {
    if a.FindAndAdopt? {
      FindGrows(w, a.job, a.listing, a.fate, a.now);
    } else if a.StoreSelector? || a.PatchInventoryMeta? || a.PatchInventoryStatus? {
      PatchingGrows(w, a);
    } else if a.CreateInventory? || a.EditInventory? || a.CreateSelector? || a.EditSelector? {
      OutsideGrows(w, a);
    } else if a.UpdateAdoption? || a.UpdatePlanSecret? || a.SetAddresses? {
      PhaseActionGrows(w, a);
    } else if !a.RemoveInventory? && !a.RemoveSelector? {
      JobActionGrows(w, a);
    }
  }

  lemma Transitive(w: World, w1: World, w2: World)
    requires WorldGrows(w, w1) && WorldGrows(w1, w2)
    ensures WorldGrows(w, w2)
  {
  }

  lemma StepGrows(ws: seq<World>, actions: seq<Action>, i: nat)
    requires Run(ws, actions) && i < |actions|
    ensures WorldGrows(ws[i], ws[i + 1])
  {
    assert StepAt(ws, actions, i);
    ActionGrows(ws[i], actions[i]);
  }

  lemma {:induction false} RunGrows(ws: seq<World>, actions: seq<Action>, i: nat, j: nat)
    requires Run(ws, actions) && i <= j < |ws|
    ensures WorldGrows(ws[i], ws[j])
  {
    if i < j {
      RunGrows(ws, actions, i, j - 1);
      StepGrows(ws, actions, j - 1);
      Transitive(ws[i], ws[j - 1], ws[j]);
    }
  }

  // ---- Main results ----

  /**
   * Exclusive adoption: a stored selector version with InventoryReady=True refers to an
   * inventory that the selector owns now and whose AdoptionReady is now True.
   */
  lemma ExclusiveAdoption(ws: seq<World>, actions: seq<Action>, i: nat, n: Name, k: nat)
    requires Run(ws, actions) && i < |ws|
    requires n in ws[i].sels && k < |ws[i].sels[n]| && IsTrue(ws[i].sels[n][k].conds, InventoryReady)
    ensures
      var ref := ws[i].sels[n][k].ref;
      && ref.Some? && ref.value in ws[i].invs && ws[i].invs[ref.value] != []
      && OwnerName(Last(ws[i].invs[ref.value])) == Some(n)
      && IsTrue(Last(ws[i].invs[ref.value]).conds, AdoptionReady)
  {
    Reachable(ws, actions, i);
    assert SelHistoryOk(ws[i].invs, n, ws[i].sels[n]);
    assert ws[i].sels[n][k] in ws[i].sels[n];
  }

  /** No two selectors are ever confirmed on one inventory. */
  lemma NoSharedInventory(ws: seq<World>, actions: seq<Action>, i: nat, n: Name, m: Name, k: nat, l: nat)
    requires Run(ws, actions) && i < |ws| && n != m
    requires n in ws[i].sels && k < |ws[i].sels[n]| && IsTrue(ws[i].sels[n][k].conds, InventoryReady)
    requires m in ws[i].sels && l < |ws[i].sels[m]| && IsTrue(ws[i].sels[m][l].conds, InventoryReady)
    ensures ws[i].sels[n][k].ref != ws[i].sels[m][l].ref
  {
    ExclusiveAdoption(ws, actions, i, n, k);
    ExclusiveAdoption(ws, actions, i, m, l);
  }

  /** Confirmed ownership is permanent: every version from a confirmed one on is confirmed for the same selector. */
  lemma ConfirmedForever(ws: seq<World>, actions: seq<Action>, i: nat, j: nat, n: Name, sel: Name, k: nat, l: nat)
    requires Run(ws, actions) && i <= j < |ws|
    requires n in ws[i].invs && k < |ws[i].invs[n]| && Confirmed(ws[i].invs[n][k], sel)
    ensures n in ws[j].invs && |ws[i].invs[n]| <= |ws[j].invs[n]|
    ensures k <= l < |ws[j].invs[n]| ==> Confirmed(ws[j].invs[n][l], sel)
  {
    RunGrows(ws, actions, i, j);
    Reachable(ws, actions, j);
    assert ws[i].invs[n] <= ws[j].invs[n];
    var h := ws[j].invs[n];
    assert HistoryOk(n, h) && h[k] == ws[i].invs[n][k];
    if k <= l < |h| {
      assert h[k] in h && Keeps(h[k], h[l]);
    }
  }

  /** `after` adds to `before` one version, a claim by `sel` on a live and unowned newest version. */
  predicate FreeClaim(before: seq<Inventory>, after: seq<Inventory>, sel: Name) {
    && before != [] && !Last(before).deleting && OwnerName(Last(before)).None?
    && after == before + [Last(before).(owners := [OwnerRef(SelectorKind, sel)])]
  }

  lemma PatchAdds<T>(objects: Histories<T>, n: Name, m: Name, base: nat, obj: T, exists_: bool, fate: Fate)
    requires m in objects && base < |objects[m]| && n in objects
    requires objects[m := Patched(objects[m], base, obj, exists_, fate)][n] != objects[n]
    ensures n == m && exists_ && base == |objects[n]| - 1
    ensures objects[m := Patched(objects[m], base, obj, exists_, fate)][n] == objects[n] + [obj]
  {
  }

  lemma ClaimTakesFree(w: World, j: JobId, listing: Option<seq<Read>>, fate: Fate, now: int, n: Name)
    requires Enabled(w, FindAndAdopt(j, listing, fate, now))
    requires n in w.invs && DoFindAndAdopt(w, j, listing, fate, now).invs[n] != w.invs[n]
    ensures FreeClaim(w.invs[n], DoFindAndAdopt(w, j, listing, fate, now).invs[n], w.selJobs[j].mem.name)
    ensures n !in w.gone
  {
    var sel := w.selJobs[j].mem;
    var listed := if listing.None? then None else Some(ItemsOf(w.invs, listing.value));
    var choice := S.ClaimChoice(sel, listed);
    if choice.Some? {
      var r := listing.value[choice.value];
      var item := listed.value[choice.value];
      assert r in listing.value && item == w.invs[r.inv][r.version];
      assert S.Claimable(item);
      PatchAdds(w.invs, n, r.inv, r.version, S.ClaimedBy(item, sel.name), r.inv !in w.gone, fate);
    }
  }

  /**
   * A claim succeeds only on an inventory whose newest version is neither marked for
   * deletion nor owned, and makes the claiming selector its owner.
   */
  lemma ClaimsOnlyFree(ws: seq<World>, actions: seq<Action>, i: nat, n: Name)
    requires Run(ws, actions) && i < |actions| && actions[i].FindAndAdopt?
    requires n in ws[i].invs && n in ws[i + 1].invs && ws[i + 1].invs[n] != ws[i].invs[n]
    ensures n !in ws[i].gone && actions[i].job in ws[i].selJobs
    ensures FreeClaim(ws[i].invs[n], ws[i + 1].invs[n], ws[i].selJobs[actions[i].job].sel)
  {
    Reachable(ws, actions, i);
    assert StepAt(ws, actions, i);
    var a := actions[i];
    assert SelJobOk(ws[i], ws[i].selJobs[a.job]);
    ClaimTakesFree(ws[i], a.job, a.listing, a.fate, a.now, n);
  }

  /**
   * Single bootstrap writer: all bootstrap writes ever made into one inventory's plan secret
   * come from one selector, and from the write on that selector is the inventory's owner.
   */
  lemma SingleBootstrapWriter(ws: seq<World>, actions: seq<Action>, i: nat, j: nat, b: BootWrite, c: BootWrite)
    requires Run(ws, actions) && i <= j < |ws|
    requires b in ws[i].bootWrites && c in ws[j].bootWrites && b.secret == c.secret
    ensures b.sel == c.sel
    ensures b.secret in ws[j].invs && ws[j].invs[b.secret] != []
    ensures Confirmed(Last(ws[j].invs[b.secret]), b.sel)
  {
    RunGrows(ws, actions, i, j);
    Reachable(ws, actions, j);
    assert b in ws[j].bootWrites;
    assert ConfirmedNow(ws[j].invs, b.secret, b.sel) && ConfirmedNow(ws[j].invs, c.secret, c.sel);
  }

  /**
   * Selector pipeline: ready needs a checksum, which needs InventoryReady=True, which needs a
   * reference; and no later version undoes any of them.
   */
  lemma PipelineForever(ws: seq<World>, actions: seq<Action>, i: nat, j: nat, n: Name, k: nat, l: nat)
    requires Run(ws, actions) && i <= j < |ws|
    requires n in ws[i].sels && k < |ws[i].sels[n]|
    requires n in ws[j].sels ==> k <= l < |ws[j].sels[n]|
    ensures n in ws[j].sels
    ensures
      var s, t := ws[i].sels[n][k], ws[j].sels[n][l];
      && (s.ready ==> s.checksum != "" && t.ready)
      && (s.checksum != "" ==> IsTrue(s.conds, InventoryReady) && t.checksum == s.checksum)
      && (IsTrue(s.conds, InventoryReady) ==> s.ref.Some? && IsTrue(t.conds, InventoryReady) && t.ref == s.ref)
  {
    RunGrows(ws, actions, i, j);
    Reachable(ws, actions, j);
    assert ws[i].sels[n] <= ws[j].sels[n];
    var h := ws[j].sels[n];
    assert SelHistoryOk(ws[j].invs, n, h) && h[k] == ws[i].sels[n][k];
    assert h[k] in h && Grows(h[k], h[l]);
  }

  /**
   * The plan status is never nil where it is dereferenced: in every run, a live version that
   * skips creating the plan secret has a plan, and no reconcile of any readable version,
   * whatever it learns, dereferences a nil one; the operator never crashes on a nil reference.
   */
  lemma PlanNeverNil(ws: seq<World>, actions: seq<Action>, i: nat, n: Name, k: nat, a: I.Answers)
    requires Run(ws, actions) && i < |ws|
    requires n in ws[i].invs && k < |ws[i].invs[n]|
    ensures !ws[i].crashed
    ensures
      var v := ws[i].invs[n][k];
      && (!v.deleting && I.SkipsPlanCreation(v) ==> v.plan.Some?)
      && I.Reconcile(v, a) != I.NilDeref
  {
    Reachable(ws, actions, i);
    assert HistoryOk(n, ws[i].invs[n]);
    assert ws[i].invs[n][k] in ws[i].invs[n];
    ReconcileDerives(ws[i].invs[n][k], a);
  }

  /** The selector's own nil reference is never dereferenced either: no phase of a reconcile in flight crashes. */
  lemma SelectorNeverNil(ws: seq<World>, actions: seq<Action>, i: nat, j: JobId)
    requires Run(ws, actions) && i < |ws| && j in ws[i].selJobs
    ensures
      var sel := ws[i].selJobs[j].mem;
      IsTrue(sel.conds, InventoryReady) && sel.checksum == "" ==> sel.ref.Some?
  {
    Reachable(ws, actions, i);
    assert SelJobOk(ws[i], ws[i].selJobs[j]);
  }
}
