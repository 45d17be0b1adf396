/** Whom the registration server takes a machine for, and what it stores for it. */
module StoreDecisions {
  import opened Wrappers
  import opened Objects
  import opened InventoryStore

  // ---- Authentication ----

  /** What a header proves of a machine: the TPM's own hash, or the digest of its token as a machine hash. */
  predicate Proves(h: Header, sha256: string -> string, key: Key, hash: string) {
    match h
    case NoHeader => false
    case TpmHeader(tpm) => key.TpmKey? && hash == tpm
    case PlainHeader(token) => token != "" && key.MachineKey? && hash == sha256(token)
  }

  predicate Matches(item: Item, h: Header, sha256: string -> string) {
    Proves(h, sha256, TpmKey, item.record.tpmHash) || Proves(h, sha256, MachineKey, item.record.machineHash)
  }

  /**
   * Every session works on what its header proves: the one listed inventory with the proven hash, or a new
   * inventory with that hash and no other if none has it.
   */
  lemma AuthBinds(listing: seq<Item>, h: Header, sha256: string -> string)
    ensures
      var auth := AuthMachine(listing, h, sha256);
      && (auth.NotMine? <==> h.NoHeader?) && (auth.NoToken? <==> h == PlainHeader(""))
      && (auth.Duplicate? <==>
            exists i, j ::
              0 <= i < j < |listing| && Matches(listing[i], h, sha256) && Matches(listing[j], h, sha256))
      && (auth.Found? && auth.draft.Existing? ==>
            auth.draft.item in listing && Matches(auth.draft.item, h, sha256))
      && (auth.Found? && auth.draft.Fresh? ==>
            && (forall item <- listing :: !Matches(item, h, sha256))
            && if h.TpmHeader? then auth.draft == Fresh(h.hash, "")
               else h.PlainHeader? && h.token != "" && auth.draft == Fresh("", sha256(h.token)))
  {
  }

  // ---- Commit ----

  /** A new inventory is stored if and only if it has a hash, its name is free and no listed inventory has that hash. */
  lemma CreationDecides(store: Store, listing: seq<Item>, tpmHash: string, machineHash: string, name: Name, uid: nat,
                        data: string)
    ensures
      Commit(store, listing, Fresh(tpmHash, machineHash), name, uid, data) ==
        if (tpmHash != "" || machineHash != "") && name !in store
           && forall item <- listing ::
                if tpmHash != "" then item.record.tpmHash != tpmHash else item.record.machineHash != machineHash
        then store[name := Record(uid, tpmHash, machineHash, data)] else store
  {
  }

  /** A known inventory gets its new data if and only if it is still there as it was read, and keeps its hashes. */
  lemma UpdateDecides(store: Store, listing: seq<Item>, item: Item, name: Name, uid: nat, data: string)
    ensures
      var after := Commit(store, listing, Existing(item), name, uid, data);
      && after.Keys == store.Keys && (forall n <- store :: n != item.name ==> after[n] == store[n])
      && (item.name in store ==>
            after[item.name] == if store[item.name] == item.record
                                then Record(item.record.uid, item.record.tpmHash, item.record.machineHash, data)
                                else store[item.name])
  {
  }

  // ---- Runs ----

  /** Some session was opened with a header that proves the hash. */
  predicate Presented(actions: seq<Action>, i: nat, setup: Setup, key: Key, hash: string)
    requires i <= |actions|
  {
    exists k: nat :: k < i && actions[k].Open? && Proves(actions[k].header, setup.sha256, key, hash)
  }

  predicate RecordPresented(actions: seq<Action>, i: nat, setup: Setup, tpmHash: string, machineHash: string)
    requires i <= |actions|
  {
    && (tpmHash != "" ==> Presented(actions, i, setup, TpmKey, tpmHash))
    && (machineHash != "" ==> Presented(actions, i, setup, MachineKey, machineHash))
  }

  predicate StorePresented(actions: seq<Action>, i: nat, setup: Setup, store: Store)
    requires i <= |actions|
  {
    forall n <- store :: RecordPresented(actions, i, setup, store[n].tpmHash, store[n].machineHash)
  }

  predicate DraftPresented(actions: seq<Action>, i: nat, setup: Setup, d: Draft)
    requires i <= |actions|
  {
    match d
    case Fresh(tpmHash, machineHash) => RecordPresented(actions, i, setup, tpmHash, machineHash)
    case Existing(item) => RecordPresented(actions, i, setup, item.record.tpmHash, item.record.machineHash)
  }

  predicate AllPresented(actions: seq<Action>, i: nat, setup: Setup, w: World)
    requires i <= |actions|
  {
    && w.past != [] && (forall store <- w.past :: StorePresented(actions, i, setup, store))
    && (forall id <- w.sessions :: DraftPresented(actions, i, setup, w.sessions[id].draft))
  }

  lemma PresentedLater(actions: seq<Action>, i: nat, setup: Setup, w: World)
    requires i < |actions| && AllPresented(actions, i, setup, w)
    ensures AllPresented(actions, i + 1, setup, w)
  {
  }

  lemma OpenPresents(actions: seq<Action>, i: nat, setup: Setup, w: World)
    requires i < |actions| && AllPresented(actions, i + 1, setup, w) && actions[i].Open? && Enabled(w, actions[i])
    ensures AllPresented(actions, i + 1, setup, Do(w, actions[i], setup))
  {
    var a := actions[i];
    AuthBinds(a.listing, a.header, setup.sha256);
    var auth := AuthMachine(a.listing, a.header, setup.sha256);
    if auth.Found? && auth.draft.Existing? {
      assert w.past[a.at] in w.past && StorePresented(actions, i + 1, setup, w.past[a.at]);
    } else if auth.Found? {
      assert if a.header.TpmHeader? then Proves(a.header, setup.sha256, TpmKey, auth.draft.tpmHash)
             else Proves(a.header, setup.sha256, MachineKey, auth.draft.machineHash);
    }
  }

  lemma ServePresents(actions: seq<Action>, i: nat, setup: Setup, w: World)
    requires i < |actions| && AllPresented(actions, i + 1, setup, w) && actions[i].Serve? && Enabled(w, actions[i])
    ensures AllPresented(actions, i + 1, setup, Do(w, actions[i], setup))
  {
    var a := actions[i];
    var d := w.sessions[a.id].draft;
    assert Now(w) in w.past && StorePresented(actions, i + 1, setup, Now(w));
    assert DraftPresented(actions, i + 1, setup, d);
    assert StorePresented(actions, i + 1, setup, Commit(Now(w), a.listing, d, a.name, w.nextUid, a.data));
  }

  lemma OthersPresent(actions: seq<Action>, i: nat, setup: Setup, w: World)
    requires i < |actions| && AllPresented(actions, i + 1, setup, w) && Enabled(w, actions[i])
    requires actions[i].Edit? || actions[i].Delete? || actions[i].Drop?
    ensures AllPresented(actions, i + 1, setup, Do(w, actions[i], setup))
  {
    var a := actions[i];
    assert Now(w) in w.past && StorePresented(actions, i + 1, setup, Now(w));
    if a.Edit? {
      assert StorePresented(actions, i + 1, setup, Now(w)[a.name := Now(w)[a.name].(data := a.data)]);
    } else if a.Delete? {
      assert StorePresented(actions, i + 1, setup, Now(w) - {a.name});
    }
  }

  lemma {:induction false} PresentedReachable(ws: seq<World>, actions: seq<Action>, setup: Setup, i: nat)
    requires Run(ws, actions, setup) && i < |ws|
    ensures AllPresented(actions, i, setup, ws[i])
  {
    if i > 0 {
      PresentedReachable(ws, actions, setup, i - 1);
      assert StepAt(ws, actions, setup, i - 1);
      var w, a := ws[i - 1], actions[i - 1];
      PresentedLater(actions, i - 1, setup, w);
      match a
      case Open(_, _, _, _) => OpenPresents(actions, i - 1, setup, w);
      case Serve(_, _, _, _, _, _, _) => ServePresents(actions, i - 1, setup, w);
      case _ => OthersPresent(actions, i - 1, setup, w);
    }
  }

  /**
   * No hash is made up: over all interleavings of sessions, every TPM hash in the store was presented by a session
   * that authenticated with it, and every machine hash is the digest of a token that a session presented.
   */
  lemma StoredWasPresented(ws: seq<World>, actions: seq<Action>, setup: Setup, i: nat, n: Name)
    requires Run(ws, actions, setup) && i < |ws| && ws[i].past != [] && n in Now(ws[i])
    ensures
      var r := Now(ws[i])[n];
      && (r.tpmHash != "" ==> exists k: nat :: k < i && actions[k].Open? && actions[k].header == TpmHeader(r.tpmHash))
      && (r.machineHash != "" ==>
            exists k: nat ::
              && k < i && actions[k].Open? && actions[k].header.PlainHeader?
              && setup.sha256(actions[k].header.token) == r.machineHash)
  {
    PresentedReachable(ws, actions, setup, i);
    assert Now(ws[i]) in ws[i].past && StorePresented(actions, i, setup, Now(ws[i]));
  }
}
