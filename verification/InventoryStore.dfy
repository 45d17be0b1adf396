/** Authentication by hash, and the commit of inventories, over any interleaving of sessions. */
module InventoryStore {
  import opened Wrappers
  import opened Objects
  import Protocol

  /** Which of its two hashes a machine authenticates with. */
  datatype Key = TpmKey | MachineKey

  /**
   * A stored inventory; the uid tells an object from another one later created under its name, and
   * `data` stands for the labels and annotations a registration fills in.
   */
  datatype Record = Record(uid: nat, tpmHash: string, machineHash: string, data: string)

  datatype Item = Item(name: Name, record: Record)

  type Store = map<Name, Record>

  function HashOf(r: Record, key: Key): string {
    if key.TpmKey? then r.tpmHash else r.machineHash
  }

  /** A list returns every stored inventory once, in any order. */
  predicate ListingOf(listing: seq<Item>, store: Store) {
    && (forall item <- listing :: item.name in store && store[item.name] == item.record)
    && (forall n <- store :: Item(n, store[n]) in listing)
    && (forall i, j :: 0 <= i < j < |listing| ==> listing[i].name != listing[j].name)
  }

  // ---- Authentication ----

  /** An authenticated session works on a stored inventory or on a new one. */
  datatype Draft = Fresh(tpmHash: string, machineHash: string) | Existing(item: Item)

  datatype Auth = Found(draft: Draft) | Duplicate | NoToken | NotMine

  function NewDraft(key: Key, hash: string): Draft {
    if key.TpmKey? then Fresh(hash, "") else Fresh("", hash)
  }

  /** The one stored inventory with a hash, a new one if there is none, an error if there are several. */
  function Lookup(listing: seq<Item>, key: Key, hash: string): (auth: Auth)
    ensures auth.Duplicate? <==>
              exists i, j :: 0 <= i < j < |listing|
                  && HashOf(listing[i].record, key) == HashOf(listing[j].record, key) == hash
    ensures auth == Found(NewDraft(key, hash)) <==> forall item <- listing :: HashOf(item.record, key) != hash
    ensures auth.Found? && auth.draft.Existing? ==>
              auth.draft.item in listing && HashOf(auth.draft.item.record, key) == hash
    ensures auth.Duplicate? || auth.Found?
    ensures auth.Found? && auth.draft.Fresh? ==> auth.draft == NewDraft(key, hash)
  {
    if listing == [] then Found(NewDraft(key, hash))
    else
      var last := |listing| - 1;
      var front := Lookup(listing[..last], key, hash);
      assert forall i :: 0 <= i < last ==> listing[..last][i] == listing[i];
      if HashOf(listing[last].record, key) != hash || front.Duplicate? then
        assert forall item <- listing :: item in listing[..last] || item == listing[last];
        front
      else if front == Found(NewDraft(key, hash)) then
        assert forall i :: 0 <= i < last ==> listing[i] in listing[..last];
        Found(Existing(listing[last]))
      else
        assert front.draft.item in listing[..last];
        Duplicate
  }

  /** What the Authorization header says: the TPM's hash, a plain token, or neither. */
  datatype Header = NoHeader | TpmHeader(hash: string) | PlainHeader(token: string)

  function TpmAuthenticate(listing: seq<Item>, h: Header): Auth {
    if !h.TpmHeader? then NotMine else Lookup(listing, TpmKey, h.hash)
  }

  function PlainAuthenticate(listing: seq<Item>, h: Header, sha256: string -> string): Auth {
    if !h.PlainHeader? then NotMine
    else if h.token == "" then NoToken
    else Lookup(listing, MachineKey, sha256(h.token))
  }

  function AuthMachine(listing: seq<Item>, h: Header, sha256: string -> string): Auth {
    var byTpm := TpmAuthenticate(listing, h);
    if byTpm.NotMine? then PlainAuthenticate(listing, h, sha256) else byTpm
  }

  /** The loop both authenticators run over the listed inventories. */
  method FindByHash(listing: seq<Item>, key: Key, hash: string) returns (auth: Auth)
    ensures auth == Lookup(listing, key, hash)
  {
    var found: Option<Item> := None;
    for i := 0 to |listing|
      invariant Lookup(listing[..i], key, hash)
                == Found(if found.None? then NewDraft(key, hash) else Existing(found.value))
    {
      var m := listing[i];
      assert listing[..i + 1][..i] == listing[..i];
      if HashOf(m.record, key) == hash {
        if found.Some? {
          assert HashOf(found.value.record, key) == hash && found.value in listing[..i];
          return Duplicate;
        }
        found := Some(m);
      }
    }
    assert listing[..|listing|] == listing;
    return Found(if found.None? then NewDraft(key, hash) else Existing(found.value));
  }

  /** The loop over the authenticators: the first that recognises the header decides. */
  method Authenticate(listing: seq<Item>, h: Header, sha256: string -> string) returns (auth: Auth)
    ensures auth == AuthMachine(listing, h, sha256)
  {
    for i := 0 to 2
      invariant i > 0 ==> TpmAuthenticate(listing, h).NotMine?
      invariant i > 1 ==> PlainAuthenticate(listing, h, sha256).NotMine?
    {
      if i == 0 {
        if h.TpmHeader? {
          auth := FindByHash(listing, TpmKey, h.hash);
          return auth;
        }
      } else if h.PlainHeader? {
        if h.token == "" {
          return NoToken;
        }
        auth := FindByHash(listing, MachineKey, sha256(h.token));
        return auth;
      }
    }
    return NotMine;
  }

  // ---- Commit ----

  /** A new inventory clashes with a listed one that has the same non-empty hash of the kind it checks. */
  predicate Clashes(d: Draft, r: Record)
    requires d.Fresh?
  {
    if d.tpmHash != "" then r.tpmHash == d.tpmHash else r.machineHash != "" && r.machineHash == d.machineHash
  }

  predicate Creatable(d: Draft, listing: seq<Item>)
    requires d.Fresh?
  {
    (d.tpmHash != "" || d.machineHash != "") && forall item <- listing :: !Clashes(d, item.record)
  }

  /** A name already taken, or an object that vanished or changed since it was read, makes a commit fail. */
  predicate Committable(store: Store, listing: seq<Item>, d: Draft, name: Name) {
    match d
    case Fresh(_, _) => Creatable(d, listing) && name !in store
    case Existing(item) => item.name in store && store[item.name] == item.record
  }

  /** The store after a commit. */
  function Commit(store: Store, listing: seq<Item>, d: Draft, name: Name, uid: nat, data: string): Store {
    if !Committable(store, listing, d, name) then store
    else
      match d
      case Fresh(tpmHash, machineHash) => store[name := Record(uid, tpmHash, machineHash, data)]
      case Existing(item) => store[item.name := item.record.(data := data)]
  }

  class Server {
    var store: Store

    constructor (store: Store)
      ensures this.store == store
    {
      this.store := store;
    }

    /** Lists, checks and creates; the error tells that nothing was stored. */
    method CreateMachineInventory(listing: seq<Item>, d: Draft, name: Name, uid: nat, data: string) returns (err: bool)
      requires d.Fresh?
      modifies this
      ensures store == Commit(old(store), listing, d, name, uid, data)
      ensures err <==> !(Creatable(d, listing) && name !in old(store))
    {
      var byTpm := true;
      if d.tpmHash == "" {
        if d.machineHash == "" {
          return true;
        }
        byTpm := false;
      }
      for i := 0 to |listing|
        invariant store == old(store)
        invariant forall k :: 0 <= k < i ==> !Clashes(d, listing[k].record)
      {
        var m := listing[i].record;
        var hash := "";
        if byTpm {
          if m.tpmHash == d.tpmHash {
            hash := m.tpmHash;
          }
        } else {
          if m.machineHash == d.machineHash {
            hash := m.machineHash;
          }
        }
        if hash != "" {
          assert listing[i] in listing && Clashes(d, listing[i].record);
          return true;
        }
      }
      if name in store {
        return true;
      }
      store := store[name := Record(uid, d.tpmHash, d.machineHash, data)];
      return false;
    }

    method CommitMachineInventory(listing: seq<Item>, d: Draft, name: Name, uid: nat, data: string) returns (err: bool)
      modifies this
      ensures store == Commit(old(store), listing, d, name, uid, data)
      ensures err <==> !Committable(old(store), listing, d, name)
    {
      if d.Fresh? {
        err := CreateMachineInventory(listing, d, name, uid, data);
      } else {
        err := d.item.name !in store || store[d.item.name] != d.item.record;
        if !err {
          store := store[d.item.name := d.item.record.(data := data)];
        }
      }
    }
  }

  // ---- Runs ----

  type SessionId = nat

  /** A session: the inventory it works on and the state of its serve loop. */
  datatype Session = Session(draft: Draft, server: Protocol.Server)

  /** `past` holds every store so far, the present one last. */
  datatype World = World(past: seq<Store>, sessions: map<SessionId, Session>, nextUid: nat)

  /**
   * `Serve` is one turn of a session's loop on whatever frame its client sends; `listing`, `name`, `data` and
   * `fate` matter only to a turn that commits. `Drop` ends a session whose connection is lost; `Edit` and
   * `Delete` are other people's.
   */
  datatype Action =
    | Open(id: SessionId, listing: seq<Item>, at: nat, header: Header)
    | Serve(id: SessionId, frame: Protocol.Bytes, outcome: Protocol.Outcome, listing: seq<Item>, name: Name,
            data: string, fate: Fate)
    | Drop(id: SessionId)
    | Edit(name: Name, data: string)
    | Delete(name: Name)

  /** What the server is built with: its release and its digest. */
  datatype Setup = Setup(last: Protocol.MessageType, sha256: string -> string)

  function Now(w: World): Store
    requires w.past != []
  {
    w.past[|w.past| - 1]
  }

  predicate Serving(w: World, id: SessionId) {
    id in w.sessions && !w.sessions[id].server.done
  }

  /** TPM hashes and SHA-256 digests are never empty; a cached list shows some past store. */
  predicate Enabled(w: World, a: Action) {
    w.past != [] &&
    match a
    case Open(id, listing, at, header) =>
      id !in w.sessions && at < |w.past| && ListingOf(listing, w.past[at]) && (header.TpmHeader? ==> header.hash != "")
    case Serve(id, _, _, listing, _, _, _) => Serving(w, id) && ListingOf(listing, Now(w))
    case Drop(id) => Serving(w, id)
    case Edit(name, _) => name in Now(w)
    case Delete(name) => name in Now(w)
  }

  /** The turn of the serve loop, told whether its commit, if it makes one, succeeds. */
  function Turn(session: Session, last: Protocol.MessageType, a: Action, committed: bool): Protocol.Reply
    requires a.Serve?
  {
    Protocol.Serve(session.server, last, session.draft.Fresh?, a.frame, a.outcome.(committed := committed))
  }

  /** The turn gets as far as a commit: it would count one if the commit succeeded. */
  predicate Attempts(session: Session, last: Protocol.MessageType, a: Action)
    requires a.Serve?
  {
    Turn(session, last, a, true).server.commits > session.server.commits
  }

  /** A commit reaches the store unless it is lost; the server counts it only when it succeeds and is answered. */
  function DoServe(w: World, a: Action, last: Protocol.MessageType): World
    requires a.Serve? && Enabled(w, a)
  {
    var session := w.sessions[a.id];
    var committed := Committable(Now(w), a.listing, session.draft, a.name) && a.fate == Delivered;
    var store :=
      if Attempts(session, last, a) && a.fate != Lost
      then Commit(Now(w), a.listing, session.draft, a.name, w.nextUid, a.data) else Now(w);
    World(w.past + [store], w.sessions[a.id := session.(server := Turn(session, last, a, committed).server)],
          w.nextUid + 1)
  }

  function Do(w: World, a: Action, setup: Setup): World
    requires Enabled(w, a)
  {
    match a
    case Open(id, listing, _, header) =>
      var auth := AuthMachine(listing, header, setup.sha256);
      if auth.Found? then w.(sessions := w.sessions[id := Session(auth.draft, STARTED)]) else w
    case Serve(_, _, _, _, _, _, _) => DoServe(w, a, setup.last)
    case Drop(id) => w.(sessions := w.sessions[id := w.sessions[id].(server := w.sessions[id].server.(done := true))])
    case Edit(name, data) => w.(past := w.past + [Now(w)[name := Now(w)[name].(data := data)]])
    case Delete(name) => w.(past := w.past + [Now(w) - {name}])
  }

  const STARTED := Protocol.Server(Protocol.MSG_UNDEFINED, false, 0, false)

  const EMPTY := World([map[]], map[], 0)

  predicate StepAt(ws: seq<World>, actions: seq<Action>, setup: Setup, i: nat)
    requires i < |actions| < |ws|
  {
    Enabled(ws[i], actions[i]) && ws[i + 1] == Do(ws[i], actions[i], setup)
  }

  ghost predicate Run(ws: seq<World>, actions: seq<Action>, setup: Setup) {
    && |ws| == |actions| + 1 && ws[0] == EMPTY && (forall t: string :: setup.sha256(t) != "")
    && forall i: nat :: i < |actions| ==> StepAt(ws, actions, setup, i)
  }

  /** No two inventories share a non-empty hash of either kind. */
  predicate Unique(store: Store) {
    forall n, m :: n in store && m in store && n != m ==>
      && (store[n].tpmHash == store[m].tpmHash ==> store[n].tpmHash == "")
      && (store[n].machineHash == store[m].machineHash ==> store[n].machineHash == "")
  }

  predicate SameObject(r: Record, r': Record) {
    r' == r.(data := r'.data)
  }

  /** A new draft has exactly one hash; a copy's hashes are those of the object while it exists. */
  predicate DraftOk(w: World, d: Draft)
    requires w.past != []
  {
    match d
    case Fresh(tpmHash, machineHash) => (tpmHash == "") != (machineHash == "")
    case Existing(item) =>
      && item.record.uid < w.nextUid
      && (item.name in Now(w) && Now(w)[item.name].uid == item.record.uid ==>
           SameObject(Now(w)[item.name], item.record))
  }

  /** An object never changes its hashes: two stores that hold the same uid under a name agree. */
  predicate Stable(w: World) {
    forall i, j, n ::
      0 <= i <= j < |w.past| && n in w.past[i] && n in w.past[j] && w.past[i][n].uid == w.past[j][n].uid ==>
      SameObject(w.past[i][n], w.past[j][n])
  }

  predicate Older(store: Store, uid: nat) {
    forall n :: n in store ==> store[n].uid < uid
  }

  predicate StoresOk(w: World) {
    forall store: Store :: store in w.past ==> Unique(store) && Older(store, w.nextUid)
  }

  predicate SessionsOk(w: World)
    requires w.past != []
  {
    forall id <- w.sessions :: DraftOk(w, w.sessions[id].draft)
  }

  predicate Inv(w: World) {
    w.past != [] && StoresOk(w) && Stable(w) && SessionsOk(w)
  }

  lemma CommitUnique(store: Store, listing: seq<Item>, d: Draft, name: Name, uid: nat, data: string)
    requires Unique(store) && ListingOf(listing, store)
    requires d.Fresh? ==> (d.tpmHash == "") != (d.machineHash == "")
    ensures Unique(Commit(store, listing, d, name, uid, data))
  {
  }

  lemma AddStore(w: World, w': World, store: Store)
    requires Inv(w) && w'.past == w.past + [store] && w'.sessions == w.sessions
    requires w'.nextUid >= w.nextUid && Unique(store) && Older(store, w'.nextUid)
    requires forall n <- store :: (n in Now(w) && SameObject(Now(w)[n], store[n])) || store[n].uid >= w.nextUid
    ensures Inv(w')
  {
    forall i, j, n | 0 <= i <= j < |w'.past| && n in w'.past[i] && n in w'.past[j]
        && w'.past[i][n].uid == w'.past[j][n].uid
      ensures SameObject(w'.past[i][n], w'.past[j][n])
    {
      if j == |w.past| && i < j {
        assert w.past[i] in w.past;
        assert w'.past[i] == w.past[i] && w.past[i][n].uid < w.nextUid;
        assert n in Now(w) && SameObject(Now(w)[n], store[n]);
      }
    }
    forall id | id in w'.sessions ensures DraftOk(w', w'.sessions[id].draft) {
      assert DraftOk(w, w.sessions[id].draft);
    }
  }

  /** Setting a session whose draft is sound changes nothing else. */
  lemma SetSession(w: World, id: SessionId, session: Session)
    requires Inv(w) && DraftOk(w, session.draft)
    ensures Inv(w.(sessions := w.sessions[id := session]))
  {
    var w' := w.(sessions := w.sessions[id := session]);
    forall k | k in w'.sessions ensures DraftOk(w', w'.sessions[k].draft) {
      assert k != id ==> DraftOk(w, w.sessions[k].draft);
    }
  }

  lemma OpenedOk(w: World, a: Action, d: Draft, setup: Setup)
    requires Inv(w) && Enabled(w, a) && a.Open? && forall t: string :: setup.sha256(t) != ""
    requires AuthMachine(a.listing, a.header, setup.sha256) == Found(d)
    ensures DraftOk(w, d)
  {
    if d.Existing? {
      var store := w.past[a.at];
      assert d.item in a.listing;
      assert store in w.past && store[d.item.name] == d.item.record;
    }
  }

  lemma OpenKeeps(w: World, a: Action, setup: Setup)
    requires Inv(w) && Enabled(w, a) && a.Open? && forall t: string :: setup.sha256(t) != ""
    ensures Inv(Do(w, a, setup))
  {
    var auth := AuthMachine(a.listing, a.header, setup.sha256);
    if auth.Found? {
      OpenedOk(w, a, auth.draft, setup);
      SetSession(w, a.id, Session(auth.draft, STARTED));
    }
  }

  lemma ServeKeeps(w: World, a: Action, last: Protocol.MessageType)
    requires Inv(w) && a.Serve? && Enabled(w, a)
    ensures Inv(DoServe(w, a, last))
  {
    var w' := DoServe(w, a, last);
    var store, d := Now(w'), w.sessions[a.id].draft;
    assert DraftOk(w, d) && Now(w) in w.past;
    CommitUnique(Now(w), a.listing, d, a.name, w.nextUid, a.data);
    var w1 := w.(past := w.past + [store], nextUid := w.nextUid + 1);
    AddStore(w, w1, store);
    assert DraftOk(w1, w1.sessions[a.id].draft);
    SetSession(w1, a.id, w'.sessions[a.id]);
  }

  lemma EditKeeps(w: World, a: Action, setup: Setup)
    requires Inv(w) && Enabled(w, a) && a.Edit?
    ensures Inv(Do(w, a, setup))
  {
    assert Now(w) in w.past;
    AddStore(w, Do(w, a, setup), Now(w)[a.name := Now(w)[a.name].(data := a.data)]);
  }

  lemma DeleteKeeps(w: World, a: Action, setup: Setup)
    requires Inv(w) && Enabled(w, a) && a.Delete?
    ensures Inv(Do(w, a, setup))
  {
    assert Now(w) in w.past;
    AddStore(w, Do(w, a, setup), Now(w) - {a.name});
  }

  lemma {:induction false} Reachable(ws: seq<World>, actions: seq<Action>, setup: Setup, i: nat)
    requires Run(ws, actions, setup) && i < |ws|
    ensures Inv(ws[i])
  {
    if i > 0 {
      Reachable(ws, actions, setup, i - 1);
      assert StepAt(ws, actions, setup, i - 1);
      var w, a := ws[i - 1], actions[i - 1];
      match a
      case Open(_, _, _, _) => OpenKeeps(w, a, setup);
      case Serve(_, _, _, _, _, _, _) => ServeKeeps(w, a, setup.last);
      case Drop(id) =>
        assert DraftOk(w, w.sessions[id].draft);
        SetSession(w, id, ws[i].sessions[id]);
      case Edit(_, _) => EditKeeps(w, a, setup);
      case Delete(_) => DeleteKeeps(w, a, setup);
    }
  }

  /** Hash uniqueness: for any interleaving of sessions, no two stored inventories share a non-empty hash. */
  lemma HashesUnique(ws: seq<World>, actions: seq<Action>, setup: Setup, i: nat)
    requires Run(ws, actions, setup) && i < |ws|
    ensures ws[i].past != [] && Unique(Now(ws[i]))
  {
    Reachable(ws, actions, setup, i);
    assert Now(ws[i]) in ws[i].past;
  }

  /** The duplicate branch of authentication is unreachable, whatever past store a cached list shows. */
  lemma NoDuplicate(ws: seq<World>, actions: seq<Action>, setup: Setup, i: nat, k: nat, listing: seq<Item>, h: Header)
    requires Run(ws, actions, setup) && i < |ws| && k < |ws[i].past| && ListingOf(listing, ws[i].past[k])
    requires h.TpmHeader? ==> h.hash != ""
    ensures !AuthMachine(listing, h, setup.sha256).Duplicate?
  {
    Reachable(ws, actions, setup, i);
    var store := ws[i].past[k];
    assert store in ws[i].past;
    forall x, y | 0 <= x < y < |listing|
      ensures store[listing[x].name] == listing[x].record && store[listing[y].name] == listing[y].record
      ensures listing[x].name != listing[y].name
    {
      assert listing[x] in listing && listing[y] in listing;
    }
  }

  // ---- Commits of a session ----

  predicate IsGet(frame: Protocol.Bytes, last: Protocol.MessageType) {
    var message := Protocol.ExtractMessageType(frame, last);
    message.Some? && message.value.msgType == Protocol.MSG_GET
  }

  /** Only the branch of the loop for a Get commits; whatever comes of the commit, that branch ends the loop. */
  lemma OnlyGetCommits(session: Session, last: Protocol.MessageType, a: Action, committed: bool)
    requires a.Serve? && !session.server.done
    ensures Attempts(session, last, a) <==> IsGet(a.frame, last) && a.outcome.templated
    ensures
      var after := Turn(session, last, a, committed).server;
      && after.commits == session.server.commits + (if Attempts(session, last, a) && committed then 1 else 0)
      && (IsGet(a.frame, last) ==> after.done)
  {
  }

  /** A loop that has ended has no further turn, and its session is never opened again. */
  lemma {:induction false} EndedStays(ws: seq<World>, actions: seq<Action>, setup: Setup, i: nat, j: nat, id: SessionId)
    requires Run(ws, actions, setup) && i <= j < |ws|
    requires id in ws[i].sessions && ws[i].sessions[id].server.done
    ensures id in ws[j].sessions && ws[j].sessions[id] == ws[i].sessions[id]
  {
    if i < j {
      EndedStays(ws, actions, setup, i, j - 1, id);
      assert StepAt(ws, actions, setup, j - 1);
    }
  }

  lemma {:induction false} CommitsCounted(ws: seq<World>, actions: seq<Action>, setup: Setup, i: nat, id: SessionId)
    requires Run(ws, actions, setup) && i < |ws| && id in ws[i].sessions
    ensures ws[i].sessions[id].server.commits <= if ws[i].sessions[id].server.done then 1 else 0
  {
    if i > 0 {
      assert StepAt(ws, actions, setup, i - 1);
      var w, a := ws[i - 1], actions[i - 1];
      if id in w.sessions {
        CommitsCounted(ws, actions, setup, i - 1, id);
      }
      if a.Serve? {
        var session := w.sessions[a.id];
        OnlyGetCommits(session, setup.last, a, Committable(Now(w), a.listing, session.draft, a.name)
            && a.fate == Delivered);
      }
    }
  }

  /** The session `id` changes the store in step `i`. */
  predicate ChangesStore(ws: seq<World>, actions: seq<Action>, i: nat, id: SessionId)
    requires i < |actions| < |ws|
  {
    && actions[i].Serve? && actions[i].id == id
    && ws[i].past != [] && ws[i + 1].past != [] && Now(ws[i + 1]) != Now(ws[i])
  }

  /**
   * The store is left alone until a Get: whatever frames the clients send, a step changes it only when
   * somebody edits or deletes an inventory or when it serves a Get that its templates let through, and then
   * the change is the commit of the session's own draft and the session is over.
   */
  lemma OnlyGetChangesStore(ws: seq<World>, actions: seq<Action>, setup: Setup, i: nat)
    requires Run(ws, actions, setup) && i < |actions|
    ensures ws[i].past != [] && ws[i + 1].past != []
    ensures Now(ws[i + 1]) != Now(ws[i]) ==>
              || actions[i].Delete? || actions[i].Edit?
              || (&& actions[i].Serve? && IsGet(actions[i].frame, setup.last) && actions[i].id in ws[i].sessions
                  && Now(ws[i + 1]) == Commit(Now(ws[i]), actions[i].listing, ws[i].sessions[actions[i].id].draft,
                                              actions[i].name, ws[i].nextUid, actions[i].data)
                  && actions[i].id in ws[i + 1].sessions && ws[i + 1].sessions[actions[i].id].server.done)
  {
    Reachable(ws, actions, setup, i);
    assert StepAt(ws, actions, setup, i);
    var w, a := ws[i], actions[i];
    if a.Serve? {
      var session := w.sessions[a.id];
      OnlyGetCommits(session, setup.last, a, Committable(Now(w), a.listing, session.draft, a.name)
          && a.fate == Delivered);
    }
  }

  /** A session changes the store in at most one step, and counts at most one commit, whatever frames it is sent. */
  lemma CommitsOnce(ws: seq<World>, actions: seq<Action>, setup: Setup, i: nat, j: nat, id: SessionId)
    requires Run(ws, actions, setup) && i < j < |actions|
    ensures !(ChangesStore(ws, actions, i, id) && ChangesStore(ws, actions, j, id))
    ensures id in ws[j].sessions ==> ws[j].sessions[id].server.commits <= 1
  {
    if id in ws[j].sessions {
      CommitsCounted(ws, actions, setup, j, id);
    }
    if ChangesStore(ws, actions, i, id) {
      OnlyGetChangesStore(ws, actions, setup, i);
      EndedStays(ws, actions, setup, i + 1, j, id);
      assert StepAt(ws, actions, setup, j);
    }
  }

  /** A counted commit is in the store: the step that counts it leaves the session's hashes and data stored. */
  lemma CountedIsStored(ws: seq<World>, actions: seq<Action>, setup: Setup, i: nat)
    requires Run(ws, actions, setup) && i < |actions| && actions[i].Serve?
    ensures actions[i].id in ws[i].sessions && actions[i].id in ws[i + 1].sessions && ws[i + 1].past != []
    ensures
      var before, after, store := ws[i].sessions[actions[i].id], ws[i + 1].sessions[actions[i].id], Now(ws[i + 1]);
      after.server.commits > before.server.commits ==>
        match before.draft
        case Fresh(tpmHash, machineHash) =>
          && actions[i].name in store
          && store[actions[i].name] == Record(ws[i].nextUid, tpmHash, machineHash, actions[i].data)
        case Existing(item) => item.name in store && store[item.name] == item.record.(data := actions[i].data)
  {
    assert StepAt(ws, actions, setup, i);
    var w, a := ws[i], actions[i];
    var session := w.sessions[a.id];
    OnlyGetCommits(session, setup.last, a, Committable(Now(w), a.listing, session.draft, a.name)
        && a.fate == Delivered);
  }
}
