/** Bringing the stored ManagedOSVersions in line with the list a channel delivers. */
module ChannelSync {
  import opened Wrappers
  import opened Objects

  const CHANNEL_LABEL := "elemental.cattle.io/channel"
  const LAST_SYNC := "elemental.cattle.io/channel-last-sync"
  const NO_LONGER_SYNCED := "elemental.cattle.io/channel-no-longer-in-sync"
  const NO_LONGER_SYNCED_VALUE := "true"

  datatype ImageKind = ContainerImage | IsoImage | OtherImage

  /** Metadata values are raw JSON texts; `other` stands for the fields no rewrite touches. */
  datatype Spec = Spec(kind: ImageKind, metadata: map<string, string>, upgradeContainer: Option<string>, other: string)

  datatype Version = Version(
    spec: Spec,
    owner: Name,
    labels: map<string, string>,
    annotations: map<string, string>,
    deleting: bool)

  datatype Entry = Entry(name: Name, spec: Spec)

  datatype Channel = Channel(name: Name, registry: string, upgradeContainer: Option<string>, deleteOrphans: bool)

  type Store = map<Name, Version>

  // ---- One listed version ----

  function TrimLeft(s: string, c: char): (r: string)
    ensures r == "" || r[0] != c
  {
    if s != "" && s[0] == c then TrimLeft(s[1..], c) else s
  }

  function TrimRight(s: string, c: char): (r: string)
    ensures r <= s && (r == "" || r[|r| - 1] != c)
  {
    if s != "" && s[|s| - 1] == c then TrimRight(s[..|s| - 1], c) else s
  }

  /** A raw value without the quotes around it. */
  function Unquoted(raw: string): (val: string)
    ensures val == "" || (val[0] != '"' && val[|val| - 1] != '"')
  {
    TrimRight(TrimLeft(raw, '"'), '"')
  }

  predicate OnlyQuotes(s: string) {
    forall i :: 0 <= i < |s| ==> s[i] == '"'
  }

  lemma {:induction false} TrimLeftDrops(s: string) returns (quotes: string)
    ensures OnlyQuotes(quotes) && s == quotes + TrimLeft(s, '"')
  {
    if s != "" && s[0] == '"' {
      var rest := TrimLeftDrops(s[1..]);
      quotes := "\"" + rest;
    } else {
      quotes := "";
    }
  }

  lemma {:induction false} TrimRightDrops(s: string) returns (quotes: string)
    ensures OnlyQuotes(quotes) && s == TrimRight(s, '"') + quotes
  {
    if s != "" && s[|s| - 1] == '"' {
      var rest := TrimRightDrops(s[..|s| - 1]);
      quotes := rest + "\"";
      assert s == s[..|s| - 1] + "\"";
    } else {
      quotes := "";
    }
  }

  lemma UnquotedDrops(raw: string) returns (left: string, right: string)
    ensures OnlyQuotes(left) && OnlyQuotes(right) && raw == left + Unquoted(raw) + right
  {
    left := TrimLeftDrops(raw);
    right := TrimRightDrops(TrimLeft(raw, '"'));
    assert left + (Unquoted(raw) + right) == left + Unquoted(raw) + right;
  }

  /** A reference starts with the registry and ends with the value; a slash is added unless either brings its own. */
  predicate Joined(reference: string, registry: string, val: string) {
    && |registry| + |val| <= |reference| <= |registry| + |val| + 1
    && registry <= reference && reference[|reference| - |val|..] == val
    && (registry != "" ==>
          && (reference[|registry| - 1] == '/' || (|reference| > |registry| && reference[|registry|] == '/'))
          && (|reference| == |registry| + |val| <==> registry[|registry| - 1] == '/' || "/" <= val))
  }

  function Reference(registry: string, val: string): (reference: string)
    ensures Joined(reference, registry, val)
  {
    var slash := if registry != "" && registry[|registry| - 1] != '/' && !("/" <= val) then "/" else "";
    registry + slash + val
  }

  /** The raw value that names an image of the registry. */
  function Concatenate(registry: string, raw: string): string {
    "\"" + Reference(registry, Unquoted(raw)) + "\""
  }

  /** The spec a channel stores for an entry; none when a registry meets an unknown image type. */
  function Rewrite(ch: Channel, spec: Spec): Option<Spec> {
    var contained := if ch.upgradeContainer.Some? then spec.(upgradeContainer := ch.upgradeContainer) else spec;
    if ch.registry == "" then Some(contained)
    else if spec.kind.OtherImage? then None
    else
      var field := if spec.kind.ContainerImage? then "upgradeImage" else "uri";
      var raw := if field in spec.metadata then spec.metadata[field] else "";
      Some(contained.(metadata := spec.metadata[field := Concatenate(ch.registry, raw)]))
  }

  /** Under a registry the image of an entry is the registry's, and nothing else of it is touched but the container. */
  lemma RewriteReferences(ch: Channel, spec: Spec)
    requires ch.registry != ""
    ensures Rewrite(ch, spec).None? <==> spec.kind.OtherImage?
    ensures
      Rewrite(ch, spec).Some? ==>
        var after, field := Rewrite(ch, spec).value, if spec.kind.ContainerImage? then "upgradeImage" else "uri";
        var reference := Reference(ch.registry, Unquoted(if field in spec.metadata then spec.metadata[field] else ""));
        && after == spec.(metadata := after.metadata, upgradeContainer := after.upgradeContainer)
        && field in after.metadata && after.metadata[field] == "\"" + reference + "\""
        && (forall k :: k != field ==> (k in spec.metadata <==> k in after.metadata))
        && (forall k <- spec.metadata :: k != field ==> after.metadata[k] == spec.metadata[k])
        && after.upgradeContainer == if ch.upgradeContainer.Some? then ch.upgradeContainer else spec.upgradeContainer
  {
  }

  predicate LabelledWith(v: Version, ch: Name) {
    CHANNEL_LABEL in v.labels && v.labels[CHANNEL_LABEL] == ch
  }

  function Labelled(store: Store, ch: Name): Store {
    map n | n in store && LabelledWith(store[n], ch) :: store[n]
  }

  function LabelsOf(ch: Channel): map<string, string> {
    map[CHANNEL_LABEL := ch.name]
  }

  function SyncedAt(timestamp: string): map<string, string> {
    map[LAST_SYNC := timestamp]
  }

  // ---- The loop over the list ----

  /** The store, the versions known to the loop, and how the loop fares. */
  datatype Progress = Progress(store: Store, known: Store, failed: bool, aborted: bool)

  function ApplyEntry(ch: Channel, timestamp: string, p: Progress, e: Entry, fate: Fate): Progress {
    if p.aborted then p
    else
      var spec := Rewrite(ch, e.spec);
      if spec.None? then p.(aborted := true)
      else if e.name in p.known then
        var patched := p.known[e.name].(spec := spec.value, labels := LabelsOf(ch), annotations := SyncedAt(timestamp));
        p.(known := p.known[e.name := patched],
           store := if fate == Lost then p.store else p.store[e.name := patched],
           failed := p.failed || fate != Delivered)
      else if fate == Lost || e.name in p.store then p.(failed := true)
      else
        var created := Version(spec.value, ch.name, LabelsOf(ch), SyncedAt(timestamp), false);
        p.(store := p.store[e.name := created], failed := p.failed || fate != Delivered)
  }

  function ApplyAll(ch: Channel, timestamp: string, start: Progress, entries: seq<Entry>, fates: seq<Fate>): Progress
    requires |entries| <= |fates|
  {
    if entries == [] then start
    else
      var last := |entries| - 1;
      ApplyEntry(ch, timestamp, ApplyAll(ch, timestamp, start, entries[..last], fates), entries[last], fates[last])
  }

  function Start(store: Store, ch: Channel, listed: bool): Progress {
    Progress(store, if listed then Labelled(store, ch.name) else map[], false, false)
  }

  predicate NeedsMark(v: Version, timestamp: string) {
    LAST_SYNC !in v.annotations || v.annotations[LAST_SYNC] != timestamp
  }

  /** A version marked as out of sync, with deletion requested when the channel says so. */
  function Marked(ch: Channel, v: Version): Version {
    v.(annotations := v.annotations[NO_LONGER_SYNCED := NO_LONGER_SYNCED_VALUE],
       deleting := v.deleting || ch.deleteOrphans)
  }

  // ---- What an exact sync means ----

  /** The spec of the last entry with a name. */
  function LastSpec(entries: seq<Entry>, n: Name): Option<Spec> {
    if entries == [] then None
    else if entries[|entries| - 1].name == n then Some(entries[|entries| - 1].spec)
    else LastSpec(entries[..|entries| - 1], n)
  }

  predicate SameAt(before: Store, after: Store, n: Name) {
    (n in before <==> n in after) && (n in before ==> after[n] == before[n])
  }

  /** A listed name holds its last entry, rewritten and freshly stamped, so without an out-of-sync mark. */
  predicate ListedAt(ch: Channel, timestamp: string, spec: Spec, before: Store, after: Store, n: Name) {
    && Rewrite(ch, spec).Some? && n in after
    && after[n].spec == Rewrite(ch, spec).value
    && after[n].labels == LabelsOf(ch) && after[n].annotations == SyncedAt(timestamp)
    && NO_LONGER_SYNCED !in after[n].annotations
    && if n in before then after[n].owner == before[n].owner && after[n].deleting == before[n].deleting
       else after[n].owner == ch.name && !after[n].deleting
  }

  predicate ExactAt(ch: Channel, timestamp: string, entries: seq<Entry>, before: Store, after: Store, n: Name) {
    match LastSpec(entries, n)
    case Some(spec) => ListedAt(ch, timestamp, spec, before, after, n)
    case None =>
      if n in before && LabelledWith(before[n], ch.name) then n in after && after[n] == Marked(ch, before[n])
      else SameAt(before, after, n)
  }

  /** What a sync that could not list the stored versions leaves: the listed names are new, and no orphan is marked. */
  predicate AddedAt(ch: Channel, timestamp: string, entries: seq<Entry>, before: Store, after: Store, n: Name) {
    match LastSpec(entries, n)
    case Some(spec) => n !in before && ListedAt(ch, timestamp, spec, before, after, n)
    case None => SameAt(before, after, n)
  }

  /** An orphan is among the listed versions and does not carry the new timestamp yet, or it is already marked. */
  predicate Flaggable(ch: Channel, timestamp: string, entries: seq<Entry>, store: Store, listed: bool, n: Name) {
    n in store && LabelledWith(store[n], ch.name) && LastSpec(entries, n).None? ==>
      (listed && NeedsMark(store[n], timestamp)) || Marked(ch, store[n]) == store[n]
  }

  /** Nothing happened to the names that are not listed. */
  ghost predicate NoOrphanTouched(entries: seq<Entry>, before: Store, after: Store) {
    forall n: Name :: LastSpec(entries, n).None? ==> SameAt(before, after, n)
  }

  // ---- The loop, entry by entry ----

  predicate Fine(p: Progress) {
    !p.failed && !p.aborted
  }

  lemma {:induction false} UnlistedKept(ch: Channel, timestamp: string, start: Progress, entries: seq<Entry>,
                                        fates: seq<Fate>, n: Name)
    requires |entries| <= |fates| && LastSpec(entries, n).None?
    ensures
      var p := ApplyAll(ch, timestamp, start, entries, fates);
      Untouched(start, p, n)
  {
    if entries != [] {
      EntryKeeps(ch, timestamp, ApplyAll(ch, timestamp, start, entries[..|entries| - 1], fates),
                 entries[|entries| - 1], fates[|entries| - 1], n);
      UnlistedKept(ch, timestamp, start, entries[..|entries| - 1], fates, n);
    }
  }

  lemma {:induction false} KnownKeys(ch: Channel, timestamp: string, start: Progress, entries: seq<Entry>,
                                     fates: seq<Fate>)
    requires |entries| <= |fates|
    ensures ApplyAll(ch, timestamp, start, entries, fates).known.Keys == start.known.Keys
  {
    if entries != [] {
      KnownKeys(ch, timestamp, start, entries[..|entries| - 1], fates);
    }
  }

  /** A name holds a listed entry, in the store and among the known versions. */
  predicate StoredAt(ch: Channel, timestamp: string, spec: Spec, start: Progress, p: Progress, n: Name) {
    && ListedAt(ch, timestamp, spec, start.store, p.store, n)
    && (n in start.known ==> n in p.known && p.known[n] == p.store[n])
  }

  predicate Untouched(start: Progress, p: Progress, n: Name) {
    SameAt(start.store, p.store, n) && SameAt(start.known, p.known, n)
  }

  predicate Consistent(p: Progress) {
    forall m <- p.known :: m in p.store && p.known[m] == p.store[m]
  }

  lemma EntryStores(ch: Channel, timestamp: string, start: Progress, p: Progress, e: Entry, fate: Fate,
                    earlier: Option<Spec>)
    requires Fine(ApplyEntry(ch, timestamp, p, e, fate))
    requires Consistent(start) && p.known.Keys == start.known.Keys
    requires if earlier.None? then Untouched(start, p, e.name)
              else StoredAt(ch, timestamp, earlier.value, start, p, e.name)
    ensures StoredAt(ch, timestamp, e.spec, start, ApplyEntry(ch, timestamp, p, e, fate), e.name)
  {
  }

  lemma EntryKeeps(ch: Channel, timestamp: string, p: Progress, e: Entry, fate: Fate, n: Name)
    requires n != e.name
    ensures Untouched(p, ApplyEntry(ch, timestamp, p, e, fate), n)
  {
  }

  /** Without errors, every listed name holds its last entry. */
  lemma {:induction false} ListedStored(ch: Channel, timestamp: string, start: Progress, entries: seq<Entry>,
                                        fates: seq<Fate>, n: Name, spec: Spec)
    requires |entries| <= |fates| && LastSpec(entries, n) == Some(spec)
    requires Fine(ApplyAll(ch, timestamp, start, entries, fates)) && Consistent(start)
    ensures StoredAt(ch, timestamp, spec, start, ApplyAll(ch, timestamp, start, entries, fates), n)
  {
    var last := |entries| - 1;
    var front, e := entries[..last], entries[last];
    var p := ApplyAll(ch, timestamp, start, front, fates);
    KnownKeys(ch, timestamp, start, front, fates);
    if LastSpec(front, n).Some? {
      ListedStored(ch, timestamp, start, front, fates, n, LastSpec(front, n).value);
    } else {
      UnlistedKept(ch, timestamp, start, front, fates, n);
    }
    if e.name == n {
      EntryStores(ch, timestamp, start, p, e, fates[last], LastSpec(front, n));
    } else {
      EntryKeeps(ch, timestamp, p, e, fates[last], n);
    }
  }

  lemma {:induction false} AbortStays(ch: Channel, timestamp: string, start: Progress, entries: seq<Entry>,
                                      fates: seq<Fate>, i: nat, k: nat)
    requires i <= k <= |entries| <= |fates|
    requires ApplyAll(ch, timestamp, start, entries[..i], fates).aborted
    ensures ApplyAll(ch, timestamp, start, entries[..k], fates) == ApplyAll(ch, timestamp, start, entries[..i], fates)
  {
    if i < k {
      AbortStays(ch, timestamp, start, entries, fates, i, k - 1);
      assert entries[..k][..k - 1] == entries[..k - 1];
    }
  }

  lemma AbortKeepsOrphans(ch: Channel, timestamp: string, start: Progress, entries: seq<Entry>,
                          fates: seq<Fate>, i: nat)
    requires i < |entries| <= |fates|
    requires !ApplyAll(ch, timestamp, start, entries[..i], fates).aborted && Rewrite(ch, entries[i].spec).None?
    ensures ApplyAll(ch, timestamp, start, entries, fates).aborted
    ensures NoOrphanTouched(entries, start.store, ApplyAll(ch, timestamp, start, entries[..i], fates).store)
  {
    assert entries[..i + 1][..i] == entries[..i] && entries[..|entries|] == entries;
    AbortStays(ch, timestamp, start, entries, fates, i + 1, |entries|);
    forall n: Name | LastSpec(entries, n).None?
      ensures SameAt(start.store, ApplyAll(ch, timestamp, start, entries[..i], fates).store, n)
    {
      PrefixUnlisted(entries, n, i);
      UnlistedKept(ch, timestamp, start, entries[..i], fates, n);
    }
  }

  lemma {:induction false} PrefixUnlisted(entries: seq<Entry>, n: Name, i: nat)
    requires i <= |entries| && LastSpec(entries, n).None?
    ensures LastSpec(entries[..i], n).None?
  {
    if i < |entries| {
      PrefixUnlisted(entries[..|entries| - 1], n, i);
      assert entries[..|entries| - 1][..i] == entries[..i];
    } else {
      assert entries[..i] == entries;
    }
  }

  /** A name is listed exactly when some entry carries it. */
  lemma {:induction false} ListedIff(entries: seq<Entry>, n: Name)
    ensures LastSpec(entries, n).Some? <==> exists k :: 0 <= k < |entries| && entries[k].name == n
  {
    if entries != [] {
      var last := |entries| - 1;
      ListedIff(entries[..last], n);
      if LastSpec(entries[..last], n).Some? {
        var k :| 0 <= k < last && entries[..last][k].name == n;
        assert entries[k].name == n;
      }
      if k :| 0 <= k < |entries| && entries[k].name == n {
        if k < last {
          assert entries[..last][k].name == n;
        }
      }
    }
  }

  lemma {:induction false} StoreGrows(ch: Channel, timestamp: string, start: Progress, entries: seq<Entry>,
                                      fates: seq<Fate>)
    requires |entries| <= |fates|
    ensures start.store.Keys <= ApplyAll(ch, timestamp, start, entries, fates).store.Keys
  {
    if entries != [] {
      StoreGrows(ch, timestamp, start, entries[..|entries| - 1], fates);
    }
  }

  /** An entry goes through: its call is answered, it can be rewritten, and its name is known or new. */
  predicate EntryOk(ch: Channel, start: Progress, entries: seq<Entry>, fates: seq<Fate>, i: nat)
    requires i < |entries| <= |fates|
  {
    && fates[i] == Delivered && Rewrite(ch, entries[i].spec).Some?
    && (entries[i].name in start.known
        || (entries[i].name !in start.store && forall k :: 0 <= k < i ==> entries[k].name != entries[i].name))
  }

  predicate AllOk(ch: Channel, start: Progress, entries: seq<Entry>, fates: seq<Fate>, upTo: nat)
    requires upTo <= |entries| <= |fates|
  {
    forall i :: 0 <= i < upTo ==> EntryOk(ch, start, entries, fates, i)
  }

  /** The loop has met no error in the first entries. */
  predicate FineUpTo(ch: Channel, timestamp: string, start: Progress, entries: seq<Entry>, fates: seq<Fate>, upTo: nat)
    requires upTo <= |entries| <= |fates|
  {
    Fine(ApplyAll(ch, timestamp, start, entries[..upTo], fates))
  }

  /** After an error-free prefix, the next entry succeeds if and only if it goes through. */
  lemma NextFineIff(ch: Channel, timestamp: string, start: Progress, entries: seq<Entry>, fates: seq<Fate>, i: nat)
    requires i < |entries| <= |fates|
    requires Consistent(start) && FineUpTo(ch, timestamp, start, entries, fates, i)
    ensures
      var p := ApplyAll(ch, timestamp, start, entries[..i], fates);
      Fine(ApplyEntry(ch, timestamp, p, entries[i], fates[i])) <==> EntryOk(ch, start, entries, fates, i)
  {
    var front, n := entries[..i], entries[i].name;
    KnownKeys(ch, timestamp, start, front, fates);
    ListedIff(front, n);
    if LastSpec(front, n).Some? {
      ListedStored(ch, timestamp, start, front, fates, n, LastSpec(front, n).value);
      var k :| 0 <= k < i && front[k].name == n;
      assert entries[k].name == n;
    } else {
      UnlistedKept(ch, timestamp, start, front, fates, n);
      forall k | 0 <= k < i ensures entries[k].name != n {
        assert front[k] == entries[k];
      }
    }
  }

  lemma FineSnoc(ch: Channel, timestamp: string, start: Progress, entries: seq<Entry>, fates: seq<Fate>, upTo: nat)
    requires upTo < |entries| <= |fates|
    ensures
      var p := ApplyAll(ch, timestamp, start, entries[..upTo], fates);
      FineUpTo(ch, timestamp, start, entries, fates, upTo + 1)
      <==> (&& FineUpTo(ch, timestamp, start, entries, fates, upTo)
            && Fine(ApplyEntry(ch, timestamp, p, entries[upTo], fates[upTo])))
  {
    assert entries[..upTo + 1][..upTo] == entries[..upTo];
  }

  lemma AllOkSnoc(ch: Channel, start: Progress, entries: seq<Entry>, fates: seq<Fate>, upTo: nat)
    requires upTo < |entries| <= |fates|
    ensures AllOk(ch, start, entries, fates, upTo + 1)
       <==> AllOk(ch, start, entries, fates, upTo) && EntryOk(ch, start, entries, fates, upTo)
  {
  }

  /** The loop reports no error over a prefix of the list if and only if every entry of it goes through. */
  lemma {:induction false} FineIff(ch: Channel, timestamp: string, start: Progress, entries: seq<Entry>,
                                   fates: seq<Fate>, upTo: nat)
    requires upTo <= |entries| <= |fates| && Consistent(start) && Fine(start)
    ensures FineUpTo(ch, timestamp, start, entries, fates, upTo)
       <==> AllOk(ch, start, entries, fates, upTo)
  {
    if upTo > 0 {
      FineIff(ch, timestamp, start, entries, fates, upTo - 1);
      FineSnoc(ch, timestamp, start, entries, fates, upTo - 1);
      AllOkSnoc(ch, start, entries, fates, upTo - 1);
      if FineUpTo(ch, timestamp, start, entries, fates, upTo - 1) {
        NextFineIff(ch, timestamp, start, entries, fates, upTo - 1);
      }
    }
  }

  /** Every call that flags an orphan, or deletes it, is answered. */
  predicate FlagsAnswered(ch: Channel, timestamp: string, known: Store, patch: Name -> Fate, delete: Name -> Fate) {
    forall n <- known :: NeedsMark(known[n], timestamp) ==>
      patch(n) == Delivered && (ch.deleteOrphans ==> delete(n) == Delivered)
  }

  /** `after` is `p.store` with exactly the unstamped known versions marked. */
  predicate FlaggedFrom(ch: Channel, timestamp: string, p: Progress, after: Store) {
    && after.Keys == p.store.Keys && p.known.Keys <= after.Keys
    && (forall m <- after :: !(m in p.known && NeedsMark(p.known[m], timestamp)) ==> after[m] == p.store[m])
    && (forall m <- p.known :: NeedsMark(p.known[m], timestamp) ==> after[m] == Marked(ch, p.store[m]))
  }

  lemma ListedExact(ch: Channel, timestamp: string, start: Progress, p: Progress, spec: Spec, after: Store, n: Name)
    requires StoredAt(ch, timestamp, spec, start, p, n) && p.known.Keys == start.known.Keys
    requires FlaggedFrom(ch, timestamp, p, after)
    ensures ListedAt(ch, timestamp, spec, start.store, after, n)
  {
  }

  lemma UnlistedExact(ch: Channel, timestamp: string, start: Progress, p: Progress, after: Store, n: Name)
    requires Untouched(start, p, n) && FlaggedFrom(ch, timestamp, p, after) && Consistent(start)
    ensures
      if n in start.known && NeedsMark(start.known[n], timestamp)
      then n in after && after[n] == Marked(ch, start.store[n])
      else SameAt(start.store, after, n)
  {
  }

  /**
   * After an error-free loop and a complete flagging a name is as an exact sync leaves it, if and
   * only if it is not an orphan that needs a mark and could not be listed or already carries the
   * new timestamp.
   */
  lemma Exactness(ch: Channel, timestamp: string, store: Store, listed: bool, entries: seq<Entry>, fates: seq<Fate>,
                  after: Store, n: Name)
    requires |entries| <= |fates| && Fine(ApplyAll(ch, timestamp, Start(store, ch, listed), entries, fates))
    requires FlaggedFrom(ch, timestamp, ApplyAll(ch, timestamp, Start(store, ch, listed), entries, fates), after)
    ensures ExactAt(ch, timestamp, entries, store, after, n) <==> Flaggable(ch, timestamp, entries, store, listed, n)
  {
    var start := Start(store, ch, listed);
    var p := ApplyAll(ch, timestamp, start, entries, fates);
    if LastSpec(entries, n).Some? {
      var spec := LastSpec(entries, n).value;
      KnownKeys(ch, timestamp, start, entries, fates);
      ListedStored(ch, timestamp, start, entries, fates, n, spec);
      ListedExact(ch, timestamp, start, p, spec, after, n);
    } else {
      UnlistedKept(ch, timestamp, start, entries, fates, n);
      UnlistedExact(ch, timestamp, start, p, after, n);
    }
  }

  /** Without known versions an error-free loop only creates. */
  lemma AddedNew(ch: Channel, timestamp: string, start: Progress, entries: seq<Entry>, fates: seq<Fate>, n: Name)
    requires |entries| <= |fates| && start.known == map[] && Fine(start)
    requires Fine(ApplyAll(ch, timestamp, start, entries, fates))
    ensures AddedAt(ch, timestamp, entries, start.store, ApplyAll(ch, timestamp, start, entries, fates).store, n)
  {
    if LastSpec(entries, n).Some? {
      ListedStored(ch, timestamp, start, entries, fates, n, LastSpec(entries, n).value);
      ListedIff(entries, n);
      assert entries[..|entries|] == entries;
      FineIff(ch, timestamp, start, entries, fates, |entries|);
      var k :| 0 <= k < |entries| && entries[k].name == n;
      assert EntryOk(ch, start, entries, fates, k);
    } else {
      UnlistedKept(ch, timestamp, start, entries, fates, n);
    }
  }

  /** An orphan that already carries the new timestamp keeps its place unmarked: an empty list then is not exact. */
  lemma StampedOrphanStays(ch: Channel, timestamp: string) returns (n: Name, store: Store)
    ensures
      var p := ApplyAll(ch, timestamp, Start(store, ch, true), [], []);
      && Fine(p) && FlaggedFrom(ch, timestamp, p, store) && n in store && LabelledWith(store[n], ch.name)
      && !ExactAt(ch, timestamp, [], store, store, n)
  {
    n := "orphan";
    var v := Version(Spec(OtherImage, map[], None, ""), ch.name, LabelsOf(ch), SyncedAt(timestamp), false);
    store := map[n := v];
    assert NO_LONGER_SYNCED !in store[n].annotations && NO_LONGER_SYNCED in Marked(ch, v).annotations;
  }

  /** An orphan of a sync that cannot list the stored versions stays unmarked, and the sync reports success. */
  lemma UnlistedOrphanStays(ch: Channel, timestamp: string) returns (n: Name, store: Store)
    ensures
      var p := ApplyAll(ch, timestamp, Start(store, ch, false), [], []);
      && Fine(p) && FlaggedFrom(ch, timestamp, p, store) && n in store && LabelledWith(store[n], ch.name)
      && NeedsMark(store[n], timestamp) && !ExactAt(ch, timestamp, [], store, store, n)
  {
    n := "orphan";
    var v := Version(Spec(OtherImage, map[], None, ""), ch.name, LabelsOf(ch), map[], false);
    store := map[n := v];
    assert NO_LONGER_SYNCED !in store[n].annotations && NO_LONGER_SYNCED in Marked(ch, v).annotations;
  }

  class Syncer {
    var store: Store

    constructor (store: Store)
      ensures this.store == store
    {
      this.store := store;
    }

    /** Flags one version as orphan and requests its deletion if the channel asks for it. */
    method DeprecateVersion(ch: Channel, n: Name, patch: Fate, delete: Fate) returns (err: bool)
      requires n in store
      modifies this
      ensures store.Keys == old(store).Keys && forall m <- store :: m != n ==> store[m] == old(store)[m]
      ensures !err <==> patch == Delivered && (ch.deleteOrphans ==> delete == Delivered)
      ensures store[n] == if patch == Lost then old(store)[n]
                          else Marked(ch.(deleteOrphans := ch.deleteOrphans && patch == Delivered && delete != Lost),
                                      old(store)[n])
    {
      if patch != Lost {
        var v := store[n];
        store := store[n := v.(annotations := v.annotations[NO_LONGER_SYNCED := NO_LONGER_SYNCED_VALUE])];
      }
      if patch != Delivered {
        return true;
      }
      if ch.deleteOrphans {
        if delete != Lost {
          store := store[n := store[n].(deleting := true)];
        }
        return delete != Delivered;
      }
      return false;
    }

    /**
     * What a disabled channel does: it marks all its versions, up to the first call that is not answered;
     * when they cannot be listed it marks none and reports success.
     */
    method DeprecateAll(ch: Channel, listed: bool, patch: Name -> Fate, delete: Name -> Fate) returns (err: bool)
      modifies this
      ensures !listed ==> store == old(store)
      ensures store.Keys == old(store).Keys
      ensures forall n <- store :: !LabelledWith(old(store)[n], ch.name) ==> store[n] == old(store)[n]
      ensures !err && listed ==>
                forall n <- store :: LabelledWith(old(store)[n], ch.name) ==> store[n] == Marked(ch, old(store)[n])
      ensures !err ==>
                forall n <- store :: LabelledWith(old(store)[n], ch.name) ==>
                  (store[n] == Marked(ch, old(store)[n]) <==> listed || Marked(ch, old(store)[n]) == old(store)[n])
      ensures !err <==> !listed || forall n <- Labelled(old(store), ch.name) ::
                patch(n) == Delivered && (ch.deleteOrphans ==> delete(n) == Delivered)
    {
      var known := if listed then Labelled(store, ch.name) else map[];
      var rest := known.Keys;
      while rest != {}
        invariant rest <= known.Keys && store.Keys == old(store).Keys
        invariant forall n <- store :: n in rest || n !in known ==> store[n] == old(store)[n]
        invariant forall n <- known.Keys - rest ::
                      && store[n] == Marked(ch, old(store)[n])
                      && patch(n) == Delivered && (ch.deleteOrphans ==> delete(n) == Delivered)
        decreases rest
      {
        var n :| n in rest;
        rest := rest - {n};
        var failed := DeprecateVersion(ch, n, patch(n), delete(n));
        if failed {
          return true;
        }
      }
      return false;
    }

    /** Marks, in some order, every known version that the sync did not stamp. */
    method FlagOrphans(ch: Channel, timestamp: string, known: Store, patch: Name -> Fate, delete: Name -> Fate)
      returns (err: bool)
      requires known.Keys <= store.Keys
      modifies this
      ensures store.Keys == old(store).Keys
      ensures forall n <- store :: !(n in known && NeedsMark(known[n], timestamp)) ==> store[n] == old(store)[n]
      ensures !err ==> forall n <- known :: NeedsMark(known[n], timestamp) ==> store[n] == Marked(ch, old(store)[n])
      ensures !err <==> FlagsAnswered(ch, timestamp, known, patch, delete)
    {
      var rest := known.Keys;
      while rest != {}
        invariant rest <= known.Keys && store.Keys == old(store).Keys
        invariant forall n <- store :: n in rest || !(n in known && NeedsMark(known[n], timestamp)) ==>
                  store[n] == old(store)[n]
        invariant forall n <- known.Keys - rest :: NeedsMark(known[n], timestamp) ==>
                      && store[n] == Marked(ch, old(store)[n])
                      && patch(n) == Delivered && (ch.deleteOrphans ==> delete(n) == Delivered)
        decreases rest
      {
        var n :| n in rest;
        rest := rest - {n};
        if NeedsMark(known[n], timestamp) {
          var failed := DeprecateVersion(ch, n, patch(n), delete(n));
          if failed {
            return true;
          }
        }
      }
      return false;
    }

    /** The spec to store for an entry: upgrade container and registry of the channel, if it has them. */
    method RewriteEntry(ch: Channel, listed: Spec) returns (spec: Option<Spec>)
      ensures spec == Rewrite(ch, listed)
    {
      var rewritten := listed;
      if ch.upgradeContainer.Some? {
        rewritten := rewritten.(upgradeContainer := ch.upgradeContainer);
      }
      if ch.registry != "" {
        var field;
        match listed.kind {
          case ContainerImage => field := "upgradeImage";
          case IsoImage => field := "uri";
          case OtherImage => return None;
        }
        var raw := if field in rewritten.metadata then rewritten.metadata[field] else "";
        rewritten := rewritten.(metadata := rewritten.metadata[field := Concatenate(ch.registry, raw)]);
      }
      return Some(rewritten);
    }

    /**
     * The sync itself. `entries` is absent when the channel's data does not parse, `listed` is
     * false when the stored versions cannot be listed.
     */
    method CreateManagedOSVersions(ch: Channel, entries: Option<seq<Entry>>, timestamp: string, listed: bool,
                                   fates: seq<Fate>, patch: Name -> Fate, delete: Name -> Fate)
      returns (err: bool)
      requires entries.Some? ==> |entries.value| <= |fates|
      modifies this
      ensures entries.None? ==> err && store == old(store)
      ensures entries.Some? ==>
                var p := ApplyAll(ch, timestamp, Start(old(store), ch, listed), entries.value, fates);
                && (!err <==> Fine(p) && FlagsAnswered(ch, timestamp, p.known, patch, delete))
                && (!Fine(p) ==> NoOrphanTouched(entries.value, old(store), store))
                && (Fine(p) <==> AllOk(ch, Start(old(store), ch, listed), entries.value, fates, |entries.value|))
                && (!err ==> forall n: Name ::
                      ExactAt(ch, timestamp, entries.value, old(store), store, n)
                      <==> Flaggable(ch, timestamp, entries.value, old(store), listed, n))
                && (!err && !listed ==> forall n: Name :: AddedAt(ch, timestamp, entries.value, old(store), store, n))
    {
      if entries.None? {
        return true;
      }
      var known := if listed then Labelled(store, ch.name) else map[];
      var failed := false;
      ghost var start := Start(store, ch, listed);
      for i := 0 to |entries.value|
        invariant Progress(store, known, failed, false) == ApplyAll(ch, timestamp, start, entries.value[..i], fates)
      {
        assert entries.value[..i + 1][..i] == entries.value[..i];
        var e := entries.value[i];
        var rewritten := RewriteEntry(ch, e.spec);
        if rewritten.None? {
          AbortKeepsOrphans(ch, timestamp, start, entries.value, fates, i);
          assert !EntryOk(ch, start, entries.value, fates, i);
          return true;
        }
        var spec := rewritten.value;
        if e.name in known {
          var patched := known[e.name].(spec := spec, labels := LabelsOf(ch), annotations := SyncedAt(timestamp));
          known := known[e.name := patched];
          if fates[i] != Lost {
            store := store[e.name := patched];
          }
          failed := failed || fates[i] != Delivered;
        } else if fates[i] == Lost || e.name in store {
          failed := true;
        } else {
          store := store[e.name := Version(spec, ch.name, LabelsOf(ch), SyncedAt(timestamp), false)];
          failed := failed || fates[i] != Delivered;
        }
      }
      assert entries.value[..|entries.value|] == entries.value;
      forall n: Name | LastSpec(entries.value, n).None? ensures SameAt(old(store), store, n) {
        UnlistedKept(ch, timestamp, start, entries.value, fates, n);
      }
      FineIff(ch, timestamp, start, entries.value, fates, |entries.value|);
      if failed {
        return true;
      }
      KnownKeys(ch, timestamp, start, entries.value, fates);
      StoreGrows(ch, timestamp, start, entries.value, fates);
      err := FlagOrphans(ch, timestamp, known, patch, delete);
      if !err {
        forall n: Name
          ensures ExactAt(ch, timestamp, entries.value, old(store), store, n)
             <==> Flaggable(ch, timestamp, entries.value, old(store), listed, n)
          ensures !listed ==> AddedAt(ch, timestamp, entries.value, old(store), store, n)
        {
          Exactness(ch, timestamp, old(store), listed, entries.value, fates, store, n);
          if !listed {
            AddedNew(ch, timestamp, start, entries.value, fates, n);
          }
        }
      }
    }
  }
}
