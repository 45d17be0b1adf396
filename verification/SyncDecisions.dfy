/** What a sync leaves of a stored version, field by field. */
module SyncDecisions {
  import opened Wrappers
  import opened Objects
  import opened ChannelSync

  /** Entry `i` is the last one with its name. */
  predicate LastAt(entries: seq<Entry>, i: nat, n: Name) {
    i < |entries| && entries[i].name == n && forall j :: i < j < |entries| ==> entries[j].name != n
  }

  lemma {:induction false} LastSpecIs(entries: seq<Entry>, n: Name)
    ensures LastSpec(entries, n).None? <==> forall e <- entries :: e.name != n
    ensures forall i: nat :: LastAt(entries, i, n) ==> LastSpec(entries, n) == Some(entries[i].spec)
  {
    if entries != [] {
      var last := |entries| - 1;
      var front := entries[..last];
      LastSpecIs(front, n);
      forall i: nat | LastAt(entries, i, n) ensures LastSpec(entries, n) == Some(entries[i].spec) {
        assert i < last ==> entries[last].name != n && LastAt(front, i, n);
      }
      assert forall e <- entries :: e in front || e == entries[last];
    }
  }

  /** The version carries the label of the channel. */
  predicate Belongs(v: Version, ch: Channel) {
    "elemental.cattle.io/channel" in v.labels && v.labels["elemental.cattle.io/channel"] == ch.name
  }

  /** The version carries the timestamp of this sync already. */
  predicate Stamped(v: Version, timestamp: string) {
    && "elemental.cattle.io/channel-last-sync" in v.annotations
    && v.annotations["elemental.cattle.io/channel-last-sync"] == timestamp
  }

  /** Only the mark is added, and deletion is requested exactly when the channel wants its orphans deleted. */
  predicate Orphaned(ch: Channel, before: Version, after: Version) {
    && after == before.(annotations := after.annotations, deleting := after.deleting)
    && "elemental.cattle.io/channel-no-longer-in-sync" in after.annotations
    && after.annotations["elemental.cattle.io/channel-no-longer-in-sync"] == "true"
    && after.annotations.Keys == before.annotations.Keys + {"elemental.cattle.io/channel-no-longer-in-sync"}
    && (forall k <- before.annotations :: k != "elemental.cattle.io/channel-no-longer-in-sync" ==>
          after.annotations[k] == before.annotations[k])
    && (after.deleting <==> before.deleting || ch.deleteOrphans)
  }

  /** The version is the channel's own, with its label and the timestamp of this sync and nothing besides. */
  predicate Current(ch: Channel, timestamp: string, v: Version) {
    && v.labels == map["elemental.cattle.io/channel" := ch.name]
    && v.annotations == map["elemental.cattle.io/channel-last-sync" := timestamp]
  }

  lemma MarkedIs(ch: Channel, v: Version)
    ensures Orphaned(ch, v, Marked(ch, v))
  {
  }

  lemma BelongsIs(store: Store, ch: Channel, timestamp: string, n: Name)
    ensures n in Start(store, ch, true).known <==> n in store && Belongs(store[n], ch)
    ensures n in Start(store, ch, true).known ==> Start(store, ch, true).known[n] == store[n]
    ensures n in store ==> (NeedsMark(store[n], timestamp) <==> !Stamped(store[n], timestamp))
  {
  }

  /** An error-free sync that could list the stored versions leaves every listed name current. */
  lemma ListedIsCurrent(ch: Channel, timestamp: string, store: Store, entries: seq<Entry>, fates: seq<Fate>,
                        after: Store, n: Name)
    requires |entries| <= |fates| && Fine(ApplyAll(ch, timestamp, Start(store, ch, true), entries, fates))
    requires FlaggedFrom(ch, timestamp, ApplyAll(ch, timestamp, Start(store, ch, true), entries, fates), after)
    requires exists e <- entries :: e.name == n
    ensures n in after && Current(ch, timestamp, after[n])
  {
    LastSpecIs(entries, n);
    Exactness(ch, timestamp, store, true, entries, fates, after, n);
  }

  /** It leaves a name that is not listed orphaned if the channel owns it unstamped, and else as it was. */
  lemma UnlistedIsOrphaned(ch: Channel, timestamp: string, store: Store, entries: seq<Entry>, fates: seq<Fate>,
                           after: Store, n: Name)
    requires |entries| <= |fates| && Fine(ApplyAll(ch, timestamp, Start(store, ch, true), entries, fates))
    requires FlaggedFrom(ch, timestamp, ApplyAll(ch, timestamp, Start(store, ch, true), entries, fates), after)
    requires forall e <- entries :: e.name != n
    ensures
      if n in store && Belongs(store[n], ch) && !Stamped(store[n], timestamp)
      then n in after && Orphaned(ch, store[n], after[n])
      else SameAt(store, after, n)
  {
    LastSpecIs(entries, n);
    BelongsIs(store, ch, timestamp, n);
    var start := Start(store, ch, true);
    UnlistedKept(ch, timestamp, start, entries, fates, n);
    UnlistedExact(ch, timestamp, start, ApplyAll(ch, timestamp, start, entries, fates), after, n);
    if n in store {
      MarkedIs(ch, store[n]);
    }
  }

  /** What is stored for a listed name is its last entry, rewritten for the registry and container of the channel. */
  lemma LastEntryWins(ch: Channel, timestamp: string, store: Store, entries: seq<Entry>, fates: seq<Fate>, after: Store,
                      i: nat)
    requires |entries| <= |fates| && Fine(ApplyAll(ch, timestamp, Start(store, ch, true), entries, fates))
    requires FlaggedFrom(ch, timestamp, ApplyAll(ch, timestamp, Start(store, ch, true), entries, fates), after)
    requires i < |entries| && LastAt(entries, i, entries[i].name)
    ensures
      var n := entries[i].name;
      && n in after && Rewrite(ch, entries[i].spec) == Some(after[n].spec)
      && after[n].owner == (if n in store then store[n].owner else ch.name)
  {
    var n := entries[i].name;
    LastSpecIs(entries, n);
    Exactness(ch, timestamp, store, true, entries, fates, after, n);
  }

  /** Without a registry an entry of any type is stored as it is listed, but for the channel's upgrade container. */
  lemma PlainStays(ch: Channel, spec: Spec)
    requires ch.registry == ""
    ensures
      var after := Rewrite(ch, spec);
      && after.Some? && after.value.kind == spec.kind && after.value.metadata == spec.metadata
      && after.value.other == spec.other
      && after.value.upgradeContainer == (if ch.upgradeContainer.Some? then ch.upgradeContainer
                                          else spec.upgradeContainer)
  {
  }
}
