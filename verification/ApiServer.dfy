/**
 * The API server as the reconcilers see it: a version history for each object.
 * Reads may return any past version; an optimistic-lock patch is taken only
 * when its base is the newest version of an object that still exists.
 */
module ApiServer {
  import opened Wrappers
  import opened Objects

  /** One item of a cached list: some version of some inventory. */
  datatype Read = Read(inv: Name, version: nat)

  /** A bootstrap plan written by selector `sel` into plan secret `secret`. */
  datatype BootWrite = BootWrite(sel: Name, secret: Name)

  type Histories<T> = map<Name, seq<T>>

  predicate Readable(invs: Histories<Inventory>, listing: seq<Read>) {
    forall r <- listing :: r.inv in invs && r.version < |invs[r.inv]|
  }

  function ItemsOf(invs: Histories<Inventory>, listing: seq<Read>): (items: seq<Inventory>)
    requires Readable(invs, listing)
    ensures |items| == |listing|
    ensures forall i :: 0 <= i < |items| ==> items[i] == invs[listing[i].inv][listing[i].version]
  {
    seq(|listing|, i requires 0 <= i < |listing| => invs[listing[i].inv][listing[i].version])
  }

  /** A read by name: nothing when the name is unset, unknown or not yet cached. */
  function Get<T>(objects: Histories<T>, name: Option<Name>, version: Option<nat>): Option<T> {
    if name.Some? && version.Some? && name.value in objects && version.value < |objects[name.value]|
    then Some(objects[name.value][version.value])
    else None
  }

  /** Whether a locked patch reaches the newest version of a stored object. */
  predicate Lands(length: nat, base: nat, exists_: bool, fate: Fate) {
    exists_ && fate != Lost && base == length - 1
  }

  /** A locked patch adds a version unless it changes nothing. */
  function Patched<T(==)>(history: seq<T>, base: nat, obj: T, exists_: bool, fate: Fate): seq<T>
    requires base < |history|
  {
    if Lands(|history|, base, exists_, fate) && obj != history[base] then history + [obj] else history
  }

  class Server {
    var invs: Histories<Inventory>
    var gone: set<Name>
    var bootWrites: seq<BootWrite>

    constructor (invs: Histories<Inventory>, gone: set<Name>, bootWrites: seq<BootWrite>)
      ensures this.invs == invs && this.gone == gone && this.bootWrites == bootWrites
    {
      this.invs, this.gone, this.bootWrites := invs, gone, bootWrites;
    }

    /** The optimistic-lock patch of an inventory; `ok` is the answer the client sees. */
    method PatchInventory(r: Read, obj: Inventory, fate: Fate) returns (ok: bool)
      requires Readable(invs, [r])
      modifies `invs
      ensures invs == old(invs)[r.inv := Patched(old(invs)[r.inv], r.version, obj, r.inv !in gone, fate)]
      ensures ok == (Lands(|old(invs)[r.inv]|, r.version, r.inv !in gone, fate) && fate == Delivered)
    {
      assert r in [r];
      var history := invs[r.inv];
      if r.inv in gone || fate == Lost || r.version != |history| - 1 {
        invs := invs[r.inv := history];
        return false;
      }
      if obj != history[r.version] {
        history := history + [obj];
      }
      invs := invs[r.inv := history];
      ok := fate == Delivered;
    }

    /** The plain (unlocked) patch that puts a bootstrap plan into a plan secret. */
    method PatchPlanSecret(sel: Name, secret: Name, fate: Fate) returns (ok: bool)
      modifies `bootWrites
      ensures bootWrites == old(bootWrites) + (if fate == Lost then [] else [BootWrite(sel, secret)])
      ensures ok == (fate == Delivered)
    {
      if fate != Lost {
        bootWrites := bootWrites + [BootWrite(sel, secret)];
      }
      ok := fate == Delivered;
    }
  }
}
