/** `LoadoutStorage` of next/storage.js: the saved loadouts, kept twice in memory —
    once as the records written to the browser's storage (`_stored`) and once as a
    cache of the loadouts read back from them (`_loadouts`) — both under the key
    `vehicleName + "." + loadoutName`. The loadout type and the two codec
    functions are parameters: a loadout is whatever `serialize` reads and
    `deserialize` builds, and either of them may throw (an `Err`). */
module Storage {
  import opened Wrappers

  /** `{loadoutName, vehicleName, serialized}` as written to `_stored`. */
  datatype StoredLoadout = StoredLoadout(loadoutName: string, vehicleName: string, serialized: string)

  /** `_make_key(vehicleName, loadoutName)` */
  function MakeKey(vehicleName: string, loadoutName: string): (k: string)
    ensures |k| == |vehicleName| + 1 + |loadoutName|
    ensures k[..|vehicleName|] == vehicleName && k[|vehicleName|] == '.' && k[|vehicleName| + 1..] == loadoutName
  {
    vehicleName + "." + loadoutName
  }

  /** Vehicle names contain no `.`, so a key names one vehicle and one loadout:
      different pairs never share a slot, whatever the loadout name holds. */
  lemma KeyInjective(v1: string, l1: string, v2: string, l2: string)
    requires '.' !in v1 && '.' !in v2
    requires MakeKey(v1, l1) == MakeKey(v2, l2)
    ensures v1 == v2 && l1 == l2
  {
    var k := MakeKey(v1, l1);
    if |v1| != |v2| {
      assert false;
    }
    assert v1 == k[..|v1|] == v2;
    assert l1 == k[|v1| + 1..] == l2;
  }

  /** With a dot in a vehicle name two different pairs share one key. */
  lemma KeyCollision()
    ensures MakeKey("a.b", "c") == MakeKey("a", "b.c")
  {
  }

  /** What `deserialize` makes of one stored record: the loadout, or the error it throws. */
  function Read<L>(deserialize: (string, string, string) -> Result<L>, s: StoredLoadout): Result<L>
  {
    deserialize(s.serialized, s.vehicleName, s.loadoutName)
  }

  class LoadoutStorage<L> {
    /** `_stored` */
    var stored: map<string, StoredLoadout>
    /** `_loadouts` */
    var loadouts: map<string, L>
    /** `serialize(vehicleLoadout)`, which throws when the loadout cannot be written */
    const serialize: L -> Result<string>
    /** `deserialize(serialized, vehicleName, loadoutName)`, which throws on a malformed record */
    const deserialize: (string, string, string) -> Result<L>

    /** Every cached loadout is the one its stored record deserializes to, and nothing else is cached. */
    ghost predicate Valid()
      reads this
    {
      && stored.Keys == loadouts.Keys
      && forall k :: k in stored ==> Read(deserialize, stored[k]) == Ok(loadouts[k])
    }

    /** The body of the constructor up to its loop: `_stored` parsed from the browser's
        storage (given here as `previous`) and an empty `_loadouts`. */
    constructor(previous: map<string, StoredLoadout>,
                serialize: L -> Result<string>, deserialize: (string, string, string) -> Result<L>)
      ensures stored == previous && loadouts == map[]
      ensures this.serialize == serialize && this.deserialize == deserialize
    {
      this.serialize := serialize;
      this.deserialize := deserialize;
      stored := previous;
      loadouts := map[];
    }

    /** `new LoadoutStorage()`: the constructor, whose loop caches every stored record as the
        loadout it deserializes to. A record that `deserialize` rejects makes its error escape
        from `new`, and no storage object is obtained. */
    static method Open(previous: map<string, StoredLoadout>,
                       serialize: L -> Result<string>, deserialize: (string, string, string) -> Result<L>)
      returns (r: Result<LoadoutStorage<L>>)
      ensures r.Ok? <==> forall k :: k in previous ==> Read(deserialize, previous[k]).Ok?
      ensures r.Ok? ==> fresh(r.value) && r.value.Valid() && r.value.stored == previous
      ensures r.Ok? ==> r.value.serialize == serialize && r.value.deserialize == deserialize
      ensures r.Err? ==> exists k :: k in previous && Read(deserialize, previous[k]) == Err(r.error)
    {
      var s := new LoadoutStorage(previous, serialize, deserialize);
      var todo := previous.Keys;
      while todo != {}
        invariant todo <= previous.Keys
        invariant s.stored == previous && s.serialize == serialize && s.deserialize == deserialize
        invariant s.loadouts.Keys == previous.Keys - todo
        invariant forall k :: k in s.loadouts ==> Read(deserialize, previous[k]) == Ok(s.loadouts[k])
        decreases todo
      {
        var key :| key in todo;
        var value := previous[key];
        var loadout := deserialize(value.serialized, value.vehicleName, value.loadoutName);
        if loadout.Err? {
          return Err(loadout.error);
        }
        s.loadouts := s.loadouts[key := loadout.value];
        todo := todo - {key};
      }
      return Ok(s);
    }

    /** `get(vehicleName, loadoutName)`: the cached loadout, None for `undefined`. In a
        consistent storage it is there exactly when the key is stored, and it is what the
        stored record deserializes to. */
    function Get(vehicleName: string, loadoutName: string): (r: Option<L>)
      reads this
      ensures r.Some? <==> MakeKey(vehicleName, loadoutName) in loadouts
      ensures Valid() ==> (r.Some? <==> MakeKey(vehicleName, loadoutName) in stored)
      ensures Valid() && r.Some? ==> Read(deserialize, stored[MakeKey(vehicleName, loadoutName)]) == Ok(r.value)
    {
      var key := MakeKey(vehicleName, loadoutName);
      if key in loadouts then Some(loadouts[key]) else None
    }

    /** `set(vehicleName, loadoutName, vehicleLoadout)`: a loadout is stored serialized and a
        fresh copy read back from that text is cached; None (a falsy loadout) removes the
        key from both maps. Every other key keeps its record. A throw from `serialize`
        leaves both maps as they were; a throw from `deserialize` comes after the record
        is written, so the record is new while the cache still holds the old loadout,
        and the storage is no longer consistent. */
    method Set(vehicleName: string, loadoutName: string, vehicleLoadout: Option<L>) returns (r: Result<()>)
      modifies this
      ensures vehicleLoadout.None? ==>
        && r.Ok?
        && stored == old(stored) - {MakeKey(vehicleName, loadoutName)}
        && loadouts == old(loadouts) - {MakeKey(vehicleName, loadoutName)}
        && Get(vehicleName, loadoutName).None?
      ensures vehicleLoadout.Some? && serialize(vehicleLoadout.value).Err? ==>
        && r == Err(serialize(vehicleLoadout.value).error)
        && stored == old(stored) && loadouts == old(loadouts)
      ensures vehicleLoadout.Some? && serialize(vehicleLoadout.value).Ok? ==>
        var record := StoredLoadout(loadoutName, vehicleName, serialize(vehicleLoadout.value).value);
        && stored == old(stored)[MakeKey(vehicleName, loadoutName) := record]
        && (Read(deserialize, record).Ok? ==>
              && r.Ok?
              && loadouts == old(loadouts)[MakeKey(vehicleName, loadoutName) := Read(deserialize, record).value]
              && Get(vehicleName, loadoutName) == Some(Read(deserialize, record).value))
        && (Read(deserialize, record).Err? ==>
              && r == Err(Read(deserialize, record).error)
              && loadouts == old(loadouts)
              && !Valid())
      ensures old(Valid()) && r.Ok? ==> Valid()
      ensures forall k :: k != MakeKey(vehicleName, loadoutName) ==>
        (k in stored <==> k in old(stored)) && (k in stored ==> stored[k] == old(stored)[k]) &&
        (k in loadouts <==> k in old(loadouts)) && (k in loadouts ==> loadouts[k] == old(loadouts)[k])
    {
      var key := MakeKey(vehicleName, loadoutName);
      if vehicleLoadout.Some? {
        var serialized := serialize(vehicleLoadout.value);
        if serialized.Err? {
          return Err(serialized.error);
        }
        stored := stored[key := StoredLoadout(loadoutName, vehicleName, serialized.value)];
        var copy := deserialize(serialized.value, vehicleName, loadoutName);
        if copy.Err? {
          assert key in stored && Read(deserialize, stored[key]).Err?;
          return Err(copy.error);
        }
        loadouts := loadouts[key := copy.value];
      } else {
        stored := stored - {key};
        loadouts := loadouts - {key};
      }
      r := Ok(());
    }
  }
}
