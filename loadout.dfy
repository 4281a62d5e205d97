/** `make_loadout`, manual branch, in scripts/vehicle.py and
    next/scripts/factory/vehicle.py: the default loadout written inline in a
    loadout component, as a dict from port name to the item fitted there and
    that item's own loadout. The older script lower-cases the port names; the
    newer one keeps them as written. */
module Loadout {
  import opened Wrappers
  import opened Dicts
  import opened Text
  import opened Py
  import opened TreeStore
  import opened VehicleWalk

  /** `{"itemName": ..., "children": {...}}` */
  datatype LoadoutEntry = LoadoutEntry(itemName: Json, children: Dict<Json, LoadoutEntry>)

  /** `manual_params.single("entries").get("sitemportloadoutentryparams", [])`, iterated. */
  function EntryList(manual: Json): (r: Result<seq<Json>>)
  {
    var entries :- SingleOf(manual, "entries");
    var list :- GetDefault(entries, "sitemportloadoutentryparams", List([]));
    Iterate(list)
  }

  /** Every element object listed lies inside the manual-params element. */
  lemma EntryListSmaller(manual: Json, i: nat)
    requires EntryList(manual).Ok? && i < |EntryList(manual).value| && EntryList(manual).value[i].Obj?
    ensures EntryList(manual).value[i] < manual
  {
    var entries := SingleOf(manual, "entries").value;
    var list := GetDefault(entries, "sitemportloadoutentryparams", List([])).value;
    SingleSmaller(manual, "entries");
    if HasKey(entries.fields, "sitemportloadoutentryparams") {
      GetDefaultSmaller(entries, "sitemportloadoutentryparams", List([]));
      IterateSmaller(list, i);
    } else {
      assert false;
    }
  }

  /** `data.single("loadout").single("sitemportloadoutmanualparams")` */
  function ChildParams(data: Json): (r: Result<Json>)
    requires data.Obj?
    ensures r.Ok? && r.value != Null ==> r.value < data
  {
    var holder :- SingleOf(data, "loadout");
    var child :- SingleOf(holder, "sitemportloadoutmanualparams");
    if child != Null then
      SingleSmaller(data, "loadout");
      SingleSmaller(holder, "sitemportloadoutmanualparams");
      Ok(child)
    else Ok(child)
  }

  /** The key an entry is stored under: `data["@itemportname"].lower()` in the older
      script, `data["@itemportname"]` as it is in the newer one. */
  function PortKey(data: Json, lower: bool): (r: Result<Json>)
    requires data.Obj?
    ensures r.Ok? ==> Hashable(r.value)
    ensures r.Ok? && lower ==> r.value.Str? && HasNoUpper(r.value.s)
    ensures r.Ok? && lower ==>
      Lookup(data.fields, "@itemportname").Str? && r.value == Str(Lower(Lookup(data.fields, "@itemportname").s))
    ensures r.Ok? && !lower ==> Index(data, "@itemportname") == Ok(r.value)
  {
    var name :- Index(data, "@itemportname");
    if !lower then
      if Hashable(name) then Ok(name) else Err(TypeError)
    else if name.Str? then
      LowerIsLower(name.s);
      Ok(Str(Lower(name.s)))
    else Err(AttributeError)
  }

  /** The entries of a manual-params element, assigned in order. */
  function Manual(manual: Json, lower: bool): (r: Result<Dict<Json, LoadoutEntry>>)
    decreases manual, 1
  {
    var ds :- EntryList(manual);
    var items :- ItemsUpTo(manual, ds, |ds|, lower);
    Ok(Update([], items))
  }

  /** The key and entry of each of the first `n` elements, in order; the first failure otherwise. */
  function ItemsUpTo(manual: Json, ds: seq<Json>, n: nat, lower: bool): (r: Result<Dict<Json, LoadoutEntry>>)
    requires EntryList(manual) == Ok(ds) && n <= |ds|
    ensures r.Ok? ==> |r.value| == n
    decreases manual, 0, n
  {
    if n == 0 then Ok([])
    else
      var before :- ItemsUpTo(manual, ds, n - 1, lower);
      if !ds[n - 1].Obj? then Err(TypeError)
      else
        EntryListSmaller(manual, n - 1);
        var item :- ManualItem(ds[n - 1], lower);
        Ok(before + [Entry(item.0, item.1)])
  }

  /** One entry: its item name, then its own entries, then the key it goes under. */
  function ManualItem(data: Json, lower: bool): (r: Result<(Json, LoadoutEntry)>)
    requires data.Obj?
    decreases data, 2
  {
    var name :- Index(data, "@entityclassname");
    var child :- ChildParams(data);
    var children :- if Truthy(child) then Manual(child, lower) else Ok([]);
    var key :- PortKey(data, lower);
    Ok((key, LoadoutEntry(name, children)))
  }

  /** Once an entry fails, the whole container fails with its error. */
  lemma {:induction false} ItemsFailureStays(manual: Json, ds: seq<Json>, n: nat, lower: bool)
    requires EntryList(manual) == Ok(ds) && n <= |ds| && ItemsUpTo(manual, ds, n, lower).Err?
    ensures ItemsUpTo(manual, ds, |ds|, lower) == ItemsUpTo(manual, ds, n, lower)
    decreases |ds| - n
  {
    if n < |ds| {
      ItemsFailureStays(manual, ds, n + 1, lower);
    }
  }

  /** `add_manual_entries(container, manual_params)` on a fresh container. */
  method AddManualEntries(manual: Json, lower: bool) returns (r: Result<Dict<Json, LoadoutEntry>>)
    ensures r == Manual(manual, lower)
    decreases manual, 1
  {
    var listed := EntryList(manual);
    if listed.Err? {
      return Err(listed.error);
    }
    var ds := listed.value;
    var container: Dict<Json, LoadoutEntry> := [];
    ghost var items: Dict<Json, LoadoutEntry> := [];
    var i := 0;
    while i < |ds|
      invariant 0 <= i <= |ds|
      invariant ItemsUpTo(manual, ds, i, lower) == Ok(items)
      invariant container == Update([], items)
    {
      var data := ds[i];
      if !data.Obj? {
        ItemsFailureStays(manual, ds, i + 1, lower);
        return Err(TypeError);
      }
      EntryListSmaller(manual, i);
      var item := AddEntry(data, lower);
      if item.Err? {
        ItemsFailureStays(manual, ds, i + 1, lower);
        return Err(item.error);
      }
      UpdateAppend([], items, Entry(item.value.0, item.value.1));
      container := Put(container, item.value.0, item.value.1);
      items := items + [Entry(item.value.0, item.value.1)];
      i := i + 1;
    }
    return Ok(container);
  }

  /** The body of the loop of `add_manual_entries` for one entry. */
  method AddEntry(data: Json, lower: bool) returns (r: Result<(Json, LoadoutEntry)>)
    requires data.Obj?
    ensures r == ManualItem(data, lower)
    decreases data, 2
  {
    var name := Index(data, "@entityclassname");
    if name.Err? {
      return Err(name.error);
    }
    var child := ChildParams(data);
    if child.Err? {
      return Err(child.error);
    }
    var children: Dict<Json, LoadoutEntry> := [];
    if Truthy(child.value) {
      var sub := AddManualEntries(child.value, lower);
      if sub.Err? {
        return Err(sub.error);
      }
      children := sub.value;
    }
    var key := PortKey(data, lower);
    if key.Err? {
      return Err(key.error);
    }
    return Ok((key.value, LoadoutEntry(name.value, children)));
  }

  /** Each item of the list is what its element contributes. */
  lemma ItemsAre(manual: Json, ds: seq<Json>, n: nat, lower: bool)
    requires EntryList(manual) == Ok(ds) && n <= |ds| && ItemsUpTo(manual, ds, n, lower).Ok?
    ensures forall i :: 0 <= i < n ==>
      && ds[i].Obj? && ManualItem(ds[i], lower).Ok?
      && ItemsUpTo(manual, ds, n, lower).value[i] == Entry(ManualItem(ds[i], lower).value.0, ManualItem(ds[i], lower).value.1)
  {
    forall i | 0 <= i < n
      ensures ds[i].Obj? && ManualItem(ds[i], lower).Ok?
      ensures ItemsUpTo(manual, ds, n, lower).value[i] == Entry(ManualItem(ds[i], lower).value.0, ManualItem(ds[i], lower).value.1)
    {
      ItemAt(manual, ds, n, lower, i);
    }
  }

  lemma {:induction false} ItemAt(manual: Json, ds: seq<Json>, n: nat, lower: bool, i: nat)
    requires EntryList(manual) == Ok(ds) && i < n <= |ds| && ItemsUpTo(manual, ds, n, lower).Ok?
    ensures ds[i].Obj? && ManualItem(ds[i], lower).Ok?
    ensures ItemsUpTo(manual, ds, n, lower).value[i] == Entry(ManualItem(ds[i], lower).value.0, ManualItem(ds[i], lower).value.1)
    decreases n
  {
    ItemsLast(manual, ds, n, lower);
    if i < n - 1 {
      ItemAt(manual, ds, n - 1, lower, i);
      var before := ItemsUpTo(manual, ds, n - 1, lower).value;
      assert ItemsUpTo(manual, ds, n, lower).value[i] == before[i];
    }
  }

  /** The first `n` items are the first `n - 1` and the `n`-th element's entry. */
  lemma ItemsLast(manual: Json, ds: seq<Json>, n: nat, lower: bool)
    requires EntryList(manual) == Ok(ds) && 0 < n <= |ds| && ItemsUpTo(manual, ds, n, lower).Ok?
    ensures ItemsUpTo(manual, ds, n - 1, lower).Ok? && ds[n - 1].Obj? && ManualItem(ds[n - 1], lower).Ok?
    ensures ItemsUpTo(manual, ds, n, lower).value == ItemsUpTo(manual, ds, n - 1, lower).value
      + [Entry(ManualItem(ds[n - 1], lower).value.0, ManualItem(ds[n - 1], lower).value.1)]
  {
  }

  /** The key of an entry is its port key. */
  lemma ManualItemKey(data: Json, lower: bool)
    requires data.Obj? && ManualItem(data, lower).Ok?
    ensures PortKey(data, lower) == Ok(ManualItem(data, lower).value.0)
  {
  }

  /** The key an element goes under, when it has one. */
  function ItemKey(data: Json, lower: bool): Option<Json> {
    if !data.Obj? then None
    else match ManualItem(data, lower)
      case Ok(item) => Some(item.0)
      case Err(_) => None
  }

  /** The container holds exactly the port keys of its elements. */
  lemma ManualKeys(manual: Json, lower: bool, k: Json)
    requires Manual(manual, lower).Ok?
    ensures var ds := EntryList(manual).value;
      && (forall i :: 0 <= i < |ds| ==> ds[i].Obj? && ManualItem(ds[i], lower).Ok?)
      && (HasKey(Manual(manual, lower).value, k) <==> exists i :: 0 <= i < |ds| && ManualItem(ds[i], lower).value.0 == k)
  {
    var ds := EntryList(manual).value;
    var items := ItemsUpTo(manual, ds, |ds|, lower).value;
    ItemsAre(manual, ds, |ds|, lower);
    assert HasKey(Manual(manual, lower).value, k) <==> HasKey(items, k);
    if HasKey(items, k) {
      var j := IndexOf(items, k).value;
      assert ManualItem(ds[j], lower).value.0 == items[j].key == k;
    }
  }

  /** A port named by several elements holds the entry of the last of them. */
  lemma ManualLastWins(manual: Json, lower: bool, i: nat)
    requires Manual(manual, lower).Ok?
    requires i < |EntryList(manual).value|
    requires var ds := EntryList(manual).value;
      forall j :: i < j < |ds| ==> ItemKey(ds[j], lower) != ItemKey(ds[i], lower)
    ensures var ds := EntryList(manual).value;
      && ds[i].Obj? && ManualItem(ds[i], lower).Ok?
      && Get(Manual(manual, lower).value, ManualItem(ds[i], lower).value.0) == Some(ManualItem(ds[i], lower).value.1)
  {
    var ds := EntryList(manual).value;
    ItemsAre(manual, ds, |ds|, lower);
    UpdateLastWins([], ItemsUpTo(manual, ds, |ds|, lower).value, i);
  }

  /** In the older script every key is a port name without upper-case letters. */
  lemma ManualLowerKeys(manual: Json, k: Json)
    requires Manual(manual, true).Ok? && HasKey(Manual(manual, true).value, k)
    ensures k.Str? && HasNoUpper(k.s)
  {
    ManualKeys(manual, true, k);
    var ds := EntryList(manual).value;
    var i :| 0 <= i < |ds| && ManualItem(ds[i], true).value.0 == k;
    ManualItemKey(ds[i], true);
  }

  /** In the newer script every key is an `@itemportname` exactly as written. */
  lemma ManualExactKeys(manual: Json, k: Json)
    requires Manual(manual, false).Ok? && HasKey(Manual(manual, false).value, k)
    ensures var ds := EntryList(manual).value;
      exists i :: 0 <= i < |ds| && Index(ds[i], "@itemportname") == Ok(k)
  {
    ManualKeys(manual, false, k);
    var ds := EntryList(manual).value;
    var i :| 0 <= i < |ds| && ManualItem(ds[i], false).value.0 == k;
    ManualItemKey(ds[i], false);
  }

  /** `make_loadout(loadout_component, ...)`: the manual entries when the component
      has any; `None` stands for the loadout file named otherwise, which is not read here. */
  function MakeLoadout(component: Json, lower: bool): (r: Result<Option<Dict<Json, LoadoutEntry>>>)
    ensures r.Ok? && r.value.Some? ==>
      SingleOf(component, "loadout").Ok?
      && var manual := SingleOf(SingleOf(component, "loadout").value, "sitemportloadoutmanualparams");
         manual.Ok? && Truthy(manual.value) && Manual(manual.value, lower) == Ok(r.value.value)
  {
    var holder :- SingleOf(component, "loadout");
    var manual :- SingleOf(holder, "sitemportloadoutmanualparams");
    if Truthy(manual) then
      var entries :- Manual(manual, lower);
      Ok(Some(entries))
    else Ok(None)
  }
}
