/** `make_item` of next/scripts/factory/item.py, without its floating-point
    fields: the baseline record of an attachable item, its ports keyed by name,
    the container hash, and the dispatch on the item type. Also the two pure
    selections of that file, `make_weapon_action` and `make_axis_limit`. */
module ItemFactory {
  import opened Wrappers
  import opened Dicts
  import opened Text
  import opened Py
  import opened TreeStore
  import opened ItemPort
  import opened VehicleWalk

  /** The keys of `_item_type_methods`. */
  const ItemTypes: seq<string> := [
    "Cargo", "Cooler", "EMP", "FlightController", "FuelIntake", "FuelTank",
    "MainThruster", "ManneuverThruster", "Missile", "MissileLauncher", "PowerPlant",
    "QuantumDrive", "QuantumFuelTank", "Shield", "Turret", "TurretBase", "WeaponGun"]

  /** The subtype the data uses for "none". */
  const Undefined: Json := Str("UNDEFINED")

  /** A value of the item dict: plain data, or the dict of ports. */
  datatype Value = J(j: Json) | PortMap(ports: Dict<Json, Port>)

  type ItemDict = Dict<string, Value>

  /** `x in j`: a key of a dict, an item of a list, a piece of a string. */
  function In(x: string, j: Json): (r: Result<bool>)
    ensures j.Obj? ==> r == Ok(HasKey(j.fields, x))
    ensures r.Err? <==> !(j.Obj? || j.List? || j.Str?)
  {
    match j
    case Obj(fs) => Ok(HasKey(fs, x))
    case List(items) => Ok(Str(x) in items)
    case Str(s) => Ok(Contains(s, x))
    case _ => Err(TypeError)
  }

  // ---- Port types ----

  /** `[x.get("@value") for x in xs]` */
  function EnumValues(xs: seq<Json>): (r: Result<seq<Json>>)
    ensures r.Ok? <==> forall i :: 0 <= i < |xs| ==> xs[i].Obj?
    ensures r.Ok? ==> |r.value| == |xs| && forall i :: 0 <= i < |xs| ==> r.value[i] == Lookup(xs[i].fields, "@value")
  {
    if forall i :: 0 <= i < |xs| ==> xs[i].Obj? then
      Ok(seq(|xs|, i requires 0 <= i < |xs| => Lookup(xs[i].fields, "@value")))
    else Err(AttributeError)
  }

  /** `[x for x in xs if x != "UNDEFINED"]` */
  function WithoutUndefined(xs: seq<Json>): (r: seq<Json>)
    ensures forall x :: x in r <==> x in xs && x != Undefined
    ensures |r| <= |xs|
  {
    if xs == [] then []
    else (if xs[0] == Undefined then [] else [xs[0]]) + WithoutUndefined(xs[1..])
  }

  /** The enum values of a `sitemportdeftypes` element; none without a `subtypes` child. */
  function Enumerated(def: Json): Result<seq<Json>> {
    var holder :- SingleOf(def, "subtypes");
    if !Truthy(holder) then Ok([])
    else
      var list :- GetDefault(holder, "enum", List([]));
      var es :- Iterate(list);
      EnumValues(es)
  }

  /** The subtypes a port type expands to: its enum values other than `"UNDEFINED"`,
      or the single `None` when none remain. */
  function DefSubtypes(def: Json): (r: Result<seq<Json>>)
    ensures r.Ok? <==> Enumerated(def).Ok?
    ensures r.Ok? ==> |r.value| >= 1 && Undefined !in r.value
    ensures r.Ok? ==> forall x :: x in r.value <==>
      (x in Enumerated(def).value && x != Undefined) || (x == Null && WithoutUndefined(Enumerated(def).value) == [])
  {
    var values :- Enumerated(def);
    var kept := WithoutUndefined(values);
    if kept == [] then Ok([Null]) else Ok(kept)
  }

  /** `{"type": t, "subtype": s}` */
  function TypeEntry(t: Json, s: Json): Json {
    Obj([Entry("type", t), Entry("subtype", s)])
  }

  /** The type entries of one `sitemportdeftypes` element, one per subtype. */
  function DefEntries(def: Json): (r: Result<seq<Json>>)
    ensures r.Ok? <==> def.Obj? && DefSubtypes(def).Ok?
    ensures r.Ok? ==> |r.value| == |DefSubtypes(def).value| && forall k :: 0 <= k < |r.value| ==>
      r.value[k] == TypeEntry(Lookup(def.fields, "@type"), DefSubtypes(def).value[k])
  {
    var t :- GetKey(def, "@type");
    var subtypes :- DefSubtypes(def);
    Ok(seq(|subtypes|, k requires 0 <= k < |subtypes| => TypeEntry(t, subtypes[k])))
  }

  /** A well-formed type entry: a type and a subtype that is never `"UNDEFINED"`. */
  predicate IsTypeEntry(x: Json) {
    x.Obj? && |x.fields| == 2 && x.fields[0].key == "type" && x.fields[1].key == "subtype"
    && x.fields[1].val != Undefined
  }

  /** The type entries of the elements from `i` on, in order. */
  function TypesFrom(ds: seq<Json>, i: nat): (r: Result<seq<Json>>)
    requires i <= |ds|
    ensures r.Ok? ==> forall k :: 0 <= k < |r.value| ==> IsTypeEntry(r.value[k])
    ensures r.Ok? ==> |r.value| >= |ds| - i
    decreases |ds| - i
  {
    if i == |ds| then Ok([])
    else
      var here :- DefEntries(ds[i]);
      var later :- TypesFrom(ds, i + 1);
      assert forall k :: 0 <= k < |here| ==> here[k].fields[1].val in DefSubtypes(ds[i]).value;
      Ok(here + later)
  }

  /** `item_port_element.single("types").get("sitemportdeftypes", [])`, expanded. */
  function DefTypes(ip: Json): (r: Result<seq<Json>>)
    ensures r.Ok? ==> forall k :: 0 <= k < |r.value| ==> IsTypeEntry(r.value[k])
  {
    var holder :- SingleOf(ip, "types");
    var list :- GetDefault(holder, "sitemportdeftypes", List([]));
    var ds :- Iterate(list);
    TypesFrom(ds, 0)
  }

  // ---- Ports ----

  /** One `sitemportdef`: its port, which must have a name usable as a dict key. */
  function ItemPortOf(def: Json): (r: Result<Port>)
    ensures r.Ok? ==> Hashable(r.value.name)
  {
    var types :- DefTypes(def);
    var port :- MakePort(def, Null, types);
    if Hashable(port.name) then Ok(port) else Err(TypeError)
  }

  /** The name and port of each of the first `n` elements, in order, with `make`
      building one port. */
  function PortEntries(defs: seq<Json>, n: nat, make: Json -> Result<Port>): (r: Result<Dict<Json, Port>>)
    requires n <= |defs|
    ensures r.Ok? ==> |r.value| == n
  {
    if n == 0 then Ok([])
    else
      var before :- PortEntries(defs, n - 1, make);
      var port :- make(defs[n - 1]);
      Ok(before + [Entry(port.name, port)])
  }

  /** `baseline["ports"][port["name"]] = port` for every port in turn. */
  function Ports(defs: seq<Json>): (r: Result<Dict<Json, Port>>)
    ensures r.Ok? ==> Unique(r.value)
  {
    var es :- PortEntries(defs, |defs|, ItemPortOf);
    Ok(Update([], es))
  }

  /** `port_container_element.single("ports").get("sitemportdef", [])`, iterated. */
  function PortDefs(pc: Json): Result<seq<Json>> {
    var holder :- SingleOf(pc, "ports");
    var list :- GetDefault(holder, "sitemportdef", List([]));
    Iterate(list)
  }

  /** `str(minSize) + "-" + str(maxSize)` for each port, in dict order. */
  function Sizes(ports: Dict<Json, Port>): (r: seq<string>)
    ensures |r| == |ports|
    ensures forall i :: 0 <= i < |ports| ==>
      r[i] == IntToString(ports[i].val.minSize) + "-" + IntToString(ports[i].val.maxSize)
  {
    seq(|ports|, i requires 0 <= i < |ports| => IntToString(ports[i].val.minSize) + "-" + IntToString(ports[i].val.maxSize))
  }

  /** `"_".join([type, str(len(ports))] + sizes)`: only a string type can be joined. */
  function ContainerHash(itemType: Json, ports: Dict<Json, Port>): (r: Result<string>)
    ensures r.Ok? <==> itemType.Str?
    ensures r.Ok? ==> r.value == Join([itemType.s, IntToString(|ports|)] + Sizes(ports), "_")
  {
    if itemType.Str? then Ok(Join([itemType.s, IntToString(|ports|)] + Sizes(ports), "_"))
    else Err(TypeError)
  }

  // ---- The item ----

  /** The baseline dict, with `"UNDEFINED"` subtypes and empty tags already made None. */
  function Baseline(attachdef: Json, itemType: Json): (r: Result<ItemDict>)
    requires attachdef.Obj?
    ensures r.Ok? ==> Unique(r.value)
    ensures r.Ok? ==> Get(r.value, "type") == Some(J(itemType))
    ensures r.Ok? ==>
      && Get(r.value, "subtype").Some? && Get(r.value, "subtype").value.J?
      && Get(r.value, "subtype").value.j != Undefined
      && (Lookup(attachdef.fields, "@subtype") != Undefined ==> Get(r.value, "subtype") == Some(J(Lookup(attachdef.fields, "@subtype"))))
    ensures r.Ok? ==>
      && Get(r.value, "requiredTags").Some? && Get(r.value, "requiredTags").value.J?
      && Get(r.value, "requiredTags").value.j != Str("")
      && (Lookup(attachdef.fields, "@requiredtags") != Str("") ==>
        Get(r.value, "requiredTags") == Some(J(Lookup(attachdef.fields, "@requiredtags"))))
    ensures r.Ok? ==> Size(attachdef.fields, "@size").Ok? && Get(r.value, "size") == Some(J(Int(Size(attachdef.fields, "@size").value)))
    ensures r.Ok? ==> Get(r.value, "ports") == Some(PortMap([]))
  {
    var localization :- SingleOf(attachdef, "localization");
    var displayName :- GetKey(localization, "@name");
    var subtype := Lookup(attachdef.fields, "@subtype");
    var size :- Size(attachdef.fields, "@size");
    var tags := Lookup(attachdef.fields, "@requiredtags");
    Ok(BaselineDict(displayName, itemType, subtype, size, tags))
  }

  /** The six baseline keys, in the script's order. */
  function BaselineDict(displayName: Json, itemType: Json, subtype: Json, size: int, tags: Json): (d: ItemDict)
    ensures Unique(d)
    ensures Get(d, "type") == Some(J(itemType))
    ensures Get(d, "subtype") == Some(J(if subtype == Undefined then Null else subtype))
    ensures Get(d, "size") == Some(J(Int(size)))
    ensures Get(d, "requiredTags") == Some(J(if tags == Str("") then Null else tags))
    ensures Get(d, "ports") == Some(PortMap([]))
  {
    var d := [
      Entry("displayName", J(displayName)),
      Entry("type", J(itemType)),
      Entry("subtype", J(if subtype == Undefined then Null else subtype)),
      Entry("size", J(Int(size))),
      Entry("requiredTags", J(if tags == Str("") then Null else tags)),
      Entry("ports", PortMap([]))];
    assert Unique(d) by {
      assert d[0].key[0] == 'd' && d[1].key[0] == 't' && d[2].key[0] == 's' && d[3].key[0] == 's';
      assert d[4].key[0] == 'r' && d[5].key[0] == 'p' && d[2].key[1] == 'u' && d[3].key[1] == 'i';
    }
    GetAt(d, 1);
    GetAt(d, 2);
    GetAt(d, 3);
    GetAt(d, 4);
    GetAt(d, 5);
    d
  }

  /** The baseline with its ports and container hash, when the item is a port container. */
  function WithPorts(baseline: ItemDict, components: Json, itemType: Json): (r: Result<ItemDict>)
    ensures r.Ok? ==> SingleOf(components, "sitemportcontainercomponentparams").Ok?
    ensures r.Ok? ==> forall k :: k != "ports" && k != "container_hash" ==> Get(r.value, k) == Get(baseline, k)
    ensures r.Ok? && !Truthy(SingleOf(components, "sitemportcontainercomponentparams").value) ==> r.value == baseline
    ensures r.Ok? && Truthy(SingleOf(components, "sitemportcontainercomponentparams").value) ==>
      var pc := SingleOf(components, "sitemportcontainercomponentparams").value;
      && PortDefs(pc).Ok? && Ports(PortDefs(pc).value).Ok? && itemType.Str?
      && var ports := Ports(PortDefs(pc).value).value;
        && Get(r.value, "ports") == Some(PortMap(ports))
        && Get(r.value, "container_hash") == Some(J(Str(Join([itemType.s, IntToString(|ports|)] + Sizes(ports), "_"))))
    ensures r.Ok? && Unique(baseline) ==> Unique(r.value)
  {
    var pc :- SingleOf(components, "sitemportcontainercomponentparams");
    if !Truthy(pc) then Ok(baseline)
    else
      var defs :- PortDefs(pc);
      var ports :- Ports(defs);
      var hash :- ContainerHash(itemType, ports);
      Ok(Put(Put(baseline, "ports", PortMap(ports)), "container_hash", J(Str(hash))))
  }

  /** `item_type in _item_type_methods`: a `TypeError` for a type that cannot be a key. */
  function IsItemType(itemType: Json): (r: Result<bool>)
    ensures r.Ok? <==> Hashable(itemType)
    ensures r.Ok? ==> (r.value <==> itemType.Str? && itemType.s in ItemTypes)
  {
    if Hashable(itemType) then Ok(itemType.Str? && itemType.s in ItemTypes) else Err(TypeError)
  }

  /** What `make_item` has built before it looks the type up in `_item_type_methods`:
      the type, the components element, the attachdef element and the baseline dict. */
  datatype Prepared = Prepared(itemType: string, components: Json, attachdef: Json, full: ItemDict)

  /** `make_item` up to the dispatch on the item type; None where it returns None. */
  function Prepare(item: Json): (r: Result<Option<Prepared>>)
    ensures SingleOf(item, "components").Ok? && !Truthy(SingleOf(item, "components").value) ==> r == Ok(None)
    ensures r.Ok? && r.value.Some? ==>
      var p := r.value.value;
      && SingleOf(item, "components") == Ok(p.components) && Truthy(p.components)
      && SingleOf(p.components, "sattachablecomponentparams").Ok?
      && Truthy(SingleOf(p.components, "sattachablecomponentparams").value)
      && SingleOf(SingleOf(p.components, "sattachablecomponentparams").value, "attachdef") == Ok(p.attachdef)
      && p.attachdef.Obj? && Index(p.attachdef, "@type") == Ok(Str(p.itemType)) && p.itemType in ItemTypes
      && Baseline(p.attachdef, Str(p.itemType)).Ok?
      && WithPorts(Baseline(p.attachdef, Str(p.itemType)).value, p.components, Str(p.itemType)) == Ok(p.full)
  {
    var components :- SingleOf(item, "components");
    if !Truthy(components) then Ok(None)
    else
      var attachable :- SingleOf(components, "sattachablecomponentparams");
      if !Truthy(attachable) then Ok(None)
      else
        var attachdef :- SingleOf(attachable, "attachdef");
        var itemType :- Index(attachdef, "@type");
        var baseline :- Baseline(attachdef, itemType);
        var full :- WithPorts(baseline, components, itemType);
        var known :- IsItemType(itemType);
        if known then Ok(Some(Prepared(itemType.s, components, attachdef, full))) else Ok(None)
  }

  /** `make_item(item_element)`; `maker` stands for the type-specific function of
      `_item_type_methods`, whose fields are floating-point values left abstract;
      the errors it raises (a missing params child, text `float()` refuses) are
      those of `make_item` too. */
  function ItemOf(item: Json, maker: (string, Json) -> Result<ItemDict>): (r: Result<Option<ItemDict>>)
    ensures Prepare(item).Err? ==> r == Err(Prepare(item).error)
    ensures Prepare(item) == Ok(None) ==> r == Ok(None)
    ensures Prepare(item).Ok? && Prepare(item).value.Some? ==>
      var p := Prepare(item).value.value;
      && (maker(p.itemType, p.components).Err? ==> r == Err(maker(p.itemType, p.components).error))
      && (maker(p.itemType, p.components).Ok? ==> r == Ok(Some(Update(p.full, maker(p.itemType, p.components).value))))
  {
    var p :- Prepare(item);
    match p
    case None => Ok(None)
    case Some(p) =>
      var fields :- maker(p.itemType, p.components);
      Ok(Some(Update(p.full, fields)))
  }

  /** The loop that fills `baseline["ports"]`. */
  method FillPorts(defs: seq<Json>) returns (r: Result<Dict<Json, Port>>)
    ensures r == Ports(defs)
  {
    r := FillPortsWith(defs, ItemPortOf);
  }

  /** That loop, with `make` building each port. */
  method FillPortsWith(defs: seq<Json>, make: Json -> Result<Port>) returns (r: Result<Dict<Json, Port>>)
    ensures PortEntries(defs, |defs|, make).Err? ==> r == Err(PortEntries(defs, |defs|, make).error)
    ensures PortEntries(defs, |defs|, make).Ok? ==> r == Ok(Update([], PortEntries(defs, |defs|, make).value))
  {
    var ports: Dict<Json, Port> := [];
    ghost var es: Dict<Json, Port> := [];
    var i := 0;
    while i < |defs|
      invariant 0 <= i <= |defs|
      invariant PortEntries(defs, i, make) == Ok(es)
      invariant ports == Update([], es)
    {
      var port := make(defs[i]);
      PortEntriesNext(defs, i, make, es);
      if port.Err? {
        PortEntriesFailureStays(defs, i + 1, make);
        return Err(port.error);
      }
      PutAfterUpdate([], es, port.value.name, port.value);
      ports := Put(ports, port.value.name, port.value);
      es := es + [Entry(port.value.name, port.value)];
      i := i + 1;
    }
    return Ok(ports);
  }

  lemma PortEntriesNext(defs: seq<Json>, i: nat, make: Json -> Result<Port>, es: Dict<Json, Port>)
    requires i < |defs| && PortEntries(defs, i, make) == Ok(es)
    ensures make(defs[i]).Err? ==> PortEntries(defs, i + 1, make) == Err(make(defs[i]).error)
    ensures make(defs[i]).Ok? ==>
      PortEntries(defs, i + 1, make) == Ok(es + [Entry(make(defs[i]).value.name, make(defs[i]).value)])
  {
  }

  lemma {:induction false} PortEntriesFailureStays(defs: seq<Json>, n: nat, make: Json -> Result<Port>)
    requires n <= |defs| && PortEntries(defs, n, make).Err?
    ensures PortEntries(defs, |defs|, make) == PortEntries(defs, n, make)
    decreases |defs| - n
  {
    if n < |defs| {
      PortEntriesFailureStays(defs, n + 1, make);
    }
  }

  /** `make_item(item_element)` up to the dispatch: the baseline, then the ports. */
  method PrepareItem(item: Json) returns (r: Result<Option<Prepared>>)
    ensures r == Prepare(item)
  {
    var components := SingleOf(item, "components");
    if components.Err? {
      return Err(components.error);
    }
    if !Truthy(components.value) {
      return Ok(None);
    }
    var attachable := SingleOf(components.value, "sattachablecomponentparams");
    if attachable.Err? {
      return Err(attachable.error);
    }
    if !Truthy(attachable.value) {
      return Ok(None);
    }
    var attachdef := SingleOf(attachable.value, "attachdef");
    if attachdef.Err? {
      return Err(attachdef.error);
    }
    var itemType := Index(attachdef.value, "@type");
    if itemType.Err? {
      return Err(itemType.error);
    }
    var baseline := Baseline(attachdef.value, itemType.value);
    if baseline.Err? {
      return Err(baseline.error);
    }
    var full := AddPorts(baseline.value, components.value, itemType.value);
    if full.Err? {
      return Err(full.error);
    }
    var known := IsItemType(itemType.value);
    if known.Err? {
      return Err(known.error);
    }
    if !known.value {
      return Ok(None);
    }
    return Ok(Some(Prepared(itemType.value.s, components.value, attachdef.value, full.value)));
  }

  /** The ports of the container component, when there is one, filled into the
      baseline with the container hash. */
  method AddPorts(baseline: ItemDict, components: Json, itemType: Json) returns (r: Result<ItemDict>)
    ensures r == WithPorts(baseline, components, itemType)
  {
    var full := baseline;
    var pc := SingleOf(components, "sitemportcontainercomponentparams");
    if pc.Err? {
      return Err(pc.error);
    }
    if Truthy(pc.value) {
      var defs := PortDefs(pc.value);
      if defs.Err? {
        return Err(defs.error);
      }
      var ports := FillPorts(defs.value);
      if ports.Err? {
        return Err(ports.error);
      }
      full := Put(full, "ports", PortMap(ports.value));
      var hash := ContainerHash(itemType, ports.value);
      if hash.Err? {
        return Err(hash.error);
      }
      full := Put(full, "container_hash", J(Str(hash.value)));
    }
    return Ok(full);
  }

  /** `make_item(item_element)`: the baseline, the ports, then the dispatch to the
      type-specific fields, which override the baseline's. */
  method MakeItem(item: Json, maker: (string, Json) -> Result<ItemDict>) returns (r: Result<Option<ItemDict>>)
    ensures r == ItemOf(item, maker)
  {
    var p := PrepareItem(item);
    if p.Err? {
      return Err(p.error);
    }
    if p.value.None? {
      return Ok(None);
    }
    var prepared := p.value.value;
    var fields := maker(prepared.itemType, prepared.components);
    if fields.Err? {
      return Err(fields.error);
    }
    return Ok(Some(Update(prepared.full, fields.value)));
  }

  /** The ports are keyed by name: exactly the names of the elements, each holding the
      port of the last element with that name. */
  lemma PortsKeyed(defs: seq<Json>, k: Json)
    requires Ports(defs).Ok?
    ensures forall i :: 0 <= i < |defs| ==> ItemPortOf(defs[i]).Ok?
    ensures HasKey(Ports(defs).value, k) <==> exists i :: 0 <= i < |defs| && ItemPortOf(defs[i]).value.name == k
  {
    KeyedBy(defs, ItemPortOf, k);
  }

  lemma KeyedBy(defs: seq<Json>, make: Json -> Result<Port>, k: Json)
    requires PortEntries(defs, |defs|, make).Ok?
    ensures forall i :: 0 <= i < |defs| ==> make(defs[i]).Ok?
    ensures HasKey(Update([], PortEntries(defs, |defs|, make).value), k) <==>
      exists i :: 0 <= i < |defs| && make(defs[i]).value.name == k
  {
    var es := PortEntries(defs, |defs|, make).value;
    PortEntriesAre(defs, |defs|, make);
    assert HasKey(Update([], es), k) <==> HasKey(es, k);
    if HasKey(es, k) {
      var i := IndexOf(es, k).value;
      assert make(defs[i]).value.name == k;
    }
    if exists i :: 0 <= i < |defs| && make(defs[i]).value.name == k {
      var i :| 0 <= i < |defs| && make(defs[i]).value.name == k;
      assert es[i].key == k;
    }
  }

  lemma PortsLastWins(defs: seq<Json>, i: nat)
    requires Ports(defs).Ok? && i < |defs| && ItemPortOf(defs[i]).Ok?
    requires forall j :: i < j < |defs| ==> ItemPortOf(defs[j]).Ok? ==> ItemPortOf(defs[j]).value.name != ItemPortOf(defs[i]).value.name
    ensures Get(Ports(defs).value, ItemPortOf(defs[i]).value.name) == Some(ItemPortOf(defs[i]).value)
  {
    LastWinsBy(defs, ItemPortOf, i);
  }

  lemma LastWinsBy(defs: seq<Json>, make: Json -> Result<Port>, i: nat)
    requires PortEntries(defs, |defs|, make).Ok? && i < |defs| && make(defs[i]).Ok?
    requires forall j :: i < j < |defs| ==> make(defs[j]).Ok? ==> make(defs[j]).value.name != make(defs[i]).value.name
    ensures Get(Update([], PortEntries(defs, |defs|, make).value), make(defs[i]).value.name) == Some(make(defs[i]).value)
  {
    PortEntriesAre(defs, |defs|, make);
    UpdateLastWins([], PortEntries(defs, |defs|, make).value, i);
  }

  lemma {:induction false} PortEntriesAre(defs: seq<Json>, n: nat, make: Json -> Result<Port>)
    requires n <= |defs| && PortEntries(defs, n, make).Ok?
    ensures forall i :: 0 <= i < n ==>
      && make(defs[i]).Ok?
      && PortEntries(defs, n, make).value[i] == Entry(make(defs[i]).value.name, make(defs[i]).value)
    decreases n
  {
    if n > 0 {
      PortEntriesAre(defs, n - 1, make);
    }
  }

  /** The baseline of an item keeps the attachdef's values, with an `"UNDEFINED"`
      subtype and empty required tags made None, and has no other source for its type. */
  lemma PreparedFields(item: Json)
    requires Prepare(item).Ok? && Prepare(item).value.Some?
    ensures var p := Prepare(item).value.value;
      BaselineKept(p.attachdef, p.itemType, p.full)
  {
    var p := Prepare(item).value.value;
    WithPortsKeeps(p.attachdef, p.itemType, p.components, p.full);
  }

  /** `full` is unique, has type `itemType`, and keeps the attachdef's subtype and required
      tags unless they are `"UNDEFINED"` or empty, which it never holds. */
  ghost predicate BaselineKept(attachdef: Json, itemType: string, full: ItemDict) {
    && attachdef.Obj?
    && Unique(full)
    && Get(full, "type") == Some(J(Str(itemType)))
    && Get(full, "subtype").Some? && Get(full, "subtype") != Some(J(Undefined))
    && Get(full, "requiredTags").Some? && Get(full, "requiredTags") != Some(J(Str("")))
    && (Lookup(attachdef.fields, "@subtype") != Undefined ==>
      Get(full, "subtype") == Some(J(Lookup(attachdef.fields, "@subtype"))))
    && (Lookup(attachdef.fields, "@requiredtags") != Str("") ==>
      Get(full, "requiredTags") == Some(J(Lookup(attachdef.fields, "@requiredtags"))))
  }

  /** Adding the ports leaves the baseline's type, subtype and required tags alone. */
  lemma WithPortsKeeps(attachdef: Json, itemType: string, components: Json, full: ItemDict)
    requires attachdef.Obj? && Baseline(attachdef, Str(itemType)).Ok?
    requires WithPorts(Baseline(attachdef, Str(itemType)).value, components, Str(itemType)) == Ok(full)
    ensures BaselineKept(attachdef, itemType, full)
  {
    var baseline := Baseline(attachdef, Str(itemType)).value;
    assert Get(full, "type") == Get(baseline, "type");
    assert Get(full, "subtype") == Get(baseline, "subtype");
    assert Get(full, "requiredTags") == Get(baseline, "requiredTags");
  }

  /** A port container's hash names its type, its number of distinct port names, and
      the size range of each port in dict order. */
  lemma PreparedContainerHash(item: Json)
    requires Prepare(item).Ok? && Prepare(item).value.Some?
    requires var p := Prepare(item).value.value;
      Truthy(SingleOf(p.components, "sitemportcontainercomponentparams").value)
    ensures var p := Prepare(item).value.value;
      var pc := SingleOf(p.components, "sitemportcontainercomponentparams").value;
      && PortDefs(pc).Ok? && Ports(PortDefs(pc).value).Ok?
      && var ports := Ports(PortDefs(pc).value).value;
        && Get(p.full, "ports") == Some(PortMap(ports))
        && Get(p.full, "container_hash") == Some(J(Str(Join([p.itemType, IntToString(|ports|)] + Sizes(ports), "_"))))
  {
  }

  /** `baseline.update(fields)`: the type-specific fields win on the keys they name,
      and every other key keeps its baseline value. */
  lemma ItemFields(item: Json, maker: (string, Json) -> Result<ItemDict>, k: string)
    requires ItemOf(item, maker).Ok? && ItemOf(item, maker).value.Some?
    ensures Prepare(item).Ok? && Prepare(item).value.Some?
    ensures var p := Prepare(item).value.value;
      maker(p.itemType, p.components).Ok? &&
      var fields := maker(p.itemType, p.components).value;
      var d := ItemOf(item, maker).value.value;
      && (Unique(fields) && HasKey(fields, k) ==> Get(d, k) == Get(fields, k))
      && (!HasKey(fields, k) ==> Get(d, k) == Get(p.full, k))
  {
    var p := Prepare(item).value.value;
    var fields := maker(p.itemType, p.components).value;
    if Unique(fields) && HasKey(fields, k) {
      UpdateOverrides(p.full, fields, k);
    }
  }

  // ---- make_weapon_action ----

  /** The four simple action kinds, in the order they are tried. */
  const SimpleActions: seq<string> := [
    "sweaponactionfiresingleparams",
    "sweaponactionfirerapidparams",
    "sweaponactionfirechargedparams",
    "sweaponactionfirebeamparams"]

  /** The action a weapon fires with: its kind and, when it has launch parameters,
      its pellet count. Fire rate and heat per shot are floating-point values. */
  datatype Action = Action(kind: string, pelletCount: Option<int>)

  /** `make_action_params(params)` without its floating-point fields. */
  function ActionParams(params: Json): (r: Result<Option<int>>)
    ensures r.Ok? ==> params.Obj?
  {
    if !params.Obj? then Err(AttributeError)
    else
      var launch :- SingleOf(params, "launchparams");
      if !Truthy(launch) then Ok(None)
      else
        var launcher :- SingleOf(launch, "sprojectilelauncher");
        var count :- GetDefault(launcher, "@pelletcount", Int(0));
        var n :- ToInt(count);
        Ok(Some(n))
  }

  /** The action of kind `kind`, read from the element's `kind` child. */
  function SimpleAction(w: Json, kind: string): (r: Result<Action>)
    ensures r.Ok? ==> r.value.kind == kind
  {
    var params :- SingleOf(w, kind);
    var pellets :- ActionParams(params);
    Ok(Action(kind, pellets))
  }

  /** `k` is the first of the simple kinds, from the `i`-th on, that the element holds. */
  predicate FirstPresent(w: Json, i: nat, k: int) {
    && i <= k < |SimpleActions|
    && In(SimpleActions[k], w) == Ok(true)
    && forall m :: i <= m < k ==> In(SimpleActions[m], w) == Ok(false)
  }

  /** The first of the simple kinds, from the `i`-th on, that the element holds. */
  function FirstAction(w: Json, i: nat): (r: Result<Option<Action>>)
    requires i <= |SimpleActions|
    ensures r.Ok? && r.value.None? ==> forall k :: i <= k < |SimpleActions| ==> In(SimpleActions[k], w) == Ok(false)
    ensures r.Ok? && r.value.Some? ==> exists k :: FirstPresent(w, i, k) && r.value.value.kind == SimpleActions[k]
    decreases |SimpleActions| - i
  {
    if i == |SimpleActions| then Ok(None)
    else
      var present :- In(SimpleActions[i], w);
      if present then
        var action :- SimpleAction(w, SimpleActions[i]);
        assert FirstPresent(w, i, i);
        Ok(Some(action))
      else
        var rest := FirstAction(w, i + 1);
        assert rest.Ok? && rest.value.Some? ==>
          exists k :: FirstPresent(w, i, k) && rest.value.value.kind == SimpleActions[k] by {
          if rest.Ok? && rest.value.Some? {
            var k :| FirstPresent(w, i + 1, k) && rest.value.value.kind == SimpleActions[k];
            FirstPresentAfter(w, i, k);
          }
        }
        rest
  }

  /** A kind the element lacks does not stop the search for the first present one. */
  lemma FirstPresentAfter(w: Json, i: nat, k: int)
    requires i < |SimpleActions| && In(SimpleActions[i], w) == Ok(false)
    requires FirstPresent(w, i + 1, k)
    ensures FirstPresent(w, i, k)
  {
  }

  /** `make_weapon_action(weapon_action_element)`: the first simple action present,
      else the action inside the first entry of a sequence, else None. */
  function WeaponAction(w: Json): (r: Result<Option<Action>>)
    ensures r.Ok? && r.value.Some? ==> r.value.value.kind in SimpleActions
    ensures r.Ok? && FirstAction(w, 0).Ok? && FirstAction(w, 0).value.Some? ==> r == FirstAction(w, 0)
    decreases w
  {
    var first :- FirstAction(w, 0);
    if first.Some? then Ok(first)
    else
      var sequence :- SingleOf(w, "sweaponactionsequenceparams");
      if !Truthy(sequence) then Ok(None)
      else
        var entries :- SingleOf(sequence, "sequenceentries");
        var entry :- SingleOf(entries, "sweaponsequenceentryparams");
        var inner :- SingleOf(entry, "weaponaction");
        if !Truthy(inner) then Ok(None)
        else
          SingleSmaller(w, "sweaponactionsequenceparams");
          SingleSmaller(sequence, "sequenceentries");
          SingleSmaller(entries, "sweaponsequenceentryparams");
          SingleSmaller(entry, "weaponaction");
          WeaponAction(inner)
  }

  /** A weapon without any simple action or sequence fires nothing it names. */
  lemma NoActionWithoutKinds(w: Json)
    requires w.Obj?
    requires forall k :: 0 <= k < |SimpleActions| ==> !HasKey(w.fields, SimpleActions[k])
    requires !HasKey(w.fields, "sweaponactionsequenceparams")
    ensures WeaponAction(w) == Ok(None)
  {
  }

  // ---- make_axis_limit / make_angle_limit ----

  /** An angle limit without its floating-point angles: whether it carries `turretRotation`. */
  datatype AngleLimit = AngleLimit(hasTurretRotation: bool)

  /** The limit of a turret axis: the standard one, or the list of custom ones. */
  datatype AxisLimit = StandardLimit(limit: AngleLimit) | CustomLimit(limits: seq<AngleLimit>)

  /** `make_angle_limit(angle_element)` */
  function MakeAngleLimit(a: Json): (r: Result<AngleLimit>)
    ensures r.Ok? <==> a.Obj?
    ensures r.Ok? ==> (r.value.hasTurretRotation <==> HasKey(a.fields, "@turretrotation"))
  {
    if !a.Obj? then Err(AttributeError) else Ok(AngleLimit(HasKey(a.fields, "@turretrotation")))
  }

  function AngleLimits(xs: seq<Json>): (r: Result<seq<AngleLimit>>)
    ensures r.Ok? <==> forall i :: 0 <= i < |xs| ==> xs[i].Obj?
    ensures r.Ok? ==> |r.value| == |xs| && forall i :: 0 <= i < |xs| ==> MakeAngleLimit(xs[i]) == Ok(r.value[i])
  {
    if forall i :: 0 <= i < |xs| ==> xs[i].Obj? then
      Ok(seq(|xs|, i requires 0 <= i < |xs| => AngleLimit(HasKey(xs[i].fields, "@turretrotation"))))
    else Err(AttributeError)
  }

  /** `limits_element` of an axis. */
  function AngleLimitsOf(axis: Json): (r: Result<Json>)
    ensures SingleOf(axis, "scitemturretjointmovementaxisparams").Err? ==>
      r == Err(SingleOf(axis, "scitemturretjointmovementaxisparams").error)
    ensures r.Ok? ==> SingleOf(axis, "scitemturretjointmovementaxisparams").Ok?
    ensures !axis.Obj? ==> r == Err(AttributeError)
  {
    var params :- SingleOf(axis, "scitemturretjointmovementaxisparams");
    SingleOf(params, "anglelimits")
  }

  /** `make_axis_limit(axis_element)`: both kinds are looked up, the standard limit
      wins, and without either the result is None. */
  function MakeAxisLimit(axis: Json): (r: Result<Option<AxisLimit>>)
    ensures r.Ok? ==>
      && AngleLimitsOf(axis).Ok?
      && SingleOf(AngleLimitsOf(axis).value, "scitemturretstandardanglelimitparams").Ok?
      && SingleOf(AngleLimitsOf(axis).value, "scitemturretcustomanglelimitparams").Ok?
    ensures r.Ok? ==>
      var limits := AngleLimitsOf(axis).value;
      var standard := SingleOf(limits, "scitemturretstandardanglelimitparams").value;
      var custom := SingleOf(limits, "scitemturretcustomanglelimitparams").value;
      && (Truthy(standard) ==> r.value.Some? && r.value.value.StandardLimit? && MakeAngleLimit(standard) == Ok(r.value.value.limit))
      && (!Truthy(standard) && Truthy(custom) ==> r.value.Some? && r.value.value.CustomLimit?)
      && (!Truthy(standard) && !Truthy(custom) ==> r.value.None?)
  {
    var limits :- AngleLimitsOf(axis);
    var standard :- SingleOf(limits, "scitemturretstandardanglelimitparams");
    var custom :- SingleOf(limits, "scitemturretcustomanglelimitparams");
    if Truthy(standard) then
      var limit :- MakeAngleLimit(standard);
      Ok(Some(StandardLimit(limit)))
    else if Truthy(custom) then
      var holder :- SingleOf(custom, "anglelimits");
      var list :- GetKey(holder, "scitemturretcustomanglelimit");
      var xs :- Iterate(list);
      var all :- AngleLimits(xs);
      Ok(Some(CustomLimit(all)))
    else Ok(None)
  }
}
