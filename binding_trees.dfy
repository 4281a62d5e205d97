/** Building binding trees: `ItemBinding.setItem` of model.js (which also equips
    each child with the default item its parent item names) and of next/model.js
    (whose children start empty), and the `VehicleLoadout` constructor of
    next/model.js, which sets every binding to the default item found at its path.
    The source mutates bindings in place; here each operation returns the new
    binding, and a method with the source's loop is proved equal to the function
    that specifies it. */
module BindingTrees {
  import opened Wrappers
  import opened Dicts
  import opened Bindings

  /** `new ItemBinding(loadout, port, parent)`: its `setItem(undefined)` leaves no item and no bindings. */
  function Unbound<T>(port: Port<T>): Binding<T> {
    Binding(port, None, [])
  }

  /** A key read from `update` onto an empty object names an entry it was given. */
  lemma GetFromEntries<V>(e: Dict<string, V>, k: string)
    requires HasKey(Update([], e), k)
    ensures Entry(k, Get(Update([], e), k).value) in e
  {
    var r := Update([], e);
    var i := IndexOf(r, k).value;
    assert r[i] == Entry(k, Get(r, k).value);
    assert r[i] in r;
    UpdateFrom([], e);
  }

  /** Keys after `update` onto an empty object are exactly the keys of the entries. */
  lemma KeysFromEntries<V>(e: Dict<string, V>, k: string)
    ensures HasKey(Update([], e), k) <==> exists j :: 0 <= j < |e| && e[j].key == k
  {
    if HasKey(e, k) {
      var j := IndexOf(e, k).value;
      assert e[j].key == k;
    }
  }

  // ---- setItem, next/model.js ----

  /** One unbound child per port, under the port's name, in port order. */
  function UnboundChildren<T>(ports: seq<Port<T>>): (e: Dict<string, Binding<T>>)
    ensures |e| == |ports|
  {
    seq(|ports|, i requires 0 <= i < |ports| => Entry(ports[i].name, Unbound(ports[i])))
  }

  /** The binding `setItem(itemName)` of next/model.js leaves on a binding of `port`. */
  function BoundV2<T>(catalog: Catalog<T>, port: Port<T>, itemName: Option<string>): Binding<T> {
    var item := Lookup(catalog, itemName);
    Binding(port, item, if item.None? then [] else Update([], UnboundChildren(Values(item.value.ports))))
  }

  /** After `update` with one unbound child per port, a key is present exactly when some
      port has that name, and it holds an unbound binding of such a port. */
  lemma UnboundChildrenAt<T>(ports: seq<Port<T>>, k: string)
    ensures HasKey(Update([], UnboundChildren(ports)), k) <==> exists j :: 0 <= j < |ports| && ports[j].name == k
    ensures HasKey(Update([], UnboundChildren(ports)), k) ==>
      exists j :: 0 <= j < |ports| && ports[j].name == k && Get(Update([], UnboundChildren(ports)), k) == Some(Unbound(ports[j]))
  {
    var e := UnboundChildren(ports);
    KeysFromEntries(e, k);
    assert forall j :: 0 <= j < |e| ==> e[j].key == ports[j].name;
    if HasKey(Update([], e), k) {
      var c := Get(Update([], e), k).value;
      GetFromEntries(e, k);
      var j :| 0 <= j < |e| && e[j] == Entry(k, c);
      assert e[j] == Entry(ports[j].name, Unbound(ports[j]));
      assert ports[j].name == k && Get(Update([], e), k) == Some(Unbound(ports[j]));
    }
  }

  /** next/model.js `setItem`: the item is the catalog's entry for the name, if any; an
      unknown name leaves no bindings; otherwise there is one binding per port of the
      item, under that port's name, and none of them has an item yet. */
  lemma BoundV2Shape<T>(catalog: Catalog<T>, port: Port<T>, itemName: Option<string>, k: string)
    ensures BoundV2(catalog, port, itemName).port == port
    ensures BoundV2(catalog, port, itemName).item == Lookup(catalog, itemName)
    ensures Lookup(catalog, itemName).None? ==> BoundV2(catalog, port, itemName).bindings == []
    ensures Lookup(catalog, itemName).Some? ==>
      var ports := Values(Lookup(catalog, itemName).value.ports);
      HasKey(BoundV2(catalog, port, itemName).bindings, k) <==> exists j :: 0 <= j < |ports| && ports[j].name == k
    ensures Lookup(catalog, itemName).Some? && HasKey(BoundV2(catalog, port, itemName).bindings, k) ==>
      var ports := Values(Lookup(catalog, itemName).value.ports);
      exists j :: 0 <= j < |ports| && ports[j].name == k && Get(BoundV2(catalog, port, itemName).bindings, k) == Some(Unbound(ports[j]))
  {
    var item := Lookup(catalog, itemName);
    if item.Some? {
      UnboundChildrenAt(Values(item.value.ports), k);
    }
  }

  /** Fresh children are keyed by their own ports' names. */
  lemma UnboundKeyed<T>(ports: seq<Port<T>>)
    ensures forall x :: x in Update([], UnboundChildren(ports)) ==> x.key == x.val.port.name
  {
    UpdateFrom([], UnboundChildren(ports));
  }

  /** The children of a binding are keyed by their own ports' names. */
  lemma BoundV2Keyed<T>(catalog: Catalog<T>, port: Port<T>, itemName: Option<string>)
    ensures forall x :: x in BoundV2(catalog, port, itemName).bindings ==> x.key == x.val.port.name
  {
    var b := BoundV2(catalog, port, itemName);
    if b.item.Some? {
      UnboundKeyed(Values(b.item.value.ports));
    }
  }

  /** `setItem(itemName)` of next/model.js: the loop that creates the child bindings. */
  method SetItemV2<T>(catalog: Catalog<T>, port: Port<T>, itemName: Option<string>) returns (b: Binding<T>)
    ensures b == BoundV2(catalog, port, itemName)
  {
    var item := Lookup(catalog, itemName);
    if item.None? {
      return Binding(port, None, []);
    }
    var ports := Values(item.value.ports);
    ghost var entries := UnboundChildren(ports);
    var bindings: Dict<string, Binding<T>> := [];
    var i := 0;
    while i < |ports|
      invariant 0 <= i <= |ports|
      invariant bindings == Update([], entries[..i])
    {
      UpdatePrefix([], entries, i);
      bindings := Put(bindings, ports[i].name, Binding(ports[i], None, []));
      i := i + 1;
    }
    assert entries[..i] == entries;
    b := Binding(port, item, bindings);
  }

  // ---- setItem, model.js ----

  /** `child._defaultItem()` for a child on `portName` below an item: the `itemName` of the
      item's default entry for that port. */
  function DefaultChildName<T>(item: Item<T>, portName: string): Option<string> {
    match Get(item.defaultItems, portName)
    case None => None
    case Some(e) => e.itemName
  }

  /** Whether the child on `portName` gets its default item: the name is truthy and
      in the catalog. */
  predicate TakesDefault<T>(catalog: Catalog<T>, item: Item<T>, portName: string) {
    var name := DefaultChildName(item, portName);
    !Falsy(name) && HasKey(catalog, name.value)
  }

  /** The binding `setItem(itemName)` of model.js leaves on a binding of `port`. Each
      nested `setItem` uses one unit of `fuel`; running out stands for the engine's
      call-stack limit (a catalog whose default items contain themselves). */
  function BoundV1<T>(catalog: Catalog<T>, port: Port<T>, itemName: Option<string>, fuel: nat): (r: Result<Binding<T>>)
    ensures r.Ok? ==> r.value.port == port && r.value.item == Lookup(catalog, itemName)
    ensures Lookup(catalog, itemName).None? ==> r == Ok(Unbound(port))
    decreases fuel, 1, 0
  {
    var item := Lookup(catalog, itemName);
    if item.None? then Ok(Unbound(port))
    else if fuel == 0 then Err(Thrown("too much recursion"))
    else
      var children :- ChildrenV1(catalog, item.value, Values(item.value.ports), fuel - 1);
      Ok(Binding(port, item, Update([], children)))
  }

  /** The child bindings `setItem` creates, one entry per port in port order. */
  function ChildrenV1<T>(catalog: Catalog<T>, item: Item<T>, ports: seq<Port<T>>, fuel: nat): (r: Result<Dict<string, Binding<T>>>)
    ensures r.Ok? ==> |r.value| == |ports|
    decreases fuel, 2, |ports|
  {
    if ports == [] then Ok([])
    else
      var child :- ChildV1(catalog, item, ports[0], fuel);
      var rest :- ChildrenV1(catalog, item, ports[1..], fuel);
      Ok([Entry(ports[0].name, child)] + rest)
  }

  /** One child: a fresh binding, set to its default item when that is truthy and known. */
  function ChildV1<T>(catalog: Catalog<T>, item: Item<T>, port: Port<T>, fuel: nat): (r: Result<Binding<T>>)
    ensures r.Ok? ==> r.value.port == port
    ensures r.Ok? ==> r.value.item == if TakesDefault(catalog, item, port.name) then Get(catalog, DefaultChildName(item, port.name).value) else None
    decreases fuel, 1, 1
  {
    if TakesDefault(catalog, item, port.name) then BoundV1(catalog, port, DefaultChildName(item, port.name), fuel)
    else Ok(Unbound(port))
  }

  /** Each entry of the children is the child made for the port at the same position. */
  lemma {:induction false} ChildrenV1Entries<T>(catalog: Catalog<T>, item: Item<T>, ports: seq<Port<T>>, fuel: nat)
    requires ChildrenV1(catalog, item, ports, fuel).Ok?
    ensures forall i :: 0 <= i < |ports| ==>
      var es := ChildrenV1(catalog, item, ports, fuel).value;
      es[i].key == ports[i].name && ChildV1(catalog, item, ports[i], fuel) == Ok(es[i].val)
    decreases |ports|
  {
    if ports != [] {
      ChildrenV1Entries(catalog, item, ports[1..], fuel);
      var es := ChildrenV1(catalog, item, ports, fuel).value;
      forall i | 1 <= i < |ports|
        ensures es[i].key == ports[i].name && ChildV1(catalog, item, ports[i], fuel) == Ok(es[i].val)
      {
        assert ports[1..][i - 1] == ports[i];
      }
    }
  }

  /** model.js `setItem`, seen from key `k`: no item leaves no bindings; an item gives one
      binding per port of the item, under that port's name, holding the default item the
      item names for that port when the catalog has it, and nothing otherwise. */
  ghost predicate SetUpAt<T>(catalog: Catalog<T>, b: Binding<T>, k: string) {
    && (b.item.None? ==> b.bindings == [])
    && (b.item.Some? ==>
          var ports := Values(b.item.value.ports);
          HasKey(b.bindings, k) <==> exists j :: 0 <= j < |ports| && ports[j].name == k)
    && (b.item.Some? && HasKey(b.bindings, k) ==>
          var c := Get(b.bindings, k).value;
          && c.port.name == k
          && (exists j :: 0 <= j < |b.item.value.ports| && b.item.value.ports[j].val == c.port)
          && c.item == if TakesDefault(catalog, b.item.value, k) then Get(catalog, DefaultChildName(b.item.value, k).value) else None)
  }

  /** Every binding `setItem` completes has that shape at every key. */
  lemma BoundV1Shape<T>(catalog: Catalog<T>, port: Port<T>, itemName: Option<string>, fuel: nat, k: string)
    requires BoundV1(catalog, port, itemName, fuel).Ok?
    ensures SetUpAt(catalog, BoundV1(catalog, port, itemName, fuel).value, k)
  {
    var item := Lookup(catalog, itemName);
    if item.Some? {
      BoundV1Unfold(catalog, port, itemName, fuel);
      ChildrenShape(catalog, port, item.value, fuel - 1, k);
    }
  }

  /** The binding `setItem` makes for a known item, once its children are made. */
  lemma ChildrenShape<T>(catalog: Catalog<T>, port: Port<T>, item: Item<T>, fuel: nat, k: string)
    requires ChildrenV1(catalog, item, Values(item.ports), fuel).Ok?
    ensures SetUpAt(catalog, Binding(port, Some(item), Update([], ChildrenV1(catalog, item, Values(item.ports), fuel).value)), k)
  {
    var ports := Values(item.ports);
    var es := ChildrenV1(catalog, item, ports, fuel).value;
    ChildrenV1Entries(catalog, item, ports, fuel);
    EntriesShape(catalog, item, ports, fuel, es, k);
  }

  /** The bindings `Update([], es)` of entries made port by port for `item`. */
  lemma EntriesShape<T>(catalog: Catalog<T>, item: Item<T>, ports: seq<Port<T>>, fuel: nat, es: Dict<string, Binding<T>>, k: string)
    requires ports == Values(item.ports) && |es| == |ports|
    requires forall i :: 0 <= i < |ports| ==>
      es[i].key == ports[i].name && ChildV1(catalog, item, ports[i], fuel) == Ok(es[i].val)
    ensures HasKey(Update([], es), k) <==> exists j :: 0 <= j < |ports| && ports[j].name == k
    ensures HasKey(Update([], es), k) ==>
        var c := Get(Update([], es), k).value;
        && c.port.name == k
        && (exists j :: 0 <= j < |item.ports| && item.ports[j].val == c.port)
        && c.item == if TakesDefault(catalog, item, k) then Get(catalog, DefaultChildName(item, k).value) else None
  {
    KeysFromEntries(es, k);
    assert forall j :: 0 <= j < |es| ==> es[j].key == ports[j].name;
    if HasKey(Update([], es), k) {
      var c := Get(Update([], es), k).value;
      GetFromEntries(es, k);
      var j :| 0 <= j < |es| && es[j] == Entry(k, c);
      assert ChildV1(catalog, item, ports[j], fuel) == Ok(c);
      assert item.ports[j].val == ports[j];
    }
  }

  /** More fuel never changes a result that was reached: the fuel only bounds the depth. */
  lemma {:induction false} BoundV1Fuel<T>(catalog: Catalog<T>, port: Port<T>, itemName: Option<string>, fuel: nat, more: nat)
    requires fuel <= more
    ensures BoundV1(catalog, port, itemName, fuel).Ok? ==>
      BoundV1(catalog, port, itemName, more) == BoundV1(catalog, port, itemName, fuel)
    decreases fuel, 1, 0
  {
    var item := Lookup(catalog, itemName);
    if item.None? {
      assert BoundV1(catalog, port, itemName, fuel) == Ok(Unbound(port));
      assert BoundV1(catalog, port, itemName, more) == Ok(Unbound(port));
    } else {
      BoundV1Unfold(catalog, port, itemName, fuel);
      if fuel != 0 {
        var it := item.value;
        var ps := Values(it.ports);
        ChildrenV1Fuel(catalog, it, ps, fuel - 1, more - 1);
        BoundV1Unfold(catalog, port, itemName, more);
        if ChildrenV1(catalog, it, ps, fuel - 1).Ok? {
          assert ChildrenV1(catalog, it, ps, more - 1) == ChildrenV1(catalog, it, ps, fuel - 1);
          assert BoundV1(catalog, port, itemName, more) == BoundV1(catalog, port, itemName, fuel);
        }
      }
    }
  }

  /** One step of `setItem` on a known item: its children with one unit of fuel less. */
  lemma BoundV1Unfold<T>(catalog: Catalog<T>, port: Port<T>, itemName: Option<string>, fuel: nat)
    requires Lookup(catalog, itemName).Some?
    ensures fuel == 0 ==> BoundV1(catalog, port, itemName, fuel).Err?
    ensures fuel != 0 ==>
      var item := Lookup(catalog, itemName).value;
      var children := ChildrenV1(catalog, item, Values(item.ports), fuel - 1);
      (children.Err? ==> BoundV1(catalog, port, itemName, fuel).Err?) &&
      (children.Ok? ==> BoundV1(catalog, port, itemName, fuel) == Ok(Binding(port, Some(item), Update([], children.value))))
  {
  }

  lemma {:induction false} ChildrenV1Fuel<T>(catalog: Catalog<T>, item: Item<T>, ports: seq<Port<T>>, fuel: nat, more: nat)
    requires fuel <= more
    ensures ChildrenV1(catalog, item, ports, fuel).Ok? ==>
      ChildrenV1(catalog, item, ports, more) == ChildrenV1(catalog, item, ports, fuel)
    decreases fuel, 2, |ports|
  {
    if ports != [] {
      ChildV1Fuel(catalog, item, ports[0], fuel, more);
      ChildrenV1Fuel(catalog, item, ports[1..], fuel, more);
    }
  }

  lemma {:induction false} ChildV1Fuel<T>(catalog: Catalog<T>, item: Item<T>, port: Port<T>, fuel: nat, more: nat)
    requires fuel <= more
    ensures ChildV1(catalog, item, port, fuel).Ok? ==>
      ChildV1(catalog, item, port, more) == ChildV1(catalog, item, port, fuel)
    decreases fuel, 1, 1
  {
    if TakesDefault(catalog, item, port.name) {
      BoundV1Fuel(catalog, port, DefaultChildName(item, port.name), fuel, more);
    }
  }

  /** The entries `es` followed by those of `r`, or the error of `r`. */
  function Prefixed<V>(es: Dict<string, V>, r: Result<Dict<string, V>>): Result<Dict<string, V>> {
    match r
    case Ok(rest) => Ok(es + rest)
    case Err(e) => Err(e)
  }

  /** One more child of the loop in `setItem`, or the error it raised. */
  lemma ChildrenV1Step<T>(catalog: Catalog<T>, item: Item<T>, ports: seq<Port<T>>, i: nat, fuel: nat, es: Dict<string, Binding<T>>)
    requires i < |ports|
    ensures ChildV1(catalog, item, ports[i], fuel).Err? ==>
      Prefixed(es, ChildrenV1(catalog, item, ports[i..], fuel)) == Err(ChildV1(catalog, item, ports[i], fuel).error)
    ensures ChildV1(catalog, item, ports[i], fuel).Ok? ==>
      Prefixed(es, ChildrenV1(catalog, item, ports[i..], fuel))
      == Prefixed(es + [Entry(ports[i].name, ChildV1(catalog, item, ports[i], fuel).value)], ChildrenV1(catalog, item, ports[i + 1..], fuel))
  {
    assert ports[i..][0] == ports[i] && ports[i..][1..] == ports[i + 1..];
    var c := ChildV1(catalog, item, ports[i], fuel);
    if c.Ok? {
      match ChildrenV1(catalog, item, ports[i + 1..], fuel)
      case Ok(rest) =>
        assert es + ([Entry(ports[i].name, c.value)] + rest) == (es + [Entry(ports[i].name, c.value)]) + rest;
      case Err(_) =>
    }
  }

  /** One iteration of that loop: a fresh child, set to its default item when it has one. */
  method MakeChildV1<T>(catalog: Catalog<T>, item: Item<T>, port: Port<T>, fuel: nat) returns (r: Result<Binding<T>>)
    ensures r == ChildV1(catalog, item, port, fuel)
    decreases fuel, 1, 1
  {
    var name := DefaultChildName(item, port.name);
    if !Falsy(name) && HasKey(catalog, name.value) {
      r := SetItemV1(catalog, port, name, fuel);
    } else {
      r := Ok(Binding(port, None, []));
    }
  }

  /** model.js `setItem(itemName)`: the loop over the item's ports, each child set to its
      default item by a nested `setItem`. */
  method SetItemV1<T>(catalog: Catalog<T>, port: Port<T>, itemName: Option<string>, fuel: nat) returns (r: Result<Binding<T>>)
    ensures r == BoundV1(catalog, port, itemName, fuel)
    decreases fuel, 1, 0
  {
    var item := Lookup(catalog, itemName);
    if item.None? {
      return Ok(Binding(port, None, []));
    }
    BoundV1Unfold(catalog, port, itemName, fuel);
    if fuel == 0 {
      return Err(Thrown("too much recursion"));
    }
    var bindings := MakeChildrenV1(catalog, item.value, Values(item.value.ports), fuel - 1);
    if bindings.Err? {
      return Err(bindings.error);
    }
    r := Ok(Binding(port, item, bindings.value));
  }

  /** The loop of model.js `setItem` over the item's ports: each child binding is made and
      assigned under its port's name, and the first error stops the loop. */
  method MakeChildrenV1<T>(catalog: Catalog<T>, item: Item<T>, ports: seq<Port<T>>, fuel: nat) returns (r: Result<Dict<string, Binding<T>>>)
    ensures ChildrenV1(catalog, item, ports, fuel).Ok? ==> r == Ok(Update([], ChildrenV1(catalog, item, ports, fuel).value))
    ensures ChildrenV1(catalog, item, ports, fuel).Err? ==> r == Err(ChildrenV1(catalog, item, ports, fuel).error)
    decreases fuel, 2
  {
    ghost var entries: Dict<string, Binding<T>> := [];
    var bindings: Dict<string, Binding<T>> := [];
    var i := 0;
    assert ports[i..] == ports;
    match ChildrenV1(catalog, item, ports, fuel) {
      case Ok(all) => assert entries + all == all;
      case Err(_) =>
    }
    while i < |ports|
      invariant 0 <= i <= |ports|
      invariant bindings == Update([], entries)
      invariant ChildrenV1(catalog, item, ports, fuel) == Prefixed(entries, ChildrenV1(catalog, item, ports[i..], fuel))
    {
      ChildrenV1Step(catalog, item, ports, i, fuel, entries);
      var next;
      next, entries := AssignChildV1(catalog, item, ports[i], fuel, entries, bindings);
      if next.Err? {
        return Err(next.error);
      }
      bindings := next.value;
      i := i + 1;
    }
    assert ports[i..] == [] && entries + [] == entries;
    r := Ok(bindings);
  }

  /** One pass of that loop: the child for `port` is made and assigned under the port's name. */
  method AssignChildV1<T>(catalog: Catalog<T>, item: Item<T>, port: Port<T>, fuel: nat,
                          ghost entries: Dict<string, Binding<T>>, bindings: Dict<string, Binding<T>>)
    returns (r: Result<Dict<string, Binding<T>>>, ghost after: Dict<string, Binding<T>>)
    requires bindings == Update([], entries)
    ensures ChildV1(catalog, item, port, fuel).Err? ==> r == Err(ChildV1(catalog, item, port, fuel).error)
    ensures ChildV1(catalog, item, port, fuel).Ok? ==>
      after == entries + [Entry(port.name, ChildV1(catalog, item, port, fuel).value)] && r == Ok(Update([], after))
    decreases fuel, 1, 2
  {
    var got := MakeChildV1(catalog, item, port, fuel);
    if got.Err? {
      return Err(got.error), entries;
    }
    PutAfterUpdate([], entries, port.name, got.value);
    after := entries + [Entry(port.name, got.value)];
    r := Ok(Put(bindings, port.name, got.value));
  }

  // ---- the VehicleLoadout constructor, next/model.js ----

  /** `setDefaultItems` on one binding of `port` whose siblings' default entries are
      `container`: the binding is set to the item its default entry names, then each of
      its new children is filled the same way from that entry's children. */
  function Filled<T>(catalog: Catalog<T>, port: Port<T>, container: Dict<string, DefaultEntry>): Binding<T>
    decreases container, 0
  {
    match IndexOf(container, port.name)
    case None => BoundV2(catalog, port, None)
    case Some(i) =>
      assert container[i] in container && container[i].val < container[i];
      var entry := container[i].val;
      var b := BoundV2(catalog, port, entry.itemName);
      b.(bindings := FillAll(catalog, b.bindings, entry.children))
  }

  /** `setDefaultItems(container)`: every binding of `bs` filled from `container`. */
  function FillAll<T>(catalog: Catalog<T>, bs: Dict<string, Binding<T>>, container: Dict<string, DefaultEntry>): (r: Dict<string, Binding<T>>)
    ensures |r| == |bs| && forall i :: 0 <= i < |bs| ==> r[i].key == bs[i].key
    decreases container, 1
  {
    seq(|bs|, i requires 0 <= i < |bs| => Entry(bs[i].key, Filled(catalog, bs[i].val.port, container)))
  }

  /** The bindings of `new VehicleLoadout(vehicleName)` in next/model.js: one per vehicle
      port under its name, each filled with the vehicle's default loadout. */
  function DefaultLoadoutV2<T>(catalog: Catalog<T>, vehicle: Vehicle<T>): Dict<string, Binding<T>> {
    FillAll(catalog, Update([], UnboundChildren(vehicle.ports)), vehicle.defaultItems)
  }

  /** Filling keeps every binding's port and key. */
  lemma FillAllAt<T>(catalog: Catalog<T>, bs: Dict<string, Binding<T>>, container: Dict<string, DefaultEntry>, k: string)
    requires HasKey(FillAll(catalog, bs, container), k)
    ensures HasKey(bs, k)
    ensures Get(FillAll(catalog, bs, container), k) == Some(Filled(catalog, Get(bs, k).value.port, container))
  {
    var r := FillAll(catalog, bs, container);
    SameKeysEverywhere(r, bs);
  }

  /** Every vehicle port has a binding, and the bindings sit under their ports' names. */
  lemma DefaultLoadoutV2Keys<T>(catalog: Catalog<T>, vehicle: Vehicle<T>, k: string)
    ensures HasKey(DefaultLoadoutV2(catalog, vehicle), k) <==> exists j :: 0 <= j < |vehicle.ports| && vehicle.ports[j].name == k
    ensures HasKey(DefaultLoadoutV2(catalog, vehicle), k) ==> Get(DefaultLoadoutV2(catalog, vehicle), k).value.port.name == k
  {
    var bs := Update([], UnboundChildren(vehicle.ports));
    SameKeysEverywhere(DefaultLoadoutV2(catalog, vehicle), bs);
    UnboundChildrenAt(vehicle.ports, k);
    if HasKey(bs, k) {
      FillAllAt(catalog, bs, vehicle.defaultItems, k);
    }
  }

  /** The default entries one level below `prefix`: the vehicle's own for the empty
      prefix, the children of the entry at `prefix` otherwise, none when it is missing. */
  function ChildrenAt(defaults: Dict<string, DefaultEntry>, prefix: seq<string>): Dict<string, DefaultEntry> {
    if prefix == [] then defaults
    else match EntryAt(defaults, prefix)
      case None => []
      case Some(e) => e.children
  }

  /** Looking a name up one level below `prefix` is following `prefix` and then that name. */
  lemma ChildrenAtGet(defaults: Dict<string, DefaultEntry>, prefix: seq<string>, k: string)
    ensures Get(ChildrenAt(defaults, prefix), k) == EntryAt(defaults, prefix + [k])
  {
    if prefix == [] {
      assert prefix + [k] == [k];
    } else {
      EntryAtSnoc(defaults, prefix, k);
    }
  }

  /** A filled binding holds the item the default entry at its path names. */
  lemma FilledItem<T>(catalog: Catalog<T>, defaults: Dict<string, DefaultEntry>, port: Port<T>, prefix: seq<string>)
    ensures Filled(catalog, port, ChildrenAt(defaults, prefix)).item == Lookup(catalog, DefaultItem(defaults, prefix + [port.name]).value)
  {
    ChildrenAtGet(defaults, prefix, port.name);
  }

  /** Below a filled binding with a default entry: its children, filled from the
      entry's children. */
  lemma FilledChildren<T>(catalog: Catalog<T>, port: Port<T>, container: Dict<string, DefaultEntry>, entry: DefaultEntry)
    requires Get(container, port.name) == Some(entry)
    ensures Filled(catalog, port, container).bindings == FillAll(catalog, BoundV2(catalog, port, entry.itemName).bindings, entry.children)
  {
  }

  /** Without a default entry a filled binding has nothing below it. */
  lemma FilledNoEntry<T>(catalog: Catalog<T>, port: Port<T>, container: Dict<string, DefaultEntry>)
    requires Get(container, port.name).None?
    ensures Filled(catalog, port, container).bindings == []
  {
  }

  /** A path is its first name followed by the rest. */
  lemma PathSplit(prefix: seq<string>, names: seq<string>)
    requires |names| > 0
    ensures (prefix + [names[0]]) + names[1..] == prefix + names
    ensures |names| == 1 ==> prefix + names == prefix + [names[0]]
  {
    assert names == [names[0]] + names[1..];
  }

  /** The item of the binding reached by `names` below a filled list is the default item
      at `prefix + names`, where `container` holds the default entries one level below `prefix`. */
  lemma {:induction false} FilledByPath<T>(catalog: Catalog<T>, defaults: Dict<string, DefaultEntry>,
                                           bs: Dict<string, Binding<T>>, container: Dict<string, DefaultEntry>,
                                           prefix: seq<string>, names: seq<string>)
    requires container == ChildrenAt(defaults, prefix)
    requires forall x :: x in bs ==> x.key == x.val.port.name
    requires |names| > 0 && ChainTo(FillAll(catalog, bs, container), names).Some?
    ensures ChainTo(FillAll(catalog, bs, container), names).value.0.item
         == Lookup(catalog, DefaultItem(defaults, prefix + names).value)
    decreases |names|
  {
    var n := names[0];
    var filled := FillAll(catalog, bs, container);
    var port := Get(bs, n).value.port;
    var c := Filled(catalog, port, container);
    assert port.name == n && Get(filled, n) == Some(c) by {
      FillAllAt(catalog, bs, container, n);
      var j := IndexOf(bs, n).value;
      assert bs[j] in bs;
    }
    if |names| == 1 {
      assert c.item == Lookup(catalog, DefaultItem(defaults, prefix + [n]).value) by {
        FilledItem(catalog, defaults, port, prefix);
      }
      PathSplit(prefix, names);
    } else {
      assert ChainTo(c.bindings, names[1..]).Some? && ChainTo(filled, names).value.0 == ChainTo(c.bindings, names[1..]).value.0 by {
        ChainToStep(filled, names);
      }
      assert Get(container, n) == EntryAt(defaults, prefix + [n]) by {
        ChildrenAtGet(defaults, prefix, n);
      }
      match Get(container, n)
      case None =>
        assert false;
      case Some(entry) =>
        var below := BoundV2(catalog, port, entry.itemName).bindings;
        assert c.bindings == FillAll(catalog, below, entry.children) by {
          FilledChildren(catalog, port, container, entry);
        }
        assert forall x :: x in below ==> x.key == x.val.port.name by {
          BoundV2Keyed(catalog, port, entry.itemName);
        }
        assert entry.children == ChildrenAt(defaults, prefix + [n]);
        PathSplit(prefix, names);
        FilledByPath(catalog, defaults, below, entry.children, prefix + [n], names[1..]);
    }
  }

  /** next/model.js constructor: the binding at every path of port names holds the item
      `getDefaultItem(path)` names, when the catalog has it, and nothing otherwise. */
  lemma DefaultLoadoutV2ByPath<T>(catalog: Catalog<T>, vehicle: Vehicle<T>, names: seq<string>)
    requires |names| > 0 && ChainTo(DefaultLoadoutV2(catalog, vehicle), names).Some?
    ensures ChainTo(DefaultLoadoutV2(catalog, vehicle), names).value.0.item
         == Lookup(catalog, DefaultItem(vehicle.defaultItems, names).value)
  {
    UnboundKeyed(vehicle.ports);
    FilledByPath(catalog, vehicle.defaultItems, Update([], UnboundChildren(vehicle.ports)), vehicle.defaultItems, [], names);
    assert [] + names == names;
  }

  /** `setDefaultItems` on one binding: `setItem` with the default item, then the children. */
  method FillDefaults<T>(catalog: Catalog<T>, port: Port<T>, container: Dict<string, DefaultEntry>) returns (b: Binding<T>)
    ensures b == Filled(catalog, port, container)
    decreases container, 0
  {
    var found := IndexOf(container, port.name);
    if found.None? {
      b := SetItemV2(catalog, port, None);
      return;
    }
    var i := found.value;
    assert container[i] in container && container[i].val < container[i];
    var entry := container[i].val;
    b := SetItemV2(catalog, port, entry.itemName);
    var children := FillDefaultsAll(catalog, b.bindings, entry.children);
    b := b.(bindings := children);
  }

  /** `setDefaultItems(container)`: the loop over the container's bindings. */
  method FillDefaultsAll<T>(catalog: Catalog<T>, bs: Dict<string, Binding<T>>, container: Dict<string, DefaultEntry>)
    returns (r: Dict<string, Binding<T>>)
    ensures r == FillAll(catalog, bs, container)
    decreases container, 1
  {
    r := [];
    var i := 0;
    while i < |bs|
      invariant 0 <= i <= |bs|
      invariant r == FillAll(catalog, bs, container)[..i]
    {
      var child := FillDefaults(catalog, bs[i].val.port, container);
      r := r + [Entry(bs[i].key, child)];
      i := i + 1;
    }
  }

  /** `new VehicleLoadout(vehicleName)` of next/model.js: one unbound binding per vehicle
      port, then every binding set to its default item, recursively. */
  method NewVehicleLoadoutV2<T>(catalog: Catalog<T>, vehicle: Vehicle<T>) returns (bindings: Dict<string, Binding<T>>)
    ensures bindings == DefaultLoadoutV2(catalog, vehicle)
  {
    ghost var entries := UnboundChildren(vehicle.ports);
    bindings := [];
    var i := 0;
    while i < |vehicle.ports|
      invariant 0 <= i <= |vehicle.ports|
      invariant bindings == Update([], entries[..i])
    {
      UpdatePrefix([], entries, i);
      bindings := Put(bindings, vehicle.ports[i].name, Binding(vehicle.ports[i], None, []));
      i := i + 1;
    }
    assert entries[..i] == entries;
    bindings := FillDefaultsAll(catalog, bindings, vehicle.defaultItems);
  }
}
