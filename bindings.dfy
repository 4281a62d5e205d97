/** The loadout model of model.js and next/model.js: ports, items, the default
    loadout tree of a vehicle, and the tree of item bindings, one per port.
    A binding tree is a value here; a binding's parent pointer becomes the
    list of ports from the binding up to the root. `T` is the form of the
    required tags: a list in the data model.js reads, an optional
    unsplit string in the data next/model.js reads. */
module Bindings {
  import opened Wrappers
  import opened Dicts
  import opened Lists

  /** `{type, subtype}`, with `type` as `kind`; a null subtype is None. */
  datatype PortType = PortType(kind: string, subtype: Option<string>)

  /** `{name, types, flags, minSize, maxSize, requiredTags}` of an item or vehicle port. */
  datatype Port<T> = Port(name: string, types: seq<PortType>, flags: seq<string>, minSize: int, maxSize: int, requiredTags: T)

  /** `{itemName, children}` of a default loadout. */
  datatype DefaultEntry = DefaultEntry(itemName: Option<string>, children: Dict<string, DefaultEntry>)

  /** An entry of `allItems`; its `type` is `kind`. */
  datatype Item<T> = Item(name: string, kind: string, subtype: Option<string>, size: int, requiredTags: T,
                          ports: Dict<string, Port<T>>, defaultItems: Dict<string, DefaultEntry>,
                          containerHash: Option<string>)

  /** An entry of `allVehicles`. */
  datatype Vehicle<T> = Vehicle(size: int, ports: seq<Port<T>>, defaultItems: Dict<string, DefaultEntry>, itemPortTags: T)

  /** An `ItemBinding`: its port, its item (`undefined` is None) and its child bindings by port name. */
  datatype Binding<T> = Binding(port: Port<T>, item: Option<Item<T>>, bindings: Dict<string, Binding<T>>)

  /** `allItems` */
  type Catalog<T> = Dict<string, Item<T>>

  /** `allItems[itemName]`: nothing for an undefined name or one the catalog lacks. */
  function Lookup<T>(catalog: Catalog<T>, itemName: Option<string>): (r: Option<Item<T>>)
    ensures itemName.None? ==> r.None?
    ensures itemName.Some? ==> r == Get(catalog, itemName.value)
  {
    if itemName.None? then None else Get(catalog, itemName.value)
  }

  /** `itemName`: the name of the bound item, if any. */
  function ItemName<T>(b: Binding<T>): (r: Option<string>)
    ensures r.Some? <==> b.item.Some?
  {
    if b.item.Some? then Some(b.item.value.name) else None
  }

  /** `uneditable`: the port carries the `uneditable` flag. */
  predicate Uneditable<T>(port: Port<T>) {
    "uneditable" in port.flags
  }

  // ---- path ----

  /** The port names from the root down: the reverse of the names along `chain`,
      which lists the ports of a binding, its parent, its grandparent, and so on. */
  function PathOf<T>(chain: seq<Port<T>>): (r: seq<string>)
    ensures |r| == |chain|
  {
    if chain == [] then [] else PathOf(chain[1..]) + [chain[0].name]
  }

  /** `path`: the loop that walks up the parents and puts each port name in front. */
  method Path<T>(chain: seq<Port<T>>) returns (result: seq<string>)
    ensures result == PathOf(chain)
    ensures forall i :: 0 <= i < |chain| ==> result[i] == chain[|chain| - 1 - i].name
  {
    result := [];
    var i := 0;
    while i < |chain|
      invariant 0 <= i <= |chain|
      invariant |result| == i
      invariant forall j :: 0 <= j < i ==> result[j] == chain[i - 1 - j].name
    {
      result := [chain[i].name] + result;
      i := i + 1;
    }
    PathIsReverse(chain);
  }

  /** The path is the list of names read from the root end of the chain. */
  lemma {:induction false} PathIsReverse<T>(chain: seq<Port<T>>)
    ensures forall i :: 0 <= i < |chain| ==> PathOf(chain)[i] == chain[|chain| - 1 - i].name
  {
    if chain != [] {
      PathIsReverse(chain[1..]);
    }
  }

  /** The binding reached from `bs` by the port names `names`, with the chain of
      ports from it up to the top. */
  function ChainTo<T>(bs: Dict<string, Binding<T>>, names: seq<string>): Option<(Binding<T>, seq<Port<T>>)>
    requires |names| > 0
    decreases |names|
  {
    match Get(bs, names[0])
    case None => None
    case Some(b) =>
      if |names| == 1 then Some((b, [b.port]))
      else match ChainTo(b.bindings, names[1..])
        case None => None
        case Some(found) => Some((found.0, found.1 + [b.port]))
  }

  /** A path of two or more names continues below the binding its first name reaches. */
  lemma ChainToStep<T>(bs: Dict<string, Binding<T>>, names: seq<string>)
    requires |names| > 1 && ChainTo(bs, names).Some?
    ensures Get(bs, names[0]).Some?
    ensures ChainTo(Get(bs, names[0]).value.bindings, names[1..]).Some?
    ensures ChainTo(bs, names).value.0 == ChainTo(Get(bs, names[0]).value.bindings, names[1..]).value.0
  {
  }

  /** Every binding of the tree sits under the name of its own port, as
      `bindings[port.name] = ...` puts it. */
  predicate KeyedByPort<T>(bs: Dict<string, Binding<T>>)
    decreases bs, 1
  {
    bs == [] || (
      assert bs[0] in bs && bs[0].val < bs[0];
      && bs[0].key == bs[0].val.port.name
      && KeyedBelow(bs[0].val)
      && KeyedByPort(bs[1..]))
  }

  /** The bindings below `b` are keyed by their ports. */
  predicate KeyedBelow<T>(b: Binding<T>)
    decreases b, 0
  {
    KeyedByPort(b.bindings)
  }

  lemma {:induction false} KeyedAt<T>(bs: Dict<string, Binding<T>>, i: nat)
    requires KeyedByPort(bs) && i < |bs|
    ensures bs[i].key == bs[i].val.port.name && KeyedByPort(bs[i].val.bindings)
    decreases i
  {
    if i > 0 {
      KeyedAt(bs[1..], i - 1);
    }
  }

  /** In a tree keyed by port names, the path of the binding reached by a list of
      names is that list. */
  lemma {:induction false} PathOfReached<T>(bs: Dict<string, Binding<T>>, names: seq<string>)
    requires |names| > 0 && KeyedByPort(bs) && ChainTo(bs, names).Some?
    ensures PathOf(ChainTo(bs, names).value.1) == names
    decreases |names|
  {
    var i := IndexOf(bs, names[0]).value;
    var b := bs[i].val;
    KeyedAt(bs, i);
    assert b.port.name == names[0];
    if |names| > 1 {
      PathOfReached(b.bindings, names[1..]);
      var below := ChainTo(b.bindings, names[1..]).value.1;
      PathAppend(below, b.port);
      assert names == [names[0]] + names[1..];
    }
  }

  lemma {:induction false} PathAppend<T>(chain: seq<Port<T>>, top: Port<T>)
    ensures PathOf(chain + [top]) == [top.name] + PathOf(chain)
  {
    if chain == [] {
    } else {
      assert (chain + [top])[1..] == chain[1..] + [top];
      PathAppend(chain[1..], top);
    }
  }

  // ---- getDefaultItem ----

  /** The default entry a non-empty path leads to, following `children` below the first segment. */
  function EntryAt(container: Dict<string, DefaultEntry>, path: seq<string>): Option<DefaultEntry>
    requires |path| > 0
    decreases |path|
  {
    match Get(container, path[0])
    case None => None
    case Some(e) => if |path| == 1 then Some(e) else EntryAt(e.children, path[1..])
  }

  /** `getDefaultItem(path)`: the item name of the entry the path leads to, None when a
      segment is missing; the empty path reads `undefined.itemName`, a TypeError. */
  function DefaultItem(defaults: Dict<string, DefaultEntry>, path: seq<string>): (r: Result<Option<string>>)
    ensures r.Err? <==> path == []
  {
    if path == [] then Err(TypeError)
    else match EntryAt(defaults, path)
      case None => Ok(None)
      case Some(e) => Ok(e.itemName)
  }

  /** One more segment looks in the children of the entry reached so far. */
  lemma {:induction false} EntryAtSnoc(container: Dict<string, DefaultEntry>, path: seq<string>, x: string)
    requires |path| > 0
    ensures EntryAt(container, path + [x]) ==
      (match EntryAt(container, path)
       case None => None
       case Some(e) => Get(e.children, x))
    decreases |path|
  {
    assert (path + [x])[0] == path[0];
    if |path| > 1 {
      assert (path + [x])[1..] == path[1..] + [x];
      match Get(container, path[0])
      case None =>
      case Some(e) => EntryAtSnoc(e.children, path[1..], x);
    }
  }

  /** The loop of `getDefaultItem`. */
  method GetDefaultItem(defaults: Dict<string, DefaultEntry>, path: seq<string>) returns (r: Result<Option<string>>)
    ensures r == DefaultItem(defaults, path)
  {
    var container := defaults;
    var entry: Option<DefaultEntry> := None;
    var i := 0;
    while i < |path|
      invariant 0 <= i <= |path|
      invariant i == 0 ==> entry.None? && container == defaults
      invariant i > 0 ==> EntryAt(defaults, path[..i]) == entry && entry.Some? && container == entry.value.children
    {
      entry := Get(container, path[i]);
      if i > 0 {
        EntryAtSnoc(defaults, path[..i], path[i]);
      }
      assert path[..i + 1] == path[..i] + [path[i]];
      if entry.None? {
        MissingStaysMissing(defaults, path, i + 1);
        return Ok(None);
      }
      container := entry.value.children;
      i := i + 1;
    }
    if entry.None? {
      return Err(TypeError);
    }
    assert path[..i] == path;
    return Ok(entry.value.itemName);
  }

  /** `getDefaultItem` gives up at the first missing segment: whatever follows, the result is None. */
  lemma {:induction false} MissingStaysMissing(defaults: Dict<string, DefaultEntry>, path: seq<string>, k: nat)
    requires 0 < k <= |path| && EntryAt(defaults, path[..k]).None?
    ensures EntryAt(defaults, path).None?
    decreases |path| - k
  {
    if k < |path| {
      EntryAtSnoc(defaults, path[..k], path[k]);
      assert path[..k + 1] == path[..k] + [path[k]];
      MissingStaysMissing(defaults, path, k + 1);
    } else {
      assert path[..k] == path;
    }
  }

  // ---- matching ----

  /** `matchesType(portType, itemType, itemSubtype)`: equal types, and a port subtype that is falsy or equal. */
  predicate MatchesType(pt: PortType, itemType: string, itemSubtype: Option<string>) {
    pt.kind == itemType && (Falsy(pt.subtype) || pt.subtype == itemSubtype)
  }

  /** The checks both versions of `matchesPort` make first: a port type that fits, the type
      filter when one is given, and each size bound only when it is truthy (non-zero). */
  predicate FitsTypeAndSize<T>(port: Port<T>, item: Item<T>, typeFilter: Option<string>) {
    && (exists i :: 0 <= i < |port.types| && MatchesType(port.types[i], item.kind, item.subtype))
    && (Falsy(typeFilter) || item.kind == typeFilter.value)
    && (port.minSize == 0 || item.size >= port.minSize)
    && (port.maxSize == 0 || item.size <= port.maxSize)
  }

  /** `matchesPort` of model.js: every tag the item requires is among the port's or the
      vehicle's, and every tag the port requires is among the item's. */
  predicate MatchesPortV1(port: Port<seq<string>>, item: Item<seq<string>>, typeFilter: Option<string>, vehicleTags: seq<string>) {
    && FitsTypeAndSize(port, item, typeFilter)
    && (forall tag :: tag in item.requiredTags ==> tag in port.requiredTags || tag in vehicleTags)
    && (forall tag :: tag in port.requiredTags ==> tag in item.requiredTags)
  }

  /** `matchesPort` of next/model.js: an item with required tags matches only where they
      equal the vehicle's `itemPortTags` string; the port's own tags are not read. */
  predicate MatchesPortV2(port: Port<Option<string>>, item: Item<Option<string>>, typeFilter: Option<string>, vehicleTags: Option<string>) {
    && FitsTypeAndSize(port, item, typeFilter)
    && (Falsy(item.requiredTags) || item.requiredTags == vehicleTags)
  }

  /** `keys.filter(n => matchesPort(allItems[n])).map(n => allItems[n])`: the items that
      match, in catalog order. */
  function MatchingItems<T>(catalog: Catalog<T>, matches: Item<T> -> bool): (r: seq<Item<T>>)
    ensures |r| <= |catalog|
    ensures forall x :: x in r ==> matches(x)
  {
    if catalog == [] then []
    else (if matches(catalog[0].val) then [catalog[0].val] else []) + MatchingItems(catalog[1..], matches)
  }

  /** Exactly the catalog items that match are listed. */
  lemma {:induction false} MatchingItemsExact<T>(catalog: Catalog<T>, matches: Item<T> -> bool, x: Item<T>)
    ensures x in MatchingItems(catalog, matches) <==> x in Values(catalog) && matches(x)
  {
    if catalog != [] {
      MatchingItemsExact(catalog[1..], matches, x);
      assert Values(catalog) == [catalog[0].val] + Values(catalog[1..]);
    }
  }

  /** Catalog order is kept: the items matching in a catalog made of two parts are those
      of the first part followed by those of the second. */
  lemma {:induction false} MatchingItemsInOrder<T>(c1: Catalog<T>, c2: Catalog<T>, matches: Item<T> -> bool)
    ensures MatchingItems(c1 + c2, matches) == MatchingItems(c1, matches) + MatchingItems(c2, matches)
  {
    if c1 != [] {
      assert (c1 + c2)[0] == c1[0] && (c1 + c2)[1..] == c1[1..] + c2;
      MatchingItemsInOrder(c1[1..], c2, matches);
    } else {
      assert c1 + c2 == c2;
    }
  }

  /** `getMatchingItems(typeFilter)` of model.js, without the extension objects. */
  function MatchingItemsV1(catalog: Catalog<seq<string>>, port: Port<seq<string>>, typeFilter: Option<string>, vehicleTags: seq<string>): (r: seq<Item<seq<string>>>)
    ensures |r| <= |catalog|
    ensures forall x :: x in r ==> MatchesPortV1(port, x, typeFilter, vehicleTags)
  {
    MatchingItems(catalog, item => MatchesPortV1(port, item, typeFilter, vehicleTags))
  }

  /** `getMatchingItems(typeFilter)` of next/model.js, without the extension objects. */
  function MatchingItemsV2(catalog: Catalog<Option<string>>, port: Port<Option<string>>, typeFilter: Option<string>, vehicleTags: Option<string>): (r: seq<Item<Option<string>>>)
    ensures |r| <= |catalog|
    ensures forall x :: x in r ==> MatchesPortV2(port, x, typeFilter, vehicleTags)
  {
    MatchingItems(catalog, item => MatchesPortV2(port, item, typeFilter, vehicleTags))
  }

  /** A zero bound is no bound: with both bounds zero the item's size never matters. */
  lemma UnboundedPort<T>(port: Port<T>, item: Item<T>, typeFilter: Option<string>, size: int)
    requires port.minSize == 0 && port.maxSize == 0
    ensures FitsTypeAndSize(port, item, typeFilter) == FitsTypeAndSize(port, item.(size := size), typeFilter)
  {
  }

  /** Under model.js the tag rule goes both ways; in particular an item matches a port with
      no required tags on a vehicle with none only when it requires none itself. */
  lemma TagsBothWays(port: Port<seq<string>>, item: Item<seq<string>>, typeFilter: Option<string>)
    requires port.requiredTags == [] && FitsTypeAndSize(port, item, typeFilter)
    ensures MatchesPortV1(port, item, typeFilter, []) <==> item.requiredTags == []
  {
    if item.requiredTags != [] {
      assert item.requiredTags[0] in item.requiredTags;
    }
  }

  /** Under next/model.js an item without required tags matches on any vehicle, and one with
      tags matches only on a vehicle whose tag string is exactly the same. */
  lemma TagsExactV2(port: Port<Option<string>>, item: Item<Option<string>>, typeFilter: Option<string>, vehicleTags: Option<string>)
    requires FitsTypeAndSize(port, item, typeFilter)
    ensures Falsy(item.requiredTags) ==> MatchesPortV2(port, item, typeFilter, vehicleTags)
    ensures !Falsy(item.requiredTags) ==> (MatchesPortV2(port, item, typeFilter, vehicleTags) <==> item.requiredTags == vehicleTags)
  {
  }

  // ---- _walkBindings ----

  /** Whether the callback runs for an item of type `t`: model.js calls back for every
      type when none is given; next/model.js (`exact`) only on an equal type, so never
      when none is given. */
  predicate Selected(t: string, itemType: Option<string>, exact: bool) {
    if exact then itemType == Some(t) else Falsy(itemType) || itemType == Some(t)
  }

  /** The bindings `_walkBindings(container, itemType, callback)` calls back, in order:
      each item-bearing binding of the selected type, before those below it; nothing
      below a binding without an item is visited. */
  function Walked<T>(bs: Dict<string, Binding<T>>, itemType: Option<string>, exact: bool): (r: seq<Binding<T>>)
    decreases bs, 1
  {
    if bs == [] then []
    else
      assert bs[0] in bs && bs[0].val < bs[0];
      WalkedAt(bs[0].val, itemType, exact) + Walked(bs[1..], itemType, exact)
  }

  /** What the walk calls back for one binding and everything below it. */
  function WalkedAt<T>(b: Binding<T>, itemType: Option<string>, exact: bool): (r: seq<Binding<T>>)
    decreases b, 0
  {
    if b.item.None? then []
    else (if Selected(b.item.value.kind, itemType, exact) then [b] else []) + Walked(b.bindings, itemType, exact)
  }

  /** `b` is a binding reached from `bs` through item-bearing bindings only. */
  ghost predicate Reached<T>(bs: Dict<string, Binding<T>>, b: Binding<T>)
    decreases bs, 1
  {
    bs != [] && (
      assert bs[0] in bs && bs[0].val < bs[0];
      ReachedAt(bs[0].val, b) || Reached(bs[1..], b))
  }

  /** `b` is `top` or reached below it, with `top` bearing an item. */
  ghost predicate ReachedAt<T>(top: Binding<T>, b: Binding<T>)
    decreases top, 0
  {
    top.item.Some? && (top == b || Reached(top.bindings, b))
  }

  /** The callback sees exactly the selected bindings reached through item-bearing bindings. */
  lemma {:induction false} WalkedExactly<T>(bs: Dict<string, Binding<T>>, itemType: Option<string>, exact: bool, b: Binding<T>)
    ensures b in Walked(bs, itemType, exact) <==> Reached(bs, b) && b.item.Some? && Selected(b.item.value.kind, itemType, exact)
    decreases bs, 1
  {
    if bs != [] {
      assert bs[0] in bs && bs[0].val < bs[0];
      WalkedExactlyAt(bs[0].val, itemType, exact, b);
      WalkedExactly(bs[1..], itemType, exact, b);
    }
  }

  lemma {:induction false} WalkedExactlyAt<T>(top: Binding<T>, itemType: Option<string>, exact: bool, b: Binding<T>)
    ensures b in WalkedAt(top, itemType, exact) <==> ReachedAt(top, b) && b.item.Some? && Selected(b.item.value.kind, itemType, exact)
    decreases top, 0
  {
    if top.item.Some? {
      WalkedExactly(top.bindings, itemType, exact, b);
    }
  }

  /** Under next/model.js a walk with no type calls back for nothing. */
  lemma {:induction false} WalkUntypedExact<T>(bs: Dict<string, Binding<T>>)
    ensures Walked(bs, None, true) == []
    decreases bs, 1
  {
    if bs != [] {
      assert bs[0] in bs && bs[0].val < bs[0];
      WalkUntypedExactAt(bs[0].val);
      WalkUntypedExact(bs[1..]);
    }
  }

  lemma {:induction false} WalkUntypedExactAt<T>(b: Binding<T>)
    ensures WalkedAt(b, None, true) == []
    decreases b, 0
  {
    if b.item.Some? {
      WalkUntypedExact(b.bindings);
    }
  }

  lemma WalkedStep<T>(bs: Dict<string, Binding<T>>, i: nat, itemType: Option<string>, exact: bool)
    requires i < |bs|
    ensures Walked(bs[i..], itemType, exact) == WalkedAt(bs[i].val, itemType, exact) + Walked(bs[i + 1..], itemType, exact)
  {
    assert bs[i..][0] == bs[i] && bs[i..][1..] == bs[i + 1..];
  }

  /** `_walkBindings`: the recursion over the bindings, collecting what the callback is given. */
  method WalkBindings<T>(bs: Dict<string, Binding<T>>, itemType: Option<string>, exact: bool) returns (visited: seq<Binding<T>>)
    ensures visited == Walked(bs, itemType, exact)
    decreases bs, 1
  {
    visited := [];
    var i := 0;
    while i < |bs|
      invariant 0 <= i <= |bs|
      invariant Walked(bs, itemType, exact) == visited + Walked(bs[i..], itemType, exact)
    {
      assert bs[i] in bs && bs[i].val < bs[i];
      var binding := bs[i].val;
      var here: seq<Binding<T>> := [];
      if binding.item.Some? {
        var below := WalkBindings(binding.bindings, itemType, exact);
        if Selected(binding.item.value.kind, itemType, exact) {
          here := [binding] + below;
        } else {
          here := below;
        }
      }
      assert here == WalkedAt(binding, itemType, exact);
      WalkedStep(bs, i, itemType, exact);
      Reassociate(visited, here, Walked(bs[i + 1..], itemType, exact));
      visited := visited + here;
      i := i + 1;
    }
  }

  // ---- sizeCategory ----

  /** `sizeCategory`: the name for sizes 1 to 6, undefined for any other size. */
  function SizeCategory(size: int): (r: Option<string>)
    ensures r.Some? <==> 1 <= size <= 6
    ensures r == Some("Small") <==> size == 1 || size == 2
    ensures r == Some("Medium") <==> size == 3
    ensures r == Some("Large") <==> size == 4 || size == 5
    ensures r == Some("Capital") <==> size == 6
  {
    if size == 1 || size == 2 then Some("Small")
    else if size == 3 then Some("Medium")
    else if size == 4 || size == 5 then Some("Large")
    else if size == 6 then Some("Capital")
    else None
  }
}
