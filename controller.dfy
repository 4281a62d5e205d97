/** The binding groups, sections and item counts of controller.js and
    next/controller.js. Bindings are the values of module `Bindings`; a group
    is the list of its members. */
module Controller {
  import opened Wrappers
  import opened Dicts
  import opened Text
  import opened Sorting
  import opened Bindings
  import opened Grouping
  import opened Lists

  // ---- BindingGroup.name ----

  /** `this.members.map(m => m.port.name)` */
  function PortNames<T>(members: seq<Binding<T>>): (r: seq<string>)
    ensures |r| == |members|
    ensures forall i :: 0 <= i < |members| ==> r[i] == members[i].port.name
  {
    seq(|members|, i requires 0 <= i < |members| => members[i].port.name)
  }

  /** `name`: the member count followed by the first port name in sorted order.
      An empty group has no first name, and `0 + undefined` is the number NaN,
      not a string: None here. */
  function GroupName<T>(members: seq<Binding<T>>): (r: Option<string>)
    ensures r.None? <==> members == []
    ensures r.Some? ==> exists m :: (m in PortNames(members) && r.value == IntToString(|members|) + m &&
      forall n :: n in PortNames(members) ==> LessEq(m, n))
  {
    var names := PortNames(members);
    if names == [] then None
    else
      SortedFirstSmallest(names);
      Some(IntToString(|members|) + Sorted(names)[0])
  }

  /** The first of the sorted names is one of them and below all of them. */
  lemma SortedFirstSmallest(names: seq<string>)
    requires names != []
    ensures |Sorted(names)| > 0
    ensures Sorted(names)[0] in names
    ensures forall n :: n in names ==> LessEq(Sorted(names)[0], n)
  {
    var sorted := Sorted(names);
    assert |sorted| == |multiset(sorted)| == |names|;
    assert sorted[0] in multiset(sorted);
    forall n | n in names
      ensures LessEq(sorted[0], n)
    {
      assert n in multiset(names);
      var i :| 0 <= i < |sorted| && sorted[i] == n;
      if i == 0 {
        LessEqTotal(n, n);
      }
    }
  }

  /** The smallest of a list of names is the only one of them below all the others. */
  lemma SmallestUnique(names: seq<string>, a: string, b: string)
    requires a in names && b in names
    requires forall n :: n in names ==> LessEq(a, n)
    requires forall n :: n in names ==> LessEq(b, n)
    ensures a == b
  {
    LessEqAntisymmetric(a, b);
  }

  /** The name depends only on the members' port names, not on the members' order. */
  lemma GroupNameOrderFree<T>(g1: seq<Binding<T>>, g2: seq<Binding<T>>)
    requires multiset(PortNames(g1)) == multiset(PortNames(g2))
    ensures GroupName(g1) == GroupName(g2)
  {
    var n1, n2 := PortNames(g1), PortNames(g2);
    assert |g1| == |multiset(n1)| == |multiset(n2)| == |g2|;
    if g1 != [] {
      SortedFirstSmallest(n1);
      SortedFirstSmallest(n2);
      var m1, m2 := Sorted(n1)[0], Sorted(n2)[0];
      assert forall n :: n in n1 <==> n in n2 by {
        forall n ensures n in n1 <==> n in n2 {
          assert n in n1 <==> n in multiset(n1);
          assert n in n2 <==> n in multiset(n2);
        }
      }
      SmallestUnique(n1, m1, m2);
    }
  }

  // ---- BindingGroup.similarTurrets ----

  /** `similarTurrets(left, right)`: both bound and uneditable, the left item a
      turret, and both items built from the same container. */
  predicate SimilarTurrets<T>(left: Binding<T>, right: Binding<T>) {
    if left.item.None? || right.item.None? || !Uneditable(left.port) || !Uneditable(right.port) then false
    else
      && (left.item.value.kind == "Turret" || left.item.value.kind == "TurretBase")
      && left.item.value.containerHash == right.item.value.containerHash
  }

  /** Only the left item's type is tested: a turret and a non-turret from the
      same container are similar one way round and not the other. */
  lemma SimilarTurretsOneSided<T>(left: Binding<T>, right: Binding<T>)
    requires SimilarTurrets(left, right)
    ensures SimilarTurrets(right, left) <==> right.item.value.kind in {"Turret", "TurretBase"}
    ensures left.item.Some? && right.item.Some? && Uneditable(left.port) && Uneditable(right.port)
  {
  }

  // ---- BindingGroup.makeGroups ----

  /** `groupable(left, right)` of `makeGroups`. */
  predicate Groupable<T(==)>(left: Binding<T>, right: Binding<T>) {
    && left.port.minSize == right.port.minSize
    && left.port.maxSize == right.port.maxSize
    && left.port.types == right.port.types
    && left.port.requiredTags == right.port.requiredTags
    && Uneditable(left.port) == Uneditable(right.port)
    && (Uneditable(left.port) && ItemName(left) != ItemName(right) ==> SimilarTurrets(left, right))
  }

  /** Every binding may join a group it leads: a binding is groupable with itself. */
  lemma GroupableReflexive<T>(b: Binding<T>)
    ensures Groupable(b, b)
  {
  }

  /** Groupable bindings have ports of one shape; uneditable ones also carry the
      same item, unless they are similar turrets. */
  lemma GroupableMeans<T>(left: Binding<T>, right: Binding<T>)
    requires Groupable(left, right)
    ensures left.port.(name := right.port.name, flags := right.port.flags) == right.port
    ensures Uneditable(left.port) <==> Uneditable(right.port)
    ensures Uneditable(right.port) && !SimilarTurrets(left, right) ==> ItemName(left) == ItemName(right)
  {
  }

  /** `BindingGroup.makeGroups(bindings)`, with the members of each group. */
  method MakeBindingGroups<T(==)>(bindings: seq<Binding<T>>) returns (groups: seq<seq<Binding<T>>>)
    ensures groups == Members(bindings, FirstFit(bindings, Groupable))
  {
    groups := MakeGroups(bindings, Groupable);
  }

  /** The groups of `makeGroups` partition the bindings in input order, every group
      led by the earliest binding no earlier group would take, and every other
      member groupable with that leader. */
  lemma MakeBindingGroupsSpec<T>(bindings: seq<Binding<T>>)
    ensures var G := FirstFit(bindings, Groupable);
      && Covers(G, |bindings|) && Distinct(G) && Ordered(G)
      && (forall k, j :: 0 <= k < |G| && 0 <= j < |G[k]| ==>
            (forall h :: 0 <= h < k ==> !Groupable(bindings[G[k][j]], bindings[G[h][0]])) &&
            (j > 0 ==> Groupable(bindings[G[k][j]], bindings[G[k][0]])))
  {
    FirstFitPartition(bindings, |bindings|, Groupable);
    FirstFitOrdered(bindings, |bindings|, Groupable);
    FirstFitGreedy(bindings, |bindings|, Groupable);
  }

  // ---- BindingGroup.identical ----

  /** `itemsIdentical(left, right)` */
  predicate ItemsIdentical<T>(left: Binding<T>, right: Binding<T>) {
    ItemName(left) == ItemName(right) || SimilarTurrets(left, right)
  }

  /** `other` has a child under every key of `children`, each identical to the child there. */
  predicate ChildrenMatch<T>(children: Dict<string, Binding<T>>, other: Binding<T>) {
    forall i :: 0 <= i < |children| ==>
      Get(other.bindings, children[i].key).Some? && ItemsIdentical(children[i].val, Get(other.bindings, children[i].key).value)
  }

  /** The inner loop of `identical` over the first member's children: reading
      the item name of a child `other` lacks throws. */
  function ChildrenIdentical<T>(children: Dict<string, Binding<T>>, other: Binding<T>): (r: Result<bool>)
    ensures r == Ok(true) <==> ChildrenMatch(children, other)
    ensures r.Err? ==> r.error == TypeError && exists i :: 0 <= i < |children| && Get(other.bindings, children[i].key).None?
  {
    if children == [] then Ok(true)
    else match Get(other.bindings, children[0].key)
      case None => Err(TypeError)
      case Some(o) =>
        if !ItemsIdentical(children[0].val, o) then Ok(false)
        else
          var rest := ChildrenIdentical(children[1..], other);
          assert ChildrenMatch(children, other) <==> ChildrenMatch(children[1..], other) by {
            assert forall i :: 0 < i < |children| ==> children[1..][i - 1] == children[i];
          }
          rest
  }

  /** `other` matches `first`, and so do its children under the first member's child keys. */
  predicate MemberMatches<T>(first: Binding<T>, other: Binding<T>) {
    ItemsIdentical(first, other) && ChildrenMatch(first.bindings, other)
  }

  /** The outer loop of `identical`: each later member against the first. */
  function IdenticalTo<T>(first: Binding<T>, others: seq<Binding<T>>): (r: Result<bool>)
    ensures r == Ok(true) <==> forall i :: 0 <= i < |others| ==> MemberMatches(first, others[i])
    ensures r == Ok(false) ==> exists i :: 0 <= i < |others| && !MemberMatches(first, others[i])
    ensures r.Err? ==> r.error == TypeError && exists i :: 0 <= i < |others| && ChildrenIdentical(first.bindings, others[i]).Err?
  {
    if others == [] then Ok(true)
    else if !ItemsIdentical(first, others[0]) then Ok(false)
    else match ChildrenIdentical(first.bindings, others[0])
      case Err(e) => Err(e)
      case Ok(same) =>
        if !same then Ok(false)
        else
          var rest := IdenticalTo(first, others[1..]);
          assert forall i :: 0 < i < |others| ==> others[1..][i - 1] == others[i];
          rest
  }

  /** `identical`: an empty group counts as identical. */
  function Identical<T>(members: seq<Binding<T>>): (r: Result<bool>)
    ensures members == [] ==> r == Ok(true)
    ensures r == Ok(true) <==> forall i :: 0 < i < |members| ==> MemberMatches(members[0], members[i])
  {
    if members == [] then Ok(true)
    else
      var r := IdenticalTo(members[0], members[1..]);
      assert forall i :: 0 < i < |members| ==> members[1..][i - 1] == members[i];
      r
  }

  /** A group of one is identical. */
  lemma SingleIdentical<T>(b: Binding<T>)
    ensures Identical([b]) == Ok(true)
  {
  }

  /** A child of the first member that another member does not have makes
      `identical` throw, when that member is otherwise the same as the first. */
  lemma IdenticalThrows<T>(first: Binding<T>, other: Binding<T>, key: string, child: Binding<T>)
    requires first.bindings == [Entry(key, child)] && ItemsIdentical(first, other)
    requires !HasKey(other.bindings, key)
    ensures Identical([first, other]) == Err(TypeError)
  {
    assert [first, other][1..] == [other];
    assert first.bindings[1..] == [];
  }

  // ---- sectionBindings ----

  /** One entry of `sectionTypes`: a section name and the item types it shows. */
  datatype Section = Section(name: string, types: seq<string>)

  /** `sectionNames`, the display order. */
  const SectionNames: seq<string> := ["Guns", "Missiles", "Systems", "Flight"]

  /** `sectionTypes` of controller.js, in precedence order. */
  const SectionTypesV1: seq<Section> := [
    Section("Missiles", ["MissileLauncher", "Missile"]),
    Section("Guns", ["WeaponGun", "Turret", "TurretBase"]),
    Section("Systems", ["Cooler", "Shield", "PowerPlant", "QuantumDrive", "FuelIntake"]),
    Section("Flight", ["MainThruster", "ManneuverThruster"])]

  /** `sectionTypes` of next/controller.js, in precedence order. */
  const SectionTypesV2: seq<Section> := [
    Section("Missiles", ["MissileLauncher"]),
    Section("Guns", ["WeaponGun", "Turret", "TurretBase"]),
    Section("Systems", ["Cooler", "Shield", "PowerPlant", "QuantumDrive", "FuelIntake"]),
    Section("Flight", ["MainThruster", "ManneuverThruster"])]

  /** `binding.port.types.filter(pair => types.includes(pair.type)).length > 0` */
  predicate Meets(portTypes: seq<PortType>, types: seq<string>) {
    exists i :: 0 <= i < |portTypes| && portTypes[i].kind in types
  }

  /** The position of the first section whose types meet the port's types. */
  function SectionOf(sections: seq<Section>, portTypes: seq<PortType>): (r: Option<nat>)
    ensures r.Some? ==> r.value < |sections| && Meets(portTypes, sections[r.value].types)
    ensures r.Some? ==> forall s :: 0 <= s < r.value ==> !Meets(portTypes, sections[s].types)
    ensures r.None? ==> forall s :: 0 <= s < |sections| ==> !Meets(portTypes, sections[s].types)
  {
    if sections == [] then None
    else if Meets(portTypes, sections[0].types) then Some(0)
    else match SectionOf(sections[1..], portTypes)
      case None => None
      case Some(s) => Some(s + 1)
  }

  /** The name of the section a binding is shown in, if any. */
  function SectionName<T>(sections: seq<Section>, b: Binding<T>): (r: Option<string>)
    ensures r.Some? ==> exists s :: 0 <= s < |sections| && sections[s].name == r.value && Meets(b.port.types, sections[s].types)
    ensures r.None? <==> forall s :: 0 <= s < |sections| ==> !Meets(b.port.types, sections[s].types)
  {
    match SectionOf(sections, b.port.types)
    case None => None
    case Some(s) => Some(sections[s].name)
  }

  /** The bindings shown in section `name`, in loadout order. */
  function InSection<T(!new)>(sections: seq<Section>, bs: seq<Binding<T>>, name: string): (r: seq<Binding<T>>)
    ensures forall b :: b in r <==> b in bs && SectionName(sections, b) == Some(name)
  {
    if bs == [] then []
    else (if SectionName(sections, bs[0]) == Some(name) then [bs[0]] else []) + InSection(sections, bs[1..], name)
  }

  /** A binding is shown in one section at most. */
  lemma OneSection<T(!new)>(sections: seq<Section>, bs: seq<Binding<T>>, b: Binding<T>, n1: string, n2: string)
    requires b in InSection(sections, bs, n1) && b in InSection(sections, bs, n2)
    ensures n1 == n2
  {
  }

  /** The section names of `sectionTypes` all have a list in the result. */
  predicate Displayed(names: seq<string>, sections: seq<Section>) {
    forall s :: 0 <= s < |sections| ==> sections[s].name in names
  }

  /** Both tables of section types only name displayed sections. */
  lemma SectionTablesDisplayed()
    ensures Displayed(SectionNames, SectionTypesV1) && Displayed(SectionNames, SectionTypesV2)
  {
  }

  /** `sectionBindings`: an empty list per section name, then each binding pushed
      onto the list of the first section whose types meet its port's types. */
  method SectionBindings<T(!new)>(names: seq<string>, sections: seq<Section>, bindings: seq<Binding<T>>)
      returns (result: map<string, seq<Binding<T>>>)
    requires Displayed(names, sections)
    ensures result.Keys == set n | n in names
    ensures forall n :: n in result ==> result[n] == InSection(sections, bindings, n)
  {
    result := map[];
    for i := 0 to |names|
      invariant result.Keys == set n | n in names[..i]
      invariant forall n :: n in result ==> result[n] == []
    {
      result := result[names[i] := []];
    }
    assert names[..|names|] == names;
    for i := 0 to |bindings|
      invariant result.Keys == set n | n in names
      invariant forall n :: n in result ==> result[n] == InSection(sections, bindings[..i], n)
    {
      var binding := bindings[i];
      InSectionSnoc(sections, bindings, i);
      var s := FindSection(sections, binding.port.types);
      if s.Some? {
        var name := sections[s.value].name;
        result := result[name := result[name] + [binding]];
      }
    }
    assert bindings[..|bindings|] == bindings;
  }

  /** The inner loop of `sectionBindings`: the first section whose types meet the port's. */
  method FindSection(sections: seq<Section>, portTypes: seq<PortType>) returns (r: Option<nat>)
    ensures r == SectionOf(sections, portTypes)
  {
    var s := 0;
    while s < |sections| && !Meets(portTypes, sections[s].types)
      invariant 0 <= s <= |sections|
      invariant forall t :: 0 <= t < s ==> !Meets(portTypes, sections[t].types)
    {
      s := s + 1;
    }
    r := if s < |sections| then Some(s) else None;
  }

  /** `InSection` of one more binding. */
  lemma InSectionSnoc<T(!new)>(sections: seq<Section>, bs: seq<Binding<T>>, i: nat)
    requires i < |bs|
    ensures forall n :: (InSection(sections, bs[..i + 1], n) ==
      InSection(sections, bs[..i], n) + (if SectionName(sections, bs[i]) == Some(n) then [bs[i]] else []))
  {
    forall n
      ensures InSection(sections, bs[..i + 1], n) ==
        InSection(sections, bs[..i], n) + (if SectionName(sections, bs[i]) == Some(n) then [bs[i]] else [])
    {
      InSectionAppend(sections, bs[..i], [bs[i]], n);
      assert bs[..i] + [bs[i]] == bs[..i + 1];
    }
  }

  lemma {:induction false} InSectionAppend<T(!new)>(sections: seq<Section>, a: seq<Binding<T>>, b: seq<Binding<T>>, n: string)
    ensures InSection(sections, a + b, n) == InSection(sections, a, n) + InSection(sections, b, n)
  {
    if a != [] {
      assert (a + b)[1..] == a[1..] + b;
      InSectionAppend(sections, a[1..], b, n);
    } else {
      assert a + b == b;
    }
  }

  // ---- stockItems, equippedItems, requiredItems ----

  /** The item names `stockItems` counts: the default tree in pre-order, each
      entry with a name counted and walked into, an entry without one skipped
      with everything below it. */
  function StockNames(container: Dict<string, DefaultEntry>): seq<string>
    decreases container, 1
  {
    if container == [] then []
    else
      assert container[0] in container && container[0].val < container[0];
      EntryStock(container[0].val) + StockNames(container[1..])
  }

  /** The names one default entry contributes. */
  function EntryStock(e: DefaultEntry): seq<string>
    decreases e, 0
  {
    if Falsy(e.itemName) then [] else [e.itemName.value] + StockNames(e.children)
  }

  lemma StockNamesAt(container: Dict<string, DefaultEntry>, i: nat)
    requires i < |container|
    ensures StockNames(container[i..]) == EntryStock(container[i].val) + StockNames(container[i + 1..])
  {
    assert container[i..][1..] == container[i + 1..];
  }

  /** The item names `equippedItems` counts: the bindings in pre-order below bound
      ones, each bound binding counted unless its port is uneditable. */
  function EquippedNames<T>(bs: Dict<string, Binding<T>>): seq<string>
    decreases bs, 1
  {
    if bs == [] then []
    else
      assert bs[0] in bs && bs[0].val < bs[0];
      BindingEquipped(bs[0].val) + EquippedNames(bs[1..])
  }

  /** The names one binding contributes. */
  function BindingEquipped<T>(b: Binding<T>): seq<string>
    decreases b, 0
  {
    if Falsy(ItemName(b)) then []
    else (if Uneditable(b.port) then [] else [ItemName(b).value]) + EquippedNames(b.bindings)
  }

  lemma EquippedNamesAt<T>(bs: Dict<string, Binding<T>>, i: nat)
    requires i < |bs|
    ensures EquippedNames(bs[i..]) == BindingEquipped(bs[i].val) + EquippedNames(bs[i + 1..])
  {
    assert bs[i..][1..] == bs[i + 1..];
  }

  /** `result[name] || 0` */
  function CountOf(counts: map<string, nat>, name: string): nat {
    if name in counts then counts[name] else 0
  }

  /** How many times each name occurs in `names`, for the names that occur. */
  function CountsOf(names: seq<string>): (r: map<string, nat>)
    ensures forall n :: n in r <==> n in names
    ensures forall n :: CountOf(r, n) == multiset(names)[n]
  {
    map n | n in names :: multiset(names)[n]
  }

  /** `result[name] = (result[name] || 0) + 1` for each name in turn. */
  function Tally(counts: map<string, nat>, names: seq<string>): (r: map<string, nat>)
    ensures forall n :: n in r <==> n in counts || n in names
    decreases |names|
  {
    if names == [] then counts else Tally(counts[names[0] := CountOf(counts, names[0]) + 1], names[1..])
  }

  lemma {:induction false} TallyAppend(counts: map<string, nat>, a: seq<string>, b: seq<string>)
    ensures Tally(counts, a + b) == Tally(Tally(counts, a), b)
    decreases |a|
  {
    if a == [] {
      assert a + b == b;
    } else {
      var next := counts[a[0] := CountOf(counts, a[0]) + 1];
      assert (a + b)[0] == a[0] && (a + b)[1..] == a[1..] + b;
      assert Tally(counts, a + b) == Tally(next, a[1..] + b);
      assert Tally(counts, a) == Tally(next, a[1..]);
      TallyAppend(next, a[1..], b);
    }
  }

  /** Tallying adds each name's number of occurrences to its count. */
  lemma {:induction false} TallyCounts(counts: map<string, nat>, names: seq<string>, n: string)
    ensures n in Tally(counts, names) <==> n in counts || n in names
    ensures CountOf(Tally(counts, names), n) == CountOf(counts, n) + multiset(names)[n]
    decreases |names|
  {
    if names != [] {
      TallyCounts(counts[names[0] := CountOf(counts, names[0]) + 1], names[1..], n);
      assert names == [names[0]] + names[1..];
      assert multiset(names) == multiset{names[0]} + multiset(names[1..]);
    }
  }

  /** A tally started from nothing counts the occurrences. */
  lemma TallyFromEmpty(names: seq<string>)
    ensures Tally(map[], names) == CountsOf(names)
  {
    var t, c := Tally(map[], names), CountsOf(names);
    forall n
      ensures n in t <==> n in c
      ensures n in t ==> t[n] == c[n]
    {
      TallyCounts(map[], names, n);
    }
  }

  /** `walkDefaults(container)` of `stockItems`, adding to the tally `counts`. */
  method WalkDefaults(container: Dict<string, DefaultEntry>, counts: map<string, nat>) returns (result: map<string, nat>)
    ensures result == Tally(counts, StockNames(container))
    decreases container
  {
    result := counts;
    for i := 0 to |container|
      invariant Tally(result, StockNames(container[i..])) == Tally(counts, StockNames(container))
    {
      assert container[i] in container && container[i].val < container[i];
      var value := container[i].val;
      StockNamesAt(container, i);
      TallyAppend(result, EntryStock(value), StockNames(container[i + 1..]));
      ghost var after := Tally(result, EntryStock(value));
      if !Falsy(value.itemName) {
        var name := value.itemName.value;
        TallyOne(result, name, StockNames(value.children));
        result := result[name := CountOf(result, name) + 1];
        result := WalkDefaults(value.children, result);
      }
      assert result == after;
    }
    assert container[|container|..] == [];
  }

  /** `stockItems`: how often each item occurs in the vehicle's default loadout. */
  method StockItems(defaults: Dict<string, DefaultEntry>) returns (result: map<string, nat>)
    ensures result == CountsOf(StockNames(defaults))
  {
    result := WalkDefaults(defaults, map[]);
    TallyFromEmpty(StockNames(defaults));
  }

  /** `walkBindings(container)` of `equippedItems`, adding to the tally `counts`. */
  method WalkEquipped<T>(bs: Dict<string, Binding<T>>, counts: map<string, nat>) returns (result: map<string, nat>)
    ensures result == Tally(counts, EquippedNames(bs))
    decreases bs
  {
    result := counts;
    for i := 0 to |bs|
      invariant Tally(result, EquippedNames(bs[i..])) == Tally(counts, EquippedNames(bs))
    {
      assert bs[i] in bs && bs[i].val < bs[i];
      var binding := bs[i].val;
      EquippedNamesAt(bs, i);
      TallyAppend(result, BindingEquipped(binding), EquippedNames(bs[i + 1..]));
      ghost var after := Tally(result, BindingEquipped(binding));
      if !Falsy(ItemName(binding)) {
        ghost var below := EquippedNames(binding.bindings);
        if !Uneditable(binding.port) {
          var name := ItemName(binding).value;
          TallyOne(result, name, below);
          result := result[name := CountOf(result, name) + 1];
        } else {
          assert [] + below == below;
        }
        result := WalkEquipped(binding.bindings, result);
      }
      assert result == after;
    }
    assert bs[|bs|..] == [];
  }

  /** Tallying a name and then more names counts the name first. */
  lemma TallyOne(counts: map<string, nat>, name: string, more: seq<string>)
    ensures Tally(counts, [name] + more) == Tally(counts[name := CountOf(counts, name) + 1], more)
  {
    var names := [name] + more;
    assert names[0] == name && names[1..] == more;
    assert Tally(counts, names) == Tally(counts[name := CountOf(counts, name) + 1], names[1..]);
  }

  /** `equippedItems`: how often each item is bound to an editable port of the loadout. */
  method EquippedItems<T>(loadout: Dict<string, Binding<T>>) returns (result: map<string, nat>)
    ensures result == CountsOf(EquippedNames(loadout))
  {
    result := WalkEquipped(loadout, map[]);
    TallyFromEmpty(EquippedNames(loadout));
  }

  /** The counts `requiredItems` keeps: equipped minus stock, where positive. */
  function Required(stock: map<string, nat>, equipped: map<string, nat>): (r: map<string, int>)
    ensures forall n :: n in r <==> n in equipped && equipped[n] > CountOf(stock, n)
    ensures forall n :: n in r ==> 0 < r[n] <= equipped[n] && r[n] + CountOf(stock, n) == equipped[n]
  {
    map n | n in equipped && equipped[n] - CountOf(stock, n) > 0 :: equipped[n] - CountOf(stock, n)
  }

  /** `requiredItems`: each equipped item's count less its stock count, kept when
      more are equipped than the stock loadout has. */
  method RequiredItems(stock: map<string, nat>, equipped: map<string, nat>) returns (result: map<string, int>)
    ensures result == Required(stock, equipped)
  {
    result := map[];
    var todo := equipped.Keys;
    while todo != {}
      invariant todo <= equipped.Keys
      invariant result == map n | n in equipped && n !in todo && equipped[n] - CountOf(stock, n) > 0 :: equipped[n] - CountOf(stock, n)
      decreases todo
    {
      var name :| name in todo;
      var count: int := equipped[name];
      if name in stock {
        count := count - stock[name];
      }
      if count > 0 {
        result := result[name := count];
      }
      todo := todo - {name};
    }
  }

  /** An item is required exactly when the loadout equips it on editable ports
      more often than the stock loadout holds it, and the count is the excess. */
  lemma RequiredItemsMeaning<T>(defaults: Dict<string, DefaultEntry>, loadout: Dict<string, Binding<T>>, n: string)
    ensures var stock, equipped := multiset(StockNames(defaults))[n], multiset(EquippedNames(loadout))[n];
      var r := Required(CountsOf(StockNames(defaults)), CountsOf(EquippedNames(loadout)));
      && (n in r <==> equipped > stock)
      && (n in r ==> r[n] == equipped - stock)
  {
    var equipped := CountsOf(EquippedNames(loadout));
    assert n in equipped <==> multiset(EquippedNames(loadout))[n] > 0;
  }

  // ---- groupArrays of next/controller.js ----

  /** Some port type is not `kind`. */
  predicate SomeTypeOtherThan<T>(b: Binding<T>, kind: string) {
    exists i :: 0 <= i < |b.port.types| && b.port.types[i].kind != kind
  }

  /** The three tests of `filterBindings` together. */
  predicate Shown<T>(b: Binding<T>) {
    SomeTypeOtherThan(b, "Cargo") && |b.port.types| > 0 && SomeTypeOtherThan(b, "WeaponAttachment")
  }

  /** `filterBindings(parent)`: the child bindings that are neither cargo grids,
      nor magazine slots (no types), nor weapon attachments. */
  function FilterBindings<T>(parent: Binding<T>): (r: seq<Binding<T>>)
    ensures r == Filter(Values(parent.bindings), Shown)
  {
    var filtered := Filter(Values(parent.bindings), NotCargo);
    var filtered := Filter(filtered, Typed);
    var filtered := Filter(filtered, NotAttachment);
    FilterThreeTimes(Values(parent.bindings));
    filtered
  }

  predicate NotCargo<T>(b: Binding<T>) { SomeTypeOtherThan(b, "Cargo") }
  predicate Typed<T>(b: Binding<T>) { |b.port.types| > 0 }
  predicate NotAttachment<T>(b: Binding<T>) { SomeTypeOtherThan(b, "WeaponAttachment") }

  /** The three passes of `filterBindings` are one pass by `Shown`. */
  lemma FilterThreeTimes<T>(children: seq<Binding<T>>)
    ensures Filter(Filter(Filter(children, NotCargo), Typed), NotAttachment) == Filter(children, Shown)
  {
    var both := (n: Binding<T>) => NotCargo(n) && Typed(n);
    FilterFilter(children, NotCargo, Typed, both);
    FilterFilter(children, both, NotAttachment, Shown);
  }

  /** A child is kept exactly when some type is not cargo and some type is not a weapon attachment. */
  lemma FilterBindingsKeeps<T>(parent: Binding<T>, i: nat)
    requires i < |parent.bindings|
    ensures parent.bindings[i].val in FilterBindings(parent) <==>
      (SomeTypeOtherThan(parent.bindings[i].val, "Cargo") && SomeTypeOtherThan(parent.bindings[i].val, "WeaponAttachment"))
    ensures forall b :: b in FilterBindings(parent) ==> |b.port.types| > 0 && SomeTypeOtherThan(b, "Cargo") && SomeTypeOtherThan(b, "WeaponAttachment")
  {
    assert Values(parent.bindings)[i] == parent.bindings[i].val;
    forall b | b in FilterBindings(parent)
      ensures Shown(b)
    {
      var j :| 0 <= j < |FilterBindings(parent)| && FilterBindings(parent)[j] == b;
    }
  }

  /** The length of the longest list. */
  function MaxLength<X>(lists: seq<seq<X>>): (m: nat)
    ensures forall j :: 0 <= j < |lists| ==> |lists[j]| <= m
    ensures lists != [] ==> exists j :: 0 <= j < |lists| && |lists[j]| == m
    ensures lists == [] ==> m == 0
  {
    if lists == [] then 0
    else
      var rest := MaxLength(lists[1..]);
      if |lists[0]| >= rest then |lists[0]| else rest
  }

  /** `_.zip(...lists)`: row `i` holds the `i`-th element of every list,
      `undefined` where a list is shorter. */
  function Zip<X>(lists: seq<seq<X>>): (r: seq<seq<Option<X>>>)
    ensures |r| == MaxLength(lists)
    ensures forall i :: 0 <= i < |r| ==> |r[i]| == |lists|
    ensures forall j, i :: 0 <= j < |lists| && 0 <= i < |lists[j]| ==> i < |r| && r[i][j] == Some(lists[j][i])
    ensures forall i, j :: 0 <= i < |r| && 0 <= j < |lists| && |lists[j]| <= i ==> r[i][j].None?
  {
    seq(MaxLength(lists), i requires 0 <= i => seq(|lists|, j requires 0 <= j < |lists| => if i < |lists[j]| then Some(lists[j][i]) else None))
  }

  /** The groups `groupArrays` zips for each bound binding. */
  function GroupsOf<T(==)>(b: Binding<T>): (r: seq<seq<Binding<T>>>)
    ensures forall k :: 0 <= k < |r| ==> r[k] != []
    ensures forall k, j :: 0 <= k < |r| && 0 <= j < |r[k]| ==> r[k][j] in FilterBindings(b)
  {
    var shown := FilterBindings(b);
    Members(shown, FirstFit(shown, Groupable))
  }

  /** `groupArrays`: nothing below the second level; otherwise the groups of the
      shown children of every binding, zipped row by row. */
  method GroupArrays<T(==)>(level: int, bindings: seq<Binding<T>>) returns (r: seq<seq<Option<seq<Binding<T>>>>>)
    ensures level > 2 ==> r == []
    ensures level <= 2 ==> r == Zip(seq(|bindings|, j requires 0 <= j < |bindings| => GroupsOf(bindings[j])))
  {
    if level > 2 {
      return [];
    }
    var groups: seq<seq<seq<Binding<T>>>> := [];
    for j := 0 to |bindings|
      invariant groups == seq(j, k requires 0 <= k < j => GroupsOf(bindings[k]))
    {
      var g := MakeBindingGroups(FilterBindings(bindings[j]));
      groups := groups + [g];
    }
    r := Zip(groups);
  }
}
