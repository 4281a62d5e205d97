/** The ship model of the first front end, code.js: loadout ids of ships and
    their modifications, the part search, item port types, the matching of
    components to ports, and the attached-component lookup with overrides.
    The XML-derived JSON it reads is given as datatypes holding the fields
    read; a missing field is None. */
module Ships {
  import opened Wrappers
  import opened Dicts
  import opened Text
  import opened Lists

  // ---- data ----

  /** A vehicle part as the JSON holds it: a part with its `@class` and its
      `Parts.Part` (absent, one part, or an array of parts), or an array of
      parts where a single part was expected. */
  datatype Node = Part(cls: Option<string>, parts: Option<Node>) | PartArray(items: seq<Node>)

  /** An entry of `Modifications`: its `@patchFile`, and `mod.Parts` when the
      modification has one (holding that element's `Part`, if any). */
  datatype Modification = Modification(patchFile: Option<string>, modParts: Option<Option<Node>>)

  /** A ship specification: `@name`, `@local`, `Modifications` and `Parts`
      (holding its `Part`, if any). */
  datatype ShipSpec = ShipSpec(name: string, local: Option<string>,
                               modifications: Option<Dict<string, Modification>>,
                               parts: Option<Option<Node>>)

  /** A `ShipId` once constructed. */
  datatype ShipIdent = ShipIdent(specificationId: string, modificationId: Option<string>, loadoutId: Option<string>)

  /** A JavaScript property key made from a value that may be `undefined`. */
  function PropertyKey(name: Option<string>): string {
    if name.None? then "undefined" else name.value
  }

  // ---- ShipId ----

  /** `patchFile.split("/").pop()` */
  function BaseName(path: string): (r: string)
    ensures '/' !in r
    ensures exists dir :: path == dir + r && (dir == [] || dir[|dir| - 1] == '/')
  {
    var pieces := Split(path, '/');
    BaseNameIsLast(pieces);
    pieces[|pieces| - 1]
  }

  lemma {:induction false} BaseNameIsLast(pieces: seq<string>)
    requires |pieces| >= 1
    ensures exists dir :: Join(pieces, "/") == dir + pieces[|pieces| - 1] && (dir == [] || dir[|dir| - 1] == '/')
  {
    if |pieces| == 1 {
      assert Join(pieces, "/") == [] + pieces[0];
    } else {
      var rest, last := pieces[1..], pieces[|pieces| - 1];
      assert rest[|rest| - 1] == last;
      BaseNameIsLast(rest);
      var dir :| Join(rest, "/") == dir + last && (dir == [] || dir[|dir| - 1] == '/');
      var dir' := pieces[0] + "/" + dir;
      assert Join(pieces, "/") == pieces[0] + "/" + Join(rest, "/");
      assert pieces[0] + "/" + (dir + last) == dir' + last;
      assert dir'[|dir'| - 1] == '/';
    }
  }

  /** The ids `ShipId` tries, in order: for a modification `spec_mod`, then, when
      the modification names a patch file, `file_mod` and `file`; otherwise `spec`
      and then `@local` with every space replaced by `_`. A modification the
      specification does not have throws. */
  function Candidates(specificationId: string, modificationId: Option<string>, spec: ShipSpec): (r: Result<seq<string>>)
    ensures Falsy(modificationId) ==> r.Ok? && |r.value| >= 1 && r.value[0] == specificationId
    ensures !Falsy(modificationId) && r.Ok? ==> |r.value| >= 1 && r.value[0] == specificationId + "_" + modificationId.value
    ensures r.Err? <==> (!Falsy(modificationId) &&
      (spec.modifications.None? || !HasKey(spec.modifications.value, modificationId.value)))
  {
    if !Falsy(modificationId) then
      var m := modificationId.value;
      match spec.modifications
      case None => Err(TypeError)
      case Some(mods) =>
        match Get(mods, m)
        case None => Err(TypeError)
        case Some(modification) =>
          var first := [specificationId + "_" + m];
          if Falsy(modification.patchFile) then Ok(first)
          else
            var fileName := BaseName(modification.patchFile.value);
            Ok(first + [fileName + "_" + m, fileName])
    else
      Ok([specificationId] + if Falsy(spec.local) then [] else [ReplaceChar(spec.local.value, ' ', '_')])
  }

  /** The position of the first candidate with a loadout whose id is not empty. */
  function FirstKnown(candidates: seq<string>, known: set<string>): (r: Option<nat>)
    ensures r.Some? ==> r.value < |candidates| && candidates[r.value] in known && candidates[r.value] != ""
    ensures r.Some? ==> forall j :: 0 <= j < r.value ==> candidates[j] !in known || candidates[j] == ""
    ensures r.None? ==> forall j :: 0 <= j < |candidates| ==> candidates[j] !in known || candidates[j] == ""
  {
    if candidates == [] then None
    else if candidates[0] in known && candidates[0] != "" then Some(0)
    else match FirstKnown(candidates[1..], known)
      case None => None
      case Some(j) => Some(j + 1)
  }

  /** The loadout id `ShipId` settles on: the first candidate with a loadout,
      except that an empty id, being falsy, lets a later candidate replace it. */
  function LoadoutIdOf(candidates: seq<string>, known: set<string>): Option<string> {
    match FirstKnown(candidates, known)
    case Some(i) => Some(candidates[i])
    case None => if "" in candidates && "" in known then Some("") else None
  }

  /** The calls of `tryLoadoutId`, each setting `loadoutId` while it is still falsy. */
  method ResolveLoadoutId(candidates: seq<string>, known: set<string>) returns (loadoutId: Option<string>)
    ensures loadoutId == LoadoutIdOf(candidates, known)
  {
    loadoutId := None;
    ghost var found: Option<nat> := None;
    for i := 0 to |candidates|
      invariant found.Some? ==> found.value < i && loadoutId == Some(candidates[found.value])
      invariant found.Some? ==> candidates[found.value] in known && candidates[found.value] != ""
      invariant found.Some? ==> forall j :: 0 <= j < found.value ==> candidates[j] !in known || candidates[j] == ""
      invariant found.None? ==> forall j :: 0 <= j < i ==> candidates[j] !in known || candidates[j] == ""
      invariant found.None? ==> loadoutId == if "" in candidates[..i] && "" in known then Some("") else None
    {
      var id := candidates[i];
      if Falsy(loadoutId) {
        if id in known {
          loadoutId := Some(id);
          if id != "" {
            found := Some(i);
          }
        }
      }
      assert candidates[..i + 1] == candidates[..i] + [id];
    }
    assert candidates[..|candidates|] == candidates;
  }

  /** `new ShipId(specificationId, modificationId)`, with `shipSpecifications` as
      `specs` and the ids of `shipLoadouts` as `known`; an unknown specification throws. */
  function ShipIdOf(specs: Dict<string, ShipSpec>, specificationId: string, modificationId: Option<string>, known: set<string>): Result<ShipIdent> {
    match Get(specs, specificationId)
    case None => Err(TypeError)
    case Some(spec) =>
      match Candidates(specificationId, modificationId, spec)
      case Err(e) => Err(e)
      case Ok(candidates) => Ok(ShipIdent(specificationId, modificationId, LoadoutIdOf(candidates, known)))
  }

  /** The constructor of `ShipId`. */
  method NewShipId(specs: Dict<string, ShipSpec>, specificationId: string, modificationId: Option<string>, known: set<string>)
      returns (r: Result<ShipIdent>)
    ensures r == ShipIdOf(specs, specificationId, modificationId, known)
  {
    var spec := Get(specs, specificationId);
    if spec.None? {
      return Err(TypeError);
    }
    var candidates := Candidates(specificationId, modificationId, spec.value);
    if candidates.Err? {
      return Err(candidates.error);
    }
    var loadoutId := ResolveLoadoutId(candidates.value, known);
    r := Ok(ShipIdent(specificationId, modificationId, loadoutId));
  }

  /** A ship without a modification takes its own id when it has a loadout. */
  lemma BaseShipOwnLoadout(specs: Dict<string, ShipSpec>, specificationId: string, known: set<string>)
    requires HasKey(specs, specificationId) && specificationId in known && specificationId != ""
    ensures ShipIdOf(specs, specificationId, None, known).Ok?
    ensures ShipIdOf(specs, specificationId, None, known).value.loadoutId == Some(specificationId)
  {
  }

  /** A modification with a loadout of its own under `spec_mod` takes that one,
      whatever its patch file says. */
  lemma ModificationOwnLoadout(specs: Dict<string, ShipSpec>, specificationId: string, modificationId: string, known: set<string>)
    requires HasKey(specs, specificationId) && modificationId != ""
    requires var spec := Get(specs, specificationId).value;
      spec.modifications.Some? && HasKey(spec.modifications.value, modificationId)
    requires specificationId + "_" + modificationId in known
    ensures ShipIdOf(specs, specificationId, Some(modificationId), known).Ok?
    ensures ShipIdOf(specs, specificationId, Some(modificationId), known).value.loadoutId == Some(specificationId + "_" + modificationId)
  {
    var spec := Get(specs, specificationId).value;
    var candidates := Candidates(specificationId, Some(modificationId), spec).value;
    assert candidates[0] != "" by {
      assert |candidates[0]| == |specificationId| + 1 + |modificationId|;
    }
  }

  // ---- getModificationLoadouts ----

  /** `modificationIds`: the keys of `Modifications`, none when there are none. */
  function ModificationIds(spec: ShipSpec): (r: seq<string>)
    ensures spec.modifications.None? ==> r == []
    ensures spec.modifications.Some? ==> r == Keys(spec.modifications.value)
  {
    if spec.modifications.None? then [] else Keys(spec.modifications.value)
  }

  /** The ship ids for the base ship and each modification, in that order. */
  function ShipIdsOf(specs: Dict<string, ShipSpec>, name: string, modifications: seq<Option<string>>, known: set<string>)
      : (r: Result<seq<ShipIdent>>)
    ensures r.Ok? ==> |r.value| == |modifications|
    ensures r.Ok? ==> forall i :: 0 <= i < |modifications| ==>
      ShipIdOf(specs, name, modifications[i], known) == Ok(r.value[i])
  {
    if modifications == [] then Ok([])
    else match ShipIdOf(specs, name, modifications[0], known)
      case Err(e) => Err(e)
      case Ok(first) =>
        match ShipIdsOf(specs, name, modifications[1..], known)
        case Err(e) => Err(e)
        case Ok(rest) => Ok([first] + rest)
  }

  /** A ship id with a (truthy) loadout. */
  predicate HasLoadout(id: ShipIdent) {
    !Falsy(id.loadoutId)
  }

  /** `getModificationLoadouts()`: the base ship and every modification, kept
      only when a loadout was found for it. */
  function ModificationLoadouts(specs: Dict<string, ShipSpec>, spec: ShipSpec, known: set<string>): (r: Result<seq<ShipIdent>>)
    ensures r.Ok? ==> forall x :: x in r.value ==> HasLoadout(x)
    ensures r.Ok? ==> |r.value| <= 1 + |ModificationIds(spec)|
  {
    var modifications := [None] + seq(|ModificationIds(spec)|, i requires 0 <= i < |ModificationIds(spec)| => Some(ModificationIds(spec)[i]));
    match ShipIdsOf(specs, spec.name, modifications, known)
    case Err(e) => Err(e)
    case Ok(ids) => Ok(Filter(ids, HasLoadout))
  }

  /** The base ship is listed, and listed first, exactly when it has a loadout. */
  lemma ModificationLoadoutsBaseFirst(specs: Dict<string, ShipSpec>, spec: ShipSpec, known: set<string>)
    requires ModificationLoadouts(specs, spec, known).Ok?
    ensures var base := ShipIdOf(specs, spec.name, None, known);
      var r := ModificationLoadouts(specs, spec, known).value;
      && base.Ok?
      && (HasLoadout(base.value) <==> |r| > 0 && r[0] == base.value)
  {
    var modifications := [None] + seq(|ModificationIds(spec)|, i requires 0 <= i < |ModificationIds(spec)| => Some(ModificationIds(spec)[i]));
    var ids := ShipIdsOf(specs, spec.name, modifications, known).value;
    assert ids[0] == ShipIdOf(specs, spec.name, None, known).value;
    assert ids == [ids[0]] + ids[1..];
    assert forall x :: x in ids[1..] ==> x.modificationId.Some? by {
      forall x | x in ids[1..] ensures x.modificationId.Some? {
        var i :| 0 <= i < |ids[1..]| && ids[1..][i] == x;
        assert ShipIdOf(specs, spec.name, modifications[i + 1], known) == Ok(ids[i + 1]);
      }
    }
  }

  /** No modification with a loadout is dropped. */
  lemma ModificationLoadoutsComplete(specs: Dict<string, ShipSpec>, spec: ShipSpec, known: set<string>, m: string)
    requires ModificationLoadouts(specs, spec, known).Ok?
    requires m in ModificationIds(spec)
    ensures var id := ShipIdOf(specs, spec.name, Some(m), known);
      id.Ok? && (HasLoadout(id.value) ==> id.value in ModificationLoadouts(specs, spec, known).value)
  {
    var modifications := [None] + seq(|ModificationIds(spec)|, i requires 0 <= i < |ModificationIds(spec)| => Some(ModificationIds(spec)[i]));
    var ids := ShipIdsOf(specs, spec.name, modifications, known).value;
    var i :| 0 <= i < |ModificationIds(spec)| && ModificationIds(spec)[i] == m;
    assert modifications[i + 1] == Some(m);
    assert ShipIdOf(specs, spec.name, Some(m), known) == Ok(ids[i + 1]);
  }

  // ---- _findParts ----

  /** The sub-parts `_findParts` pushes when it pops `n`: the elements of an
      array of parts, the single part, or nothing. An array popped as a part
      has no `Parts`. */
  function Kids(n: Node): (r: seq<Node>)
    ensures forall i :: 0 <= i < |r| ==> r[i] < n
  {
    match n
    case PartArray(_) => []
    case Part(_, None) => []
    case Part(_, Some(PartArray(items))) => items
    case Part(_, Some(p)) => [p]
  }

  /** `!className || potential["@class"] == className`; an array has no `@class`. */
  predicate ClassMatches(n: Node, className: Option<string>) {
    Falsy(className) || (n.Part? && n.cls == className)
  }

  /** The nodes `_findParts` visits from `n`: `n` itself, then its sub-parts,
      the last one first, as the stack hands them out. */
  function Collected(n: Node, className: Option<string>): seq<Node>
    decreases n, 1
  {
    (if ClassMatches(n, className) then [n] else []) + CollectedFrom(Kids(n), n, className)
  }

  /** The nodes visited from a stack of nodes below `n`, top (last) first. */
  function CollectedFrom(stack: seq<Node>, n: Node, className: Option<string>): seq<Node>
    requires forall i :: 0 <= i < |stack| ==> stack[i] < n
    decreases n, 0, |stack|
  {
    if stack == [] then []
    else
      Collected(stack[|stack| - 1], className) + CollectedFrom(stack[..|stack| - 1], n, className)
  }

  /** The number of nodes `_findParts` visits from `n`. */
  function Size(n: Node): (s: nat)
    ensures s >= 1
    decreases n, 1
  {
    1 + SumSizes(Kids(n), n)
  }

  function SumSizes(stack: seq<Node>, n: Node): nat
    requires forall i :: 0 <= i < |stack| ==> stack[i] < n
    decreases n, 0, |stack|
  {
    if stack == [] then 0
    else
      Size(stack[|stack| - 1]) + SumSizes(stack[..|stack| - 1], n)
  }

  /** The stack of `_findParts`, whatever it holds: every entry is some node. */
  function Stacked(stack: seq<Node>, className: Option<string>): seq<Node>
    decreases |stack|
  {
    if stack == [] then []
    else Collected(stack[|stack| - 1], className) + Stacked(stack[..|stack| - 1], className)
  }

  function StackSize(stack: seq<Node>): nat
    decreases |stack|
  {
    if stack == [] then 0 else Size(stack[|stack| - 1]) + StackSize(stack[..|stack| - 1])
  }

  lemma {:induction false} CollectedFromIsStacked(stack: seq<Node>, n: Node, className: Option<string>)
    requires forall i :: 0 <= i < |stack| ==> stack[i] < n
    ensures CollectedFrom(stack, n, className) == Stacked(stack, className)
    ensures SumSizes(stack, n) == StackSize(stack)
    decreases |stack|
  {
    if stack != [] {
      CollectedFromIsStacked(stack[..|stack| - 1], n, className);
    }
  }

  /** Pushing `top` onto `stack` puts what is visited from `top` first. */
  lemma {:induction false} StackedAppend(stack: seq<Node>, top: seq<Node>, className: Option<string>)
    ensures Stacked(stack + top, className) == Stacked(top, className) + Stacked(stack, className)
    ensures StackSize(stack + top) == StackSize(top) + StackSize(stack)
    decreases |top|
  {
    if top == [] {
      assert stack + top == stack;
    } else {
      var init, t := top[..|top| - 1], top[|top| - 1];
      assert top == init + [t];
      assert stack + top == (stack + init) + [t];
      StackedSnoc(stack + init, t, className);
      StackedSnoc(init, t, className);
      StackedAppend(stack, init, className);
      Reassociate(Collected(t, className), Stacked(init, className), Stacked(stack, className));
    }
  }

  /** One step of the search: popping `t` visits it and leaves its sub-parts on the stack. */
  lemma PopStep(rest: seq<Node>, t: Node, className: Option<string>)
    ensures Stacked(rest + [t], className) ==
      (if ClassMatches(t, className) then [t] else []) + Stacked(rest + Kids(t), className)
    ensures StackSize(rest + Kids(t)) < StackSize(rest + [t])
  {
    StackedSnoc(rest, t, className);
    CollectedFromIsStacked(Kids(t), t, className);
    StackedAppend(rest, Kids(t), className);
    Reassociate(if ClassMatches(t, className) then [t] else [], Stacked(Kids(t), className), Stacked(rest, className));
  }

  lemma StackedSnoc(rest: seq<Node>, t: Node, className: Option<string>)
    ensures Stacked(rest + [t], className) == Collected(t, className) + Stacked(rest, className)
    ensures StackSize(rest + [t]) == Size(t) + StackSize(rest)
  {
    assert (rest + [t])[..|rest|] == rest && (rest + [t])[|rest|] == t;
  }

  /** The search loop of `_findParts` from one start node; an undefined start throws. */
  method SearchParts(start: Option<Node>, className: Option<string>) returns (r: Result<seq<Node>>)
    ensures start.None? ==> r == Err(TypeError)
    ensures start.Some? ==> r == Ok(Collected(start.value, className))
  {
    if start.None? {
      return Err(TypeError);
    }
    var unsearched := [start.value];
    var result := [];
    StackedSnoc([], start.value, className);
    assert [] + unsearched == unsearched;
    while |unsearched| > 0
      invariant result + Stacked(unsearched, className) == Collected(start.value, className)
      decreases StackSize(unsearched)
    {
      var potential := unsearched[|unsearched| - 1];
      var rest := unsearched[..|unsearched| - 1];
      assert unsearched == rest + [potential];
      PopStep(rest, potential, className);
      Reassociate(result, if ClassMatches(potential, className) then [potential] else [], Stacked(rest + Kids(potential), className));
      if ClassMatches(potential, className) {
        result := result + [potential];
      } else {
        assert result + [] == result;
      }
      unsearched := rest + Kids(potential);
    }
    assert Stacked(unsearched, className) == [];
    assert result + [] == result;
    r := Ok(result);
  }

  /** Where `_findParts` starts: the ship's `Parts.Part`, or the modification's
      `mod.Parts.Part` when the modification has `mod.Parts`. A ship without
      `Parts`, or a modification it does not have, throws. */
  function PartsRoot(spec: ShipSpec, modificationId: Option<string>): (r: Result<Option<Node>>)
    ensures r.Ok? && Falsy(modificationId) ==> spec.parts.Some? && r.value == spec.parts.value
  {
    if spec.parts.None? then Err(TypeError)
    else if Falsy(modificationId) then Ok(spec.parts.value)
    else match spec.modifications
      case None => Err(TypeError)
      case Some(mods) =>
        match Get(mods, modificationId.value)
        case None => Err(TypeError)
        case Some(modification) =>
          if modification.modParts.Some? then Ok(modification.modParts.value) else Ok(spec.parts.value)
  }

  /** `_findParts(modificationId, className)` */
  method FindParts(spec: ShipSpec, modificationId: Option<string>, className: Option<string>) returns (r: Result<seq<Node>>)
    ensures PartsRoot(spec, modificationId).Err? ==> r == Err(PartsRoot(spec, modificationId).error)
    ensures PartsRoot(spec, modificationId) == Ok(None) ==> r == Err(TypeError)
    ensures PartsRoot(spec, modificationId).Ok? && PartsRoot(spec, modificationId).value.Some? ==>
      r == Ok(Collected(PartsRoot(spec, modificationId).value.value, className))
  {
    var root := PartsRoot(spec, modificationId);
    if root.Err? {
      return Err(root.error);
    }
    r := SearchParts(root.value, className);
  }

  /** Every visited node is collected once, whatever the class. */
  lemma {:induction false} CollectedCount(n: Node)
    ensures |Collected(n, None)| == Size(n)
    decreases n, 1
  {
    CollectedCountFrom(Kids(n), n);
  }

  lemma {:induction false} CollectedCountFrom(stack: seq<Node>, n: Node)
    requires forall i :: 0 <= i < |stack| ==> stack[i] < n
    ensures |CollectedFrom(stack, n, None)| == SumSizes(stack, n)
    decreases n, 0, |stack|
  {
    if stack != [] {
      CollectedCount(stack[|stack| - 1]);
      CollectedCountFrom(stack[..|stack| - 1], n);
    }
  }

  /** Searching for one class gives the nodes of the full search that have that class, in the same order. */
  lemma {:induction false} CollectedByClass(n: Node, className: Option<string>)
    ensures Collected(n, className) == Filter(Collected(n, None), (x: Node) => ClassMatches(x, className))
    decreases n, 1
  {
    var p := (x: Node) => ClassMatches(x, className);
    CollectedByClassFrom(Kids(n), n, className);
    FilterAppend([n], CollectedFrom(Kids(n), n, None), p);
    assert [n][1..] == [];
  }

  lemma {:induction false} CollectedByClassFrom(stack: seq<Node>, n: Node, className: Option<string>)
    requires forall i :: 0 <= i < |stack| ==> stack[i] < n
    ensures CollectedFrom(stack, n, className) == Filter(CollectedFrom(stack, n, None), (x: Node) => ClassMatches(x, className))
    decreases n, 0, |stack|
  {
    if stack != [] {
      CollectedByClass(stack[|stack| - 1], className);
      CollectedByClassFrom(stack[..|stack| - 1], n, className);
      FilterAppend(Collected(stack[|stack| - 1], None), CollectedFrom(stack[..|stack| - 1], n, None), (x: Node) => ClassMatches(x, className));
    }
  }

  // ---- ItemPortType, matchesType, matchesComponent ----

  /** An entry of `Types.Type`: `@type` and `@subtypes`. */
  datatype PortTypeDef = PortTypeDef(kind: Option<string>, subtypes: Option<string>)

  /** An `ItemPortType`: its `type` and its list of `subtypes`. */
  datatype ItemPortType = ItemPortType(kind: Option<string>, subtypes: seq<string>)

  /** The subtypes a port type without `@subtypes` stands for. */
  function DefaultSubtypes(kind: Option<string>): string {
    if kind == Some("WeaponGun") then "Gun"
    else if kind == Some("Turret") then "GunTurret"
    else "Default"
  }

  /** `new ItemPortType(portType)`: the subtypes, or their default, split at commas. */
  function MakeItemPortType(def: PortTypeDef): (r: ItemPortType)
    ensures r.kind == def.kind
    ensures |r.subtypes| >= 1 && forall i :: 0 <= i < |r.subtypes| ==> ',' !in r.subtypes[i]
    ensures Join(r.subtypes, ",") == if Falsy(def.subtypes) then DefaultSubtypes(def.kind) else def.subtypes.value
  {
    var subTypes := if Falsy(def.subtypes) then DefaultSubtypes(def.kind) else def.subtypes.value;
    ItemPortType(def.kind, Split(subTypes, ','))
  }

  /** A port type without subtypes matches the one default subtype of its type. */
  lemma DefaultSubtypeOnly(kind: Option<string>)
    ensures MakeItemPortType(PortTypeDef(kind, None)).subtypes == [DefaultSubtypes(kind)]
  {
    var d := DefaultSubtypes(kind);
    assert ',' !in d;
    SplitWithoutSeparator(d, ',');
  }

  lemma {:induction false} SplitWithoutSeparator(s: string, sep: char)
    requires sep !in s
    ensures Split(s, sep) == [s]
  {
    if |s| > 0 {
      SplitWithoutSeparator(s[1..], sep);
      assert s == [s[0]] + s[1..];
    }
  }

  /** A port of a ship or of a component, with what `matchesComponent` reads. */
  datatype ShipPort = ShipPort(name: Option<string>, types: seq<ItemPortType>, minSize: Option<int>, maxSize: Option<int>, tags: seq<string>)

  /** A component of `mergedComponents`, with what `matchesComponent` reads. */
  datatype Component = Component(name: Option<string>, kind: Option<string>, subtype: Option<string>, size: Option<int>, requiredTags: seq<string>)

  /** `matchesType(type, subtype)`: some port type of that type, and, when a
      subtype is asked for, with that subtype in its list. */
  predicate MatchesType(port: ShipPort, kind: Option<string>, subtype: Option<string>) {
    exists i :: 0 <= i < |port.types| && port.types[i].kind == kind &&
      (subtype.None? || subtype.value in port.types[i].subtypes)
  }

  /** Asking for any subtype matches at least as much as asking for one. */
  lemma MatchesTypeAnySubtype(port: ShipPort, kind: Option<string>, subtype: string)
    requires MatchesType(port, kind, Some(subtype))
    ensures MatchesType(port, kind, None)
  {
  }

  /** `matchesComponent(tags, component)`: type and subtype, the size bounds
      the port has (a component without a size passes them), and every tag the
      component requires among `tags` and the port's own tags. */
  predicate MatchesComponent(port: ShipPort, tags: seq<string>, c: Component) {
    && MatchesType(port, c.kind, c.subtype)
    && !(port.minSize.Some? && c.size.Some? && c.size.value < port.minSize.value)
    && !(port.maxSize.Some? && c.size.Some? && c.size.value > port.maxSize.value)
    && forall t :: t in c.requiredTags ==> t in tags + port.tags
  }

  /** More vehicle tags never make a component fit less. */
  lemma MatchesComponentMoreTags(port: ShipPort, tags: seq<string>, more: seq<string>, c: Component)
    requires MatchesComponent(port, tags, c)
    ensures MatchesComponent(port, tags + more, c)
  {
  }

  /** A component that fits has its size within the bounds the port sets. */
  lemma MatchesComponentSize(port: ShipPort, tags: seq<string>, c: Component)
    requires MatchesComponent(port, tags, c) && c.size.Some?
    ensures port.minSize.Some? ==> port.minSize.value <= c.size.value
    ensures port.maxSize.Some? ==> c.size.value <= port.maxSize.value
  {
  }

  /** `availableComponents(tags)`: the names of the merged components that fit the port, in key order. */
  function AvailableComponents(merged: Dict<string, Component>, port: ShipPort, tags: seq<string>): (r: seq<string>)
    ensures |r| <= |merged|
  {
    Keys(Filter(merged, (e: Entry<string, Component>) => MatchesComponent(port, tags, e.val)))
  }

  /** A name is offered exactly when the merged components hold a component
      under it that fits the port. */
  lemma AvailableComponentsMeaning(merged: Dict<string, Component>, port: ShipPort, tags: seq<string>, name: string)
    requires Unique(merged)
    ensures name in AvailableComponents(merged, port, tags) <==>
      HasKey(merged, name) && MatchesComponent(port, tags, Get(merged, name).value)
  {
    var fits := Filter(merged, (e: Entry<string, Component>) => MatchesComponent(port, tags, e.val));
    var r := AvailableComponents(merged, port, tags);
    if name in r {
      var i :| 0 <= i < |r| && r[i] == name;
      assert fits[i].key == name;
      assert fits[i] in fits;
      var j :| 0 <= j < |merged| && merged[j] == fits[i];
      GetAt(merged, j);
    }
    if HasKey(merged, name) && MatchesComponent(port, tags, Get(merged, name).value) {
      var j := IndexOf(merged, name).value;
      GetAt(merged, j);
      assert merged[j] in fits;
      var i :| 0 <= i < |fits| && fits[i] == merged[j];
      assert r[i] == name;
    }
  }

  // ---- mergedComponents ----

  /** The top-level loops that build `mergedComponents`: every dataforge
      component, then each ship component under a key not yet taken. */
  method MergeComponents(dataforge: Dict<string, Component>, spaceship: Dict<string, Component>)
      returns (merged: Dict<string, Component>)
    requires Unique(dataforge)
    ensures Unique(merged)
    ensures |merged| >= |dataforge| && merged[..|dataforge|] == dataforge
    ensures forall k :: HasKey(merged, k) <==> HasKey(dataforge, k) || HasKey(spaceship, k)
    ensures forall k :: HasKey(dataforge, k) ==> Get(merged, k) == Get(dataforge, k)
    ensures forall k :: !HasKey(dataforge, k) ==> Get(merged, k) == Get(spaceship, k)
  {
    merged := [];
    for i := 0 to |dataforge|
      invariant merged == dataforge[..i]
    {
      assert !HasKey(merged, dataforge[i].key);
      merged := Put(merged, dataforge[i].key, dataforge[i].val);
      assert dataforge[..i + 1] == dataforge[..i] + [dataforge[i]];
    }
    assert dataforge[..|dataforge|] == dataforge;
    for i := 0 to |spaceship|
      invariant Unique(merged)
      invariant |merged| >= |dataforge| && merged[..|dataforge|] == dataforge
      invariant forall k :: HasKey(merged, k) <==> HasKey(dataforge, k) || HasKey(spaceship[..i], k)
      invariant forall k :: HasKey(dataforge, k) ==> Get(merged, k) == Get(dataforge, k)
      invariant forall k :: !HasKey(dataforge, k) ==> Get(merged, k) == Get(spaceship[..i], k)
    {
      var key := spaceship[i].key;
      assert spaceship[..i + 1] == spaceship[..i] + [spaceship[i]];
      forall k
        ensures Get(spaceship[..i + 1], k) ==
          if HasKey(spaceship[..i], k) then Get(spaceship[..i], k) else if key == k then Some(spaceship[i].val) else None
        ensures HasKey(spaceship[..i + 1], k) <==> HasKey(spaceship[..i], k) || key == k
      {
        GetAppend(spaceship[..i], spaceship[i], k);
      }
      if !HasKey(merged, key) {
        ghost var before := merged;
        merged := Put(merged, key, spaceship[i].val);
        forall k ensures HasKey(merged, k) <==> HasKey(before, k) || k == key {
          assert Get(merged, k).Some? <==> Get(before, k).Some? || k == key;
        }
      }
    }
    assert spaceship[..|spaceship|] == spaceship;
  }

  // ---- ShipCustomization ----

  /** An entry of a ship loadout: component names by port name, and the
      entries `attached` below it. */
  datatype LoadoutEntry = LoadoutEntry(slots: Dict<string, string>, attached: Option<seq<LoadoutEntry>>)

  /** `_makeOverrideName(portName, parentPortName)` */
  function OverrideName(portName: string, parentPortName: Option<string>): (r: string)
    ensures Falsy(parentPortName) ==> r == portName
    ensures !Falsy(parentPortName) ==> r == parentPortName.value + "." + portName
  {
    if !Falsy(parentPortName) then parentPortName.value + "." + portName else portName
  }

  /** The text before the first dot. */
  function BeforeDot(s: string): (r: string)
    ensures |r| <= |s|
  {
    if s == [] || s[0] == '.' then [] else [s[0]] + BeforeDot(s[1..])
  }

  lemma {:induction false} BeforeDotJoined(a: string, b: string)
    requires '.' !in a
    ensures BeforeDot(a + "." + b) == a
  {
    if a != [] {
      assert (a + "." + b)[1..] == a[1..] + "." + b;
      BeforeDotJoined(a[1..], b);
    }
  }

  lemma {:induction false} BeforeDotNone(a: string)
    requires '.' !in a
    ensures BeforeDot(a) == a
  {
    if a != [] {
      BeforeDotNone(a[1..]);
    }
  }

  /** Names without dots give every port its own override. */
  lemma OverrideNameInjective(p1: string, q1: Option<string>, p2: string, q2: Option<string>)
    requires '.' !in p1 && '.' !in p2
    requires !Falsy(q1) ==> '.' !in q1.value
    requires !Falsy(q2) ==> '.' !in q2.value
    requires OverrideName(p1, q1) == OverrideName(p2, q2)
    ensures p1 == p2 && (Falsy(q1) <==> Falsy(q2)) && (!Falsy(q1) ==> q1 == q2)
  {
    var n := OverrideName(p1, q1);
    if !Falsy(q1) {
      BeforeDotJoined(q1.value, p1);
    } else {
      BeforeDotNone(p1);
    }
    if !Falsy(q2) {
      BeforeDotJoined(q2.value, p2);
    } else {
      BeforeDotNone(p2);
    }
    if !Falsy(q1) && !Falsy(q2) {
      assert q1.value == q2.value;
      assert p1 == n[|q1.value| + 1..] == p2;
    }
  }

  /** The first loadout entry with a component under `portName`. */
  function FindEntry(entries: seq<LoadoutEntry>, portName: string): (r: Option<nat>)
    ensures r.Some? ==> r.value < |entries| && HasKey(entries[r.value].slots, portName)
    ensures r.Some? ==> forall j :: 0 <= j < r.value ==> !HasKey(entries[j].slots, portName)
    ensures r.None? ==> forall j :: 0 <= j < |entries| ==> !HasKey(entries[j].slots, portName)
  {
    if entries == [] then None
    else if HasKey(entries[0].slots, portName) then Some(0)
    else match FindEntry(entries[1..], portName)
      case None => None
      case Some(j) => Some(j + 1)
  }

  /** The component name the loadout itself gives a port: the first entry
      naming `parentPortName`, then the first of its attached entries naming
      `portName`; or the first entry naming `portName` for a top-level port.
      A ship without a loadout throws. */
  function LoadoutComponentName(loadout: Option<seq<LoadoutEntry>>, portName: string, parentPortName: Option<string>)
      : (r: Result<Option<string>>)
    ensures loadout.None? ==> r == Err(TypeError)
    ensures r.Ok? && r.value.Some? && Falsy(parentPortName) ==>
      exists i :: 0 <= i < |loadout.value| && Get(loadout.value[i].slots, portName) == r.value
  {
    match loadout
    case None => Err(TypeError)
    case Some(entries) =>
      if !Falsy(parentPortName) then
        match FindEntry(entries, parentPortName.value)
        case None => Ok(None)
        case Some(i) =>
          match entries[i].attached
          case None => Ok(None)
          case Some(attached) =>
            match FindEntry(attached, portName)
            case None => Ok(None)
            case Some(j) => Ok(Get(attached[j].slots, portName))
      else
        match FindEntry(entries, portName)
        case None => Ok(None)
        case Some(i) => Ok(Get(entries[i].slots, portName))
  }

  /** The per-ship customization: `_overrides` maps override names to the
      component chosen (which may be `undefined`). */
  class ShipCustomization {
    const shipId: ShipIdent
    var overrides: map<string, Option<string>>

    /** `new ShipCustomization(shipId)` */
    constructor(shipId: ShipIdent)
      ensures this.shipId == shipId && overrides == map[]
    {
      this.shipId := shipId;
      overrides := map[];
    }

    /** `setAttachedComponent(portName, parentPortName, componentName)` */
    method SetAttachedComponent(portName: string, parentPortName: Option<string>, componentName: Option<string>)
      modifies this
      ensures overrides == old(overrides)[OverrideName(portName, parentPortName) := componentName]
    {
      overrides := overrides[OverrideName(portName, parentPortName) := componentName];
    }

    /** `getAttachedComponent(portName, parentPortName)`: an override wins over the
        loadout; the name found is looked up in `mergedComponents` (an
        `undefined` name as the key `"undefined"`). `loadout` is the entry of
        `shipLoadouts` for this ship's loadout id. */
    function GetAttachedComponent(merged: Dict<string, Component>, loadout: Option<seq<LoadoutEntry>>,
                                  portName: string, parentPortName: Option<string>): (r: Result<Option<Component>>)
      reads this
      ensures OverrideName(portName, parentPortName) in overrides ==>
        r == Ok(Get(merged, PropertyKey(overrides[OverrideName(portName, parentPortName)])))
      ensures OverrideName(portName, parentPortName) !in overrides && loadout.None? ==> r == Err(TypeError)
    {
      var overrideName := OverrideName(portName, parentPortName);
      if overrideName in overrides then Ok(Get(merged, PropertyKey(overrides[overrideName])))
      else match LoadoutComponentName(loadout, portName, parentPortName)
        case Err(e) => Err(e)
        case Ok(None) => Ok(None)
        case Ok(Some(name)) => Ok(Get(merged, name))
    }
  }

  /** After `setAttachedComponent`, the port reports the chosen component and
      every port with another override name reports what it did before. */
  method SetThenGet(c: ShipCustomization, merged: Dict<string, Component>, loadout: Option<seq<LoadoutEntry>>,
                    portName: string, parentPortName: Option<string>, componentName: string,
                    otherPort: string, otherParent: Option<string>)
    modifies c
    requires OverrideName(otherPort, otherParent) != OverrideName(portName, parentPortName)
    ensures c.GetAttachedComponent(merged, loadout, portName, parentPortName) == Ok(Get(merged, componentName))
    ensures c.GetAttachedComponent(merged, loadout, otherPort, otherParent) ==
      old(c.GetAttachedComponent(merged, loadout, otherPort, otherParent))
  {
    c.SetAttachedComponent(portName, parentPortName, Some(componentName));
  }
}
