/** `modify_vehicle` in its three versions: the modification record named by
    the vehicle is looked up, each inline override sets one attribute on the
    node its id locates, and then each entry of a patch document replaces the
    whole node its `"@id"` locates. The tree is a value: each step yields the
    next tree. */
module Patch {
  import opened Wrappers
  import opened Dicts
  import opened Text
  import opened Py
  import opened Locator
  import opened TreeStore

  /** `next(x for x in available if x["@name"] == name)` */
  function FindModification(available: seq<Json>, name: string): (r: Result<Json>)
    ensures r.Ok? ==> r.value in available && r.value.Obj? && Index(r.value, "@name") == Ok(Str(name))
    ensures r == Err(StopIteration) <==>
      forall x :: x in available ==> Index(x, "@name").Ok? && Index(x, "@name") != Ok(Str(name))
    ensures r.Err? && r != Err(StopIteration) ==> exists x :: x in available && Index(x, "@name") == Err(r.error)
  {
    if |available| == 0 then Err(StopIteration)
    else
      var n :- Index(available[0], "@name");
      if n == Str(name) then Ok(available[0])
      else
        var r := FindModification(available[1..], name);
        assert forall x :: x in available ==> x == available[0] || x in available[1..];
        r
  }

  /** The warning printed for an id that locates nothing; joining it to a non-string id raises `TypeError`. */
  const Unresolved := "Unable to modify element ID "

  /** The node the search for `id` locates, as `if element:` accepts it. */
  function Located(tree: Json, id: Json): (r: Option<Path>)
    ensures r.Some? ==> At(tree, r.value).Some? && IsMatch(At(tree, r.value).value, id) && Truthy(At(tree, r.value).value)
  {
    var p := FindElement(tree, id);
    if p.Some? && Truthy(At(tree, p.value).value) then p else None
  }

  /** One inline override: `element["@" + entry["@name"]] = entry["@value"]` on the node located by the
      entry's id (read under `idKey`); an id that locates nothing only draws a warning. */
  function Override(tree: Json, entry: Json, idKey: string): (r: Result<Json>)
    ensures Index(entry, idKey).Err? ==> r == Err(Index(entry, idKey).error)
    ensures r.Err? ==> r.error.KeyError? || r.error == TypeError
    ensures r.Ok? ==>
      && Index(entry, idKey).Ok?
      && (Located(tree, Index(entry, idKey).value).Some? ==>
            Index(entry, "@value").Ok? && Index(entry, "@name").Ok? && Index(entry, "@name").value.Str?)
      && (Located(tree, Index(entry, idKey).value).None? ==> r.value == tree && Index(entry, idKey).value.Str?)
  {
    var id :- Index(entry, idKey);
    match Located(tree, id)
    case Some(p) =>
      var value :- Index(entry, "@value");
      var name :- Index(entry, "@name");
      var key :- ConcatStr("@", name);
      Ok(SetAt(tree, p, Obj(Put(At(tree, p).value.fields, key, value))))
    case None =>
      var _ :- ConcatStr(Unresolved, id);
      Ok(tree)
  }

  /** The inline overrides applied in order, stopping at the first error. */
  function Overrides(tree: Json, entries: seq<Json>, idKey: string): Result<Json>
    decreases |entries|
  {
    if |entries| == 0 then Ok(tree)
    else
      var t :- Override(tree, entries[0], idKey);
      Overrides(t, entries[1..], idKey)
  }

  /** One patch entry: when its `"@id"` is truthy and locates a node, `element.clear()` and
      `element.update(entry)`; otherwise nothing changes (a warning when the id locates nothing). */
  function Replace(tree: Json, entry: Json): (r: Result<Json>)
    ensures !entry.Obj? ==> r == Err(AttributeError)
    ensures entry.Obj? && !Truthy(Lookup(entry.fields, "@id")) ==> r == Ok(tree)
    ensures r.Err? ==> r.error == AttributeError || r.error == TypeError
    ensures r.Ok? && entry.Obj? && Truthy(Lookup(entry.fields, "@id")) && Located(tree, Lookup(entry.fields, "@id")).None? ==>
      r.value == tree && Lookup(entry.fields, "@id").Str?
  {
    var id :- GetKey(entry, "@id");
    if !Truthy(id) then Ok(tree)
    else match Located(tree, id)
      case Some(p) => Ok(SetAt(tree, p, Obj(Update([], entry.fields))))
      case None =>
        var _ :- ConcatStr(Unresolved, id);
        Ok(tree)
  }

  /** The patch entries applied in order, stopping at the first error. */
  function Replacements(tree: Json, entries: seq<Json>): Result<Json>
    decreases |entries|
  {
    if |entries| == 0 then Ok(tree)
    else
      var t :- Replace(tree, entries[0]);
      Replacements(t, entries[1..])
  }

  /** An override sets exactly one key on the located node and changes no other node; an
      unresolved id changes nothing. */
  lemma OverrideEffect(tree: Json, entry: Json, idKey: string)
    requires Override(tree, entry, idKey).Ok?
    ensures var t := Override(tree, entry, idKey).value;
      var id := Index(entry, idKey).value;
      (match Located(tree, id)
       case None => t == tree
       case Some(p) =>
         var node := At(tree, p).value;
         var key := "@" + Index(entry, "@name").value.s;
         && Index(entry, "@name").value.Str?
         && At(t, p) == Some(Obj(Put(node.fields, key, Index(entry, "@value").value)))
         && (forall k :: k != key ==> Get(At(t, p).value.fields, k) == Get(node.fields, k))
         && (forall q :: !(p <= q) && !(q <= p) ==> At(t, q) == At(tree, q)))
  {
    var id := Index(entry, idKey).value;
    match Located(tree, id)
    case None =>
    case Some(p) =>
      var node := At(tree, p).value;
      var key := "@" + Index(entry, "@name").value.s;
      var v := Obj(Put(node.fields, key, Index(entry, "@value").value));
      SetAtHere(tree, p, v);
      forall q | !(p <= q) && !(q <= p) ensures At(SetAt(tree, p, v), q) == At(tree, q) {
        SetAtElsewhere(tree, p, v, q);
      }
  }

  /** A patch entry with a truthy id that locates a node leaves that node holding exactly the entry's
      keys and values, whatever it held before, and changes no other node; otherwise nothing changes. */
  lemma ReplaceEffect(tree: Json, entry: Json)
    requires Replace(tree, entry).Ok? && Valid(entry)
    ensures var t := Replace(tree, entry).value;
      var id := GetKey(entry, "@id").value;
      if Truthy(id) && Located(tree, id).Some? then
        var p := Located(tree, id).value;
        && At(t, p) == Some(entry)
        && (forall q :: !(p <= q) && !(q <= p) ==> At(t, q) == At(tree, q))
      else t == tree
  {
    var id := GetKey(entry, "@id").value;
    if Truthy(id) && Located(tree, id).Some? {
      var p := Located(tree, id).value;
      ClearThenUpdate(entry.fields);
      SetAtHere(tree, p, entry);
      forall q | !(p <= q) && !(q <= p) ensures At(SetAt(tree, p, entry), q) == At(tree, q) {
        SetAtElsewhere(tree, p, entry, q);
      }
    }
  }

  lemma OverrideValid(tree: Json, entry: Json, idKey: string)
    requires Valid(tree) && Valid(entry) && Override(tree, entry, idKey).Ok?
    ensures Valid(Override(tree, entry, idKey).value)
  {
    var id := Index(entry, idKey).value;
    if Located(tree, id).Some? {
      var p := Located(tree, id).value;
      var node := At(tree, p).value;
      AtValid(tree, p);
      var i := IndexOf(entry.fields, "@value").value;
      ValidValue(entry, i);
      var key := "@" + Index(entry, "@name").value.s;
      PutValid(node.fields, key, entry.fields[i].val);
      SetAtValid(tree, p, Obj(Put(node.fields, key, entry.fields[i].val)));
    }
  }

  lemma PutValid(fs: Dict<string, Json>, k: string, v: Json)
    requires Valid(Obj(fs)) && Valid(v)
    ensures Valid(Obj(Put(fs, k, v)))
  {
    var r := Put(fs, k, v);
    forall j | 0 <= j < |r| ensures Valid(r[j].val) {
      if j < |fs| && r[j] != Entry(k, v) {
        assert r[j] == fs[j];
      }
    }
  }

  /** Overrides keep every dict's keys distinct. */
  lemma {:induction false} OverridesValid(tree: Json, entries: seq<Json>, idKey: string)
    requires Valid(tree) && forall x :: x in entries ==> Valid(x)
    requires Overrides(tree, entries, idKey).Ok?
    ensures Valid(Overrides(tree, entries, idKey).value)
    decreases |entries|
  {
    if |entries| > 0 {
      OverrideValid(tree, entries[0], idKey);
      assert forall x :: x in entries[1..] ==> x in entries;
      OverridesValid(Override(tree, entries[0], idKey).value, entries[1..], idKey);
    }
  }

  /** Patch entries that are valid values keep every dict's keys distinct. */
  lemma {:induction false} ReplacementsValid(tree: Json, entries: seq<Json>)
    requires Valid(tree) && forall x :: x in entries ==> Valid(x)
    requires Replacements(tree, entries).Ok?
    ensures Valid(Replacements(tree, entries).value)
    decreases |entries|
  {
    if |entries| > 0 {
      var entry := entries[0];
      var id := GetKey(entry, "@id").value;
      var t := Replace(tree, entry).value;
      if Truthy(id) && Located(tree, id).Some? {
        assert entry in entries;
        ClearThenUpdate(entry.fields);
        SetAtValid(tree, Located(tree, id).value, entry);
      }
      assert forall x :: x in entries[1..] ==> x in entries;
      ReplacementsValid(t, entries[1..]);
    }
  }

  lemma ValidValue(j: Json, i: nat)
    requires Valid(j) && j.Obj? && i < |j.fields|
    ensures Valid(j.fields[i].val)
  {
  }

  lemma {:induction false} AtValid(j: Json, p: Path)
    requires Valid(j) && At(j, p).Some?
    ensures Valid(At(j, p).value)
    decreases |p|
  {
    if p != [] {
      var c := Children(j)[p[0]];
      assert Valid(c);
      AtValid(c, p[1..]);
    }
  }

  /** `for entry in elements:` with the override of each entry. */
  method ApplyOverrides(tree: Json, entries: seq<Json>, idKey: string) returns (r: Result<Json>)
    ensures r == Overrides(tree, entries, idKey)
  {
    var current := tree;
    var i := 0;
    while i < |entries|
      invariant 0 <= i <= |entries|
      invariant Overrides(tree, entries, idKey) == Overrides(current, entries[i..], idKey)
    {
      assert entries[i..][1..] == entries[i + 1..];
      var next :- Override(current, entries[i], idKey);
      current := next;
      i := i + 1;
    }
    assert entries[i..] == [];
    r := Ok(current);
  }

  /** The loop over patch entries, replacing each located node. */
  method ApplyReplacements(tree: Json, entries: seq<Json>) returns (r: Result<Json>)
    ensures r == Replacements(tree, entries)
  {
    var current := tree;
    var i := 0;
    while i < |entries|
      invariant 0 <= i <= |entries|
      invariant Replacements(tree, entries) == Replacements(current, entries[i..])
    {
      assert entries[i..][1..] == entries[i + 1..];
      var next :- Replace(current, entries[i]);
      current := next;
      i := i + 1;
    }
    assert entries[i..] == [];
    r := Ok(current);
  }

  /** scripts/extract.py: every value of the patch root is iterated and each of its entries applied. */
  function PatchRoot(tree: Json, patch: Dict<string, Json>): Result<Json>
    decreases |patch|
  {
    if |patch| == 0 then Ok(tree)
    else
      var entries :- Iterate(patch[0].val);
      var t :- Replacements(tree, entries);
      PatchRoot(t, patch[1..])
  }

  /** The inline overrides of an XML modification record: the list under its first `elems` child. */
  function XmlOverrides(tree: Json, modification: Json): (r: Result<Json>)
    requires modification.Obj?
    ensures !Truthy(Lookup(modification.fields, "elems")) ==> r == Ok(tree)
    ensures Truthy(Lookup(modification.fields, "elems")) && r.Ok? ==>
      SingleOf(modification, "elems").Ok? && GetKey(SingleOf(modification, "elems").value, "elem").Ok?
  {
    var elems := Lookup(modification.fields, "elems");
    if !Truthy(elems) then Ok(tree)
    else
      var first :- SingleOf(modification, "elems");
      var list :- GetKey(first, "elem");
      var entries :- Iterate(list);
      Overrides(tree, entries, "@idref")
  }

  /** The modification record named `name` among the `modification` children of a vehicle read from XML. */
  function XmlModification(implementation: Json, name: string): (r: Result<Json>)
    ensures r.Ok? ==> r.value.Obj? && Index(r.value, "@name") == Ok(Str(name))
  {
    var mods :- SingleOf(implementation, "modifications");
    var available :- Index(mods, "modification");
    var candidates :- Iterate(available);
    FindModification(candidates, name)
  }

  /** `modify_vehicle` of scripts/extract.py, with the patch file's tree as an input. */
  function ModifyXml(implementation: Json, name: string, patch: Dict<string, Json>): Result<Json> {
    var modification :- XmlModification(implementation, name);
    var tree :- XmlOverrides(implementation, modification);
    var patchFile := Lookup(modification.fields, "@patchfile");
    if !Truthy(patchFile) then Ok(tree)
    else if !patchFile.Str? then Err(TypeError)
    else PatchRoot(tree, patch)
  }

  /** The key next/scripts/extract.py reads the patch file name from. */
  const WrittenPatchKey := "@patchFile"

  /** The key `read_xml_tree` stores the `patchFile` attribute under (scripts/extract.py reads this one). */
  const IntendedPatchKey := "@patchfile"

  /** `modify_vehicle` of next/scripts/extract.py, with the patch file's tree as an input and the key
      the patch file name is read from as a parameter. */
  function ModifyNext(implementation: Json, name: string, patch: Json, patchKey: string): (r: Result<Json>)
    ensures XmlModification(implementation, name).Err? ==> r == Err(XmlModification(implementation, name).error)
    ensures r.Ok? ==>
      && XmlModification(implementation, name).Ok?
      && XmlOverrides(implementation, XmlModification(implementation, name).value).Ok?
    ensures XmlModification(implementation, name).Ok? ==>
      var modification := XmlModification(implementation, name).value;
      !Truthy(Lookup(modification.fields, patchKey)) ==> r == XmlOverrides(implementation, modification)
  {
    var modification :- XmlModification(implementation, name);
    var tree :- XmlOverrides(implementation, modification);
    var patchFile := Lookup(modification.fields, patchKey);
    if !Truthy(patchFile) then Ok(tree)
    else if !patchFile.Str? then Err(TypeError)
    else
      var mods :- SingleOf(patch, "modifications");
      if !mods.Obj? then Err(AttributeError) else Replacements(tree, Values(mods.fields))
  }

  /** `modify_vehicle` of next/scripts/extract.py as it is evidently meant to work: the patch file
      name read from the key the tree reader produces, and each list under the patch's
      `modifications` record iterated for its entries, as scripts/extract.py iterates the lists of its
      patch root. */
  function ModifyNextFixed(implementation: Json, name: string, patch: Json): Result<Json> {
    var modification :- XmlModification(implementation, name);
    var tree :- XmlOverrides(implementation, modification);
    var patchFile := Lookup(modification.fields, IntendedPatchKey);
    if !Truthy(patchFile) then Ok(tree)
    else if !patchFile.Str? then Err(TypeError)
    else
      var mods :- SingleOf(patch, "modifications");
      if !mods.Obj? then Err(AttributeError) else PatchRoot(tree, mods.fields)
  }

  /** `modify_vehicle` of scripts/extract_data.py, on JSON, with the patch file's content as an input. */
  function ModifyData(implementation: Json, name: string, patch: Json): Result<Json> {
    var vehicle :- Index(implementation, "Vehicle");
    var mods :- Index(vehicle, "Modifications");
    var available :- Index(mods, "Modification");
    var modification :- FindModification(ElementArray(available), name);
    var elems := Lookup(modification.fields, "Elems");
    var tree :- if !Truthy(elems) then Ok(implementation) else
      var container :- Index(modification, "Elems");
      var list :- GetKey(container, "Elem");
      Overrides(implementation, ElementArray(list), "@idRef");
    var patchFile := Lookup(modification.fields, "@patchFile");
    if !Truthy(patchFile) then Ok(tree)
    else if !patchFile.Str? then Err(AttributeError)
    else
      var entries :- Index(patch, "Modifications");
      if !entries.Obj? then Err(AttributeError) else Replacements(tree, Values(entries.fields))
  }

  method ModifyVehicleXml(implementation: Json, name: string, patch: Dict<string, Json>) returns (r: Result<Json>)
    ensures r == ModifyXml(implementation, name, patch)
  {
    var modification :- XmlModification(implementation, name);
    var tree := implementation;
    var elems := Lookup(modification.fields, "elems");
    if Truthy(elems) {
      var first :- SingleOf(modification, "elems");
      var list :- GetKey(first, "elem");
      var entries :- Iterate(list);
      tree :- ApplyOverrides(tree, entries, "@idref");
    }
    var patchFile := Lookup(modification.fields, "@patchfile");
    if Truthy(patchFile) {
      if !patchFile.Str? {
        return Err(TypeError);
      }
      r := ApplyPatchRoot(tree, patch);
      return;
    }
    r := Ok(tree);
  }

  /** `for key, value in patch.items(): for entry in value:` with the replacement of each entry. */
  method ApplyPatchRoot(tree: Json, patch: Dict<string, Json>) returns (r: Result<Json>)
    ensures r == PatchRoot(tree, patch)
  {
    var current := tree;
    var k := 0;
    while k < |patch|
      invariant 0 <= k <= |patch|
      invariant PatchRoot(tree, patch) == PatchRoot(current, patch[k..])
    {
      assert patch[k..][1..] == patch[k + 1..];
      var entries :- Iterate(patch[k].val);
      current :- ApplyReplacements(current, entries);
      k := k + 1;
    }
    r := Ok(current);
  }

  /** `modify_vehicle` of next/scripts/extract.py, corrected: the patch file name is read from the
      key the tree reader produces, and the entries are taken from each list of the patch's
      `modifications` record. */
  method ModifyVehicleNext(implementation: Json, name: string, patch: Json) returns (r: Result<Json>)
    ensures r == ModifyNextFixed(implementation, name, patch)
  {
    var modification :- XmlModification(implementation, name);
    var tree := implementation;
    var elems := Lookup(modification.fields, "elems");
    if Truthy(elems) {
      var first :- SingleOf(modification, "elems");
      var list :- GetKey(first, "elem");
      var entries :- Iterate(list);
      tree :- ApplyOverrides(tree, entries, "@idref");
    }
    var patchFile := Lookup(modification.fields, IntendedPatchKey);
    if Truthy(patchFile) {
      if !patchFile.Str? {
        return Err(TypeError);
      }
      var mods :- SingleOf(patch, "modifications");
      if !mods.Obj? {
        return Err(AttributeError);
      }
      r := ApplyPatchRoot(tree, mods.fields);
      return;
    }
    r := Ok(tree);
  }

  method ModifyVehicleData(implementation: Json, name: string, patch: Json) returns (r: Result<Json>)
    ensures r == ModifyData(implementation, name, patch)
  {
    var vehicle :- Index(implementation, "Vehicle");
    var mods :- Index(vehicle, "Modifications");
    var available :- Index(mods, "Modification");
    var modification :- FindModification(ElementArray(available), name);
    var tree := implementation;
    var elems := Lookup(modification.fields, "Elems");
    if Truthy(elems) {
      var container :- Index(modification, "Elems");
      var list :- GetKey(container, "Elem");
      tree :- ApplyOverrides(tree, ElementArray(list), "@idRef");
    }
    var patchFile := Lookup(modification.fields, "@patchFile");
    if Truthy(patchFile) {
      if !patchFile.Str? {
        return Err(AttributeError);
      }
      var entries :- Index(patch, "Modifications");
      if !entries.Obj? {
        return Err(AttributeError);
      }
      tree :- ApplyReplacements(tree, Values(entries.fields));
    }
    r := Ok(tree);
  }

  lemma LowerKeysIterate(j: Json)
    requires LowerKeys(j) && Iterate(j).Ok?
    ensures forall x :: x in Iterate(j).value ==> LowerKeys(x)
  {
  }

  lemma LowerKeysFound(available: seq<Json>, name: string)
    requires forall x :: x in available ==> LowerKeys(x)
    requires FindModification(available, name).Ok?
    ensures LowerKeys(FindModification(available, name).value)
  {
  }

  lemma ModificationLowerKeys(implementation: Json, name: string)
    requires LowerKeys(implementation) && XmlModification(implementation, name).Ok?
    ensures LowerKeys(XmlModification(implementation, name).value)
  {
    var mods := SingleOf(implementation, "modifications").value;
    LowerKeysSingle(implementation, "modifications");
    var available := Index(mods, "modification").value;
    LowerKeysGet(mods.fields, "modification");
    var candidates := Iterate(available).value;
    LowerKeysIterate(available);
    LowerKeysFound(candidates, name);
  }

  lemma NoPatchFileKey(modification: Json)
    requires LowerKeys(modification) && modification.Obj?
    ensures Lookup(modification.fields, WrittenPatchKey) == Null
  {
    forall k | HasKey(modification.fields, k) ensures HasNoUpper(k) {
      LowerKeysGet(modification.fields, k);
    }
    assert IsUpper(WrittenPatchKey[6]);
  }

  /** The modification record of a vehicle read by `read_xml_tree` never has the key `"@patchFile"`
      (keys are lower-cased), so the patch document is never consulted: only the inline overrides apply. */
  lemma NextPatchNeverApplies(e: Element, name: string, patch: Json)
    requires WellFormed(e)
    ensures var implementation := Tree(e, false);
      ModifyNext(implementation, name, patch, WrittenPatchKey) ==
        (var modification :- XmlModification(implementation, name); XmlOverrides(implementation, modification))
  {
    var implementation := Tree(e, false);
    TreeLowerKeys(e, false);
    if XmlModification(implementation, name).Ok? {
      var modification := XmlModification(implementation, name).value;
      ModificationLowerKeys(implementation, name);
      NoPatchFileKey(modification);
    }
  }

  /** The `patchFile` attribute of a modification element is found under `IntendedPatchKey` in the
      record `read_xml_tree` builds from it. */
  lemma PatchAttributeFound(m: Element, i: nat)
    requires WellFormed(m) && i < |m.attrib| && m.attrib[i].key == "patchFile"
    requires forall j :: i < j < |m.attrib| ==> Lower(m.attrib[j].key) != Lower(m.attrib[i].key)
    ensures Lookup(Tree(m, false).fields, IntendedPatchKey) == Str(m.attrib[i].val)
  {
    TreeAttribute(m, false, i);
    LowerPatchFile();
  }

  lemma LowerPatchFile()
    ensures "@" + Lower("patchFile") == IntendedPatchKey
  {
    var l := Lower("patchFile");
    assert l[5] == LowerChar('F') == 'f';
    assert l == "patchfile";
  }

  /** A first entry that is not a dict has no `get`: the replacements stop with `AttributeError`. */
  lemma ReplacementsOfNonDict(tree: Json, entries: seq<Json>)
    requires entries != [] && !entries[0].Obj?
    ensures Replacements(tree, entries) == Err(AttributeError)
  {
  }

  /** Reading the right key is not enough: the values of the `modifications` record `read_xml_tree`
      builds are lists and attribute strings, which have no `get`, so with the key alone corrected,
      a patch document whose first `modifications` element has any attribute or child makes
      `modify_vehicle` raise `AttributeError` once the patch file name is truthy. */
  lemma KeyFixAloneFails(implementation: Json, name: string, p: Element)
    requires WellFormed(p)
    requires var m := Matching(p.children, "modifications"); m != [] && Tree(m[0], false).fields != []
    requires XmlModification(implementation, name).Ok?
    requires XmlOverrides(implementation, XmlModification(implementation, name).value).Ok?
    requires var f := Lookup(XmlModification(implementation, name).value.fields, IntendedPatchKey);
      Truthy(f) && f.Str?
    ensures ModifyNext(implementation, name, Tree(p, false), IntendedPatchKey) == Err(AttributeError)
  {
    FirstModificationsNotDict(p);
    var mods := SingleOf(Tree(p, false), "modifications").value.fields;
    var tree := XmlOverrides(implementation, XmlModification(implementation, name).value).value;
    ReplacementsOfNonDict(tree, Values(mods));
    NextReadsModifications(implementation, name, Tree(p, false), IntendedPatchKey, mods);
  }

  /** The `modifications` record read from a patch element holds no dict among its values. */
  lemma FirstModificationsNotDict(p: Element)
    requires WellFormed(p)
    requires var m := Matching(p.children, "modifications"); m != [] && Tree(m[0], false).fields != []
    ensures SingleOf(Tree(p, false), "modifications").Ok? && SingleOf(Tree(p, false), "modifications").value.Obj?
    ensures var mods := SingleOf(Tree(p, false), "modifications").value.fields;
      Values(mods) != [] && !Values(mods)[0].Obj?
  {
    var m := Matching(p.children, "modifications");
    assert m[0] in p.children;
    SingleChild(p, false, "modifications");
    var mods := Tree(m[0], false).fields;
    TreeValuesNotDicts(m[0], false);
    assert Values(mods)[0] == mods[0].val;
  }

  /** Once the patch file name is a truthy string, `modify_vehicle` of next/scripts/extract.py goes
      on to the replacements of the `modifications` record's values. */
  lemma NextReadsModifications(implementation: Json, name: string, patch: Json, patchKey: string,
                               fs: Dict<string, Json>)
    requires XmlModification(implementation, name).Ok?
    requires XmlOverrides(implementation, XmlModification(implementation, name).value).Ok?
    requires var f := Lookup(XmlModification(implementation, name).value.fields, patchKey);
      Truthy(f) && f.Str?
    requires SingleOf(patch, "modifications") == Ok(Obj(fs))
    ensures ModifyNext(implementation, name, patch, patchKey) ==
      Replacements(XmlOverrides(implementation, XmlModification(implementation, name).value).value, Values(fs))
  {
  }

  /** With the corrected reading, the patch's `modifications` record is applied as scripts/extract.py
      applies its patch root, to the tree the inline overrides leave. */
  lemma NextFixedIsPatchRoot(implementation: Json, name: string, patch: Json, fs: Dict<string, Json>)
    requires XmlModification(implementation, name).Ok?
    requires XmlOverrides(implementation, XmlModification(implementation, name).value).Ok?
    requires var f := Lookup(XmlModification(implementation, name).value.fields, IntendedPatchKey);
      Truthy(f) && f.Str?
    requires SingleOf(patch, "modifications") == Ok(Obj(fs))
    ensures ModifyNextFixed(implementation, name, patch) ==
      PatchRoot(XmlOverrides(implementation, XmlModification(implementation, name).value).value, fs)
  {
  }

  /** A patch root holding one list with one entry is that entry's replacement. */
  lemma PatchRootOne(tree: Json, tag: string, entry: Json)
    requires entry.Obj? && Lookup(entry.fields, "@id").Str?
    ensures Replace(tree, entry).Ok?
    ensures PatchRoot(tree, [Entry(tag, List([entry]))]) == Replace(tree, entry)
  {
    var root := [Entry(tag, List([entry]))];
    var t := Replace(tree, entry).value;
    assert Replacements(tree, [entry]) == Ok(t) by {
      assert [entry][1..] == [];
      assert Replacements(t, []) == Ok(t);
    }
    assert root[1..] == [];
    assert PatchRoot(t, root[1..]) == Ok(t);
    assert Iterate(root[0].val) == Ok([entry]);
  }

  /** With the corrected reading, a patch whose `modifications` record holds one list with one entry
      replaces the node that entry's id locates, after the inline overrides, by the entry, and leaves
      every other node as the overrides left it; an id that locates nothing changes nothing. */
  lemma NextFixedReplaces(implementation: Json, name: string, patch: Json, tag: string, entry: Json)
    requires XmlModification(implementation, name).Ok?
    requires XmlOverrides(implementation, XmlModification(implementation, name).value).Ok?
    requires var f := Lookup(XmlModification(implementation, name).value.fields, IntendedPatchKey);
      Truthy(f) && f.Str?
    requires SingleOf(patch, "modifications") == Ok(Obj([Entry(tag, List([entry]))]))
    requires entry.Obj? && Valid(entry)
    requires Lookup(entry.fields, "@id").Str? && Truthy(Lookup(entry.fields, "@id"))
    ensures var tree := XmlOverrides(implementation, XmlModification(implementation, name).value).value;
      var r := ModifyNextFixed(implementation, name, patch);
      var id := Lookup(entry.fields, "@id");
      && r.Ok?
      && (match Located(tree, id)
          case None => r.value == tree
          case Some(q) =>
            && At(r.value, q) == Some(entry)
            && forall o :: !(q <= o) && !(o <= q) ==> At(r.value, o) == At(tree, o))
  {
    var tree := XmlOverrides(implementation, XmlModification(implementation, name).value).value;
    NextFixedIsPatchRoot(implementation, name, patch, [Entry(tag, List([entry]))]);
    PatchRootOne(tree, tag, entry);
    ReplaceEffect(tree, entry);
  }
}
