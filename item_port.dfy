/** `_make_item_port`: the record the scripts build for one item port, from
    the port's element, a name that overrides the element's own, and the
    port's list of accepted types. scripts/common.py builds the older record
    (lower-cased name, split tags, pipe connections);
    next/scripts/factory/common.py builds the newer one (six keys only). */
module ItemPort {
  import opened Wrappers
  import opened Dicts
  import opened Text
  import opened Py
  import opened Sorting
  import opened TreeStore

  /** The port dict of scripts/common.py. */
  datatype LegacyPort = LegacyPort(
    name: string,
    types: seq<Json>,
    flags: seq<string>,
    minSize: int,
    maxSize: int,
    requiredTags: seq<string>,
    connections: Dict<Json, Json>)

  /** The port dict of next/scripts/factory/common.py: exactly the keys
      `name`, `types`, `flags`, `minSize`, `maxSize` and `requiredTags`. */
  datatype Port = Port(
    name: Json,
    types: seq<Json>,
    flags: seq<string>,
    minSize: int,
    maxSize: int,
    requiredTags: Json)

  /** What `str(uuid.uuid4())` returns: some non-empty name. */
  type Uuid = s: string | s != "" witness "-"

  /** `[x for x in xs if x != ""]` */
  function NonEmpty(xs: seq<string>): (r: seq<string>)
    ensures |r| <= |xs|
    ensures forall x :: x in r <==> x in xs && x != ""
    ensures multiset(r) == multiset(xs)["" := 0]
  {
    if xs == [] then []
    else
      assert xs == [xs[0]] + xs[1..];
      (if xs[0] != "" then [xs[0]] else []) + NonEmpty(xs[1..])
  }

  /** `[x.replace("$", "") for x in xs]` */
  function WithoutDollar(xs: seq<string>): (r: seq<string>)
    ensures |r| == |xs| && forall i :: 0 <= i < |xs| ==> r[i] == RemoveChar(xs[i], '$')
  {
    seq(|xs|, i requires 0 <= i < |xs| => RemoveChar(xs[i], '$'))
  }

  /** The flags before sorting: the non-empty space-separated tokens of the
      attribute, each with its `"$"` characters removed afterwards. */
  function FlagTokens(attr: Json): (r: Result<seq<string>>)
    ensures r.Ok? <==> attr.Str?
    ensures r.Ok? ==> r.value == WithoutDollar(NonEmpty(Split(attr.s, ' ')))
  {
    if attr.Str? then Ok(WithoutDollar(NonEmpty(Split(attr.s, ' ')))) else Err(AttributeError)
  }

  /** The sort key `x.get("type") + "_" + str(x.get("subtype"))`. */
  function TypeKey(x: Json): (r: Result<string>)
    ensures r.Ok? <==> x.Obj? && Lookup(x.fields, "type").Str? && PyStr(Lookup(x.fields, "subtype")).Ok?
    ensures r.Ok? ==> r.value == Lookup(x.fields, "type").s + "_" + PyStr(Lookup(x.fields, "subtype")).value
  {
    if !x.Obj? then Err(AttributeError)
    else
      var t := Lookup(x.fields, "type");
      if !t.Str? then Err(TypeError)
      else
        var text :- PyStr(Lookup(x.fields, "subtype"));
        Ok(t.s + "_" + text)
  }

  /** The key of an entry whose key can be computed. */
  function KeyText(x: Json): string {
    match TypeKey(x)
    case Ok(k) => k
    case Err(_) => ""
  }

  /** The keys of every entry, computed in order before any comparison. */
  function TypeKeys(types: seq<Json>): (r: Result<seq<string>>)
    ensures r.Ok? <==> forall i :: 0 <= i < |types| ==> TypeKey(types[i]).Ok?
  {
    if types == [] then Ok([])
    else
      var k :- TypeKey(types[0]);
      var rest :- TypeKeys(types[1..]);
      assert forall i :: 1 <= i < |types| ==> types[i] == types[1..][i - 1];
      Ok([k] + rest)
  }

  /** `types.sort(key=...)`: a stable sort by the key, failing when any key fails. */
  function SortTypes(types: seq<Json>): (r: Result<seq<Json>>)
    ensures r.Ok? <==> forall i :: 0 <= i < |types| ==> TypeKey(types[i]).Ok?
    ensures r.Ok? ==> r.value == SortBy(types, KeyText)
  {
    var _ :- TypeKeys(types);
    Ok(SortBy(types, KeyText))
  }

  /** The connections of `xs`, assigned in order: `d[x.get(keyAttr)] = x.get(valAttr)`. */
  function AddPairs(d: Dict<Json, Json>, xs: seq<Json>, keyAttr: string, valAttr: string): (r: Result<Dict<Json, Json>>)
    ensures r.Ok? <==> forall i :: 0 <= i < |xs| ==> xs[i].Obj? && Hashable(Lookup(xs[i].fields, keyAttr))
    decreases |xs|
  {
    if xs == [] then Ok(d)
    else
      var before :- AddPairs(d, xs[..|xs| - 1], keyAttr, valAttr);
      var x := xs[|xs| - 1];
      if !x.Obj? then Err(AttributeError)
      else
        var key := Lookup(x.fields, keyAttr);
        if !Hashable(key) then Err(TypeError)
        else
          assert forall i :: 0 <= i < |xs| - 1 ==> xs[i] == xs[..|xs| - 1][i];
          Ok(Put(before, key, Lookup(x.fields, valAttr)))
  }

  /** `for x in holder.get(list, []): ...` */
  function AddListed(d: Dict<Json, Json>, holder: Json, list: string, keyAttr: string, valAttr: string): (r: Result<Dict<Json, Json>>)
    ensures !holder.Obj? ==> r == Err(AttributeError)
    ensures holder.Obj? && !HasKey(holder.fields, list) ==> r == Ok(d)
  {
    var listed :- GetDefault(holder, list, List([]));
    var xs :- Iterate(listed);
    AddPairs(d, xs, keyAttr, valAttr)
  }

  /** The `connections` dict: pipe classes to pipes, then connection-parameter classes to names. */
  function Connections(element: Json): (r: Result<Dict<Json, Json>>)
    requires element.Obj?
    ensures SingleOf(element, "connections").Err? ==> r.Err?
    ensures SingleOf(element, "connections").Ok? && !Truthy(SingleOf(element, "connections").value) ==> r == Ok([])
    ensures var holder := SingleOf(element, "connections");
      holder.Ok? && Truthy(holder.value) && !holder.value.Obj? ==> r == Err(AttributeError)
  {
    var holder :- SingleOf(element, "connections");
    if !Truthy(holder) then Ok([])
    else
      var pipes :- AddListed([], holder, "connection", "@pipeclass", "@pipe");
      AddListed(pipes, holder, "sitemportconnectionparam", "@klass", "@name")
  }

  /** The name before the fallback: the override when truthy, else `@name`
      (an empty string when missing), lower-cased. */
  function LegacyName(element: Json, nameOverride: Json): (r: Result<string>)
    ensures r.Ok? ==> HasNoUpper(r.value)
    ensures r.Ok? && nameOverride.Str? && nameOverride.s != "" ==> r.value == Lower(nameOverride.s) && r.value != ""
  {
    var value :- if Truthy(nameOverride) then Ok(nameOverride) else GetDefault(element, "@name", Str(""));
    if value.Str? then
      LowerIsLower(value.s);
      Ok(Lower(value.s))
    else Err(AttributeError)
  }

  /** `port["flags"]` at the end: the tokens, sorted. */
  function Flags(fields: Dict<string, Json>): (r: Result<seq<string>>)
    ensures r.Ok? <==> Get(fields, "@flags").GetOr(Str("")).Str?
  {
    var tokens :- FlagTokens(Get(fields, "@flags").GetOr(Str("")));
    Ok(Sorted(tokens))
  }

  /** `int(element.get(attr, 0))` */
  function Size(fields: Dict<string, Json>, attr: string): (r: Result<int>)
    ensures !HasKey(fields, attr) ==> r == Ok(0)
    ensures HasKey(fields, attr) ==> r == ToInt(Lookup(fields, attr))
  {
    ToInt(Get(fields, attr).GetOr(Int(0)))
  }

  /** The tags both versions start from: `@requiredTags` when truthy, else `@porttags`. */
  function TagSource(fields: Dict<string, Json>): Json {
    var given := Lookup(fields, "@requiredTags");
    if Truthy(given) then given else Lookup(fields, "@porttags")
  }

  /** `[]` for falsy tags, else `tags.split()`. */
  function SplitTags(tags: Json): (r: Result<seq<string>>)
    ensures r.Ok? <==> !Truthy(tags) || tags.Str?
    ensures forall i :: r.Ok? && 0 <= i < |r.value| ==> r.value[i] != ""
  {
    if !Truthy(tags) then Ok([])
    else if tags.Str? then Ok(SplitWhitespace(tags.s))
    else Err(AttributeError)
  }

  /** `_make_item_port` of scripts/common.py; `uuid` stands for `str(uuid.uuid4())`. */
  function MakeLegacyPort(element: Json, nameOverride: Json, types: seq<Json>, uuid: Uuid): (r: Result<LegacyPort>)
    ensures r.Ok? ==> element.Obj? && LegacyName(element, nameOverride).Ok?
    ensures r.Ok? ==> r.value.name != ""
    ensures r.Ok? ==> r.value.name == LegacyName(element, nameOverride).value || r.value.name == uuid
    ensures r.Ok? && LegacyName(element, nameOverride).value != "" ==> r.value.name == LegacyName(element, nameOverride).value
    ensures r.Ok? ==> Flags(element.fields) == Ok(r.value.flags)
    ensures r.Ok? ==> Size(element.fields, "@minsize") == Ok(r.value.minSize)
    ensures r.Ok? ==> Size(element.fields, "@maxsize") == Ok(r.value.maxSize)
    ensures r.Ok? ==> SplitTags(TagSource(element.fields)) == Ok(r.value.requiredTags)
    ensures r.Ok? ==> Connections(element) == Ok(r.value.connections)
    ensures r.Ok? ==> SortTypes(types) == Ok(r.value.types)
  {
    var lowered :- LegacyName(element, nameOverride);
    if !element.Obj? then Err(AttributeError)
    else
      var fields := element.fields;
      var flags :- Flags(fields);
      var minSize :- Size(fields, "@minsize");
      var maxSize :- Size(fields, "@maxsize");
      var tags := TagSource(fields);
      var connections :- Connections(element);
      var name := if lowered == "" then uuid else lowered;
      var requiredTags :- SplitTags(tags);
      var sortedTypes :- SortTypes(types);
      Ok(LegacyPort(name, sortedTypes, flags, minSize, maxSize, requiredTags, connections))
  }

  /** `port["requiredTags"]` of the newer record: `""` becomes None. */
  function PortTags(fields: Dict<string, Json>): (r: Json)
    ensures r != Str("")
    ensures TagSource(fields) != Str("") ==> r == TagSource(fields)
  {
    var tags := TagSource(fields);
    if tags == Str("") then Null else tags
  }

  /** `_make_item_port` of next/scripts/factory/common.py. */
  function MakePort(element: Json, nameOverride: Json, types: seq<Json>): (r: Result<Port>)
    ensures r.Ok? ==> element.Obj?
    ensures r.Ok? && Truthy(nameOverride) ==> r.value.name == nameOverride
    ensures r.Ok? && !Truthy(nameOverride) ==> r.value.name == Lookup(element.fields, "@name")
    ensures r.Ok? ==> Flags(element.fields) == Ok(r.value.flags)
    ensures r.Ok? ==> Size(element.fields, "@minsize") == Ok(r.value.minSize)
    ensures r.Ok? ==> Size(element.fields, "@maxsize") == Ok(r.value.maxSize)
    ensures r.Ok? ==> r.value.requiredTags == PortTags(element.fields)
    ensures r.Ok? ==> SortTypes(types) == Ok(r.value.types)
  {
    var name :- if Truthy(nameOverride) then Ok(nameOverride) else GetDefault(element, "@name", Null);
    if !element.Obj? then Err(AttributeError)
    else
      var fields := element.fields;
      var flags :- Flags(fields);
      var minSize :- Size(fields, "@minsize");
      var maxSize :- Size(fields, "@maxsize");
      var sortedTypes :- SortTypes(types);
      Ok(Port(name, sortedTypes, flags, minSize, maxSize, PortTags(fields)))
  }

  /** The flags are the non-empty space-separated tokens of `@flags` (missing reads as
      empty), each without its `"$"`s, in sorted order; none holds a space or a `"$"`. */
  lemma FlagsNormalised(fields: Dict<string, Json>)
    requires Flags(fields).Ok?
    ensures var flags := Flags(fields).value;
      var attr := Get(fields, "@flags").GetOr(Str(""));
      && multiset(flags) == multiset(WithoutDollar(NonEmpty(Split(attr.s, ' '))))
      && (forall i, j :: 0 <= i < j < |flags| ==> LessEq(flags[i], flags[j]))
      && (forall i :: 0 <= i < |flags| ==> ' ' !in flags[i] && '$' !in flags[i])
  {
    var flags := Flags(fields).value;
    var attr := Get(fields, "@flags").GetOr(Str(""));
    var pieces := Split(attr.s, ' ');
    var tokens := WithoutDollar(NonEmpty(pieces));
    assert flags == Sorted(tokens);
    forall i | 0 <= i < |flags| ensures ' ' !in flags[i] && '$' !in flags[i] {
      assert flags[i] in multiset(tokens);
      var j :| 0 <= j < |tokens| && tokens[j] == flags[i];
      var t := NonEmpty(pieces)[j];
      assert t in pieces;
      assert ' ' !in t;
      assert multiset(tokens[j])[' '] == multiset(t)[' '];
    }
  }

  /** The `"$"` is removed after the emptiness test, so a lone `"$"` leaves an empty flag. */
  lemma LoneDollarFlag()
    ensures Flags([Entry("@flags", Str("$"))]) == Ok([""])
  {
    assert Split("$", ' ') == ["$"];
    assert NonEmpty(["$"]) == ["$"];
    assert RemoveChar("$", '$') == "";
    assert WithoutDollar(["$"]) == [""];
    assert Get([Entry("@flags", Str("$"))], "@flags") == Some(Str("$"));
    var r := Sorted([""]);
    assert |multiset(r)| == 1;
    assert r[0] in multiset(r);
    assert r == [""];
  }

  /** The required tags are the whitespace-separated words of `@requiredTags`, or of
      `@porttags` when that is missing or empty; none at all when both are. */
  lemma LegacyRequiredTags(fields: Dict<string, Json>)
    requires SplitTags(TagSource(fields)).Ok?
    ensures var tags := SplitTags(TagSource(fields)).value;
      && (!Truthy(Lookup(fields, "@requiredTags")) && !Truthy(Lookup(fields, "@porttags")) ==> tags == [])
      && (Truthy(Lookup(fields, "@requiredTags")) ==> tags == SplitWhitespace(Lookup(fields, "@requiredTags").s))
      && (!Truthy(Lookup(fields, "@requiredTags")) && Truthy(Lookup(fields, "@porttags")) ==>
            tags == SplitWhitespace(Lookup(fields, "@porttags").s))
  {
  }

  /** The tree reader lower-cases attribute names, so `@requiredTags` (with a capital
      `T`) is never there and the tags always come from `@porttags`. */
  lemma TagsFromPorttags(element: Json)
    requires element.Obj? && LowerKeys(element)
    ensures TagSource(element.fields) == Lookup(element.fields, "@porttags")
  {
    assert IsUpper("@requiredTags"[9]);
    LowerKeysHasKey(element.fields, "@requiredTags");
  }

  /** The types come out in key order, as a permutation of the input, and entries
      with equal keys keep the order they were given in. */
  lemma TypesOrdered(types: seq<Json>, r: seq<Json>)
    requires SortTypes(types) == Ok(r)
    ensures multiset(r) == multiset(types)
    ensures forall i, j :: 0 <= i < j < |r| ==> LessEq(KeyText(r[i]), KeyText(r[j]))
    ensures forall k :: WithKey(r, KeyText, k) == WithKey(types, KeyText, k)
  {
    SortBySorted(types, KeyText);
    forall k ensures WithKey(r, KeyText, k) == WithKey(types, KeyText, k) {
      SortByStable(types, KeyText, k);
    }
  }

  /** The entry of the last pair that names a key is the one the dict keeps. */
  lemma {:induction false} PairsLastWins(d: Dict<Json, Json>, xs: seq<Json>, keyAttr: string, valAttr: string, i: nat)
    requires AddPairs(d, xs, keyAttr, valAttr).Ok? && i < |xs|
    requires forall j :: i < j < |xs| ==> Lookup(xs[j].fields, keyAttr) != Lookup(xs[i].fields, keyAttr)
    ensures Get(AddPairs(d, xs, keyAttr, valAttr).value, Lookup(xs[i].fields, keyAttr)) == Some(Lookup(xs[i].fields, valAttr))
    decreases |xs|
  {
    var n := |xs| - 1;
    assert forall j :: 0 <= j < n ==> xs[j] == xs[..n][j];
    if i < n {
      PairsLastWins(d, xs[..n], keyAttr, valAttr, i);
    }
  }

  /** A key no pair names keeps what it had. */
  lemma {:induction false} PairsKeepOthers(d: Dict<Json, Json>, xs: seq<Json>, keyAttr: string, valAttr: string, k: Json)
    requires AddPairs(d, xs, keyAttr, valAttr).Ok?
    requires forall j :: 0 <= j < |xs| ==> Lookup(xs[j].fields, keyAttr) != k
    ensures Get(AddPairs(d, xs, keyAttr, valAttr).value, k) == Get(d, k)
    decreases |xs|
  {
    if xs != [] {
      var n := |xs| - 1;
      assert forall j :: 0 <= j < n ==> xs[j] == xs[..n][j];
      PairsKeepOthers(d, xs[..n], keyAttr, valAttr, k);
    }
  }

  /** Once a pair fails, the whole assignment fails with its error. */
  lemma {:induction false} PairsFailureStays(d: Dict<Json, Json>, xs: seq<Json>, keyAttr: string, valAttr: string, n: nat)
    requires n <= |xs| && AddPairs(d, xs[..n], keyAttr, valAttr).Err?
    ensures AddPairs(d, xs, keyAttr, valAttr) == AddPairs(d, xs[..n], keyAttr, valAttr)
    decreases |xs| - n
  {
    if n < |xs| {
      assert xs[..n + 1][..n] == xs[..n];
      PairsFailureStays(d, xs, keyAttr, valAttr, n + 1);
    } else {
      assert xs[..n] == xs;
    }
  }

  /** `d[x.get(keyAttr)] = x.get(valAttr)` for each `x` in turn. */
  method AssignPairs(d: Dict<Json, Json>, xs: seq<Json>, keyAttr: string, valAttr: string) returns (r: Result<Dict<Json, Json>>)
    ensures r == AddPairs(d, xs, keyAttr, valAttr)
  {
    var cur := d;
    var i := 0;
    while i < |xs|
      invariant 0 <= i <= |xs|
      invariant AddPairs(d, xs[..i], keyAttr, valAttr) == Ok(cur)
    {
      assert xs[..i + 1][..i] == xs[..i];
      var x := xs[i];
      if !x.Obj? {
        PairsFailureStays(d, xs, keyAttr, valAttr, i + 1);
        return Err(AttributeError);
      }
      var key := Lookup(x.fields, keyAttr);
      if !Hashable(key) {
        PairsFailureStays(d, xs, keyAttr, valAttr, i + 1);
        return Err(TypeError);
      }
      cur := Put(cur, key, Lookup(x.fields, valAttr));
      i := i + 1;
    }
    assert xs[..i] == xs;
    return Ok(cur);
  }

  /** The loops that fill `port["connections"]`. */
  method FillConnections(element: Json) returns (r: Result<Dict<Json, Json>>)
    requires element.Obj?
    ensures r == Connections(element)
  {
    var holder := SingleOf(element, "connections");
    if holder.Err? {
      return Err(holder.error);
    }
    if !Truthy(holder.value) {
      return Ok([]);
    }
    if !holder.value.Obj? {
      return Err(AttributeError);
    }
    var pipes := Iterate(Get(holder.value.fields, "connection").GetOr(List([])));
    assert pipes == Iterate(GetDefault(holder.value, "connection", List([])).value);
    if pipes.Err? {
      return Err(pipes.error);
    }
    var d := AssignPairs([], pipes.value, "@pipeclass", "@pipe");
    if d.Err? {
      return d;
    }
    var params := Iterate(Get(holder.value.fields, "sitemportconnectionparam").GetOr(List([])));
    assert params == Iterate(GetDefault(holder.value, "sitemportconnectionparam", List([])).value);
    if params.Err? {
      return Err(params.error);
    }
    r := AssignPairs(d.value, params.value, "@klass", "@name");
  }
}
