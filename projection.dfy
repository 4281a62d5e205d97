/** `apply_filters`: the projection of a JSON-like value onto a schema of
    dotted paths. A key survives when its path is a rule of the schema or a
    strict dotted prefix of one; every other key is deleted. A rule whose value
    is a schema name projects the value afresh under that schema; a rule whose
    value is `None` keeps the value whole. `"[]"` in a path stands for the
    elements of a list. Every rule that fires bumps a hit counter. The variant
    of scripts/extract_data.py first copies each key whose spelling differs
    from the schema's only in case to the schema's spelling; the variant of
    scripts/acquire_data.py matches keys exactly. */
module Projection {
  import opened Wrappers
  import opened Dicts
  import opened Text
  import opened Py

  /** Dotted paths mapped to `None` (keep) or to the name of another schema. */
  type Schema = Dict<string, Option<string>>
  /** The schema table, by schema name. */
  type Filters = map<string, Schema>
  /** The hit counters, keyed by `UsageKey`. */
  type Usage = map<string, int>

  function UsageKey(name: string, path: string): string {
    name + " | " + path
  }

  /** The schema a rule re-projects under: its value when that is a non-empty name. */
  function Target(schema: Schema, path: string): (r: Option<string>)
    ensures r.Some? ==> HasKey(schema, path) && r.value != ""
  {
    match Get(schema, path)
    case Some(rule) => if rule.Some? && rule.value != "" then rule else None
    case None => None
  }

  /** Some rule lies below `path`: `path + "."` starts one of the schema's keys. */
  predicate Extends(schema: Schema, path: string) {
    exists i :: 0 <= i < |schema| && path + "." <= schema[i].key
  }

  /** A key at `path` is not deleted. */
  predicate Survives(schema: Schema, path: string) {
    HasKey(schema, path) || Extends(schema, path)
  }

  /** A key at `path` is kept with its value untouched. */
  predicate Keeps(schema: Schema, path: string) {
    HasKey(schema, path) && Target(schema, path).None?
  }

  /** `filter_usage[key] += 1`: a `KeyError` for a counter that was never set up. */
  function Increment(usage: Usage, key: string): (r: Result<Usage>)
    ensures r.Ok? <==> key in usage
    ensures r.Ok? ==> r.value == usage[key := usage[key] + 1]
  {
    if key in usage then Ok(usage[key := usage[key] + 1]) else Err(KeyError(key))
  }

  /** Every counter is still there and none went down. */
  ghost predicate Grows(before: Usage, after: Usage) {
    after.Keys == before.Keys && forall k :: k in before ==> after[k] >= before[k]
  }

  /** Every schema name a rule refers to is in the table. */
  ghost predicate Closed(filters: Filters) {
    forall n, i :: n in filters && 0 <= i < |filters[n]| && filters[n][i].val.Some? && filters[n][i].val.value != "" ==>
      filters[n][i].val.value in filters
  }

  /** There is a counter for every rule of every schema. */
  ghost predicate Covers(filters: Filters, usage: Usage) {
    forall n, i :: n in filters && 0 <= i < |filters[n]| ==> UsageKey(n, filters[n][i].key) in usage
  }

  /** The counter keys of all the rules of the schemas named in `names`. */
  function UsageKeys(filters: Filters, names: set<string>): set<string> {
    set n, p | n in names && n in filters && p in Keys(filters[n]) :: UsageKey(n, p)
  }

  /** The module-level set-up: a zero counter for every (schema, path) pair. */
  function InitUsage(filters: Filters): (r: Usage)
    ensures Covers(filters, r)
    ensures forall k :: k in r ==> r[k] == 0
    ensures forall k :: k in r ==> exists n, p :: n in filters && p in Keys(filters[n]) && k == UsageKey(n, p)
  {
    var r := map k | k in UsageKeys(filters, filters.Keys) :: 0;
    assert Covers(filters, r) by {
      forall n, i | n in filters && 0 <= i < |filters[n]| ensures UsageKey(n, filters[n][i].key) in r {
        assert Keys(filters[n])[i] == filters[n][i].key;
      }
    }
    r
  }

  // ---------------------------------------------------------------------
  // Case normalisation (scripts/extract_data.py only)

  /** `x.split(".")[0]` */
  function Segment(x: string): (r: string)
    ensures r <= x && '.' !in r
    ensures |r| < |x| ==> x[|r|] == '.'
  {
    if x == [] || x[0] == '.' then [] else [x[0]] + Segment(x[1..])
  }

  /** The first segment, below `previous`, of every schema key that starts with `previous`. */
  function Available(keys: seq<string>, previous: string): (r: seq<string>)
    ensures forall i :: 0 <= i < |keys| && previous <= keys[i] ==> Segment(keys[i][|previous|..]) in r
  {
    if keys == [] then []
    else
      var rest := Available(keys[1..], previous);
      assert forall i :: 1 <= i < |keys| ==> keys[i] == keys[1..][i - 1];
      if previous <= keys[0] then [Segment(keys[0][|previous|..])] + rest else rest
  }

  /** Each name's spelling under its lower-cased form; a later name wins. */
  ghost predicate Spelled(table: Dict<string, string>) {
    Unique(table) && forall j :: 0 <= j < |table| ==> Lower(table[j].val) == table[j].key
  }

  /** `{x.lower(): x for x in names}` */
  function LowerTable(names: seq<string>): (r: Dict<string, string>)
    ensures Spelled(r)
    ensures forall x :: x in names ==> HasKey(r, Lower(x))
    decreases |names|
  {
    if names == [] then []
    else
      var last := names[|names| - 1];
      var prefix := names[..|names| - 1];
      var d := LowerTable(prefix);
      var r := Put(d, Lower(last), last);
      forall x | x in names ensures HasKey(r, Lower(x)) {
        if x != last && Lower(x) != Lower(last) {
          assert x in prefix;
          assert Get(r, Lower(x)) == Get(d, Lower(x));
        }
      }
      r
  }

  /** The schema's spelling of `key`, when it differs from `key` but not in lower case. */
  function Respelling(table: Dict<string, string>, key: string): (r: Option<string>)
    ensures Spelled(table) && r.Some? ==> Lower(r.value) == Lower(key) && r.value != key && r.value != ""
  {
    match Get(table, Lower(key))
    case Some(s) =>
      if s != "" && s != key then
        assert Spelled(table) ==> Lower(s) == Lower(key) by {
          if Spelled(table) {
            var j := IndexOf(table, Lower(key)).value;
            assert table[j].val == s;
          }
        }
        Some(s)
      else None
    case None => None
  }

  /** Every value of `n` is one of the values of `fields`. */
  ghost predicate ValuesFrom(n: Dict<string, Json>, fields: Dict<string, Json>) {
    forall e :: e in n ==> exists m :: 0 <= m < |fields| && fields[m].val == e.val
  }

  lemma PutFrom<K(!new), V>(d: Dict<K, V>, k: K, v: V)
    ensures forall x :: x in Put(d, k, v) ==> x in d || x == Entry(k, v)
  {
  }

  /** The first pass, from key `i` on: each respelled key's value is copied to the schema's spelling. */
  function NormalizeFrom(fields: Dict<string, Json>, table: Dict<string, string>, i: nat, cur: Dict<string, Json>)
    : (r: Dict<string, Json>)
    requires i <= |fields|
    ensures ValuesFrom(cur, fields) ==> ValuesFrom(r, fields)
    ensures Unique(cur) ==> Unique(r)
    ensures forall k :: HasKey(cur, k) ==> HasKey(r, k)
    decreases |fields| - i
  {
    if i == |fields| then cur
    else
      var next := match Respelling(table, fields[i].key)
        case Some(s) => Put(cur, s, fields[i].val)
        case None => cur;
      PutValuesFrom(cur, fields, i, Respelling(table, fields[i].key).GetOr(""));
      NormalizeFrom(fields, table, i + 1, next)
  }

  lemma PutValuesFrom(cur: Dict<string, Json>, fields: Dict<string, Json>, i: nat, s: string)
    requires i < |fields|
    ensures ValuesFrom(cur, fields) ==> ValuesFrom(Put(cur, s, fields[i].val), fields)
  {
    PutFrom(cur, s, fields[i].val);
  }

  function Normalize(fields: Dict<string, Json>, table: Dict<string, string>): (r: Dict<string, Json>)
    ensures ValuesFrom(r, fields)
  {
    NormalizeFrom(fields, table, 0, fields)
  }

  /** A value stays under a key that no later respelling writes to. */
  lemma {:induction false} NormalizeKeepsUnwritten(fields: Dict<string, Json>, table: Dict<string, string>, i: nat,
                                                   cur: Dict<string, Json>, k: string)
    requires i <= |fields|
    requires forall m :: i <= m < |fields| ==> Respelling(table, fields[m].key) != Some(k)
    ensures Get(NormalizeFrom(fields, table, i, cur), k) == Get(cur, k)
    decreases |fields| - i
  {
    if i < |fields| {
      var next := match Respelling(table, fields[i].key)
        case Some(s) => Put(cur, s, fields[i].val)
        case None => cur;
      NormalizeKeepsUnwritten(fields, table, i + 1, next, k);
    }
  }

  /** A key whose spelling differs from the schema's only in case is copied,
      value and all, to the schema's spelling; when several keys respell to the
      same name, the last one's value is the one that stays. */
  lemma {:induction false} NormalizeCopies(fields: Dict<string, Json>, table: Dict<string, string>, i: nat,
                                           cur: Dict<string, Json>, j: nat)
    requires i <= j < |fields|
    requires Respelling(table, fields[j].key).Some?
    requires forall m :: j < m < |fields| ==> Respelling(table, fields[m].key) != Respelling(table, fields[j].key)
    ensures Get(NormalizeFrom(fields, table, i, cur), Respelling(table, fields[j].key).value) == Some(fields[j].val)
    decreases j - i
  {
    var next := match Respelling(table, fields[i].key)
      case Some(s) => Put(cur, s, fields[i].val)
      case None => cur;
    if i < j {
      NormalizeCopies(fields, table, i + 1, next, j);
    } else {
      NormalizeKeepsUnwritten(fields, table, i + 1, next, Respelling(table, fields[j].key).value);
    }
  }

  /** The first pass adds keys and removes none. */
  lemma NormalizeKeepsKeys(fields: Dict<string, Json>, table: Dict<string, string>)
    ensures forall k :: HasKey(fields, k) ==> HasKey(Normalize(fields, table), k)
    ensures Unique(fields) ==> Unique(Normalize(fields, table))
  {
  }

  /** The keys the projection goes through at `previous`. */
  function Prepared(schema: Schema, normalize: bool, fields: Dict<string, Json>, previous: string)
    : (r: Dict<string, Json>)
    ensures ValuesFrom(r, fields)
  {
    if normalize then Normalize(fields, LowerTable(Available(Keys(schema), previous))) else fields
  }

  lemma ValueSmaller(fields: Dict<string, Json>, v: Json)
    requires exists m :: 0 <= m < |fields| && fields[m].val == v
    ensures v < Obj(fields)
  {
    var m :| 0 <= m < |fields| && fields[m].val == v;
    assert fields[m] in fields;
  }

  // ---------------------------------------------------------------------
  // The projection

  /** A rule of a closed, covered table has a counter and names a schema of the table. */
  lemma RuleFacts(filters: Filters, name: string, path: string, usage: Usage)
    requires name in filters
    ensures Covers(filters, usage) && HasKey(filters[name], path) ==> UsageKey(name, path) in usage
    ensures Closed(filters) && Target(filters[name], path).Some? ==> Target(filters[name], path).value in filters
  {
    if HasKey(filters[name], path) {
      var j := IndexOf(filters[name], path).value;
      assert filters[name][j].key == path;
    }
  }

  /** `apply_filters(value, name, previous)`: the projected value and the counters after it. */
  function Project(filters: Filters, normalize: bool, name: string, value: Json, previous: string, usage: Usage)
    : (r: Result<(Json, Usage)>)
    ensures r.Ok? ==> Grows(usage, r.value.1)
    ensures Closed(filters) && Covers(filters, usage) && name in filters && r.Err? ==> r.error == TypeError
    decreases value, 1
  {
    if name !in filters then Err(KeyError(name))
    else match value
      case List(items) =>
        var p :- ProjectItems(filters, normalize, name, items, previous + "[]", 0, usage);
        Ok((List(p.0), p.1))
      case Obj(fields) =>
        var n := Prepared(filters[name], normalize, fields, previous);
        var p :- ProjectFields(filters, normalize, name, fields, n, previous, 0, usage);
        Ok((Obj(p.0), p.1))
      case Str(s) => if s == "" then Ok((value, usage)) else Err(TypeError)
      case _ => Err(TypeError)
  }

  /** One element of a list at `path`: re-projected under the `path` rule's schema, or under the same one. */
  function ProjectItem(filters: Filters, normalize: bool, name: string, item: Json, path: string, usage: Usage)
    : (r: Result<(Json, Usage)>)
    requires name in filters
    ensures r.Ok? ==> Grows(usage, r.value.1)
    ensures Closed(filters) && Covers(filters, usage) && r.Err? ==> r.error == TypeError
    decreases item, 2
  {
    RuleFacts(filters, name, path, usage);
    match Target(filters[name], path)
    case Some(t) =>
      var u :- Increment(usage, UsageKey(name, path));
      Project(filters, normalize, t, item, "", u)
    case None => Project(filters, normalize, name, item, path + ".", usage)
  }

  function ProjectItems(filters: Filters, normalize: bool, name: string, items: seq<Json>, path: string, i: nat, usage: Usage)
    : (r: Result<(seq<Json>, Usage)>)
    requires name in filters && i <= |items|
    ensures r.Ok? ==> |r.value.0| == |items| - i && Grows(usage, r.value.1)
    ensures Closed(filters) && Covers(filters, usage) && r.Err? ==> r.error == TypeError
    decreases List(items), 0, |items| - i
  {
    if i == |items| then Ok(([], usage))
    else
      var x :- ProjectItem(filters, normalize, name, items[i], path, usage);
      var rest :- ProjectItems(filters, normalize, name, items, path, i + 1, x.1);
      Ok(([x.0] + rest.0, rest.1))
  }

  /** One key of a dict at `previous`: kept, kept and re-projected, projected deeper, or deleted (`None`). */
  function ProjectEntry(filters: Filters, normalize: bool, name: string, e: Entry<string, Json>, previous: string, usage: Usage)
    : (r: Result<(Option<Entry<string, Json>>, Usage)>)
    requires name in filters
    ensures r.Ok? ==> Grows(usage, r.value.1)
    ensures Closed(filters) && Covers(filters, usage) && r.Err? ==> r.error == TypeError
    decreases e.val, 2
  {
    var schema := filters[name];
    var path := previous + e.key;
    RuleFacts(filters, name, path, usage);
    if HasKey(schema, path) then
      var u :- Increment(usage, UsageKey(name, path));
      match Target(schema, path)
      case Some(t) =>
        var p :- Project(filters, normalize, t, e.val, "", u);
        Ok((Some(Entry(e.key, p.0)), p.1))
      case None => Ok((Some(e), u))
    else if Extends(schema, path) then
      var p :- Project(filters, normalize, name, e.val, path + ".", usage);
      Ok((Some(Entry(e.key, p.0)), p.1))
    else Ok((None, usage))
  }

  /** The second pass over the keys of `n`, from key `i` on: the surviving entries, in order. */
  function ProjectFields(filters: Filters, normalize: bool, name: string, fields: Dict<string, Json>,
                         n: Dict<string, Json>, previous: string, i: nat, usage: Usage)
    : (r: Result<(Dict<string, Json>, Usage)>)
    requires name in filters && i <= |n| && ValuesFrom(n, fields)
    ensures r.Ok? ==> Grows(usage, r.value.1)
    ensures Closed(filters) && Covers(filters, usage) && r.Err? ==> r.error == TypeError
    decreases Obj(fields), 0, |n| - i
  {
    if i == |n| then Ok(([], usage))
    else
      assert n[i] in n;
      ValueSmaller(fields, n[i].val);
      var e :- ProjectEntry(filters, normalize, name, n[i], previous, usage);
      var rest :- ProjectFields(filters, normalize, name, fields, n, previous, i + 1, e.1);
      Ok((if e.0.Some? then [e.0.value] + rest.0 else rest.0, rest.1))
  }

  // ---------------------------------------------------------------------
  // What the projection keeps

  /** The keys of `ks`, in order, whose path below `previous` survives. */
  function SurvivingKeys(schema: Schema, previous: string, ks: seq<string>): (r: seq<string>)
    ensures forall k :: k in r <==> k in ks && Survives(schema, previous + k)
  {
    if ks == [] then []
    else
      var rest := SurvivingKeys(schema, previous, ks[1..]);
      assert forall k :: k in ks <==> k == ks[0] || k in ks[1..];
      if Survives(schema, previous + ks[0]) then [ks[0]] + rest else rest
  }

  /** The fate of one key: it stays exactly when its path survives; a `None`
      rule keeps its entry untouched; a rule that fires counts once more. */
  lemma EntryFate(filters: Filters, normalize: bool, name: string, e: Entry<string, Json>, previous: string, usage: Usage)
    requires name in filters
    ensures var r := ProjectEntry(filters, normalize, name, e, previous, usage);
      r.Ok? ==>
        && (r.value.0.Some? <==> Survives(filters[name], previous + e.key))
        && (r.value.0.Some? ==> r.value.0.value.key == e.key)
        && (Keeps(filters[name], previous + e.key) ==> r.value.0 == Some(e))
        && (HasKey(filters[name], previous + e.key) ==>
              var k := UsageKey(name, previous + e.key);
              k in usage && r.value.1[k] >= usage[k] + 1)
  {
    var path := previous + e.key;
    var r := ProjectEntry(filters, normalize, name, e, previous, usage);
    if r.Ok? && HasKey(filters[name], path) {
      var k := UsageKey(name, path);
      var u := Increment(usage, k);
      assert u.Ok? && u.value[k] == usage[k] + 1;
    }
  }

  /** The second pass keeps, in order, exactly the keys whose path survives. */
  lemma {:induction false} FieldsKeys(filters: Filters, normalize: bool, name: string, fields: Dict<string, Json>,
                                      n: Dict<string, Json>, previous: string, i: nat, usage: Usage)
    requires name in filters && i <= |n| && ValuesFrom(n, fields)
    ensures var r := ProjectFields(filters, normalize, name, fields, n, previous, i, usage);
      r.Ok? ==> Keys(r.value.0) == SurvivingKeys(filters[name], previous, Keys(n)[i..])
    decreases |n| - i
  {
    var r := ProjectFields(filters, normalize, name, fields, n, previous, i, usage);
    if i == |n| {
      assert Keys(n)[i..] == [];
    } else if r.Ok? {
      var e := ProjectEntry(filters, normalize, name, n[i], previous, usage);
      EntryFate(filters, normalize, name, n[i], previous, usage);
      FieldsKeys(filters, normalize, name, fields, n, previous, i + 1, e.value.1);
      var rest := ProjectFields(filters, normalize, name, fields, n, previous, i + 1, e.value.1);
      KeysSlice(n, i);
      if e.value.0.Some? {
        assert r.value.0 == [e.value.0.value] + rest.value.0;
        KeysPrepend(e.value.0.value, rest.value.0);
      } else {
        assert r.value.0 == rest.value.0;
      }
    }
  }

  /** The second pass leaves the entries under `None` rules untouched. */
  lemma {:induction false} FieldsKept(filters: Filters, normalize: bool, name: string, fields: Dict<string, Json>,
                                      n: Dict<string, Json>, previous: string, i: nat, usage: Usage)
    requires name in filters && i <= |n| && ValuesFrom(n, fields)
    ensures var r := ProjectFields(filters, normalize, name, fields, n, previous, i, usage);
      r.Ok? ==> forall x :: x in r.value.0 && Keeps(filters[name], previous + x.key) ==> x in n[i..]
    decreases |n| - i
  {
    var r := ProjectFields(filters, normalize, name, fields, n, previous, i, usage);
    if i < |n| && r.Ok? {
      var e := ProjectEntry(filters, normalize, name, n[i], previous, usage);
      EntryFate(filters, normalize, name, n[i], previous, usage);
      FieldsKept(filters, normalize, name, fields, n, previous, i + 1, e.value.1);
      var rest := ProjectFields(filters, normalize, name, fields, n, previous, i + 1, e.value.1);
      assert forall x :: x in n[i + 1..] ==> x in n[i..];
      assert n[i] in n[i..];
      assert forall x :: x in r.value.0 ==> x in rest.value.0 || Some(x) == e.value.0;
    }
  }

  /** The second pass counts every rule that fires. */
  lemma {:induction false} FieldsCount(filters: Filters, normalize: bool, name: string, fields: Dict<string, Json>,
                                       n: Dict<string, Json>, previous: string, i: nat, usage: Usage)
    requires name in filters && i <= |n| && ValuesFrom(n, fields)
    ensures var r := ProjectFields(filters, normalize, name, fields, n, previous, i, usage);
      r.Ok? ==> forall j :: i <= j < |n| && HasKey(filters[name], previous + n[j].key) ==>
        var k := UsageKey(name, previous + n[j].key);
        k in usage && r.value.1[k] >= usage[k] + 1
    decreases |n| - i
  {
    var r := ProjectFields(filters, normalize, name, fields, n, previous, i, usage);
    if i < |n| && r.Ok? {
      var e := ProjectEntry(filters, normalize, name, n[i], previous, usage);
      EntryFate(filters, normalize, name, n[i], previous, usage);
      FieldsCount(filters, normalize, name, fields, n, previous, i + 1, e.value.1);
      var rest := ProjectFields(filters, normalize, name, fields, n, previous, i + 1, e.value.1);
      assert r.value.1 == rest.value.1;
      forall j | i <= j < |n| && HasKey(filters[name], previous + n[j].key)
        ensures var k := UsageKey(name, previous + n[j].key); k in usage && r.value.1[k] >= usage[k] + 1
      {
        var k := UsageKey(name, previous + n[j].key);
        if j == i {
          assert Grows(e.value.1, rest.value.1);
        } else {
          assert Grows(usage, e.value.1);
        }
      }
    }
  }

  /** A dict is projected onto the keys, in order, of its (normalised) entries
      whose path survives; the entries under a `None` rule keep their values;
      every firing rule counts. */
  lemma DictFate(filters: Filters, normalize: bool, name: string, fields: Dict<string, Json>, previous: string, usage: Usage)
    requires name in filters
    ensures var r := Project(filters, normalize, name, Obj(fields), previous, usage);
      var n := Prepared(filters[name], normalize, fields, previous);
      r.Ok? ==>
        && r.value.0.Obj?
        && Keys(r.value.0.fields) == SurvivingKeys(filters[name], previous, Keys(n))
        && (forall x :: x in r.value.0.fields && Keeps(filters[name], previous + x.key) ==> x in n)
        && (forall j :: 0 <= j < |n| && HasKey(filters[name], previous + n[j].key) ==>
              var k := UsageKey(name, previous + n[j].key);
              k in usage && r.value.1[k] >= usage[k] + 1)
  {
    var n := Prepared(filters[name], normalize, fields, previous);
    FieldsKeys(filters, normalize, name, fields, n, previous, 0, usage);
    FieldsKept(filters, normalize, name, fields, n, previous, 0, usage);
    FieldsCount(filters, normalize, name, fields, n, previous, 0, usage);
    assert Keys(n)[0..] == Keys(n) && n[0..] == n;
  }

  /** Without normalisation the keys that stay are exactly those whose path survives. */
  lemma ExactKeys(filters: Filters, name: string, fields: Dict<string, Json>, previous: string, usage: Usage)
    requires name in filters
    ensures var r := Project(filters, false, name, Obj(fields), previous, usage);
      r.Ok? ==> forall k :: k in Keys(r.value.0.fields) <==> k in Keys(fields) && Survives(filters[name], previous + k)
  {
    DictFate(filters, false, name, fields, previous, usage);
  }

  /** `out` is what `item`, an element of a list at `path`, projects to. */
  ghost predicate ItemProjects(filters: Filters, normalize: bool, name: string, item: Json, path: string, out: Json)
    requires name in filters
  {
    exists u, u' :: ProjectItem(filters, normalize, name, item, path, u) == Ok((out, u'))
  }

  /** Every element of a list at `path` is projected on its own: under the
      schema the `path` rule names, from the root; or, without such a rule,
      under the same schema at `path + "."`. */
  lemma {:induction false} ItemsEach(filters: Filters, normalize: bool, name: string, items: seq<Json>, path: string, i: nat, usage: Usage)
    requires name in filters && i <= |items|
    ensures var r := ProjectItems(filters, normalize, name, items, path, i, usage);
      r.Ok? ==> forall j :: i <= j < |items| ==> ItemProjects(filters, normalize, name, items[j], path, r.value.0[j - i])
    decreases |items| - i
  {
    var r := ProjectItems(filters, normalize, name, items, path, i, usage);
    if i < |items| && r.Ok? {
      ItemsStep(filters, normalize, name, items, path, i, usage);
      var x := ProjectItem(filters, normalize, name, items[i], path, usage);
      ItemsEach(filters, normalize, name, items, path, i + 1, x.value.1);
      var rest := ProjectItems(filters, normalize, name, items, path, i + 1, x.value.1);
      assert r.value.0 == [x.value.0] + rest.value.0;
      assert ProjectItem(filters, normalize, name, items[i], path, usage) == Ok((x.value.0, x.value.1));
      ItemsEachCons(filters, normalize, name, items, path, i, x.value.0, rest.value.0);
    }
  }

  /** The first element's projection, then those of the rest. */
  lemma ItemsEachCons(filters: Filters, normalize: bool, name: string, items: seq<Json>, path: string, i: nat, out: Json, rest: seq<Json>)
    requires name in filters && i < |items| && |rest| == |items| - (i + 1)
    requires ItemProjects(filters, normalize, name, items[i], path, out)
    requires forall j :: i + 1 <= j < |items| ==> ItemProjects(filters, normalize, name, items[j], path, rest[j - (i + 1)])
    ensures forall j :: i <= j < |items| ==> ItemProjects(filters, normalize, name, items[j], path, ([out] + rest)[j - i])
  {
    forall j | i <= j < |items|
      ensures ItemProjects(filters, normalize, name, items[j], path, ([out] + rest)[j - i])
    {
      if j > i {
        assert ([out] + rest)[j - i] == rest[j - (i + 1)];
      }
    }
  }

  /** A `"[]"` rule naming a schema counts once per element. */
  lemma {:induction false} ItemsCount(filters: Filters, normalize: bool, name: string, items: seq<Json>, path: string, i: nat, usage: Usage)
    requires name in filters && i <= |items|
    ensures var r := ProjectItems(filters, normalize, name, items, path, i, usage);
      r.Ok? && Target(filters[name], path).Some? ==>
        var k := UsageKey(name, path);
        (i < |items| ==> k in usage) && (k in usage ==> r.value.1[k] >= usage[k] + (|items| - i))
    decreases |items| - i
  {
    if i < |items| {
      ItemsStep(filters, normalize, name, items, path, i, usage);
      var x := ProjectItem(filters, normalize, name, items[i], path, usage);
      if x.Ok? {
        ItemCounted(filters, normalize, name, items[i], path, usage);
        ItemsCount(filters, normalize, name, items, path, i + 1, x.value.1);
      }
    }
  }

  /** An element under a rule naming a schema counts that rule once. */
  lemma ItemCounted(filters: Filters, normalize: bool, name: string, item: Json, path: string, usage: Usage)
    requires name in filters
    ensures var x := ProjectItem(filters, normalize, name, item, path, usage);
      var k := UsageKey(name, path);
      x.Ok? && Target(filters[name], path).Some? ==> k in usage && x.value.1[k] >= usage[k] + 1
  {
    var k := UsageKey(name, path);
    if Target(filters[name], path).Some? && k in usage {
      var u := Increment(usage, k);
      assert u.Ok? && u.value[k] == usage[k] + 1;
      assert ProjectItem(filters, normalize, name, item, path, usage)
        == Project(filters, normalize, Target(filters[name], path).value, item, "", u.value);
    }
  }

  /** The rule for `"[]"` below `previous` decides how each element of a list is projected. */
  lemma ListFate(filters: Filters, normalize: bool, name: string, items: seq<Json>, previous: string, usage: Usage)
    requires name in filters
    ensures var r := Project(filters, normalize, name, List(items), previous, usage);
      var path := previous + "[]";
      r.Ok? ==>
        && r.value.0.List? && |r.value.0.items| == |items|
        && (forall j :: 0 <= j < |items| ==> ItemProjects(filters, normalize, name, items[j], path, r.value.0.items[j]))
        && (Target(filters[name], path).Some? ==>
              var k := UsageKey(name, path);
              (|items| > 0 ==> k in usage) && (k in usage ==> r.value.1[k] >= usage[k] + |items|))
  {
    ItemsEach(filters, normalize, name, items, previous + "[]", 0, usage);
    ItemsCount(filters, normalize, name, items, previous + "[]", 0, usage);
  }

  /** With every schema name resolvable and every counter set up, the only
      way the projection fails is by descending into a scalar. */
  lemma OnlyScalarsFail(filters: Filters, normalize: bool, name: string, value: Json, previous: string)
    requires Closed(filters) && name in filters
    ensures var r := Project(filters, normalize, name, value, previous, InitUsage(filters));
      r.Err? ==> r.error == TypeError
  {
  }

  // ---------------------------------------------------------------------
  // The scripts' own procedure: the counters are module state, and each
  // dict is rewritten key by key.

  /** A key respelled to `s` is not itself respelled again. */
  lemma RespellingSettled(table: Dict<string, string>, key: string)
    requires Spelled(table) && Respelling(table, key).Some?
    ensures Respelling(table, Respelling(table, key).value).None?
  {
  }

  /** The first pass as the script runs it: `object[normalized] = object[key]`
      reads the dict as it stands, which is still the original value. */
  method NormalizeKeys(fields: Dict<string, Json>, table: Dict<string, string>) returns (cur: Dict<string, Json>)
    requires Unique(fields) && Spelled(table)
    ensures cur == Normalize(fields, table)
  {
    cur := fields;
    forall j | 0 <= j < |fields| ensures Get(fields, fields[j].key) == Some(fields[j].val) {
      GetAt(fields, j);
    }
    var i := 0;
    while i < |fields|
      invariant 0 <= i <= |fields|
      invariant NormalizeFrom(fields, table, i, cur) == Normalize(fields, table)
      invariant forall j :: i <= j < |fields| && Respelling(table, fields[j].key).Some? ==>
        Get(cur, fields[j].key) == Some(fields[j].val)
    {
      var key := fields[i].key;
      var normalized := Respelling(table, key);
      if normalized.Some? {
        RespellingSettled(table, key);
        cur := Put(cur, normalized.value, Get(cur, key).value);
      }
      i := i + 1;
    }
  }

  /** The method's result and counters are those of the specification, and it fails as that does. */
  ghost predicate Agrees<T>(r: Result<T>, spec: Result<(T, Usage)>, usage: Usage) {
    && (spec.Ok? ==> r == Ok(spec.value.0) && usage == spec.value.1)
    && (spec.Err? ==> r == Err(spec.error))
  }

  function Prepend<T>(out: seq<T>, r: Result<(seq<T>, Usage)>): Result<(seq<T>, Usage)> {
    match r
    case Ok(p) => Ok((out + p.0, p.1))
    case Err(e) => Err(e)
  }

  lemma AllValid(fields: Dict<string, Json>, n: Dict<string, Json>)
    requires Valid(Obj(fields)) && ValuesFrom(n, fields)
    ensures forall j :: 0 <= j < |n| ==> Valid(n[j].val)
  {
    forall j | 0 <= j < |n| ensures Valid(n[j].val) {
      assert n[j] in n;
    }
  }

  lemma UsageKeysAdd(filters: Filters, done: set<string>, name: string)
    requires name in filters
    ensures UsageKeys(filters, done + {name})
         == UsageKeys(filters, done) + set m | 0 <= m < |filters[name]| :: UsageKey(name, filters[name][m].key)
  {
    var schema := filters[name];
    var added := set m | 0 <= m < |schema| :: UsageKey(name, schema[m].key);
    forall k | k in added ensures k in UsageKeys(filters, done + {name}) {
      var m :| 0 <= m < |schema| && k == UsageKey(name, schema[m].key);
      assert Keys(schema)[m] == schema[m].key;
    }
    forall k | k in UsageKeys(filters, done + {name}) ensures k in UsageKeys(filters, done) + added {
      var n, p :| n in done + {name} && n in filters && p in Keys(filters[n]) && k == UsageKey(n, p);
      if n == name && n !in done {
        var m :| 0 <= m < |schema| && Keys(schema)[m] == p;
        assert k == UsageKey(name, schema[m].key);
      }
    }
  }

  lemma PrependSnoc<T>(out: seq<T>, x: T, r: Result<(seq<T>, Usage)>)
    ensures Prepend(out, Prepend([x], r)) == Prepend(out + [x], r)
  {
    if r.Ok? {
      assert out + ([x] + r.value.0) == (out + [x]) + r.value.0;
    }
  }

  /** The items from `i` on: the `i`-th item's projection, then those of the rest. */
  lemma ItemsStep(filters: Filters, normalize: bool, name: string, items: seq<Json>, path: string, i: nat, usage: Usage)
    requires name in filters && i < |items|
    ensures ProjectItems(filters, normalize, name, items, path, i, usage)
      == (match ProjectItem(filters, normalize, name, items[i], path, usage)
          case Err(e) => Err(e)
          case Ok(x) => Prepend([x.0], ProjectItems(filters, normalize, name, items, path, i + 1, x.1)))
  {
  }

  /** The keys of `n` from `i` on: the `i`-th entry's projection, kept or deleted, then those of the rest. */
  lemma FieldsStep(filters: Filters, normalize: bool, name: string, fields: Dict<string, Json>,
                   n: Dict<string, Json>, previous: string, i: nat, usage: Usage)
    requires name in filters && i < |n| && ValuesFrom(n, fields)
    ensures ProjectFields(filters, normalize, name, fields, n, previous, i, usage)
      == (match ProjectEntry(filters, normalize, name, n[i], previous, usage)
          case Err(e) => Err(e)
          case Ok(x) => Prepend(if x.0.Some? then [x.0.value] else [], ProjectFields(filters, normalize, name, fields, n, previous, i + 1, x.1)))
  {
    assert n[i] in n;
    ValueSmaller(fields, n[i].val);
    match ProjectEntry(filters, normalize, name, n[i], previous, usage) {
      case Ok(x) => PrependNil(ProjectFields(filters, normalize, name, fields, n, previous, i + 1, x.1));
      case Err(_) =>
    }
  }

  lemma PrependNil<T>(r: Result<(seq<T>, Usage)>)
    ensures Prepend([], r) == r
  {
    if r.Ok? {
      assert [] + r.value.0 == r.value.0;
    }
  }

  /** The counter keys of the paths of schema `name`. */
  function SchemaKeys(name: string, schema: Schema): set<string> {
    set m | 0 <= m < |schema| :: UsageKey(name, schema[m].key)
  }

  /** The inner loop of the set-up: `filter_usage[key] = 0` for every path of one schema. */
  method ZeroCounters(counters: Usage, name: string, schema: Schema) returns (r: Usage)
    ensures r.Keys == counters.Keys + SchemaKeys(name, schema)
    ensures forall k :: k in r ==> r[k] == if k in SchemaKeys(name, schema) then 0 else counters[k]
  {
    r := counters;
    for j := 0 to |schema|
      invariant r.Keys == counters.Keys + SchemaKeys(name, schema[..j])
      invariant forall k :: k in r ==> r[k] == if k in SchemaKeys(name, schema[..j]) then 0 else counters[k]
    {
      assert SchemaKeys(name, schema[..j + 1]) == SchemaKeys(name, schema[..j]) + {UsageKey(name, schema[j].key)} by {
        assert forall m :: 0 <= m < j ==> schema[..j + 1][m] == schema[..j][m];
      }
      r := r[UsageKey(name, schema[j].key) := 0];
    }
    assert schema[..|schema|] == schema;
  }

  /** The module state of one script: its schema table, whether it normalises
      case, and `filter_usage`. */
  class Filtering {
    const filters: Filters
    const normalize: bool
    var usage: Usage

    /** Sets up a zero counter for every (schema, path) pair. */
    constructor (filters: Filters, normalize: bool)
      ensures this.filters == filters && this.normalize == normalize
      ensures usage == InitUsage(filters)
    {
      this.filters := filters;
      this.normalize := normalize;
      var counters: Usage := map[];
      var names := filters.Keys;
      while names != {}
        invariant names <= filters.Keys
        invariant counters.Keys == UsageKeys(filters, filters.Keys - names)
        invariant forall k :: k in counters ==> counters[k] == 0
        decreases names
      {
        var name :| name in names;
        counters := ZeroCounters(counters, name, filters[name]);
        assert filters.Keys - (names - {name}) == (filters.Keys - names) + {name};
        UsageKeysAdd(filters, filters.Keys - names, name);
        names := names - {name};
      }
      assert filters.Keys - names == filters.Keys;
      assert counters == InitUsage(filters);
      usage := counters;
    }

    /** `apply_filters(value, name, previous)`, changing `filter_usage` as it goes. */
    method Apply(value: Json, name: string, previous: string) returns (r: Result<Json>)
      requires Valid(value)
      modifies this
      ensures Agrees(r, Project(filters, normalize, name, value, previous, old(usage)), usage)
      decreases value, 1
    {
      if name !in filters {
        return Err(KeyError(name));
      }
      match value {
        case List(items) =>
          var out := ApplyList(items, name, previous + "[]");
          if out.Err? {
            return Err(out.error);
          }
          return Ok(List(out.value));
        case Obj(fields) =>
          var n := fields;
          if normalize {
            n := NormalizeKeys(fields, LowerTable(Available(Keys(filters[name]), previous)));
          }
          assert n == Prepared(filters[name], normalize, fields, previous);
          var kept := ApplyDict(fields, n, name, previous);
          if kept.Err? {
            return Err(kept.error);
          }
          return Ok(Obj(kept.value));
        case Str(s) =>
          if s == "" {
            return Ok(value);
          }
          return Err(TypeError);
        case _ =>
          return Err(TypeError);
      }
    }

    /** The elements of a list at `path`, in order. */
    method ApplyList(items: seq<Json>, name: string, path: string) returns (r: Result<seq<Json>>)
      requires Valid(List(items)) && name in filters
      modifies this
      ensures Agrees(r, ProjectItems(filters, normalize, name, items, path, 0, old(usage)), usage)
      decreases List(items), 0
    {
      ghost var u0 := usage;
      var out: seq<Json> := [];
      var i := 0;
      PrependNil(ProjectItems(filters, normalize, name, items, path, 0, u0));
      while i < |items|
        invariant 0 <= i <= |items|
        invariant Prepend(out, ProjectItems(filters, normalize, name, items, path, i, usage))
               == ProjectItems(filters, normalize, name, items, path, 0, u0)
      {
        ItemsStep(filters, normalize, name, items, path, i, usage);
        var x := ApplyItem(items[i], name, path);
        if x.Err? {
          return Err(x.error);
        }
        PrependSnoc(out, x.value, ProjectItems(filters, normalize, name, items, path, i + 1, usage));
        out := out + [x.value];
        i := i + 1;
      }
      assert out + [] == out;
      return Ok(out);
    }

    /** The second pass over the keys of `n`, the (normalised) entries of `fields`: the entries that stay, in order. */
    method ApplyDict(fields: Dict<string, Json>, n: Dict<string, Json>, name: string, previous: string)
      returns (r: Result<Dict<string, Json>>)
      requires Valid(Obj(fields)) && ValuesFrom(n, fields) && name in filters
      modifies this
      ensures Agrees(r, ProjectFields(filters, normalize, name, fields, n, previous, 0, old(usage)), usage)
      decreases Obj(fields), 0
    {
      AllValid(fields, n);
      ghost var u0 := usage;
      var kept: Dict<string, Json> := [];
      var i := 0;
      PrependNil(ProjectFields(filters, normalize, name, fields, n, previous, 0, u0));
      while i < |n|
        invariant 0 <= i <= |n|
        invariant Prepend(kept, ProjectFields(filters, normalize, name, fields, n, previous, i, usage))
               == ProjectFields(filters, normalize, name, fields, n, previous, 0, u0)
      {
        FieldsStep(filters, normalize, name, fields, n, previous, i, usage);
        assert n[i] in n;
        ValueSmaller(fields, n[i].val);
        var e := ApplyEntry(n[i], name, previous);
        if e.Err? {
          return Err(e.error);
        }
        if e.value.Some? {
          PrependSnoc(kept, e.value.value, ProjectFields(filters, normalize, name, fields, n, previous, i + 1, usage));
          kept := kept + [e.value.value];
        } else {
          PrependNil(ProjectFields(filters, normalize, name, fields, n, previous, i + 1, usage));
        }
        i := i + 1;
      }
      assert kept + [] == kept;
      return Ok(kept);
    }

    /** One list element: re-projected under the `path` rule's schema (counted), or under the same schema. */
    method ApplyItem(item: Json, name: string, path: string) returns (r: Result<Json>)
      requires Valid(item) && name in filters
      modifies this
      ensures Agrees(r, ProjectItem(filters, normalize, name, item, path, old(usage)), usage)
      decreases item, 2
    {
      var target := Target(filters[name], path);
      if target.Some? {
        var k := UsageKey(name, path);
        if k !in usage {
          return Err(KeyError(k));
        }
        usage := usage[k := usage[k] + 1];
        r := Apply(item, target.value, "");
      } else {
        r := Apply(item, name, path + ".");
      }
    }

    /** One key of a dict: counted and kept, counted and re-projected, projected deeper, or deleted. */
    method ApplyEntry(e: Entry<string, Json>, name: string, previous: string) returns (r: Result<Option<Entry<string, Json>>>)
      requires Valid(e.val) && name in filters
      modifies this
      ensures Agrees(r, ProjectEntry(filters, normalize, name, e, previous, old(usage)), usage)
      decreases e.val, 2
    {
      var schema := filters[name];
      var path := previous + e.key;
      if HasKey(schema, path) {
        var k := UsageKey(name, path);
        if k !in usage {
          return Err(KeyError(k));
        }
        usage := usage[k := usage[k] + 1];
        var target := Target(schema, path);
        if target.Some? {
          var p := Apply(e.val, target.value, "");
          if p.Err? {
            return Err(p.error);
          }
          return Ok(Some(Entry(e.key, p.value)));
        }
        return Ok(Some(e));
      } else if Extends(schema, path) {
        var p := Apply(e.val, name, path + ".");
        if p.Err? {
          return Err(p.error);
        }
        return Ok(Some(Entry(e.key, p.value)));
      }
      return Ok(None);
    }
  }
}

