/** The small helpers of the two XML extraction scripts: reading a patterns
    file, replacing a localization key by its text, and picking the forge
    records of one type under given paths. */
module Extract {
  import opened Wrappers
  import opened Dicts
  import opened Text
  import opened Py
  import opened TreeStore

  /** A stripped line `read_lines_file` keeps: non-empty and not a `#` comment. */
  predicate KeepLine(line: string) {
    |line| > 0 && line[0] != '#'
  }

  /** The patterns of a file whose lines are `lines`. */
  function KeptLines(lines: seq<string>): seq<string> {
    if |lines| == 0 then []
    else
      var l := Strip(lines[|lines| - 1]);
      KeptLines(lines[..|lines| - 1]) + (if KeepLine(l) then [l] else [])
  }

  /** `read_lines_file`, on the lines of the file. */
  method ReadLinesFile(lines: seq<string>) returns (patterns: seq<string>)
    ensures patterns == KeptLines(lines)
  {
    patterns := [];
    var i := 0;
    while i < |lines|
      invariant 0 <= i <= |lines|
      invariant patterns == KeptLines(lines[..i])
    {
      var line := Strip(lines[i]);
      if |line| > 0 && !("#" <= line) {
        patterns := patterns + [line];
      }
      assert lines[..i + 1][..i] == lines[..i];
      i := i + 1;
    }
    assert lines[..i] == lines;
  }

  /** The file's lines are handled one by one, independently and in order; each kept pattern is a
      stripped, non-empty, non-comment line. */
  lemma {:induction false} KeptLinesAppend(a: seq<string>, b: seq<string>)
    ensures KeptLines(a + b) == KeptLines(a) + KeptLines(b)
    decreases |b|
  {
    if |b| == 0 {
      assert a + b == a;
    } else {
      assert (a + b)[..|a + b| - 1] == a + b[..|b| - 1];
      KeptLinesAppend(a, b[..|b| - 1]);
    }
  }

  lemma KeptLine(line: string)
    ensures KeptLines([line]) == if KeepLine(Strip(line)) then [Strip(line)] else []
  {
    assert [line][..0] == [];
  }

  /** A kept pattern has no whitespace at either end. */
  predicate Pattern(p: string) {
    KeepLine(p) && !IsSpace(p[0]) && !IsSpace(p[|p| - 1])
  }

  lemma {:induction false} KeptLinesShape(lines: seq<string>)
    ensures |KeptLines(lines)| <= |lines|
    ensures forall j :: 0 <= j < |KeptLines(lines)| ==> Pattern(KeptLines(lines)[j])
  {
    if |lines| > 0 {
      var init := lines[..|lines| - 1];
      KeptLinesShape(init);
      var l := Strip(lines[|lines| - 1]);
      var r := KeptLines(init) + (if KeepLine(l) then [l] else []);
      assert KeptLines(lines) == r;
      forall j | 0 <= j < |r| ensures Pattern(r[j]) {
        if j < |KeptLines(init)| { assert r[j] == KeptLines(init)[j]; }
      }
    }
  }

  /** The value `localize_key` stores: the localization of a string key, or None when there is none,
      when it starts with `"<="`, or when the key is not a string. */
  function Localized(key: Json, localization: Dict<string, string>): Json {
    if !key.Str? then Null
    else match Get(localization, key.s)
      case None => Null
      case Some(l) => if "<=" <= l then Null else Str(l)
  }

  /** `localize_key(container, container_key, localization)` */
  function LocalizeKey(container: Dict<string, Json>, containerKey: string, localization: Dict<string, string>)
    : (r: Result<Dict<string, Json>>)
    ensures var current := Get(container, containerKey).GetOr(Null);
      && (!Truthy(current) ==> r == Ok(container))
      && (Truthy(current) && (current.List? || current.Obj?) ==> r == Err(TypeError))
      && (Truthy(current) && !current.List? && !current.Obj? ==>
            && r.Ok?
            && Get(r.value, containerKey) == Some(Localized(current, localization))
            && forall k :: k != containerKey ==> Get(r.value, k) == Get(container, k))
  {
    var current := Get(container, containerKey).GetOr(Null);
    if !Truthy(current) then Ok(container)
    else if current.List? || current.Obj? then Err(TypeError)  // an unhashable dictionary key
    else Ok(Put(container, containerKey, Localized(current, localization)))
  }

  /** Whether `find_forge_entries` yields a child: its tag starts with the type and its `__path`
      attribute starts with one of the paths; the attribute is read only when there is a path to test. */
  function Selected(child: Element, paths: seq<string>, recordType: string): (r: Result<bool>)
    ensures r.Err? <==> recordType <= child.tag && |paths| > 0 && !HasKey(child.attrib, "__path")
    ensures r.Ok? ==>
      (r.value <==>
        && recordType <= child.tag
        && HasKey(child.attrib, "__path")
        && exists x :: x in paths && x <= Get(child.attrib, "__path").value)
  {
    if !(recordType <= child.tag) || |paths| == 0 then Ok(false)
    else match Get(child.attrib, "__path")
      case None => Err(KeyError("__path"))
      case Some(p) => Ok(exists x :: x in paths && x <= p)
  }

  /** What the generator yields before it stops, and the error it stops with, if any. */
  function ForgeEntries(children: seq<Element>, paths: seq<string>, recordType: string): (seq<Element>, Option<Error>) {
    if |children| == 0 then ([], None)
    else match Selected(children[0], paths, recordType)
      case Err(err) => ([], Some(err))
      case Ok(yes) =>
        var rest := ForgeEntries(children[1..], paths, recordType);
        ((if yes then [children[0]] else []) + rest.0, rest.1)
  }

  /** Every yielded record is one of the children selected by type and path, in document order. */
  lemma {:induction false} ForgeEntriesSound(children: seq<Element>, paths: seq<string>, recordType: string)
    ensures forall c :: c in ForgeEntries(children, paths, recordType).0 ==>
      c in children && Selected(c, paths, recordType) == Ok(true)
    ensures ForgeEntries(children, paths, recordType).1 == None <==>
      forall c :: c in children ==> Selected(c, paths, recordType).Ok?
    ensures ForgeEntries(children, paths, recordType).1 == None ==>
      forall c :: c in children && Selected(c, paths, recordType) == Ok(true) ==> c in ForgeEntries(children, paths, recordType).0
  {
    if |children| > 0 {
      ForgeEntriesSound(children[1..], paths, recordType);
      assert forall c :: c in children ==> c == children[0] || c in children[1..];
    }
  }

  /** `find_forge_entries(game_xml_root, paths, type)`, consumed to the end. */
  method FindForgeEntries(children: seq<Element>, paths: seq<string>, recordType: string)
    returns (found: seq<Element>, failure: Option<Error>)
    ensures (found, failure) == ForgeEntries(children, paths, recordType)
  {
    found, failure := [], None;
    var i := 0;
    assert children[0..] == children;
    assert found + ForgeEntries(children, paths, recordType).0 == ForgeEntries(children, paths, recordType).0;
    while i < |children|
      invariant 0 <= i <= |children|
      invariant failure == None
      invariant ForgeEntries(children, paths, recordType)
             == (found + ForgeEntries(children[i..], paths, recordType).0, ForgeEntries(children[i..], paths, recordType).1)
    {
      assert children[i..][1..] == children[i + 1..];
      var child := children[i];
      var selected := Selected(child, paths, recordType);
      if selected.Err? {
        assert ForgeEntries(children[i..], paths, recordType) == ([], Some(selected.error));
        assert found + [] == found;
        failure := Some(selected.error);
        return;
      }
      ghost var rest := ForgeEntries(children[i + 1..], paths, recordType);
      if selected.value {
        assert found + ([child] + rest.0) == (found + [child]) + rest.0;
        found := found + [child];
      } else {
        assert [] + rest.0 == rest.0;
      }
      i := i + 1;
    }
    assert children[i..] == [];
    assert found + [] == found;
  }
}
