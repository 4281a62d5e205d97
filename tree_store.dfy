/** `read_xml_tree` and `ElementDictionary.single`: an XML element becomes a
    dict whose keys are `"@"` plus each lower-cased attribute name, optionally
    `"#text"`, and each lower-cased child tag mapped to the list of that tag's
    sub-trees in document order. */
module TreeStore {
  import opened Wrappers
  import opened Dicts
  import opened Text
  import opened Py

  /** An XML element as the parser delivers it. */
  datatype Element = Element(tag: string, attrib: Dict<string, string>, text: Option<string>, children: seq<Element>)

  /** Keys that hold an attribute or the text rather than a child list. */
  predicate IsAttrKey(k: string) {
    |k| > 0 && (k[0] == '@' || k[0] == '#')
  }

  /** XML names are non-empty and never start with `@` or `#`. */
  ghost predicate WellFormed(e: Element) {
    && |e.tag| > 0 && !IsAttrKey(e.tag)
    && forall i :: 0 <= i < |e.children| ==> WellFormed(e.children[i])
  }

  /** Text that `read_xml_tree` keeps: non-empty and not all whitespace. */
  predicate HasText(t: string) {
    t != "" && !IsBlank(t)
  }

  /** The entries of the attribute comprehension, in attribute order. */
  function AttrEntries(attrib: Dict<string, string>): (r: Dict<string, Json>)
    ensures |r| == |attrib|
    ensures forall i :: 0 <= i < |r| ==> r[i] == Entry("@" + Lower(attrib[i].key), Str(attrib[i].val))
  {
    seq(|attrib|, i requires 0 <= i < |attrib| => Entry("@" + Lower(attrib[i].key), Str(attrib[i].val)))
  }

  /** The dict before any child is added. */
  function Base(e: Element, withText: bool): Dict<string, Json> {
    var attrs := Update([], AttrEntries(e.attrib));
    if withText && e.text.Some? && HasText(e.text.value) then Put(attrs, "#text", Str(e.text.value)) else attrs
  }

  /** The list under a child key, empty while the key is absent. */
  function ChildList(fields: Dict<string, Json>, key: string): seq<Json> {
    var cur := Get(fields, key);
    if cur.Some? && cur.value.List? then cur.value.items else []
  }

  /** One child added: the sub-tree is appended to the list under its key, which starts empty.
      (A child key never holds anything but a list, see `Shaped`.) */
  function AddChild(fields: Dict<string, Json>, key: string, sub: Json): Dict<string, Json> {
    Put(fields, key, List(ChildList(fields, key) + [sub]))
  }

  /** The dict `read_xml_tree` returns; `withText` selects the variant that keeps `"#text"`. */
  function Tree(e: Element, withText: bool): Json
    decreases e, 2
  {
    Obj(Fold(e, withText, |e.children|))
  }

  /** The dict after the first `i` children have been added. */
  function Fold(e: Element, withText: bool, i: nat): Dict<string, Json>
    requires i <= |e.children|
    decreases e, 1
  {
    Chain(Base(e, withText), AddChild, ChildKeys(e), Subtrees(e, withText), i)
  }

  /** The sub-tree of each child, in document order. */
  function Subtrees(e: Element, withText: bool): (r: seq<Json>)
    ensures |r| == |e.children|
    decreases e, 0
  {
    seq(|e.children|, i requires 0 <= i < |e.children| => Tree(e.children[i], withText))
  }

  /** One more child folded in. */
  lemma FoldNext(e: Element, withText: bool, i: nat)
    requires i < |e.children|
    ensures Fold(e, withText, i + 1)
      == AddChild(Fold(e, withText, i), Lower(e.children[i].tag), Tree(e.children[i], withText))
  {
  }

  /** Every value under a child key is a list. */
  ghost predicate Shaped(fields: Dict<string, Json>) {
    forall j :: 0 <= j < |fields| && !IsAttrKey(fields[j].key) ==> fields[j].val.List?
  }

  lemma AttrKeysOnly(d: Dict<string, Json>, k: string)
    requires forall j :: 0 <= j < |d| ==> IsAttrKey(d[j].key)
    requires HasKey(d, k)
    ensures IsAttrKey(k)
  {
    var j := IndexOf(d, k).value;
  }

  lemma BaseKeys(e: Element, withText: bool)
    ensures forall k :: HasKey(Base(e, withText), k) ==> IsAttrKey(k)
    ensures Unique(Base(e, withText))
  {
    var es := AttrEntries(e.attrib);
    forall k | HasKey(Base(e, withText), k) ensures IsAttrKey(k) {
      if HasKey(es, k) {
        AttrKeysOnly(es, k);
      }
    }
  }

  /** One child step on a dict: a key and a sub-tree added to it. */
  type Step = (Dict<string, Json>, string, Json) -> Dict<string, Json>

  /** The dict after `step` has added `keys[..i]`, `subs[..i]` to `base`, one pair at a time. */
  function Chain(base: Dict<string, Json>, step: Step, keys: seq<string>, subs: seq<Json>, i: nat): Dict<string, Json>
    requires i <= |keys| && i <= |subs|
  {
    if i == 0 then base else step(Chain(base, step, keys, subs, i - 1), keys[i - 1], subs[i - 1])
  }

  ghost predicate KeepsShape(step: Step) {
    forall f, key, sub :: Shaped(f) ==> Shaped(step(f, key, sub))
  }

  ghost predicate KeepsUnique(step: Step) {
    forall f, key, sub :: Unique(f) ==> Unique(step(f, key, sub))
  }

  ghost predicate KeepsAttr(step: Step, k: string) {
    forall f, key, sub :: !IsAttrKey(key) ==> Get(step(f, key, sub), k) == Get(f, k)
  }

  ghost predicate CountsOne(step: Step) {
    forall f, key, sub :: Shaped(f) && !IsAttrKey(key) ==> ChildCount(step(f, key, sub)) == ChildCount(f) + 1
  }

  /** The child step of `read_xml_tree` keeps the shape, the distinct keys and every attribute,
      and files exactly one more sub-tree. */
  lemma AddChildLaws(k: string)
    requires IsAttrKey(k)
    ensures KeepsShape(AddChild) && KeepsUnique(AddChild) && KeepsAttr(AddChild, k) && CountsOne(AddChild)
  {
    forall f, key, sub | Shaped(f) ensures Shaped(AddChild(f, key, sub)) { AddChildShaped(f, key, sub); }
    forall f, key, sub | !IsAttrKey(key) ensures Get(AddChild(f, key, sub), k) == Get(f, k) {
      AddChildKeepsAttr(f, key, sub, k);
    }
    forall f, key, sub | Shaped(f) && !IsAttrKey(key) ensures ChildCount(AddChild(f, key, sub)) == ChildCount(f) + 1 {
      AddChildCount(f, key, sub);
    }
  }

  /** The key each child is filed under. */
  function ChildKeys(e: Element): (r: seq<string>)
    ensures |r| == |e.children| && forall i :: 0 <= i < |r| ==> r[i] == Lower(e.children[i].tag)
  {
    seq(|e.children|, i requires 0 <= i < |e.children| => Lower(e.children[i].tag))
  }

  /** Child keys are never attribute keys. */
  lemma ChildKeysPlain(e: Element)
    requires WellFormed(e)
    ensures forall i :: 0 <= i < |ChildKeys(e)| ==> !IsAttrKey(ChildKeys(e)[i])
  {
    forall i | 0 <= i < |e.children| ensures !IsAttrKey(ChildKeys(e)[i]) { ChildKey(e, i); }
  }

  lemma BaseShaped(e: Element, withText: bool)
    ensures Shaped(Base(e, withText)) && Unique(Base(e, withText))
  {
    BaseKeys(e, withText);
    var b := Base(e, withText);
    forall j | 0 <= j < |b| ensures IsAttrKey(b[j].key) {
      GetAt(b, j);
    }
  }

  lemma {:induction false} ChainShaped(base: Dict<string, Json>, step: Step, keys: seq<string>, subs: seq<Json>, i: nat)
    requires i <= |keys| && i <= |subs| && Shaped(base) && KeepsShape(step)
    ensures Shaped(Chain(base, step, keys, subs, i))
  {
    if i > 0 {
      ChainShaped(base, step, keys, subs, i - 1);
    }
  }

  lemma {:induction false} ChainUnique(base: Dict<string, Json>, step: Step, keys: seq<string>, subs: seq<Json>, i: nat)
    requires i <= |keys| && i <= |subs| && Unique(base) && KeepsUnique(step)
    ensures Unique(Chain(base, step, keys, subs, i))
  {
    if i > 0 {
      ChainUnique(base, step, keys, subs, i - 1);
    }
  }

  lemma FoldShaped(e: Element, withText: bool, i: nat)
    requires i <= |e.children|
    ensures Shaped(Fold(e, withText, i)) && Unique(Fold(e, withText, i))
  {
    BaseShaped(e, withText);
    AddChildLaws("#");
    ChainShaped(Base(e, withText), AddChild, ChildKeys(e), Subtrees(e, withText), i);
    ChainUnique(Base(e, withText), AddChild, ChildKeys(e), Subtrees(e, withText), i);
  }

  /** Adding a child keeps every child key's value a list. */
  lemma AddChildShaped(f: Dict<string, Json>, key: string, sub: Json)
    requires Shaped(f)
    ensures Shaped(AddChild(f, key, sub))
  {
    PutShape(f, key, List(ChildList(f, key) + [sub]));
  }

  /** The children of `cs` whose lower-cased tag is `t`, in document order. */
  function Matching(cs: seq<Element>, t: string): (r: seq<Element>)
    ensures forall c :: c in r ==> c in cs && Lower(c.tag) == t
    ensures forall c :: c in cs && Lower(c.tag) == t ==> c in r
  {
    if |cs| == 0 then []
    else
      var last := cs[|cs| - 1];
      assert forall c :: c in cs ==> c in cs[..|cs| - 1] || c == last;
      Matching(cs[..|cs| - 1], t) + (if Lower(last.tag) == t then [last] else [])
  }

  function Trees(cs: seq<Element>, withText: bool): (r: seq<Json>)
    ensures |r| == |cs| && forall i :: 0 <= i < |cs| ==> r[i] == Tree(cs[i], withText)
  {
    seq(|cs|, i requires 0 <= i < |cs| => Tree(cs[i], withText))
  }

  lemma ChildKey(e: Element, i: nat)
    requires WellFormed(e) && i < |e.children|
    ensures !IsAttrKey(Lower(e.children[i].tag)) && |Lower(e.children[i].tag)| > 0
  {
    assert WellFormed(e.children[i]);
  }

  /** What one child step does: only the child's key changes, and its list grows by the sub-tree. */
  lemma AddChildEffect(fields: Dict<string, Json>, key: string, sub: Json)
    requires Shaped(fields) && !IsAttrKey(key)
    ensures Get(AddChild(fields, key, sub), key)
         == Some(List((if HasKey(fields, key) then Get(fields, key).value.items else []) + [sub]))
    ensures forall k :: k != key ==> Get(AddChild(fields, key, sub), k) == Get(fields, k)
    ensures HasKey(fields, key) ==> Get(fields, key).value.List?
  {
    if HasKey(fields, key) {
      var j := IndexOf(fields, key).value;
      assert fields[j].key == key && Get(fields, key).value == fields[j].val;
      assert ChildList(fields, key) == Get(fields, key).value.items;
    }
  }

  lemma {:induction false} FoldChildren(e: Element, withText: bool, i: nat, t: string)
    requires WellFormed(e) && i <= |e.children| && !IsAttrKey(t)
    ensures Get(Fold(e, withText, i), t) == Expected(e.children[..i], withText, t)
  {
    if i == 0 {
      BaseKeys(e, withText);
      assert !HasKey(Base(e, withText), t);
    } else {
      var c := e.children[i - 1];
      assert e.children[..i] == e.children[..i - 1] + [c];
      FoldChildren(e, withText, i - 1, t);
      FoldNext(e, withText, i - 1);
      FoldShaped(e, withText, i - 1);
      ChildKey(e, i - 1);
      ChildStep(Fold(e, withText, i - 1), e.children[..i - 1], c, withText, t);
    }
  }

  /** The value `read_xml_tree` leaves under child key `t` after the children `cs`. */
  function Expected(cs: seq<Element>, withText: bool, t: string): Option<Json> {
    var m := Matching(cs, t);
    if m == [] then None else Some(List(Trees(m, withText)))
  }

  lemma ChildStep(f: Dict<string, Json>, cs: seq<Element>, c: Element, withText: bool, t: string)
    requires Shaped(f) && !IsAttrKey(t) && !IsAttrKey(Lower(c.tag))
    requires Get(f, t) == Expected(cs, withText, t)
    ensures Get(AddChild(f, Lower(c.tag), Tree(c, withText)), t) == Expected(cs + [c], withText, t)
  {
    AddChildGet(f, Lower(c.tag), Tree(c, withText), t);
    ExpectedSnoc(cs, c, withText, t);
  }

  /** What a child key holds after one child step. */
  lemma AddChildGet(f: Dict<string, Json>, key: string, sub: Json, t: string)
    requires Shaped(f) && !IsAttrKey(key) && !IsAttrKey(t)
    ensures Get(AddChild(f, key, sub), t) == if key == t then Some(List(ChildList(f, t) + [sub])) else Get(f, t)
    ensures Get(f, t).Some? ==> Get(f, t).value.List? && ChildList(f, t) == Get(f, t).value.items
  {
    if HasKey(f, t) {
      var j := IndexOf(f, t).value;
      assert f[j].key == t && Get(f, t).value == f[j].val;
    }
  }

  /** The expected value under `t` after one more child. */
  lemma ExpectedSnoc(cs: seq<Element>, c: Element, withText: bool, t: string)
    ensures Expected(cs + [c], withText, t)
      == if Lower(c.tag) != t then Expected(cs, withText, t)
         else Some(List((if Expected(cs, withText, t).None? then [] else Expected(cs, withText, t).value.items) + [Tree(c, withText)]))
  {
    var m := Matching(cs, t);
    MatchingSnoc(cs, c, t);
    if Lower(c.tag) == t {
      TreesSnoc(m, c, withText);
      assert m == [] ==> Trees(m, withText) == [];
      assert Matching(cs + [c], t) == m + [c] != [];
    } else {
      assert Matching(cs + [c], t) == m;
    }
  }

  lemma MatchingSnoc(cs: seq<Element>, c: Element, t: string)
    ensures Matching(cs + [c], t) == Matching(cs, t) + if Lower(c.tag) == t then [c] else []
  {
    assert (cs + [c])[..|cs|] == cs;
  }

  lemma TreesSnoc(m: seq<Element>, c: Element, withText: bool)
    ensures Trees(m + [c], withText) == Trees(m, withText) + [Tree(c, withText)]
  {
  }

  lemma AddChildKeepsAttr(f: Dict<string, Json>, key: string, sub: Json, k: string)
    requires !IsAttrKey(key) && IsAttrKey(k)
    ensures Get(AddChild(f, key, sub), k) == Get(f, k)
  {
  }

  lemma {:induction false} ChainKeepsAttrs(base: Dict<string, Json>, step: Step, keys: seq<string>, subs: seq<Json>, i: nat, k: string)
    requires i <= |keys| && i <= |subs| && KeepsAttr(step, k)
    requires forall j :: 0 <= j < |keys| ==> !IsAttrKey(keys[j])
    ensures Get(Chain(base, step, keys, subs, i), k) == Get(base, k)
  {
    if i > 0 {
      ChainKeepsAttrs(base, step, keys, subs, i - 1, k);
    }
  }

  lemma FoldKeepsAttrs(e: Element, withText: bool, i: nat, k: string)
    requires WellFormed(e) && i <= |e.children| && IsAttrKey(k)
    ensures Get(Fold(e, withText, i), k) == Get(Base(e, withText), k)
  {
    ChildKeysPlain(e);
    AddChildLaws(k);
    ChainKeepsAttrs(Base(e, withText), AddChild, ChildKeys(e), Subtrees(e, withText), i, k);
  }

  /** Each child tag maps to the list of the sub-trees of exactly the children with that tag up to
      case, in document order; a key that is no child's tag and no attribute is absent. */
  lemma TreeChildren(e: Element, withText: bool, t: string)
    requires WellFormed(e) && !IsAttrKey(t)
    ensures Get(Tree(e, withText).fields, t) == Expected(e.children, withText, t)
  {
    assert e.children[..|e.children|] == e.children;
    FoldChildren(e, withText, |e.children|, t);
  }

  /** Every attribute appears under `"@"` plus its lower-cased name with its value, unless a later
      attribute has the same name up to case (the later one wins). */
  lemma TreeAttribute(e: Element, withText: bool, i: nat)
    requires WellFormed(e) && i < |e.attrib|
    requires forall j :: i < j < |e.attrib| ==> Lower(e.attrib[j].key) != Lower(e.attrib[i].key)
    ensures Get(Tree(e, withText).fields, "@" + Lower(e.attrib[i].key)) == Some(Str(e.attrib[i].val))
  {
    var es := AttrEntries(e.attrib);
    var k := "@" + Lower(e.attrib[i].key);
    forall j | i < j < |es| ensures es[j].key != k {
      assert es[j].key[1..] == Lower(e.attrib[j].key);
      assert k[1..] == Lower(e.attrib[i].key);
    }
    UpdateLastWins([], es, i);
    assert k[0] == '@';
    FoldKeepsAttrs(e, withText, |e.children|, k);
  }

  /** The tree holds no attribute key other than those of the attributes, and `"#text"` exactly when
      text is kept and the element's text is non-empty and not all whitespace. */
  lemma TreeAttrKeys(e: Element, withText: bool, k: string)
    requires WellFormed(e) && IsAttrKey(k)
    ensures HasKey(Tree(e, withText).fields, k) ==> k == "#text" || exists j :: 0 <= j < |e.attrib| && k == "@" + Lower(e.attrib[j].key)
    ensures k == "#text" ==>
      (HasKey(Tree(e, withText).fields, k) <==> withText && e.text.Some? && HasText(e.text.value))
    ensures k == "#text" && HasKey(Tree(e, withText).fields, k) ==> Get(Tree(e, withText).fields, k) == Some(Str(e.text.value))
  {
    FoldKeepsAttrs(e, withText, |e.children|, k);
    var es := AttrEntries(e.attrib);
    if HasKey(es, k) {
      var j := IndexOf(es, k).value;
      assert k == "@" + Lower(e.attrib[j].key);
    }
  }

  /** Every key of the tree is lower-case. */
  lemma TreeKeysLower(e: Element, withText: bool, k: string)
    requires WellFormed(e) && HasKey(Tree(e, withText).fields, k)
    ensures HasNoUpper(k)
  {
    if IsAttrKey(k) {
      TreeAttrKeys(e, withText, k);
      AttrKeyLower(e, k);
    } else {
      TreeChildren(e, withText, k);
      ChildKeyLower(e.children, withText, k);
    }
  }

  lemma AttrKeyLower(e: Element, k: string)
    requires k == "#text" || exists j :: 0 <= j < |e.attrib| && k == "@" + Lower(e.attrib[j].key)
    ensures HasNoUpper(k)
  {
    if k == "#text" {
      assert HasNoUpper("#text");
    } else {
      var j :| 0 <= j < |e.attrib| && k == "@" + Lower(e.attrib[j].key);
      LowerIsLower(e.attrib[j].key);
      assert HasNoUpper("@");
      NoUpperConcat("@", Lower(e.attrib[j].key));
    }
  }

  lemma ChildKeyLower(cs: seq<Element>, withText: bool, k: string)
    requires Expected(cs, withText, k).Some?
    ensures HasNoUpper(k)
  {
    var c := Matching(cs, k)[0];
    assert Lower(c.tag) == k;
    LowerIsLower(c.tag);
  }

  /** How many sub-trees a child key holds. */
  function Contribution(x: Entry<string, Json>): nat {
    if !IsAttrKey(x.key) && x.val.List? then |x.val.items| else 0
  }

  /** The total number of sub-trees held under child keys. */
  function ChildCount(fs: Dict<string, Json>): nat {
    if |fs| == 0 then 0 else ChildCount(fs[..|fs| - 1]) + Contribution(fs[|fs| - 1])
  }

  lemma ChildCountAppend(d: Dict<string, Json>, x: Entry<string, Json>)
    ensures ChildCount(d + [x]) == ChildCount(d) + Contribution(x)
  {
    assert (d + [x])[..|d|] == d;
  }

  lemma {:induction false} ChildCountReplace(d: Dict<string, Json>, j: nat, x: Entry<string, Json>)
    requires j < |d|
    ensures ChildCount(d[j := x]) == ChildCount(d) - Contribution(d[j]) + Contribution(x)
  {
    if j == |d| - 1 {
      assert d[j := x][..|d| - 1] == d[..|d| - 1];
    } else {
      assert d[j := x][..|d| - 1] == d[..|d| - 1][j := x];
      ChildCountReplace(d[..|d| - 1], j, x);
    }
  }

  lemma {:induction false} ChildCountAttrs(d: Dict<string, Json>)
    requires forall j :: 0 <= j < |d| ==> IsAttrKey(d[j].key)
    ensures ChildCount(d) == 0
  {
    if |d| > 0 {
      ChildCountAttrs(d[..|d| - 1]);
    }
  }

  /** Adding a child puts one more sub-tree under a child key. */
  lemma AddChildCount(f: Dict<string, Json>, key: string, sub: Json)
    requires Shaped(f) && !IsAttrKey(key)
    ensures ChildCount(AddChild(f, key, sub)) == ChildCount(f) + 1
  {
    AddChildEffect(f, key, sub);
    var v := List(ChildList(f, key) + [sub]);
    PutShape(f, key, v);
    if HasKey(f, key) {
      var idx := IndexOf(f, key).value;
      assert f[idx].val == Get(f, key).value;
      ChildCountReplace(f, idx, Entry(key, v));
    } else {
      ChildCountAppend(f, Entry(key, v));
    }
  }

  lemma BaseChildCount(e: Element, withText: bool)
    ensures ChildCount(Base(e, withText)) == 0
  {
    var b := Base(e, withText);
    BaseKeys(e, withText);
    forall j | 0 <= j < |b| ensures IsAttrKey(b[j].key) {
      GetAt(b, j);
    }
    ChildCountAttrs(b);
  }

  lemma {:induction false} ChainCount(base: Dict<string, Json>, step: Step, keys: seq<string>, subs: seq<Json>, i: nat)
    requires i <= |keys| && i <= |subs| && Shaped(base) && KeepsShape(step) && CountsOne(step)
    requires forall j :: 0 <= j < |keys| ==> !IsAttrKey(keys[j])
    ensures ChildCount(Chain(base, step, keys, subs, i)) == ChildCount(base) + i
  {
    if i > 0 {
      ChainCount(base, step, keys, subs, i - 1);
      ChainShaped(base, step, keys, subs, i - 1);
    }
  }

  lemma FoldCount(e: Element, withText: bool, i: nat)
    requires WellFormed(e) && i <= |e.children|
    ensures ChildCount(Fold(e, withText, i)) == i
  {
    BaseShaped(e, withText);
    BaseChildCount(e, withText);
    ChildKeysPlain(e);
    AddChildLaws("#");
    ChainCount(Base(e, withText), AddChild, ChildKeys(e), Subtrees(e, withText), i);
  }

  /** The child lists together hold one sub-tree per child element. */
  lemma TreeChildCount(e: Element, withText: bool)
    requires WellFormed(e)
    ensures ChildCount(Tree(e, withText).fields) == |e.children|
  {
    FoldCount(e, withText, |e.children|);
  }

  lemma AddChildIsAppend(f: Dict<string, Json>, key: string, sub: Json)
    requires Shaped(f) && !IsAttrKey(key)
    ensures var fs := if HasKey(f, key) then f else Put(f, key, List([]));
      && Get(fs, key).Some? && Get(fs, key).value.List?
      && AddChild(f, key, sub) == Put(fs, key, List(Get(fs, key).value.items + [sub]))
  {
    AddChildEffect(f, key, sub);
    if !HasKey(f, key) {
      var fs := Put(f, key, List([]));
      PutShape(f, key, List([]));
      PutShape(fs, key, List([sub]));
      PutShape(f, key, List([sub]));
      assert IndexOf(fs, key) == Some(|f|);
    }
  }

  /** The attribute comprehension: `"@"` plus each lower-cased name, assigned in attribute order. */
  method CopyAttributes(attrib: Dict<string, string>) returns (fields: Dict<string, Json>)
    ensures fields == Update([], AttrEntries(attrib))
  {
    var es := AttrEntries(attrib);
    fields := [];
    var a := 0;
    while a < |attrib|
      invariant 0 <= a <= |attrib|
      invariant Update(fields, es[a..]) == Update([], es)
    {
      assert es[a..][1..] == es[a + 1..];
      fields := Put(fields, "@" + Lower(attrib[a].key), Str(attrib[a].val));
      a := a + 1;
    }
    assert es[a..] == [];
  }

  /** `if not key in tag: tag[key] = []` then `tag[key].append(sub)`. */
  method AppendChild(fields: Dict<string, Json>, key: string, sub: Json) returns (r: Dict<string, Json>)
    requires Shaped(fields) && !IsAttrKey(key)
    ensures r == AddChild(fields, key, sub)
  {
    AddChildIsAppend(fields, key, sub);
    r := fields;
    if !HasKey(r, key) {
      r := Put(r, key, List([]));
    }
    r := Put(r, key, List(Get(r, key).value.items + [sub]));
  }

  /** `read_xml_tree(element)`: the attributes are copied by a comprehension, the text is kept if
      asked for, then each child in turn is converted and appended to the list under its tag. */
  method ReadXmlTree(e: Element, withText: bool) returns (r: Json)
    requires WellFormed(e)
    ensures r == Tree(e, withText)
    decreases e, 1
  {
    var fields := ReadOwn(e, withText);
    var i := 0;
    while i < |e.children|
      invariant 0 <= i <= |e.children|
      invariant fields == Fold(e, withText, i)
    {
      fields := ReadChild(e, withText, i, fields);
      i := i + 1;
    }
    r := Obj(fields);
  }

  /** The dict before the child loop: the attribute comprehension, then `"#text"` when kept. */
  method ReadOwn(e: Element, withText: bool) returns (fields: Dict<string, Json>)
    ensures fields == Base(e, withText)
  {
    fields := CopyAttributes(e.attrib);
    if withText && e.text.Some? && HasText(e.text.value) {
      fields := Put(fields, "#text", Str(e.text.value));
    }
  }

  /** One pass of `read_xml_tree`'s child loop: the `i`-th child is converted and appended. */
  method ReadChild(e: Element, withText: bool, i: nat, fields: Dict<string, Json>) returns (r: Dict<string, Json>)
    requires WellFormed(e) && i < |e.children| && fields == Fold(e, withText, i)
    ensures r == Fold(e, withText, i + 1)
    decreases e, 0
  {
    var child := e.children[i];
    FoldShaped(e, withText, i);
    ChildKey(e, i);
    FoldNext(e, withText, i);
    var sub := ReadXmlTree(child, withText);
    r := AppendChild(fields, Lower(child.tag), sub);
  }

  /** `ElementDictionary.single(key)`: None when the key is absent or holds None, the first entry of a
      list (None for an empty one; several entries only draw a warning), and `KeyError` for any other value. */
  function Single(node: Dict<string, Json>, key: string): (r: Result<Json>)
    ensures !HasKey(node, key) || Get(node, key) == Some(Null) ==> r == Ok(Null)
    ensures HasKey(node, key) && Get(node, key).value.List? ==>
      r == Ok(if Get(node, key).value.items == [] then Null else Get(node, key).value.items[0])
    ensures r.Err? <==> HasKey(node, key) && Get(node, key).value != Null && !Get(node, key).value.List?
    ensures r.Err? ==> r.error == KeyError(key)
  {
    match Get(node, key)
    case None => Ok(Null)
    case Some(entry) =>
      if entry == Null then Ok(Null)
      else if !entry.List? then Err(KeyError(key))
      else if |entry.items| == 0 then Ok(Null)
      else Ok(entry.items[0])
  }

  /** On a tree read from XML, `single(tag)` is the sub-tree of the first child with that tag up to
      case, and None when there is no such child. */
  lemma SingleChild(e: Element, withText: bool, t: string)
    requires WellFormed(e) && !IsAttrKey(t)
    ensures var m := Matching(e.children, t);
      Single(Tree(e, withText).fields, t) == if m == [] then Ok(Null) else Ok(Tree(m[0], withText))
  {
    TreeChildren(e, withText, t);
  }

  lemma BaseValues(e: Element, withText: bool)
    ensures forall j :: 0 <= j < |Base(e, withText)| ==> Base(e, withText)[j].val.Str?
  {
    var es := AttrEntries(e.attrib);
    var attrs := Update([], es);
    UpdateFrom([], es);
    assert forall j :: 0 <= j < |attrs| ==> attrs[j] in es;
  }

  /** On a tree read from XML, `single` of an attribute key (or `"#text"`) raises `KeyError`. */
  lemma SingleAttribute(e: Element, withText: bool, k: string)
    requires WellFormed(e) && IsAttrKey(k) && HasKey(Tree(e, withText).fields, k)
    ensures Single(Tree(e, withText).fields, k) == Err(KeyError(k))
  {
    FoldKeepsAttrs(e, withText, |e.children|, k);
    BaseValues(e, withText);
    var b := Base(e, withText);
    assert b[IndexOf(b, k).value].val.Str?;
  }

  /** No value of a dict `read_xml_tree` builds is itself a dict: attributes and
      the text are strings, and child tags hold lists. */
  lemma TreeValuesNotDicts(e: Element, withText: bool)
    requires WellFormed(e)
    ensures forall j :: 0 <= j < |Tree(e, withText).fields| ==>
      Tree(e, withText).fields[j].val.Str? || Tree(e, withText).fields[j].val.List?
  {
    var fs := Tree(e, withText).fields;
    FoldShaped(e, withText, |e.children|);
    BaseValues(e, withText);
    forall j | 0 <= j < |fs| ensures fs[j].val.Str? || fs[j].val.List? {
      var k := fs[j].key;
      GetAt(fs, j);
      if IsAttrKey(k) {
        FoldKeepsAttrs(e, withText, |e.children|, k);
        var b := Base(e, withText);
        assert fs[j].val == b[IndexOf(b, k).value].val;
      }
    }
  }

  /** A tree read from XML is a valid value: every dict in it has distinct keys. */
  lemma {:induction false} TreeValid(e: Element, withText: bool)
    requires WellFormed(e)
    ensures Valid(Tree(e, withText))
    decreases e
  {
    var fs := Tree(e, withText).fields;
    FoldShaped(e, withText, |e.children|);
    BaseValues(e, withText);
    forall j | 0 <= j < |fs| ensures Valid(fs[j].val) {
      var k := fs[j].key;
      GetAt(fs, j);
      if IsAttrKey(k) {
        FoldKeepsAttrs(e, withText, |e.children|, k);
        var b := Base(e, withText);
        assert fs[j].val == b[IndexOf(b, k).value].val;
      } else {
        TreeChildren(e, withText, k);
        var m := Matching(e.children, k);
        forall x | 0 <= x < |m| ensures Valid(Tree(m[x], withText)) {
          assert m[x] in e.children;
          assert WellFormed(m[x]);
          TreeValid(m[x], withText);
        }
      }
    }
  }

  /** `node.single(key)` on any value: only the dicts `read_xml_tree` builds have the method. */
  function SingleOf(node: Json, key: string): (r: Result<Json>)
    ensures node.Obj? ==> r == Single(node.fields, key)
    ensures !node.Obj? ==> r == Err(AttributeError)
  {
    if node.Obj? then Single(node.fields, key) else Err(AttributeError)
  }

  /** No dict anywhere in the value has a key with an upper-case letter. */
  ghost predicate LowerKeys(j: Json) {
    match j
    case List(items) => forall i :: 0 <= i < |items| ==> LowerKeys(items[i])
    case Obj(fs) => forall i :: 0 <= i < |fs| ==> HasNoUpper(fs[i].key) && LowerKeys(fs[i].val)
    case _ => true
  }

  /** `read_xml_tree` lower-cases every key at every depth. */
  lemma {:induction false} TreeLowerKeys(e: Element, withText: bool)
    requires WellFormed(e)
    ensures LowerKeys(Tree(e, withText))
    decreases e
  {
    var fs := Tree(e, withText).fields;
    FoldShaped(e, withText, |e.children|);
    BaseValues(e, withText);
    forall j | 0 <= j < |fs| ensures HasNoUpper(fs[j].key) && LowerKeys(fs[j].val) {
      var k := fs[j].key;
      GetAt(fs, j);
      TreeKeysLower(e, withText, k);
      if IsAttrKey(k) {
        FoldKeepsAttrs(e, withText, |e.children|, k);
        var b := Base(e, withText);
        assert fs[j].val == b[IndexOf(b, k).value].val;
      } else {
        TreeChildren(e, withText, k);
        var m := Matching(e.children, k);
        forall x | 0 <= x < |m| ensures LowerKeys(Tree(m[x], withText)) {
          assert m[x] in e.children;
          assert WellFormed(m[x]);
          TreeLowerKeys(m[x], withText);
        }
      }
    }
  }

  lemma LowerKeysGet(fs: Dict<string, Json>, key: string)
    requires LowerKeys(Obj(fs)) && HasKey(fs, key)
    ensures LowerKeys(Get(fs, key).value) && HasNoUpper(key)
  {
    var i := IndexOf(fs, key).value;
    assert Get(fs, key).value == fs[i].val;
  }

  /** A key with an upper-case letter is never present in such a dict. */
  lemma LowerKeysHasKey(fs: Dict<string, Json>, key: string)
    requires LowerKeys(Obj(fs))
    ensures HasKey(fs, key) ==> HasNoUpper(key)
  {
    if HasKey(fs, key) {
      var i := IndexOf(fs, key).value;
      assert fs[i].key == key;
    }
  }

  /** What `single` returns from a dict without upper-case keys has none either. */
  lemma LowerKeysSingle(node: Json, key: string)
    requires LowerKeys(node) && SingleOf(node, key).Ok?
    ensures LowerKeys(SingleOf(node, key).value)
  {
    if node.Obj? && HasKey(node.fields, key) {
      LowerKeysGet(node.fields, key);
    }
  }
}
