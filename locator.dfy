/** `find_element`: a depth-first, pre-order search of a value for the dict
    whose `"@id"` equals an id, and the replacement of the node it finds.
    A node is named by its path: the positions of the children taken from
    the root, a dict's children being its values in key order. */
module Locator {
  import opened Wrappers
  import opened Dicts
  import opened Py

  type Path = seq<nat>

  /** The node at path `p`, if the path exists. */
  function At(j: Json, p: Path): Option<Json>
    decreases |p|
  {
    if p == [] then Some(j)
    else if p[0] < |Children(j)| then At(Children(j)[p[0]], p[1..])
    else None
  }

  lemma AtCons(j: Json, i: nat, p: Path)
    requires i < |Children(j)|
    ensures At(j, [i] + p) == At(Children(j)[i], p)
  {
    assert ([i] + p)[1..] == p;
  }

  /** `j` with child `i` replaced; a dict keeps its keys. */
  function SetChild(j: Json, i: nat, v: Json): (r: Json)
    requires i < |Children(j)|
    ensures Children(r) == Children(j)[i := v]
    ensures j.Obj? ==> r.Obj? && Keys(r.fields) == Keys(j.fields)
    ensures j.List? ==> r.List?
  {
    match j
    case List(items) => List(items[i := v])
    case Obj(fs) => Obj(fs[i := Entry(fs[i].key, v)])
    case _ => j
  }

  /** `j` with the node at `p` replaced by `v`. */
  function SetAt(j: Json, p: Path, v: Json): Json
    requires At(j, p).Some?
    decreases |p|
  {
    if p == [] then v else SetChild(j, p[0], SetAt(Children(j)[p[0]], p[1..], v))
  }

  /** After the replacement the path leads to the new node ... */
  lemma {:induction false} SetAtHere(j: Json, p: Path, v: Json)
    requires At(j, p).Some?
    ensures At(SetAt(j, p, v), p) == Some(v)
    decreases |p|
  {
    if p != [] {
      SetAtHere(Children(j)[p[0]], p[1..], v);
    }
  }

  /** ... below it lies the new node's own content ... */
  lemma {:induction false} SetAtBelow(j: Json, p: Path, v: Json, q: Path)
    requires At(j, p).Some?
    ensures At(SetAt(j, p, v), p + q) == At(v, q)
    decreases |p|
  {
    if p != [] {
      var c := Children(j)[p[0]];
      assert (p + q)[0] == p[0] && (p + q)[1..] == p[1..] + q;
      SetAtBelow(c, p[1..], v, q);
      assert Children(SetAt(j, p, v))[p[0]] == SetAt(c, p[1..], v);
    } else {
      assert p + q == q;
    }
  }

  /** ... and every node off the path is unchanged. */
  lemma {:induction false} SetAtElsewhere(j: Json, p: Path, v: Json, q: Path)
    requires At(j, p).Some?
    requires !(p <= q) && !(q <= p)
    ensures At(SetAt(j, p, v), q) == At(j, q)
    decreases |p|
  {
    if p[0] == q[0] {
      SetAtElsewhere(Children(j)[p[0]], p[1..], v, q[1..]);
    }
  }

  /** Replacing a node keeps every dict's keys unique. */
  lemma {:induction false} SetAtValid(j: Json, p: Path, v: Json)
    requires At(j, p).Some? && Valid(j) && Valid(v)
    ensures Valid(SetAt(j, p, v))
    decreases |p|
  {
    if p != [] {
      var c := Children(j)[p[0]];
      assert Valid(c);
      SetAtValid(c, p[1..], v);
      var r := SetAt(j, p, v);
      if j.Obj? {
        assert forall k :: 0 <= k < |r.fields| ==> r.fields[k].key == j.fields[k].key by {
          assert Keys(r.fields) == Keys(j.fields);
          forall k | 0 <= k < |r.fields| ensures r.fields[k].key == j.fields[k].key {
            assert Keys(r.fields)[k] == Keys(j.fields)[k];
          }
        }
        assert forall k :: 0 <= k < |r.fields| ==> r.fields[k].val == Children(r)[k];
      }
    }
  }

  /** The test `find_element` applies to a node: a dict whose `"@id"` (None when absent) equals the id. */
  predicate IsMatch(node: Json, id: Json) {
    node.Obj? && Get(node.fields, "@id").GetOr(Null) == id
  }

  /** The path to the node `find_element(j, id)` returns. */
  function FindElement(j: Json, id: Json): (r: Option<Path>)
    ensures r.Some? ==> At(j, r.value).Some? && IsMatch(At(j, r.value).value, id)
    decreases j, 1
  {
    if IsMatch(j, id) then Some([]) else FindAmong(j, id, 0)
  }

  /** The search of the children from position `i` on: the first child whose search finds a truthy node. */
  function FindAmong(j: Json, id: Json, i: nat): (r: Option<Path>)
    requires i <= |Children(j)|
    ensures r.Some? ==>
      && |r.value| > 0 && i <= r.value[0] && At(j, r.value).Some?
      && IsMatch(At(j, r.value).value, id) && Truthy(At(j, r.value).value)
    decreases j, 0, |Children(j)| - i
  {
    if i == |Children(j)| then None
    else
      ChildSmaller(j, i);
      var c := Children(j)[i];
      match FindElement(c, id)
      case Some(p) =>
        AtCons(j, i, p);
        if Truthy(At(c, p).value) then Some([i] + p) else FindAmong(j, id, i + 1)
      case None => FindAmong(j, id, i + 1)
  }

  /** `p` comes before `q` in pre-order: a node precedes its descendants, and siblings keep their order. */
  predicate Before(p: Path, q: Path) {
    |q| > 0 && (p == [] || p[0] < q[0] || (p[0] == q[0] && Before(p[1..], q[1..])))
  }

  predicate Matches(j: Json, id: Json, q: Path) {
    At(j, q).Some? && IsMatch(At(j, q).value, id)
  }

  lemma MatchTruthy(node: Json, id: Json)
    requires IsMatch(node, id) && id != Null
    ensures Truthy(node)
  {
  }

  /** `find_element` returns the first matching node in pre-order, and None exactly when no node matches. */
  lemma {:induction false} FindElementFirst(j: Json, id: Json)
    requires id != Null
    ensures FindElement(j, id).None? ==> forall q :: !Matches(j, id, q)
    ensures FindElement(j, id).Some? ==> forall q :: Matches(j, id, q) ==> q == FindElement(j, id).value || Before(FindElement(j, id).value, q)
    decreases j, 1
  {
    if !IsMatch(j, id) {
      FindAmongFirst(j, id, 0);
      assert !Matches(j, id, []);
    }
  }

  lemma {:induction false} FindAmongFirst(j: Json, id: Json, i: nat)
    requires id != Null && i <= |Children(j)|
    ensures FindAmong(j, id, i).None? ==> forall q :: |q| > 0 && q[0] >= i ==> !Matches(j, id, q)
    ensures FindAmong(j, id, i).Some? ==> forall q :: |q| > 0 && q[0] >= i && Matches(j, id, q) ==>
      q == FindAmong(j, id, i).value || Before(FindAmong(j, id, i).value, q)
    decreases j, 0, |Children(j)| - i
  {
    if i < |Children(j)| {
      ChildSmaller(j, i);
      var c := Children(j)[i];
      FindElementFirst(c, id);
      FindAmongFirst(j, id, i + 1);
      forall q | |q| > 0 && q[0] == i ensures Matches(j, id, q) == Matches(c, id, q[1..]) {
        ChildMatches(j, id, q);
      }
      if FindElement(c, id).Some? {
        var p := FindElement(c, id).value;
        MatchTruthy(At(c, p).value, id);
        assert ([i] + p)[0] == i && ([i] + p)[1..] == p;
      }
    }
  }

  /** A path into child `q[0]` matches where the rest of it matches in that child. */
  lemma ChildMatches(j: Json, id: Json, q: Path)
    requires |q| > 0 && q[0] < |Children(j)|
    ensures Matches(j, id, q) == Matches(Children(j)[q[0]], id, q[1..])
  {
  }
}
