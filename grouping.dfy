/** The greedy first-fit partition behind `BindingGroup.makeGroups`: each
    element joins the first group whose first member accepts it, and opens a
    new group when none does. The specification works on positions: a group
    is the list of the positions of its members in the input. */
module Grouping {

  /** Groups of positions below `n`, none of them empty. */
  predicate Wf(G: seq<seq<nat>>, n: nat) {
    forall k :: 0 <= k < |G| ==> |G[k]| > 0 && forall j :: 0 <= j < |G[k]| ==> G[k][j] < n
  }

  /** The groups of elements that groups of positions stand for. */
  function Members<B>(bs: seq<B>, G: seq<seq<nat>>): (r: seq<seq<B>>)
    requires Wf(G, |bs|)
    ensures |r| == |G|
    ensures forall k :: 0 <= k < |G| ==> |r[k]| == |G[k]| > 0
    ensures forall k, j :: 0 <= k < |G| && 0 <= j < |G[k]| ==> r[k][j] == bs[G[k][j]]
  {
    seq(|G|, k requires 0 <= k < |G| => seq(|G[k]|, j requires 0 <= j < |G[k]| => bs[G[k][j]]))
  }

  /** `groups.find(n => groupable(b, n[0]))`, as the position of the group found;
      `|groups|` when there is none. */
  function FirstMatch<B>(groups: seq<seq<B>>, b: B, ok: (B, B) -> bool): (k: nat)
    requires forall h :: 0 <= h < |groups| ==> |groups[h]| > 0
    ensures k <= |groups|
    ensures forall h :: 0 <= h < k ==> !ok(b, groups[h][0])
    ensures k < |groups| ==> ok(b, groups[k][0])
    decreases |groups|
  {
    if groups == [] then 0
    else if ok(b, groups[0][0]) then 0
    else 1 + FirstMatch(groups[1..], b, ok)
  }

  /** The search finds the first accepting group and no other. */
  lemma FirstMatchUnique<B>(groups: seq<seq<B>>, b: B, ok: (B, B) -> bool, k: nat)
    requires forall h :: 0 <= h < |groups| ==> |groups[h]| > 0
    requires k <= |groups|
    requires forall h :: 0 <= h < k ==> !ok(b, groups[h][0])
    requires k < |groups| ==> ok(b, groups[k][0])
    ensures FirstMatch(groups, b, ok) == k
  {
  }

  /** Position `i` added to group `k`, or to a new group at the end when `k` is past the last. */
  function Place(G: seq<seq<nat>>, i: nat, k: nat): (r: seq<seq<nat>>)
    requires k <= |G|
    ensures |r| == if k < |G| then |G| else |G| + 1
    ensures forall h :: 0 <= h < |G| && h != k ==> r[h] == G[h]
    ensures k < |G| ==> r[k] == G[k] + [i]
    ensures k == |G| ==> r[k] == [i]
  {
    if k < |G| then G[k := G[k] + [i]] else G + [[i]]
  }

  /** The groups after the first `n` elements have been placed. */
  function FirstFitUpTo<B>(bs: seq<B>, n: nat, ok: (B, B) -> bool): (G: seq<seq<nat>>)
    requires n <= |bs|
    ensures Wf(G, n)
    decreases n
  {
    if n == 0 then []
    else
      var G0 := FirstFitUpTo(bs, n - 1, ok);
      assert Wf(G0, |bs|);
      Place(G0, n - 1, FirstMatch(Members(bs, G0), bs[n - 1], ok))
  }

  /** The groups `makeGroups` forms from `bs`, as positions. */
  function FirstFit<B>(bs: seq<B>, ok: (B, B) -> bool): (G: seq<seq<nat>>)
    ensures Wf(G, |bs|)
  {
    FirstFitUpTo(bs, |bs|, ok)
  }

  /** Position `i` is in some group. */
  predicate Occurs(G: seq<seq<nat>>, i: nat) {
    exists k, j :: 0 <= k < |G| && 0 <= j < |G[k]| && G[k][j] == i
  }

  /** Every position below `n` is in some group. */
  predicate Covers(G: seq<seq<nat>>, n: nat) {
    forall i :: 0 <= i < n ==> Occurs(G, i)
  }

  /** No position is in two places. */
  predicate Distinct(G: seq<seq<nat>>) {
    forall k1, j1, k2, j2 ::
      (0 <= k1 < |G| && 0 <= j1 < |G[k1]| && 0 <= k2 < |G| && 0 <= j2 < |G[k2]| && G[k1][j1] == G[k2][j2])
      ==> k1 == k2 && j1 == j2
  }

  /** Members keep their input order within a group, and groups are in the
      order of their first members. */
  predicate Ordered(G: seq<seq<nat>>) {
    && (forall k, j1, j2 :: 0 <= k < |G| && 0 <= j1 < j2 < |G[k]| ==> G[k][j1] < G[k][j2])
    && (forall k1, k2 :: 0 <= k1 < k2 < |G| && |G[k1]| > 0 && |G[k2]| > 0 ==> G[k1][0] < G[k2][0])
  }

  /** Every member was refused by the first member of every earlier group,
      and, unless it opened its group, accepted by the first member of its own. */
  predicate Greedy<B>(bs: seq<B>, G: seq<seq<nat>>, ok: (B, B) -> bool)
    requires Wf(G, |bs|)
  {
    forall k, j :: 0 <= k < |G| && 0 <= j < |G[k]| ==>
      && (forall h :: 0 <= h < k ==> !ok(bs[G[k][j]], bs[G[h][0]]))
      && (j > 0 ==> ok(bs[G[k][j]], bs[G[k][0]]))
  }

  /** The step of the first-fit partition, unfolded. */
  lemma FirstFitStep<B>(bs: seq<B>, n: nat, ok: (B, B) -> bool)
    requires 0 < n <= |bs|
    ensures Wf(FirstFitUpTo(bs, n - 1, ok), |bs|)
    ensures var G0 := FirstFitUpTo(bs, n - 1, ok);
      var k := FirstMatch(Members(bs, G0), bs[n - 1], ok);
      && k <= |G0|
      && FirstFitUpTo(bs, n, ok) == Place(G0, n - 1, k)
      && (forall h :: 0 <= h < k ==> !ok(bs[n - 1], bs[G0[h][0]]))
      && (k < |G0| ==> ok(bs[n - 1], bs[G0[k][0]]))
  {
  }

  /** A property of the groups that holds with none placed and that every
      first-fit placement keeps holds of the first-fit groups. */
  lemma {:induction false} FirstFitInduction<B>(bs: seq<B>, n: nat, ok: (B, B) -> bool, inv: (seq<seq<nat>>, nat) -> bool)
    requires n <= |bs| && inv([], 0)
    requires forall G: seq<seq<nat>>, i: nat, k: nat :: i < |bs| && Wf(G, i) && Wf(G, |bs|) && k == FirstMatch(Members(bs, G), bs[i], ok) && inv(G, i)
               ==> inv(Place(G, i, k), i + 1)
    ensures inv(FirstFitUpTo(bs, n, ok), n)
    decreases n
  {
    if n > 0 {
      FirstFitInduction(bs, n - 1, ok, inv);
      var G0 := FirstFitUpTo(bs, n - 1, ok);
      assert Wf(G0, |bs|);
      var k := FirstMatch(Members(bs, G0), bs[n - 1], ok);
      assert FirstFitUpTo(bs, n, ok) == Place(G0, n - 1, k);
      assert inv(Place(G0, n - 1, k), n);
    }
  }

  /** Placing a new position `i` keeps the positions below `i` each in exactly one place. */
  lemma PlacePartition(G: seq<seq<nat>>, i: nat, k: nat)
    requires Wf(G, i) && Covers(G, i) && Distinct(G) && k <= |G|
    ensures Covers(Place(G, i, k), i + 1) && Distinct(Place(G, i, k))
  {
    var P := Place(G, i, k);
    var jn := if k < |G| then |G[k]| else 0;
    assert k < |P| && jn < |P[k]| && P[k][jn] == i;
    assert forall k1, j1 :: 0 <= k1 < |P| && 0 <= j1 < |P[k1]| ==>
      if k1 == k && j1 == jn then P[k1][j1] == i else k1 < |G| && j1 < |G[k1]| && P[k1][j1] == G[k1][j1];
    forall x | 0 <= x < i + 1
      ensures Occurs(P, x)
    {
      if x == i {
        assert P[k][jn] == x;
      } else {
        assert Occurs(G, x);
        var k1, j1 :| 0 <= k1 < |G| && 0 <= j1 < |G[k1]| && G[k1][j1] == x;
        assert P[k1][j1] == x;
      }
    }
  }

  /** Placing a position larger than all others keeps the order. */
  lemma PlaceOrdered(G: seq<seq<nat>>, i: nat, k: nat)
    requires Wf(G, i) && Ordered(G) && k <= |G|
    ensures Ordered(Place(G, i, k))
  {
    var P := Place(G, i, k);
    forall h, j1, j2 | 0 <= h < |P| && 0 <= j1 < j2 < |P[h]|
      ensures P[h][j1] < P[h][j2]
    {
      if h == k && k < |G| && j2 == |G[k]| {
        assert P[h][j1] == G[k][j1] < i;
      }
    }
    forall k1, k2 | 0 <= k1 < k2 < |P| && |P[k1]| > 0 && |P[k2]| > 0
      ensures P[k1][0] < P[k2][0]
    {
      if k2 == |G| {
        assert P[k1][0] == G[k1][0] < i;
      } else {
        assert P[k1][0] == G[k1][0] && P[k2][0] == G[k2][0];
      }
    }
  }

  /** Placing element `i` in the first group that accepts it keeps every member's placement greedy. */
  lemma PlaceGreedy<B>(bs: seq<B>, G: seq<seq<nat>>, i: nat, k: nat, ok: (B, B) -> bool)
    requires i < |bs| && Wf(G, i) && Wf(G, |bs|) && Greedy(bs, G, ok) && k <= |G|
    requires forall h :: 0 <= h < k ==> !ok(bs[i], bs[G[h][0]])
    requires k < |G| ==> ok(bs[i], bs[G[k][0]])
    ensures Wf(Place(G, i, k), |bs|)
    ensures Greedy(bs, Place(G, i, k), ok)
  {
    var P := Place(G, i, k);
    forall k1, j | 0 <= k1 < |P| && 0 <= j < |P[k1]|
      ensures forall h :: 0 <= h < k1 ==> !ok(bs[P[k1][j]], bs[P[h][0]])
      ensures j > 0 ==> ok(bs[P[k1][j]], bs[P[k1][0]])
    {
      assert forall h :: 0 <= h < k1 && h < |G| ==> P[h][0] == G[h][0];
      if k1 == k && (k == |G| || j == |G[k]|) {
        assert P[k1][j] == i;
      } else {
        assert k1 < |G| && P[k1][j] == G[k1][j];
      }
    }
  }

  /** The groups partition the positions: each position occurs exactly once. */
  lemma FirstFitPartition<B>(bs: seq<B>, n: nat, ok: (B, B) -> bool)
    requires n <= |bs|
    ensures Covers(FirstFitUpTo(bs, n, ok), n)
    ensures Distinct(FirstFitUpTo(bs, n, ok))
  {
    var inv := (G: seq<seq<nat>>, i: nat) => Covers(G, i) && Distinct(G);
    forall G: seq<seq<nat>>, i: nat, k: nat | i < |bs| && Wf(G, i) && Wf(G, |bs|) && k == FirstMatch(Members(bs, G), bs[i], ok) && inv(G, i)
      ensures inv(Place(G, i, k), i + 1)
    {
      PlacePartition(G, i, k);
    }
    assert inv([], 0);
    FirstFitInduction(bs, n, ok, inv);
  }

  /** Members keep input order inside a group; groups are ordered by their first members. */
  lemma FirstFitOrdered<B>(bs: seq<B>, n: nat, ok: (B, B) -> bool)
    requires n <= |bs|
    ensures Ordered(FirstFitUpTo(bs, n, ok))
  {
    var inv := (G: seq<seq<nat>>, i: nat) => Ordered(G);
    forall G: seq<seq<nat>>, i: nat, k: nat | i < |bs| && Wf(G, i) && Wf(G, |bs|) && k == FirstMatch(Members(bs, G), bs[i], ok) && inv(G, i)
      ensures inv(Place(G, i, k), i + 1)
    {
      PlaceOrdered(G, i, k);
    }
    assert inv([], 0);
    FirstFitInduction(bs, n, ok, inv);
  }

  /** Each element went to the first group whose first member accepted it. */
  lemma FirstFitGreedy<B>(bs: seq<B>, n: nat, ok: (B, B) -> bool)
    requires n <= |bs|
    ensures Wf(FirstFitUpTo(bs, n, ok), |bs|)
    ensures Greedy(bs, FirstFitUpTo(bs, n, ok), ok)
  {
    var inv := (G: seq<seq<nat>>, i: nat) => Wf(G, |bs|) && Greedy(bs, G, ok);
    forall G: seq<seq<nat>>, i: nat, k: nat | i < |bs| && Wf(G, i) && Wf(G, |bs|) && k == FirstMatch(Members(bs, G), bs[i], ok) && inv(G, i)
      ensures inv(Place(G, i, k), i + 1)
    {
      PlaceGreedy(bs, G, i, k, ok);
    }
    assert inv([], 0);
    FirstFitInduction(bs, n, ok, inv);
  }

  /** The groups of elements follow the groups of positions. */
  lemma MembersPlace<B>(bs: seq<B>, G: seq<seq<nat>>, i: nat, k: nat)
    requires i < |bs| && Wf(G, |bs|) && k <= |G|
    ensures Wf(Place(G, i, k), |bs|)
    ensures var M := Members(bs, G);
      Members(bs, Place(G, i, k)) == if k < |G| then M[k := M[k] + [bs[i]]] else M + [[bs[i]]]
  {
    var M := Members(bs, G);
    var P := Place(G, i, k);
    assert Wf(P, |bs|);
    var R := if k < |G| then M[k := M[k] + [bs[i]]] else M + [[bs[i]]];
    var MP := Members(bs, P);
    assert |MP| == |R|;
    forall h | 0 <= h < |R|
      ensures MP[h] == R[h]
    {
      if h == k && k < |G| {
        assert MP[h] == M[k] + [bs[i]];
      } else if h == k {
        assert MP[h] == [bs[i]];
      } else {
        assert MP[h] == M[h];
      }
    }
  }

  /** `makeGroups`: the push loop, with the search of `groups.find`. */
  method MakeGroups<B>(bindings: seq<B>, ok: (B, B) -> bool) returns (groups: seq<seq<B>>)
    ensures groups == Members(bindings, FirstFit(bindings, ok))
  {
    groups := [];
    ghost var G: seq<seq<nat>> := [];
    for i := 0 to |bindings|
      invariant G == FirstFitUpTo(bindings, i, ok)
      invariant Wf(G, |bindings|)
      invariant groups == Members(bindings, G)
    {
      groups, G := Join(bindings, ok, i, groups, G);
    }
  }

  /** One iteration: `find` the group for binding `i`, then push it there or open a new group. */
  method Join<B>(bindings: seq<B>, ok: (B, B) -> bool, i: nat, groups: seq<seq<B>>, ghost G: seq<seq<nat>>)
    returns (r: seq<seq<B>>, ghost P: seq<seq<nat>>)
    requires i < |bindings| && G == FirstFitUpTo(bindings, i, ok) && Wf(G, |bindings|)
    requires groups == Members(bindings, G)
    ensures P == FirstFitUpTo(bindings, i + 1, ok) && Wf(P, |bindings|)
    ensures r == Members(bindings, P)
  {
    FirstFitStep(bindings, i + 1, ok);
    var k := FirstMatch(groups, bindings[i], ok);
    if k < |groups| {
      r := groups[k := groups[k] + [bindings[i]]];
    } else {
      r := groups + [[bindings[i]]];
    }
    MembersPlace(bindings, G, i, k);
    P := Place(G, i, k);
  }
}
