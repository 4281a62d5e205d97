/** Python's `list.sort(key=...)` on string keys: a stable sort, so elements
    with equal keys keep their relative order. Modelled as insertion sort,
    with the three facts that pin down a stable sort proved about it. */
module Sorting {
  import opened Text

  /** The keys never decrease along `s`. */
  predicate SortedBy<T>(s: seq<T>, key: T -> string) {
    forall i, j :: 0 <= i < j < |s| ==> LessEq(key(s[i]), key(s[j]))
  }

  /** The elements of `s` whose key is `k`, in their order in `s`. */
  function WithKey<T>(s: seq<T>, key: T -> string, k: string): seq<T> {
    if s == [] then [] else (if key(s[0]) == k then [s[0]] else []) + WithKey(s[1..], key, k)
  }

  lemma SortedTail<T>(s: seq<T>, key: T -> string)
    requires SortedBy(s, key) && s != []
    ensures SortedBy(s[1..], key)
    ensures forall y :: y in s[1..] ==> LessEq(key(s[0]), key(y))
  {
    forall y | y in s[1..] ensures LessEq(key(s[0]), key(y)) {
      var j :| 0 <= j < |s[1..]| && s[1..][j] == y;
      assert s[j + 1] == y;
    }
  }

  lemma SortedCons<T>(x: T, s: seq<T>, key: T -> string)
    requires SortedBy(s, key) && forall y :: y in s ==> LessEq(key(x), key(y))
    ensures SortedBy([x] + s, key)
  {
    var r := [x] + s;
    forall i, j | 0 <= i < j < |r| ensures LessEq(key(r[i]), key(r[j])) {
      if i == 0 {
        assert r[j] == s[j - 1] && r[j] in s;
      } else {
        assert r[i] == s[i - 1] && r[j] == s[j - 1];
      }
    }
  }

  /** `x` goes in front of the first element whose key is not smaller than its own. */
  function Insert<T>(x: T, s: seq<T>, key: T -> string): (r: seq<T>)
    ensures |r| == |s| + 1
    ensures multiset(r) == multiset(s) + multiset{x}
    decreases s
  {
    if s == [] || LessEq(key(x), key(s[0])) then [x] + s
    else
      assert s == [s[0]] + s[1..];
      [s[0]] + Insert(x, s[1..], key)
  }

  lemma {:induction false} InsertSorted<T>(x: T, s: seq<T>, key: T -> string)
    requires SortedBy(s, key)
    ensures SortedBy(Insert(x, s, key), key)
    decreases s
  {
    if s == [] {
    } else if LessEq(key(x), key(s[0])) {
      SortedTail(s, key);
      forall y | y in s ensures LessEq(key(x), key(y)) {
        if y != s[0] {
          assert y in s[1..];
          LessEqTransitive(key(x), key(s[0]), key(y));
        }
      }
      SortedCons(x, s, key);
    } else {
      LessEqTotal(key(x), key(s[0]));
      SortedTail(s, key);
      InsertSorted(x, s[1..], key);
      var t := Insert(x, s[1..], key);
      forall y | y in t ensures LessEq(key(s[0]), key(y)) {
        assert y in multiset(t);
      }
      SortedCons(s[0], t, key);
    }
  }

  /** `sorted(s, key=key)`: insertion sort, from the back. */
  function SortBy<T>(s: seq<T>, key: T -> string): (r: seq<T>)
    ensures |r| == |s|
    ensures multiset(r) == multiset(s)
  {
    if s == [] then []
    else
      assert s == [s[0]] + s[1..];
      Insert(s[0], SortBy(s[1..], key), key)
  }

  /** The result is in key order. */
  lemma {:induction false} SortBySorted<T>(s: seq<T>, key: T -> string)
    ensures SortedBy(SortBy(s, key), key)
  {
    if s != [] {
      SortBySorted(s[1..], key);
      InsertSorted(s[0], SortBy(s[1..], key), key);
    }
  }

  lemma {:induction false} WithKeyInsert<T>(x: T, s: seq<T>, key: T -> string, k: string)
    ensures WithKey(Insert(x, s, key), key, k) == (if key(x) == k then [x] else []) + WithKey(s, key, k)
    decreases s
  {
    if s == [] || LessEq(key(x), key(s[0])) {
      assert ([x] + s)[1..] == s;
    } else {
      LessEqTotal(key(x), key(s[0]));
      var t := [s[0]] + Insert(x, s[1..], key);
      assert t[1..] == Insert(x, s[1..], key);
      WithKeyInsert(x, s[1..], key, k);
      var first := if key(s[0]) == k then [s[0]] else [];
      var mine := if key(x) == k then [x] else [];
      assert WithKey(t, key, k) == first + (mine + WithKey(s[1..], key, k));
      assert WithKey(s, key, k) == first + WithKey(s[1..], key, k);
      assert first == [] || mine == [];
    }
  }

  /** Stability: the elements sharing any one key come out in the order they went in. */
  lemma {:induction false} SortByStable<T>(s: seq<T>, key: T -> string, k: string)
    ensures WithKey(SortBy(s, key), key, k) == WithKey(s, key, k)
  {
    if s != [] {
      SortByStable(s[1..], key, k);
      WithKeyInsert(s[0], SortBy(s[1..], key), key, k);
    }
  }

  lemma {:induction false} WithKeyAll<T>(s: seq<T>, key: T -> string, k: string)
    requires forall i :: 0 <= i < |s| ==> key(s[i]) == k
    ensures WithKey(s, key, k) == s
  {
    if s != [] {
      WithKeyAll(s[1..], key, k);
      assert s == [s[0]] + s[1..];
    }
  }

  /** When every key is the same the sort leaves the sequence as it was. */
  lemma SortBySameKey<T>(s: seq<T>, key: T -> string, k: string)
    requires forall i :: 0 <= i < |s| ==> key(s[i]) == k
    ensures SortBy(s, key) == s
  {
    var r := SortBy(s, key);
    forall i | 0 <= i < |r| ensures key(r[i]) == k {
      assert r[i] in multiset(s);
      var j :| 0 <= j < |s| && s[j] == r[i];
    }
    WithKeyAll(s, key, k);
    WithKeyAll(r, key, k);
    SortByStable(s, key, k);
  }

  /** Two elements out of key order change places. */
  lemma SortPairSwapped<T>(x: T, y: T, key: T -> string)
    requires !LessEq(key(x), key(y))
    ensures SortBy([x, y], key) == [y, x]
  {
    assert [x, y][1..] == [y] && [y][1..] == [];
    assert SortBy([y], key) == Insert(y, [], key) == [y];
    assert Insert(x, [y], key) == [y] + Insert(x, [], key);
  }

  /** Sorting strings by themselves. */
  function Sorted(s: seq<string>): (r: seq<string>)
    ensures multiset(r) == multiset(s)
    ensures forall i, j :: 0 <= i < j < |r| ==> LessEq(r[i], r[j])
  {
    SortBySorted(s, x => x);
    SortBy(s, x => x)
  }
}
