/** Insertion-ordered dictionaries. A Python dict and a JavaScript object keep
    their keys in the order in which they were first inserted; assigning to a
    key that is already present keeps its position. */
module Dicts {
  import opened Wrappers

  datatype Entry<K, V> = Entry(key: K, val: V)
  type Dict<K, V> = seq<Entry<K, V>>

  function Keys<K, V>(d: Dict<K, V>): seq<K> {
    seq(|d|, i requires 0 <= i < |d| => d[i].key)
  }

  function Values<K, V>(d: Dict<K, V>): seq<V> {
    seq(|d|, i requires 0 <= i < |d| => d[i].val)
  }

  lemma KeysSlice<K, V>(d: Dict<K, V>, i: nat)
    requires i < |d|
    ensures Keys(d)[i..] == [d[i].key] + Keys(d)[i + 1..]
  {
  }

  lemma KeysPrepend<K, V>(x: Entry<K, V>, d: Dict<K, V>)
    ensures Keys([x] + d) == [x.key] + Keys(d)
  {
  }

  /** No key occurs twice: the invariant of every dictionary. */
  ghost predicate Unique<K(!new), V>(d: Dict<K, V>) {
    forall i, j :: 0 <= i < j < |d| ==> d[i].key != d[j].key
  }

  /** The position of the entry for `k`, if there is one. */
  function IndexOf<K(==,!new), V>(d: Dict<K, V>, k: K): (r: Option<nat>)
    ensures r.Some? ==> r.value < |d| && d[r.value].key == k
    ensures r.Some? ==> forall j :: 0 <= j < r.value ==> d[j].key != k
    ensures r.None? ==> forall j :: 0 <= j < |d| ==> d[j].key != k
  {
    if |d| == 0 then None
    else if d[0].key == k then Some(0)
    else match IndexOf(d[1..], k)
      case None => None
      case Some(i) => Some(i + 1)
  }

  /** `k in d` */
  predicate HasKey<K(==,!new), V>(d: Dict<K, V>, k: K) {
    IndexOf(d, k).Some?
  }

  /** `d.get(k)`: the value stored under `k`, if any. */
  function Get<K(==,!new), V>(d: Dict<K, V>, k: K): (r: Option<V>)
    ensures r.Some? <==> HasKey(d, k)
  {
    match IndexOf(d, k)
    case Some(i) => Some(d[i].val)
    case None => None
  }

  /** In a dictionary, every entry is what its key looks up. */
  lemma GetAt<K(!new), V>(d: Dict<K, V>, i: nat)
    requires Unique(d) && i < |d|
    ensures Get(d, d[i].key) == Some(d[i].val)
  {
  }

  lemma {:induction false} IndexOfSameKeys<K(!new), V>(d: Dict<K, V>, e: Dict<K, V>, k: K)
    requires |d| == |e| && forall j :: 0 <= j < |d| ==> d[j].key == e[j].key
    ensures IndexOf(d, k) == IndexOf(e, k)
  {
    if |d| > 0 && d[0].key != k {
      IndexOfSameKeys(d[1..], e[1..], k);
    }
  }

  lemma {:induction false} IndexOfAppend<K(!new), V>(d: Dict<K, V>, x: Entry<K, V>, k: K)
    requires x.key != k
    ensures IndexOf(d + [x], k) == IndexOf(d, k)
  {
    if |d| > 0 && d[0].key != k {
      assert (d + [x])[1..] == d[1..] + [x];
      IndexOfAppend(d[1..], x, k);
    }
  }

  lemma SameKeysEverywhere<K(!new), V>(d: Dict<K, V>, e: Dict<K, V>)
    requires |d| == |e| && forall j :: 0 <= j < |d| ==> d[j].key == e[j].key
    ensures forall k :: IndexOf(d, k) == IndexOf(e, k)
  {
    forall k ensures IndexOf(d, k) == IndexOf(e, k) { IndexOfSameKeys(d, e, k); }
  }

  lemma AppendElsewhere<K(!new), V>(d: Dict<K, V>, x: Entry<K, V>)
    requires !HasKey(d, x.key)
    ensures IndexOf(d + [x], x.key) == Some(|d|)
    ensures forall k :: k != x.key ==> IndexOf(d + [x], k) == IndexOf(d, k)
  {
    assert (d + [x])[|d|] == x;
    forall k | k != x.key ensures IndexOf(d + [x], k) == IndexOf(d, k) { IndexOfAppend(d, x, k); }
  }

  /** `d[k] = v`: an existing key keeps its position, a new key goes last. */
  function Put<K(==,!new), V>(d: Dict<K, V>, k: K, v: V): (r: Dict<K, V>)
    ensures Get(r, k) == Some(v)
    ensures forall k' :: k' != k ==> Get(r, k') == Get(d, k')
    ensures forall k' :: HasKey(r, k') <==> k' == k || HasKey(d, k')
    ensures Unique(d) ==> Unique(r)
  {
    match IndexOf(d, k)
    case Some(i) =>
      SameKeysEverywhere(d[i := Entry(k, v)], d);
      d[i := Entry(k, v)]
    case None =>
      AppendElsewhere(d, Entry(k, v));
      d + [Entry(k, v)]
  }

  /** Where `d[k] = v` puts the entry: in place of the old one, or last. */
  lemma PutShape<K(!new), V>(d: Dict<K, V>, k: K, v: V)
    ensures HasKey(d, k) ==> Put(d, k, v) == d[IndexOf(d, k).value := Entry(k, v)]
    ensures HasKey(d, k) ==> |Put(d, k, v)| == |d| && forall j :: 0 <= j < |d| ==> Put(d, k, v)[j].key == d[j].key
    ensures !HasKey(d, k) ==> Put(d, k, v) == d + [Entry(k, v)]
  {
  }

  lemma DeleteElsewhere<K(!new), V>(d: Dict<K, V>, i: nat)
    requires Unique(d) && i < |d|
    ensures Unique(d[..i] + d[i + 1..])
    ensures forall k :: k != d[i].key ==> Get(d[..i] + d[i + 1..], k) == Get(d, k)
  {
    var r := d[..i] + d[i + 1..];
    assert forall j :: 0 <= j < i ==> r[j] == d[j];
    assert forall j :: i <= j < |r| ==> r[j] == d[j + 1];
    forall k | k != d[i].key ensures Get(r, k) == Get(d, k) {
      match IndexOf(d, k)
      case Some(j) =>
        GetAt(d, j);
        if j < i { GetAt(r, j); } else { GetAt(r, j - 1); }
      case None =>
    }
  }

  /** `del d[k]` for a key that is present. */
  function Delete<K(==,!new), V>(d: Dict<K, V>, k: K): (r: Dict<K, V>)
    requires Unique(d) && HasKey(d, k)
    ensures Unique(r)
    ensures !HasKey(r, k)
    ensures forall k' :: k' != k ==> Get(r, k') == Get(d, k')
  {
    var i := IndexOf(d, k).value;
    DeleteElsewhere(d, i);
    d[..i] + d[i + 1..]
  }

  lemma HasKeyCons<K(!new), V>(e: Dict<K, V>)
    requires |e| > 0
    ensures forall k :: HasKey(e, k) <==> e[0].key == k || HasKey(e[1..], k)
  {
  }

  /** `d.update(e)`: every entry of `e` in turn is assigned into `d`. */
  function Update<K(==,!new), V>(d: Dict<K, V>, e: Dict<K, V>): (r: Dict<K, V>)
    ensures forall k :: !HasKey(e, k) ==> Get(r, k) == Get(d, k)
    ensures forall k :: HasKey(r, k) <==> HasKey(d, k) || HasKey(e, k)
    ensures Unique(d) ==> Unique(r)
    decreases |e|
  {
    if |e| == 0 then d
    else
      HasKeyCons(e);
      Update(Put(d, e[0].key, e[0].val), e[1..])
  }

  /** An assignment made by `update` that no later entry repeats is the one that stays. */
  lemma {:induction false} UpdateLastWins<K(!new), V>(d: Dict<K, V>, e: Dict<K, V>, i: nat)
    requires i < |e|
    requires forall j :: i < j < |e| ==> e[j].key != e[i].key
    ensures Get(Update(d, e), e[i].key) == Some(e[i].val)
    decreases |e|
  {
    var d' := Put(d, e[0].key, e[0].val);
    if i > 0 {
      assert e[1..][i - 1] == e[i];
      UpdateLastWins(d', e[1..], i - 1);
    }
  }

  /** A key that `e` holds takes its value from `e`, whatever `d` held. */
  lemma UpdateOverrides<K(!new), V>(d: Dict<K, V>, e: Dict<K, V>, k: K)
    requires Unique(e) && HasKey(e, k)
    ensures Get(Update(d, e), k) == Get(e, k)
  {
    var i := IndexOf(e, k).value;
    GetAt(e, i);
    UpdateLastWins(d, e, i);
  }

  /** Updating with one more entry assigns that entry last. */
  lemma {:induction false} UpdateAppend<K(!new), V>(d: Dict<K, V>, e: Dict<K, V>, x: Entry<K, V>)
    ensures Update(d, e + [x]) == Put(Update(d, e), x.key, x.val)
    decreases |e|
  {
    if |e| == 0 {
      assert e + [x] == [x] && [x][1..] == [];
    } else {
      assert (e + [x])[0] == e[0] && (e + [x])[1..] == e[1..] + [x];
      UpdateAppend(Put(d, e[0].key, e[0].val), e[1..], x);
    }
  }

  /** Assigning into the result of an update is updating with one more entry. */
  lemma PutAfterUpdate<K(!new), V>(d: Dict<K, V>, e: Dict<K, V>, k: K, v: V)
    ensures Put(Update(d, e), k, v) == Update(d, e + [Entry(k, v)])
  {
    UpdateAppend(d, e, Entry(k, v));
  }

  /** Updating with one more entry of `e` assigns that entry last. */
  lemma UpdatePrefix<K(!new), V>(d: Dict<K, V>, e: Dict<K, V>, i: nat)
    requires i < |e|
    ensures Update(d, e[..i + 1]) == Put(Update(d, e[..i]), e[i].key, e[i].val)
  {
    assert e[..i + 1] == e[..i] + [e[i]];
    UpdateAppend(d, e[..i], e[i]);
  }

  /** `d.clear(); d.update(e)` leaves exactly the entries of `e`, in order. */
  lemma {:induction false} ClearThenUpdate<K(!new), V>(e: Dict<K, V>)
    requires Unique(e)
    ensures Update([], e) == e
  {
    UpdateOntoPrefix(e, |e|);
  }

  lemma {:induction false} UpdateOntoPrefix<K(!new), V>(e: Dict<K, V>, n: nat)
    requires Unique(e) && n <= |e|
    ensures Update(e[..|e| - n], e[|e| - n..]) == e
    decreases n
  {
    if n > 0 {
      var m := |e| - n;
      assert Put(e[..m], e[m].key, e[m].val) == e[..m + 1];
      assert e[m..][1..] == e[m + 1..];
      UpdateOntoPrefix(e, n - 1);
    } else {
      assert e[..|e|] == e;
    }
  }

  /** Every entry `update` leaves comes from one of the two dictionaries. */
  lemma {:induction false} UpdateFrom<K(!new), V>(d: Dict<K, V>, e: Dict<K, V>)
    ensures forall x :: x in Update(d, e) ==> x in d || x in e
    decreases |e|
  {
    if |e| > 0 {
      var p := Put(d, e[0].key, e[0].val);
      assert forall x :: x in p ==> x in d || x == e[0];
      UpdateFrom(p, e[1..]);
      assert forall x :: x in e[1..] ==> x in e;
    }
  }

  /** Appending an entry leaves every key already present where it was. */
  lemma GetAppend<K(!new), V>(d: Dict<K, V>, x: Entry<K, V>, k: K)
    ensures Get(d + [x], k) == if HasKey(d, k) then Get(d, k) else if x.key == k then Some(x.val) else None
  {
    if x.key != k {
      IndexOfAppend(d, x, k);
    } else if HasKey(d, k) {
      IndexOfPresent(d, x, k);
    } else {
      AppendElsewhere(d, x);
    }
  }

  lemma {:induction false} IndexOfPresent<K(!new), V>(d: Dict<K, V>, x: Entry<K, V>, k: K)
    requires HasKey(d, k)
    ensures IndexOf(d + [x], k) == IndexOf(d, k)
  {
    if d[0].key != k {
      assert (d + [x])[1..] == d[1..] + [x];
      IndexOfPresent(d[1..], x, k);
    }
  }
}
