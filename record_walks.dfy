/** The binding-level decisions of storage.js around the record grammar: which
    records `serialize` writes for one list of bindings (groups first, then
    the customized bindings no written group covers), and when `deserialize`
    re-sets the item of the bindings a record stands for. */
module RecordWalks {
  import opened Wrappers
  import opened Lists
  import opened Bindings
  import opened Controller

  // ---- serialize: the records of one list ----

  /** One record of a list: a group, by its position in the result of
      `makeGroups`, or a single binding. */
  datatype Choice<T> = GroupChoice(group: nat) | BindingChoice(binding: Binding<T>)

  /** `group.members.some(g => g.port.name == b.port.name)` */
  predicate InGroup<T(==)>(group: seq<Binding<T>>, b: Binding<T>) {
    exists m :: m in group && m.port.name == b.port.name
  }

  /** The filter that drops what a written group covers. */
  function Outside<T(==)>(group: seq<Binding<T>>): Binding<T> -> bool {
    (b: Binding<T>) => !InGroup(group, b)
  }

  /** A group is written when it has more than one member, is identical and
      holds a binding that is still to be written. */
  predicate Touches<T(==)>(group: seq<Binding<T>>, remaining: seq<Binding<T>>) {
    exists r :: r in remaining && InGroup(group, r)
  }

  /** The groups written and the bindings still remaining after the loop has
      looked at the first `n` groups, with `same` the test `identical`, which may throw. */
  function Pass<T(==)>(groups: seq<seq<Binding<T>>>, remaining: seq<Binding<T>>, n: nat, same: seq<Binding<T>> -> Result<bool>): (r: Result<(seq<nat>, seq<Binding<T>>)>)
    requires n <= |groups|
    ensures r.Ok? ==> forall i :: 0 <= i < |r.value.0| ==> r.value.0[i] < n
  {
    if n == 0 then Ok(([], remaining))
    else match Pass(groups, remaining, n - 1, same)
      case Err(e) => Err(e)
      case Ok((chosen, rest)) =>
        var g := groups[n - 1];
        if |g| <= 1 then Ok((chosen, rest))
        else match same(g)
          case Err(e) => Err(e)
          case Ok(isSame) =>
            if isSame && Touches(g, rest) then Ok((chosen + [n - 1], Filter(rest, Outside(g))))
            else Ok((chosen, rest))
  }

  /** The group records for the written groups, in order. */
  function GroupChoices<T>(chosen: seq<nat>): (r: seq<Choice<T>>)
    ensures |r| == |chosen| && forall i :: 0 <= i < |r| ==> r[i] == GroupChoice(chosen[i])
  {
    if chosen == [] then [] else GroupChoices(chosen[..|chosen| - 1]) + [GroupChoice(chosen[|chosen| - 1])]
  }

  /** The binding records for the remaining bindings, in order. */
  function BindingChoices<T>(rest: seq<Binding<T>>): (r: seq<Choice<T>>)
    ensures |r| == |rest| && forall i :: 0 <= i < |r| ==> r[i] == BindingChoice(rest[i])
  {
    if rest == [] then [] else BindingChoices(rest[..|rest| - 1]) + [BindingChoice(rest[|rest| - 1])]
  }

  /** The records `walk` writes for one list: the written groups, then the remaining bindings. */
  function Records<T(==)>(groups: seq<seq<Binding<T>>>, remaining: seq<Binding<T>>, same: seq<Binding<T>> -> Result<bool>): (r: Result<seq<Choice<T>>>)
    ensures r.Ok? ==> forall i :: 0 <= i < |r.value| && r.value[i].GroupChoice? ==> r.value[i].group < |groups|
  {
    match Pass(groups, remaining, |groups|, same)
    case Err(e) => Err(e)
    case Ok((chosen, rest)) => Ok(GroupChoices(chosen) + BindingChoices(rest))
  }

  lemma {:induction false} PassErrStays<T>(groups: seq<seq<Binding<T>>>, remaining: seq<Binding<T>>, n: nat, m: nat, same: seq<Binding<T>> -> Result<bool>)
    requires n <= m <= |groups| && Pass(groups, remaining, n, same).Err?
    ensures Pass(groups, remaining, m, same) == Pass(groups, remaining, n, same)
    decreases m
  {
    if m > n {
      PassErrStays(groups, remaining, n, m - 1, same);
    }
  }

  /** The two loops of `walk` that choose its records, given `makeGroups` of
      the list as `groups` and the customized bindings with a projected type
      as `remaining`. The count it writes is the number of records. */
  method SelectRecords<T(==)>(groups: seq<seq<Binding<T>>>, remaining: seq<Binding<T>>) returns (r: Result<seq<Choice<T>>>)
    ensures r == Records(groups, remaining, Identical)
  {
    var pass := WriteGroups(groups, remaining, Identical);
    if pass.Err? {
      return Err(pass.error);
    }
    var (records, rest) := pass.value;
    for i := 0 to |rest|
      invariant records == pass.value.0 + BindingChoices(rest[..i])
    {
      assert rest[..i + 1][..i] == rest[..i];
      records := records + [BindingChoice(rest[i])];
    }
    assert rest[..|rest|] == rest;
    r := Ok(records);
  }

  /** The loop of `walk` over the groups with more than one member: the group
      records it writes and the bindings that remain. */
  method WriteGroups<T(==)>(groups: seq<seq<Binding<T>>>, remaining: seq<Binding<T>>, same: seq<Binding<T>> -> Result<bool>)
      returns (r: Result<(seq<Choice<T>>, seq<Binding<T>>)>)
    ensures (match Pass(groups, remaining, |groups|, same)
      case Err(e) => r == Err(e)
      case Ok((chosen, rest)) => r == Ok((GroupChoices(chosen), rest)))
  {
    var chosen: seq<nat> := [];
    var records: seq<Choice<T>> := [];
    var rest := remaining;
    for i := 0 to |groups|
      invariant Pass(groups, remaining, i, same) == Ok((chosen, rest))
      invariant records == GroupChoices(chosen)
    {
      var step := VisitGroup(groups, remaining, i, chosen, records, rest, same);
      if step.Err? {
        PassErrStays(groups, remaining, i + 1, |groups|, same);
        return Err(step.error);
      }
      chosen, records, rest := step.value.0, step.value.1, step.value.2;
    }
    r := Ok((records, rest));
  }

  /** The body of the loop over the groups, for group `i`. */
  method VisitGroup<T(==)>(groups: seq<seq<Binding<T>>>, remaining: seq<Binding<T>>, i: nat,
                           chosen: seq<nat>, records: seq<Choice<T>>, rest: seq<Binding<T>>,
                           same: seq<Binding<T>> -> Result<bool>)
      returns (r: Result<(seq<nat>, seq<Choice<T>>, seq<Binding<T>>)>)
    requires i < |groups| && Pass(groups, remaining, i, same) == Ok((chosen, rest)) && records == GroupChoices(chosen)
    ensures r.Err? ==> Pass(groups, remaining, i + 1, same) == Err(r.error)
    ensures r.Ok? ==> Pass(groups, remaining, i + 1, same) == Ok((r.value.0, r.value.2)) && r.value.1 == GroupChoices(r.value.0)
  {
    var g := groups[i];
    PassNext(groups, remaining, i, chosen, rest, same);
    if |g| > 1 {
      var identical := same(g);
      if identical.Err? {
        return Err(identical.error);
      }
      if identical.value && Touches(g, rest) {
        GroupChoicesSnoc<T>(chosen, i);
        return Ok((chosen + [i], records + [GroupChoice(i)], Filter(rest, Outside(g))));
      }
    }
    return Ok((chosen, records, rest));
  }

  lemma PassNext<T>(groups: seq<seq<Binding<T>>>, remaining: seq<Binding<T>>, i: nat, chosen: seq<nat>, rest: seq<Binding<T>>, same: seq<Binding<T>> -> Result<bool>)
    requires i < |groups| && Pass(groups, remaining, i, same) == Ok((chosen, rest))
    ensures var g := groups[i];
      Pass(groups, remaining, i + 1, same) ==
        if |g| <= 1 then Ok((chosen, rest))
        else (match same(g)
          case Err(e) => Err(e)
          case Ok(isSame) =>
            if isSame && Touches(g, rest) then Ok((chosen + [i], Filter(rest, Outside(g))))
            else Ok((chosen, rest)))
  {
  }

  lemma GroupChoicesSnoc<T>(chosen: seq<nat>, i: nat)
    ensures GroupChoices<T>(chosen + [i]) == GroupChoices<T>(chosen) + [GroupChoice(i)]
  {
    assert (chosen + [i])[..|chosen|] == chosen;
  }

  /** Port names of a list of bindings are pairwise different. */
  predicate DistinctPorts<T(==)>(bs: seq<Binding<T>>) {
    forall i, j :: 0 <= i < j < |bs| ==> bs[i].port.name != bs[j].port.name
  }

  lemma {:induction false} FilterDistinctPorts<T>(bs: seq<Binding<T>>, p: Binding<T> -> bool)
    requires DistinctPorts(bs)
    ensures DistinctPorts(Filter(bs, p))
  {
    if bs != [] {
      FilterDistinctPorts(bs[1..], p);
      var tail := Filter(bs[1..], p);
      forall x | x in tail ensures x.port.name != bs[0].port.name {
        var k :| 0 <= k < |bs[1..]| && bs[1..][k] == x;
        assert bs[k + 1] == x;
      }
    }
  }

  /** What the loop over the groups keeps: the written groups in increasing
      order, each with more than one member and identical, and the
      remaining bindings drawn from the input, none in a written group. */
  lemma {:induction false} PassKeeps<T>(groups: seq<seq<Binding<T>>>, remaining: seq<Binding<T>>, n: nat, same: seq<Binding<T>> -> Result<bool>)
    requires n <= |groups| && Pass(groups, remaining, n, same).Ok?
    ensures var (chosen, rest) := Pass(groups, remaining, n, same).value;
      && (forall i, j :: 0 <= i < j < |chosen| ==> chosen[i] < chosen[j])
      && (forall i :: 0 <= i < |chosen| ==> chosen[i] < n && |groups[chosen[i]]| > 1 && same(groups[chosen[i]]) == Ok(true))
      && (forall x :: x in rest ==> x in remaining)
      && (forall x, i :: x in rest && 0 <= i < |chosen| ==> !InGroup(groups[chosen[i]], x))
      && (DistinctPorts(remaining) ==> DistinctPorts(rest))
  {
    if n > 0 {
      PassKeeps(groups, remaining, n - 1, same);
      var (chosen, rest) := Pass(groups, remaining, n - 1, same).value;
      var g := groups[n - 1];
      if |g| > 1 && same(g) == Ok(true) && Touches(g, rest) {
        if DistinctPorts(rest) {
          FilterDistinctPorts(rest, Outside(g));
        }
      }
    }
  }

  /** Every customized binding is written: it remains, or a written group covers it. */
  lemma {:induction false} PassCovers<T>(groups: seq<seq<Binding<T>>>, remaining: seq<Binding<T>>, n: nat, x: Binding<T>, same: seq<Binding<T>> -> Result<bool>)
    requires n <= |groups| && Pass(groups, remaining, n, same).Ok? && x in remaining
    ensures var (chosen, rest) := Pass(groups, remaining, n, same).value;
      x in rest || exists i :: 0 <= i < |chosen| && InGroup(groups[chosen[i]], x)
  {
    if n > 0 {
      PassCovers(groups, remaining, n - 1, x, same);
      var (chosen, rest) := Pass(groups, remaining, n - 1, same).value;
      var g := groups[n - 1];
      if |g| > 1 && same(g) == Ok(true) && Touches(g, rest) && x in rest && x !in Filter(rest, Outside(g)) {
        var chosen' := chosen + [n - 1];
        assert chosen'[|chosen|] == n - 1;
      } else if exists i :: 0 <= i < |chosen| && InGroup(groups[chosen[i]], x) {
        var i :| 0 <= i < |chosen| && InGroup(groups[chosen[i]], x);
        if |g| > 1 && same(g) == Ok(true) && Touches(g, rest) {
          assert (chosen + [n - 1])[i] == chosen[i];
        }
      }
    }
  }

  /** Where each record of a list comes from. */
  lemma RecordsAt<T>(groups: seq<seq<Binding<T>>>, remaining: seq<Binding<T>>, i: nat, same: seq<Binding<T>> -> Result<bool>)
    requires Records(groups, remaining, same).Ok? && i < |Records(groups, remaining, same).value|
    ensures var (chosen, rest) := Pass(groups, remaining, |groups|, same).value;
      var records := Records(groups, remaining, same).value;
      && |records| == |chosen| + |rest|
      && (i < |chosen| ==> records[i] == GroupChoice(chosen[i]))
      && (i >= |chosen| ==> records[i] == BindingChoice(rest[i - |chosen|]))
  {
  }

  /** No group is written twice in one list. */
  lemma GroupsWrittenOnce<T>(groups: seq<seq<Binding<T>>>, remaining: seq<Binding<T>>, i: nat, j: nat, same: seq<Binding<T>> -> Result<bool>)
    requires Records(groups, remaining, same).Ok?
    requires var records := Records(groups, remaining, same).value;
      i < j < |records| && records[i].GroupChoice? && records[j].GroupChoice?
    ensures Records(groups, remaining, same).value[i].group != Records(groups, remaining, same).value[j].group
  {
    PassKeeps(groups, remaining, |groups|, same);
    RecordsAt(groups, remaining, i, same);
    RecordsAt(groups, remaining, j, same);
  }

  /** No binding record's port belongs to a group written in the same list. */
  lemma BindingsOutsideGroups<T>(groups: seq<seq<Binding<T>>>, remaining: seq<Binding<T>>, i: nat, j: nat, same: seq<Binding<T>> -> Result<bool>)
    requires Records(groups, remaining, same).Ok?
    requires var records := Records(groups, remaining, same).value;
      i < |records| && j < |records| && records[i].GroupChoice? && records[j].BindingChoice?
    ensures var records := Records(groups, remaining, same).value;
      !InGroup(groups[records[i].group], records[j].binding)
  {
    var (chosen, rest) := Pass(groups, remaining, |groups|, same).value;
    RecordsAt(groups, remaining, i, same);
    RecordsAt(groups, remaining, j, same);
    PassOutside(groups, remaining, same, i, j - |chosen|);
  }

  lemma PassOutside<T>(groups: seq<seq<Binding<T>>>, remaining: seq<Binding<T>>, same: seq<Binding<T>> -> Result<bool>, k: nat, m: nat)
    requires Pass(groups, remaining, |groups|, same).Ok?
    requires var (chosen, rest) := Pass(groups, remaining, |groups|, same).value; k < |chosen| && m < |rest|
    ensures var (chosen, rest) := Pass(groups, remaining, |groups|, same).value; !InGroup(groups[chosen[k]], rest[m])
  {
    var (chosen, rest) := Pass(groups, remaining, |groups|, same).value;
    PassKeeps(groups, remaining, |groups|, same);
    assert rest[m] in rest;
  }

  /** When the list's bindings have different ports, so do its binding records. */
  lemma BindingsWrittenOnce<T>(groups: seq<seq<Binding<T>>>, remaining: seq<Binding<T>>, i: nat, j: nat, same: seq<Binding<T>> -> Result<bool>)
    requires Records(groups, remaining, same).Ok? && DistinctPorts(remaining)
    requires var records := Records(groups, remaining, same).value;
      i < j < |records| && records[i].BindingChoice? && records[j].BindingChoice?
    ensures var records := Records(groups, remaining, same).value;
      records[i].binding.port.name != records[j].binding.port.name
  {
    PassKeeps(groups, remaining, |groups|, same);
    RecordsAt(groups, remaining, i, same);
    RecordsAt(groups, remaining, j, same);
  }

  /** Every customized binding of the list is written: as a binding record, or
      within a written group. */
  lemma EveryCustomizedWritten<T>(groups: seq<seq<Binding<T>>>, remaining: seq<Binding<T>>, x: Binding<T>, same: seq<Binding<T>> -> Result<bool>)
    requires Records(groups, remaining, same).Ok? && x in remaining
    ensures var records := Records(groups, remaining, same).value;
      exists i :: (0 <= i < |records| &&
        (records[i] == BindingChoice(x) || (records[i].GroupChoice? && InGroup(groups[records[i].group], x))))
  {
    var (chosen, rest) := Pass(groups, remaining, |groups|, same).value;
    PassCovers(groups, remaining, |groups|, x, same);
    if x in rest {
      var k :| 0 <= k < |rest| && rest[k] == x;
      RecordsAt(groups, remaining, |chosen| + k, same);
    } else {
      var k :| 0 <= k < |chosen| && InGroup(groups[chosen[k]], x);
      RecordsAt(groups, remaining, k, same);
    }
  }

  // ---- deserialize: setting the decoded item ----

  /** The bindings a record stands for after its item is applied: untouched
      when every one of them already holds the decoded item, otherwise each
      given to `setItem`. */
  function ApplyItem<T(==)>(bindings: seq<Binding<T>>, itemName: Option<string>,
                        setItem: (Binding<T>, Option<string>) -> Binding<T>): (r: seq<Binding<T>>)
    ensures |r| == |bindings|
  {
    if forall b :: b in bindings ==> ItemName(b) == itemName then bindings
    else seq(|bindings|, i requires 0 <= i < |bindings| => setItem(bindings[i], itemName))
  }

  /** After applying, every binding holds the decoded item (when `setItem`
      installs the name it is given); when every binding already holds it,
      none is touched, children included. */
  lemma ApplyItemSets<T>(bindings: seq<Binding<T>>, itemName: Option<string>,
                         setItem: (Binding<T>, Option<string>) -> Binding<T>)
    requires forall b :: ItemName(setItem(b, itemName)) == itemName
    ensures forall i :: 0 <= i < |bindings| ==> ItemName(ApplyItem(bindings, itemName, setItem)[i]) == itemName
    ensures (forall i :: 0 <= i < |bindings| ==> ItemName(bindings[i]) == itemName) ==>
      ApplyItem(bindings, itemName, setItem) == bindings
  {
    if forall i :: 0 <= i < |bindings| ==> ItemName(bindings[i]) == itemName {
      assert forall b :: b in bindings ==> ItemName(b) == itemName;
    }
  }

  /** Decoding the same record twice changes nothing the second time. */
  lemma ApplyItemIdempotent<T>(bindings: seq<Binding<T>>, itemName: Option<string>,
                               setItem: (Binding<T>, Option<string>) -> Binding<T>)
    requires forall b :: ItemName(setItem(b, itemName)) == itemName
    ensures ApplyItem(ApplyItem(bindings, itemName, setItem), itemName, setItem) == ApplyItem(bindings, itemName, setItem)
  {
    var once := ApplyItem(bindings, itemName, setItem);
    ApplyItemSets(bindings, itemName, setItem);
    assert forall b :: b in once ==> ItemName(b) == itemName;
  }
}
