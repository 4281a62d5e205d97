/** `walk_parts`, as scripts/vehicle.py and next/scripts/factory/vehicle.py
    write it: the recursive walk over a vehicle's part tree that sums part
    damage, records critical parts, counts control seats and lists item ports
    in pre-order. What each part contributes is worked out by a per-version
    function; the walk, its accumulators and the pre-order are shared here. */
module VehicleWalk {
  import opened Wrappers
  import opened Dicts
  import opened Text
  import opened Py
  import opened TreeStore
  import opened ItemPort
  import opened Sorting

  lemma SingleSmaller(node: Json, key: string)
    requires SingleOf(node, key).Ok? && SingleOf(node, key).value != Null
    ensures SingleOf(node, key).value < node
  {
    var i := IndexOf(node.fields, key).value;
    assert node.fields[i] in node.fields;
  }

  lemma IndexSmaller(j: Json, k: string)
    requires Index(j, k).Ok?
    ensures Index(j, k).value < j
  {
    var i := IndexOf(j.fields, k).value;
    assert j.fields[i] in j.fields;
  }

  lemma GetDefaultSmaller(j: Json, k: string, default: Json)
    requires GetDefault(j, k, default).Ok? && HasKey(j.fields, k)
    ensures GetDefault(j, k, default).value < j
  {
    var i := IndexOf(j.fields, k).value;
    assert j.fields[i] in j.fields;
  }

  /** Only the items of a list can be dicts among what iterating a value yields. */
  lemma IterateSmaller(j: Json, i: nat)
    requires Iterate(j).Ok? && i < |Iterate(j).value| && Iterate(j).value[i].Obj?
    ensures Iterate(j).value[i] < j
  {
  }

  /** `container.single("parts")["part"]`, iterated; nothing when there is no `parts` child. */
  function PartList(c: Json): (r: Result<seq<Json>>)
    ensures r.Ok? ==> forall i :: 0 <= i < |r.value| && r.value[i].Obj? ==> r.value[i] < c
  {
    var holder :- SingleOf(c, "parts");
    if !Truthy(holder) then Ok([])
    else
      var list :- Index(holder, "part");
      var items :- Iterate(list);
      SingleSmaller(c, "parts");
      IndexSmaller(holder, "part");
      assert forall i :: 0 <= i < |items| && items[i].Obj? ==> items[i] < list by {
        forall i | 0 <= i < |items| && items[i].Obj? ensures items[i] < list { IterateSmaller(list, i); }
      }
      Ok(items)
  }

  /** Every part under `c`, in pre-order: each part, then the parts under it, then its later siblings. */
  function Parts(c: Json): (r: Result<seq<Json>>)
    decreases c, 1
  {
    var ps :- PartList(c);
    PartsFrom(c, ps, 0)
  }

  function PartsFrom(c: Json, ps: seq<Json>, i: nat): (r: Result<seq<Json>>)
    requires PartList(c) == Ok(ps) && i <= |ps|
    decreases c, 0, |ps| - i
  {
    if i == |ps| then Ok([])
    else if !ps[i].Obj? then Err(AttributeError)
    else
      var below :- Parts(ps[i]);
      var rest :- PartsFrom(c, ps, i + 1);
      Ok([ps[i]] + below + rest)
  }

  /** What one part adds to the walk: its damage, the key under which it is
      recorded as critical (if it is), its port (if it has one) and whether
      that port is a control seat. */
  datatype PartFacts<P> = PartFacts(damage: int, critical: Option<Json>, port: Option<P>, seat: bool)

  /** The facts of every part under `c` in the order the walk meets them; the
      first failure, in that order, is the walk's failure. */
  function Facts<P>(c: Json, process: Json -> Result<PartFacts<P>>): (r: Result<seq<PartFacts<P>>>)
    decreases c, 1
  {
    var ps :- PartList(c);
    FactsFrom(c, ps, 0, process)
  }

  function FactsFrom<P>(c: Json, ps: seq<Json>, i: nat, process: Json -> Result<PartFacts<P>>): (r: Result<seq<PartFacts<P>>>)
    requires PartList(c) == Ok(ps) && i <= |ps|
    decreases c, 0, |ps| - i
  {
    if i == |ps| then Ok([])
    else if !ps[i].Obj? then Err(AttributeError)
    else
      var f :- process(ps[i]);
      var below :- Facts(ps[i], process);
      var rest :- FactsFrom(c, ps, i + 1, process);
      Ok([f] + below + rest)
  }

  /** The walk visits exactly the parts of the pre-order, each once, and
      succeeds exactly when every part's own processing does. */
  lemma {:induction false} FactsArePartsFacts<P>(c: Json, process: Json -> Result<PartFacts<P>>)
    ensures Facts(c, process).Ok? <==>
      Parts(c).Ok? && forall k :: 0 <= k < |Parts(c).value| ==> process(Parts(c).value[k]).Ok?
    ensures Facts(c, process).Ok? ==>
      && |Facts(c, process).value| == |Parts(c).value|
      && forall k :: 0 <= k < |Parts(c).value| ==> process(Parts(c).value[k]) == Ok(Facts(c, process).value[k])
    decreases c, 1
  {
    match PartList(c)
    case Err(_) =>
    case Ok(ps) => FactsFromArePartsFacts(c, ps, 0, process);
  }

  lemma {:induction false} FactsFromArePartsFacts<P>(c: Json, ps: seq<Json>, i: nat, process: Json -> Result<PartFacts<P>>)
    requires PartList(c) == Ok(ps) && i <= |ps|
    ensures FactsFrom(c, ps, i, process).Ok? <==>
      PartsFrom(c, ps, i).Ok? && forall k :: 0 <= k < |PartsFrom(c, ps, i).value| ==> process(PartsFrom(c, ps, i).value[k]).Ok?
    ensures FactsFrom(c, ps, i, process).Ok? ==>
      && |FactsFrom(c, ps, i, process).value| == |PartsFrom(c, ps, i).value|
      && forall k :: 0 <= k < |PartsFrom(c, ps, i).value| ==>
           process(PartsFrom(c, ps, i).value[k]) == Ok(FactsFrom(c, ps, i, process).value[k])
    decreases c, 0, |ps| - i
  {
    if i < |ps| && ps[i].Obj? {
      var p := ps[i];
      FactsArePartsFacts(p, process);
      FactsFromArePartsFacts(c, ps, i + 1, process);
      if Parts(p).Ok? && PartsFrom(c, ps, i + 1).Ok? {
        var below := Parts(p).value;
        var rest := PartsFrom(c, ps, i + 1).value;
        assert PartsFrom(c, ps, i) == Ok([p] + below + rest);
        assert FactsFrom(c, ps, i, process) == JoinFacts(process(p), Facts(p, process), FactsFrom(c, ps, i + 1, process));
        MatchesJoin(process, p, below, rest, Facts(p, process), FactsFrom(c, ps, i + 1, process));
      }
    }
  }

  /** `r` is what processing each of `parts` in turn gives: a failure exactly
      when some part fails, and otherwise one fact per part. */
  ghost predicate Matches<P>(process: Json -> Result<PartFacts<P>>, parts: seq<Json>, r: Result<seq<PartFacts<P>>>) {
    && (r.Ok? <==> forall k :: 0 <= k < |parts| ==> process(parts[k]).Ok?)
    && (r.Ok? ==> |r.value| == |parts| && forall k :: 0 <= k < |parts| ==> process(parts[k]) == Ok(r.value[k]))
  }

  /** One fact in front of two runs of facts, or the first failure among them. */
  function JoinFacts<T>(a: Result<T>, b: Result<seq<T>>, c: Result<seq<T>>): Result<seq<T>> {
    var x :- a;
    var y :- b;
    var z :- c;
    Ok([x] + y + z)
  }

  /** A part in front of the parts under it and its later siblings: the facts join in the same order. */
  lemma MatchesJoin<P>(process: Json -> Result<PartFacts<P>>, p: Json, below: seq<Json>, rest: seq<Json>,
                       rb: Result<seq<PartFacts<P>>>, rr: Result<seq<PartFacts<P>>>)
    requires Matches(process, below, rb) && Matches(process, rest, rr)
    ensures Matches(process, [p] + below + rest, JoinFacts(process(p), rb, rr))
  {
    var all := [p] + below + rest;
    assert all[0] == p;
    assert forall k :: 0 <= k < |below| ==> all[1 + k] == below[k];
    assert forall k :: 0 <= k < |rest| ==> all[1 + |below| + k] == rest[k];
    if process(p).Err? {
    } else if rb.Err? {
      var k :| 0 <= k < |below| && !process(below[k]).Ok?;
      assert !process(all[1 + k]).Ok?;
    } else if rr.Err? {
      var k :| 0 <= k < |rest| && !process(rest[k]).Ok?;
      assert !process(all[1 + |below| + k]).Ok?;
    } else {
      var fb := rb.value;
      var fr := rr.value;
      var fall := [process(p).value] + fb + fr;
      assert forall k :: 0 <= k < |fb| ==> fall[1 + k] == fb[k];
      assert forall k :: 0 <= k < |fr| ==> fall[1 + |fb| + k] == fr[k];
      forall k | 0 <= k < |all| ensures process(all[k]) == Ok(fall[k]) {
        if k == 0 {
        } else if k < 1 + |below| {
          assert all[k] == below[k - 1] && fall[k] == fb[k - 1];
        } else {
          assert all[k] == rest[k - 1 - |below|] && fall[k] == fr[k - 1 - |below|];
        }
      }
    }
  }

  /** The damage of every part, summed. */
  function DamageSum<P>(fs: seq<PartFacts<P>>): int {
    if fs == [] then 0 else DamageSum(fs[..|fs| - 1]) + fs[|fs| - 1].damage
  }

  /** The ports, in the order of the parts that carry them. */
  function PortsOf<P>(fs: seq<PartFacts<P>>): (r: seq<P>)
    ensures |r| <= |fs|
  {
    if fs == [] then [] else PortsOf(fs[..|fs| - 1]) + (if fs[|fs| - 1].port.Some? then [fs[|fs| - 1].port.value] else [])
  }

  /** How many parts carry a control seat. */
  function SeatCount<P>(fs: seq<PartFacts<P>>): nat {
    if fs == [] then 0 else SeatCount(fs[..|fs| - 1]) + (if fs[|fs| - 1].seat then 1 else 0)
  }

  /** `critical_part_damage[name] = damage` for each critical part in turn. */
  function CriticalOf<P>(d: Dict<Json, int>, fs: seq<PartFacts<P>>): (r: Dict<Json, int>)
  {
    if fs == [] then d
    else
      var before := CriticalOf(d, fs[..|fs| - 1]);
      var f := fs[|fs| - 1];
      if f.critical.Some? then Put(before, f.critical.value, f.damage) else before
  }

  lemma {:induction false} AccumulateAppend<P>(d: Dict<Json, int>, a: seq<PartFacts<P>>, b: seq<PartFacts<P>>)
    ensures DamageSum(a + b) == DamageSum(a) + DamageSum(b)
    ensures PortsOf(a + b) == PortsOf(a) + PortsOf(b)
    ensures SeatCount(a + b) == SeatCount(a) + SeatCount(b)
    ensures CriticalOf(d, a + b) == CriticalOf(CriticalOf(d, a), b)
    decreases |b|
  {
    if b == [] {
      assert a + b == a;
    } else {
      var n := |b| - 1;
      assert (a + b)[..|a + b| - 1] == a + b[..n];
      assert (a + b)[|a + b| - 1] == b[n];
      AccumulateAppend(d, a, b[..n]);
    }
  }

  /** A part counts as a control seat only through its port, so there are no more
      seats than ports. */
  lemma {:induction false} SeatsAtMostPorts<P>(fs: seq<PartFacts<P>>)
    requires forall i :: 0 <= i < |fs| ==> fs[i].seat ==> fs[i].port.Some?
    ensures SeatCount(fs) <= |PortsOf(fs)|
    decreases |fs|
  {
    if fs != [] {
      var n := |fs| - 1;
      assert forall i :: 0 <= i < n ==> fs[..n][i] == fs[i];
      SeatsAtMostPorts(fs[..n]);
    }
  }

  /** Every port the walk returns is the port of one of its parts. */
  lemma {:induction false} PortsFromParts<P>(fs: seq<PartFacts<P>>, j: nat)
    requires j < |PortsOf(fs)|
    ensures exists i :: 0 <= i < |fs| && fs[i].port == Some(PortsOf(fs)[j])
    decreases |fs|
  {
    var n := |fs| - 1;
    var before := PortsOf(fs[..n]);
    if j < |before| {
      PortsFromParts(fs[..n], j);
      var i :| 0 <= i < n && fs[..n][i].port == Some(before[j]);
      assert fs[i] == fs[..n][i];
    } else {
      assert fs[n].port == Some(PortsOf(fs)[j]);
    }
  }

  /** Every value of the dict is positive. */
  predicate AllPositive(d: Dict<Json, int>) {
    forall j :: 0 <= j < |d| ==> d[j].val > 0
  }

  /** Parts are recorded as critical only with a positive damage, so every recorded damage is positive. */
  lemma {:induction false} CriticalPositive<P>(d: Dict<Json, int>, fs: seq<PartFacts<P>>)
    requires AllPositive(d)
    requires forall i :: 0 <= i < |fs| ==> fs[i].critical.Some? ==> fs[i].damage > 0
    ensures AllPositive(CriticalOf(d, fs))
    decreases |fs|
  {
    if fs != [] {
      var n := |fs| - 1;
      assert forall i :: 0 <= i < n ==> fs[..n][i] == fs[i];
      CriticalPositive(d, fs[..n]);
    }
  }

  /** A key of the critical-part dict is one some part was recorded under. */
  lemma {:induction false} CriticalKeys<P>(fs: seq<PartFacts<P>>, k: Json)
    ensures HasKey(CriticalOf([], fs), k) <==> exists i :: 0 <= i < |fs| && fs[i].critical == Some(k)
    decreases |fs|
  {
    if fs != [] {
      var n := |fs| - 1;
      assert forall i :: 0 <= i < n ==> fs[..n][i] == fs[i];
      CriticalKeys(fs[..n], k);
      var before := CriticalOf([], fs[..n]);
      if fs[n].critical.Some? {
        assert Get(Put(before, fs[n].critical.value, fs[n].damage), k).Some? <==> Get(before, k).Some? || fs[n].critical.value == k;
      }
    }
  }

  /** The damage of every part, in walk order, is what the walk sums. */
  lemma {:induction false} DamageSumOf<P>(fs: seq<PartFacts<P>>, ds: seq<int>)
    requires |fs| == |ds| && forall i :: 0 <= i < |fs| ==> fs[i].damage == ds[i]
    ensures DamageSum(fs) == Sum(ds)
    decreases |fs|
  {
    if fs != [] {
      var n := |fs| - 1;
      assert forall i :: 0 <= i < n ==> fs[..n][i] == fs[i];
      DamageSumOf(fs[..n], ds[..n]);
    }
  }

  function Sum(xs: seq<int>): int {
    if xs == [] then 0 else Sum(xs[..|xs| - 1]) + xs[|xs| - 1]
  }

  /** The facts a walk has seen so far, in front of what the rest of the walk yields. */
  function Prefixed<T>(done: seq<T>, rest: Result<seq<T>>): Result<seq<T>> {
    match rest
    case Ok(xs) => Ok(done + xs)
    case Err(e) => Err(e)
  }

  lemma AccumulateOne<P>(d: Dict<Json, int>, a: seq<PartFacts<P>>, f: PartFacts<P>)
    ensures DamageSum(a + [f]) == DamageSum(a) + f.damage
    ensures PortsOf(a + [f]) == PortsOf(a) + (if f.port.Some? then [f.port.value] else [])
    ensures SeatCount(a + [f]) == SeatCount(a) + (if f.seat then 1 else 0)
    ensures CriticalOf(d, a + [f]) == if f.critical.Some? then Put(CriticalOf(d, a), f.critical.value, f.damage) else CriticalOf(d, a)
  {
    assert (a + [f])[..|a|] == a;
  }

  /** Before the first part nothing has been seen and the whole walk is ahead. */
  lemma WalkEntry<P>(c: Json, ps: seq<Json>, process: Json -> Result<PartFacts<P>>)
    requires PartList(c) == Ok(ps)
    ensures Prefixed([], FactsFrom(c, ps, 0, process)) == Facts(c, process)
  {
    var rest := FactsFrom(c, ps, 0, process);
    if rest.Ok? { assert [] + rest.value == rest.value; }
  }

  /** The facts one part contributes: its own, then those of the parts under it. */
  function PartWalk<P>(part: Json, process: Json -> Result<PartFacts<P>>): Result<seq<PartFacts<P>>> {
    var f :- process(part);
    var below :- Facts(part, process);
    Ok([f] + below)
  }

  /** A part that cannot be walked is the failure of the whole walk. */
  lemma WalkFails<P>(c: Json, ps: seq<Json>, i: nat, process: Json -> Result<PartFacts<P>>, seen: seq<PartFacts<P>>)
    requires PartList(c) == Ok(ps) && i < |ps|
    requires Prefixed(seen, FactsFrom(c, ps, i, process)) == Facts(c, process)
    ensures !ps[i].Obj? ==> Facts(c, process) == Err(AttributeError)
    ensures ps[i].Obj? && PartWalk(ps[i], process).Err? ==> Facts(c, process) == Err(PartWalk(ps[i], process).error)
  {
  }

  /** A part walked: its facts, then those of the parts under it, join the seen ones. */
  lemma WalkStep<P>(c: Json, ps: seq<Json>, i: nat, process: Json -> Result<PartFacts<P>>,
                    seen: seq<PartFacts<P>>, fs: seq<PartFacts<P>>)
    requires PartList(c) == Ok(ps) && i < |ps| && ps[i].Obj?
    requires PartWalk(ps[i], process) == Ok(fs)
    requires Prefixed(seen, FactsFrom(c, ps, i, process)) == Facts(c, process)
    ensures Prefixed(seen + fs, FactsFrom(c, ps, i + 1, process)) == Facts(c, process)
  {
    var rest := FactsFrom(c, ps, i + 1, process);
    if rest.Ok? {
      assert seen + (fs + rest.value) == (seen + fs) + rest.value;
    }
  }

  /** The accumulators `walk_parts` updates through `nonlocal`, and the function
      that works out what one part contributes. */
  class Walker<P> {
    const process: Json -> Result<PartFacts<P>>
    var damageMax: int
    var critical: Dict<Json, int>
    var controlSeats: int

    /** The counters of `make_vehicle` before the walk: zero, and no critical part. */
    constructor(process: Json -> Result<PartFacts<P>>)
      ensures this.process == process
      ensures damageMax == 0 && critical == [] && controlSeats == 0
    {
      this.process := process;
      damageMax := 0;
      critical := [];
      controlSeats := 0;
    }

    /** The counter updates of one part. */
    method Record(f: PartFacts<P>)
      modifies this
      ensures damageMax == old(damageMax) + f.damage
      ensures critical == if f.critical.Some? then Put(old(critical), f.critical.value, f.damage) else old(critical)
      ensures controlSeats == old(controlSeats) + (if f.seat then 1 else 0)
    {
      if f.critical.Some? {
        critical := Put(critical, f.critical.value, f.damage);
      }
      damageMax := damageMax + f.damage;
      if f.seat {
        controlSeats := controlSeats + 1;
      }
    }

    /** `walk_parts(container)`: the ports under `c` in pre-order, with every part's
        damage added to `damageMax`, every critical part recorded and every control
        seat counted; the first failure in walk order is the result otherwise. */
    method WalkParts(c: Json) returns (r: Result<seq<P>>)
      modifies this
      ensures Facts(c, process).Err? ==> r == Err(Facts(c, process).error)
      ensures Facts(c, process).Ok? ==>
        var fs := Facts(c, process).value;
        && r == Ok(PortsOf(fs))
        && damageMax == old(damageMax) + DamageSum(fs)
        && critical == CriticalOf(old(critical), fs)
        && controlSeats == old(controlSeats) + SeatCount(fs)
      decreases c, 0
    {
      var listed := PartList(c);
      if listed.Err? {
        return Err(listed.error);
      }
      var ps := listed.value;
      var result: seq<P> := [];
      ghost var seen: seq<PartFacts<P>> := [];
      WalkEntry(c, ps, process);
      var i := 0;
      while i < |ps|
        invariant 0 <= i <= |ps|
        invariant Prefixed(seen, FactsFrom(c, ps, i, process)) == Facts(c, process)
        invariant result == PortsOf(seen)
        invariant damageMax == old(damageMax) + DamageSum(seen)
        invariant critical == CriticalOf(old(critical), seen)
        invariant controlSeats == old(controlSeats) + SeatCount(seen)
      {
        WalkFails(c, ps, i, process, seen);
        var part := ps[i];
        if !part.Obj? {
          return Err(AttributeError);
        }
        ghost var before := seen;
        ghost var critical0 := critical;
        var got := VisitPart(part);
        if got.Err? {
          return got;
        }
        ghost var fs := PartWalk(part, process).value;
        AccumulateAppend(old(critical), before, fs);
        result := result + got.value;
        WalkStep(c, ps, i, process, before, fs);
        seen := before + fs;
        i := i + 1;
      }
      assert seen + [] == seen;
      return Ok(result);
    }

    /** The loop body of `walk_parts` for one part: the part's own facts are
        recorded, then the parts under it are walked. */
    method VisitPart(part: Json) returns (r: Result<seq<P>>)
      requires part.Obj?
      modifies this
      ensures PartWalk(part, process).Err? ==> r == Err(PartWalk(part, process).error)
      ensures PartWalk(part, process).Ok? ==>
        var fs := PartWalk(part, process).value;
        && r == Ok(PortsOf(fs))
        && damageMax == old(damageMax) + DamageSum(fs)
        && critical == CriticalOf(old(critical), fs)
        && controlSeats == old(controlSeats) + SeatCount(fs)
      decreases part, 1
    {
      var step := process(part);
      if step.Err? {
        return Err(step.error);
      }
      var f := step.value;
      Record(f);
      AccumulateOne(old(critical), [], f);
      var below := WalkParts(part);
      if below.Err? {
        return below;
      }
      ghost var sub := Facts(part, process).value;
      AccumulateAppend(old(critical), [f], sub);
      assert [] + [f] == [f];
      assert PortsOf([f]) == if f.port.Some? then [f.port.value] else [];
      r := Ok((if f.port.Some? then [f.port.value] else []) + below.value);
    }
  }

  /** The accumulators of a finished walk and the ports it returned. */
  datatype Totals<P> = Totals(damageMax: int, critical: Dict<Json, int>, controlSeats: int, ports: seq<P>)

  /** What the walk of `make_vehicle` leaves, started from zero counters and no critical part. */
  function TotalsOf<P>(c: Json, process: Json -> Result<PartFacts<P>>): (r: Result<Totals<P>>)
    ensures r.Ok? <==> Facts(c, process).Ok?
    ensures r.Err? ==> r.error == Facts(c, process).error
    ensures r.Ok? ==> |r.value.ports| <= |Facts(c, process).value|
  {
    var fs :- Facts(c, process);
    Ok(Totals(DamageSum(fs), CriticalOf([], fs), SeatCount(fs), PortsOf(fs)))
  }

  /** The walk `make_vehicle` runs: fresh counters, then `walk_parts` over the definition. */
  method Walk<P>(c: Json, process: Json -> Result<PartFacts<P>>) returns (r: Result<Totals<P>>)
    ensures r == TotalsOf(c, process)
  {
    var walker := new Walker(process);
    var ports := walker.WalkParts(c);
    if ports.Err? {
      return Err(ports.error);
    }
    return Ok(Totals(walker.damageMax, walker.critical, walker.controlSeats, ports.value));
  }

  /** `min(d.values())` of a non-empty dict. */
  function MinValue(d: Dict<Json, int>): (r: int)
    requires d != []
    ensures forall i :: 0 <= i < |d| ==> r <= d[i].val
    ensures exists i :: 0 <= i < |d| && r == d[i].val
  {
    if |d| == 1 then d[0].val
    else
      var m := MinValue(d[1..]);
      assert forall i :: 1 <= i < |d| ==> d[i] == d[1..][i - 1];
      if d[0].val <= m then d[0].val else m
  }

  /** The key the vehicle scripts write a port type's subtype under. */
  const WrittenKey: string := "subtypes"
  /** The key `_make_item_port`'s sort and the front end read it from. */
  const IntendedKey: string := "subtype"

  /** The strings of a list as values. */
  function StrValues(xs: seq<string>): (r: seq<Json>)
    ensures |r| == |xs| && forall i :: 0 <= i < |xs| ==> r[i] == Str(xs[i])
  {
    seq(|xs|, i requires 0 <= i < |xs| => Str(xs[i]))
  }

  /** The subtypes of one type element: the comma-separated `@subtypes`, or one
      None when the attribute is missing or empty. */
  function Subtypes(te: Json): (r: Result<seq<Json>>)
    ensures r.Ok? ==> te.Obj? && |r.value| >= 1
    ensures r.Ok? && !Truthy(Lookup(te.fields, "@subtypes")) ==> r.value == [Null]
    ensures r.Ok? && Truthy(Lookup(te.fields, "@subtypes")) ==>
      Lookup(te.fields, "@subtypes").Str? && r.value == StrValues(Split(Lookup(te.fields, "@subtypes").s, ','))
  {
    var attr :- GetDefault(te, "@subtypes", Null);
    if !Truthy(attr) then Ok([Null])
    else if attr.Str? then Ok(StrValues(Split(attr.s, ',')))
    else Err(AttributeError)
  }

  /** One `{"type": ..., key: subtype}` dict per subtype of a type element. */
  function TypeEntries(te: Json, key: string): (r: Result<seq<Json>>)
    ensures r.Ok? <==> Subtypes(te).Ok? && HasKey(te.fields, "@type")
    ensures r.Ok? ==> |r.value| == |Subtypes(te).value|
    ensures r.Ok? ==> forall k :: 0 <= k < |r.value| ==>
      r.value[k] == Obj([Entry("type", Lookup(te.fields, "@type")), Entry(key, Subtypes(te).value[k])])
  {
    var subtypes :- Subtypes(te);
    var t :- Index(te, "@type");
    Ok(seq(|subtypes|, k requires 0 <= k < |subtypes| => Obj([Entry("type", t), Entry(key, subtypes[k])])))
  }

  /** A `{"type": ..., key: ...}` dict. */
  predicate IsTypeEntry(e: Json, key: string) {
    e.Obj? && |e.fields| == 2 && e.fields[0].key == "type" && e.fields[1].key == key
  }

  /** The entries of the type elements from `i` on, in order. */
  function ExpandFrom(xs: seq<Json>, key: string, i: nat): (r: Result<seq<Json>>)
    requires i <= |xs|
    ensures r.Ok? ==> |r.value| >= |xs| - i
    ensures r.Ok? ==> forall k :: 0 <= k < |r.value| ==> IsTypeEntry(r.value[k], key)
    decreases |xs| - i
  {
    if i == |xs| then Ok([])
    else
      var here :- TypeEntries(xs[i], key);
      var rest :- ExpandFrom(xs, key, i + 1);
      Ok(here + rest)
  }

  /** The `types` list of one item port: every `type` child expanded by its subtypes. */
  function PortTypes(ip: Json, key: string): (r: Result<seq<Json>>)
    ensures SingleOf(ip, "types").Ok? && !Truthy(SingleOf(ip, "types").value) ==> r == Ok([])
    ensures r.Ok? ==> forall k :: 0 <= k < |r.value| ==> IsTypeEntry(r.value[k], key)
    ensures r.Ok? && SingleOf(ip, "types").Ok? && Truthy(SingleOf(ip, "types").value) ==>
      && Index(SingleOf(ip, "types").value, "type").Ok?
      && Iterate(Index(SingleOf(ip, "types").value, "type").value).Ok?
      && |r.value| >= |Iterate(Index(SingleOf(ip, "types").value, "type").value).value|
  {
    var holder :- SingleOf(ip, "types");
    if !Truthy(holder) then Ok([])
    else
      var list :- Index(holder, "type");
      var xs :- Iterate(list);
      ExpandFrom(xs, key, 0)
  }

  /** One entry of the expansion. */
  function TypeEntry(t: string, key: string, sub: Json): Json {
    Obj([Entry("type", Str(t)), Entry(key, sub)])
  }

  lemma TypeEntriesAre(te: Json, key: string)
    requires TypeEntries(te, key).Ok? && Lookup(te.fields, "@type").Str?
    ensures var es := TypeEntries(te, key).value;
      forall k :: 0 <= k < |es| ==> es[k] == TypeEntry(Lookup(te.fields, "@type").s, key, Subtypes(te).value[k])
  {
  }

  /** An entry written under `"subtypes"` is keyed by its type alone. */
  lemma WrittenEntryKey(t: string, sub: Json)
    ensures TypeKey(TypeEntry(t, WrittenKey, sub)) == Ok(t + "_None")
  {
    var e := TypeEntry(t, WrittenKey, sub);
    assert IndexOf(e.fields, "type") == Some(0);
    assert !HasKey(e.fields, "subtype");
    assert t + "_" + "None" == t + "_None";
  }

  /** An entry written under `"subtype"` is keyed by its type and its subtype. */
  lemma IntendedEntryKey(t: string, sub: Json)
    requires sub == Null || sub.Str?
    ensures TypeKey(TypeEntry(t, IntendedKey, sub)) == Ok(t + "_" + PyStr(sub).value)
  {
    var e := TypeEntry(t, IntendedKey, sub);
    assert IndexOf(e.fields, "type") == Some(0);
    assert IndexOf(e.fields, "subtype") == Some(1);
  }

  /** As written, an entry's sort key never sees its subtype: the sort reads
      `"subtype"`, which the entry does not have, and gets `"None"`. */
  lemma WrittenKeyDropsSubtype(te: Json)
    requires TypeEntries(te, WrittenKey).Ok? && Lookup(te.fields, "@type").Str?
    ensures var es := TypeEntries(te, WrittenKey).value;
      forall k :: 0 <= k < |es| ==> TypeKey(es[k]) == Ok(Lookup(te.fields, "@type").s + "_None")
  {
    TypeEntriesAre(te, WrittenKey);
    var es := TypeEntries(te, WrittenKey).value;
    forall k | 0 <= k < |es| ensures TypeKey(es[k]) == Ok(Lookup(te.fields, "@type").s + "_None") {
      WrittenEntryKey(Lookup(te.fields, "@type").s, Subtypes(te).value[k]);
    }
  }

  /** So the sort leaves the entries of one type element in the order of `@subtypes`. */
  lemma WrittenKeyKeepsOrder(te: Json)
    requires TypeEntries(te, WrittenKey).Ok? && Lookup(te.fields, "@type").Str?
    ensures var es := TypeEntries(te, WrittenKey).value; SortTypes(es) == Ok(es)
  {
    var es := TypeEntries(te, WrittenKey).value;
    WrittenKeyDropsSubtype(te);
    var k := Lookup(te.fields, "@type").s + "_None";
    assert forall i :: 0 <= i < |es| ==> KeyText(es[i]) == k;
    SortBySameKey(es, KeyText, k);
  }

  /** With the key the sort reads, each entry's key is its type and its subtype. */
  lemma IntendedKeySeesSubtype(te: Json)
    requires TypeEntries(te, IntendedKey).Ok? && Lookup(te.fields, "@type").Str?
    ensures var es := TypeEntries(te, IntendedKey).value;
      forall k :: 0 <= k < |es| ==>
        TypeKey(es[k]) == Ok(Lookup(te.fields, "@type").s + "_" + PyStr(Subtypes(te).value[k]).value)
  {
    TypeEntriesAre(te, IntendedKey);
    var es := TypeEntries(te, IntendedKey).value;
    forall k | 0 <= k < |es|
      ensures TypeKey(es[k]) == Ok(Lookup(te.fields, "@type").s + "_" + PyStr(Subtypes(te).value[k]).value)
    {
      IntendedEntryKey(Lookup(te.fields, "@type").s, Subtypes(te).value[k]);
    }
  }

  /** As written, two entries of one type are never reordered, whatever their subtypes. */
  lemma WrittenKeyPair(t: string, a: Json, b: Json)
    ensures var x := TypeEntry(t, WrittenKey, a);
      var y := TypeEntry(t, WrittenKey, b);
      SortTypes([x, y]) == Ok([x, y])
  {
    var s := [TypeEntry(t, WrittenKey, a), TypeEntry(t, WrittenKey, b)];
    WrittenEntryKey(t, a);
    WrittenEntryKey(t, b);
    assert forall i :: 0 <= i < |s| ==> TypeKey(s[i]) == Ok(t + "_None");
    assert forall i :: 0 <= i < |s| ==> KeyText(s[i]) == t + "_None";
    SortBySameKey(s, KeyText, t + "_None");
  }

  /** Under the key the sort reads, a later subtype that sorts first moves to the front. */
  lemma IntendedKeyPair(t: string, a: string, b: string)
    requires !LessEq(a, b)
    ensures var x := TypeEntry(t, IntendedKey, Str(a));
      var y := TypeEntry(t, IntendedKey, Str(b));
      SortTypes([x, y]) == Ok([y, x])
  {
    var x := TypeEntry(t, IntendedKey, Str(a));
    var y := TypeEntry(t, IntendedKey, Str(b));
    IntendedEntryKey(t, Str(a));
    IntendedEntryKey(t, Str(b));
    assert !LessEq(KeyText(x), KeyText(y)) by { LessEqPrefix(t + "_", a, b); }
    SortPairSwapped(x, y, KeyText);
  }

  /** `"Rocket"` sorts after `"Gun"`, so a gun port listing `"Rocket,Gun"` shows the difference. */
  lemma RocketAfterGun()
    ensures !LessEq("Rocket", "Gun")
  {
    assert "Rocket"[0] == 'R' && "Gun"[0] == 'G';
  }

  /** `float(re.sub("[^0-9.]", "", part.get("@mass", "0")))`, which every part
      goes through: the substitution needs text, the conversion a number. The
      result is the text `float` reads; the mass itself is floating point and is
      not kept. */
  function MassText(part: Json): (r: Result<string>)
    requires part.Obj?
    ensures !HasKey(part.fields, "@mass") ==> r == Ok("0")
    ensures HasKey(part.fields, "@mass") && !Lookup(part.fields, "@mass").Str? ==> r == Err(TypeError)
    ensures HasKey(part.fields, "@mass") && Lookup(part.fields, "@mass").Str? ==>
      (r.Ok? <==> FloatText(DigitsAndDots(Lookup(part.fields, "@mass").s)))
    ensures r.Ok? ==> FloatText(r.value) && forall i :: 0 <= i < |r.value| ==> IsDigit(r.value[i]) || r.value[i] == '.'
    ensures r.Ok? && HasKey(part.fields, "@mass") ==> r.value == DigitsAndDots(Lookup(part.fields, "@mass").s)
    ensures r.Err? ==> r.error == TypeError || r.error == ValueError
  {
    if !HasKey(part.fields, "@mass") then
      assert IsDigit("0"[0]);
      Ok("0")
    else
      var text := Lookup(part.fields, "@mass");
      if !text.Str? then Err(TypeError)
      else if FloatText(DigitsAndDots(text.s)) then Ok(DigitsAndDots(text.s))
      else Err(ValueError)
  }

  /** An empty or twice-dotted `@mass` makes the vehicle's conversion fail. */
  lemma MassRejects(part: Json, s: string)
    requires part.Obj? && HasKey(part.fields, "@mass") && Lookup(part.fields, "@mass") == Str(s)
    requires s == "" || multiset(s)['.'] >= 2
    ensures MassText(part) == Err(ValueError)
  {
    FloatTextRejects(s);
  }

  /** `yawMin`/`yawMax` (or the pitch pair): present only when the axis child is. */
  datatype Axis = Axis(min: int, max: int)

  function AxisOf(ip: Json, axis: string): (r: Result<Option<Axis>>)
    requires ip.Obj?
    ensures !HasKey(ip.fields, axis) ==> r == Ok(None)
    ensures r.Ok? && r.value.Some? ==> HasKey(ip.fields, axis)
    ensures r.Ok? && r.value.Some? ==> SingleOf(ip, axis).Ok? && var a := SingleOf(ip, axis).value;
      a.Obj? && Size(a.fields, "@min") == Ok(r.value.value.min) && Size(a.fields, "@max") == Ok(r.value.value.max)
  {
    if !HasKey(ip.fields, axis) then Ok(None)
    else
      var a :- SingleOf(ip, axis);
      if !a.Obj? then Err(AttributeError)
      else
        var lo :- Size(a.fields, "@min");
        var hi :- Size(a.fields, "@max");
        Ok(Some(Axis(lo, hi)))
  }

  /** `any(x not in ["Screen_TV", "habitation_bed_screen"] for x in xs)` */
  predicate AnyMutable(xs: seq<Json>) {
    exists k :: 0 <= k < |xs| && xs[k] != Str("Screen_TV") && xs[k] != Str("habitation_bed_screen")
  }

  /** Iterating a string yields its one-character strings, none of them a screen name,
      so the test holds exactly when the string is not empty. */
  lemma AnyMutableText(s: string)
    ensures AnyMutable(Iterate(Str(s)).value) <==> s != ""
  {
    var xs := Iterate(Str(s)).value;
    if s != "" {
      assert |xs[0].s| == 1;
      assert xs[0] != Str("Screen_TV");
    }
  }

  /** The screens of one observable: `observable["@screensavail"]` iterated. */
  function Screens(o: Json): Result<seq<Json>> {
    var screens :- Index(o, "@screensavail");
    Iterate(screens)
  }

  /** The observables from `i` on: true at the first one with a screen that can change. */
  function ObservablesFrom(os: seq<Json>, i: nat): (r: Result<bool>)
    requires i <= |os|
    ensures r == Ok(true) ==> exists k :: i <= k < |os| && Screens(os[k]).Ok? && AnyMutable(Screens(os[k]).value)
    ensures r == Ok(false) <==> forall k :: i <= k < |os| ==> Screens(os[k]).Ok? && !AnyMutable(Screens(os[k]).value)
    decreases |os| - i
  {
    if i == |os| then Ok(false)
    else
      var screens :- Index(os[i], "@screensavail");
      var xs :- Iterate(screens);
      if AnyMutable(xs) then Ok(true) else ObservablesFrom(os, i + 1)
  }

  /** Whether one controller definition has such an observable. */
  function ControllerSeat(cd: Json): (r: Result<bool>)
  {
    var user :- SingleOf(cd, "userdef");
    if !Truthy(user) then Ok(false)
    else
      var holder :- SingleOf(user, "observerables");
      if !Truthy(holder) then Ok(false)
      else
        var list :- GetDefault(holder, "observerable", List([]));
        var os :- Iterate(list);
        ObservablesFrom(os, 0)
  }

  /** None of the controller definitions from `i` up to `k` has a seat, and none fails. */
  predicate NoSeatIn(cs: seq<Json>, i: nat, k: nat)
    requires i <= k <= |cs|
  {
    forall m :: i <= m < k ==> ControllerSeat(cs[m]) == Ok(false)
  }

  /** The controller definitions from `i` on: true at the first one with a seat, so a
      later definition that would fail is never read. */
  function ControllersFrom(cs: seq<Json>, i: nat): (r: Result<bool>)
    requires i <= |cs|
    ensures r == Ok(false) <==> forall k :: i <= k < |cs| ==> ControllerSeat(cs[k]) == Ok(false)
    ensures forall k :: i <= k < |cs| && ControllerSeat(cs[k]) == Ok(true) && NoSeatIn(cs, i, k) ==> r == Ok(true)
    ensures r.Err? ==> exists k :: i <= k < |cs| && ControllerSeat(cs[k]) == Err(r.error)
    decreases |cs| - i
  {
    if i == |cs| then Ok(false)
    else match ControllerSeat(cs[i])
      case Err(e) => Err(e)
      case Ok(found) => if found then Ok(true) else ControllersFrom(cs, i + 1)
  }

  /** `_has_control_seat(item_port_element)`: returns at the first hit, so later
      controllers are not looked at. */
  function HasControlSeat(ip: Json): (r: Result<bool>)
    ensures !ip.Obj? ==> r == Err(AttributeError)
    ensures ip.Obj? && !HasKey(ip.fields, "controllerdef") ==> r == Ok(false)
    ensures r == Ok(true) ==> ip.Obj? && HasKey(ip.fields, "controllerdef")
  {
    var list :- GetDefault(ip, "controllerdef", List([]));
    var cs :- Iterate(list);
    ControllersFrom(cs, 0)
  }

  /** When every observable's `@screensavail` is a string, the search finds a seat
      exactly when one of them is non-empty. */
  lemma {:induction false} ObservablesNonEmpty(os: seq<Json>, i: nat)
    requires i <= |os|
    requires forall k :: i <= k < |os| ==> os[k].Obj? && Lookup(os[k].fields, "@screensavail").Str?
    requires forall k :: i <= k < |os| ==> HasKey(os[k].fields, "@screensavail")
    ensures ObservablesFrom(os, i).Ok?
    ensures ObservablesFrom(os, i).value <==>
      exists k :: i <= k < |os| && Lookup(os[k].fields, "@screensavail").s != ""
    decreases |os| - i
  {
    if i < |os| {
      AnyMutableText(Lookup(os[i].fields, "@screensavail").s);
      ObservablesNonEmpty(os, i + 1);
    }
  }
}
