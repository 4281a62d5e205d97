/** `make_vehicle` of scripts/vehicle.py: the older vehicle record, with the
    lower-cased port names of `_make_item_port` in scripts/common.py, the parts
    whose destruction destroys the vehicle, and the least damage that does so. */
module VehicleLegacy {
  import opened Wrappers
  import opened Dicts
  import opened Text
  import opened Py
  import opened TreeStore
  import opened ItemPort
  import opened VehicleWalk

  /** A port of the vehicle, with the turning range of its mount when it has one. */
  datatype VehiclePort = VehiclePort(port: LegacyPort, yaw: Option<Axis>, pitch: Option<Axis>)

  /** The group name that marks a part as critical. */
  const Destroy: Json := Str("Destroy")

  /** `behavior_element.get("group", [])`, iterated. */
  function GroupList(b: Json): Result<seq<Json>> {
    var list :- GetDefault(b, "group", List([]));
    Iterate(list)
  }

  /** The groups from `i` on, every one of them looked at: whether one is named
      `"Destroy"`, and the part's `@name` is looked up, as the key it is stored
      under, at each that is. */
  function GroupsFrom(part: Json, gs: seq<Json>, i: nat): (r: Result<bool>)
    requires i <= |gs|
    ensures r.Ok? ==> (r.value <==> exists k :: i <= k < |gs| && Index(gs[k], "@name") == Ok(Destroy))
    ensures r.Ok? && r.value ==> Index(part, "@name").Ok? && Hashable(Index(part, "@name").value)
    decreases |gs| - i
  {
    if i == |gs| then Ok(false)
    else
      var name :- Index(gs[i], "@name");
      if name == Destroy then
        var key :- Index(part, "@name");
        if !Hashable(key) then Err(TypeError)
        else
          var later :- GroupsFrom(part, gs, i + 1);
          Ok(true)
      else GroupsFrom(part, gs, i + 1)
  }

  /** Whether one damage behaviour has a `"Destroy"` group. */
  function BehaviourDestroys(part: Json, b: Json): (r: Result<bool>)
    ensures r.Ok? ==> GroupList(b).Ok? && var gs := GroupList(b).value;
      r.value <==> exists k :: 0 <= k < |gs| && Index(gs[k], "@name") == Ok(Destroy)
    ensures r.Ok? && r.value ==> Index(part, "@name").Ok? && Hashable(Index(part, "@name").value)
  {
    var gs :- GroupList(b);
    GroupsFrom(part, gs, 0)
  }

  /** `part.single("damagebehaviors").get("damagebehavior", [])`, iterated. */
  function BehaviourList(part: Json): Result<seq<Json>> {
    var holder :- SingleOf(part, "damagebehaviors");
    var list :- GetDefault(holder, "damagebehavior", List([]));
    Iterate(list)
  }

  function BehavioursFrom(part: Json, bs: seq<Json>, i: nat): (r: Result<bool>)
    requires i <= |bs|
    ensures r.Ok? ==> (r.value <==> exists k :: i <= k < |bs| && BehaviourDestroys(part, bs[k]) == Ok(true))
    ensures r.Ok? && r.value ==> Index(part, "@name").Ok? && Hashable(Index(part, "@name").value)
    decreases |bs| - i
  {
    if i == |bs| then Ok(false)
    else
      var here :- BehaviourDestroys(part, bs[i]);
      var later :- BehavioursFrom(part, bs, i + 1);
      Ok(here || later)
  }

  /** The key a part is recorded under in `critical_part_damage`: its `@name`, when
      its damage is positive and one of its damage behaviours has a `"Destroy"` group. */
  function CriticalKey(part: Json, damage: int): (r: Result<Option<Json>>)
    requires part.Obj?
    ensures damage <= 0 || !HasKey(part.fields, "damagebehaviors") ==> r == Ok(None)
    ensures r.Ok? && r.value.Some? ==> Index(part, "@name") == Ok(r.value.value) && Hashable(r.value.value)
    ensures r.Ok? ==> (r.value.Some? <==>
      && damage > 0 && HasKey(part.fields, "damagebehaviors") && BehaviourList(part).Ok?
      && exists k :: 0 <= k < |BehaviourList(part).value| && BehaviourDestroys(part, BehaviourList(part).value[k]) == Ok(true))
  {
    if damage <= 0 || !HasKey(part.fields, "damagebehaviors") then Ok(None)
    else
      var bs :- BehaviourList(part);
      var found :- BehavioursFrom(part, bs, 0);
      if found then Ok(Some(Lookup(part.fields, "@name"))) else Ok(None)
  }

  /** The port of a part of class `ItemPort` with a truthy `itemport` child, and
      whether that port is a control seat. */
  function ItemPortOf(part: Json, uuid: Uuid): (r: Result<(Option<VehiclePort>, bool)>)
    requires part.Obj?
    ensures r.Ok? && r.value.1 ==> r.value.0.Some?
    ensures r.Ok? && r.value.0.Some? ==>
      && SingleOf(part, "itemport").Ok? && Truthy(SingleOf(part, "itemport").value)
      && var ip := SingleOf(part, "itemport").value;
         && PortTypes(ip, WrittenKey).Ok?
         && MakeLegacyPort(ip, Lookup(part.fields, "@name"), PortTypes(ip, WrittenKey).value, uuid) == Ok(r.value.0.value.port)
         && ip.Obj?
         && AxisOf(ip, "yaw") == Ok(r.value.0.value.yaw) && AxisOf(ip, "pitch") == Ok(r.value.0.value.pitch)
         && HasControlSeat(ip) == Ok(r.value.1)
    ensures r.Ok? && SingleOf(part, "itemport").Ok? && Truthy(SingleOf(part, "itemport").value) ==> r.value.0.Some?
  {
    var ip :- SingleOf(part, "itemport");
    if !Truthy(ip) then Ok((None, false))
    else
      var types :- PortTypes(ip, WrittenKey);
      var name :- Index(part, "@name");
      var port :- MakeLegacyPort(ip, name, types, uuid);
      var yaw :- AxisOf(ip, "yaw");
      var pitch :- AxisOf(ip, "pitch");
      var seat :- HasControlSeat(ip);
      Ok((Some(VehiclePort(port, yaw, pitch)), seat))
  }

  /** What one part adds to the walk of scripts/vehicle.py: its damage, its
      critical key, and its port when it is an `ItemPort`. */
  function LegacyPart(part: Json, uuid: Uuid): (r: Result<PartFacts<VehiclePort>>)
    ensures r.Ok? ==> part.Obj? && Size(part.fields, "@damagemax") == Ok(r.value.damage)
    ensures r.Ok? ==> CriticalKey(part, r.value.damage) == Ok(r.value.critical)
    ensures r.Ok? ==> MassText(part).Ok?
    ensures r.Ok? && r.value.critical.Some? ==> r.value.damage > 0
    ensures r.Ok? && r.value.seat ==> r.value.port.Some?
    ensures r.Ok? && r.value.port.Some? ==>
      Index(part, "@class") == Ok(Str("ItemPort")) && ItemPortOf(part, uuid) == Ok((r.value.port, r.value.seat))
  {
    if !part.Obj? then Err(AttributeError)
    else
      var damage :- Size(part.fields, "@damagemax");
      var critical :- CriticalKey(part, damage);
      var _ :- MassText(part);
      var cls :- Index(part, "@class");
      var found :- if cls == Str("ItemPort") then ItemPortOf(part, uuid) else Ok((None, false));
      Ok(PartFacts(damage, critical, found.0, found.1))
  }

  /** The part processing with the port uuid fixed. */
  function Step(uuid: Uuid): Json -> Result<PartFacts<VehiclePort>> {
    part => LegacyPart(part, uuid)
  }

  /** The record `make_vehicle` returns, without the mass. */
  datatype Vehicle = Vehicle(
    baseName: Json,
    size: Json,
    itemPortTags: seq<string>,
    damageMax: int,
    damageCriticalPart: Dict<Json, int>,
    damageMin: Option<int>,
    controlSeats: int,
    ports: seq<VehiclePort>)

  /** The record of a definition: the walk's results, then the definition's own attributes. */
  function VehicleOf(definition: Json, uuid: Uuid): (r: Result<Vehicle>)
    ensures r.Ok? <==>
      && Facts(definition, Step(uuid)).Ok? && Index(definition, "@name").Ok?
      && Index(definition, "@itemporttags").Ok? && SplitTags(Index(definition, "@itemporttags").value).Ok?
    ensures r.Ok? ==> Index(definition, "@name") == Ok(r.value.baseName)
    ensures r.Ok? ==> Lookup(definition.fields, "@size") == r.value.size
    ensures r.Ok? ==> SplitTags(Index(definition, "@itemporttags").value) == Ok(r.value.itemPortTags)
  {
    var t :- TotalsOf(definition, Step(uuid));
    Assemble(definition, t.damageMax, t.critical, t.controlSeats, t.ports)
  }

  /** The record around the walk's results; `damageMin` only when some part is critical. */
  function Assemble(definition: Json, damageMax: int, critical: Dict<Json, int>, seats: int, ports: seq<VehiclePort>): (r: Result<Vehicle>)
    ensures r.Ok? <==>
      && Index(definition, "@name").Ok?
      && Index(definition, "@itemporttags").Ok? && SplitTags(Index(definition, "@itemporttags").value).Ok?
    ensures r.Ok? ==> Index(definition, "@name") == Ok(r.value.baseName)
    ensures r.Ok? ==> Lookup(definition.fields, "@size") == r.value.size
    ensures r.Ok? ==> SplitTags(Index(definition, "@itemporttags").value) == Ok(r.value.itemPortTags)
    ensures r.Ok? ==> r.value.damageMax == damageMax && r.value.damageCriticalPart == critical
    ensures r.Ok? ==> r.value.controlSeats == seats && r.value.ports == ports
    ensures r.Ok? ==> r.value.damageMin == if critical == [] then None else Some(MinValue(critical))
  {
    var name :- Index(definition, "@name");
    var size := Lookup(definition.fields, "@size");
    var tags :- Index(definition, "@itemporttags");
    var split :- SplitTags(tags);
    Ok(Vehicle(name, size, split, damageMax, critical,
      if critical == [] then None else Some(MinValue(critical)),
      seats, ports))
  }

  /** `make_vehicle(definition_element)`, with `uuid` the name given to a nameless port. */
  method MakeVehicle(definition: Json, uuid: Uuid) returns (r: Result<Vehicle>)
    ensures r == VehicleOf(definition, uuid)
  {
    var t := Walk(definition, Step(uuid));
    if t.Err? {
      return Err(t.error);
    }
    r := Finish(definition, t.value.damageMax, t.value.critical, t.value.controlSeats, t.value.ports);
  }

  /** The record built after the walk. */
  method Finish(definition: Json, damageMax: int, critical: Dict<Json, int>, seats: int, ports: seq<VehiclePort>)
    returns (r: Result<Vehicle>)
    ensures r == Assemble(definition, damageMax, critical, seats, ports)
  {
    var name := Index(definition, "@name");
    if name.Err? {
      return Err(name.error);
    }
    var size := Lookup(definition.fields, "@size");
    var tags := Index(definition, "@itemporttags");
    if tags.Err? {
      return Err(tags.error);
    }
    var damageMin: Option<int> := None;
    if critical != [] {
      damageMin := Some(MinValue(critical));
    }
    var split := SplitTags(tags.value);
    if split.Err? {
      return Err(split.error);
    }
    return Ok(Vehicle(name.value, size, split.value, damageMax, critical, damageMin, seats, ports));
  }

  /** The facts of the walk are those of the parts, one by one. */
  lemma FactsOfParts(definition: Json, uuid: Uuid)
    requires Facts(definition, Step(uuid)).Ok?
    ensures Parts(definition).Ok?
    ensures var fs := Facts(definition, Step(uuid)).value; var ps := Parts(definition).value;
      && |fs| == |ps|
      && forall k :: 0 <= k < |ps| ==> LegacyPart(ps[k], uuid) == Ok(fs[k])
  {
    FactsArePartsFacts(definition, Step(uuid));
  }

  /** The damage of one part, as the walk reads it. */
  function PartDamage(part: Json): int {
    if part.Obj? && Size(part.fields, "@damagemax").Ok? then Size(part.fields, "@damagemax").value else 0
  }

  /** `damageMax` is the sum of `@damagemax` over every part of the vehicle, nested parts included. */
  lemma VehicleDamage(definition: Json, uuid: Uuid)
    requires VehicleOf(definition, uuid).Ok?
    ensures Parts(definition).Ok?
    ensures var ps := Parts(definition).value;
      && (forall k :: 0 <= k < |ps| ==> ps[k].Obj? && Size(ps[k].fields, "@damagemax").Ok?)
      && VehicleOf(definition, uuid).value.damageMax == Sum(seq(|ps|, k requires 0 <= k < |ps| => PartDamage(ps[k])))
  {
    FactsOfParts(definition, uuid);
    var fs := Facts(definition, Step(uuid)).value;
    var ps := Parts(definition).value;
    assert VehicleOf(definition, uuid).value.damageMax == DamageSum(fs);
    DamageSumOf(fs, seq(|ps|, k requires 0 <= k < |ps| => PartDamage(ps[k])));
  }

  /** A name is a key of `damageCriticalPart` exactly when some part of the vehicle
      is recorded under it: a part with positive damage and a `"Destroy"` group,
      whose `@name` it is. */
  lemma VehicleCriticalParts(definition: Json, uuid: Uuid, name: Json)
    requires VehicleOf(definition, uuid).Ok?
    ensures Parts(definition).Ok?
    ensures var ps := Parts(definition).value;
      HasKey(VehicleOf(definition, uuid).value.damageCriticalPart, name) <==>
        exists k :: 0 <= k < |ps| && ps[k].Obj? && CriticalKey(ps[k], PartDamage(ps[k])) == Ok(Some(name))
    ensures var ps := Parts(definition).value;
      HasKey(VehicleOf(definition, uuid).value.damageCriticalPart, name) ==>
        exists k :: 0 <= k < |ps| && PartDamage(ps[k]) > 0 && Index(ps[k], "@name") == Ok(name)
  {
    FactsOfParts(definition, uuid);
    var fs := Facts(definition, Step(uuid)).value;
    assert VehicleOf(definition, uuid).value.damageCriticalPart == CriticalOf([], fs);
    CriticalOfParts(Parts(definition).value, fs, uuid, name);
  }

  /** The critical-part keys of the facts of `ps` are the names of its critical parts. */
  lemma CriticalOfParts(ps: seq<Json>, fs: seq<PartFacts<VehiclePort>>, uuid: Uuid, name: Json)
    requires |fs| == |ps| && forall k :: 0 <= k < |ps| ==> LegacyPart(ps[k], uuid) == Ok(fs[k])
    ensures HasKey(CriticalOf([], fs), name) <==>
      exists k :: 0 <= k < |ps| && ps[k].Obj? && CriticalKey(ps[k], PartDamage(ps[k])) == Ok(Some(name))
    ensures HasKey(CriticalOf([], fs), name) ==>
      exists k :: 0 <= k < |ps| && PartDamage(ps[k]) > 0 && Index(ps[k], "@name") == Ok(name)
  {
    forall k | 0 <= k < |ps| ensures PartCritical(ps[k], fs[k]) {
      LegacyPartCritical(ps[k], uuid, fs[k]);
    }
    CriticalKeys(fs, name);
    CriticalNames(ps, fs, name);
  }

  /** What the facts of one part say about its damage and its critical key. */
  ghost predicate PartCritical(part: Json, f: PartFacts<VehiclePort>) {
    && part.Obj? && PartDamage(part) == f.damage
    && CriticalKey(part, f.damage) == Ok(f.critical)
    && (f.critical.Some? ==> f.damage > 0 && Index(part, "@name") == Ok(f.critical.value))
  }

  lemma LegacyPartCritical(part: Json, uuid: Uuid, f: PartFacts<VehiclePort>)
    requires LegacyPart(part, uuid) == Ok(f)
    ensures PartCritical(part, f)
  {
  }

  lemma CriticalNames(ps: seq<Json>, fs: seq<PartFacts<VehiclePort>>, name: Json)
    requires |fs| == |ps| && forall k :: 0 <= k < |ps| ==> PartCritical(ps[k], fs[k])
    ensures (exists i :: 0 <= i < |fs| && fs[i].critical == Some(name)) <==>
      exists k :: 0 <= k < |ps| && ps[k].Obj? && CriticalKey(ps[k], PartDamage(ps[k])) == Ok(Some(name))
    ensures (exists i :: 0 <= i < |fs| && fs[i].critical == Some(name)) ==>
      exists k :: 0 <= k < |ps| && PartDamage(ps[k]) > 0 && Index(ps[k], "@name") == Ok(name)
  {
  }

  /** `damageMin` is present exactly when some part is critical; it is then the least
      of their damages, and positive. */
  lemma VehicleDamageMin(definition: Json, uuid: Uuid)
    requires VehicleOf(definition, uuid).Ok?
    ensures var v := VehicleOf(definition, uuid).value;
      && (v.damageMin.Some? <==> v.damageCriticalPart != [])
      && (v.damageMin.Some? ==>
        && v.damageMin.value > 0
        && (forall i :: 0 <= i < |v.damageCriticalPart| ==> v.damageMin.value <= v.damageCriticalPart[i].val)
        && exists i :: 0 <= i < |v.damageCriticalPart| && v.damageMin.value == v.damageCriticalPart[i].val)
  {
    FactsOfParts(definition, uuid);
    var fs := Facts(definition, Step(uuid)).value;
    CriticalPositive([], fs);
  }

  /** Every control seat is a port, so there are no more seats than ports, and every
      port has a non-empty name. */
  lemma VehicleSeatsAndNames(definition: Json, uuid: Uuid)
    requires VehicleOf(definition, uuid).Ok?
    ensures var v := VehicleOf(definition, uuid).value;
      && 0 <= v.controlSeats <= |v.ports|
      && forall j :: 0 <= j < |v.ports| ==> v.ports[j].port.name != ""
  {
    FactsOfParts(definition, uuid);
    var fs := Facts(definition, Step(uuid)).value;
    SeatsAtMostPorts(fs);
    var v := VehicleOf(definition, uuid).value;
    forall j | 0 <= j < |v.ports| ensures v.ports[j].port.name != "" {
      PortsFromParts(fs, j);
    }
  }
}
