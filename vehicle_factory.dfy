/** `make_vehicle` of next/scripts/factory/vehicle.py: the newer vehicle record,
    with the ports of `_make_item_port` in next/scripts/factory/common.py, which
    keep their names as written, and no critical parts. */
module VehicleFactory {
  import opened Wrappers
  import opened Dicts
  import opened Text
  import opened Py
  import opened TreeStore
  import opened ItemPort
  import opened VehicleWalk

  /** A port of the vehicle, with the turning range of its mount when it has one. */
  datatype VehiclePort = VehiclePort(port: Port, yaw: Option<Axis>, pitch: Option<Axis>)

  /** The port of a part of class `ItemPort` with a truthy `itemport` child, and
      whether that port is a control seat. */
  function ItemPortOf(part: Json): (r: Result<(Option<VehiclePort>, bool)>)
    requires part.Obj?
    ensures r.Ok? && r.value.1 ==> r.value.0.Some?
    ensures r.Ok? && r.value.0.Some? ==>
      && SingleOf(part, "itemport").Ok? && Truthy(SingleOf(part, "itemport").value)
      && var ip := SingleOf(part, "itemport").value;
         && PortTypes(ip, WrittenKey).Ok?
         && MakePort(ip, Lookup(part.fields, "@name"), PortTypes(ip, WrittenKey).value) == Ok(r.value.0.value.port)
         && ip.Obj?
         && AxisOf(ip, "yaw") == Ok(r.value.0.value.yaw) && AxisOf(ip, "pitch") == Ok(r.value.0.value.pitch)
         && HasControlSeat(ip) == Ok(r.value.1)
    ensures r.Ok? && SingleOf(part, "itemport").Ok? && Truthy(SingleOf(part, "itemport").value) ==> r.value.0.Some?
  {
    var ip :- SingleOf(part, "itemport");
    if !Truthy(ip) then Ok((None, false))
    else
      var types :- PortTypes(ip, WrittenKey);
      var name :- Index(part, "@name");
      var port :- MakePort(ip, name, types);
      var yaw :- AxisOf(ip, "yaw");
      var pitch :- AxisOf(ip, "pitch");
      var seat :- HasControlSeat(ip);
      Ok((Some(VehiclePort(port, yaw, pitch)), seat))
  }

  /** What one part adds to the walk of next/scripts/factory/vehicle.py: its damage,
      and its port when it is an `ItemPort`; no part is recorded as critical. */
  function FactoryPart(part: Json): (r: Result<PartFacts<VehiclePort>>)
    ensures r.Ok? ==> part.Obj? && Size(part.fields, "@damagemax") == Ok(r.value.damage)
    ensures r.Ok? ==> r.value.critical == None
    ensures r.Ok? ==> MassText(part).Ok?
    ensures r.Ok? && r.value.seat ==> r.value.port.Some?
    ensures r.Ok? && r.value.port.Some? ==>
      Index(part, "@class") == Ok(Str("ItemPort")) && ItemPortOf(part) == Ok((r.value.port, r.value.seat))
  {
    if !part.Obj? then Err(AttributeError)
    else
      var damage :- Size(part.fields, "@damagemax");
      var _ :- MassText(part);
      var cls :- Index(part, "@class");
      var found :- if cls == Str("ItemPort") then ItemPortOf(part) else Ok((None, false));
      Ok(PartFacts(damage, None, found.0, found.1))
  }

  /** The part processing as a value the walker holds. */
  function Step(): Json -> Result<PartFacts<VehiclePort>> {
    part => FactoryPart(part)
  }

  /** The record `make_vehicle` returns, without the mass. */
  datatype Vehicle = Vehicle(
    name: Json,
    size: Json,
    itemPortTags: Json,
    damageMax: int,
    controlSeats: int,
    ports: seq<VehiclePort>)

  /** The record of a definition: the walk's results, then the definition's own attributes. */
  function VehicleOf(definition: Json): (r: Result<Vehicle>)
    ensures r.Ok? <==>
      && Facts(definition, Step()).Ok?
      && Index(definition, "@name").Ok? && Index(definition, "@size").Ok? && Index(definition, "@itemporttags").Ok?
    ensures r.Ok? ==> Index(definition, "@name") == Ok(r.value.name) && Index(definition, "@size") == Ok(r.value.size)
    ensures r.Ok? ==> r.value.itemPortTags != Str("")
    ensures r.Ok? && Index(definition, "@itemporttags").value != Str("") ==>
      r.value.itemPortTags == Index(definition, "@itemporttags").value
    ensures r.Ok? ==> TotalsOf(definition, Step()).Ok?
    ensures r.Ok? ==> var t := TotalsOf(definition, Step()).value;
      r.value.damageMax == t.damageMax && r.value.controlSeats == t.controlSeats && r.value.ports == t.ports
  {
    var t :- TotalsOf(definition, Step());
    Assemble(definition, t.damageMax, t.controlSeats, t.ports)
  }

  /** The record around the walk's results; empty tags become None. */
  function Assemble(definition: Json, damageMax: int, seats: int, ports: seq<VehiclePort>): (r: Result<Vehicle>)
    ensures r.Ok? <==>
      Index(definition, "@name").Ok? && Index(definition, "@size").Ok? && Index(definition, "@itemporttags").Ok?
    ensures r.Ok? ==> Index(definition, "@name") == Ok(r.value.name) && Index(definition, "@size") == Ok(r.value.size)
    ensures r.Ok? ==> r.value.itemPortTags != Str("")
    ensures r.Ok? && Index(definition, "@itemporttags").value != Str("") ==>
      r.value.itemPortTags == Index(definition, "@itemporttags").value
    ensures r.Ok? ==> r.value.damageMax == damageMax && r.value.controlSeats == seats && r.value.ports == ports
  {
    var name :- Index(definition, "@name");
    var size :- Index(definition, "@size");
    var tags :- Index(definition, "@itemporttags");
    Ok(Vehicle(name, size, if tags == Str("") then Null else tags, damageMax, seats, ports))
  }

  /** `make_vehicle(definition_element)` */
  method MakeVehicle(definition: Json) returns (r: Result<Vehicle>)
    ensures r == VehicleOf(definition)
  {
    var t := Walk(definition, Step());
    if t.Err? {
      return Err(t.error);
    }
    r := Finish(definition, t.value.damageMax, t.value.controlSeats, t.value.ports);
  }

  /** The record built after the walk. */
  method Finish(definition: Json, damageMax: int, seats: int, ports: seq<VehiclePort>) returns (r: Result<Vehicle>)
    ensures r == Assemble(definition, damageMax, seats, ports)
  {
    var name := Index(definition, "@name");
    if name.Err? {
      return Err(name.error);
    }
    var size := Index(definition, "@size");
    if size.Err? {
      return Err(size.error);
    }
    var tags := Index(definition, "@itemporttags");
    if tags.Err? {
      return Err(tags.error);
    }
    var itemPortTags := tags.value;
    if itemPortTags == Str("") {
      itemPortTags := Null;
    }
    return Ok(Vehicle(name.value, size.value, itemPortTags, damageMax, seats, ports));
  }

  /** The facts of the walk are those of the parts, one by one. */
  lemma FactsOfParts(definition: Json)
    requires Facts(definition, Step()).Ok?
    ensures Parts(definition).Ok?
    ensures var fs := Facts(definition, Step()).value; var ps := Parts(definition).value;
      && |fs| == |ps|
      && forall k :: 0 <= k < |ps| ==> FactoryPart(ps[k]) == Ok(fs[k])
  {
    FactsArePartsFacts(definition, Step());
  }

  /** The damage of one part, as the walk reads it. */
  function PartDamage(part: Json): int {
    if part.Obj? && Size(part.fields, "@damagemax").Ok? then Size(part.fields, "@damagemax").value else 0
  }

  /** `damageMax` is the sum of `@damagemax` over every part of the vehicle, nested parts included. */
  lemma VehicleDamage(definition: Json)
    requires VehicleOf(definition).Ok?
    ensures Parts(definition).Ok?
    ensures var ps := Parts(definition).value;
      && (forall k :: 0 <= k < |ps| ==> ps[k].Obj? && Size(ps[k].fields, "@damagemax").Ok?)
      && VehicleOf(definition).value.damageMax == Sum(seq(|ps|, k requires 0 <= k < |ps| => PartDamage(ps[k])))
  {
    FactsOfParts(definition);
    var fs := Facts(definition, Step()).value;
    var ps := Parts(definition).value;
    assert VehicleOf(definition).value.damageMax == DamageSum(fs);
    DamageSumOf(fs, seq(|ps|, k requires 0 <= k < |ps| => PartDamage(ps[k])));
  }

  /** The port belongs to an `ItemPort` part and carries that part's `@name` when it has one. */
  predicate HeldBy(port: VehiclePort, part: Json) {
    && part.Obj? && Index(part, "@class") == Ok(Str("ItemPort"))
    && (Truthy(Lookup(part.fields, "@name")) ==> port.port.name == Lookup(part.fields, "@name"))
  }

  /** Every control seat is a port, so there are no more seats than ports; every port
      is named after the part that holds it, as written. */
  lemma VehicleSeatsAndNames(definition: Json)
    requires VehicleOf(definition).Ok?
    ensures Parts(definition).Ok?
    ensures var v := VehicleOf(definition).value; var ps := Parts(definition).value;
      && 0 <= v.controlSeats <= |v.ports|
      && forall j :: 0 <= j < |v.ports| ==>
        exists k :: 0 <= k < |ps| && HeldBy(v.ports[j], ps[k])
  {
    FactsOfParts(definition);
    var fs := Facts(definition, Step()).value;
    PartsPorts(Parts(definition).value, fs);
    var v := VehicleOf(definition).value;
    assert v.controlSeats == SeatCount(fs) && v.ports == PortsOf(fs);
  }

  /** The seats and ports the walk collects from parts that the factory read. */
  lemma PartsPorts(ps: seq<Json>, fs: seq<PartFacts<VehiclePort>>)
    requires |fs| == |ps| && forall k :: 0 <= k < |ps| ==> FactoryPart(ps[k]) == Ok(fs[k])
    ensures SeatCount(fs) <= |PortsOf(fs)|
    ensures forall j :: 0 <= j < |PortsOf(fs)| ==> exists k :: 0 <= k < |ps| && HeldBy(PortsOf(fs)[j], ps[k])
  {
    SeatsAtMostPorts(fs);
    forall j | 0 <= j < |PortsOf(fs)|
      ensures exists k :: 0 <= k < |ps| && HeldBy(PortsOf(fs)[j], ps[k])
    {
      PortsFromParts(fs, j);
      var k :| 0 <= k < |fs| && fs[k].port == Some(PortsOf(fs)[j]);
      assert FactoryPart(ps[k]) == Ok(fs[k]);
    }
  }
}
