/** Which vehicles the scripts leave out of the published data: those whose
    name contains one of a few fixed fragments (NPC variants, development
    builds, unfinished ships and recolours). */
module Hiding {
  import opened Text

  /** The first fragment, in list order, that occurs in `name`. */
  function FirstFragment(name: string, fragments: seq<string>): (r: nat)
    ensures r <= |fragments|
    ensures forall i :: 0 <= i < r ==> !Contains(name, fragments[i])
    ensures r < |fragments| ==> Contains(name, fragments[r])
  {
    if fragments == [] then 0
    else if Contains(name, fragments[0]) then 0
    else
      var r := FirstFragment(name, fragments[1..]);
      assert forall i :: 1 <= i < |fragments| ==> fragments[i] == fragments[1..][i - 1];
      r + 1
  }

  /** `for entry in fragments: if entry in name: return True`, falling through to the end. */
  predicate AnyIn(name: string, fragments: seq<string>) {
    FirstFragment(name, fragments) < |fragments|
  }

  /** The loop finds a fragment exactly when one of them is a substring of the name. */
  lemma AnyInSubstring(name: string, fragments: seq<string>)
    ensures AnyIn(name, fragments) <==> exists i, k :: 0 <= i < |fragments| && 0 <= k <= |name| && fragments[i] <= name[k..]
  {
    if AnyIn(name, fragments) {
      var i := FirstFragment(name, fragments);
      assert Contains(name, fragments[i]);
    }
    if exists i, k :: 0 <= i < |fragments| && 0 <= k <= |name| && fragments[i] <= name[k..] {
      var i, k :| 0 <= i < |fragments| && 0 <= k <= |name| && fragments[i] <= name[k..];
      assert Contains(name, fragments[i]);
    }
  }

  lemma AnyInAppend(name: string, a: seq<string>, b: seq<string>)
    ensures AnyIn(name, a + b) <==> AnyIn(name, a) || AnyIn(name, b)
  {
    AnyInSubstring(name, a);
    AnyInSubstring(name, b);
    AnyInSubstring(name, a + b);
    if AnyIn(name, a + b) {
      var i, k :| 0 <= i < |a + b| && 0 <= k <= |name| && (a + b)[i] <= name[k..];
      if i >= |a| {
        assert b[i - |a|] <= name[k..];
      }
    }
    if AnyIn(name, a) {
      var i, k :| 0 <= i < |a| && 0 <= k <= |name| && a[i] <= name[k..];
      assert (a + b)[i] <= name[k..];
    }
    if AnyIn(name, b) {
      var i, k :| 0 <= i < |b| && 0 <= k <= |name| && b[i] <= name[k..];
      assert (a + b)[i + |a|] <= name[k..];
    }
  }

  /** Looking through more fragments finds at least as much. */
  lemma AnyInSubset(name: string, a: seq<string>, b: seq<string>)
    requires forall f :: f in a ==> f in b
    ensures AnyIn(name, a) ==> AnyIn(name, b)
  {
    AnyInSubstring(name, a);
    AnyInSubstring(name, b);
    if AnyIn(name, a) {
      var i, k :| 0 <= i < |a| && 0 <= k <= |name| && a[i] <= name[k..];
      assert a[i] in b;
      var j :| 0 <= j < |b| && b[j] == a[i];
    }
  }

  const DevNames: seq<string> := ["_OLD", "_NoInterior", "_Template", "_Showdown", "_ShipShowdown"]
  const NpcNames: seq<string> :=
    ["_AI", "_Wreck", "probe_", "_S42", "_CitizenCon", "_Pirate", "_PIR", "_SimPod", "_Swarm", "XIAN_Nox_SM_TE", "F7A"]
  const UnfinishedNames: seq<string> := ["Redeemer", "DRAK_Cutlass_DRAK", "Taurus", "Cutlass_Blue", "Cutlass_Red"]
  const RecoloredNames: seq<string> := ["XIAN_Nox_Kue", "DRAK_Dragonfly_", "RSI_Constellation_Phoenix_"]

  /** `hidden_vehicle_name` of scripts/extract_data.py. */
  predicate HiddenVehicleName(name: string) {
    AnyIn(name, DevNames + NpcNames + UnfinishedNames + RecoloredNames)
  }

  /** A vehicle is hidden exactly when one of the four lists has a fragment of its name. */
  lemma HiddenVehicleNameIff(name: string)
    ensures HiddenVehicleName(name) <==>
      AnyIn(name, DevNames) || AnyIn(name, NpcNames) || AnyIn(name, UnfinishedNames) || AnyIn(name, RecoloredNames)
  {
    AnyInAppend(name, DevNames + NpcNames + UnfinishedNames, RecoloredNames);
    AnyInAppend(name, DevNames + NpcNames, UnfinishedNames);
    AnyInAppend(name, DevNames, NpcNames);
  }

  const AcquireNpcNames: seq<string> :=
    ["_AI", "_Wreck", "_OLD", "probe_", "_S42", "_NoInterior", "_CitizenCon", "_Pirate", "_SimPod", "_Swarm"]
  const AcquireUnfinishedNames: seq<string> := ["Redeemer", "DRAK_Cutlass_DRAK", "Taurus"]
  const AcquireRecoloredNames: seq<string> := ["XIAN_Nox_Kue", "DRAK_Dragonfly_"]

  /** `hidden` of scripts/acquire_data.py: the three loops, in order, each returning at its first hit. */
  predicate Hidden(name: string) {
    if AnyIn(name, AcquireNpcNames) then true
    else if AnyIn(name, AcquireUnfinishedNames) then true
    else AnyIn(name, AcquireRecoloredNames)
  }

  /** `hidden` holds exactly when some fragment of the three lists is a substring of the name. */
  lemma HiddenIff(name: string)
    ensures Hidden(name) <==> exists i, k ::
      0 <= i < |AcquireNpcNames + AcquireUnfinishedNames + AcquireRecoloredNames| && 0 <= k <= |name| &&
      (AcquireNpcNames + AcquireUnfinishedNames + AcquireRecoloredNames)[i] <= name[k..]
  {
    AnyInAppend(name, AcquireNpcNames + AcquireUnfinishedNames, AcquireRecoloredNames);
    AnyInAppend(name, AcquireNpcNames, AcquireUnfinishedNames);
    AnyInSubstring(name, AcquireNpcNames + AcquireUnfinishedNames + AcquireRecoloredNames);
  }

  /** The later script hides everything the earlier one did. */
  lemma HiddenStaysHidden(name: string)
    ensures Hidden(name) ==> HiddenVehicleName(name)
  {
    var all := AcquireNpcNames + AcquireUnfinishedNames + AcquireRecoloredNames;
    AnyInAppend(name, AcquireNpcNames + AcquireUnfinishedNames, AcquireRecoloredNames);
    AnyInAppend(name, AcquireNpcNames, AcquireUnfinishedNames);
    AnyInSubset(name, all, DevNames + NpcNames + UnfinishedNames + RecoloredNames);
  }
}
