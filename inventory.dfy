/** The older store, kept beside the newer one: same shape, no duplicate guard, bypass ignored, another index clamp. */
module LegacyStore {
  import opened GameWorld
  import opened Config
  import opened Admission
  import opened UI

  /** The newer blacklist plus "house_door1". */
  const LegacyBlacklist: seq<string> := ["JONNEZ ES(Clone)", "doorl", "doorr", "doorear", "house_door1"]

  const LegacyTempPosition: Vector3 := Vector3(0.0, -1000.0, 0.0)

  /** The legacy CanPickUp decision: the prerequisites, then (unless bypassed) capacity. There is no duplicate check. */
  function LegacyVerdict(items: seq<GameObject>, o: GameObject, bypass: bool, disableBlacklist: bool, lim: Limits): Verdict {
    match Prerequisites(o, LegacyBlacklist, disableBlacklist)
    case Some(r) => Reject(r)
    case None =>
      if bypass then Accept
      else match CapacityCheck(|items|, o, lim)
        case Some(r) => Reject(r)
        case None => Accept
  }

  /** An object already stored can be admitted again when it is otherwise eligible and there is room. */
  lemma StoredCanBeReadmitted(items: seq<GameObject>, o: GameObject, disableBlacklist: bool, lim: Limits)
    requires o in items && Prerequisites(o, LegacyBlacklist, disableBlacklist).None?
    requires !lim.suffering && |items| < lim.maxSlots
    ensures LegacyVerdict(items, o, false, disableBlacklist, lim) == Accept
  {
  }

  /** "house_door1" is refused by the legacy store while the blacklist is on, and never for its name by the newer one. */
  lemma HouseDoorOnlyLegacy(o: GameObject)
    requires o.name == "house_door1"
    ensures Prerequisites(o, LegacyBlacklist, false) == Some(Blacklisted)
    ensures Prerequisites(o, ["JONNEZ ES(Clone)", "doorl", "doorr", "doorear"], false) != Some(Blacklisted)
  {
    FasteningIsInstalledOrBolted(o.fsms);
  }

  /** With capacity enforced, a full slot-mode store refuses every eligible object, stored or not. */
  lemma LegacyFullRejects(items: seq<GameObject>, o: GameObject, disableBlacklist: bool, lim: Limits)
    requires !lim.suffering && |items| >= lim.maxSlots && Prerequisites(o, LegacyBlacklist, disableBlacklist).None?
    ensures LegacyVerdict(items, o, false, disableBlacklist, lim) == Reject(Full)
  {
  }

  class Inventory {
    var MaxSlots: int
    var Items: seq<GameObject>
    var SufferingMode: bool
    var Mass: real
    var MassCapacity: real
    var LengthCapacity: real

    function Limits(): Limits
      reads this
    {
      Admission.Limits(SufferingMode, MaxSlots, Mass, MassCapacity, LengthCapacity)
    }

    /** Every stored object has a rigid body; duplicates are possible. */
    ghost predicate Valid()
      reads this
    {
      && 0 <= MaxSlots <= 15
      && forall i :: 0 <= i < |Items| ==> Items[i].hasRigidbody
    }

    ghost predicate MassTracked()
      reads this
    {
      SufferingMode ==> Mass == SumMass(Items)
    }

    /** MaxSlots is read here only; SetupValues reads the rest. */
    constructor (settings: Settings)
      ensures Valid() && MassTracked() && Items == [] && Mass == 0.0
      ensures MaxSlots == Min(15, settings.maxSlots)
      ensures SufferingMode == settings.sufferingMode && MassCapacity == settings.weightLimit
      ensures LengthCapacity == settings.lengthLimitCm / 100.0
    {
      Items := [];
      Mass := 0.0;
      MaxSlots := Min(15, settings.maxSlots);
      new;
      SetupValues(settings);
    }

    method SetupValues(settings: Settings)
      modifies this`SufferingMode, this`MassCapacity, this`LengthCapacity
      ensures SufferingMode == settings.sufferingMode && MassCapacity == settings.weightLimit
      ensures LengthCapacity == settings.lengthLimitCm / 100.0
    {
      SufferingMode := settings.sufferingMode;
      MassCapacity := settings.weightLimit;
      LengthCapacity := settings.lengthLimitCm / 100.0;
    }

    method CanPickUp(o: GameObject, bypassLimit: bool, disableBlacklist: bool) returns (v: Verdict)
      ensures v == LegacyVerdict(Items, o, bypassLimit, disableBlacklist, Limits())
    {
      if !disableBlacklist && o.name in LegacyBlacklist {
        return Reject(Blacklisted);
      }
      if !o.hasRigidbody {
        return Reject(NoRigidbody);
      }
      var fastened := FindFastening(o.fsms);
      if fastened.Some? {
        return Reject(fastened.value);
      }
      if !(o.layer == 16 || o.layer == 19) {
        return Reject(WrongLayer);
      }
      if !bypassLimit {
        if !SufferingMode {
          if |Items| >= MaxSlots {
            return Reject(Full);
          }
        } else {
          if !bypassLimit && MassCapacity - Mass < o.mass {
            return Reject(TooHeavy);
          }
          var longestSide := 0.0;
          if o.name in LengthOverrides {
            longestSide := LengthOverrides[o.name];
          } else {
            longestSide := MeasureMeshes(o);
            if !bypassLimit && longestSide > LengthCapacity {
              return Reject(TooLong);
            }
          }
        }
      }
      return Accept;
    }

    /** The decision is taken with capacity enforced whatever `bypassLimit` says: the flag is not passed on. */
    method PickUp(o: GameObject, bypassLimit: bool, disableBlacklist: bool, ui: UIHandler) returns (ok: bool, v: Verdict)
      requires Valid()
      modifies this`Items, this`Mass, ui`CurIndex, o
      ensures Valid()
      ensures v == LegacyVerdict(old(Items), o, false, disableBlacklist, old(Limits()))
      ensures ok <==> v == Accept
      ensures ok ==> && Items == old(Items) + [o]
                     && o.isKinematic && o.position == LegacyTempPosition && o.parent == null
                     && ui.CurIndex == Max(0, Min(old(ui.CurIndex), |Items|))
                     && Mass == (if SufferingMode then SumMass(Items) else old(Mass))
      ensures !ok ==> Items == old(Items) && Mass == old(Mass) && ui.CurIndex == old(ui.CurIndex) && unchanged(o)
    {
      v := CanPickUp(o, false, disableBlacklist);
      if v.Reject? {
        return false, v;
      }
      Items := Items + [o];
      o.parent := null;
      o.isKinematic := true;
      o.position := LegacyTempPosition;
      ui.CurIndex := Max(0, Min(ui.CurIndex, |Items|));
      UpdateMass();
      ok := true;
    }

    /**
     * Drops the selected item in front of the camera. `List.Remove` drops the first occurrence of
     * that object, which is the selected position unless the object is stored twice.
     */
    method DropCurrent(cameraPoint: Vector3, ui: UIHandler) returns (dropped: bool)
      requires Valid() && 0 <= ui.CurIndex < |Items|
      modifies this`Items, this`Mass, ui`CurIndex, Items[ui.CurIndex]
      ensures Valid() && dropped
      ensures var i := old(ui.CurIndex); var go := old(Items[i]);
        && Items == RemoveFirst(old(Items), go)
        && (NoDuplicates(old(Items)) ==> Items == old(Items[..i] + Items[i + 1..]))
        && !go.isKinematic && go.position == cameraPoint && go.parent == old(go.parent)
        && ui.CurIndex == Max(0, Min(i, |Items|))
      ensures |Items| == |old(Items)| - 1
      ensures old(ui.CurIndex) == |old(Items)| - 1 ==> ui.CurIndex == |Items|
      ensures Mass == (if SufferingMode then SumMass(Items) else old(Mass))
    {
      var i := ui.CurIndex;
      var go := Items[i];
      go.isKinematic := false;
      go.position := cameraPoint;
      RemoveFirstKeepsOthers(Items, go);
      if NoDuplicates(Items) {
        RemoveFirstOfUnique(Items, i);
      }
      ghost var before := Items;
      Items := RemoveFirst(Items, go);
      assert forall j :: 0 <= j < |Items| ==> Items[j] in before;
      ui.CurIndex := Max(0, Min(ui.CurIndex, |Items|));
      UpdateMass();
      dropped := true;
    }

    method UpdateMass()
      modifies this`Mass
      ensures Mass == if SufferingMode then SumMass(Items) else old(Mass)
    {
      if !SufferingMode {
        return;
      }
      Mass := AccumulateMass(Items);
    }
  }

  /** Removing the first occurrence of a present element shortens the list by one and keeps only listed elements. */
  lemma {:induction false} RemoveFirstKeepsOthers<T>(s: seq<T>, x: T)
    requires x in s
    ensures |RemoveFirst(s, x)| == |s| - 1
    ensures forall y :: y in RemoveFirst(s, x) ==> y in s
  {
    if s[0] != x {
      RemoveFirstKeepsOthers(s[1..], x);
    }
  }
}
