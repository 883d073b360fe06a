/** The newer store: admission by slots or by mass and length, and pick-up and drop on a shared selection. */
module Store {
  import opened GameWorld
  import opened Config
  import opened Admission
  import opened UI

  /** Names that are never stored unless the blacklist is disabled. */
  const Blacklist: seq<string> := ["JONNEZ ES(Clone)", "doorl", "doorr", "doorear"]

  /** Where stored objects are parked. */
  const TempPosition: Vector3 := Vector3(0.0, 1000.0, 0.0)

  /**
   * CanPickUp's decision: duplicate first, then the prerequisites (blacklist, rigid body,
   * installed/bolted, layer), then, unless bypassed, capacity. The first failing check decides.
   */
  function HandlerVerdict(items: seq<GameObject>, o: GameObject, bypass: bool, disableBlacklist: bool, lim: Limits): Verdict {
    if o in items then Reject(AlreadyStored)
    else match Prerequisites(o, Blacklist, disableBlacklist)
      case Some(r) => Reject(r)
      case None =>
        if bypass then Accept
        else match CapacityCheck(|items|, o, lim)
          case Some(r) => Reject(r)
          case None => Accept
  }

  /** The selection is in range for a non-empty list; for an empty one it is -1 or 0. */
  predicate IndexOk(cur: int, count: int) {
    if count == 0 then cur == -1 || cur == 0 else 0 <= cur < count
  }

  // ---------------------------------------------------------------- properties of the decision

  /** An object already stored is always refused, so a second attempt changes nothing. */
  lemma StoredIsRejected(items: seq<GameObject>, o: GameObject, bypass: bool, disableBlacklist: bool, lim: Limits)
    requires o in items
    ensures HandlerVerdict(items, o, bypass, disableBlacklist, lim) == Reject(AlreadyStored)
  {
  }

  /** Acceptance is exactly: not stored, all prerequisites met, and capacity bypassed or available. */
  lemma AcceptIff(items: seq<GameObject>, o: GameObject, bypass: bool, disableBlacklist: bool, lim: Limits)
    ensures HandlerVerdict(items, o, bypass, disableBlacklist, lim) == Accept <==>
      o !in items && Prerequisites(o, Blacklist, disableBlacklist).None? &&
      (bypass || CapacityCheck(|items|, o, lim).None?)
  {
  }

  /** With the bypass flag, capacity is never a reason and the decision does not depend on the limits. */
  lemma BypassSkipsCapacity(items: seq<GameObject>, o: GameObject, disableBlacklist: bool, lim: Limits, lim': Limits)
    ensures HandlerVerdict(items, o, true, disableBlacklist, lim) == HandlerVerdict(items, o, true, disableBlacklist, lim')
    ensures HandlerVerdict(items, o, true, disableBlacklist, lim).Reject? ==>
      !HandlerVerdict(items, o, true, disableBlacklist, lim).reason.IsCapacity()
  {
    ChecksAreSeparate(o, Blacklist, disableBlacklist, |items|, lim);
  }

  /** In slot mode, an eligible object is refused for capacity exactly when the list holds MaxSlots or more. */
  lemma SlotModeFullIff(items: seq<GameObject>, o: GameObject, disableBlacklist: bool, lim: Limits)
    requires !lim.suffering && o !in items && Prerequisites(o, Blacklist, disableBlacklist).None?
    ensures HandlerVerdict(items, o, false, disableBlacklist, lim) == Reject(Full) <==> |items| >= lim.maxSlots
    ensures HandlerVerdict(items, o, false, disableBlacklist, lim) == Accept <==> |items| < lim.maxSlots
  {
  }

  /** Checks run in order: a reason further down the list is only reported when every earlier check passed. */
  lemma CheckOrder(items: seq<GameObject>, o: GameObject, bypass: bool, disableBlacklist: bool, lim: Limits)
    ensures var v := HandlerVerdict(items, o, bypass, disableBlacklist, lim);
      && (v == Reject(Blacklisted) ==> o !in items)
      && (v == Reject(NoRigidbody) ==> o !in items && (disableBlacklist || o.name !in Blacklist))
      && ((v == Reject(Installed) || v == Reject(Bolted)) ==>
            o !in items && (disableBlacklist || o.name !in Blacklist) && o.hasRigidbody && v.reason == FirstFastening(o.fsms).value)
      && (v == Reject(WrongLayer) ==>
            o !in items && (disableBlacklist || o.name !in Blacklist) && o.hasRigidbody && FirstFastening(o.fsms).None?)
      && (v.Reject? && v.reason.IsCapacity() ==> !bypass && o !in items && Prerequisites(o, Blacklist, disableBlacklist).None?)
  {
    FasteningIsInstalledOrBolted(o.fsms);
  }

  /** With the blacklist disabled, an object is never refused for its name. */
  lemma DisabledBlacklistNeverRejects(items: seq<GameObject>, o: GameObject, bypass: bool, lim: Limits)
    ensures HandlerVerdict(items, o, bypass, true, lim) != Reject(Blacklisted)
  {
    FasteningIsInstalledOrBolted(o.fsms);
  }

  class InventoryHandler {
    var Items: seq<GameObject>
    var SufferingMode: bool
    var MaxSlots: int
    var Mass: real
    var MassCapacity: real
    var MaxLength: real

    function Limits(): Limits
      reads this
    {
      Admission.Limits(SufferingMode, MaxSlots, Mass, MassCapacity, MaxLength)
    }

    /** No duplicates; every stored object has a rigid body that is kinematic while stored. */
    ghost predicate Valid()
      reads this, Items
    {
      && 0 <= MaxSlots <= 15
      && NoDuplicates(Items)
      && forall i :: 0 <= i < |Items| ==> Items[i].hasRigidbody && Items[i].isKinematic
    }

    /** The cached mass is the sum of the stored masses (kept only in suffering mode). */
    ghost predicate MassTracked()
      reads this
    {
      SufferingMode ==> Mass == SumMass(Items)
    }

    constructor (settings: Settings)
      ensures Valid() && MassTracked()
      ensures Items == [] && Mass == 0.0
      ensures MaxSlots == Min(15, settings.maxSlots) && SufferingMode == settings.sufferingMode
      ensures MassCapacity == settings.weightLimit && MaxLength == settings.lengthLimitCm / 100.0
    {
      Items := [];
      Mass := 0.0;
      new;
      SetupValues(settings);
    }

    /** Re-reads the configuration. Items and the cached mass are left as they are. */
    method SetupValues(settings: Settings)
      modifies this`MaxSlots, this`SufferingMode, this`MassCapacity, this`MaxLength
      ensures MaxSlots == Min(15, settings.maxSlots) && MaxSlots <= 15
      ensures SufferingMode == settings.sufferingMode
      ensures MassCapacity == settings.weightLimit
      ensures MaxLength == settings.lengthLimitCm / 100.0
    {
      MaxSlots := Min(15, settings.maxSlots);
      SufferingMode := settings.sufferingMode;
      MassCapacity := settings.weightLimit;
      MaxLength := settings.lengthLimitCm / 100.0;
    }

    /** SetupValues followed by a recount of the cached mass, so that switching to suffering mode keeps it exact. */
    method SetupValuesAndRecount(settings: Settings)
      modifies this`MaxSlots, this`SufferingMode, this`MassCapacity, this`MaxLength, this`Mass
      ensures MaxSlots == Min(15, settings.maxSlots) && SufferingMode == settings.sufferingMode
      ensures MassCapacity == settings.weightLimit && MaxLength == settings.lengthLimitCm / 100.0
      ensures MassTracked()
      ensures !SufferingMode ==> Mass == old(Mass)
    {
      SetupValues(settings);
      UpdateMass();
    }

    method CanPickUp(target: GameObject, bypass: bool, disableBlacklist: bool) returns (v: Verdict)
      ensures v == HandlerVerdict(Items, target, bypass, disableBlacklist, Limits())
    {
      if target in Items {
        return Reject(AlreadyStored);
      }
      if !disableBlacklist && target.name in Blacklist {
        return Reject(Blacklisted);
      }
      if !target.hasRigidbody {
        return Reject(NoRigidbody);
      }
      var fastened := FindFastening(target.fsms);
      if fastened.Some? {
        return Reject(fastened.value);
      }
      if !(target.layer == 16 || target.layer == 19) {
        return Reject(WrongLayer);
      }
      if !bypass {
        if !SufferingMode {
          if |Items| >= MaxSlots {
            return Reject(Full);
          }
        } else {
          if !bypass && MassCapacity - Mass < target.mass {
            return Reject(TooHeavy);
          }
          var longestSide := 0.0;
          if target.name in LengthOverrides {
            longestSide := LengthOverrides[target.name];
          } else {
            longestSide := MeasureMeshes(target);
            if !bypass && longestSide > MaxLength {
              return Reject(TooLong);
            }
          }
        }
      }
      return Accept;
    }

    method AttemptPickUp(target: GameObject, bypass: bool, disableBlacklist: bool, ui: UIHandler) returns (ok: bool, v: Verdict)
      requires Valid()
      modifies this`Items, this`Mass, ui`CurIndex
      modifies if HandlerVerdict(Items, target, bypass, disableBlacklist, Limits()) == Accept then {target} else {}
      ensures Valid()
      ensures v == HandlerVerdict(old(Items), target, bypass, disableBlacklist, old(Limits()))
      ensures ok <==> v == Accept
      ensures ok ==> && Items == old(Items) + [target]
                     && target.isKinematic && target.position == TempPosition && target.parent == null
                     && ui.CurIndex == Max(0, Min(old(ui.CurIndex), |Items|))
                     && Mass == (if SufferingMode then SumMass(Items) else old(Mass))
      ensures !ok ==> Items == old(Items) && Mass == old(Mass) && ui.CurIndex == old(ui.CurIndex) && unchanged(target)
      ensures old(MassTracked()) ==> MassTracked()
      ensures IndexOk(old(ui.CurIndex), |old(Items)|) ==> IndexOk(ui.CurIndex, |Items|)
    {
      v := CanPickUp(target, bypass, disableBlacklist);
      if v.Reject? {
        return false, v;
      }
      Items := Items + [target];
      target.parent := null;
      target.isKinematic := true;
      target.position := TempPosition;
      ui.CurIndex := Max(0, Min(ui.CurIndex, |Items|));
      UpdateMass();
      ok := true;
    }

    method DropCurrent(position: Option<Vector3>, cameraPoint: Vector3, ui: UIHandler)
      requires Valid() && 0 <= ui.CurIndex < |Items|
      modifies this`Items, this`Mass, ui`CurIndex, Items[ui.CurIndex]
      ensures Valid()
      ensures var i := old(ui.CurIndex); var go := old(Items[i]);
        && Items == old(Items[..i] + Items[i + 1..])
        && !go.isKinematic && go.position == position.GetOr(cameraPoint) && go.parent == old(go.parent)
        && ui.CurIndex == Max(0, Min(i - 1, |Items|))
      ensures Mass == (if SufferingMode then SumMass(Items) else old(Mass))
      ensures SufferingMode && old(MassTracked()) ==> Mass == old(Mass) - old(Items[ui.CurIndex]).mass
      ensures IndexOk(ui.CurIndex, |Items|)
    {
      var pos := if position.None? then cameraPoint else position.value;
      var i := ui.CurIndex;
      var go := Items[i];
      ghost var before := Items;
      RemoveFirstOfUnique(Items, i);
      RemoveAtShape(Items, i);
      SumMassRemove(Items, i);
      go.isKinematic := false;
      go.position := pos;
      Items := RemoveFirst(Items, go);
      ui.CurIndex := Max(0, Min(ui.CurIndex - 1, |Items|));
      UpdateMass();
      assert Valid() by {
        forall j | 0 <= j < |Items| ensures Items[j].hasRigidbody && Items[j].isKinematic {
          var k := if j < i then j else j + 1;
          assert Items[j] == before[k] && Items[j] != go;
        }
      }
    }

    method DropAll(position: Option<Vector3>, cameraPoint: Vector3, ui: UIHandler) returns (leftover: bool)
      requires Valid() && ui.Valid() && IndexOk(ui.CurIndex, |Items|)
      modifies this`Items, this`Mass, ui`CurIndex, ui`Entries, set o | o in Items
      ensures Valid() && ui.Valid() && Items == [] && !leftover
      ensures forall o :: o in old(Items) ==> !o.isKinematic && o.position == position.GetOr(cameraPoint)
      ensures forall o :: o in old(Items) ==> o.parent == old(o.parent)
      ensures ui.CurIndex == if old(Items) == [] then old(ui.CurIndex) else 0
      ensures Mass == if SufferingMode && old(Items) != [] then 0.0 else old(Mass)
      ensures ui.active ==> ui.Entries == [NotAvailable]
      ensures !ui.active ==> ui.Entries == old(ui.Entries)
    {
      DropEach(position, cameraPoint, ui);
      leftover := |Items| > 0;
      ui.Refresh(Items);
    }

    /** The loop of DropAll: DropCurrent once per item stored when it starts. */
    method DropEach(position: Option<Vector3>, cameraPoint: Vector3, ui: UIHandler)
      requires Valid() && IndexOk(ui.CurIndex, |Items|)
      modifies this`Items, this`Mass, ui`CurIndex, set o | o in Items
      ensures Valid() && Items == []
      ensures forall o :: o in old(Items) ==> !o.isKinematic && o.position == position.GetOr(cameraPoint)
      ensures forall o :: o in old(Items) ==> o.parent == old(o.parent)
      ensures ui.CurIndex == if old(Items) == [] then old(ui.CurIndex) else 0
      ensures Mass == if SufferingMode && old(Items) != [] then 0.0 else old(Mass)
    {
      var n := |Items|;
      var k := 0;
      while k < n
        invariant 0 <= k <= n && |Items| == n - k
        invariant Valid() && IndexOk(ui.CurIndex, |Items|)
        invariant forall o :: o in Items ==> o in old(Items)
        invariant forall o :: o in old(Items) && o !in Items ==> !o.isKinematic && o.position == position.GetOr(cameraPoint)
        invariant forall o :: o in old(Items) ==> o.parent == old(o.parent)
        invariant k == 0 ==> ui.CurIndex == old(ui.CurIndex)
        invariant k > 0 ==> ui.CurIndex >= 0
        invariant Mass == if SufferingMode && k > 0 then SumMass(Items) else old(Mass)
      {
        DropOneOfEach(position, cameraPoint, ui);
        k := k + 1;
      }
    }

    /** One turn of DropEach: DropCurrent, stated as which items remain and what became of the one released. */
    method DropOneOfEach(position: Option<Vector3>, cameraPoint: Vector3, ui: UIHandler)
      requires Valid() && 0 <= ui.CurIndex < |Items|
      modifies this`Items, this`Mass, ui`CurIndex, Items[ui.CurIndex]
      ensures Valid() && |Items| == |old(Items)| - 1 && IndexOk(ui.CurIndex, |Items|) && ui.CurIndex >= 0
      ensures forall o :: o in Items ==> o in old(Items)
      ensures forall o :: o in old(Items) && o !in Items ==> !o.isKinematic && o.position == position.GetOr(cameraPoint)
      ensures forall o :: o in old(Items) ==> o.parent == old(o.parent)
      ensures Mass == if SufferingMode then SumMass(Items) else old(Mass)
    {
      RemoveAtMembership(Items, ui.CurIndex);
      DropCurrent(position, cameraPoint, ui);
    }

    /** Recomputes the cached mass as the sum of the stored masses; outside suffering mode it is not touched. */
    method UpdateMass()
      modifies this`Mass
      ensures Mass == if SufferingMode then SumMass(Items) else old(Mass)
    {
      if !SufferingMode {
        return;
      }
      Mass := AccumulateMass(Items);
    }
  }
}
