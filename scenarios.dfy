/** Concrete runs of the inventory on small configurations. */
module Scenarios {
  import opened GameWorld
  import opened Config
  import opened Admission
  import opened UI
  import opened Store
  import opened LegacyStore
  import opened Yaim

  const Origin: Vector3 := Vector3(0.0, 0.0, 0.0)

  function SlotSettings(maxSlots: Byte, weightLimit: real): Settings {
    Settings(true, false, false, maxSlots, weightLimit, 200.0, false, false, false, false)
  }

  function SufferingSettings(weightLimit: real): Settings {
    Settings(true, false, true, 15, weightLimit, 200.0, false, false, false, false)
  }

  /** A loose box on the pickable layer: no state machines, no meshes. */
  method NewBox(mass: real) returns (o: GameObject)
    ensures fresh(o) && IsBox(o) && o.mass == mass
  {
    o := new GameObject("box", true, mass, 16, [], NoMeshFilter, [], Origin);
  }

  predicate IsBox(o: GameObject) {
    o.name == "box" && o.hasRigidbody && o.layer == 16 && o.fsms == [] && o.ownMesh == NoMeshFilter && o.childMeshes == []
  }

  /** A box not yet stored passes every prerequisite, so only the capacity block can refuse it. */
  lemma BoxVerdict(items: seq<GameObject>, o: GameObject, lim: Limits)
    requires IsBox(o) && o !in items && lim.maxLength >= 0.0
    ensures HandlerVerdict(items, o, false, false, lim) ==
      if lim.suffering then (if lim.massCapacity - lim.mass < o.mass then Reject(TooHeavy) else Accept)
      else (if |items| >= lim.maxSlots then Reject(Full) else Accept)
  {
    assert Flatten([]) == [];
    assert "box" !in LengthOverrides;
    assert "box" !in Blacklist;
  }

  /** In slot mode the older store judges a box by the slot count alone, stored or not. */
  lemma LegacyBoxVerdict(items: seq<GameObject>, o: GameObject, lim: Limits)
    requires IsBox(o) && !lim.suffering
    ensures LegacyVerdict(items, o, false, false, lim) == if |items| >= lim.maxSlots then Reject(Full) else Accept
  {
    assert "box" !in LegacyBlacklist;
  }

  /** One pick-up of a box not yet stored, stated on the slot count and the cached mass alone. */
  method PickBox(h: InventoryHandler, ui: UIHandler, o: GameObject) returns (v: Verdict)
    requires h.Valid() && IsBox(o) && o !in h.Items && h.MaxLength >= 0.0
    modifies h`Items, h`Mass, ui`CurIndex, o
    ensures h.Valid() && (old(h.MassTracked()) ==> h.MassTracked())
    ensures v == if h.SufferingMode then (if h.MassCapacity - old(h.Mass) < o.mass then Reject(TooHeavy) else Accept)
                 else (if |old(h.Items)| >= h.MaxSlots then Reject(Full) else Accept)
    ensures v == Accept ==> h.Items == old(h.Items) + [o] && h.Mass == (if h.SufferingMode then SumMass(old(h.Items)) + o.mass else old(h.Mass))
    ensures v != Accept ==> h.Items == old(h.Items) && h.Mass == old(h.Mass)
  {
    BoxVerdict(h.Items, o, h.Limits());
    var ok;
    ok, v := h.AttemptPickUp(o, false, false, ui);
    if ok {
      SumMassAppend(old(h.Items), o);
    }
  }

  /** With two slots, two boxes are stored and the third is refused as full. */
  method TwoSlots() returns (v1: Verdict, v2: Verdict, v3: Verdict, count: nat)
    ensures v1 == Accept && v2 == Accept && v3 == Reject(Full) && count == 2
  {
    var h := new InventoryHandler(SlotSettings(2, 10.0));
    var ui := new UIHandler(NotAvailable);
    var a := NewBox(1.0);
    v1 := PickBox(h, ui, a);
    var b := NewBox(1.0);
    v2 := PickBox(h, ui, b);
    var c := NewBox(1.0);
    v3 := PickBox(h, ui, c);
    count := |h.Items|;
  }

  /** In suffering mode with 10 kg of room, a 6 kg box is stored and a 5 kg box is then too heavy. */
  method TenKilograms() returns (v1: Verdict, v2: Verdict, mass: real)
    ensures v1 == Accept && v2 == Reject(TooHeavy) && mass == 6.0
  {
    var h := new InventoryHandler(SufferingSettings(10.0));
    var ui := new UIHandler(NotAvailable);
    var a := NewBox(6.0);
    v1 := PickBox(h, ui, a);
    assert h.Items == [a];
    assert SumMass([a]) == 6.0 by {
      assert MassOfFirst([a], 0) == 0.0;
    }
    assert h.Mass == 6.0 && h.MassCapacity == 10.0 && h.SufferingMode;
    var b := NewBox(5.0);
    ghost var capacity := h.MassCapacity;
    v2 := PickBox(h, ui, b);
    assert capacity == h.MassCapacity;
    mass := h.Mass;
  }

  /** A handler in slot mode (five slots, 8 kg configured) holding one 6 kg box, with the cached mass still 0. */
  method SixKilogramsInSlotMode() returns (h: InventoryHandler, ui: UIHandler, a: GameObject)
    ensures fresh(h) && fresh(ui) && fresh(a) && h.Valid() && IsBox(a) && a.mass == 6.0
    ensures h.Items == [a] && h.Mass == 0.0 && !h.SufferingMode
  {
    h := new InventoryHandler(SlotSettings(5, 8.0));
    ui := new UIHandler(NotAvailable);
    a := NewBox(6.0);
    var v := PickBox(h, ui, a);
  }

  /**
   * Suffering mode switched on with 8 kg of room through SetupValues as written, after a 6 kg box
   * was stored in slot mode: the cached mass is still 0, so a 5 kg box is admitted and the
   * inventory ends up holding 11 kg.
   */
  method StaleMassAdmitsOverweight() returns (stale: real, v: Verdict, total: real, capacity: real)
    ensures stale == 0.0 && v == Accept && total == 11.0 && capacity == 8.0 && total > capacity
  {
    var h, ui, a := SixKilogramsInSlotMode();
    h.SetupValues(SufferingSettings(8.0));
    stale := h.Mass;
    assert SumMass([a]) == 6.0 by {
      assert MassOfFirst([a], 0) == 0.0;
    }
    var b := NewBox(5.0);
    v := PickBox(h, ui, b);
    total := h.Mass;
    capacity := h.MassCapacity;
  }

  /** The same run with the recount after re-reading the settings: the 5 kg box is too heavy. */
  method RecountRejectsOverweight() returns (mass: real, v: Verdict)
    ensures mass == 6.0 && v == Reject(TooHeavy)
  {
    var h, ui, a := SixKilogramsInSlotMode();
    h.SetupValuesAndRecount(SufferingSettings(8.0));
    assert SumMass([a]) == 6.0 by {
      assert MassOfFirst([a], 0) == 0.0;
    }
    mass := h.Mass;
    var b := NewBox(5.0);
    v := PickBox(h, ui, b);
  }

  /**
   * The older store with two boxes and the second one selected: dropping it clamps the selection
   * to the new count, one past the last entry, so the next drop would index out of range.
   */
  method LegacyDropLastOverruns() returns (cur: int, count: nat)
    ensures count == 1 && cur == 1 && !IndexOk(cur, count)
  {
    var inv := new Inventory(SlotSettings(5, 8.0));
    var ui := new UIHandler(NotAvailable);
    var a := NewBox(1.0);
    LegacyBoxVerdict([], a, inv.Limits());
    var ok, v := inv.PickUp(a, false, false, ui);
    var b := NewBox(1.0);
    LegacyBoxVerdict(inv.Items, b, inv.Limits());
    ok, v := inv.PickUp(b, false, false, ui);
    assert |inv.Items| == 2;
    ui.AdjustActiveIndex(true, inv.Items);
    var dropped := inv.DropCurrent(Origin, ui);
    cur := ui.CurIndex;
    count := |inv.Items|;
  }

  /** The same run on the newer store: the selection steps back to the remaining entry. */
  method DropLastStaysInRange() returns (cur: int, count: nat)
    ensures count == 1 && cur == 0 && IndexOk(cur, count)
  {
    var h := new InventoryHandler(SlotSettings(5, 8.0));
    var ui := new UIHandler(NotAvailable);
    var a := NewBox(1.0);
    var v := PickBox(h, ui, a);
    var b := NewBox(1.0);
    v := PickBox(h, ui, b);
    assert |h.Items| == 2;
    ui.AdjustActiveIndex(true, h.Items);
    h.DropCurrent(None, Origin, ui);
    cur := ui.CurIndex;
    count := |h.Items|;
  }

  // ---------------------------------------------------------------- what one frame leaves alone

  /** A frame with the list closed stores, drops and moves nothing, and keeps the cached mass. */
  method HiddenFrameKeepsObjects(m: Mod, f: Frame, s: Settings, handler: InventoryHandler, ui: UIHandler, o: GameObject)
      returns (faulted: bool)
    requires Consistent(handler, ui) && |handler.Items| < 255 && !ui.active && !f.toggleKey && o in handler.Items
    modifies m, handler, ui, (set x | x in handler.Items), Targets(f.hits)
    ensures !faulted && handler.Items == old(handler.Items) && handler.Mass == old(handler.Mass)
    ensures o.position == old(o.position) && o.isKinematic == old(o.isKinematic) && o.parent == old(o.parent)
  {
    faulted := m.Step(f, s, handler, ui);
  }

  /** A frame with no action key keeps the stored list and the cached mass, scroll or not. */
  method ScrollOnlyKeepsMass(m: Mod, f: Frame, s: Settings, handler: InventoryHandler, ui: UIHandler) returns (faulted: bool)
    requires Consistent(handler, ui) && |handler.Items| < 255
    requires !f.dropAllKey && !f.pickUpKey && !f.dropSelectedKey
    modifies m, handler, ui, (set x | x in handler.Items), Targets(f.hits)
    ensures !faulted && handler.Items == old(handler.Items) && handler.Mass == old(handler.Mass)
  {
    faulted := m.Step(f, s, handler, ui);
  }

  /** A frame that throws keeps the list and the cached mass, and the store and list still agree. */
  method FaultKeepsStore(m: Mod, f: Frame, s: Settings, handler: InventoryHandler, ui: UIHandler) returns (faulted: bool)
    requires Consistent(handler, ui) && |handler.Items| < 255
    modifies m, handler, ui, (set x | x in handler.Items), Targets(f.hits)
    ensures faulted ==> handler.Items == old(handler.Items) && handler.Mass == old(handler.Mass)
    ensures Consistent(handler, ui)
  {
    faulted := m.Step(f, s, handler, ui);
  }

  /** Drop-all with the list open releases every stored object at the camera point with its parent kept. */
  method DropAllReleases(m: Mod, f: Frame, s: Settings, handler: InventoryHandler, ui: UIHandler, o: GameObject)
      returns (faulted: bool)
    requires Consistent(handler, ui) && |handler.Items| < 255 && ui.active && !f.toggleKey && f.dropAllKey
    requires o in handler.Items
    modifies m, handler, ui, (set x | x in handler.Items), Targets(f.hits)
    ensures !faulted && handler.Items == []
    ensures !o.isKinematic && o.position == f.cameraPoint && o.parent == old(o.parent)
  {
    faulted := m.Step(f, s, handler, ui);
  }

  /** A hit that is refused leaves its object as it was; one that is picked is parked with no parent. */
  method RefusedHitUntouched(m: Mod, h: Hit, s: Settings, handler: InventoryHandler, ui: UIHandler) returns (ok: bool)
    requires Consistent(handler, ui) && |handler.Items| < 255 && h.target.Some?
    modifies m, handler, ui, h.target.value
    ensures !ok ==> unchanged(h.target.value)
    ensures ok ==> h.target.value.isKinematic && h.target.value.position == TempPosition && h.target.value.parent == null
  {
    ok := m.AttemptHit(h, s, handler, ui);
  }

  /**
   * A saved collider that is already stored is refused and left as it was, and so are the list, the
   * mass and the selection.
   */
  method StoredSavedUntouched(m: Mod, go: GameObject, s: Settings, handler: InventoryHandler, ui: UIHandler) returns (ok: bool)
    requires Consistent(handler, ui) && go in handler.Items
    modifies m, handler, ui, go
    ensures !ok && unchanged(go)
    ensures handler.Items == old(handler.Items) && handler.Mass == old(handler.Mass) && ui.CurIndex == old(ui.CurIndex)
  {
    ok := m.OfferSaved(go, s, handler, ui, |handler.Items|);
  }

  /**
   * After post-load, a cached collider that fails a prerequisite is left as it was, every stored
   * object keeps its state, and in slot mode the cached mass is not touched.
   */
  method RefusedCachedUntouched(m: Mod, o: GameObject, s: Settings, handler: InventoryHandler, ui: UIHandler)
    returns (loadedItems: int, filtered: int)
    requires m.catcher != null && Consistent(handler, ui) && !handler.SufferingMode
    requires o in m.catcher.LoadedColliders && Prerequisites(o, Blacklist, s.disableBlacklist).Some?
    modifies m, m.catcher.LoadedColliders, handler, ui
    ensures unchanged(o)
    ensures forall i :: 0 <= i < |old(handler.Items)| ==> unchanged(old(handler.Items)[i])
    ensures handler.Mass == old(handler.Mass)
  {
    loadedItems, filtered := m.PostLoad(s, handler, ui);
  }
}
