/**
 * The admission rules shared by both inventory implementations: the verdict type, the
 * installed/bolted scan, the longest-side measurement, the capacity rule and the mass sum.
 */
module Admission {
  import opened GameWorld

  /** Why an object was refused, one per rejection branch of CanPickUp. */
  datatype Reason =
    | AlreadyStored
    | Blacklisted
    | NoRigidbody
    | Installed
    | Bolted
    | WrongLayer
    | Full
    | TooHeavy
    | TooLong
  {
    /** The rejections that also put a message on screen (the others are only logged). */
    predicate Shown() {
      Blacklisted? || Full? || TooHeavy? || TooLong?
    }

    predicate IsCapacity() {
      Full? || TooHeavy? || TooLong?
    }
  }

  datatype Verdict = Accept | Reject(reason: Reason)

  /** The capacity configuration and the cached mass an admission decision reads. */
  datatype Limits = Limits(suffering: bool, maxSlots: int, mass: real, massCapacity: real, maxLength: real)

  /** Objects that use an authored longest side instead of their mesh bounds (same table in both stores). */
  const LengthOverrides: map<string, real> := map[
    "electrics(Clone)" := 6.0,
    "fuel strainer(Clone)" := 6.0,
    "brake lining(Clone)" := 4.0,
    "clutch lining(Clone)" := 4.0,
    "radiator hose1(Clone)" := 6.0,
    "radiator hose2(Clone)" := 6.0,
    "radiator hose3(Clone)" := 8.0,
    "parts magazine(itemx)" := 18.0
  ]

  // ---------------------------------------------------------------- installed / bolted

  /** What one state machine says: installed ("Data"/"Use" with Installed true) or bolted ("BoltCheck" with Tightness > 0). */
  function FsmFastening(c: Fsm): Option<Reason> {
    if (c.name == "Data" || c.name == "Use") && c.installed == Some(true) then Some(Installed)
    else if c.name == "BoltCheck" && c.tightness.Some? && c.tightness.value > 0.0 then Some(Bolted)
    else None
  }

  /** The first state machine, in component order, that reports the part as fastened. */
  function FirstFastening(fsms: seq<Fsm>): Option<Reason> {
    if fsms == [] then None
    else if FsmFastening(fsms[0]).Some? then FsmFastening(fsms[0])
    else FirstFastening(fsms[1..])
  }

  lemma {:induction false} FirstFasteningIsFirst(fsms: seq<Fsm>)
    ensures FirstFastening(fsms) == None <==> forall i :: 0 <= i < |fsms| ==> FsmFastening(fsms[i]) == None
    ensures FirstFastening(fsms).Some? ==>
      exists i :: 0 <= i < |fsms| && FsmFastening(fsms[i]) == FirstFastening(fsms) &&
        forall j :: 0 <= j < i ==> FsmFastening(fsms[j]) == None
  {
    if fsms != [] && FsmFastening(fsms[0]).None? {
      FirstFasteningIsFirst(fsms[1..]);
      if FirstFastening(fsms[1..]).Some? {
        var i :| 0 <= i < |fsms[1..]| && FsmFastening(fsms[1..][i]) == FirstFastening(fsms[1..]) &&
          forall j :: 0 <= j < i ==> FsmFastening(fsms[1..][j]) == None;
        assert FsmFastening(fsms[i + 1]) == FirstFastening(fsms);
        assert forall j :: 0 <= j < i + 1 ==> FsmFastening(fsms[j]) == None by {
          forall j | 0 <= j < i + 1 ensures FsmFastening(fsms[j]) == None {
            if j > 0 { assert fsms[j] == fsms[1..][j - 1]; }
          }
        }
      } else {
        forall i | 0 <= i < |fsms| ensures FsmFastening(fsms[i]) == None {
          if i > 0 { assert fsms[i] == fsms[1..][i - 1]; }
        }
      }
    }
  }

  /** A fastened part is reported as installed or as bolted, never for another reason. */
  lemma {:induction false} FasteningIsInstalledOrBolted(fsms: seq<Fsm>)
    ensures FirstFastening(fsms).Some? ==> FirstFastening(fsms).value == Installed || FirstFastening(fsms).value == Bolted
  {
    if fsms != [] && FsmFastening(fsms[0]).None? {
      FasteningIsInstalledOrBolted(fsms[1..]);
    }
  }

  /** Flags that are absent, false or zero never make a part count as fastened. */
  lemma AbsentFlagsNeverFasten(fsms: seq<Fsm>)
    requires forall i :: 0 <= i < |fsms| ==>
      fsms[i].installed != Some(true) && (fsms[i].tightness.None? || fsms[i].tightness.value <= 0.0)
    ensures FirstFastening(fsms) == None
  {
    FirstFasteningIsFirst(fsms);
  }

  /** The loop over an object's state machines (CanPickUp, check 3). */
  method FindFastening(fsms: seq<Fsm>) returns (r: Option<Reason>)
    ensures r == FirstFastening(fsms)
  {
    var k := 0;
    while k < |fsms|
      invariant 0 <= k <= |fsms|
      invariant FirstFastening(fsms[k..]) == FirstFastening(fsms)
    {
      var c := fsms[k];
      if c.name == "Data" || c.name == "Use" {
        if c.installed.Some? && c.installed.value {
          return Some(Installed);
        }
      }
      if c.name == "BoltCheck" {
        if c.tightness.Some? && c.tightness.value > 0.0 {
          return Some(Bolted);
        }
      }
      assert fsms[k..][1..] == fsms[k + 1..];
      k := k + 1;
    }
    return None;
  }

  // ---------------------------------------------------------------- longest side

  /** The running maximum of the source's loop: start at 0 and take every larger value. */
  function Longest(s: seq<real>): real {
    if |s| == 0 then 0.0
    else
      var m := Longest(s[..|s| - 1]);
      if s[|s| - 1] > m then s[|s| - 1] else m
  }

  /** Longest is the least upper bound of the values and 0. */
  lemma {:induction false} LongestIsMaximum(s: seq<real>)
    ensures Longest(s) >= 0.0
    ensures forall x :: x in s ==> x <= Longest(s)
    ensures Longest(s) == 0.0 || Longest(s) in s
  {
    if |s| > 0 {
      var init := s[..|s| - 1];
      LongestIsMaximum(init);
      assert s == init + [s[|s| - 1]];
    }
  }

  /** The sizes of all the given meshes, axis by axis, mesh by mesh. */
  function Flatten(ms: seq<Extents>): seq<real> {
    if |ms| == 0 then [] else Flatten(ms[..|ms| - 1]) + ms[|ms| - 1].Axes()
  }

  lemma {:induction false} FlattenMembers(ms: seq<Extents>, x: real)
    ensures x in Flatten(ms) <==> exists k :: 0 <= k < |ms| && x in ms[k].Axes()
  {
    if |ms| > 0 {
      var init := ms[..|ms| - 1];
      FlattenMembers(init, x);
      if x in Flatten(ms) && x !in ms[|ms| - 1].Axes() {
        var k :| 0 <= k < |init| && x in init[k].Axes();
        assert ms[k] == init[k];
      }
      if exists k :: 0 <= k < |ms| && x in ms[k].Axes() {
        var k :| 0 <= k < |ms| && x in ms[k].Axes();
        if k < |ms| - 1 { assert init[k] == ms[k]; }
      }
    }
  }

  /** The longest side read from the object's own mesh, or from all child meshes when it has no MeshFilter. */
  function MeshLongest(o: GameObject): real {
    match o.ownMesh
    case Mesh(e) => Longest(e.Axes())
    case NullMesh => 0.0
    case NoMeshFilter => Longest(Flatten(o.childMeshes))
  }

  /** Without an own MeshFilter, the longest side is the largest extent over all child meshes, or 0. */
  lemma ChildMeshesBound(o: GameObject)
    requires o.ownMesh == NoMeshFilter
    ensures forall k :: 0 <= k < |o.childMeshes| ==>
      o.childMeshes[k].x <= MeshLongest(o) && o.childMeshes[k].y <= MeshLongest(o) && o.childMeshes[k].z <= MeshLongest(o)
    ensures MeshLongest(o) == 0.0 || exists k :: 0 <= k < |o.childMeshes| && MeshLongest(o) in o.childMeshes[k].Axes()
  {
    var f := Flatten(o.childMeshes);
    LongestIsMaximum(f);
    forall k | 0 <= k < |o.childMeshes|
      ensures o.childMeshes[k].x <= MeshLongest(o) && o.childMeshes[k].y <= MeshLongest(o) && o.childMeshes[k].z <= MeshLongest(o)
    {
      var e := o.childMeshes[k];
      FlattenMembers(o.childMeshes, e.x);
      FlattenMembers(o.childMeshes, e.y);
      FlattenMembers(o.childMeshes, e.z);
    }
    FlattenMembers(o.childMeshes, Longest(f));
  }

  /** The inner loop over the three axes of one mesh, continuing a running maximum over `before`. */
  method ScanAxes(ghost before: seq<real>, longest: real, axes: seq<real>) returns (r: real)
    requires longest == Longest(before)
    ensures r == Longest(before + axes)
  {
    r := longest;
    assert before + axes[..0] == before;
    for i := 0 to |axes|
      invariant r == Longest(before + axes[..i])
    {
      assert (before + axes[..i + 1])[..|before| + i] == before + axes[..i];
      if axes[i] > r {
        r := axes[i];
      }
    }
    assert axes[..|axes|] == axes;
  }

  /** The mesh loops of CanPickUp: three axes of the own mesh, or three axes of every child mesh. */
  method MeasureMeshes(o: GameObject) returns (longest: real)
    ensures longest == MeshLongest(o)
  {
    longest := 0.0;
    match o.ownMesh {
      case Mesh(e) =>
        longest := ScanAxes([], longest, e.Axes());
        assert [] + e.Axes() == e.Axes();
      case NullMesh =>
      case NoMeshFilter =>
        var ms := o.childMeshes;
        for k := 0 to |ms|
          invariant longest == Longest(Flatten(ms[..k]))
        {
          longest := ScanAxes(Flatten(ms[..k]), longest, ms[k].Axes());
          assert ms[..k + 1][..k] == ms[..k];
        }
        assert ms[..|ms|] == ms;
    }
  }

  /** An override-table name skips the length test; any other object fails it when its mesh is longer than the limit. */
  predicate TooLongFor(o: GameObject, maxLength: real) {
    o.name !in LengthOverrides && MeshLongest(o) > maxLength
  }

  // ---------------------------------------------------------------- the shared checks

  /** Checks 1 to 4 of CanPickUp, common to both stores: blacklist, rigid body, installed/bolted, layer. */
  function Prerequisites(o: GameObject, blacklist: seq<string>, disableBlacklist: bool): Option<Reason> {
    if !disableBlacklist && o.name in blacklist then Some(Blacklisted)
    else if !o.hasRigidbody then Some(NoRigidbody)
    else if FirstFastening(o.fsms).Some? then FirstFastening(o.fsms)
    else if !(o.layer == 16 || o.layer == 19) then Some(WrongLayer)
    else None
  }

  /** The capacity block: a slot count, or the mass test followed by the length test. */
  function CapacityCheck(count: int, o: GameObject, lim: Limits): Option<Reason> {
    if !lim.suffering then
      if count >= lim.maxSlots then Some(Full) else None
    else if lim.massCapacity - lim.mass < o.mass then Some(TooHeavy)
    else if TooLongFor(o, lim.maxLength) then Some(TooLong)
    else None
  }

  /** The prerequisites never reject for a capacity reason, and the capacity block never for anything else. */
  lemma ChecksAreSeparate(o: GameObject, blacklist: seq<string>, disableBlacklist: bool, count: int, lim: Limits)
    ensures Prerequisites(o, blacklist, disableBlacklist).Some? ==> !Prerequisites(o, blacklist, disableBlacklist).value.IsCapacity()
    ensures CapacityCheck(count, o, lim).Some? ==> CapacityCheck(count, o, lim).value.IsCapacity()
  {
    FasteningIsInstalledOrBolted(o.fsms);
  }

  /** In slot mode the capacity block rejects exactly when the count has reached the slot limit. */
  lemma SlotCapacityIff(count: int, o: GameObject, lim: Limits)
    requires !lim.suffering
    ensures CapacityCheck(count, o, lim) == Some(Full) <==> count >= lim.maxSlots
    ensures CapacityCheck(count, o, lim).None? <==> count < lim.maxSlots
  {
  }

  /** In suffering mode the mass test rejects exactly when the remaining capacity is smaller than the mass: an exact fit passes. */
  lemma MassCapacityIff(count: int, o: GameObject, lim: Limits)
    requires lim.suffering
    ensures CapacityCheck(count, o, lim) == Some(TooHeavy) <==> lim.massCapacity - lim.mass < o.mass
    ensures lim.massCapacity - lim.mass == o.mass && !TooLongFor(o, lim.maxLength) ==> CapacityCheck(count, o, lim).None?
  {
  }

  /** After the mass test, an object is refused for length exactly when its mesh exceeds the limit; a side equal to the limit fits. */
  lemma LengthCapacityIff(count: int, o: GameObject, lim: Limits)
    requires lim.suffering && lim.massCapacity - lim.mass >= o.mass
    ensures CapacityCheck(count, o, lim) == Some(TooLong) <==> o.name !in LengthOverrides && MeshLongest(o) > lim.maxLength
    ensures o.name in LengthOverrides ==> CapacityCheck(count, o, lim).None?
    ensures MeshLongest(o) == lim.maxLength ==> CapacityCheck(count, o, lim).None?
  {
  }

  // ---------------------------------------------------------------- mass and removal

  /** The sum that UpdateMass accumulates, item by item. */
  function SumMass(items: seq<GameObject>): real {
    MassOfFirst(items, |items|)
  }

  /** The masses of the first `n` items added up in list order. */
  function MassOfFirst(items: seq<GameObject>, n: nat): real
    requires n <= |items|
  {
    if n == 0 then 0.0 else MassOfFirst(items, n - 1) + items[n - 1].mass
  }

  /** Items past the first `n` do not enter the sum of the first `n`. */
  lemma {:induction false} MassOfFirstPrefix(a: seq<GameObject>, b: seq<GameObject>, n: nat)
    requires n <= |a|
    ensures MassOfFirst(a + b, n) == MassOfFirst(a, n)
  {
    if n > 0 {
      MassOfFirstPrefix(a, b, n - 1);
    }
  }

  /** Appending an item adds its mass. */
  lemma SumMassAppend(items: seq<GameObject>, o: GameObject)
    ensures SumMass(items + [o]) == SumMass(items) + o.mass
  {
    MassOfFirstPrefix(items, [o], |items|);
  }

  /** Removing the entry at `i` shifts the later items down by one and takes its mass out of their sums. */
  lemma {:induction false} MassOfFirstRemove(s: seq<GameObject>, i: int, n: nat)
    requires 0 <= i < |s| && n < |s|
    ensures var r := s[..i] + s[i + 1..];
      MassOfFirst(r, n) == if n <= i then MassOfFirst(s, n) else MassOfFirst(s, n + 1) - s[i].mass
  {
    var r := s[..i] + s[i + 1..];
    if n > 0 {
      MassOfFirstRemove(s, i, n - 1);
      assert r[n - 1] == if n - 1 < i then s[n - 1] else s[n];
    }
  }

  lemma SumMassRemove(s: seq<GameObject>, i: int)
    requires 0 <= i < |s|
    ensures SumMass(s[..i] + s[i + 1..]) == SumMass(s) - s[i].mass
  {
    MassOfFirstRemove(s, i, |s| - 1);
  }

  /** The accumulating loop of UpdateMass. */
  method AccumulateMass(items: seq<GameObject>) returns (total: real)
    ensures total == SumMass(items)
  {
    total := 0.0;
    for k := 0 to |items|
      invariant total == MassOfFirst(items, k)
    {
      total := total + items[k].mass;
    }
  }

  /** `List.Remove`: drop the first occurrence. */
  function RemoveFirst<T(==)>(s: seq<T>, x: T): seq<T> {
    if s == [] then []
    else if s[0] == x then s[1..]
    else [s[0]] + RemoveFirst(s[1..], x)
  }

  /** Without duplicates, removing the element found at index i removes exactly position i. */
  lemma {:induction false} RemoveFirstOfUnique<T>(s: seq<T>, i: int)
    requires NoDuplicates(s) && 0 <= i < |s|
    ensures RemoveFirst(s, s[i]) == s[..i] + s[i + 1..]
  {
    if i > 0 {
      assert s[0] != s[i];
      assert NoDuplicates(s[1..]) by {
        forall a, b | 0 <= a < b < |s[1..]| ensures s[1..][a] != s[1..][b] {
          assert s[1..][a] == s[a + 1] && s[1..][b] == s[b + 1];
        }
      }
      RemoveFirstOfUnique(s[1..], i - 1);
      assert s[1..][i - 1] == s[i];
      assert s[..i] + s[i + 1..] == [s[0]] + (s[1..][..i - 1] + s[1..][i..]);
    }
  }

  /** Cutting position i out of a list without repeats: the rest shifts down by one and no longer holds s[i]. */
  lemma RemoveAtShape<T>(s: seq<T>, i: int)
    requires NoDuplicates(s) && 0 <= i < |s|
    ensures var r := s[..i] + s[i + 1..];
      && |r| == |s| - 1 && NoDuplicates(r)
      && forall j :: 0 <= j < |r| ==> r[j] == s[if j < i then j else j + 1] && r[j] != s[i]
  {
    var r := s[..i] + s[i + 1..];
    forall j | 0 <= j < |r| ensures r[j] == s[if j < i then j else j + 1] {
    }
    forall a, b | 0 <= a < b < |r| ensures r[a] != r[b] {
      assert r[a] == s[if a < i then a else a + 1] && r[b] == s[if b < i then b else b + 1];
    }
  }

  /** After cutting position i out of a list without repeats, exactly the other elements remain. */
  lemma RemoveAtMembership<T>(s: seq<T>, i: int)
    requires NoDuplicates(s) && 0 <= i < |s|
    ensures forall x :: x in s[..i] + s[i + 1..] <==> x in s && x != s[i]
  {
    var r := s[..i] + s[i + 1..];
    RemoveAtShape(s, i);
    forall x | x in s && x != s[i] ensures x in r {
      var k :| 0 <= k < |s| && s[k] == x;
      assert r[if k < i then k else k - 1] == x;
    }
  }

  /** With a duplicate, removing the element at a later index removes an earlier position instead. */
  lemma RemoveFirstOfDuplicate<T>(a: T, b: T)
    requires a != b
    ensures RemoveFirst([a, b, a], a) == [b, a]
    ensures [a, b, a][..2] + [a, b, a][3..] == [a, b]
  {
    assert [a, b, a][1..] == [b, a];
  }
}
