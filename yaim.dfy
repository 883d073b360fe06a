/**
 * The mod's controller: lifecycle (preload, load, postload), the per-frame update that routes
 * keys to the inventory and the list UI, the failure message with its one-second timer, and the
 * console filter.
 */
module Yaim {
  import opened GameWorld
  import opened Config
  import opened Admission
  import opened UI
  import opened Store
  import opened Loading

  // ---------------------------------------------------------------- console

  /** The context a console line belongs to; each scope but Core has its own logging switch. */
  datatype Scope = Core | System | SaveLoad | PickupAndDrop | PickupLogic

  /** The line PrintToConsole writes, or None when the scope's switch is off. */
  function ConsoleLine(message: string, scope: Scope, s: Settings): (r: Option<string>)
    ensures r.Some? ==> |r.value| == |message| + 7 && r.value[7..] == message
    ensures r.None? <==>
      || (scope.System? && !s.logSystem)
      || (scope.SaveLoad? && !s.logSaveLoad)
      || (scope.PickupAndDrop? && !s.logPickupAndDrop)
      || (scope.PickupLogic? && !s.logPickupLogic)
  {
    if scope.System? && !s.logSystem then None
    else if scope.SaveLoad? && !s.logSaveLoad then None
    else if scope.PickupAndDrop? && !s.logPickupAndDrop then None
    else if scope.PickupLogic? && !s.logPickupLogic then None
    else Some("[YAIM] " + message)
  }

  /** `s'` has every logging switch on that `s` has. */
  predicate LogsAtLeast(s': Settings, s: Settings) {
    && (s.logSystem ==> s'.logSystem)
    && (s.logSaveLoad ==> s'.logSaveLoad)
    && (s.logPickupAndDrop ==> s'.logPickupAndDrop)
    && (s.logPickupLogic ==> s'.logPickupLogic)
  }

  /** Core lines are always written, whatever the switches say. */
  lemma CoreAlwaysPrinted(message: string, s: Settings)
    ensures ConsoleLine(message, Core, s) == Some("[YAIM] " + message)
  {
  }

  /** Turning more logging on never hides a line that was written before, and never changes its text. */
  lemma MoreLoggingNeverHides(message: string, scope: Scope, s: Settings, s': Settings)
    requires LogsAtLeast(s', s) && ConsoleLine(message, scope, s).Some?
    ensures ConsoleLine(message, scope, s') == ConsoleLine(message, scope, s)
  {
  }

  // ---------------------------------------------------------------- pick-up messages

  /** The on-screen text of a rejection that shows one (the numbers in the texts are not modelled). */
  function RejectionMessage(reason: Reason): (r: string)
    requires reason.Shown()
    ensures r != ""
  {
    match reason
    case Blacklisted => "IT WON'T FIT, SILLY! (BLACKLISTED)"
    case Full => "INVENTORY IS FULL"
    case TooHeavy => "TOO HEAVY"
    case TooLong => "TOO LONG"
  }

  /** Different rejections leave different messages, so the player can tell them apart. */
  lemma RejectionMessagesDistinct(a: Reason, b: Reason)
    requires a.Shown() && b.Shown() && a != b
    ensures RejectionMessage(a) != RejectionMessage(b)
  {
  }

  // ---------------------------------------------------------------- the pick-up key

  /** A raycast hit: its distance and the object its collider belongs to, if any. */
  datatype Hit = Hit(distance: real, target: Option<GameObject>)

  /** A hit the pick-up key acts on: within one metre and with an object behind it. */
  predicate InReach(h: Hit) {
    h.distance <= 1.0 && h.target.Some?
  }

  predicate Pickable(h: Hit, items: seq<GameObject>, disableBlacklist: bool, lim: Limits) {
    InReach(h) && HandlerVerdict(items, h.target.value, false, disableBlacklist, lim) == Accept
  }

  /** A hit whose attempt is refused with a reason that puts a message on screen. */
  predicate ShowsRejection(h: Hit, items: seq<GameObject>, disableBlacklist: bool, lim: Limits) {
    && InReach(h)
    && HandlerVerdict(items, h.target.value, false, disableBlacklist, lim).Reject?
    && HandlerVerdict(items, h.target.value, false, disableBlacklist, lim).reason.Shown()
  }

  /** The outcome of walking the hits: which one was picked up, and the last message thrown before it. */
  datatype Scan = Scan(picked: Option<nat>, shown: Option<Reason>)

  /** Failed attempts change nothing in the store, so every attempt is judged against the same list. */
  function ScanHits(hits: seq<Hit>, items: seq<GameObject>, disableBlacklist: bool, lim: Limits): (r: Scan)
    ensures r.picked.Some? ==> r.picked.value < |hits| && InReach(hits[r.picked.value])
    ensures r.shown.Some? ==> r.shown.value.Shown()
  {
    if hits == [] then Scan(None, None)
    else if Pickable(hits[0], items, disableBlacklist, lim) then Scan(Some(0), None)
    else
      var rest := ScanHits(hits[1..], items, disableBlacklist, lim);
      var here := if ShowsRejection(hits[0], items, disableBlacklist, lim)
                  then Some(HandlerVerdict(items, hits[0].target.value, false, disableBlacklist, lim).reason)
                  else None;
      Scan(if rest.picked.Some? then Some(rest.picked.value + 1) else None,
           if rest.shown.Some? then rest.shown else here)
  }

  /** How far the walk gets: the picked hit, or all of them. */
  function ScanEnd(r: Scan, hits: seq<Hit>): nat {
    if r.picked.Some? then r.picked.value else |hits|
  }

  /** The object picked up is the first pickable hit; when none is picked, no hit is pickable. */
  lemma {:induction false} ScanPicksFirstPickable(hits: seq<Hit>, items: seq<GameObject>, disableBlacklist: bool, lim: Limits)
    ensures var r := ScanHits(hits, items, disableBlacklist, lim);
      && (r.picked.Some? ==> Pickable(hits[r.picked.value], items, disableBlacklist, lim))
      && forall j :: 0 <= j < ScanEnd(r, hits) ==> !Pickable(hits[j], items, disableBlacklist, lim)
  {
    if hits != [] && !Pickable(hits[0], items, disableBlacklist, lim) {
      ScanPicksFirstPickable(hits[1..], items, disableBlacklist, lim);
      var rest := ScanHits(hits[1..], items, disableBlacklist, lim);
      forall j | 1 <= j < ScanEnd(ScanHits(hits, items, disableBlacklist, lim), hits)
        ensures !Pickable(hits[j], items, disableBlacklist, lim)
      {
        assert hits[1..][j - 1] == hits[j];
      }
    }
  }

  /**
   * The message left on screen is the last one thrown before the pick: some hit before the end
   * shows it and no later hit before the end shows any; and there is none exactly when no hit
   * before the end shows one.
   */
  lemma {:induction false} ScanShowsLastRejection(hits: seq<Hit>, items: seq<GameObject>, disableBlacklist: bool, lim: Limits)
    ensures var r := ScanHits(hits, items, disableBlacklist, lim); var end := ScanEnd(r, hits);
      && (r.shown.None? <==> forall j :: 0 <= j < end ==> !ShowsRejection(hits[j], items, disableBlacklist, lim))
      && (r.shown.Some? ==>
            exists j :: (&& 0 <= j < end
                         && ShowsRejection(hits[j], items, disableBlacklist, lim)
                         && HandlerVerdict(items, hits[j].target.value, false, disableBlacklist, lim).reason == r.shown.value
                         && forall j' :: j < j' < end ==> !ShowsRejection(hits[j'], items, disableBlacklist, lim)))
  {
    if hits != [] && !Pickable(hits[0], items, disableBlacklist, lim) {
      ScanShowsLastRejection(hits[1..], items, disableBlacklist, lim);
      var r := ScanHits(hits, items, disableBlacklist, lim);
      var rest := ScanHits(hits[1..], items, disableBlacklist, lim);
      assert ScanEnd(r, hits) == ScanEnd(rest, hits[1..]) + 1;
      forall j | 1 <= j < ScanEnd(r, hits)
        ensures hits[j] == hits[1..][j - 1]
      {
      }
      if rest.shown.Some? {
        var j :| 0 <= j < ScanEnd(rest, hits[1..])
            && ShowsRejection(hits[1..][j], items, disableBlacklist, lim)
            && HandlerVerdict(items, hits[1..][j].target.value, false, disableBlacklist, lim).reason == rest.shown.value
            && forall j' :: j < j' < ScanEnd(rest, hits[1..]) ==> !ShowsRejection(hits[1..][j'], items, disableBlacklist, lim);
        assert ShowsRejection(hits[j + 1], items, disableBlacklist, lim);
        forall j' | j + 1 < j' < ScanEnd(r, hits)
          ensures !ShowsRejection(hits[j'], items, disableBlacklist, lim)
        {
          assert hits[j'] == hits[1..][j' - 1];
        }
      }
    }
  }

  /** One step of the walk: the scan of `hits[k..]` seen from the whole list, given the last message so far. */
  function Resume(k: nat, acc: Option<Reason>, r: Scan): Scan {
    Scan(if r.picked.Some? then Some(r.picked.value + k) else None, if r.shown.Some? then r.shown else acc)
  }

  /** Unfolds the walk by one hit, as the loop over the hits takes it. */
  lemma ScanStep(hits: seq<Hit>, k: nat, acc: Option<Reason>, items: seq<GameObject>, disableBlacklist: bool, lim: Limits)
    requires k < |hits|
    ensures Pickable(hits[k], items, disableBlacklist, lim) ==>
      Resume(k, acc, ScanHits(hits[k..], items, disableBlacklist, lim)) == Scan(Some(k), acc)
    ensures !Pickable(hits[k], items, disableBlacklist, lim) ==>
      Resume(k, acc, ScanHits(hits[k..], items, disableBlacklist, lim)) ==
      Resume(k + 1,
             if ShowsRejection(hits[k], items, disableBlacklist, lim)
             then Some(HandlerVerdict(items, hits[k].target.value, false, disableBlacklist, lim).reason)
             else acc,
             ScanHits(hits[k + 1..], items, disableBlacklist, lim))
  {
    assert hits[k..][0] == hits[k];
    assert hits[k..][1..] == hits[k + 1..];
  }

  // ---------------------------------------------------------------- one frame

  /** What one frame of the game delivers to the update: scene, time step, keys, raycast hits, scroll and camera. */
  datatype Frame = Frame(
    inGame: bool,            // the current scene is the game itself
    deltaTime: real,
    toggleKey: bool,
    dropAllKey: bool,
    pickUpKey: bool,
    dropSelectedKey: bool,
    hits: seq<Hit>,          // what the unified raycast reports this frame
    scroll: real,            // the mouse wheel axis
    cameraPoint: Vector3)    // one metre in front of the main camera

  /** The list without its entry at `i`. */
  function RemoveAt(items: seq<GameObject>, i: int): (r: seq<GameObject>)
    requires 0 <= i < |items|
    ensures |r| == |items| - 1
  {
    seq(|items| - 1, k requires 0 <= k < |items| - 1 => if k < i then items[k] else items[k + 1])
  }

  /** RemoveAt is the list cut around `i`. */
  lemma RemoveAtIsSlices(items: seq<GameObject>, i: int)
    requires 0 <= i < |items|
    ensures RemoveAt(items, i) == items[..i] + items[i + 1..]
  {
    var r := items[..i] + items[i + 1..];
    assert forall k :: 0 <= k < |r| ==> r[k] == RemoveAt(items, i)[k];
  }

  /**
   * The stored list after the keys of one frame with the list open or closed, or None when
   * the drop-selected key indexes outside the list and the update throws.
   */
  function ItemsAfter(f: Frame, active: bool, items: seq<GameObject>, cur: int, disableBlacklist: bool, lim: Limits): Option<seq<GameObject>> {
    if !active then Some(items)
    else if f.dropAllKey then Some([])
    else if f.pickUpKey then
      var r := ScanHits(f.hits, items, disableBlacklist, lim);
      Some(if r.picked.Some? then items + [f.hits[r.picked.value].target.value] else items)
    else if f.dropSelectedKey then
      if 0 <= cur < |items| then Some(RemoveAt(items, cur)) else None
    else Some(items)
  }

  /** A frame never stores an object twice: a stored object is refused by the pick-up and dropping only removes. */
  lemma FrameKeepsItemsDistinct(f: Frame, active: bool, items: seq<GameObject>, cur: int, disableBlacklist: bool, lim: Limits)
    requires NoDuplicates(items) && ItemsAfter(f, active, items, cur, disableBlacklist, lim).Some?
    ensures NoDuplicates(ItemsAfter(f, active, items, cur, disableBlacklist, lim).value)
    ensures |ItemsAfter(f, active, items, cur, disableBlacklist, lim).value| <= |items| + 1
  {
    if active && !f.dropAllKey && f.pickUpKey {
      var r := ScanHits(f.hits, items, disableBlacklist, lim);
      ScanPicksFirstPickable(f.hits, items, disableBlacklist, lim);
      if r.picked.Some? {
        var o := f.hits[r.picked.value].target.value;
        assert o !in items;
        var after := items + [o];
        forall i, j | 0 <= i < j < |after| ensures after[i] != after[j] {
          if j == |items| {
            assert after[i] in items;
          }
        }
      }
    } else if active && !f.dropAllKey && f.dropSelectedKey && 0 <= cur < |items| {
      var after := RemoveAt(items, cur);
      forall i, j | 0 <= i < j < |after| ensures after[i] != after[j] {
        assert after[i] == items[if i < cur then i else i + 1];
        assert after[j] == items[if j < cur then j else j + 1];
      }
    }
  }

  /** With the selection kept in range, the only frame that throws is drop-selected on an empty, open list. */
  lemma OnlyEmptyDropThrows(f: Frame, active: bool, items: seq<GameObject>, cur: int, disableBlacklist: bool, lim: Limits)
    requires IndexOk(cur, |items|)
    ensures ItemsAfter(f, active, items, cur, disableBlacklist, lim).None? <==>
      active && !f.dropAllKey && !f.pickUpKey && f.dropSelectedKey && items == []
  {
  }

  /**
   * The selection after the action keys of one frame: drop-all goes to 0 once something was
   * dropped, a pick-up clamps to [0, Count], drop-selected steps back within the shorter list.
   */
  function IndexAfter(f: Frame, active: bool, items: seq<GameObject>, cur: int, disableBlacklist: bool, lim: Limits): int {
    if !active then cur
    else if f.dropAllKey then (if items == [] then cur else 0)
    else if f.pickUpKey then
      (if ScanHits(f.hits, items, disableBlacklist, lim).picked.Some? then Max(0, Min(cur, |items| + 1)) else cur)
    else if f.dropSelectedKey then Max(0, Min(cur - 1, |items| - 1))
    else cur
  }

  /** The selection at the end of a frame: the action keys, then one scroll step over the new list. */
  function FrameIndex(f: Frame, active: bool, items: seq<GameObject>, cur: int, disableBlacklist: bool, lim: Limits): int {
    var i := IndexAfter(f, active, items, cur, disableBlacklist, lim);
    var after := ItemsAfter(f, active, items, cur, disableBlacklist, lim);
    if active && f.scroll != 0.0 then AdjustedIndex(i, f.scroll < 0.0, if after.Some? then |after.value| else |items|)
    else i
  }

  /** A frame that does not throw keeps the selection valid for the list it leaves. */
  lemma FrameKeepsIndexValid(f: Frame, active: bool, items: seq<GameObject>, cur: int, disableBlacklist: bool, lim: Limits)
    requires IndexOk(cur, |items|) && ItemsAfter(f, active, items, cur, disableBlacklist, lim).Some?
    ensures IndexOk(IndexAfter(f, active, items, cur, disableBlacklist, lim), |ItemsAfter(f, active, items, cur, disableBlacklist, lim).value|)
    ensures IndexOk(FrameIndex(f, active, items, cur, disableBlacklist, lim), |ItemsAfter(f, active, items, cur, disableBlacklist, lim).value|)
  {
    var after := ItemsAfter(f, active, items, cur, disableBlacklist, lim);
    var i := IndexAfter(f, active, items, cur, disableBlacklist, lim);
    if !active || (!f.dropAllKey && !f.pickUpKey && !f.dropSelectedKey) {
      assert i == cur && after.value == items;
    } else if f.dropAllKey {
      assert after.value == [];
    } else if f.pickUpKey {
      var r := ScanHits(f.hits, items, disableBlacklist, lim);
      if r.picked.Some? {
        assert |after.value| == |items| + 1 && i == Max(0, Min(cur, |items| + 1));
      } else {
        assert after.value == items && i == cur;
      }
    } else {
      assert |after.value| == |items| - 1 && i == Max(0, Min(cur - 1, |items| - 1));
    }
    ScrollKeepsIndexValid(i, f.scroll < 0.0, |after.value|);
  }

  /** One scroll step keeps a valid selection valid. */
  lemma ScrollKeepsIndexValid(cur: int, up: bool, count: nat)
    requires IndexOk(cur, count)
    ensures IndexOk(AdjustedIndex(cur, up, count), count)
  {
  }

  // ---------------------------------------------------------------- the failure message

  /** The failure message, the seconds it has left, and the interaction text on screen. */
  datatype MessageState = MessageState(message: string, timer: real, text: string)

  /**
   * One frame of the countdown: while time is left it drops and the message is displayed;
   * after that a message still on display is cleared once, and nothing else changes.
   */
  function CountedDown(m: MessageState, deltaTime: real): MessageState {
    if m.timer > 0.0 then MessageState(m.message, m.timer - deltaTime, m.message)
    else if m.message != "" && m.text == m.message then MessageState("", m.timer, "")
    else m
  }

  /** Once the time is up, further frames of the countdown change nothing more. */
  lemma CountdownSettles(m: MessageState, d1: real, d2: real)
    requires m.timer <= 0.0
    ensures CountedDown(CountedDown(m, d1), d2) == CountedDown(m, d1)
    ensures CountedDown(m, d1).timer == m.timer
  {
  }

  /**
   * The message state after one frame: the countdown, then the message of the last refusal the
   * pick-up key showed, if any, with a fresh second; the interaction text is the countdown's.
   */
  function FrameMessages(f: Frame, s: Settings, active: bool, items: seq<GameObject>, lim: Limits, m: MessageState): MessageState {
    var c := CountedDown(m, f.deltaTime);
    var r := ScanHits(f.hits, items, s.disableBlacklist, lim);
    if active && !f.dropAllKey && f.pickUpKey && s.showMessages && r.shown.Some?
    then MessageState(RejectionMessage(r.shown.value), 1.0, c.text)
    else c
  }

  /** Without the pick-up key, or with the list closed, a frame only counts the message down. */
  lemma QuietFrameOnlyCountsDown(f: Frame, s: Settings, active: bool, items: seq<GameObject>, lim: Limits, m: MessageState)
    requires !active || f.dropAllKey || !f.pickUpKey
    ensures FrameMessages(f, s, active, items, lim, m) == CountedDown(m, f.deltaTime)
  {
  }

  // ---------------------------------------------------------------- loading saved items

  /** A cached collider the post-load pass stores: not already stored and meeting every prerequisite. */
  ghost predicate Admissible(o: GameObject, items: seq<GameObject>, disableBlacklist: bool) {
    o !in items && Prerequisites(o, Blacklist, disableBlacklist).None?
  }

  /** A cached collider the post-load pass refuses for its name, which throws the blacklist message. */
  ghost predicate RefusedByName(o: GameObject, items: seq<GameObject>, disableBlacklist: bool) {
    o !in items && Prerequisites(o, Blacklist, disableBlacklist) == Some(Blacklisted)
  }

  ghost function Admitted(seen: set<GameObject>, items: seq<GameObject>, disableBlacklist: bool): set<GameObject> {
    set o | o in seen && Admissible(o, items, disableBlacklist)
  }

  ghost function BlacklistedAmong(seen: set<GameObject>, items: seq<GameObject>, disableBlacklist: bool): set<GameObject> {
    set o | o in seen && RefusedByName(o, items, disableBlacklist)
  }

  ghost function Elements<T>(s: seq<T>): set<T> {
    set x | x in s
  }

  /** The objects a pass over `visit` appends, in the order it visits them. */
  ghost function Kept(visit: seq<GameObject>, items: seq<GameObject>, disableBlacklist: bool): seq<GameObject> {
    if visit == [] then []
    else Kept(visit[..|visit| - 1], items, disableBlacklist) +
         (if Admissible(visit[|visit| - 1], items, disableBlacklist) then [visit[|visit| - 1]] else [])
  }

  ghost predicate AnyRefusedByName(visit: seq<GameObject>, items: seq<GameObject>, disableBlacklist: bool) {
    exists j :: 0 <= j < |visit| && RefusedByName(visit[j], items, disableBlacklist)
  }

  /** A list without repeats has as many elements as its set. */
  lemma {:induction false} DistinctCard<T>(s: seq<T>)
    requires NoDuplicates(s)
    ensures |Elements(s)| == |s|
  {
    if s != [] {
      var init := s[..|s| - 1];
      assert NoDuplicates(init) by {
        forall i, j | 0 <= i < j < |init| ensures init[i] != init[j] {
          assert init[i] == s[i] && init[j] == s[j];
        }
      }
      DistinctCard(init);
      assert s == init + [s[|s| - 1]];
      assert Elements(s) == Elements(init) + {s[|s| - 1]};
      assert s[|s| - 1] !in Elements(init);
    }
  }

  /** An object is kept by the pass exactly when it was visited and is admissible. */
  lemma {:induction false} KeptMembers(visit: seq<GameObject>, items: seq<GameObject>, disableBlacklist: bool, o: GameObject)
    ensures o in Kept(visit, items, disableBlacklist) <==> o in visit && Admissible(o, items, disableBlacklist)
    ensures |Kept(visit, items, disableBlacklist)| <= |visit|
  {
    if visit != [] {
      var init := visit[..|visit| - 1];
      KeptMembers(init, items, disableBlacklist, o);
      assert visit == init + [visit[|visit| - 1]];
    }
  }

  /** A pass over a list without repeats appends no object twice. */
  lemma {:induction false} KeptDistinct(visit: seq<GameObject>, items: seq<GameObject>, disableBlacklist: bool)
    requires NoDuplicates(visit)
    ensures NoDuplicates(Kept(visit, items, disableBlacklist))
  {
    if visit != [] {
      var init := visit[..|visit| - 1];
      var last := visit[|visit| - 1];
      assert NoDuplicates(init) by {
        forall i, j | 0 <= i < j < |init| ensures init[i] != init[j] {
          assert init[i] == visit[i] && init[j] == visit[j];
        }
      }
      KeptDistinct(init, items, disableBlacklist);
      var k := Kept(init, items, disableBlacklist);
      if Admissible(last, items, disableBlacklist) {
        assert last !in k by {
          KeptMembers(init, items, disableBlacklist, last);
        }
        forall i, j | 0 <= i < j < |k + [last]| ensures (k + [last])[i] != (k + [last])[j] {
          if j == |k| {
            assert (k + [last])[i] == k[i];
          }
        }
      }
    }
  }

  /** Whatever the visiting order, the pass keeps exactly the admissible colliders, each once. */
  lemma KeptIsAdmitted(visit: seq<GameObject>, items: seq<GameObject>, disableBlacklist: bool)
    requires NoDuplicates(visit)
    ensures Elements(Kept(visit, items, disableBlacklist)) == Admitted(Elements(visit), items, disableBlacklist)
    ensures NoDuplicates(Kept(visit, items, disableBlacklist))
    ensures |Kept(visit, items, disableBlacklist)| == |Admitted(Elements(visit), items, disableBlacklist)|
    ensures |Kept(visit, items, disableBlacklist)| <= |visit|
  {
    var kept := Kept(visit, items, disableBlacklist);
    forall o ensures o in Elements(kept) <==> o in Admitted(Elements(visit), items, disableBlacklist) {
      KeptMembers(visit, items, disableBlacklist, o);
      assert o in Elements(kept) <==> o in kept;
      assert o in Elements(visit) <==> o in visit;
    }
    assert Elements(kept) == Admitted(Elements(visit), items, disableBlacklist);
    KeptDistinct(visit, items, disableBlacklist);
    DistinctCard(kept);
  }

  /**
   * One step of the pass over `order`: the next collider is stored only if it was stored before
   * the pass, and the kept list and the refused-by-name flag each grow by that collider alone.
   */
  lemma PassStep(order: seq<GameObject>, k: nat, items0: seq<GameObject>, items: seq<GameObject>, disableBlacklist: bool)
    requires NoDuplicates(order) && k < |order|
    requires |items0| <= |items| && items[..|items0|] == items0 && items[|items0|..] == Kept(order[..k], items0, disableBlacklist)
    ensures order[k] in items <==> order[k] in items0
    ensures Kept(order[..k + 1], items0, disableBlacklist) ==
      Kept(order[..k], items0, disableBlacklist) + (if Admissible(order[k], items0, disableBlacklist) then [order[k]] else [])
    ensures AnyRefusedByName(order[..k + 1], items0, disableBlacklist) <==>
      AnyRefusedByName(order[..k], items0, disableBlacklist) || RefusedByName(order[k], items0, disableBlacklist)
  {
    var go := order[k];
    assert order[..k + 1][..k] == order[..k];
    KeptMembers(order[..k], items0, disableBlacklist, go);
    SplitMembership(items, |items0|, go);
    if AnyRefusedByName(order[..k + 1], items0, disableBlacklist) {
      var j :| 0 <= j < k + 1 && RefusedByName(order[..k + 1][j], items0, disableBlacklist);
      if j < k {
        assert order[..k][j] == order[..k + 1][j];
      }
    }
    if AnyRefusedByName(order[..k], items0, disableBlacklist) {
      var j :| 0 <= j < k && RefusedByName(order[..k][j], items0, disableBlacklist);
      assert order[..k + 1][j] == order[..k][j];
    }
    if RefusedByName(go, items0, disableBlacklist) {
      assert order[..k + 1][k] == go;
    }
  }

  /** The list after one offer of the pass still splits into the old list and what the pass kept. */
  lemma OfferExtendsPass(order: seq<GameObject>, k: nat, items0: seq<GameObject>, before: seq<GameObject>,
                         after: seq<GameObject>, ok: bool, disableBlacklist: bool)
    requires NoDuplicates(order) && k < |order|
    requires before == items0 + Kept(order[..k], items0, disableBlacklist)
    requires ok <==> order[k] !in before && Prerequisites(order[k], Blacklist, disableBlacklist).None?
    requires if ok then after == before + [order[k]] else after == before
    ensures after == items0 + Kept(order[..k + 1], items0, disableBlacklist)
    ensures order[k] in before <==> order[k] in items0
    ensures AnyRefusedByName(order[..k + 1], items0, disableBlacklist) <==>
      AnyRefusedByName(order[..k], items0, disableBlacklist) || RefusedByName(order[k], items0, disableBlacklist)
  {
    assert before[..|items0|] == items0 && before[|items0|..] == Kept(order[..k], items0, disableBlacklist);
    PassStep(order, k, items0, before, disableBlacklist);
    if ok {
      assert after == items0 + (Kept(order[..k], items0, disableBlacklist) + [order[k]]);
    }
  }

  /** Over the pass, the cached mass stays MassAfter of the list the pass started from. */
  lemma PassMass(items0: seq<GameObject>, before: seq<GameObject>, after: seq<GameObject>, suffering: bool,
                 mass0: real, massBefore: real, massAfter: real)
    requires |items0| <= |before| <= |after| && (|after| == |before| ==> after == before)
    requires massBefore == MassAfter(items0, before, suffering, mass0)
    requires massAfter == MassAfter(before, after, suffering, massBefore)
    ensures massAfter == MassAfter(items0, after, suffering, mass0)
  {
    if |after| > |items0| {
      assert after != items0;
    }
  }

  /** What the post-load pass acts on: the stored list, the cached mass, the selection and the pending message. */
  datatype PassState = PassState(items: seq<GameObject>, mass: real, cur: int, msg: string, timer: real)

  /**
   * The post-load pass after its first k offers, from the state `start`: the list is start's followed by
   * the admissible colliders among order[..k]; in suffering mode the mass is recounted once the list
   * grew; the selection is clamped at 0 once the list grew; and the blacklist message is pending, for one
   * second, exactly when one of those colliders was refused for its name and messages are shown.
   */
  ghost function PassAfter(order: seq<GameObject>, k: nat, s: Settings, suffering: bool, start: PassState): PassState
    requires k <= |order|
  {
    var items := start.items + Kept(order[..k], start.items, s.disableBlacklist);
    var shows := s.showMessages && AnyRefusedByName(order[..k], start.items, s.disableBlacklist);
    PassState(items, MassAfter(start.items, items, suffering, start.mass),
              if |items| > |start.items| then Max(0, start.cur) else start.cur,
              if shows then RejectionMessage(Blacklisted) else start.msg,
              if shows then 1.0 else start.timer)
  }

  /**
   * One offer of the pass, stated on values: when the offer acts as a single saved collider offered
   * with capacity bypassed does, the pass state moves from k offers to k + 1.
   */
  lemma OfferKeepsPass(order: seq<GameObject>, k: nat, s: Settings, suffering: bool, start: PassState, ok: bool,
                       before: PassState, after: PassState)
    requires NoDuplicates(order) && k < |order| && IndexOk(start.cur, |start.items|)
    requires before == PassAfter(order, k, s, suffering, start)
    requires ok <==> order[k] !in before.items && Prerequisites(order[k], Blacklist, s.disableBlacklist).None?
    requires if ok then after.items == before.items + [order[k]] else after.items == before.items
    requires after.cur == if ok then Max(0, Min(before.cur, |after.items|)) else before.cur
    requires after.mass == MassAfter(before.items, after.items, suffering, before.mass)
    requires var shows := s.showMessages && order[k] !in before.items && Prerequisites(order[k], Blacklist, s.disableBlacklist) == Some(Blacklisted);
      && (shows ==> after.msg == RejectionMessage(Blacklisted) && after.timer == 1.0)
      && (!shows ==> after.msg == before.msg && after.timer == before.timer)
    ensures ok <==> Admissible(order[k], start.items, s.disableBlacklist)
    ensures after == PassAfter(order, k + 1, s, suffering, start)
  {
    OfferExtendsPass(order, k, start.items, before.items, after.items, ok, s.disableBlacklist);
    PassMass(start.items, before.items, after.items, suffering, start.mass, before.mass, after.mass);
    PassIndex(|start.items|, |before.items|, |after.items|, start.cur, before.cur, after.cur);
  }

  /**
   * The outcome of a completed pass over an enumeration `order` of the cached colliders `seen`: the
   * count and the set of the colliders added are those of the admissible ones, and the message is
   * pending exactly when some cached collider is blacklisted.
   */
  lemma PassOutcome(order: seq<GameObject>, seen: set<GameObject>, s: Settings, suffering: bool, start: PassState, loaded: int)
    requires NoDuplicates(order) && Elements(order) == seen && |order| == |seen|
    requires |PassAfter(order, |order|, s, suffering, start).items| == |start.items| + loaded
    ensures var p := PassAfter(order, |order|, s, suffering, start);
      && 0 <= loaded <= |seen| && loaded == |Admitted(seen, start.items, s.disableBlacklist)|
      && p.items[..|start.items|] == start.items
      && (set o | o in p.items[|start.items|..]) == Admitted(seen, start.items, s.disableBlacklist)
      && p.mass == MassAfter(start.items, p.items, suffering, start.mass)
      && p.cur == (if loaded > 0 then Max(0, start.cur) else start.cur)
      && var shows := s.showMessages && BlacklistedAmong(seen, start.items, s.disableBlacklist) != {};
         && (shows ==> p.msg == RejectionMessage(Blacklisted) && p.timer == 1.0)
         && (!shows ==> p.msg == start.msg && p.timer == start.timer)
  {
    var p := PassAfter(order, |order|, s, suffering, start);
    assert order[..|order|] == order;
    KeptIsAdmitted(order, start.items, s.disableBlacklist);
    AnyRefusedIffBlacklisted(order, start.items, s.disableBlacklist);
    assert p.items[..|start.items|] == start.items && p.items[|start.items|..] == Kept(order, start.items, s.disableBlacklist);
  }

  /** Over the pass, the selection is clamped once, at the first collider stored, and then stays. */
  lemma PassIndex(n: nat, before: nat, after: nat, cur0: int, curBefore: int, curAfter: int)
    requires IndexOk(cur0, n) && n <= before <= after <= before + 1
    requires curBefore == if before > n then Max(0, cur0) else cur0
    requires curAfter == if after > before then Max(0, Min(curBefore, after)) else curBefore
    ensures curAfter == if after > n then Max(0, cur0) else cur0
  {
  }

  /** The blacklist message is thrown by the pass exactly when some visited collider is refused for its name. */
  lemma AnyRefusedIffBlacklisted(visit: seq<GameObject>, items: seq<GameObject>, disableBlacklist: bool)
    ensures AnyRefusedByName(visit, items, disableBlacklist) <==> BlacklistedAmong(Elements(visit), items, disableBlacklist) != {}
  {
    if AnyRefusedByName(visit, items, disableBlacklist) {
      var j :| 0 <= j < |visit| && RefusedByName(visit[j], items, disableBlacklist);
      assert visit[j] in BlacklistedAmong(Elements(visit), items, disableBlacklist);
    }
    if BlacklistedAmong(Elements(visit), items, disableBlacklist) != {} {
      var o :| o in BlacklistedAmong(Elements(visit), items, disableBlacklist);
      var j :| 0 <= j < |visit| && visit[j] == o;
      assert RefusedByName(visit[j], items, disableBlacklist);
    }
  }

  /** Lists the set in the order its enumeration visits it, each element once. */
  method Enumerate(seen: set<GameObject>) returns (order: seq<GameObject>)
    ensures NoDuplicates(order) && Elements(order) == seen && |order| == |seen|
  {
    order := [];
    var rest := seen;
    while rest != {}
      invariant NoDuplicates(order) && Elements(order) + rest == seen
      invariant forall o :: o in rest ==> o !in order
      decreases |rest|
    {
      var o :| o in rest;
      assert Elements(order + [o]) == Elements(order) + {o};
      order := order + [o];
      rest := rest - {o};
    }
    DistinctCard(order);
  }

  /** Appending keeps the first `n` elements and extends the rest. */
  lemma AppendKeepsSplit<T>(a: seq<T>, b: seq<T>, n: nat, x: T)
    requires n <= |a| && b == a + [x]
    ensures b[..n] == a[..n] && b[n..] == a[n..] + [x]
  {
  }

  /** An element of a list is in the part before `n` or in the part from `n`. */
  lemma SplitMembership<T>(a: seq<T>, n: nat, x: T)
    requires n <= |a|
    ensures x in a <==> x in a[..n] || x in a[n..]
  {
    assert a == a[..n] + a[n..];
  }

  // ---------------------------------------------------------------- the mod

  /** Inventory and list UI agree: both valid, and the selection fits the list. */
  ghost predicate Consistent(handler: InventoryHandler, ui: UIHandler)
    reads handler, handler.Items, ui
  {
    handler.Valid() && ui.Valid() && IndexOk(ui.CurIndex, |handler.Items|)
  }

  /** The objects behind the hits of a frame, the only ones the pick-up key may move. */
  ghost function Targets(hits: seq<Hit>): set<GameObject> {
    set h | h in hits && h.target.Some? :: h.target.value
  }

  /**
   * The cached mass after a change of the list from `before` to `after`: UpdateMass recounts it in
   * suffering mode; when the list is unchanged, or outside suffering mode, it is as it was.
   */
  function MassAfter(before: seq<GameObject>, after: seq<GameObject>, suffering: bool, mass: real): real {
    if suffering && after != before then SumMass(after) else mass
  }

  /** Where and how a stored object is kept: kinematic, at TempPosition, with no parent. */
  ghost predicate Parked(o: GameObject)
    reads o
  {
    o.isKinematic && o.position == TempPosition && o.parent == null
  }

  /**
   * What a frame does to the objects it may touch: an object newly stored is parked, kinematic at
   * TempPosition with no parent; one no longer stored was released, not kinematic, at `dropAt`, with its
   * parent kept; every other stored object and hit target is as it was.
   */
  twostate predicate ObjectsAfter(before: seq<GameObject>, new after: seq<GameObject>, targets: set<GameObject>, dropAt: Vector3)
    reads before, after, targets
  {
    && (forall o :: o in after && o !in before ==> o.isKinematic && o.position == TempPosition && o.parent == null)
    && (forall o :: o in before && o !in after ==> !o.isKinematic && o.position == dropAt && o.parent == old(o.parent))
    && unchanged(set o | o in Elements(before) + targets && (o in before <==> o in after))
  }

  const RefreshPeriod: real := 30.0

  class Mod {
    /** The readable text of the last failed pick-up, empty when none is pending. */
    var FailMessage: string
    /** Seconds left to show FailMessage. */
    var FailMessageTimer: real
    /** Seconds until the open list is refreshed again. */
    var RefreshTimer: real
    /** The game's on-screen interaction text that FailMessage overrides. */
    var FailMessageText: string
    /** The load catcher while it exists, between preload and postload. */
    var catcher: LoadCatcher?

    constructor ()
      ensures FailMessage == "" && FailMessageTimer == 0.0 && RefreshTimer == RefreshPeriod
      ensures FailMessageText == "" && catcher == null
    {
      FailMessage := "";
      FailMessageTimer := 0.0;
      RefreshTimer := RefreshPeriod;
      FailMessageText := "";
      catcher := null;
    }

    /** The failure message, its timer and the interaction text, as one value. */
    function Messages(): MessageState
      reads this
    {
      MessageState(FailMessage, FailMessageTimer, FailMessageText)
    }

    /** The stored list, the cached mass, the selection and the pending message, as one value. */
    function PassOf(handler: InventoryHandler, ui: UIHandler): PassState
      reads this, handler, ui
    {
      PassState(handler.Items, handler.Mass, ui.CurIndex, FailMessage, FailMessageTimer)
    }

    /** Shows a failure message for one second, if messages are enabled. */
    method ThrowMessage(message: string, s: Settings)
      modifies this`FailMessage, this`FailMessageTimer
      ensures s.showMessages ==> FailMessage == message && FailMessageTimer == 1.0
      ensures !s.showMessages ==> FailMessage == old(FailMessage) && FailMessageTimer == old(FailMessageTimer)
    {
      if !s.showMessages {
        return;
      }
      FailMessage := message;
      FailMessageTimer := 1.0;
    }

    /**
     * While the timer runs, the message is written over the game's text; once it has run out, a
     * pending message that is still on screen is cleared from both places.
     */
    method CountDownFailMessage(deltaTime: real)
      modifies this`FailMessage, this`FailMessageTimer, this`FailMessageText
      ensures old(FailMessageTimer) > 0.0 ==>
        && FailMessageTimer == old(FailMessageTimer) - deltaTime
        && FailMessage == old(FailMessage) && FailMessageText == FailMessage
      ensures old(FailMessageTimer) <= 0.0 ==> FailMessageTimer == old(FailMessageTimer)
      ensures old(FailMessageTimer) <= 0.0 && old(FailMessage) != "" && old(FailMessageText) == old(FailMessage) ==>
        FailMessage == "" && FailMessageText == ""
      ensures old(FailMessageTimer) <= 0.0 && !(old(FailMessage) != "" && old(FailMessageText) == old(FailMessage)) ==>
        FailMessage == old(FailMessage) && FailMessageText == old(FailMessageText)
      ensures Messages() == CountedDown(old(Messages()), deltaTime)
    {
      if FailMessageTimer > 0.0 {
        FailMessageTimer := FailMessageTimer - deltaTime;
        FailMessageText := FailMessage;
      } else {
        if FailMessage != "" && FailMessageText == FailMessage {
          FailMessageText := "";
          FailMessage := "";
        }
      }
    }

    /** The periodic refresh: once the timer drops below zero with the list open, it restarts and the list is redrawn. */
    method CountDownRefresh(deltaTime: real, ui: UIHandler, items: seq<GameObject>)
      requires ui.Valid() && |items| < 256
      modifies this`RefreshTimer, ui`Entries
      ensures ui.Valid()
      ensures var t := old(RefreshTimer) - deltaTime;
        if t < 0.0 && ui.active then RefreshTimer == RefreshPeriod && ui.Entries == EntryLabels(items, ui.CurIndex)
        else RefreshTimer == t && ui.Entries == old(ui.Entries)
    {
      RefreshTimer := RefreshTimer - deltaTime;
      if RefreshTimer < 0.0 && ui.active {
        RefreshTimer := RefreshPeriod;
        ui.Refresh(items);
      }
    }

    /** One hit of the pick-up walk: an attempt on the object behind it, the redraw on success, the message on refusal. */
    method AttemptHit(h: Hit, s: Settings, handler: InventoryHandler, ui: UIHandler) returns (ok: bool)
      requires Consistent(handler, ui) && |handler.Items| < 255
      modifies handler`Items, handler`Mass, ui`CurIndex, ui`Entries, this`FailMessage, this`FailMessageTimer
      modifies if h.target.Some? then {h.target.value} else {}
      ensures Consistent(handler, ui)
      ensures old(handler.MassTracked()) ==> handler.MassTracked()
      ensures ok <==> Pickable(h, old(handler.Items), s.disableBlacklist, old(handler.Limits()))
      ensures ObjectsAfter(old(handler.Items), handler.Items, if h.target.Some? then {h.target.value} else {}, TempPosition)
      ensures handler.Mass == MassAfter(old(handler.Items), handler.Items, handler.SufferingMode, old(handler.Mass))
      ensures ok ==> && handler.Items == old(handler.Items) + [h.target.value]
                     && h.target.value.isKinematic && h.target.value.position == TempPosition
                     && ui.CurIndex == Max(0, Min(old(ui.CurIndex), |handler.Items|))
                     && (ui.active ==> ui.Entries == EntryLabels(handler.Items, ui.CurIndex))
                     && (!ui.active ==> ui.Entries == old(ui.Entries))
      ensures !ok ==> && handler.Items == old(handler.Items) && handler.Mass == old(handler.Mass)
                      && handler.Limits() == old(handler.Limits())
                      && ui.CurIndex == old(ui.CurIndex) && ui.Entries == old(ui.Entries)
      ensures var shows := s.showMessages && ShowsRejection(h, old(handler.Items), s.disableBlacklist, old(handler.Limits()));
        && (shows ==> && FailMessage == RejectionMessage(HandlerVerdict(old(handler.Items), h.target.value, false, s.disableBlacklist, old(handler.Limits())).reason)
                      && FailMessageTimer == 1.0)
        && (!shows ==> FailMessage == old(FailMessage) && FailMessageTimer == old(FailMessageTimer))
    {
      ok := false;
      if h.distance <= 1.0 && h.target.Some? {
        ok := AttemptObject(h.target.value, s, handler, ui);
      }
    }

    /** The attempt on the object behind a hit in reach: AttemptPickUp, then the redraw on success or the message on refusal. */
    method AttemptObject(go: GameObject, s: Settings, handler: InventoryHandler, ui: UIHandler) returns (ok: bool)
      requires Consistent(handler, ui) && |handler.Items| < 255
      modifies handler`Items, handler`Mass, ui`CurIndex, ui`Entries, this`FailMessage, this`FailMessageTimer, go
      ensures Consistent(handler, ui)
      ensures old(handler.MassTracked()) ==> handler.MassTracked()
      ensures handler.Mass == MassAfter(old(handler.Items), handler.Items, handler.SufferingMode, old(handler.Mass))
      ensures var v := HandlerVerdict(old(handler.Items), go, false, s.disableBlacklist, old(handler.Limits()));
        && (ok <==> v == Accept)
        && (s.showMessages && v.Reject? && v.reason.Shown() ==> FailMessage == RejectionMessage(v.reason) && FailMessageTimer == 1.0)
        && (!(s.showMessages && v.Reject? && v.reason.Shown()) ==> FailMessage == old(FailMessage) && FailMessageTimer == old(FailMessageTimer))
      ensures ok ==> && handler.Items == old(handler.Items) + [go] && go !in old(handler.Items)
                     && go.isKinematic && go.position == TempPosition && go.parent == null
                     && ui.CurIndex == Max(0, Min(old(ui.CurIndex), |handler.Items|))
                     && (ui.active ==> ui.Entries == EntryLabels(handler.Items, ui.CurIndex))
                     && (!ui.active ==> ui.Entries == old(ui.Entries))
      ensures !ok ==> && handler.Items == old(handler.Items) && handler.Mass == old(handler.Mass) && unchanged(go)
                      && ui.CurIndex == old(ui.CurIndex) && ui.Entries == old(ui.Entries)
    {
      if go in handler.Items {
        StoredIsRejected(handler.Items, go, false, s.disableBlacklist, handler.Limits());
      }
      var v;
      ok, v := handler.AttemptPickUp(go, false, s.disableBlacklist, ui);
      if ok {
        ui.Refresh(handler.Items);
      } else if v.reason.Shown() {
        ThrowMessage(RejectionMessage(v.reason), s);
      }
    }

    /**
     * One turn of the pick-up loop, stated on the walk: a success ends it at hit k; a refusal
     * leaves the store as it was and moves the walk on to hit k + 1, with acc' the last reason shown.
     */
    method TryHit(hits: seq<Hit>, k: nat, s: Settings, handler: InventoryHandler, ui: UIHandler,
                  ghost items0: seq<GameObject>, ghost lim0: Limits, ghost acc: Option<Reason>)
        returns (picked: bool, ghost acc': Option<Reason>)
      requires k < |hits| && Consistent(handler, ui) && |handler.Items| < 255
      requires handler.Items == items0 && handler.Limits() == lim0
      modifies handler`Items, handler`Mass, ui`CurIndex, ui`Entries, this`FailMessage, this`FailMessageTimer
      modifies if hits[k].target.Some? then {hits[k].target.value} else {}
      ensures Consistent(handler, ui)
      ensures ObjectsAfter(items0, handler.Items, Targets(hits), TempPosition)
      ensures handler.Mass == MassAfter(items0, handler.Items, handler.SufferingMode, old(handler.Mass))
      ensures old(handler.MassTracked()) ==> handler.MassTracked()
      ensures picked ==> && Resume(k, acc, ScanHits(hits[k..], items0, s.disableBlacklist, lim0)) == Scan(Some(k), acc)
                         && handler.Items == items0 + [hits[k].target.value]
                         && hits[k].target.value.isKinematic && hits[k].target.value.position == TempPosition
                         && ui.CurIndex == Max(0, Min(old(ui.CurIndex), |handler.Items|))
                         && (ui.active ==> ui.Entries == EntryLabels(handler.Items, ui.CurIndex))
                         && (!ui.active ==> ui.Entries == old(ui.Entries))
                         && acc' == acc && FailMessage == old(FailMessage) && FailMessageTimer == old(FailMessageTimer)
      ensures !picked ==> && Resume(k, acc, ScanHits(hits[k..], items0, s.disableBlacklist, lim0))
                             == Resume(k + 1, acc', ScanHits(hits[k + 1..], items0, s.disableBlacklist, lim0))
                          && handler.Items == items0 && handler.Mass == old(handler.Mass) && handler.Limits() == lim0
                          && ui.CurIndex == old(ui.CurIndex) && ui.Entries == old(ui.Entries)
      ensures var shows := !picked && ShowsRejection(hits[k], items0, s.disableBlacklist, lim0);
        && (shows ==> acc' == Some(HandlerVerdict(items0, hits[k].target.value, false, s.disableBlacklist, lim0).reason))
        && (shows && s.showMessages ==> FailMessage == RejectionMessage(acc'.value) && FailMessageTimer == 1.0)
        && (!(shows && s.showMessages) ==> FailMessage == old(FailMessage) && FailMessageTimer == old(FailMessageTimer))
        && (!shows ==> acc' == acc)
    {
      ScanStep(hits, k, acc, items0, s.disableBlacklist, lim0);
      picked := AttemptHit(hits[k], s, handler, ui);
      acc' := acc;
      if !picked && ShowsRejection(hits[k], items0, s.disableBlacklist, lim0) {
        acc' := Some(HandlerVerdict(items0, hits[k].target.value, false, s.disableBlacklist, lim0).reason);
      }
    }

    /**
     * The pick-up key: tries the hits in order and stops at the first success, after which the
     * list is redrawn; each refusal with a visible reason throws its message.
     */
    method PickUpFromHits(hits: seq<Hit>, s: Settings, handler: InventoryHandler, ui: UIHandler) returns (picked: bool)
      requires Consistent(handler, ui) && |handler.Items| < 255
      modifies handler`Items, handler`Mass, ui`CurIndex, ui`Entries, this`FailMessage, this`FailMessageTimer
      modifies Targets(hits)
      ensures Consistent(handler, ui)
      ensures old(handler.MassTracked()) ==> handler.MassTracked()
      ensures ObjectsAfter(old(handler.Items), handler.Items, Targets(hits), TempPosition)
      ensures handler.Mass == MassAfter(old(handler.Items), handler.Items, handler.SufferingMode, old(handler.Mass))
      ensures var r := ScanHits(hits, old(handler.Items), s.disableBlacklist, old(handler.Limits()));
        && (picked <==> r.picked.Some?)
        && (r.picked.Some? ==> var o := hits[r.picked.value].target.value;
              && handler.Items == old(handler.Items) + [o]
              && o.isKinematic && o.position == TempPosition
              && ui.CurIndex == Max(0, Min(old(ui.CurIndex), |handler.Items|))
              && (ui.active ==> ui.Entries == EntryLabels(handler.Items, ui.CurIndex))
              && (!ui.active ==> ui.Entries == old(ui.Entries)))
        && (r.picked.None? ==>
              (&& handler.Items == old(handler.Items) && handler.Mass == old(handler.Mass)
               && ui.CurIndex == old(ui.CurIndex) && ui.Entries == old(ui.Entries)))
        && (s.showMessages && r.shown.Some? ==> FailMessage == RejectionMessage(r.shown.value) && FailMessageTimer == 1.0)
        && (!(s.showMessages && r.shown.Some?) ==> FailMessage == old(FailMessage) && FailMessageTimer == old(FailMessageTimer))
    {
      ghost var items0 := handler.Items;
      ghost var lim0 := handler.Limits();
      ghost var acc: Option<Reason> := None;
      picked := false;
      var k := 0;
      while k < |hits|
        invariant 0 <= k <= |hits|
        invariant Consistent(handler, ui)
        invariant old(handler.MassTracked()) ==> handler.MassTracked()
        invariant handler.Items == items0 && handler.Limits() == lim0 && handler.Mass == old(handler.Mass)
        invariant unchanged(Elements(items0) + Targets(hits))
        invariant ui.CurIndex == old(ui.CurIndex) && ui.Entries == old(ui.Entries)
        invariant Resume(k, acc, ScanHits(hits[k..], items0, s.disableBlacklist, lim0)) == ScanHits(hits, items0, s.disableBlacklist, lim0)
        invariant acc.Some? ==> acc.value.Shown()
        invariant s.showMessages && acc.Some? ==> FailMessage == RejectionMessage(acc.value) && FailMessageTimer == 1.0
        invariant !(s.showMessages && acc.Some?) ==> FailMessage == old(FailMessage) && FailMessageTimer == old(FailMessageTimer)
        decreases |hits| - k
      {
        picked, acc := TryHit(hits, k, s, handler, ui, items0, lim0, acc);
        if picked {
          return;
        }
        k := k + 1;
      }
    }

    /** The drop-all key: everything is released at the camera point and the list shows the placeholder; then the scroll wheel. */
    method PressDropAll(f: Frame, handler: InventoryHandler, ui: UIHandler)
      requires Consistent(handler, ui) && ui.active && f.dropAllKey
      modifies handler`Items, handler`Mass, ui`CurIndex, ui`Entries, set o | o in handler.Items
      ensures Consistent(handler, ui)
      ensures old(handler.MassTracked()) ==> handler.MassTracked()
      ensures handler.Items == [] && ui.Entries == EntryLabels(handler.Items, ui.CurIndex)
      ensures ui.CurIndex == var i := if old(handler.Items) == [] then old(ui.CurIndex) else 0;
                             if f.scroll != 0.0 then AdjustedIndex(i, f.scroll < 0.0, 0) else i
      ensures ObjectsAfter(old(handler.Items), handler.Items, Targets(f.hits), f.cameraPoint)
      ensures handler.Mass == MassAfter(old(handler.Items), handler.Items, handler.SufferingMode, old(handler.Mass))
    {
      var _ := handler.DropAll(None, f.cameraPoint, ui);
      Scroll(f.scroll, handler, ui);
    }

    /** The pick-up key: the walk over the hits, stated as the frame's effect on the list and the message. */
    method PressPickUp(f: Frame, s: Settings, handler: InventoryHandler, ui: UIHandler)
      requires Consistent(handler, ui) && |handler.Items| < 255 && ui.active && !f.dropAllKey && f.pickUpKey
      modifies handler`Items, handler`Mass, ui`CurIndex, ui`Entries, this`FailMessage, this`FailMessageTimer
      modifies Targets(f.hits)
      ensures Consistent(handler, ui)
      ensures old(handler.MassTracked()) ==> handler.MassTracked()
      ensures ObjectsAfter(old(handler.Items), handler.Items, Targets(f.hits), f.cameraPoint)
      ensures handler.Mass == MassAfter(old(handler.Items), handler.Items, handler.SufferingMode, old(handler.Mass))
      ensures var after := ItemsAfter(f, true, old(handler.Items), old(ui.CurIndex), s.disableBlacklist, old(handler.Limits()));
        after.Some? && handler.Items == after.value
      ensures ui.CurIndex == IndexAfter(f, true, old(handler.Items), old(ui.CurIndex), s.disableBlacklist, old(handler.Limits()))
      ensures ui.Entries == if |handler.Items| > |old(handler.Items)| then EntryLabels(handler.Items, ui.CurIndex) else old(ui.Entries)
      ensures var r := ScanHits(f.hits, old(handler.Items), s.disableBlacklist, old(handler.Limits()));
        && (s.showMessages && r.shown.Some? ==> FailMessage == RejectionMessage(r.shown.value) && FailMessageTimer == 1.0)
        && (!(s.showMessages && r.shown.Some?) ==> FailMessage == old(FailMessage) && FailMessageTimer == old(FailMessageTimer))
    {
      var _ := PickUpFromHits(f.hits, s, handler, ui);
    }

    /** The pick-up key, then the scroll wheel over the list it leaves. */
    method PickUpAndScroll(f: Frame, s: Settings, handler: InventoryHandler, ui: UIHandler)
      requires Consistent(handler, ui) && |handler.Items| < 255 && ui.active && !f.dropAllKey && f.pickUpKey
      modifies handler`Items, handler`Mass, ui`CurIndex, ui`Entries, this`FailMessage, this`FailMessageTimer
      modifies Targets(f.hits)
      ensures Consistent(handler, ui)
      ensures old(handler.MassTracked()) ==> handler.MassTracked()
      ensures ObjectsAfter(old(handler.Items), handler.Items, Targets(f.hits), f.cameraPoint)
      ensures handler.Mass == MassAfter(old(handler.Items), handler.Items, handler.SufferingMode, old(handler.Mass))
      ensures var after := ItemsAfter(f, true, old(handler.Items), old(ui.CurIndex), s.disableBlacklist, old(handler.Limits()));
        after.Some? && handler.Items == after.value
      ensures ui.CurIndex == FrameIndex(f, true, old(handler.Items), old(ui.CurIndex), s.disableBlacklist, old(handler.Limits()))
      ensures ui.Entries == if f.scroll != 0.0 || |handler.Items| > |old(handler.Items)|
                            then EntryLabels(handler.Items, ui.CurIndex) else old(ui.Entries)
      ensures var r := ScanHits(f.hits, old(handler.Items), s.disableBlacklist, old(handler.Limits()));
        && (s.showMessages && r.shown.Some? ==> FailMessage == RejectionMessage(r.shown.value) && FailMessageTimer == 1.0)
        && (!(s.showMessages && r.shown.Some?) ==> FailMessage == old(FailMessage) && FailMessageTimer == old(FailMessageTimer))
    {
      PressPickUp(f, s, handler, ui);
      Scroll(f.scroll, handler, ui);
    }

    /**
     * The drop-selected key: DropCurrent at the camera point, a refresh, then the scroll wheel over the
     * shorter list; an out-of-range selection throws before anything changes.
     */
    method DropSelected(f: Frame, handler: InventoryHandler, ui: UIHandler) returns (faulted: bool)
      requires Consistent(handler, ui) && |handler.Items| < 255 && ui.active
      modifies handler`Items, handler`Mass, ui`CurIndex, ui`Entries, set o | o in handler.Items
      ensures Consistent(handler, ui)
      ensures old(handler.MassTracked()) ==> handler.MassTracked()
      ensures ObjectsAfter(old(handler.Items), handler.Items, Targets(f.hits), f.cameraPoint)
      ensures handler.Mass == MassAfter(old(handler.Items), handler.Items, handler.SufferingMode, old(handler.Mass))
      ensures faulted <==> !(0 <= old(ui.CurIndex) < |old(handler.Items)|)
      ensures faulted ==> handler.Items == old(handler.Items) && ui.CurIndex == old(ui.CurIndex) && ui.Entries == old(ui.Entries)
      ensures !faulted ==> && handler.Items == RemoveAt(old(handler.Items), old(ui.CurIndex))
                           && ui.CurIndex == (var i := Max(0, Min(old(ui.CurIndex) - 1, |old(handler.Items)| - 1));
                                              if f.scroll != 0.0 then AdjustedIndex(i, f.scroll < 0.0, |handler.Items|) else i)
                           && ui.Entries == EntryLabels(handler.Items, ui.CurIndex)
    {
      if !(0 <= ui.CurIndex < |handler.Items|) {
        // Items[CurIndex] is out of range: the exception ends the frame here.
        return true;
      }
      ReleaseSelected(f.cameraPoint, handler, ui);
      Scroll(f.scroll, handler, ui);
      faulted := false;
    }

    /** The drop-selected key on an in-range selection: DropCurrent at the camera point, then a refresh. */
    method ReleaseSelected(cameraPoint: Vector3, handler: InventoryHandler, ui: UIHandler)
      requires Consistent(handler, ui) && |handler.Items| < 255 && ui.active
      requires 0 <= ui.CurIndex < |handler.Items|
      modifies handler`Items, handler`Mass, ui`CurIndex, ui`Entries, handler.Items[ui.CurIndex]
      ensures Consistent(handler, ui)
      ensures old(handler.MassTracked()) ==> handler.MassTracked()
      ensures ObjectsAfter(old(handler.Items), handler.Items, {}, cameraPoint)
      ensures handler.Mass == MassAfter(old(handler.Items), handler.Items, handler.SufferingMode, old(handler.Mass))
      ensures handler.Items == RemoveAt(old(handler.Items), old(ui.CurIndex))
      ensures ui.CurIndex == Max(0, Min(old(ui.CurIndex) - 1, |old(handler.Items)| - 1))
      ensures ui.Entries == EntryLabels(handler.Items, ui.CurIndex)
    {
      RemoveAtMembership(handler.Items, ui.CurIndex);
      RemoveAtIsSlices(handler.Items, ui.CurIndex);
      handler.DropCurrent(None, cameraPoint, ui);
      ui.Refresh(handler.Items);
    }

    /**
     * One frame with both the inventory and the list UI present: the failure message and the
     * refresh timer count down, the toggle key opens or closes the list, and with the list open
     * the action keys and the scroll wheel act.
     */
    method Step(f: Frame, s: Settings, handler: InventoryHandler, ui: UIHandler) returns (faulted: bool)
      requires Consistent(handler, ui) && |handler.Items| < 255
      modifies this`FailMessage, this`FailMessageTimer, this`FailMessageText, this`RefreshTimer
      modifies handler`Items, handler`Mass, ui`CurIndex, ui`Entries, ui`active
      modifies (set o | o in handler.Items), Targets(f.hits)
      ensures Consistent(handler, ui)
      ensures old(handler.MassTracked()) ==> handler.MassTracked()
      ensures faulted ==> handler.Items == old(handler.Items)
      ensures ObjectsAfter(old(handler.Items), handler.Items, Targets(f.hits), f.cameraPoint)
      ensures handler.Mass == MassAfter(old(handler.Items), handler.Items, handler.SufferingMode, old(handler.Mass))
      ensures ui.active == (old(ui.active) != f.toggleKey)
      ensures var after := ItemsAfter(f, ui.active, old(handler.Items), old(ui.CurIndex), s.disableBlacklist, old(handler.Limits()));
        && (faulted <==> after.None?)
        && (after.Some? ==> handler.Items == after.value)
      ensures RefreshTimer == if old(RefreshTimer) - f.deltaTime < 0.0 && old(ui.active) then RefreshPeriod
                              else old(RefreshTimer) - f.deltaTime
      ensures ui.CurIndex == if faulted then old(ui.CurIndex)
                             else FrameIndex(f, ui.active, old(handler.Items), old(ui.CurIndex), s.disableBlacklist, old(handler.Limits()))
      ensures ui.Entries == if ui.active && !faulted && (f.scroll != 0.0 || f.dropAllKey || (!f.pickUpKey && f.dropSelectedKey)
                                                     || |handler.Items| > |old(handler.Items)|)
                              then EntryLabels(handler.Items, ui.CurIndex)
                            else if old(RefreshTimer) - f.deltaTime < 0.0 && old(ui.active)
                              then EntryLabels(old(handler.Items), old(ui.CurIndex))
                            else old(ui.Entries)
      ensures Messages() == FrameMessages(f, s, ui.active, old(handler.Items), old(handler.Limits()), old(Messages()))
    {
      BeginFrame(f, handler, ui);
      assert unchanged(Elements(handler.Items) + Targets(f.hits));
      ghost var counted := Messages();
      if !ui.active {
        assert FrameMessages(f, s, false, handler.Items, handler.Limits(), old(Messages())) == counted;
        return false;
      }
      faulted := ActAndScroll(f, s, handler, ui);
    }

    /** The start of every frame: the message and refresh countdowns, then the toggle key. */
    method BeginFrame(f: Frame, handler: InventoryHandler, ui: UIHandler)
      requires Consistent(handler, ui) && |handler.Items| < 255
      modifies this`FailMessage, this`FailMessageTimer, this`FailMessageText, this`RefreshTimer, ui`Entries, ui`active
      ensures Consistent(handler, ui)
      ensures Messages() == CountedDown(old(Messages()), f.deltaTime)
      ensures RefreshTimer == if old(RefreshTimer) - f.deltaTime < 0.0 && old(ui.active) then RefreshPeriod
                              else old(RefreshTimer) - f.deltaTime
      ensures ui.Entries == if old(RefreshTimer) - f.deltaTime < 0.0 && old(ui.active)
                            then EntryLabels(handler.Items, ui.CurIndex) else old(ui.Entries)
      ensures ui.active == (old(ui.active) != f.toggleKey)
    {
      CountDownFailMessage(f.deltaTime);
      CountDownRefresh(f.deltaTime, ui, handler.Items);
      if f.toggleKey {
        ui.Toggle();
      }
    }

    /**
     * With the list open: the action keys in their order of precedence (drop all, pick up, drop
     * selected), then, unless the action threw, the scroll wheel.
     */
    method ActAndScroll(f: Frame, s: Settings, handler: InventoryHandler, ui: UIHandler) returns (faulted: bool)
      requires Consistent(handler, ui) && |handler.Items| < 255 && ui.active
      modifies this`FailMessage, this`FailMessageTimer
      modifies handler`Items, handler`Mass, ui`CurIndex, ui`Entries
      modifies (set o | o in handler.Items), Targets(f.hits)
      ensures Consistent(handler, ui)
      ensures old(handler.MassTracked()) ==> handler.MassTracked()
      ensures faulted ==> handler.Items == old(handler.Items)
      ensures ObjectsAfter(old(handler.Items), handler.Items, Targets(f.hits), f.cameraPoint)
      ensures handler.Mass == MassAfter(old(handler.Items), handler.Items, handler.SufferingMode, old(handler.Mass))
      ensures var after := ItemsAfter(f, true, old(handler.Items), old(ui.CurIndex), s.disableBlacklist, old(handler.Limits()));
        && (faulted <==> after.None?)
        && (after.Some? ==> handler.Items == after.value)
      ensures ui.CurIndex == if faulted then old(ui.CurIndex)
                             else FrameIndex(f, true, old(handler.Items), old(ui.CurIndex), s.disableBlacklist, old(handler.Limits()))
      ensures ui.Entries == if !faulted && (f.scroll != 0.0 || f.dropAllKey || (!f.pickUpKey && f.dropSelectedKey)
                                         || |handler.Items| > |old(handler.Items)|)
                            then EntryLabels(handler.Items, ui.CurIndex) else old(ui.Entries)
      ensures var r := ScanHits(f.hits, old(handler.Items), s.disableBlacklist, old(handler.Limits()));
        Messages() == if !f.dropAllKey && f.pickUpKey && s.showMessages && r.shown.Some?
                      then MessageState(RejectionMessage(r.shown.value), 1.0, old(FailMessageText)) else old(Messages())
    {
      faulted := false;
      if f.dropAllKey {
        PressDropAll(f, handler, ui);
      } else if f.pickUpKey {
        PickUpAndScroll(f, s, handler, ui);
      } else if f.dropSelectedKey {
        faulted := DropSelected(f, handler, ui);
      } else {
        Scroll(f.scroll, handler, ui);
      }
    }

    /** The scroll wheel with the list open: one step up or down the list, wrapping at either end. */
    method Scroll(scroll: real, handler: InventoryHandler, ui: UIHandler)
      requires Consistent(handler, ui) && |handler.Items| < 256 && ui.active
      modifies ui`CurIndex, ui`Entries
      ensures Consistent(handler, ui)
      ensures ui.CurIndex == if scroll != 0.0 then AdjustedIndex(old(ui.CurIndex), scroll < 0.0, |handler.Items|)
                             else old(ui.CurIndex)
      ensures ui.Entries == if scroll != 0.0 then EntryLabels(handler.Items, ui.CurIndex) else old(ui.Entries)
    {
      if scroll != 0.0 {
        ScrollKeepsIndexValid(ui.CurIndex, scroll < 0.0, |handler.Items|);
        ui.AdjustActiveIndex(scroll < 0.0, handler.Items);
      }
    }

    /** Outside the game, or before both the inventory and the list UI exist, a frame does nothing. */
    method Update(f: Frame, s: Settings, handler: InventoryHandler?, ui: UIHandler?) returns (ran: bool, faulted: bool)
      requires handler != null && ui != null ==> Consistent(handler, ui) && |handler.Items| < 255
      modifies this, handler, ui
      modifies if handler != null then set o | o in handler.Items else {}
      modifies Targets(f.hits)
      ensures ran <==> f.inGame && handler != null && ui != null
      ensures !ran ==> !faulted && unchanged(this) && unchanged(Targets(f.hits))
      ensures !ran && handler != null ==> unchanged(handler) && unchanged(set o | o in handler.Items)
      ensures !ran && ui != null ==> unchanged(ui)
      ensures ran ==> Consistent(handler, ui)
      ensures ran ==> && handler.MaxSlots == old(handler.MaxSlots) && handler.SufferingMode == old(handler.SufferingMode)
                      && handler.MassCapacity == old(handler.MassCapacity) && handler.MaxLength == old(handler.MaxLength)
      ensures ran ==> old(handler.MassTracked()) ==> handler.MassTracked()
      ensures ran ==> faulted ==> handler.Items == old(handler.Items)
      ensures ran ==> ObjectsAfter(old(handler.Items), handler.Items, Targets(f.hits), f.cameraPoint)
      ensures ran ==> handler.Mass == MassAfter(old(handler.Items), handler.Items, handler.SufferingMode, old(handler.Mass))
      ensures ran ==> ui.active == (old(ui.active) != f.toggleKey) && catcher == old(catcher)
      ensures ran ==> var after := ItemsAfter(f, ui.active, old(handler.Items), old(ui.CurIndex), s.disableBlacklist, old(handler.Limits()));
        && (faulted <==> after.None?)
        && (after.Some? ==> handler.Items == after.value)
      ensures ran ==> RefreshTimer == if old(RefreshTimer) - f.deltaTime < 0.0 && old(ui.active) then RefreshPeriod
                                      else old(RefreshTimer) - f.deltaTime
      ensures ran ==> ui.CurIndex == if faulted then old(ui.CurIndex)
                                     else FrameIndex(f, ui.active, old(handler.Items), old(ui.CurIndex), s.disableBlacklist, old(handler.Limits()))
      ensures ran ==> ui.Entries == if ui.active && !faulted && (f.scroll != 0.0 || f.dropAllKey || (!f.pickUpKey && f.dropSelectedKey)
                                                             || |handler.Items| > |old(handler.Items)|)
                                      then EntryLabels(handler.Items, ui.CurIndex)
                                    else if old(RefreshTimer) - f.deltaTime < 0.0 && old(ui.active)
                                      then EntryLabels(old(handler.Items), old(ui.CurIndex))
                                    else old(ui.Entries)
      ensures ran ==> Messages() == FrameMessages(f, s, ui.active, old(handler.Items), old(handler.Limits()), old(Messages()))
    {
      if !f.inGame || handler == null || ui == null {
        return false, false;
      }
      ran := true;
      faulted := Step(f, s, handler, ui);
    }

    /** Preload: a fresh, empty cache and the catcher that fills it. */
    method PreLoad()
      modifies this`catcher
      ensures catcher != null && fresh(catcher) && catcher.LoadedColliders == {}
    {
      catcher := new LoadCatcher();
    }

    /** Load: the inventory and the list UI are created, empty, closed and consistent. */
    method Load(s: Settings, template: Label) returns (handler: InventoryHandler, ui: UIHandler)
      ensures fresh(handler) && fresh(ui) && Consistent(handler, ui)
      ensures handler.Items == [] && handler.MaxSlots == Min(15, s.maxSlots) && handler.SufferingMode == s.sufferingMode
      ensures handler.Mass == 0.0 && handler.MassTracked()
      ensures handler.MassCapacity == s.weightLimit && handler.MaxLength == s.lengthLimitCm / 100.0
      ensures !ui.active && ui.CurIndex == 0 && ui.Entries == [template]
    {
      handler := new InventoryHandler(s);
      ui := new UIHandler(template);
    }

    /** One saved collider offered with capacity bypassed; a blacklisted one throws its message. */
    method OfferSaved(go: GameObject, s: Settings, handler: InventoryHandler, ui: UIHandler, ghost lo: nat) returns (ok: bool)
      requires Consistent(handler, ui)
      requires forall i :: lo <= i < |handler.Items| ==> Parked(handler.Items[i])
      modifies this`FailMessage, this`FailMessageTimer, handler`Items, handler`Mass, ui`CurIndex
      modifies if Admissible(go, handler.Items, s.disableBlacklist) then {go} else {}
      ensures Consistent(handler, ui)
      ensures old(handler.MassTracked()) ==> handler.MassTracked()
      ensures ok <==> go !in old(handler.Items) && Prerequisites(go, Blacklist, s.disableBlacklist).None?
      ensures ok ==> handler.Items == old(handler.Items) + [go] && go.isKinematic && go.position == TempPosition && go.parent == null
      ensures !ok ==> && handler.Items == old(handler.Items) && handler.Mass == old(handler.Mass)
                      && ui.CurIndex == old(ui.CurIndex) && unchanged(go)
      ensures ok ==> ui.CurIndex == Max(0, Min(old(ui.CurIndex), |handler.Items|))
      ensures handler.Mass == MassAfter(old(handler.Items), handler.Items, handler.SufferingMode, old(handler.Mass))
      ensures var shows := s.showMessages && go !in old(handler.Items) && Prerequisites(go, Blacklist, s.disableBlacklist) == Some(Blacklisted);
        && (shows ==> FailMessage == RejectionMessage(Blacklisted) && FailMessageTimer == 1.0)
        && (!shows ==> FailMessage == old(FailMessage) && FailMessageTimer == old(FailMessageTimer))
      ensures forall i :: lo <= i < |handler.Items| ==> Parked(handler.Items[i])
    {
      AcceptIff(handler.Items, go, true, s.disableBlacklist, handler.Limits());
      BypassSkipsCapacity(handler.Items, go, s.disableBlacklist, handler.Limits(), handler.Limits());
      var v;
      ok, v := handler.AttemptPickUp(go, true, s.disableBlacklist, ui);
      if !ok && v.reason.Shown() {
        ThrowMessage(RejectionMessage(v.reason), s);
      }
    }

    /**
     * One turn of the post-load loop, stated on the pass: the new part of the list grows from
     * Kept(order[..k]) to Kept(order[..k + 1]) and a refusal by name throws the blacklist message.
     */
    method OfferStep(order: seq<GameObject>, k: nat, s: Settings, handler: InventoryHandler, ui: UIHandler, ghost start: PassState)
      returns (ok: bool)
      requires NoDuplicates(order) && k < |order| && Consistent(handler, ui) && IndexOk(start.cur, |start.items|)
      requires PassOf(handler, ui) == PassAfter(order, k, s, handler.SufferingMode, start)
      requires forall i :: |start.items| <= i < |handler.Items| ==> Parked(handler.Items[i])
      modifies this`FailMessage, this`FailMessageTimer, handler`Items, handler`Mass, ui`CurIndex
      modifies if Admissible(order[k], start.items, s.disableBlacklist) then {order[k]} else {}
      ensures Consistent(handler, ui)
      ensures old(handler.MassTracked()) ==> handler.MassTracked()
      ensures ok <==> Admissible(order[k], start.items, s.disableBlacklist)
      ensures |handler.Items| == |old(handler.Items)| + (if ok then 1 else 0)
      ensures !ok ==> unchanged(order[k])
      ensures PassOf(handler, ui) == PassAfter(order, k + 1, s, handler.SufferingMode, start)
      ensures forall i :: |start.items| <= i < |handler.Items| ==> Parked(handler.Items[i])
    {
      ghost var before := PassOf(handler, ui);
      assert before.items[..|start.items|] == start.items && before.items[|start.items|..] == Kept(order[..k], start.items, s.disableBlacklist);
      PassStep(order, k, start.items, before.items, s.disableBlacklist);
      ok := OfferSaved(order[k], s, handler, ui, |start.items|);
      OfferKeepsPass(order, k, s, handler.SufferingMode, start, ok, before, PassOf(handler, ui));
    }

    /** Offers the colliders in the given order; the list grows by the admissible ones, in that order. */
    method OfferAll(order: seq<GameObject>, s: Settings, handler: InventoryHandler, ui: UIHandler) returns (loadedItems: nat)
      requires NoDuplicates(order) && Consistent(handler, ui)
      modifies this`FailMessage, this`FailMessageTimer, handler`Items, handler`Mass, ui`CurIndex
      modifies set o | o in order && Admissible(o, handler.Items, s.disableBlacklist)
      ensures Consistent(handler, ui)
      ensures old(handler.MassTracked()) ==> handler.MassTracked()
      ensures |handler.Items| == |old(handler.Items)| + loadedItems
      ensures PassOf(handler, ui) == PassAfter(order, |order|, s, handler.SufferingMode, old(PassOf(handler, ui)))
      ensures forall i :: |old(handler.Items)| <= i < |handler.Items| ==> Parked(handler.Items[i])
      ensures forall i :: 0 <= i < |old(handler.Items)| ==> unchanged(old(handler.Items)[i])
      ensures forall j :: 0 <= j < |order| && !Admissible(order[j], old(handler.Items), s.disableBlacklist) ==> unchanged(order[j])
    {
      ghost var start := PassOf(handler, ui);
      ghost var items0 := handler.Items;
      ghost var n := |items0|;
      loadedItems := 0;
      var k := 0;
      while k < |order|
        invariant 0 <= k <= |order|
        invariant Consistent(handler, ui)
        invariant old(handler.MassTracked()) ==> handler.MassTracked()
        invariant |handler.Items| == n + loadedItems
        invariant PassOf(handler, ui) == PassAfter(order, k, s, handler.SufferingMode, start)
        invariant forall i :: n <= i < |handler.Items| ==> Parked(handler.Items[i])
      {
        var ok := OfferStep(order, k, s, handler, ui, start);
        if ok {
          loadedItems := loadedItems + 1;
        }
        k := k + 1;
      }
    }

    /**
     * The loading loop of post-load: the cached colliders `seen`, in some order, are each offered with
     * capacity bypassed, and the number admitted is counted.
     */
    method LoadSaved(seen: set<GameObject>, s: Settings, handler: InventoryHandler, ui: UIHandler) returns (loadedItems: int)
      requires Consistent(handler, ui)
      modifies this`FailMessage, this`FailMessageTimer, handler`Items, handler`Mass, ui`CurIndex, seen
      ensures Consistent(handler, ui)
      ensures old(handler.MassTracked()) ==> handler.MassTracked()
      ensures var items0 := old(handler.Items);
        && 0 <= loadedItems <= |seen| && loadedItems == |Admitted(seen, items0, s.disableBlacklist)|
        && |handler.Items| == |items0| + loadedItems && handler.Items[..|items0|] == items0
        && (set o | o in handler.Items[|items0|..]) == Admitted(seen, items0, s.disableBlacklist)
      ensures forall i :: |old(handler.Items)| <= i < |handler.Items| ==> Parked(handler.Items[i])
      ensures forall i :: 0 <= i < |old(handler.Items)| ==> unchanged(old(handler.Items)[i])
      ensures forall o :: o in seen && !Admissible(o, old(handler.Items), s.disableBlacklist) ==> unchanged(o)
      ensures handler.Mass == MassAfter(old(handler.Items), handler.Items, handler.SufferingMode, old(handler.Mass))
      ensures ui.CurIndex == if loadedItems > 0 then Max(0, old(ui.CurIndex)) else old(ui.CurIndex)
      ensures var shows := s.showMessages && BlacklistedAmong(seen, old(handler.Items), s.disableBlacklist) != {};
        && (shows ==> FailMessage == RejectionMessage(Blacklisted) && FailMessageTimer == 1.0)
        && (!shows ==> FailMessage == old(FailMessage) && FailMessageTimer == old(FailMessageTimer))
    {
      var order := Enumerate(seen);
      loadedItems := OfferAll(order, s, handler, ui);
      PassOutcome(order, seen, s, handler.SufferingMode, old(PassOf(handler, ui)), loadedItems);
      forall o | o in seen && !Admissible(o, old(handler.Items), s.disableBlacklist) ensures unchanged(o) {
        var j :| 0 <= j < |order| && order[j] == o;
      }
    }

    /**
     * Post-load: every cached collider is offered to the inventory with capacity bypassed; the
     * ones admitted are appended, the rest are counted as filtered out, and the catcher is destroyed.
     */
    method PostLoad(s: Settings, handler: InventoryHandler, ui: UIHandler) returns (loadedItems: int, filtered: int)
      requires catcher != null && Consistent(handler, ui)
      modifies this`catcher, this`FailMessage, this`FailMessageTimer, handler`Items, handler`Mass, ui`CurIndex
      modifies catcher.LoadedColliders
      ensures catcher == null && Consistent(handler, ui)
      ensures old(handler.MassTracked()) ==> handler.MassTracked()
      ensures var seen := old(catcher.LoadedColliders); var items0 := old(handler.Items);
        && loadedItems + filtered == |seen| && 0 <= loadedItems <= |seen|
        && loadedItems == |Admitted(seen, items0, s.disableBlacklist)|
        && |handler.Items| == |items0| + loadedItems && handler.Items[..|items0|] == items0
        && (set o | o in handler.Items[|items0|..]) == Admitted(seen, items0, s.disableBlacklist)
      ensures forall i :: |old(handler.Items)| <= i < |handler.Items| ==> Parked(handler.Items[i])
      ensures forall i :: 0 <= i < |old(handler.Items)| ==> unchanged(old(handler.Items)[i])
      ensures forall o :: o in old(catcher.LoadedColliders) && !Admissible(o, old(handler.Items), s.disableBlacklist) ==> unchanged(o)
      ensures handler.Mass == MassAfter(old(handler.Items), handler.Items, handler.SufferingMode, old(handler.Mass))
      ensures ui.CurIndex == if loadedItems > 0 then Max(0, old(ui.CurIndex)) else old(ui.CurIndex)
      ensures var shows := s.showMessages && BlacklistedAmong(old(catcher.LoadedColliders), old(handler.Items), s.disableBlacklist) != {};
        && (shows ==> FailMessage == RejectionMessage(Blacklisted) && FailMessageTimer == 1.0)
        && (!shows ==> FailMessage == old(FailMessage) && FailMessageTimer == old(FailMessageTimer))
    {
      var seen := catcher.LoadedColliders;
      loadedItems := 0;
      if |seen| != 0 {
        loadedItems := LoadSaved(seen, s, handler, ui);
      } else {
        assert Admitted(seen, handler.Items, s.disableBlacklist) == {};
        assert BlacklistedAmong(seen, handler.Items, s.disableBlacklist) == {};
      }
      filtered := |seen| - loadedItems;
      catcher := null;
    }

    /** The settings button: re-reads the settings into the inventory, when there is one. */
    method RefreshValues(s: Settings, handler: InventoryHandler?)
      modifies handler
      ensures handler != null ==> && handler.MaxSlots == Min(15, s.maxSlots) && handler.SufferingMode == s.sufferingMode
                                  && handler.MassCapacity == s.weightLimit && handler.MaxLength == s.lengthLimitCm / 100.0
                                  && handler.Items == old(handler.Items) && handler.MassTracked()
                                  && (!handler.SufferingMode ==> handler.Mass == old(handler.Mass))
    {
      if handler != null {
        handler.SetupValuesAndRecount(s);
      }
    }

    /** The settings button as written: the settings are re-read, but the cached mass is left as it was. */
    method RefreshValuesAsWritten(s: Settings, handler: InventoryHandler?)
      modifies handler
      ensures handler != null ==> && handler.MaxSlots == Min(15, s.maxSlots) && handler.SufferingMode == s.sufferingMode
                                  && handler.MassCapacity == s.weightLimit && handler.MaxLength == s.lengthLimitCm / 100.0
                                  && handler.Items == old(handler.Items) && handler.Mass == old(handler.Mass)
    {
      if handler != null {
        handler.SetupValues(s);
      }
    }
  }
}
