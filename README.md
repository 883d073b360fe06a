# YAIM inventory — a Dafny model

YAIM ("Yet Another Inventory Mod") lets the player of a car-building game pick loose objects up into a
hidden inventory and drop them again. The model covers its bookkeeping, with the game engine reduced to
the attributes the mod reads and writes:

- **Admission** (module `Admission`, file `admission.dfy`). `CanPickUp`'s ordered checks are written as functions:
  - duplicate, blacklist, rigid body, installed or bolted (a walk over the object's state machines), layer;
  - then capacity, either a slot count or, in suffering mode, mass followed by the longest side of
    the object's meshes.
- **Newer store** (module `Store`, file `inventory_handler.dfy`). `InventoryHandler` is a class whose `Items`
  list, cached `Mass` and shared selection index the methods update in place.
  - `CanPickUp` is proved equal to the decision function `HandlerVerdict`.
  - `AttemptPickUp`, `DropCurrent`, `DropAll` and `UpdateMass` state their whole new state.
  - They keep the invariants: no duplicates, every stored body kinematic, and the cached mass equal to
    the sum of the stored masses.
- **Older store** (module `LegacyStore`, file `inventory.dfy`). `Inventory` is a second class of the same shape.
  - It has no duplicate guard, a longer blacklist, and storage below the map rather than above it.
  - `PickUp` ignores the bypass flag.
  - `DropCurrent` clamps the selection without stepping back.
- **List UI** (module `UI`, file `ui_handler.dfy`):
  - `DisplayName` rewriting;
  - the wrap-around of the selected index;
  - `Refresh`, which equalises the entries to `max(1, item count)` and labels them.
- **Load catcher** (module `Loading`, file `load_catcher.dfy`). The trigger callbacks feed a deduplicating set of
  cached colliders.
- **Mod driver** (module `Yaim`, file `yaim.dfy`):
  - the console scope filter;
  - the on-screen failure message and its countdown;
  - the refresh timer;
  - the per-frame dispatch of the toggle, drop-all, pick-up, drop-selected and scroll inputs;
  - the post-load pass that offers every cached collider to the store with capacity bypassed.
- **Scenarios** (module `Scenarios`, file `scenarios.dfy`). Concrete runs on small configurations, including
  both halves of the two findings below.

The shared entities live in module `GameWorld` (`host.dfy`):
- a `GameObject` class, with the read-only attributes as constants and `isKinematic`, `position` and
  `parent` as fields;
- the state-machine flags;
- mesh extents;
- positions.

The settings are one parsed record (module `Config`, `config.dfy`).

The engine's inputs are parameters:
- frame time, keys and scroll (a `Frame` record);
- raycast hits, given as a list of (distance, object) pairs;
- the point in front of the camera;
- the order in which the cached set is enumerated.

Mass, length and timers are `real`.

Where the code and the help text of its settings disagree, the model follows the code:
- The "Max items" help text at YAIM.cs:104 says values are clamped between 1 and 15, but both
  constructors only take `Math.Min(15, value)`, so 0 slots is possible.

## Model

| member | source | states |
|---|---|---|
| Admission.FsmFastening | Scripts/InventoryHandler.cs:157-177 | Defines one state machine's verdict: installed for "Data" or "Use" with Installed true, bolted for "BoltCheck" with Tightness above 0, none otherwise. FirstFasteningIsFirst states it through FirstFastening. |
| Admission.FirstFastening | Scripts/InventoryHandler.cs:155-178 | The reason of the first state machine, in component order, that reports the part installed ("Data" or "Use" with Installed true) or bolted ("BoltCheck" with Tightness above 0); none if no machine does. Its properties are FirstFasteningIsFirst and FasteningIsInstalledOrBolted. |
| Admission.FirstFasteningIsFirst | Scripts/InventoryHandler.cs:155-178 | No reason iff no state machine fastens the part; otherwise the reason is that of the first one that does. |
| Admission.FasteningIsInstalledOrBolted | Scripts/InventoryHandler.cs:155-178 | The state-machine walk only ever refuses as installed or as bolted. |
| Admission.AbsentFlagsNeverFasten | Scripts/InventoryHandler.cs:157-177 | Machines without an "Installed" or "Tightness" variable never refuse. |
| Admission.FindFastening | Scripts/InventoryHandler.cs:155-178 | The loop over the state machines returns the first fastening reason: "Installed" true under "Data"/"Use", or "Tightness" above 0 under "BoltCheck". |
| Admission.Longest | Scripts/InventoryHandler.cs:210-236 | The loops' running maximum: it starts at 0 and takes every larger value in turn. Its bounds are LongestIsMaximum. |
| Admission.LongestIsMaximum | Scripts/InventoryHandler.cs:210-237 | The running maximum starting from 0 is non-negative, bounds every extent, and is 0 or one of them. |
| Admission.FlattenMembers | Scripts/InventoryHandler.cs:228-236 | A value is among the flattened child extents iff it is an axis of some child mesh. |
| Admission.ChildMeshesBound | Scripts/InventoryHandler.cs:226-237 | Without an own MeshFilter, the longest side bounds every axis of every child mesh and is 0 or one of them. |
| Admission.ScanAxes | Scripts/InventoryHandler.cs:221-223 | The three-axis loop extends the running maximum over the axes it reads. |
| Admission.MeshLongest | Scripts/InventoryHandler.cs:215-238 | The longest side without an override. For an own MeshFilter with a mesh it is the longest of its three axes, and 0 when the filter has no mesh. Without an own MeshFilter it is the longest axis of all child meshes, and 0 if there are none. ChildMeshesBound and MeasureMeshes state it. |
| Admission.TooLongFor | Scripts/InventoryHandler.cs:211-244 | Too long iff the name has no entry in the length-override table and MeshLongest exceeds the limit. An overridden name never fails, since its stated length is never compared. |
| Admission.MeasureMeshes | Scripts/InventoryHandler.cs:215-238 | The mesh loops compute MeshLongest: own mesh axes, 0 for a MeshFilter without a mesh, else the maximum over all child meshes. |
| Admission.Prerequisites | Scripts/InventoryHandler.cs:138-185 | Checks 1 to 4 in order, and the first that fails is the reason. They are: the blacklist unless disabled, a rigid body, FirstFastening, and layer 16 or 19. The properties are ChecksAreSeparate and CheckOrder. |
| Admission.CapacityCheck | Scripts/InventoryHandler.cs:190-246 | Slot mode: "full" iff Count >= MaxSlots. Suffering mode: "too heavy" iff MassCapacity - Mass < mass, else "too long" iff TooLongFor. The properties are SlotCapacityIff, MassCapacityIff and LengthCapacityIff. |
| Admission.ChecksAreSeparate | Scripts/InventoryHandler.cs:138-247 | The prerequisites never refuse for a capacity reason, and the capacity block never refuses for any other reason. |
| Admission.SlotCapacityIff | Scripts/InventoryHandler.cs:190-198 | In slot mode capacity refuses as full iff the count has reached MaxSlots, and otherwise passes. |
| Admission.MassCapacityIff | Scripts/InventoryHandler.cs:202-207 | In suffering mode, "too heavy" iff the remaining capacity is below the object's mass; an exact fit passes the mass test. |
| Admission.LengthCapacityIff | Scripts/InventoryHandler.cs:209-245 | After the mass test, "too long" iff the name has no override and the longest side exceeds the limit; an override or an exact fit passes. |
| Admission.SumMass | Scripts/InventoryHandler.cs:335-340 | The stored masses added up in list order, starting from 0, as the recount's loop does. AccumulateMass computes it, and SumMassAppend and SumMassRemove relate it to pick-ups and drops. |
| Admission.SumMassAppend | Scripts/InventoryHandler.cs:272-278 | Storing one more object raises the summed mass by exactly its mass. |
| Admission.SumMassRemove | Scripts/InventoryHandler.cs:330-341 | Removing one stored object lowers the summed mass by exactly its mass. |
| Admission.AccumulateMass | Scripts/InventoryHandler.cs:335-340 | The accumulating loop yields the sum of the stored masses. |
| Admission.RemoveFirst | Scripts/InventoryHandler.cs:301 | `List.Remove`: the list without the first occurrence of the value, or unchanged if it is absent. RemoveFirstOfUnique, RemoveFirstOfDuplicate and RemoveFirstKeepsOthers state it. |
| Admission.RemoveFirstOfUnique | Scripts/InventoryHandler.cs:301 | On a list without repeats, removing the first occurrence of the element at i removes position i. |
| Admission.RemoveFirstOfDuplicate | Scripts/Inventory.cs:215 | With a repeated element, removal by value takes the first occurrence, which need not be the selected position. |
| Admission.RemoveAtShape | Scripts/InventoryHandler.cs:301 | Taking position i out of a list without repeats keeps it without repeats; every later entry moves down by one and none equals the removed one. |
| Admission.RemoveAtMembership | Scripts/InventoryHandler.cs:301 | After taking position i out of a list without repeats, an object is in it iff it was before and is not the removed one. |
| Store.HandlerVerdict | Scripts/InventoryHandler.cs:127-252 | The newer CanPickUp's decision. A stored object is refused as a duplicate first. Then the Prerequisites decide, and then CapacityCheck on the list's count unless capacity is bypassed; the first failing check names the reason. AcceptIff, CheckOrder, StoredIsRejected, BypassSkipsCapacity and SlotModeFullIff state it. |
| Store.IndexOk | Scripts/InventoryHandler.cs:277-302 | Defines the selection invariant: in range for a non-empty list, -1 or 0 for an empty one, where AdjustActiveIndex (Scripts/UI/UIHandler.cs:90-96) can leave -1. AttemptPickUp, DropCurrent, DropAll, ScrollKeepsIndexValid and FrameKeepsIndexValid preserve it. LegacyDropLastOverruns shows the older store breaking it. |
| Store.StoredIsRejected | Scripts/InventoryHandler.cs:131-136 | An object already stored is refused as a duplicate, whatever the other inputs. |
| Store.AcceptIff | Scripts/InventoryHandler.cs:127-252 | Accepted iff not stored, every prerequisite passes, and capacity is bypassed or passes. |
| Store.BypassSkipsCapacity | Scripts/InventoryHandler.cs:188 | With bypass the verdict does not depend on the limits and never names a capacity reason. |
| Store.SlotModeFullIff | Scripts/InventoryHandler.cs:190-198 | For an eligible object in slot mode: refused as full iff Count >= MaxSlots, accepted iff Count < MaxSlots. |
| Store.CheckOrder | Scripts/InventoryHandler.cs:127-252 | Each refusal reason implies that every earlier check passed: the first failing check decides. |
| Store.DisabledBlacklistNeverRejects | Scripts/InventoryHandler.cs:139 | With the blacklist disabled no object is refused as blacklisted. |
| Store.InventoryHandler.constructor | Scripts/InventoryHandler.cs:92-99 | Empty list, zero mass, and the settings read as SetupValues reads them; the invariants hold. |
| Store.InventoryHandler.SetupValues | Scripts/InventoryHandler.cs:105-113 | MaxSlots = min(15, setting) so at most 15, the mode and mass capacity as set, MaxLength = setting / 100; the list and the cached mass are untouched. |
| Store.InventoryHandler.SetupValuesAndRecount | Scripts/InventoryHandler.cs:105-113 | The same settings, followed by a recount, so the cached mass equals the stored sum even after switching suffering mode on. |
| Store.InventoryHandler.CanPickUp | Scripts/InventoryHandler.cs:127-252 | The check sequence returns exactly HandlerVerdict on the current list and limits. |
| Store.InventoryHandler.AttemptPickUp | Scripts/InventoryHandler.cs:262-284 | Failure changes nothing. Success appends the target, makes it kinematic at TempPosition with no parent, clamps the index to [0, Count] and recounts the mass. It keeps no-duplicates and index bounds. The target is in its frame only when the verdict is Accept, since the source touches it only after CanPickUp passes (lines 273-276). |
| Store.InventoryHandler.DropCurrent | Scripts/InventoryHandler.cs:292-308 | From an in-range index: removes exactly that entry, makes it non-kinematic at the given point or the camera point, and sets the index to max(0, min(i-1, Count)). The index stays valid and the mass drops by the object's mass. |
| Store.InventoryHandler.DropAll | Scripts/InventoryHandler.cs:314-324 | Every stored object is released at the drop point with its parent kept, and the list ends empty, so the error branch is unreachable. The index goes to 0 unless the list was already empty, the mass is 0 in suffering mode, and the list shows "N/A". |
| Store.InventoryHandler.DropEach | Scripts/InventoryHandler.cs:317-318 | One DropCurrent per stored object empties the list, releases every old object at the drop point with its parent kept, leaves the index at 0 (unchanged for an empty list), and zeroes the mass in suffering mode. |
| Store.InventoryHandler.DropOneOfEach | Scripts/InventoryHandler.cs:317-318 | One turn of that loop: one item fewer, only old items remain, the one released is at the drop point with its parent kept, and the index stays valid and non-negative. |
| Store.InventoryHandler.UpdateMass | Scripts/InventoryHandler.cs:330-341 | In suffering mode the cached mass becomes the sum of the stored masses; otherwise it is untouched. |
| LegacyStore.LegacyVerdict | Scripts/Inventory.cs:73-188 | The older decision: the Prerequisites with the longer blacklist, then CapacityCheck unless bypassed; there is no duplicate check. Stated by StoredCanBeReadmitted, HouseDoorOnlyLegacy and LegacyFullRejects. |
| LegacyStore.StoredCanBeReadmitted | Scripts/Inventory.cs:73-188 | The older check has no duplicate guard: a stored, eligible object is accepted again while a slot is free. |
| LegacyStore.HouseDoorOnlyLegacy | Scripts/Inventory.cs:17-24 | "house_door1" is refused as blacklisted by the older list and not by the newer one. |
| LegacyStore.LegacyFullRejects | Scripts/Inventory.cs:124-134 | In slot mode an eligible object is refused as full once Count >= MaxSlots. |
| LegacyStore.RemoveFirstKeepsOthers | Scripts/Inventory.cs:215 | Removing a present element shortens the list by one and adds nothing. |
| LegacyStore.Inventory.constructor | Scripts/Inventory.cs:56-64 | Empty list, zero mass, MaxSlots = min(15, setting), then SetupValues. |
| LegacyStore.Inventory.SetupValues | Scripts/Inventory.cs:66-71 | Sets the mode, mass capacity and LengthCapacity = setting / 100; MaxSlots is not touched. |
| LegacyStore.Inventory.CanPickUp | Scripts/Inventory.cs:73-188 | The older check sequence returns exactly LegacyVerdict: blacklist, rigid body, fastening, layer, then capacity unless bypassed. |
| LegacyStore.Inventory.PickUp | Scripts/Inventory.cs:190-207 | The verdict is the unbypassed one whatever bypassLimit says. Success appends, makes the object kinematic at (0, -1000, 0), clamps the index and recounts; failure changes nothing. |
| LegacyStore.Inventory.DropCurrent | Scripts/Inventory.cs:209-219 | Removes the first occurrence of the selected object, releases it at the camera point and returns true. The index becomes max(0, min(i, Count)), so dropping the last entry leaves it equal to Count. |
| LegacyStore.Inventory.UpdateMass | Scripts/Inventory.cs:221-231 | In suffering mode the cached mass becomes the stored sum; otherwise untouched. |
| UI.RemoveAll | Scripts/UI/UIHandler.cs:111 | Removing every occurrence of a marker never lengthens the name. |
| UI.RemoveAllAbsent | Scripts/UI/UIHandler.cs:111 | A name without the marker is unchanged by its removal. |
| UI.RemoveAllSuffix | Scripts/UI/UIHandler.cs:111 | A marker appended once to a stem that does not contain it is removed back to the stem. |
| UI.ToUpper | Scripts/UI/UIHandler.cs:111 | Upper-casing keeps the length and leaves no lower-case ASCII letter. |
| UI.ToUpperIdempotent | Scripts/UI/UIHandler.cs:111 | Upper-casing twice is upper-casing once. |
| UI.DisplayName | Scripts/UI/UIHandler.cs:111 | The label is never longer than the name and has no lower-case ASCII letter. |
| UI.DisplayNameWithoutMarkers | Scripts/UI/UIHandler.cs:111 | A name with none of "(Clone)", "(itemx)", "(xxxxx)" is simply upper-cased. |
| UI.AdjustedIndex | Scripts/UI/UIHandler.cs:90-96 | In range stays in range; up from the last gives 0, down from 0 gives Count-1; on an empty list down gives -1 and up gives 0. |
| UI.AdjustedIndexRoundTrip | Scripts/UI/UIHandler.cs:90-96 | From an in-range index, a step one way and back returns to it. |
| UI.EntryLabels | Scripts/UI/UIHandler.cs:53-87 | max(1, Count) entries, exactly the selected one highlighted, "N/A" alone for an empty list. |
| UI.UIHandler.constructor | Scripts/UI/UIHandler.cs:28-42 | One template entry, index 0, list hidden. |
| UI.UIHandler.Toggle | YAIM.cs:231-232 | Opening or closing flips the visibility. |
| UI.UIHandler.Refresh | Scripts/UI/UIHandler.cs:44-88 | Hidden: nothing changes. Shown: the equalising and labelling loops leave exactly EntryLabels, and never fewer than one entry. |
| UI.UIHandler.AdjustActiveIndex | Scripts/UI/UIHandler.cs:90-98 | The index becomes AdjustedIndex of the old one, and the list is refreshed. |
| Loading.AfterEvents | Scripts/LoadCatcher.cs:11-28 | The cache after a sequence of trigger callbacks: each enter, stay or exit adds its object to the set. AfterEventsIsUnion and ReplayAddsNothing state it. |
| Loading.AfterEventsIsUnion | Scripts/LoadCatcher.cs:11-28 | After any sequence of trigger events the cache is the old cache plus every object seen; nothing is removed. |
| Loading.ReplayAddsNothing | Scripts/LoadCatcher.cs:21-28 | Replaying the same events changes nothing. |
| Loading.LoadCatcher.constructor | YAIM.cs:137 | The cache starts empty. |
| Loading.LoadCatcher.CacheObj | Scripts/LoadCatcher.cs:21-28 | Inserts the object whatever its attributes; an object already cached leaves the set unchanged. |
| Loading.LoadCatcher.OnTriggerEnter | Scripts/LoadCatcher.cs:13 | Same effect as caching the object. |
| Loading.LoadCatcher.OnTriggerStay | Scripts/LoadCatcher.cs:15 | Same effect as caching the object. |
| Loading.LoadCatcher.OnTriggerExit | Scripts/LoadCatcher.cs:17 | Same effect as caching the object. |
| Loading.LoadCatcher.Deliver | Scripts/LoadCatcher.cs:11-28 | Delivering a sequence of events one by one adds exactly the objects touched. |
| Yaim.ConsoleLine | YAIM.cs:306-317 | Nothing is printed iff the scope is not Core and its switch is off; a printed line is the "[YAIM] " prefix followed by the message. |
| Yaim.CoreAlwaysPrinted | YAIM.cs:288 | Core lines are printed whatever the switches. |
| Yaim.MoreLoggingNeverHides | YAIM.cs:306-317 | Turning more switches on never hides a line that was printed. |
| Yaim.RejectionMessage | Scripts/InventoryHandler.cs:142-242 | Each reason that puts a message on screen has a non-empty text. |
| Yaim.RejectionMessagesDistinct | Scripts/InventoryHandler.cs:142-242 | Different reasons show different texts. |
| Yaim.InReach | YAIM.cs:242 | Defines the hits the pick-up key acts on: within one metre, with an object behind the collider. ScanHits and ScanPicksFirstPickable state that only such a hit is picked. |
| Yaim.ScanHits | YAIM.cs:239-251 | The hit picked up is within 1 m and has an object; every reason shown puts a message on screen. |
| Yaim.ScanPicksFirstPickable | YAIM.cs:239-251 | The picked hit is pickable and no earlier hit is; with no pick, no hit is pickable. |
| Yaim.ScanShowsLastRejection | YAIM.cs:239-251 | The message left on screen is that of the last refusal shown before the pick; none iff no earlier hit showed one. |
| Yaim.ScanStep | YAIM.cs:240-250 | One iteration of the hit loop: a pickable hit ends the walk, any other hit moves on and may replace the message. |
| Yaim.RemoveAt | Scripts/InventoryHandler.cs:296-301 | The list without its entry at the selected index, one shorter. |
| Yaim.RemoveAtIsSlices | Scripts/InventoryHandler.cs:296-301 | RemoveAt is the list before the index followed by the list after it. |
| Yaim.ItemsAfter | YAIM.cs:233-257 | The stored list after one frame's keys. A closed list is kept. With the list open, the keys act in order of precedence: drop-all empties it; pick-up appends the first pickable hit's object, if any; drop-selected removes the selected entry, and is none (the throw) when the index is outside the list. With no key the list is kept. FrameKeepsItemsDistinct and OnlyEmptyDropThrows state it. |
| Yaim.FrameKeepsItemsDistinct | YAIM.cs:235-257 | A frame's actions never store an object twice and add at most one. |
| Yaim.IndexAfter | YAIM.cs:235-257 | The selection after the action keys. Drop-all sets it to 0 unless the list was empty, since DropCurrent is never called then. A pick-up clamps it to [0, Count], as at InventoryHandler.cs:277. Drop-selected steps it back within the shorter list, as at InventoryHandler.cs:302. Otherwise it is kept. FrameKeepsIndexValid states it. |
| Yaim.FrameIndex | YAIM.cs:235-260 | IndexAfter, then, with the list open and a non-zero scroll, one AdjustedIndex step over the list the keys leave. FrameKeepsIndexValid states it. |
| Yaim.FrameKeepsIndexValid | YAIM.cs:235-260 | A frame that does not fault leaves a valid selection valid for the list it leaves, after the action keys (IndexAfter) and after scrolling (FrameIndex). |
| Yaim.ScrollKeepsIndexValid | Scripts/UI/UIHandler.cs:90-98 | One scroll step keeps a valid selection valid, including the empty list's -1. |
| Yaim.CountedDown | YAIM.cs:208-220 | One frame of the countdown. While time is left the timer drops by the frame time and the message is displayed. After that, a message still on display is cleared from both places; otherwise nothing changes. CountdownSettles and CountDownFailMessage state it. |
| Yaim.CountdownSettles | YAIM.cs:208-220 | Once the message timer has run out, the countdown keeps the timer and a second frame changes nothing more. |
| Yaim.FrameMessages | YAIM.cs:208-251 | The message state after a frame: CountedDown, then, when the open list's pick-up walk showed a refusal and messages are on, that reason's message with a one-second timer (YAIM.cs:267-273). QuietFrameOnlyCountsDown states it. |
| Yaim.QuietFrameOnlyCountsDown | YAIM.cs:208-251 | Without the pick-up key, or with the list hidden, a frame only counts the message down. |
| Yaim.OnlyEmptyDropThrows | YAIM.cs:253-256 | From a valid index, only "drop selected" on an empty, shown list faults: the unguarded index. |
| Yaim.DistinctCard | YAIM.cs:189 | Enumerating a set without repeats visits as many objects as the set holds. |
| Yaim.Kept | YAIM.cs:189-193 | The colliders the post-load pass appends, in visit order: each visited one that is not already stored and passes the Prerequisites. KeptMembers, KeptDistinct and KeptIsAdmitted state it. |
| Yaim.KeptMembers | YAIM.cs:189-193 | The pass stores a cached collider iff it was visited, was not stored before, and passes every prerequisite. |
| Yaim.KeptDistinct | YAIM.cs:189-193 | A pass over distinct colliders stores none twice. |
| Yaim.KeptIsAdmitted | YAIM.cs:189-194 | Whatever the enumeration order, the objects stored are exactly the admissible colliders, each once, and no more than were cached. |
| Yaim.PassStep | YAIM.cs:189-193 | One offer during the pass: the object is stored iff it was stored before the pass, and the stored suffix and the blacklist flag grow by that object only. |
| Yaim.AnyRefusedIffBlacklisted | YAIM.cs:189-193 | The pass shows the blacklist message iff some cached collider is refused for its name. |
| Yaim.Enumerate | YAIM.cs:189 | The hash set is visited in some order, each element once. |
| Yaim.Admissible | YAIM.cs:189-191 | Defines the cached colliders the pass stores: those not stored when the pass starts that pass every prerequisite. KeptMembers and OfferKeepsPass state what it means for the pass. |
| Yaim.Admitted | YAIM.cs:189-191 | Defines the set of admissible cached colliders. KeptIsAdmitted and PassOutcome equate it with what the pass adds. |
| Yaim.PassAfter | YAIM.cs:188-193 | Defines the pass state (list, mass, index, message) after k offers: the old list followed by Kept of the visited prefix, the mass at MassAfter, the index clamped at 0 once something was stored, and the blacklist message pending iff a visited collider was refused by name. OfferKeepsPass and PassOutcome state its properties. |
| Yaim.OfferKeepsPass | YAIM.cs:189-193 | An offer that behaves as a single bypassing AttemptPickUp moves the pass state from PassAfter of k offers to PassAfter of k + 1, and stores the collider iff it is Admissible against the list the pass started from. |
| Yaim.OfferExtendsPass | YAIM.cs:189-193 | After one offer the list is still the old list followed by Kept of the visited prefix. The collider was stored before the offer iff it was stored before the pass. |
| Yaim.PassMass | Scripts/InventoryHandler.cs:330-341 | Recounts along the pass compose: the mass after each offer is MassAfter of the list the pass started from. |
| Yaim.PassIndex | Scripts/InventoryHandler.cs:277 | Clamps along the pass compose: the index is clamped at 0 once, at the first object stored, and then stays. |
| Yaim.PassOutcome | YAIM.cs:189-194 | After a whole pass over an enumeration of the cache, the old list is a prefix, and the count and the set of objects added are those of the admissible colliders. The mass is at MassAfter, the index is clamped at 0 iff something was added, and the message is pending iff some cached collider is blacklisted. |
| Yaim.Targets | YAIM.cs:239-243 | The objects behind the frame's raycast hits, the only objects the pick-up key may move. |
| Yaim.MassAfter | Scripts/InventoryHandler.cs:330-341 | The cached mass after the list changes. In suffering mode a changed list is recounted to SumMass, since every pick-up and drop calls UpdateMass. An unchanged list, or slot mode, keeps the old mass. |
| Yaim.Parked | Scripts/InventoryHandler.cs:273-276 | Defines how a stored object is kept: kinematic, at TempPosition, with no parent. OfferSaved, OfferAll, LoadSaved and PostLoad state it of every object they add. |
| Yaim.ObjectsAfter | Scripts/InventoryHandler.cs:272-301 | What a frame does to the objects. A newly stored object is parked: kinematic, at TempPosition, no parent (lines 273-276). One no longer stored was released: not kinematic, at the drop point, parent kept (lines 298-300). Every other stored object and hit target is unchanged. |
| Yaim.Mod.constructor | YAIM.cs:57-83 | No message, timer 0, refresh timer 30, no catcher. |
| Yaim.Mod.ThrowMessage | YAIM.cs:267-273 | With messages off nothing changes; otherwise the message is set and the timer is 1. |
| Yaim.Mod.CountDownFailMessage | YAIM.cs:208-220 | While the timer is positive it drops by the frame time and the message is shown. After that, display and message are cleared only when the message is non-empty and still displayed. The result is CountedDown of the old state. |
| Yaim.Mod.CountDownRefresh | YAIM.cs:224-229 | The timer drops by the frame time; below 0 with the list shown it resets to 30 and the list is refreshed, otherwise nothing else changes. |
| Yaim.Mod.AttemptHit | YAIM.cs:242-250 | A hit within 1 m that has an object is offered without bypass, and succeeds iff it is Pickable. Success appends the object and parks it: kinematic, at TempPosition, no parent. The index is clamped to [0, Count] and an open list is redrawn. A refusal leaves the list, the mass, the limits, the index, the entries and the hit's object as they were. It shows the reason's message for one second iff the reason is visible and messages are on. Every other stored object is unchanged, the mass is MassAfter, and the store and list stay Consistent. |
| Yaim.Mod.AttemptObject | YAIM.cs:245-249 | The attempt on the object behind a hit in reach succeeds iff HandlerVerdict without bypass accepts. Success appends the object, which was not stored, parks it kinematic at TempPosition with no parent, clamps the index and redraws an open list. A refusal leaves the object, the list, the mass, the index and the entries unchanged, and throws the reason's message when it is visible. |
| Yaim.Mod.TryHit | YAIM.cs:240-250 | One turn of the hit loop. A success ends the walk at this hit, stores and parks its object, clamps the index and redraws. A refusal leaves the list, the mass, the limits, the index and the entries unchanged and moves the walk to the next hit. It replaces the message iff the refusal shows one. In both cases only the stored object is moved; every other stored object and hit target is unchanged. |
| Yaim.Mod.PickUpFromHits | YAIM.cs:239-251 | The hits are tried in order and the first pickable one is stored (ScanHits): parked kinematic at TempPosition with no parent, the index clamped to the longer list, the list redrawn. Every refused target and every other stored object is unchanged. With no pick the list, the mass, the index and the entries are as they were. The mass is MassAfter, and the last message shown stays on screen for one second. |
| Yaim.Mod.PressDropAll | YAIM.cs:235-260 | The drop-all key empties the list. Every old object is released: not kinematic, at the camera point, parent kept; the hit targets are unchanged. The mass is MassAfter, which is 0 in suffering mode and the old mass otherwise. The index goes to 0 unless the list was empty, then the scroll wheel steps it (lines 258-260), and the "N/A" entry is shown. |
| Yaim.Mod.PressPickUp | YAIM.cs:237-251 | The pick-up key gives the list of ItemsAfter and the index of IndexAfter. A stored object is parked kinematic at TempPosition with no parent; refused targets and the other stored objects are unchanged. The mass is MassAfter, only a pick-up redraws the list, and the message on screen is the last one the walk showed, for one second. |
| Yaim.Mod.PickUpAndScroll | YAIM.cs:237-260 | The pick-up key followed by the scroll wheel. The list is ItemsAfter and the index FrameIndex; the objects are as PressPickUp leaves them and the mass is MassAfter. The list is redrawn after a pick-up or a scroll. |
| Yaim.Mod.DropSelected | YAIM.cs:253-260 | Faults iff the selection is out of range. A fault changes nothing: the list, and so the mass (MassAfter of an unchanged list), the index, the entries and every object stay as they were. Otherwise exactly the selected entry is removed (RemoveAt) and released: not kinematic, at the camera point, parent kept; the others are unchanged. The index steps back by one within the shorter list, the scroll wheel steps it, and the list is redrawn. |
| Yaim.Mod.ReleaseSelected | YAIM.cs:253-257 | On an in-range selection: exactly the selected entry is removed (RemoveAt) and released at the camera point with its parent kept, the mass ends at MassAfter, the index steps back by one within the shorter list, the entries are redrawn, and the store and list stay Consistent. |
| Yaim.Mod.ActAndScroll | YAIM.cs:235-260 | The action keys in order of precedence give ItemsAfter, and a fault leaves the list as it was. Objects: newly stored ones parked, dropped ones released at the camera point with their parents, all others unchanged (ObjectsAfter). The mass is MassAfter and the store and list stay Consistent. Unless the action faults, the index ends at FrameIndex and the list is redrawn after a drop, a pick-up or a scroll; the message state is the pick-up walk's. |
| Yaim.Mod.Scroll | YAIM.cs:258-260 | A non-zero scroll moves the index one step with AdjustedIndex (down for a negative axis) and redraws; a zero scroll changes nothing. The selection stays valid. |
| Yaim.Mod.BeginFrame | YAIM.cs:208-232 | The message state ends at CountedDown. The refresh timer drops by the frame time, and below 0 with the list shown it restarts at 30 and the entries are redrawn; otherwise the entries are kept. The toggle key flips visibility, and the store and list stay Consistent. |
| Yaim.Mod.Step | YAIM.cs:208-260 | One frame in the game. The message state ends at FrameMessages. The refresh timer counts down and restarts below 0 while shown, and the toggle flips visibility. The list ends at ItemsAfter: a closed list changes no list, no mass and no object, and a fault leaves the list and the mass. The objects change as ObjectsAfter says and the mass as MassAfter. The index ends at FrameIndex; the entries are those of the last redraw; the store and list stay Consistent in every case. |
| Yaim.Mod.Update | YAIM.cs:203-261 | Outside the game or without both components nothing changes: not the mod, the store, the list, the stored objects or the hit objects. Otherwise everything Step states about the frame: ObjectsAfter, MassAfter, Consistent, a fault that keeps the list, ItemsAfter, FrameIndex, the entries, the timers and FrameMessages. The store's MaxSlots, SufferingMode, MassCapacity and MaxLength are kept. |
| Yaim.Mod.PreLoad | YAIM.cs:126-143 | A fresh catcher with an empty cache. |
| Yaim.Mod.Load | YAIM.cs:145-177 | A fresh, empty store read from the settings (slots, mode, mass capacity, length limit, mass 0) and a fresh hidden list with one entry, consistent with each other. |
| Yaim.Mod.OfferSaved | YAIM.cs:191 | A cached collider offered with bypass is stored iff it is not stored yet and passes the prerequisites. Stored: appended and parked, kinematic at TempPosition with no parent, and the index clamped to [0, Count]. Refused: the list, the mass, the index and the collider itself are unchanged. The mass ends at MassAfter, a blacklisted collider shows the message, and the store and list stay Consistent. Only an admissible collider is in its frame, so objects already parked in the list stay parked. |
| Yaim.Mod.OfferStep | YAIM.cs:189-193 | One offer of the pass takes the state (PassOf) from PassAfter of k offers to PassAfter of k + 1. The objects the pass added stay parked. ok holds iff the collider is Admissible against the list the pass started from, and a refused collider is unchanged. |
| Yaim.Mod.OfferAll | YAIM.cs:189-193 | Over an enumeration the pass ends at PassAfter of the whole order, and loadedItems counts the objects added. Every added object is parked. Only admissible colliders are in its frame, so every object stored before and every refused collider is unchanged. |
| Yaim.Mod.LoadSaved | YAIM.cs:188-193 | Over the cached set, in any order: the old list stays a prefix, and the objects added are exactly the admissible colliders, each parked, with loadedItems counting them. The stored objects and the refused colliders are unchanged. The mass ends at MassAfter, and the index is clamped at 0 iff something was stored. The blacklist message is shown iff some cached collider is blacklisted. |
| Yaim.Mod.PostLoad | YAIM.cs:179-199 | loadedItems + filtered equals the cache size. The objects added are exactly the admissible colliders, each parked, and loadedItems counts them. The old list stays a prefix, and every old stored object and every refused cached collider is unchanged. The mass ends at MassAfter, so slot mode keeps it. The index is clamped at 0 iff something was stored. The blacklist message is shown iff some cached collider is blacklisted. The catcher is gone. |
| Yaim.Mod.RefreshValues | YAIM.cs:278 | With a store present, its settings are re-read and the list is kept. In suffering mode the cached mass is recounted (MassTracked); in slot mode it is left as it was. |
| Yaim.Mod.RefreshValuesAsWritten | YAIM.cs:278 | The settings button as written: the settings are re-read into the store, while the list and the cached mass stay as they were. |
| Scenarios.TwoSlots | Scripts/InventoryHandler.cs:188-198 | With two slots, two boxes are stored and a third is refused as full. |
| Scenarios.TenKilograms | Scripts/InventoryHandler.cs:202-207 | With 10 kg of room, 6 kg is stored and a further 5 kg is too heavy. |
| Scenarios.StaleMassAdmitsOverweight | Scripts/InventoryHandler.cs:105-113 | Switching to suffering mode over a stored 6 kg leaves the cached mass 0, so 5 kg more is admitted into 8 kg of room. |
| Scenarios.RecountRejectsOverweight | Scripts/InventoryHandler.cs:105-113 | With the recount the cached mass is 6 and the 5 kg box is too heavy. |
| Scenarios.LegacyDropLastOverruns | Scripts/Inventory.cs:209-219 | In the older store, dropping the selected last of two entries leaves the index at 1 with one entry, out of range. |
| Scenarios.DropLastStaysInRange | Scripts/InventoryHandler.cs:292-308 | The newer store steps the index back to 0 in the same run. |
| Scenarios.HiddenFrameKeepsObjects | YAIM.cs:233-234 | A frame with the list closed does not fault and keeps the list, the cached mass and every stored object's position, kinematic flag and parent. |
| Scenarios.ScrollOnlyKeepsMass | YAIM.cs:235-260 | A frame without an action key keeps the list and the cached mass, whether or not it scrolls. |
| Scenarios.FaultKeepsStore | YAIM.cs:253-257 | A frame that throws at the drop keeps the list and the cached mass, and the store and list stay consistent. |
| Scenarios.DropAllReleases | YAIM.cs:235-236 | Drop-all with the list open empties it and releases every stored object at the camera point: not kinematic, parent kept. |
| Scenarios.RefusedHitUntouched | YAIM.cs:242-250 | A refused hit leaves its object as it was; a picked one is parked kinematic at TempPosition with no parent. |
| Scenarios.StoredSavedUntouched | YAIM.cs:191 | A saved collider that is already stored is refused and left as it was, with the list, the mass and the index unchanged. |
| Scenarios.RefusedCachedUntouched | YAIM.cs:189-193 | After post-load in slot mode, a cached collider that fails a prerequisite is unchanged, every old stored object is unchanged, and the mass is kept. |

## Left out

- Engine calls: `GetComponent`, raycasting, `Camera.main`, `transform`, the "PROCEED Drop" broadcast.
  Objects are records with the attributes above; raycast hits and the camera point are inputs.
- Console output and on-screen strings: no operation emits log lines. `ConsoleLine` only models the scope filter.
  The numbers inside messages ("INVENTORY IS FULL (n / m)" and the like) and `Math.Round` are left out.
  A message is identified by its reason.
- The older store's messages: its `CanPickUp` throws messages the same way, but it is not wired to the mod driver.
  Its verdict's reason says which message would be shown.
- Floating point: mass, length and timers are reals, with no rounding.
- UI.ToUpper: upper-cases ASCII letters only. The culture-sensitive `ToUpper` of `DisplayName` also maps
  non-ASCII letters and follows the current culture; that is not modelled.
- Setting parsing and registration (`Mod_Settings`, keybinds, `byte.Parse`/`float.Parse`): settings are one parsed record.
- Setting names: `SetupValues` reads a `SettingSufferingMode` that YAIM.cs does not declare.
  YAIM.cs declares `SettingLegacyMode` and `SettingPlaySounds`, so the mapping is not settled in the source.
  The record carries `sufferingMode` directly.
- The list's data source: `Refresh` and `AdjustActiveIndex` read the older `Inventory.Singleton`, while the mod drives
  the newer store. Both methods take the item list as a parameter, and the driver passes the newer store's list.
- `UIHandler.Toggle` is not in UIHandler.cs; it is modelled as flipping the list's visibility.
  The open and close sounds are left out.
- Assets, audio, the header text, colours, and the instantiating and destroying of entry objects:
  only the entry count and the labels are modelled.
- `LoadCatcher.Create`, the catcher's collider, and the log line on destruction. The cache of loaded colliders
  is a field of the catcher rather than a static of the mod. The catcher's destruction in PostLoad is
  modelled as dropping the reference.
- `Mod_Load`'s stopwatch and asset loading.
- Yaim.Mod.RefreshValues: calls the recounting `SetupValuesAndRecount` rather than `SetupValues` as written;
  see Findings. Yaim.Mod.RefreshValuesAsWritten is the button as written.
- UI.UIHandler.Refresh: requires fewer than 256 items, because the source's loop counters are bytes.
  With 256 or more entries they wrap and the loop never ends.
- UI.UIHandler.AdjustActiveIndex: requires fewer than 256 items, for the same byte counters, since it ends with a refresh.
- Yaim.Mod.Update: requires fewer than 255 stored items, so that the refresh after a pick-up stays within the byte
  counters. The same holds for Yaim.Mod.Step, Yaim.Mod.BeginFrame, Yaim.Mod.ActAndScroll, Yaim.Mod.PressPickUp,
  Yaim.Mod.PickUpAndScroll, Yaim.Mod.DropSelected, Yaim.Mod.AttemptHit, Yaim.Mod.AttemptObject, Yaim.Mod.TryHit and
  Yaim.Mod.PickUpFromHits. Yaim.Mod.Scroll requires fewer than 256, as AdjustActiveIndex does.
- The scroll wheel (YAIM.cs:258-260) is modelled at the end of each action's method (Yaim.Mod.PressDropAll,
  Yaim.Mod.PickUpAndScroll, Yaim.Mod.DropSelected, and Yaim.Mod.Scroll alone). This keeps the source's order of
  action, then scroll. A drop on an out-of-range selection throws before the scroll is reached.
- Yaim.Mod.PostLoad: states the set of objects added and their count, not their order. The order depends on the
  hash set's enumeration, which Yaim.Mod.OfferAll takes as an input.
- Store.InventoryHandler.DropCurrent and LegacyStore.Inventory.DropCurrent: require an in-range index,
  because the source indexes without a guard and would throw. The driver models that throw as a fault
  (Yaim.Mod.DropSelected).

## Findings

| source | as written | input that shows it | evidently intended | confidence | as-written member | corrected member |
|---|---|---|---|---|---|---|
| Scripts/InventoryHandler.cs:105-113 | re-initialising from the settings switches suffering mode on without recounting the cached mass, which slot mode never updates | slot mode with a 6 kg box stored, then suffering mode with 8 kg of room: a 5 kg box is admitted and 11 kg are stored | the cached mass equals the sum of the stored masses whenever suffering mode is on | medium, not executed | Scenarios.StaleMassAdmitsOverweight | Store.InventoryHandler.SetupValuesAndRecount |
| Scripts/Inventory.cs:216 | after a drop the selection is clamped to min(index, Count), so dropping the last entry leaves it one past the end | two stored objects, the second selected, drop it: the index is 1 with one entry, and the next drop indexes out of range | the selection steps back and stays in range, as in the newer store's min(index - 1, Count) | high, not executed | Scenarios.LegacyDropLastOverruns | Store.InventoryHandler.DropCurrent |
