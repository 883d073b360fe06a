/**
 * The save/load catcher: every object whose collider touches the catcher's trigger is cached once
 * in the set of loaded colliders, which the mod later offers to the inventory.
 */
module Loading {
  import opened GameWorld

  /** A trigger callback the physics engine delivers to the catcher. */
  datatype TriggerEvent = Enter(obj: GameObject) | Stay(obj: GameObject) | Exit(obj: GameObject)

  /** The cache after a sequence of trigger events, starting from `seen`. */
  function AfterEvents(seen: set<GameObject>, events: seq<TriggerEvent>): set<GameObject>
    decreases |events|
  {
    if events == [] then seen else AfterEvents(seen + {events[0].obj}, events[1..])
  }

  /** The objects the events mention. */
  function Touched(events: seq<TriggerEvent>): set<GameObject> {
    set i | 0 <= i < |events| :: events[i].obj
  }

  /** Whatever the order and kind of the callbacks, the cache ends up as `seen` plus every object touched. */
  lemma {:induction false} AfterEventsIsUnion(seen: set<GameObject>, events: seq<TriggerEvent>)
    ensures AfterEvents(seen, events) == seen + Touched(events)
    decreases |events|
  {
    if events != [] {
      AfterEventsIsUnion(seen + {events[0].obj}, events[1..]);
      assert Touched(events) == {events[0].obj} + Touched(events[1..]) by {
        forall o | o in Touched(events) ensures o in {events[0].obj} + Touched(events[1..]) {
          var i :| 0 <= i < |events| && events[i].obj == o;
          if i > 0 {
            assert events[1..][i - 1].obj == o;
          }
        }
        forall o | o in Touched(events[1..]) ensures o in Touched(events) {
          var i :| 0 <= i < |events[1..]| && events[1..][i].obj == o;
          assert events[i + 1].obj == o;
        }
      }
    }
  }

  /** Replaying the same events again adds nothing: the cache is idempotent. */
  lemma ReplayAddsNothing(seen: set<GameObject>, events: seq<TriggerEvent>)
    ensures AfterEvents(AfterEvents(seen, events), events) == AfterEvents(seen, events)
  {
    AfterEventsIsUnion(seen, events);
    AfterEventsIsUnion(AfterEvents(seen, events), events);
  }

  /** The catcher component; `LoadedColliders` is the mod's set that it fills. */
  class LoadCatcher {
    var LoadedColliders: set<GameObject>

    /** The set starts empty when the catcher is initialised before the scene's physics start. */
    constructor ()
      ensures LoadedColliders == {}
    {
      LoadedColliders := {};
    }

    method CacheObj(o: GameObject)
      modifies this`LoadedColliders
      ensures LoadedColliders == old(LoadedColliders) + {o}
      ensures o in old(LoadedColliders) ==> LoadedColliders == old(LoadedColliders)
    {
      if o !in LoadedColliders {
        LoadedColliders := LoadedColliders + {o};
      }
    }

    method OnTriggerEnter(other: GameObject)
      modifies this`LoadedColliders
      ensures LoadedColliders == AfterEvents(old(LoadedColliders), [Enter(other)])
    {
      CacheObj(other);
    }

    method OnTriggerStay(other: GameObject)
      modifies this`LoadedColliders
      ensures LoadedColliders == AfterEvents(old(LoadedColliders), [Stay(other)])
    {
      CacheObj(other);
    }

    method OnTriggerExit(other: GameObject)
      modifies this`LoadedColliders
      ensures LoadedColliders == AfterEvents(old(LoadedColliders), [Exit(other)])
    {
      CacheObj(other);
    }

    /** Delivers a whole sequence of callbacks, one at a time. */
    method Deliver(events: seq<TriggerEvent>)
      modifies this`LoadedColliders
      ensures LoadedColliders == old(LoadedColliders) + Touched(events)
    {
      var k := 0;
      while k < |events|
        invariant 0 <= k <= |events|
        invariant AfterEvents(LoadedColliders, events[k..]) == AfterEvents(old(LoadedColliders), events)
        decreases |events| - k
      {
        assert events[k..][1..] == events[k + 1..];
        match events[k] {
          case Enter(o) => OnTriggerEnter(o);
          case Stay(o) => OnTriggerStay(o);
          case Exit(o) => OnTriggerExit(o);
        }
        k := k + 1;
      }
      AfterEventsIsUnion(old(LoadedColliders), events);
    }
  }
}
