/**
 * `deepFreeze` in apps/research-ui/analyst_runner_core.js: every object reachable
 * through own data properties is frozen, by a worklist that also ends on cycles.
 */
module ObjectFreezing {
  import opened Outcomes
  import opened ObjectGraph

  const ENTRY_LIMIT: nat := 50000

  /** The count is compared before it grows, so one object more is frozen. */
  const MAX_FROZEN: nat := ENTRY_LIMIT + 1

  lemma SmallerSet(a: set<Id>, b: set<Id>)
    requires a <= b
    ensures |a| <= |b| && (a < b ==> |a| < |b|)
  {
    assert b == a + (b - a);
  }

  lemma AtMostSeen(before: set<Id>, seen: set<Id>, all: set<Id>)
    requires seen <= all
    ensures before <= before + seen <= before + all && |before + seen - before| <= |seen|
  {
    SmallerSet(before + seen - before, seen);
  }

  lemma OneMoreFrozen(before: set<Id>, seen: set<Id>, id: Id)
    ensures before + seen + {id} == before + (seen + {id})
  {
  }

  /** No reachable object refuses to be listed or frozen, and there are not too many. */
  ghost predicate Freezable(heap: Heap, root: Id) {
    && |Reach(heap, root)| <= MAX_FROZEN
    && forall id | id in Reach(heap, root) :: heap[id].own.Some? && heap[id].freezes
  }

  /** What the worklist knows: everything seen was reachable, and its links are seen or waiting. */
  ghost predicate Underway(heap: Heap, root: Id, seen: set<Id>, pending: seq<Id>) {
    && seen <= Reach(heap, root) && |seen| <= MAX_FROZEN
    && (forall id | id in pending :: id in Reach(heap, root))
    && (forall id | id in seen :: heap[id].own.Some? && heap[id].freezes)
    && (root in seen || root in pending)
    && forall id, next | id in seen && next in Links(heap, id) :: next in seen || next in pending
  }

  lemma Starts(heap: Heap, root: Id)
    requires root in heap
    ensures Underway(heap, root, {}, [root])
  {
    RootIsReached(heap, root);
  }

  lemma Finished(heap: Heap, root: Id, seen: set<Id>)
    requires Underway(heap, root, seen, [])
    ensures seen == Reach(heap, root) && Freezable(heap, root)
  {
    ClosedSetHoldsReach(heap, root, seen);
  }

  lemma SkipsSeen(heap: Heap, root: Id, seen: set<Id>, pending: seq<Id>)
    requires pending != [] && Underway(heap, root, seen, pending) && pending[|pending| - 1] in seen
    ensures Underway(heap, root, seen, pending[..|pending| - 1])
  {
    var rest, current := pending[..|pending| - 1], pending[|pending| - 1];
    assert forall id :: id in pending <==> id in rest || id == current;
  }

  lemma {:induction false} FreezesOne(heap: Heap, root: Id, seen: set<Id>, pending: seq<Id>)
    requires Closed(heap) && pending != [] && Underway(heap, root, seen, pending)
    requires var current := pending[|pending| - 1];
             current !in seen && |seen| < MAX_FROZEN && heap[current].own.Some? && heap[current].freezes
    ensures var current := pending[|pending| - 1];
            && Underway(heap, root, seen + {current}, pending[..|pending| - 1] + Links(heap, current))
            && |seen + {current}| == |seen| + 1
            && |Reach(heap, root) - (seen + {current})| < |Reach(heap, root) - seen|
  {
    var rest, current := pending[..|pending| - 1], pending[|pending| - 1];
    var more := rest + Links(heap, current);
    assert forall id :: id in pending <==> id in rest || id == current;
    assert forall id :: id in more <==> id in rest || id in Links(heap, current);
    forall id | id in more ensures id in Reach(heap, root) {
      if id in Links(heap, current) {
        LinkIsReached(heap, root, current, id);
      }
    }
    SmallerSet(Reach(heap, root) - (seen + {current}), Reach(heap, root) - seen);
  }

  lemma Refuses(heap: Heap, root: Id, seen: set<Id>, pending: seq<Id>)
    requires pending != [] && Underway(heap, root, seen, pending)
    requires var current := pending[|pending| - 1];
             current !in seen && (|seen| >= MAX_FROZEN || heap[current].own == None || !heap[current].freezes)
    ensures !Freezable(heap, root)
  {
    var current := pending[|pending| - 1];
    SmallerSet(seen + {current}, Reach(heap, root));
  }

  class Realm {
    const heap: Heap
    var frozen: set<Id>

    constructor (heap: Heap)
      ensures this.heap == heap && frozen == {}
    {
      this.heap, frozen := heap, {};
    }

    /**
     * `value` is None for anything but an object. Returning normally means exactly the
     * reachable objects were frozen, and it happens exactly when all of them can be and
     * there are at most 50001; otherwise some of them, at most that many, were.
     */
    method DeepFreeze(value: Option<Id>) returns (finished: bool)
      requires Closed(heap) && (value.Some? ==> value.value in heap)
      modifies this
      ensures value == None ==> finished && frozen == old(frozen)
      ensures value.Some? ==> (finished <==> Freezable(heap, value.value))
      ensures value.Some? && finished ==> frozen == old(frozen) + Reach(heap, value.value)
      ensures value.Some? && !finished ==>
        old(frozen) <= frozen <= old(frozen) + Reach(heap, value.value) && |frozen - old(frozen)| <= MAX_FROZEN
    {
      if value == None {
        return true;
      }
      var root := value.value;
      var pending, seen: set<Id>, entries := [root], {}, 0;
      assert frozen + seen == frozen;
      Starts(heap, root);
      hide Reach, Links, Closed, Freezable, Underway;
      while pending != []
        invariant Underway(heap, root, seen, pending)
        invariant entries == |seen| && frozen == old(frozen) + seen
        decreases |Reach(heap, root) - seen|, |pending|
      {
        var current := pending[|pending| - 1];
        ghost var before := pending;
        pending := pending[..|pending| - 1];
        Known(heap, root, seen, before);
        if current in seen {
          SkipsSeen(heap, root, seen, before);
          continue;
        }
        if entries > ENTRY_LIMIT || heap[current].own == None || !heap[current].freezes {
          Refuses(heap, root, seen, before);
          AtMostSeen(old(frozen), seen, Reach(heap, root));
          return false;
        }
        FreezesOne(heap, root, seen, before);
        OneMoreFrozen(old(frozen), seen, current);
        seen := seen + {current};
        entries := entries + 1;
        pending := pending + Links(heap, current);
        frozen := frozen + {current};
      }
      Finished(heap, root, seen);
      return true;
    }
  }

  lemma Known(heap: Heap, root: Id, seen: set<Id>, pending: seq<Id>)
    requires pending != [] && Underway(heap, root, seen, pending)
    ensures pending[|pending| - 1] in heap && seen <= Reach(heap, root) && |seen| <= MAX_FROZEN
  {
    assert pending[|pending| - 1] in pending;
  }
}
