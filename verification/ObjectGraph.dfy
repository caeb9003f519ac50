/**
 * JavaScript values and the graph of objects behind them, as the traversals in
 * apps/research-ui/analyst_runner_core.js meet it: cycles, accessors, and objects that
 * refuse to be inspected.
 */
module ObjectGraph {
  import opened Outcomes
  import opened AnalystText

  type Id = nat

  /** What reading the name of a function gives: an exception, a false value, or a value as text. */
  datatype Naming = NameThrows | Nameless | Named(shown: Text)

  /** `length` says whether a number can be the length of an array. */
  datatype Value =
    | Null | Flag(on: bool) | Numeric(shown: Text, length: bool) | Words(text: Text) | BigInt(digits: Text)
    | Undefined | Symbol(shown: Text) | Callable(name: Naming) | Reference(id: Id)

  datatype Descriptor = Missing | Accessor | Data(value: Value)

  /** An own key as it converts to text, and what its descriptor says. */
  datatype Property = Property(key: Text, what: Descriptor)

  /** `own` is None when listing the keys throws; `freezes` is false when freezing throws. */
  datatype Object = Object(isArray: bool, own: Option<seq<Property>>, freezes: bool)

  type Heap = map<Id, Object>

  /** References lead to objects. */
  ghost predicate Closed(heap: Heap) {
    forall id, p | id in heap && heap[id].own.Some? && p in heap[id].own.value
                   && p.what.Data? && p.what.value.Reference? :: p.what.value.id in heap
  }

  function Linked(own: seq<Property>): (ids: seq<Id>)
    ensures forall id :: id in ids <==> exists p | p in own :: p.what == Data(Reference(id))
    decreases |own|
  {
    if own == [] then []
    else
      var rest := Linked(own[..|own| - 1]);
      var what := own[|own| - 1].what;
      if what.Data? && what.value.Reference? then rest + [what.value.id] else rest
  }

  function Links(heap: Heap, id: Id): seq<Id>
    requires id in heap
  {
    if heap[id].own == None then [] else Linked(heap[id].own.value)
  }

  lemma LinksStay(heap: Heap, id: Id)
    requires Closed(heap) && id in heap
    ensures forall next | next in Links(heap, id) :: next in heap
  {
    forall next | next in Links(heap, id) ensures next in heap {
      var p :| p in heap[id].own.value && p.what == Data(Reference(next));
    }
  }

  /** A chain of own data properties. */
  ghost predicate Path(heap: Heap, path: seq<Id>)
    decreases |path|
  {
    && path != [] && path[0] in heap
    && (|path| > 1 ==> path[1] in Links(heap, path[0]) && Path(heap, path[1..]))
  }

  ghost predicate Reachable(heap: Heap, root: Id, id: Id) {
    exists path: seq<Id> :: Path(heap, path) && path[0] == root && path[|path| - 1] == id
  }

  ghost function Reach(heap: Heap, root: Id): set<Id> {
    set id | id in heap && Reachable(heap, root, id)
  }

  lemma {:induction false} PathGrows(heap: Heap, path: seq<Id>, next: Id)
    requires Closed(heap) && Path(heap, path) && path[|path| - 1] in heap && next in Links(heap, path[|path| - 1])
    ensures Path(heap, path + [next])
    decreases |path|
  {
    LinksStay(heap, path[|path| - 1]);
    assert (path + [next])[1..] == path[1..] + [next];
    if |path| > 1 {
      PathGrows(heap, path[1..], next);
    } else {
      assert path[1..] + [next] == [next];
    }
  }

  lemma RootIsReached(heap: Heap, root: Id)
    requires root in heap
    ensures root in Reach(heap, root)
  {
    assert Path(heap, [root]);
  }

  lemma LinkIsReached(heap: Heap, root: Id, id: Id, next: Id)
    requires Closed(heap) && id in Reach(heap, root) && next in Links(heap, id)
    ensures next in Reach(heap, root)
  {
    LinksStay(heap, id);
    var path :| Path(heap, path) && path[0] == root && path[|path| - 1] == id;
    PathGrows(heap, path, next);
    var more := path + [next];
    assert more[0] == root && more[|more| - 1] == next;
  }

  /** A set that holds the root and every link of its members holds everything reachable. */
  lemma {:induction false} ClosedSetHoldsPath(heap: Heap, objects: set<Id>, path: seq<Id>)
    requires Path(heap, path) && path[0] in objects
    requires forall id, next | id in objects && id in heap && next in Links(heap, id) :: next in objects
    ensures path[|path| - 1] in objects
    decreases |path|
  {
    if |path| > 1 {
      ClosedSetHoldsPath(heap, objects, path[1..]);
    }
  }

  lemma ClosedSetHoldsReach(heap: Heap, root: Id, objects: set<Id>)
    requires root in objects
    requires forall id, next | id in objects && id in heap && next in Links(heap, id) :: next in objects
    ensures Reach(heap, root) <= objects
  {
    forall id | id in Reach(heap, root) ensures id in objects {
      var path :| Path(heap, path) && path[0] == root && path[|path| - 1] == id;
      ClosedSetHoldsPath(heap, objects, path);
    }
  }
}
