/**
 * `serialize` in apps/research-ui/analyst_runner_core.js over object graphs of any shape:
 * what the copy holds, when it is whole, and what is lost without being reported.
 */
module AnalystRunner {
  import opened Outcomes
  import opened AnalystText
  import opened ObjectGraph
  import opened Sequences

  const MAX_DEPTH: nat := 8
  const MAX_ENTRIES: nat := 512
  const MAX_TEXT: nat := 8192
  const MAX_KEY: nat := 256
  const MAX_NAME: nat := 128

  /** What is handed to JSON: `mark` texts are the runner's own, like "[Circular]". */
  datatype Json =
    | Primitive(value: Value)
    | Copied(text: Text)
    | Mark(shown: string)
    | Suffixed(text: Text)
    | Function(name: Text)
    | Node(isArray: bool, entries: Entries)

  /** Keys with values: the assignments of a loop in order, or the properties they leave. */
  datatype Entries = Done | Entry(key: Text, value: Json, rest: Entries)

  /** The variables the recursion shares; `seen` in the order objects were entered. */
  datatype State = State(seen: seq<Id>, entries: nat, truncated: bool)

  /** None: an exception left the copy. */
  datatype Cloned = Cloned(json: Option<Json>, state: State)

  datatype Listed = Listed(entries: Option<Entries>, state: State)

  function Min(a: nat, b: nat): nat { if a < b then a else b }

  const ANONYMOUS: Text := [97, 110, 111, 110, 121, 109, 111, 117, 115]
  const PROTO: Text := [95, 95, 112, 114, 111, 116, 111, 95, 95]
  const LENGTH: Text := [108, 101, 110, 103, 116, 104]

  // Assignment into one object.

  function Put(output: Entries, key: Text, value: Json): Entries {
    match output
    case Done => Entry(key, value, Done)
    case Entry(k, v, rest) => if k == key then Entry(key, value, rest) else Entry(k, v, Put(rest, key, value))
  }

  /** `__proto__` reaches the setter of the prototype and leaves no property. */
  function Assign(output: Entries, key: Text, value: Json): Entries {
    if key == PROTO then output else Put(output, key, value)
  }

  /** The properties left by assignments in order. */
  function Assigned(output: Entries, list: Entries): Entries
    decreases list
  {
    match list
    case Done => output
    case Entry(key, value, rest) => Assigned(Assign(output, key, value), rest)
  }

  /** Assigning to the length of an array throws unless it is a length. */
  predicate Throws(isArray: bool, key: Text, value: Json) {
    isArray && key == LENGTH && !(value.Primitive? && value.value.Numeric? && value.value.length)
  }

  function NameOf(name: Naming): Text
    requires !name.NameThrows?
  {
    if name.Nameless? then ANONYMOUS else name.shown
  }

  function Clone(heap: Heap, limit: nat, candidate: Value, depth: nat, state: State): Cloned
    requires Closed(heap) && (candidate.Reference? ==> candidate.id in heap)
    requires depth <= MAX_DEPTH
    decreases MAX_DEPTH - depth, 2, 0
  {
    match candidate
    case Null | Flag(_) | Numeric(_, _) => Cloned(Some(Primitive(candidate)), state)
    case Words(text) =>
      var result := Bounded(text, Min(limit, MAX_TEXT));
      Cloned(Some(Copied(result)), state.(truncated := state.truncated || result != text))
    case BigInt(digits) => Cloned(Some(Suffixed(digits)), state)
    case Undefined => Cloned(Some(Mark("[undefined]")), state)
    case Symbol(shown) => Cloned(Some(Copied(Bounded(shown, MAX_KEY))), state)
    case Callable(name) =>
      if name.NameThrows? then Cloned(None, state) else Cloned(Some(Function(Bounded(NameOf(name), MAX_NAME))), state)
    case Reference(id) =>
      if depth >= MAX_DEPTH then Cloned(Some(Mark("[MaxDepth]")), state.(truncated := true))
      else if id in state.seen then Cloned(Some(Mark("[Circular]")), state)
      else
        var entered := state.(seen := state.seen + [id]);
        if heap[id].own == None then Cloned(Some(Mark("[Uninspectable]")), entered)
        else
          var list := CloneKeys(heap, limit, heap[id].isArray, heap[id].own.value, depth, entered);
          Cloned(if list.entries == None then None
              else Some(Node(heap[id].isArray, Assigned(Done, list.entries.value))),
                 list.state)
  }

  /** The assignments the loop over own keys makes, in order. */
  function CloneKeys(heap: Heap, limit: nat, isArray: bool, keys: seq<Property>, depth: nat, state: State): Listed
    requires Closed(heap) && depth < MAX_DEPTH
    requires forall p | p in keys && p.what.Data? && p.what.value.Reference? :: p.what.value.id in heap
    decreases MAX_DEPTH - depth, 1, |keys|
  {
    if keys == [] then Listed(Some(Done), state)
    else if state.entries >= MAX_ENTRIES then Listed(Some(Done), state.(truncated := true))
    else
      var counted := state.(entries := state.entries + 1);
      var one := CloneProperty(heap, limit, keys[0], depth, counted);
      var key := Shown(keys[0]);
      if one.json == None || Throws(isArray, key, one.json.value) then Listed(None, one.state)
      else
        var rest := CloneKeys(heap, limit, isArray, keys[1..], depth, one.state);
        Listed(if rest.entries == None then None else Some(Entry(key, one.json.value, rest.entries.value)), rest.state)
  }

  function Shown(p: Property): Text { Bounded(p.key, MAX_KEY) }

  function CloneProperty(heap: Heap, limit: nat, p: Property, depth: nat, state: State): Cloned
    requires Closed(heap) && depth < MAX_DEPTH
    requires p.what.Data? && p.what.value.Reference? ==> p.what.value.id in heap
    decreases MAX_DEPTH - depth, 0, 0
  {
    match p.what
    case Missing => Cloned(Some(Mark("[Unavailable]")), state)
    case Accessor => Cloned(Some(Mark("[Accessor not invoked]")), state)
    case Data(value) => Clone(heap, limit, value, depth + 1, state)
  }

  // The size of a copy.

  function Height(json: Json): nat { if json.Node? then 1 + HeightOf(json.entries) else 0 }

  function HeightOf(entries: Entries): nat {
    match entries
    case Done => 0
    case Entry(_, value, rest) => var a, b := Height(value), HeightOf(rest); if a < b then b else a
  }

  function Nodes(json: Json): nat { if json.Node? then 1 + NodesOf(json.entries) else 0 }

  function NodesOf(entries: Entries): nat {
    match entries
    case Done => 0
    case Entry(_, value, rest) => Nodes(value) + NodesOf(rest)
  }

  function Size(json: Json): nat { if json.Node? then SizeOf(json.entries) else 0 }

  function SizeOf(entries: Entries): nat {
    match entries
    case Done => 0
    case Entry(_, value, rest) => 1 + Size(value) + SizeOf(rest)
  }

  /** Copied text fits its limits, at every depth. */
  predicate TextsFit(json: Json) {
    match json
    case Copied(text) => Utf8Bytes(text) <= MAX_TEXT
    case Function(name) => Utf8Bytes(name) <= MAX_NAME
    case Node(_, entries) => KeysFit(entries)
    case _ => true
  }

  predicate KeysFit(entries: Entries) {
    match entries
    case Done => true
    case Entry(key, value, rest) => Utf8Bytes(key) <= MAX_KEY && TextsFit(value) && KeysFit(rest)
  }

  // What assignments leave.

  function Length(entries: Entries): nat { if entries.Done? then 0 else 1 + Length(entries.rest) }

  function Lookup(entries: Entries, key: Text): Option<Json> {
    match entries
    case Done => None
    case Entry(k, v, rest) => if k == key then Some(v) else Lookup(rest, key)
  }

  function LastOf(list: Entries, key: Text): Option<Json> {
    match list
    case Done => None
    case Entry(k, v, rest) =>
      var later := LastOf(rest, key);
      if later.Some? then later else if k == key then Some(v) else None
  }

  function KeysOf(list: Entries): seq<Text> { if list.Done? then [] else [list.key] + KeysOf(list.rest) }

  lemma {:induction false} PutLooksUp(output: Entries, key: Text, value: Json, k: Text)
    ensures Lookup(Put(output, key, value), k) == if k == key then Some(value) else Lookup(output, k)
    ensures Length(Put(output, key, value)) == Length(output) + if Lookup(output, key) == None then 1 else 0
    decreases output
  {
    if output.Entry? && output.key != key {
      PutLooksUp(output.rest, key, value, k);
    }
  }

  /** For every key the last assignment wins, and `__proto__` is never a property. */
  lemma {:induction false} LastAssignmentWins(output: Entries, list: Entries, k: Text)
    ensures Lookup(Assigned(output, list), k)
         == if k == PROTO || LastOf(list, k) == None then Lookup(output, k) else LastOf(list, k)
    decreases list
  {
    if list.Entry? {
      if list.key != PROTO {
        PutLooksUp(output, list.key, list.value, k);
      }
      LastAssignmentWins(Assign(output, list.key, list.value), list.rest, k);
    }
  }

  /** Two keys coincide, or one is `__proto__`. */
  ghost predicate Clash(keys: seq<Text>) { !Distinct(keys) || PROTO in keys }

  predicate Disjoint(output: Entries, keys: seq<Text>) { forall k | k in keys :: Lookup(output, k) == None }

  lemma ClashOfMore(key: Text, rest: seq<Text>)
    ensures Clash([key] + rest) <==> key == PROTO || key in rest || Clash(rest)
  {
    var keys := [key] + rest;
    assert keys[1..] == rest;
    if key in rest {
      var j :| 0 <= j < |rest| && rest[j] == key;
      assert keys[0] == keys[j + 1];
    }
    if Distinct(keys) {
      forall i, j | 0 <= i < j < |rest| ensures rest[i] != rest[j] {
        assert keys[i + 1] != keys[j + 1];
      }
    }
  }

  lemma {:induction false} AssignedLength(output: Entries, list: Entries)
    ensures Length(Assigned(output, list)) <= Length(output) + Length(list)
    ensures Disjoint(output, KeysOf(list)) ==>
      (Length(Assigned(output, list)) == Length(output) + Length(list) <==> !Clash(KeysOf(list)))
    ensures !Disjoint(output, KeysOf(list)) ==> Length(Assigned(output, list)) < Length(output) + Length(list)
    decreases list
  {
    if list.Entry? {
      var next, rest := Assign(output, list.key, list.value), KeysOf(list.rest);
      AssignedLength(next, list.rest);
      ClashOfMore(list.key, rest);
      PutLooksUp(output, list.key, list.value, list.key);
      forall k | k in rest
        ensures Lookup(next, k) == if k == list.key != PROTO then Some(list.value) else Lookup(output, k) {
        PutLooksUp(output, list.key, list.value, k);
      }
      assert KeysOf(list) == [list.key] + rest;
      hide Clash;
      assert list.key in KeysOf(list);
      assert forall k | k in KeysOf(list) :: k == list.key || k in rest;
      assert forall k | k in rest :: k in KeysOf(list);
    }
  }

  /** Entries are lost exactly when two keys of the loop coincide or one is `__proto__`. */
  lemma LostExactlyOnClash(list: Entries)
    ensures Length(Assigned(Done, list)) < Length(list) <==> Clash(KeysOf(list))
  {
    AssignedLength(Done, list);
    assert Disjoint(Done, KeysOf(list));
  }

  function Join(a: Entries, b: Entries): Entries {
    match a
    case Done => b
    case Entry(key, value, rest) => Entry(key, value, Join(rest, b))
  }

  lemma {:induction false} PutAppends(output: Entries, key: Text, value: Json, rest: Entries)
    ensures Lookup(output, key) == None ==> Join(Put(output, key, value), rest) == Join(output, Entry(key, value, rest))
    decreases output
  {
    if output.Entry? && output.key != key {
      PutAppends(output.rest, key, value, rest);
    }
  }

  /** Without a clash the properties are the assignments. */
  lemma {:induction false} NothingLost(output: Entries, list: Entries)
    requires Disjoint(output, KeysOf(list)) && !Clash(KeysOf(list))
    ensures Assigned(output, list) == Join(output, list)
    decreases list
  {
    if list.Done? {
      JoinDone(output);
    } else {
      var rest := KeysOf(list.rest);
      ClashOfMore(list.key, rest);
      assert list.key in KeysOf(list);
      forall k | k in rest ensures Lookup(Put(output, list.key, list.value), k) == None {
        assert k in KeysOf(list);
        PutLooksUp(output, list.key, list.value, k);
      }
      NothingLost(Put(output, list.key, list.value), list.rest);
      PutAppends(output, list.key, list.value, list.rest);
    }
  }

  lemma {:induction false} JoinDone(a: Entries)
    ensures Join(a, Done) == a
  {
    if a.Entry? {
      JoinDone(a.rest);
    }
  }

  lemma WithoutClash(list: Entries)
    requires !Clash(KeysOf(list))
    ensures Assigned(Done, list) == list
  {
    NothingLost(Done, list);
  }

  // Bounds.

  /**
   * From one state to the next: objects are entered at most once, each copied object is
   * one of them, every entry of the copy was counted, and a truncation stays reported.
   */
  ghost predicate Within(before: State, after: State, nodes: nat, size: nat) {
    && before.seen <= after.seen && (Distinct(before.seen) ==> Distinct(after.seen))
    && nodes + |before.seen| <= |after.seen|
    && before.entries + size <= after.entries && (before.entries <= MAX_ENTRIES ==> after.entries <= MAX_ENTRIES)
    && (before.truncated ==> after.truncated)
  }

  lemma WithinTwice(a: State, b: State, c: State, nodes: nat, size: nat, moreNodes: nat, moreSize: nat)
    requires Within(a, b, nodes, size) && Within(b, c, moreNodes, moreSize)
    ensures Within(a, c, nodes + moreNodes, size + moreSize)
  {
  }

  lemma WithinLess(a: State, b: State, nodes: nat, size: nat, lessNodes: nat, lessSize: nat)
    requires Within(a, b, nodes, size) && lessNodes <= nodes && lessSize <= size
    ensures Within(a, b, lessNodes, lessSize)
  {
  }

  lemma EnteringOne(state: State, id: Id)
    requires id !in state.seen
    ensures Within(state, state.(seen := state.seen + [id]), 1, 0)
  {
  }

  lemma NothingWithin(state: State)
    ensures Within(state, state, 0, 0) && Within(state, state.(truncated := true), 0, 0)
  {
  }

  lemma CountingOne(state: State)
    requires state.entries < MAX_ENTRIES
    ensures Within(state, state.(entries := state.entries + 1), 0, 1)
  {
  }

  lemma BoundedFits(text: Text, limit: nat)
    ensures Utf8Bytes(Bounded(text, limit)) <= limit
  {
    BoundedIsTheLongestPrefix(text, limit, 0);
  }

  lemma {:induction false} PutIsBounded(output: Entries, key: Text, value: Json, height: nat)
    ensures NodesOf(Put(output, key, value)) <= NodesOf(output) + Nodes(value)
    ensures SizeOf(Put(output, key, value)) <= SizeOf(output) + 1 + Size(value)
    ensures HeightOf(output) <= height && Height(value) <= height ==> HeightOf(Put(output, key, value)) <= height
    ensures KeysFit(output) && Utf8Bytes(key) <= MAX_KEY && TextsFit(value) ==> KeysFit(Put(output, key, value))
    decreases output
  {
    hide Utf8Bytes;
    if output.Entry? && output.key != key {
      PutIsBounded(output.rest, key, value, height);
    }
  }

  /** Assignments leave no more than they bring. */
  lemma {:induction false} AssignedIsBounded(output: Entries, list: Entries, height: nat)
    ensures NodesOf(Assigned(output, list)) <= NodesOf(output) + NodesOf(list)
    ensures SizeOf(Assigned(output, list)) <= SizeOf(output) + SizeOf(list)
    ensures HeightOf(output) <= height && HeightOf(list) <= height ==> HeightOf(Assigned(output, list)) <= height
    ensures KeysFit(output) && KeysFit(list) ==> KeysFit(Assigned(output, list))
    decreases list
  {
    hide Utf8Bytes;
    if list.Entry? {
      PutIsBounded(output, list.key, list.value, height);
      AssignedIsBounded(Assign(output, list.key, list.value), list.rest, height);
    }
  }

  function NodesIn(c: Cloned): nat { if c.json == None then 0 else Nodes(c.json.value) }

  function SizeIn(c: Cloned): nat { if c.json == None then 0 else Size(c.json.value) }

  function NodesListed(list: Listed): nat { if list.entries == None then 0 else NodesOf(list.entries.value) }

  function SizeListed(list: Listed): nat { if list.entries == None then 0 else SizeOf(list.entries.value) }

  ghost predicate JsonWithin(before: State, c: Cloned, height: nat) {
    && Within(before, c.state, NodesIn(c), SizeIn(c))
    && (c.json.Some? ==> Height(c.json.value) <= height && TextsFit(c.json.value))
  }

  ghost predicate ListWithin(before: State, list: Listed, height: nat) {
    && Within(before, list.state, NodesListed(list), SizeListed(list))
    && (list.entries.Some? ==> HeightOf(list.entries.value) <= height && KeysFit(list.entries.value))
  }

  /**
   * The copy is bounded whatever the graph, in depth, in entries, in text and in objects
   * expanded, and an exception leaves the counters within the same bounds.
   */
  lemma {:induction false} CloneIsBounded(heap: Heap, limit: nat, candidate: Value, depth: nat, state: State)
    requires Closed(heap) && (candidate.Reference? ==> candidate.id in heap)
    requires depth <= MAX_DEPTH
    ensures JsonWithin(state, Clone(heap, limit, candidate, depth, state), MAX_DEPTH - depth)
    decreases MAX_DEPTH - depth, 3
  {
    hide Within, Bounded, Utf8Bytes;
    NothingWithin(state);
    match candidate
    case Words(text) => BoundedFits(text, Min(limit, MAX_TEXT));
    case Symbol(shown) => BoundedFits(shown, MAX_KEY);
    case Callable(name) =>
      if !name.NameThrows? {
        BoundedFits(NameOf(name), MAX_NAME);
      }
    case Reference(id) =>
      if depth < MAX_DEPTH && id !in state.seen {
        EnteringOne(state, id);
        WithinLess(state, state.(seen := state.seen + [id]), 1, 0, 0, 0);
        if heap[id].own.Some? {
          ObjectIsBounded(heap, limit, id, depth, state);
        }
      }
    case _ =>
  }

  lemma {:induction false} ObjectIsBounded(heap: Heap, limit: nat, id: Id, depth: nat, state: State)
    requires Closed(heap) && id in heap && heap[id].own.Some? && id !in state.seen && depth < MAX_DEPTH
    ensures JsonWithin(state, Clone(heap, limit, Reference(id), depth, state), MAX_DEPTH - depth)
    decreases MAX_DEPTH - depth, 2
  {
    hide Within, CloneKeys, Assigned, Utf8Bytes;
    var entered := state.(seen := state.seen + [id]);
    var list := CloneKeys(heap, limit, heap[id].isArray, heap[id].own.value, depth, entered);
    EnteringOne(state, id);
    KeysAreBounded(heap, limit, heap[id].isArray, heap[id].own.value, depth, entered);
    if list.entries == None {
      WithinTwice(state, entered, list.state, 1, 0, 0, 0);
      WithinLess(state, list.state, 1, 0, 0, 0);
    } else {
      var all := list.entries.value;
      AssignedIsBounded(Done, all, MAX_DEPTH - depth - 1);
      WithinTwice(state, entered, list.state, 1, 0, NodesOf(all), SizeOf(all));
      var left := Assigned(Done, all);
      WithinLess(state, list.state, 1 + NodesOf(all), SizeOf(all), 1 + NodesOf(left), SizeOf(left));
    }
  }

  lemma {:induction false} KeysAreBounded(heap: Heap, limit: nat, isArray: bool, keys: seq<Property>, depth: nat,
        state: State)
    requires Closed(heap) && depth < MAX_DEPTH
    requires forall p | p in keys && p.what.Data? && p.what.value.Reference? :: p.what.value.id in heap
    ensures ListWithin(state, CloneKeys(heap, limit, isArray, keys, depth, state), MAX_DEPTH - depth - 1)
    decreases MAX_DEPTH - depth, 1, |keys|
  {
    hide Within, Bounded, Utf8Bytes, Throws;
    NothingWithin(state);
    if keys != [] && state.entries < MAX_ENTRIES {
      var counted := state.(entries := state.entries + 1);
      var one := CloneProperty(heap, limit, keys[0], depth, counted);
      var rest := CloneKeys(heap, limit, isArray, keys[1..], depth, one.state);
      CountingOne(state);
      PropertyIsBounded(heap, limit, keys[0], depth, counted);
      KeysAreBounded(heap, limit, isArray, keys[1..], depth, one.state);
      BoundedFits(keys[0].key, MAX_KEY);
      BothWithin(state, one, rest);
    }
  }

  /** One counted property and what the later ones bring. */
  lemma BothWithin(state: State, one: Cloned, rest: Listed)
    requires Within(state, state.(entries := state.entries + 1), 0, 1)
    requires Within(state.(entries := state.entries + 1), one.state, NodesIn(one), SizeIn(one))
    requires Within(one.state, rest.state, NodesListed(rest), SizeListed(rest))
    ensures Within(state, one.state, 0, 0) && Within(state, rest.state, 0, 0)
    ensures Within(state, rest.state, NodesIn(one) + NodesListed(rest), 1 + SizeIn(one) + SizeListed(rest))
  {
  }

  lemma {:induction false} PropertyIsBounded(heap: Heap, limit: nat, p: Property, depth: nat, state: State)
    requires Closed(heap) && depth < MAX_DEPTH
    requires p.what.Data? && p.what.value.Reference? ==> p.what.value.id in heap
    ensures JsonWithin(state, CloneProperty(heap, limit, p, depth, state), MAX_DEPTH - depth - 1)
    decreases MAX_DEPTH - depth, 0, 0
  {
    NothingWithin(state);
    if p.what.Data? {
      CloneIsBounded(heap, limit, p.what.value, depth + 1, state);
    }
  }

  // Whole copies.

  /** A symbol or function name that is not cut. */
  predicate ValueFits(v: Value) {
    match v
    case Symbol(shown) => Bounded(shown, MAX_KEY) == shown
    case Callable(name) => !name.NameThrows? ==> Bounded(NameOf(name), MAX_NAME) == NameOf(name)
    case _ => true
  }

  predicate PropertyFits(p: Property) { Shown(p) == p.key && (p.what.Data? ==> ValueFits(p.what.value)) }

  predicate AllFit(own: seq<Property>) { own == [] || (PropertyFits(own[0]) && AllFit(own[1..])) }

  /**
   * Reads a copy beside the graph, given the objects already entered, and gives the objects
   * entered after it; None unless the copy is whole. Whole: strings uncut, every own key
   * in order, no branch given up for its depth, and "[Circular]" exactly at an object
   * already entered. Keys, symbols and function names stand as they are cut; read
   * exactly, none of them is cut.
   */
  function Mirrored(heap: Heap, candidate: Value, json: Json, seen: seq<Id>, exact: bool): Option<seq<Id>>
    requires Closed(heap) && (candidate.Reference? ==> candidate.id in heap)
    decreases json
  {
    if exact && !ValueFits(candidate) then None
    else match candidate
    case Null | Flag(_) | Numeric(_, _) => if json == Primitive(candidate) then Some(seen) else None
    case Words(text) => if json == Copied(text) then Some(seen) else None
    case BigInt(digits) => if json == Suffixed(digits) then Some(seen) else None
    case Undefined => if json == Mark("[undefined]") then Some(seen) else None
    case Symbol(shown) => if json == Copied(Bounded(shown, MAX_KEY)) then Some(seen) else None
    case Callable(name) =>
      if !name.NameThrows? && json == Function(Bounded(NameOf(name), MAX_NAME)) then Some(seen) else None
    case Reference(id) =>
      if id in seen then if json == Mark("[Circular]") then Some(seen) else None
      else if heap[id].own == None then if json == Mark("[Uninspectable]") then Some(seen + [id]) else None
      else if json.Node? && json.isArray == heap[id].isArray then
        MirroredKeys(heap, heap[id].own.value, json.entries, seen + [id], exact)
      else None
  }

  function MirroredKeys(heap: Heap, keys: seq<Property>, entries: Entries, seen: seq<Id>, exact: bool): Option<seq<Id>>
    requires Closed(heap)
    requires forall p | p in keys && p.what.Data? && p.what.value.Reference? :: p.what.value.id in heap
    decreases entries
  {
    match entries
    case Done => if keys == [] then Some(seen) else None
    case Entry(key, value, rest) =>
      if keys == [] || key != Shown(keys[0]) || (exact && key != keys[0].key) then None
      else
        var mark := Mark(if keys[0].what.Missing? then "[Unavailable]" else "[Accessor not invoked]");
        var next := if keys[0].what.Data? then Mirrored(heap, keys[0].what.value, value, seen, exact)
                    else if value == mark then Some(seen)
                    else None;
        if next == None then None else MirroredKeys(heap, keys[1..], rest, next.value, exact)
  }

  lemma {:induction false} MirroredLength(heap: Heap, keys: seq<Property>, entries: Entries, seen: seq<Id>, exact: bool)
    requires Closed(heap)
    requires forall p | p in keys && p.what.Data? && p.what.value.Reference? :: p.what.value.id in heap
    ensures MirroredKeys(heap, keys, entries, seen, exact).Some? ==> Length(entries) == |keys|
    decreases entries
  {
    hide Bounded, Mirrored;
    if entries.Entry? && keys != [] && entries.key == Shown(keys[0]) {
      var next := if keys[0].what.Data? then Mirrored(heap, keys[0].what.value, entries.value, seen, exact)
          else Some(seen);
      if next.Some? {
        MirroredLength(heap, keys[1..], entries.rest, next.value, exact);
      }
    }
  }

  function ShownKeys(keys: seq<Property>): seq<Text> {
    if keys == [] then [] else [Shown(keys[0])] + ShownKeys(keys[1..])
  }

  /** Two own keys show alike or one is `__proto__`; read exactly, also when one of its texts is cut. */
  ghost predicate Spoils(heap: Heap, exact: bool, id: Id) {
    id in heap && heap[id].own.Some? && (Clash(ShownKeys(heap[id].own.value)) || (exact && !AllFit(heap[id].own.value)))
  }

  ghost predicate Unspoiled(heap: Heap, exact: bool, ids: seq<Id>) { forall id | id in ids :: !Spoils(heap, exact, id) }

  lemma {:induction false} ListsAPrefix(heap: Heap, limit: nat, isArray: bool, keys: seq<Property>, depth: nat,
        state: State)
    requires Closed(heap) && depth < MAX_DEPTH
    requires forall p | p in keys && p.what.Data? && p.what.value.Reference? :: p.what.value.id in heap
    ensures var list := CloneKeys(heap, limit, isArray, keys, depth, state);
            list.entries.Some? ==> KeysOf(list.entries.value) <= ShownKeys(keys)
    decreases |keys|
  {
    hide Bounded, Throws, CloneProperty;
    if keys != [] && state.entries < MAX_ENTRIES {
      var one := CloneProperty(heap, limit, keys[0], depth, state.(entries := state.entries + 1));
      ListsAPrefix(heap, limit, isArray, keys[1..], depth, one.state);
    }
  }

  lemma {:induction false} KeysOfLength(list: Entries)
    ensures |KeysOf(list)| == Length(list)
  {
    if list.Entry? {
      KeysOfLength(list.rest);
    }
  }

  lemma {:induction false} ShownKeysLength(keys: seq<Property>)
    ensures |ShownKeys(keys)| == |keys|
  {
    if keys != [] {
      ShownKeysLength(keys[1..]);
    }
  }

  /** Whole unless truncated, spoiled by an object entered on the way, or cut in a text of its own. */
  ghost predicate Judged(heap: Heap, seen: seq<Id>, after: State, mirrored: Option<seq<Id>>, exact: bool, fits: bool)
    requires seen <= after.seen
  {
    mirrored == if !after.truncated && Unspoiled(heap, exact, after.seen[|seen|..]) && (exact ==> fits)
                then Some(after.seen) else None
  }

  lemma {:induction false} CloneIsJudged(heap: Heap, limit: nat, candidate: Value, depth: nat, state: State,
        exact: bool)
    requires Closed(heap) && (candidate.Reference? ==> candidate.id in heap)
    requires depth <= MAX_DEPTH && !state.truncated
    ensures var c := Clone(heap, limit, candidate, depth, state);
            && state.seen <= c.state.seen
            && (c.json.Some? ==>
                  var mirrored := Mirrored(heap, candidate, c.json.value, state.seen, exact);
                  Judged(heap, state.seen, c.state, mirrored, exact, ValueFits(candidate)))
    decreases MAX_DEPTH - depth, 3
  {
    hide Bounded, CloneKeys, MirroredKeys, Spoils, Assigned;
    if candidate.Reference? && depth < MAX_DEPTH && candidate.id !in state.seen && heap[candidate.id].own.Some? {
      ObjectIsJudged(heap, limit, candidate.id, depth, state, exact);
    } else if candidate.Reference? && depth < MAX_DEPTH && candidate.id !in state.seen {
      UninspectableNeverSpoils(heap, exact, candidate.id);
    }
  }

  lemma UninspectableNeverSpoils(heap: Heap, exact: bool, id: Id)
    requires id in heap && heap[id].own == None
    ensures !Spoils(heap, exact, id)
  {
  }

  lemma {:induction false} ObjectIsJudged(heap: Heap, limit: nat, id: Id, depth: nat, state: State, exact: bool)
    requires Closed(heap) && id in heap && heap[id].own.Some? && id !in state.seen && depth < MAX_DEPTH
    requires !state.truncated
    ensures var c := Clone(heap, limit, Reference(id), depth, state);
            && state.seen <= c.state.seen
            && (c.json.Some? ==>
                  var mirrored := Mirrored(heap, Reference(id), c.json.value, state.seen, exact);
                  Judged(heap, state.seen, c.state, mirrored, exact, true))
    decreases MAX_DEPTH - depth, 2
  {
    hide Bounded, CloneKeys, MirroredKeys, Assigned, ShownKeys, KeysOf, Length, Clash, AllFit;
    var entered, keys := state.(seen := state.seen + [id]), heap[id].own.value;
    var list := CloneKeys(heap, limit, heap[id].isArray, keys, depth, entered);
    KeysAreJudged(heap, limit, heap[id].isArray, keys, depth, entered, exact);
    assert state.seen <= entered.seen;
    if list.entries.Some? {
      var all, after := list.entries.value, list.state.seen;
      assert entered.seen[|state.seen|..] == [id] && id in [id];
      assert Unspoiled(heap, exact, [id]) <==> !Clash(ShownKeys(keys)) && (exact ==> AllFit(keys));
      SplitUnspoiled(heap, exact, state.seen, entered.seen, after);
      ListsAPrefix(heap, limit, heap[id].isArray, keys, depth, entered);
      AfterAssignments(heap, keys, all, entered.seen, exact);
    }
  }

  /** What assigning a list of entries does to its being a whole copy. */
  lemma AfterAssignments(heap: Heap, keys: seq<Property>, list: Entries, seen: seq<Id>, exact: bool)
    requires Closed(heap)
    requires forall p | p in keys && p.what.Data? && p.what.value.Reference? :: p.what.value.id in heap
    requires KeysOf(list) <= ShownKeys(keys)
    ensures MirroredKeys(heap, keys, Assigned(Done, list), seen, exact)
         == if Clash(ShownKeys(keys)) then None else MirroredKeys(heap, keys, list, seen, exact)
  {
    hide MirroredKeys, Assigned, ShownKeys, KeysOf, Length, Clash;
    KeysOfLength(list);
    ShownKeysLength(keys);
    if Clash(ShownKeys(keys)) {
      MirroredLength(heap, keys, Assigned(Done, list), seen, exact);
      LostExactlyOnClash(list);
      assert |KeysOf(list)| == |keys| ==> KeysOf(list) == ShownKeys(keys);
      LengthNeverGrows(list);
    } else {
      PrefixOfNoClash(KeysOf(list), ShownKeys(keys));
      WithoutClash(list);
    }
  }

  lemma LengthNeverGrows(list: Entries)
    ensures Length(Assigned(Done, list)) <= Length(list)
  {
    AssignedLength(Done, list);
  }

  lemma PrefixOfNoClash(part: seq<Text>, keys: seq<Text>)
    requires part <= keys && !Clash(keys)
    ensures !Clash(part)
  {
    assert forall k | k in part :: k in keys;
  }

  lemma {:induction false} KeysAreJudged(
      heap: Heap, limit: nat, isArray: bool, keys: seq<Property>, depth: nat, state: State, exact: bool)
    requires Closed(heap) && depth < MAX_DEPTH && !state.truncated
    requires forall p | p in keys && p.what.Data? && p.what.value.Reference? :: p.what.value.id in heap
    ensures var list := CloneKeys(heap, limit, isArray, keys, depth, state);
            && state.seen <= list.state.seen
            && (list.entries.Some? ==>
                  var mirrored := MirroredKeys(heap, keys, list.entries.value, state.seen, exact);
                  Judged(heap, state.seen, list.state, mirrored, exact, AllFit(keys)))
    decreases MAX_DEPTH - depth, 1, |keys|
  {
    hide Bounded, Clone, Unspoiled, Mirrored, Throws, Within, ValueFits;
    NoneSpoil(heap, exact, state.seen);
    if keys != [] && state.entries < MAX_ENTRIES {
      var counted := state.(entries := state.entries + 1);
      var one := CloneProperty(heap, limit, keys[0], depth, counted);
      if keys[0].what.Data? {
        CloneIsJudged(heap, limit, keys[0].what.value, depth + 1, counted, exact);
      }
      Grows(heap, limit, isArray, keys[1..], depth, one.state);
      if one.json.Some? && !one.state.truncated {
        KeysAreJudged(heap, limit, isArray, keys[1..], depth, one.state, exact);
        var after := CloneKeys(heap, limit, isArray, keys[1..], depth, one.state).state.seen;
        SplitUnspoiled(heap, exact, state.seen, one.state.seen, after);
      }
    }
  }

  lemma NoneSpoil(heap: Heap, exact: bool, seen: seq<Id>)
    ensures Unspoiled(heap, exact, seen[|seen|..])
  {
  }

  lemma Grows(heap: Heap, limit: nat, isArray: bool, keys: seq<Property>, depth: nat, state: State)
    requires Closed(heap) && depth < MAX_DEPTH
    requires forall p | p in keys && p.what.Data? && p.what.value.Reference? :: p.what.value.id in heap
    ensures var after := CloneKeys(heap, limit, isArray, keys, depth, state).state;
            state.seen <= after.seen && (state.truncated ==> after.truncated)
  {
    KeysAreBounded(heap, limit, isArray, keys, depth, state);
  }

  lemma SplitUnspoiled(heap: Heap, exact: bool, a: seq<Id>, b: seq<Id>, c: seq<Id>)
    requires a <= b <= c
    ensures Unspoiled(heap, exact, c[|a|..]) <==> Unspoiled(heap, exact, b[|a|..]) && Unspoiled(heap, exact, c[|b|..])
  {
    assert c[|a|..] == b[|a|..] + c[|b|..];
  }

  // The objects entered are those in reach.

  /** Every object entered can be reached from a root that reaches the candidate. */
  lemma {:induction false} EnteredAreReached(heap: Heap, limit: nat, candidate: Value, depth: nat, state: State,
        root: Id)
    requires Closed(heap) && (candidate.Reference? ==> candidate.id in heap && candidate.id in Reach(heap, root))
    requires depth <= MAX_DEPTH
    ensures forall id | id in Clone(heap, limit, candidate, depth, state).state.seen ::
              id in state.seen || id in Reach(heap, root)
    decreases MAX_DEPTH - depth, 2, 0
  {
    hide Bounded, CloneKeys, Reach, Assigned;
    if candidate.Reference? && depth < MAX_DEPTH && candidate.id !in state.seen && heap[candidate.id].own.Some? {
      var entered := state.(seen := state.seen + [candidate.id]);
      LinksAreReached(heap, candidate.id, root);
      KeysAreReached(heap, limit, heap[candidate.id].isArray, heap[candidate.id].own.value, depth, entered, root);
    }
  }

  lemma LinksAreReached(heap: Heap, id: Id, root: Id)
    requires Closed(heap) && id in heap && id in Reach(heap, root) && heap[id].own.Some?
    ensures forall p | p in heap[id].own.value && p.what.Data? && p.what.value.Reference? ::
              p.what.value.id in Reach(heap, root)
  {
    forall p | p in heap[id].own.value && p.what.Data? && p.what.value.Reference?
      ensures p.what.value.id in Reach(heap, root) {
      assert p.what == Data(Reference(p.what.value.id));
      LinkIsReached(heap, root, id, p.what.value.id);
    }
  }

  lemma {:induction false} KeysAreReached(
      heap: Heap, limit: nat, isArray: bool, keys: seq<Property>, depth: nat, state: State, root: Id)
    requires Closed(heap) && depth < MAX_DEPTH
    requires forall p | p in keys && p.what.Data? && p.what.value.Reference? ::
               p.what.value.id in heap && p.what.value.id in Reach(heap, root)
    ensures forall id | id in CloneKeys(heap, limit, isArray, keys, depth, state).state.seen ::
              id in state.seen || id in Reach(heap, root)
    decreases MAX_DEPTH - depth, 1, |keys|
  {
    hide Bounded, Clone, Throws, Reach;
    if keys != [] && state.entries < MAX_ENTRIES {
      var counted := state.(entries := state.entries + 1);
      var one := CloneProperty(heap, limit, keys[0], depth, counted);
      if keys[0].what.Data? {
        EnteredAreReached(heap, limit, keys[0].what.value, depth + 1, counted, root);
      }
      KeysAreReached(heap, limit, isArray, keys[1..], depth, one.state, root);
    }
  }

  /** Every link of a newly entered object leads to an entered one. */
  ghost predicate Followed(heap: Heap, before: seq<Id>, after: seq<Id>) {
    && before <= after
    && forall id, next | id in after && id !in before && id in heap && next in Links(heap, id) :: next in after
  }

  lemma FollowedTwice(heap: Heap, a: seq<Id>, b: seq<Id>, c: seq<Id>)
    requires Followed(heap, a, b) && Followed(heap, b, c)
    ensures Followed(heap, a, c)
  {
    forall id, next | id in c && id !in a && id in heap && next in Links(heap, id) ensures next in c {
      if id in b {
        assert next in b;
      }
    }
  }

  /** A copy that is not truncated has followed every link. */
  lemma {:induction false} LinksAreFollowed(heap: Heap, limit: nat, candidate: Value, depth: nat, state: State)
    requires Closed(heap) && (candidate.Reference? ==> candidate.id in heap)
    requires depth <= MAX_DEPTH
    ensures var c := Clone(heap, limit, candidate, depth, state);
            c.json.Some? && !c.state.truncated ==>
              && Followed(heap, state.seen, c.state.seen)
              && (candidate.Reference? ==> candidate.id in c.state.seen)
    decreases MAX_DEPTH - depth, 3
  {
    hide Bounded, CloneKeys, Assigned;
    if candidate.Reference? && depth < MAX_DEPTH && candidate.id !in state.seen && heap[candidate.id].own.Some? {
      ObjectIsFollowed(heap, limit, candidate.id, depth, state);
    }
  }

  lemma {:induction false} ObjectIsFollowed(heap: Heap, limit: nat, id: Id, depth: nat, state: State)
    requires Closed(heap) && id in heap && heap[id].own.Some? && id !in state.seen && depth < MAX_DEPTH
    ensures var c := Clone(heap, limit, Reference(id), depth, state);
            c.json.Some? && !c.state.truncated ==> Followed(heap, state.seen, c.state.seen) && id in c.state.seen
    decreases MAX_DEPTH - depth, 2
  {
    hide Bounded, CloneKeys, Assigned, Followed;
    var entered, own := state.(seen := state.seen + [id]), heap[id].own.value;
    var list := CloneKeys(heap, limit, heap[id].isArray, own, depth, entered);
    KeysAreFollowed(heap, limit, heap[id].isArray, own, depth, entered);
    if list.entries.Some? && !list.state.truncated {
      OwnLinksFollowed(heap, id, state.seen, list.state.seen);
    }
  }

  lemma OwnLinksFollowed(heap: Heap, id: Id, before: seq<Id>, after: seq<Id>)
    requires Closed(heap) && id in heap && heap[id].own.Some? && Followed(heap, before + [id], after)
    requires forall p | p in heap[id].own.value && p.what.Data? && p.what.value.Reference? :: p.what.value.id in after
    ensures Followed(heap, before, after) && id in after
  {
    assert id in before + [id];
    forall x, next | x in after && x !in before && x in heap && next in Links(heap, x) ensures next in after {
      if x == id {
        var p :| p in heap[id].own.value && p.what == Data(Reference(next));
      }
    }
  }

  lemma {:induction false} KeysAreFollowed(
      heap: Heap, limit: nat, isArray: bool, keys: seq<Property>, depth: nat, state: State)
    requires Closed(heap) && depth < MAX_DEPTH
    requires forall p | p in keys && p.what.Data? && p.what.value.Reference? :: p.what.value.id in heap
    ensures var list := CloneKeys(heap, limit, isArray, keys, depth, state);
            list.entries.Some? && !list.state.truncated ==>
              && Followed(heap, state.seen, list.state.seen)
              && forall p | p in keys && p.what.Data? && p.what.value.Reference? :: p.what.value.id in list.state.seen
    decreases MAX_DEPTH - depth, 1, |keys|
  {
    hide Bounded, Clone, Throws, Followed;
    NothingToFollow(heap, state.seen);
    if keys != [] && state.entries < MAX_ENTRIES {
      var counted := state.(entries := state.entries + 1);
      var one := CloneProperty(heap, limit, keys[0], depth, counted);
      if keys[0].what.Data? {
        LinksAreFollowed(heap, limit, keys[0].what.value, depth + 1, counted);
      }
      Grows(heap, limit, isArray, keys[1..], depth, one.state);
      KeysAreFollowed(heap, limit, isArray, keys[1..], depth, one.state);
      var list := CloneKeys(heap, limit, isArray, keys, depth, state);
      if list.entries.Some? && !list.state.truncated {
        FollowedTwice(heap, state.seen, one.state.seen, list.state.seen);
        assert forall p | p in keys :: p == keys[0] || p in keys[1..];
      }
    }
  }

  lemma NothingToFollow(heap: Heap, seen: seq<Id>)
    ensures Followed(heap, seen, seen)
  {
  }

  /** The objects a value leads to, itself included. */
  ghost function ReachOf(heap: Heap, value: Value): set<Id> {
    if value.Reference? then Reach(heap, value.id) else {}
  }

  lemma EnteredIsTheReach(heap: Heap, limit: nat, value: Value)
    requires Closed(heap) && (value.Reference? ==> value.id in heap)
    ensures var c := Clone(heap, limit, value, 0, State([], 0, false));
            c.json.Some? && !c.state.truncated ==> forall id :: id in c.state.seen <==> id in ReachOf(heap, value)
  {
    hide Clone;
    var c := Clone(heap, limit, value, 0, State([], 0, false));
    if value.Reference? {
      RootIsReached(heap, value.id);
      EnteredAreReached(heap, limit, value, 0, State([], 0, false), value.id);
      LinksAreFollowed(heap, limit, value, 0, State([], 0, false));
      if c.json.Some? && !c.state.truncated {
        var entered := set id | id in c.state.seen;
        ClosedSetHoldsReach(heap, value.id, entered);
        assert forall id | id in Reach(heap, value.id) :: id in entered;
      }
    } else {
      LeavesEnterNothing(heap, limit, value);
    }
  }

  lemma LeavesEnterNothing(heap: Heap, limit: nat, value: Value)
    requires Closed(heap) && !value.Reference?
    ensures Clone(heap, limit, value, 0, State([], 0, false)).state.seen == []
  {
  }

  /** Nothing in reach of the value spoils its copy, nor a text of its own. */
  ghost predicate Unharmed(heap: Heap, value: Value, exact: bool) {
    && (forall id | id in ReachOf(heap, value) :: !Spoils(heap, exact, id))
    && (exact ==> ValueFits(value))
  }

  /**
   * A copy is whole exactly when it is not reported truncated and no object in reach
   * shows two equal keys or a key `__proto__`; and exact when, besides, no key, symbol
   * or function name in reach is cut.
   */
  lemma WholeExactly(heap: Heap, limit: nat, value: Value, exact: bool)
    requires Closed(heap) && (value.Reference? ==> value.id in heap)
    ensures var c := Clone(heap, limit, value, 0, State([], 0, false));
            c.json.Some? ==>
              (Mirrored(heap, value, c.json.value, [], exact).Some?
               <==> !c.state.truncated && Unharmed(heap, value, exact))
  {
    hide Clone, Mirrored, Spoils, ReachOf, ValueFits;
    CloneIsJudged(heap, limit, value, 0, State([], 0, false), exact);
    EnteredIsTheReach(heap, limit, value);
    var seen := Clone(heap, limit, value, 0, State([], 0, false)).state.seen;
    assert seen[0..] == seen;
  }

  lemma LastOfTwo(key: Text, first: Json, second: Json)
    requires key != PROTO
    ensures Assigned(Done, Entry(key, first, Entry(key, second, Done))) == Entry(key, second, Done)
  {
    var later := Entry(key, second, Done);
    assert Assigned(Done, Entry(key, first, later)) == Assigned(Entry(key, first, Done), later);
    assert Assigned(Entry(key, first, Done), later) == Assigned(later, Done);
  }

  lemma CloneOfRoot(heap: Heap, limit: nat, keys: seq<Property>, list: Entries, after: State)
    requires Closed(heap) && 0 in heap && heap[0] == Object(false, Some(keys), true)
    requires CloneKeys(heap, limit, false, keys, 0, State([0], 0, false)) == Listed(Some(list), after)
    ensures Clone(heap, limit, Reference(0), 0, State([], 0, false))
        == Cloned(Some(Node(false, Assigned(Done, list))), after)
  {
    hide CloneKeys;
    assert [] + [0] == [0];
  }

  /** Two keys that show alike leave the later value alone, and nothing is reported. */
  lemma AlikeKeysLoseAValue(key: Text, first: Text, second: Text, limit: nat)
    requires Utf8Bytes(key) <= MAX_KEY && key != PROTO
    ensures var own := [Property(key, Data(BigInt(first))), Property(key, Data(BigInt(second)))];
            var heap := map[0 := Object(false, Some(own), true)];
            Closed(heap)
            && Clone(heap, limit, Reference(0), 0, State([], 0, false))
               == Cloned(Some(Node(false, Entry(key, Suffixed(second), Done))), State([0], 2, false))
  {
    hide Utf8Bytes, Bounded;
    BoundedIsTheLongestPrefix(key, MAX_KEY, 0);
    var one, two := Property(key, Data(BigInt(first))), Property(key, Data(BigInt(second)));
    var heap := map[0 := Object(false, Some([one, two]), true)];
    var entered := State([0], 0, false);
    assert [one, two][1..] == [two] && [two][1..] == [];
    assert CloneKeys(heap, limit, false, [], 0, State([0], 2, false)) == Listed(Some(Done), State([0], 2, false));
    assert CloneKeys(heap, limit, false, [two], 0, State([0], 1, false))
        == Listed(Some(Entry(key, Suffixed(second), Done)), State([0], 2, false));
    var list := Entry(key, Suffixed(first), Entry(key, Suffixed(second), Done));
    assert CloneKeys(heap, limit, false, [one, two], 0, entered) == Listed(Some(list), State([0], 2, false));
    LastOfTwo(key, Suffixed(first), Suffixed(second));
    CloneOfRoot(heap, limit, [one, two], list, State([0], 2, false));
  }

  /** An own property `__proto__` vanishes, and nothing is reported. */
  lemma ProtoIsLost(digits: Text, limit: nat)
    ensures var heap := map[0 := Object(false, Some([Property(PROTO, Data(BigInt(digits)))]), true)];
            Closed(heap)
            && Clone(heap, limit, Reference(0), 0, State([], 0, false))
                == Cloned(Some(Node(false, Done)), State([0], 1, false))
  {
    hide Bounded;
    var p := Property(PROTO, Data(BigInt(digits)));
    var heap := map[0 := Object(false, Some([p]), true)];
    ProtoFits();
    assert [p][1..] == [];
    assert CloneKeys(heap, limit, false, [p], 0, State([0], 0, false))
        == Listed(Some(Entry(PROTO, Suffixed(digits), Done)), State([0], 1, false));
    assert Assigned(Done, Entry(PROTO, Suffixed(digits), Done)) == Assigned(Done, Done);
  }

  lemma ProtoFits()
    ensures Bounded(PROTO, MAX_KEY) == PROTO
  {
    BytesPerUnit(PROTO, 0);
    BoundedIsTheLongestPrefix(PROTO, MAX_KEY, 0);
  }

  lemma {:induction false} BytesPerUnit(text: Text, i: nat)
    requires i <= |text|
    ensures BytesFrom(text, i) <= 4 * (|text| - i)
    decreases |text| - i
  {
    if i < |text| {
      WidthAt(text, i);
      BytesPerUnit(text, i + Width(PointAt(text, i)));
    }
  }

  lemma LongKeysAreNotProto(key: Text)
    requires Utf8Bytes(key) > MAX_KEY
    ensures Bounded(key, MAX_KEY) != PROTO
  {
    if Bounded(key, MAX_KEY) == PROTO {
      BoundedIsTheLongestPrefix(key, MAX_KEY, 0);
      var end := |PROTO|;
      assert |key| > end by { BytesPerUnit(key, 0); }
      var j := end + Width(PointAt(key, end));
      NextIsAligned(key, end);
      BytesPerUnit(key[..j], 0);
      BoundedIsTheLongestPrefix(key, MAX_KEY, j);
    }
  }

  /** A key too long for its limit is cut without the copy being reported truncated. */
  lemma KeysAreCutSilently(key: Text)
    requires Utf8Bytes(key) > MAX_KEY
    ensures var heap := map[0 := Object(false, Some([Property(key, Data(Null))]), true)];
            Closed(heap) &&
            var c := Clone(heap, MAX_TEXT, Reference(0), 0, State([], 0, false));
            && !c.state.truncated && c.json.Some? && c.json.value.Node? && c.json.value.entries.Entry?
            && c.json.value.entries.key != key && Utf8Bytes(c.json.value.entries.key) <= MAX_KEY
  {
    hide Utf8Bytes, Bounded;
    BoundedIsTheLongestPrefix(key, MAX_KEY, 0);
    LongKeysAreNotProto(key);
    var p := Property(key, Data(Null));
    var heap := map[0 := Object(false, Some([p]), true)];
    assert [p][1..] == [];
    var list := Entry(Bounded(key, MAX_KEY), Primitive(Null), Done);
    assert CloneKeys(heap, MAX_TEXT, false, [p], 0, State([0], 0, false)) == Listed(Some(list), State([0], 1, false));
    assert Assigned(Done, list) == Assigned(list, Done);
  }

  /** What JSON.stringify does with a copy: it may throw, or give nothing. */
  datatype Rendered = Thrown | Nothing | Printed(text: Text)

  const UNSERIALIZABLE: Text := [34, 91, 85, 110, 115, 101, 114, 105, 97, 108, 105, 122, 97, 98, 108, 101, 93, 34]
  const UNDEFINED: Text := [34, 91, 117, 110, 100, 101, 102, 105, 110, 101, 100, 93, 34]

  function TextOf(rendered: Rendered): Text {
    match rendered
    case Thrown => UNSERIALIZABLE
    case Nothing => UNDEFINED
    case Printed(text) => text
  }

  /** The text before it is cut: an exception in the copy counts as one of JSON.stringify. */
  function WholeText(json: Option<Json>, render: Json -> Rendered): Text {
    TextOf(if json == None then Thrown else render(json.value))
  }

  /** After i keys, the remaining ones complete `output` to what all keys leave. */
  ghost predicate Copies(heap: Heap, limit: nat, isArray: bool, keys: seq<Property>, depth: nat, start: State, i: nat,
                         output: Entries, now: State)
    requires Closed(heap) && depth < MAX_DEPTH && i <= |keys|
    requires forall p | p in keys && p.what.Data? && p.what.value.Reference? :: p.what.value.id in heap
  {
    var whole := CloneKeys(heap, limit, isArray, keys, depth, start);
    var rest := CloneKeys(heap, limit, isArray, keys[i..], depth, now);
    && whole.state == rest.state
    && (whole.entries == None <==> rest.entries == None)
    && (whole.entries.Some? ==> Assigned(Done, whole.entries.value) == Assigned(output, rest.entries.value))
  }

  lemma CopiesNone(heap: Heap, limit: nat, isArray: bool, keys: seq<Property>, depth: nat, start: State)
    requires Closed(heap) && depth < MAX_DEPTH
    requires forall p | p in keys && p.what.Data? && p.what.value.Reference? :: p.what.value.id in heap
    ensures Copies(heap, limit, isArray, keys, depth, start, 0, Done, start)
  {
    assert keys[0..] == keys;
  }

  /** What the loop over the own keys leaves behind. */
  ghost predicate Leaves(heap: Heap, limit: nat, isArray: bool, keys: seq<Property>, depth: nat, start: State,
                         output: Option<Entries>, now: State)
    requires Closed(heap) && depth < MAX_DEPTH
    requires forall p | p in keys && p.what.Data? && p.what.value.Reference? :: p.what.value.id in heap
  {
    var list := CloneKeys(heap, limit, isArray, keys, depth, start);
    && now == list.state
    && output == if list.entries == None then None else Some(Assigned(Done, list.entries.value))
  }

  lemma CopiesAll(heap: Heap, limit: nat, isArray: bool, keys: seq<Property>, depth: nat, start: State,
                  output: Entries, now: State)
    requires Closed(heap) && depth < MAX_DEPTH
    requires forall p | p in keys && p.what.Data? && p.what.value.Reference? :: p.what.value.id in heap
    requires Copies(heap, limit, isArray, keys, depth, start, |keys|, output, now)
    ensures Leaves(heap, limit, isArray, keys, depth, start, Some(output), now)
  {
    assert keys[|keys|..] == [];
  }

  lemma CopiesOneMore(heap: Heap, limit: nat, isArray: bool, keys: seq<Property>, depth: nat, start: State, i: nat,
                      output: Entries, now: State)
    requires Closed(heap) && depth < MAX_DEPTH && i < |keys|
    requires forall p | p in keys && p.what.Data? && p.what.value.Reference? :: p.what.value.id in heap
    requires Copies(heap, limit, isArray, keys, depth, start, i, output, now)
    ensures keys[i] in keys
    ensures now.entries >= MAX_ENTRIES ==>
      Leaves(heap, limit, isArray, keys, depth, start, Some(output), now.(truncated := true))
    ensures now.entries < MAX_ENTRIES ==>
      var one := CloneProperty(heap, limit, keys[i], depth, now.(entries := now.entries + 1));
      var key := Shown(keys[i]);
      if one.json == None || Throws(isArray, key, one.json.value) then
        Leaves(heap, limit, isArray, keys, depth, start, None, one.state)
      else
        Copies(heap, limit, isArray, keys, depth, start, i + 1, Assign(output, key, one.json.value), one.state)
  {
    hide Closed, Clone, Assign, Shown, Throws;
    assert keys[i..][0] == keys[i] && keys[i..][1..] == keys[i + 1..];
  }

  /** The closure of `serialize`: three variables shared by the recursion. */
  class Serializer {
    const heap: Heap
    const limit: nat
    var seen: seq<Id>
    var entries: nat
    var truncated: bool

    function Now(): State
      reads this
    {
      State(seen, entries, truncated)
    }

    constructor (heap: Heap, limit: nat)
      ensures this.heap == heap && this.limit == limit && Now() == State([], 0, false)
    {
      this.heap, this.limit := heap, limit;
      seen, entries, truncated := [], 0, false;
    }

    /** None: an exception leaves the call. */
    method CloneValue(candidate: Value, depth: nat) returns (json: Option<Json>)
      requires Closed(heap) && (candidate.Reference? ==> candidate.id in heap)
      requires depth <= MAX_DEPTH
      modifies this
      ensures Cloned(json, Now()) == Clone(heap, limit, candidate, depth, old(Now()))
      decreases MAX_DEPTH - depth, 1
    {
      hide Bounded, CloneKeys, Assigned;
      match candidate
      case Null | Flag(_) | Numeric(_, _) => return Some(Primitive(candidate));
      case Words(text) =>
        var result := BoundedText(Some(text), Min(limit, MAX_TEXT));
        if result != text {
          truncated := true;
        }
        return Some(Copied(result));
      case BigInt(digits) => return Some(Suffixed(digits));
      case Undefined => return Some(Mark("[undefined]"));
      case Symbol(shown) =>
        var result := BoundedText(Some(shown), MAX_KEY);
        return Some(Copied(result));
      case Callable(name) =>
        if name.NameThrows? {
          return None;
        }
        var result := BoundedText(Some(NameOf(name)), MAX_NAME);
        return Some(Function(result));
      case Reference(id) =>
        if depth >= MAX_DEPTH {
          truncated := true;
          return Some(Mark("[MaxDepth]"));
        }
        if id in seen {
          return Some(Mark("[Circular]"));
        }
        seen := seen + [id];
        if heap[id].own == None {
          return Some(Mark("[Uninspectable]"));
        }
        var output := CloneOwn(heap[id].isArray, heap[id].own.value, depth);
        return if output == None then None else Some(Node(heap[id].isArray, output.value));
    }

    /** The loop over the own keys of one object; None when an exception leaves it. */
    method CloneOwn(isArray: bool, keys: seq<Property>, depth: nat) returns (output: Option<Entries>)
      requires Closed(heap) && depth < MAX_DEPTH
      requires forall p | p in keys && p.what.Data? && p.what.value.Reference? :: p.what.value.id in heap
      modifies this
      ensures Leaves(heap, limit, isArray, keys, depth, old(Now()), output, Now())
      decreases MAX_DEPTH - depth, 0
    {
      hide Closed, Clone, CloneKeys, Copies, Leaves, Throws, Assign, Bounded;
      var properties := Done;
      ghost var start := Now();
      CopiesNone(heap, limit, isArray, keys, depth, start);
      for i := 0 to |keys|
        invariant Copies(heap, limit, isArray, keys, depth, start, i, properties, Now())
      {
        CopiesOneMore(heap, limit, isArray, keys, depth, start, i, properties, Now());
        if entries >= MAX_ENTRIES {
          truncated := true;
          return Some(properties);
        }
        entries := entries + 1;
        var key := BoundedText(Some(keys[i].key), MAX_KEY);
        var json: Option<Json>;
        match keys[i].what {
          case Missing => json := Some(Mark("[Unavailable]"));
          case Accessor => json := Some(Mark("[Accessor not invoked]"));
          case Data(value) => json := CloneValue(value, depth + 1);
        }
        if json == None || Throws(isArray, key, json.value) {
          return None;
        }
        properties := Assign(properties, key, json.value);
      }
      CopiesAll(heap, limit, isArray, keys, depth, start, properties, Now());
      return Some(properties);
    }

    /**
     * `render` is JSON.stringify. The text fits the limit. Reported uncut and with nothing
     * spoiled in the reach of the value, it is the whole text of a whole copy, and the
     * other way round; exact copies are those in which no text is cut either.
     */
    method Serialize(value: Value, render: Json -> Rendered) returns (text: Text, cut: bool)
      requires Closed(heap) && (value.Reference? ==> value.id in heap)
      requires Now() == State([], 0, false)
      modifies this
      ensures var c := Clone(heap, limit, value, 0, State([], 0, false));
              var whole := WholeText(c.json, render);
              && Utf8Bytes(text) <= limit && text == Bounded(whole, limit)
              && (cut <==> c.state.truncated || text != whole)
              && (c.json.Some? ==>
                  forall exact ::
                    (!cut && Unharmed(heap, value, exact)
                     <==> Mirrored(heap, value, c.json.value, [], exact).Some? && text == whole))
    {
      hide Clone, Mirrored, Bounded, Utf8Bytes, Unharmed;
      var json := CloneValue(value, 0);
      forall exact {
        WholeExactly(heap, limit, value, exact);
      }
      var whole := if json == None then UNSERIALIZABLE else TextOf(render(json.value));
      BoundedIsTheLongestPrefix(whole, limit, 0);
      var byteLength := CountUtf8(whole);
      text := BoundedText(Some(whole), limit);
      cut := truncated || byteLength > limit;
    }
  }
}
