/**
 * Where `serialize` in apps/research-ui/analyst_runner_core.js cuts and where it throws:
 * strings by their size, objects by their depth and their number of keys.
 */
module SerializerCases {
  import opened Outcomes
  import opened AnalystText
  import opened ObjectGraph
  import opened AnalystRunner

  // The fixed texts, as characters.

  function Spelled(s: string): Text
    requires forall i | 0 <= i < |s| :: s[i] as int < 128
  {
    seq(|s|, i requires 0 <= i < |s| => s[i] as int)
  }

  /** What stands for a copy that threw, and for a value JSON has no text for. */
  lemma FixedTexts(json: Json, render: Json -> Rendered)
    ensures WholeText(None, render) == Spelled("\"[Unserializable]\"")
    ensures render(json) == Thrown ==> WholeText(Some(json), render) == Spelled("\"[Unserializable]\"")
    ensures render(json) == Nothing ==> WholeText(Some(json), render) == Spelled("\"[undefined]\"")
    ensures render(json).Printed? ==> WholeText(Some(json), render) == render(json).text
    ensures NameOf(Nameless) == Spelled("anonymous") && PROTO == Spelled("__proto__") && LENGTH == Spelled("length")
  {
  }

  // Strings.

  /** A string keeps what fits the limit, at most 8192 bytes, and is reported exactly when that is not all. */
  lemma StringsAreCut(heap: Heap, limit: nat, text: Text, depth: nat, state: State)
    requires Closed(heap) && depth <= 8
    ensures var most := if limit < 8192 then limit else 8192;
            var c := Clone(heap, limit, Words(text), depth, state);
            && c.json == Some(Copied(Bounded(text, most)))
            && c.state == state.(truncated := state.truncated || Utf8Bytes(text) > most)
  {
    var most := if limit < 8192 then limit else 8192;
    BoundedIsTheLongestPrefix(text, most, 0);
    hide Bounded, Utf8Bytes;
  }

  /** Symbols keep 256 bytes and function names 128, and nothing is reported. */
  lemma NamesAreCut(heap: Heap, limit: nat, shown: Text, depth: nat, state: State)
    requires Closed(heap) && depth <= 8
    ensures Clone(heap, limit, Symbol(shown), depth, state) == Cloned(Some(Copied(Bounded(shown, 256))), state)
    ensures Clone(heap, limit, Callable(Named(shown)), depth, state)
         == Cloned(Some(Function(Bounded(shown, 128))), state)
    ensures Clone(heap, limit, Callable(NameThrows), depth, state) == Cloned(None, state)
  {
    hide Bounded;
  }

  /** What being cut in no text means: keys and symbols within 256 bytes, function names within 128. */
  lemma FitsExactly(key: Text, shown: Text, what: Descriptor)
    ensures ValueFits(Symbol(shown)) <==> Utf8Bytes(shown) <= 256
    ensures ValueFits(Callable(Named(shown))) <==> Utf8Bytes(shown) <= 128
    ensures PropertyFits(Property(key, what))
       <==> Utf8Bytes(key) <= 256 && (what.Data? ==> ValueFits(what.value))
  {
    BoundedIsTheLongestPrefix(shown, 256, 0);
    BoundedIsTheLongestPrefix(shown, 128, 0);
    BoundedIsTheLongestPrefix(key, 256, 0);
    hide Bounded, Utf8Bytes;
  }

  // Depth.

  function UpTo(n: nat): (ids: seq<Id>)
    ensures |ids| == n && forall i | 0 <= i < n :: ids[i] == i
  {
    seq(n, i => i)
  }

  lemma OfUpTo(n: nat)
    ensures forall id: Id :: id in UpTo(n) <==> id < n
  {
    forall id: Id | id < n ensures id in UpTo(n) {
      assert UpTo(n)[id] == id;
    }
    forall id | id in UpTo(n) ensures id < n {
      var i :| 0 <= i < n && UpTo(n)[i] == id;
    }
  }

  /** Objects each holding the next one under one key; the last holds null. */
  function Chain(key: Text, n: nat): (heap: Heap)
    ensures Closed(heap) && forall id: Id :: id in heap <==> id < n
  {
    OfUpTo(n);
    map id | id in UpTo(n) ::
      Object(false, Some([Property(key, Data(if id + 1 < n then Reference(id + 1) else Null))]), true)
  }

  /** From the object at depth i on. */
  lemma {:induction false} ChainFrom(key: Text, n: nat, limit: nat, i: nat)
    requires Bounded(key, MAX_KEY) != PROTO && i < n && i <= 8
    ensures var c := Clone(Chain(key, n), limit, Reference(i), i, State(UpTo(i), i, false));
            && c.json.Some? && c.state.truncated == (n > 8)
            && Height(c.json.value) == (if n < 8 then n else 8) - i
    decreases n - i
  {
    hide Bounded;
    var heap := Chain(key, n);
    assert i !in UpTo(i) && UpTo(i) + [i] == UpTo(i + 1);
    if i < 8 {
      var value := if i + 1 < n then Reference(i + 1) else Null;
      var p := Property(key, Data(value));
      var entered := State(UpTo(i + 1), i, false);
      assert heap[i].own == Some([p]);
      if i + 1 < n {
        ChainFrom(key, n, limit, i + 1);
      }
      var one := Clone(heap, limit, value, i + 1, State(UpTo(i + 1), i + 1, false));
      assert one.json.Some? && one.state.truncated == (n > 8);
      OneKey(heap, limit, p, i, entered);
    }
  }

  /** An object with one key holds the copy of its value. */
  lemma OneKey(heap: Heap, limit: nat, p: Property, depth: nat, state: State)
    requires Closed(heap) && depth < 8 && state.entries < 512 && Bounded(p.key, MAX_KEY) != PROTO
    requires p.what.Data? && (p.what.value.Reference? ==> p.what.value.id in heap)
    requires Clone(heap, limit, p.what.value, depth + 1, state.(entries := state.entries + 1)).json.Some?
    ensures var one := Clone(heap, limit, p.what.value, depth + 1, state.(entries := state.entries + 1));
            var list := CloneKeys(heap, limit, false, [p], depth, state);
            && list == Listed(Some(Entry(Bounded(p.key, MAX_KEY), one.json.value, Done)), one.state)
            && Assigned(Done, list.entries.value) == list.entries.value
            && HeightOf(list.entries.value) == Height(one.json.value)
  {
    hide Bounded, Clone;
    var one := Clone(heap, limit, p.what.value, depth + 1, state.(entries := state.entries + 1));
    var key := Bounded(p.key, MAX_KEY);
    assert [p][1..] == [];
    assert CloneKeys(heap, limit, false, [], depth, one.state) == Listed(Some(Done), one.state);
    var list := Entry(key, one.json.value, Done);
    assert Assigned(Done, list) == Assigned(Assign(Done, key, one.json.value), Done);
  }

  /** Of nested objects eight are copied, and a ninth is reported. */
  lemma EightDeep(key: Text, n: nat, limit: nat)
    requires Bounded(key, MAX_KEY) != PROTO && n > 0
    ensures var c := Clone(Chain(key, n), limit, Reference(0), 0, State([], 0, false));
            && c.json.Some? && Height(c.json.value) == (if n < 8 then n else 8) && (c.state.truncated <==> n > 8)
  {
    hide Bounded, Clone, Height, Chain;
    assert UpTo(0) == [];
    ChainFrom(key, n, limit, 0);
  }

  // Keys.

  /** Of own keys 512 are copied over the whole graph, and a key more is reported. */
  lemma {:induction false} KeysAreCounted(heap: Heap, limit: nat, keys: seq<Property>, depth: nat, state: State)
    requires Closed(heap) && depth < 8 && state.entries <= 512
    requires forall p | p in keys :: p.what == Data(Null)
    ensures var room := 512 - state.entries;
            var list := CloneKeys(heap, limit, false, keys, depth, state);
            var kept := if |keys| < room then |keys| else room;
            && list.entries.Some? && KeysOf(list.entries.value) == ShownKeys(keys[..kept])
            && list.state
                 == state.(entries := state.entries + kept, truncated := state.truncated || |keys| > room)
    decreases |keys|
  {
    hide Bounded;
    if keys != [] && state.entries < 512 {
      var counted := state.(entries := state.entries + 1);
      assert CloneProperty(heap, limit, keys[0], depth, counted) == Cloned(Some(Primitive(Null)), counted);
      KeysAreCounted(heap, limit, keys[1..], depth, counted);
      var room := 512 - state.entries;
      var kept := if |keys| < room then |keys| else room;
      assert keys[..kept][1..] == keys[1..][..kept - 1];
    } else {
      assert ShownKeys(keys[..0]) == [];
    }
  }

  // Exceptions.

  /** No function's name throws, and what an array shows as its length is one. */
  ghost predicate Ordinary(heap: Heap) {
    forall id, p | id in heap && heap[id].own.Some? && p in heap[id].own.value ::
      && p.what != Data(Callable(NameThrows))
      && (heap[id].isArray && Shown(p) == LENGTH ==>
            p.what.Data? && p.what.value.Numeric? && p.what.value.length)
  }

  /** Nothing else throws: every value of an ordinary graph is copied. */
  lemma {:induction false} OrdinaryIsCopied(heap: Heap, limit: nat, value: Value, depth: nat, state: State)
    requires Closed(heap) && Ordinary(heap) && depth <= 8 && (value.Reference? ==> value.id in heap)
    requires value != Callable(NameThrows)
    ensures Clone(heap, limit, value, depth, state).json.Some?
    decreases 8 - depth, 2, 0
  {
    hide Bounded;
    if value.Reference? && depth < 8 && value.id !in state.seen && heap[value.id].own.Some? {
      var entered := state.(seen := state.seen + [value.id]);
      OrdinaryKeys(heap, limit, value.id, heap[value.id].own.value, depth, entered);
    }
  }

  lemma {:induction false} OrdinaryKeys(heap: Heap, limit: nat, id: Id, keys: seq<Property>, depth: nat, state: State)
    requires Closed(heap) && Ordinary(heap) && depth < 8 && id in heap && heap[id].own.Some?
    requires forall p | p in keys :: p in heap[id].own.value
    ensures CloneKeys(heap, limit, heap[id].isArray, keys, depth, state).entries.Some?
    decreases 8 - depth, 1, |keys|
  {
    hide Bounded;
    if keys != [] && state.entries < 512 {
      var p, counted := keys[0], state.(entries := state.entries + 1);
      if p.what.Data? {
        OrdinaryIsCopied(heap, limit, p.what.value, depth + 1, counted);
      }
      var one := CloneProperty(heap, limit, p, depth, counted);
      NoThrow(heap, limit, id, p, depth, counted);
      OrdinaryKeys(heap, limit, id, keys[1..], depth, one.state);
    }
  }

  lemma NoThrow(heap: Heap, limit: nat, id: Id, p: Property, depth: nat, state: State)
    requires Closed(heap) && Ordinary(heap) && depth < 8 && id in heap && heap[id].own.Some?
    requires p in heap[id].own.value && CloneProperty(heap, limit, p, depth, state).json.Some?
    ensures !Throws(heap[id].isArray, Shown(p), CloneProperty(heap, limit, p, depth, state).json.value)
  {
    hide Bounded;
  }

  /** An array whose length is a text is not copied. */
  lemma StrangeLengthsThrow(heap: Heap, limit: nat, id: Id, rest: seq<Property>, text: Text)
    requires Closed(heap) && id in heap && heap[id].isArray
    requires heap[id].own == Some([Property(LENGTH, Data(Words(text)))] + rest)
    ensures Clone(heap, limit, Reference(id), 0, State([], 0, false)).json == None
  {
    var keys, entered := heap[id].own.value, State([id], 0, false);
    StringsAreCut(heap, limit, text, 1, entered.(entries := 1));
    LengthIsKept();
    var one := CloneProperty(heap, limit, keys[0], 0, entered.(entries := 1));
    assert one.json.Some? && one.json.value.Copied? && Shown(keys[0]) == LENGTH;
    hide Bounded, Clone, CloneProperty, Shown, CloneKeys;
    assert Throws(true, LENGTH, one.json.value);
    FirstThrows(heap, limit, true, keys, 0, entered);
    assert [] + [id] == [id];
    ThrowingKeys(heap, limit, id, State([], 0, false));
  }

  lemma FirstThrows(heap: Heap, limit: nat, isArray: bool, keys: seq<Property>, depth: nat, state: State)
    requires Closed(heap) && depth < 8 && keys != [] && state.entries < 512
    requires forall p | p in keys && p.what.Data? && p.what.value.Reference? :: p.what.value.id in heap
    requires var one := CloneProperty(heap, limit, keys[0], depth, state.(entries := state.entries + 1));
             one.json.Some? && Throws(isArray, Shown(keys[0]), one.json.value)
    ensures CloneKeys(heap, limit, isArray, keys, depth, state).entries == None
  {
    hide CloneProperty, Throws, Shown;
  }

  lemma ThrowingKeys(heap: Heap, limit: nat, id: Id, state: State)
    requires Closed(heap) && id in heap && id !in state.seen && heap[id].own.Some?
    requires CloneKeys(heap, limit, heap[id].isArray, heap[id].own.value, 0, state.(seen := state.seen + [id])).entries
          == None
    ensures Clone(heap, limit, Reference(id), 0, state).json == None
  {
    hide CloneKeys;
  }

  lemma LengthIsKept()
    ensures Bounded(LENGTH, MAX_KEY) == LENGTH
  {
    BytesPerUnit(LENGTH, 0);
    BoundedIsTheLongestPrefix(LENGTH, MAX_KEY, 0);
  }
}
