/**
 * The bounded recorder behind the owned fixture (src/analysis/native_vm_recorder.cpp,
 * include/reb/native_vm_recorder.hpp).
 */
module NativeRecorder {
  import opened OwnedVm

  const MAX_RECORDS: nat := 64
  const MAX_U64: nat := 0xFFFF_FFFF_FFFF_FFFF

  datatype RecordResult = Recorded | StaleGeneration | Exhausted | Disabled | Expired | WrongDocument | Malformed | Full
  datatype Scope = Scope(session: nat, document: nat, invocation: nat, expiresAt: nat)
  datatype Entry = Entry(sequence: nat, tick: nat, step: Instruction)
  datatype Stats = Stats(attempted: nat, recorded: nat, full: nat, malformed: nat, wrongDocument: nat,
                         staleGeneration: nat, exhausted: nat, expired: nat, partial: nat)
  datatype Recorder = Recorder(entries: seq<Entry>, stats: Stats, scope: Scope, capacity: nat,
                               lastTick: nat, generation: nat, enabled: bool)

  const NO_SCOPE := Scope(0, 0, 0, 0)
  const NO_STATS := Stats(0, 0, 0, 0, 0, 0, 0, 0, 0)

  /** Counters stop at the largest uint64 instead of wrapping. */
  function Advance(counter: nat): nat {
    if counter == MAX_U64 then counter else counter + 1
  }

  predicate ValidValue(v: Value) { v.evidence != Unknown || v.bits == 0 }

  /** Active slots hold consistent values, unused storage holds nothing, addresses are distinct. */
  predicate ValidSnapshot(s: Snapshot)
    requires Shaped(s)
  {
    && (s.pcEvidence == Unknown ==> s.pc == 0)
    && s.registerCount <= SLOTS && s.stackCount <= SLOTS && s.memoryCount <= SLOTS
    && (forall i | 0 <= i < SLOTS ::
          && ValidValue(s.registers[i]) && ValidValue(s.stack[i]) && ValidValue(s.memory[i].value)
          && (i >= s.registerCount ==> s.registers[i] == NO_VALUE)
          && (i >= s.stackCount ==> s.stack[i] == NO_VALUE)
          && (i >= s.memoryCount ==> s.memory[i] == NO_CELL))
    && (forall i, j | 0 <= j < i < s.memoryCount :: s.memory[j].address != s.memory[i].address)
  }

  predicate ValidPlace(place: Place, index: nat) {
    match place
    case Immediate => index == 0
    case Registers => index < SLOTS
    case StackSlots => index < SLOTS
    case Memory => true
  }

  predicate ValidOperand(o: Operand) { ValidPlace(o.place, o.index) && ValidValue(o.value) }

  predicate ValidEffect(e: Effect) { !e.place.Immediate? && ValidPlace(e.place, e.index) && ValidValue(e.value) }

  predicate ShapedStep(step: Instruction) {
    Shaped(step.before) && Shaped(step.after) && |step.operands| == MAX_OPERANDS && |step.effects| == MAX_EFFECTS
  }

  predicate ValidStep(step: Instruction)
    requires ShapedStep(step)
  {
    && (step.opcodeEvidence == Unknown ==> step.opcode == 0)
    && step.operandCount <= MAX_OPERANDS && step.effectCount <= MAX_EFFECTS
    && ValidSnapshot(step.before) && ValidSnapshot(step.after)
    && (forall i | 0 <= i < MAX_OPERANDS ::
          ValidOperand(step.operands[i]) && (i >= step.operandCount ==> step.operands[i] == NO_OPERAND))
    && (forall i | 0 <= i < MAX_EFFECTS ::
          ValidEffect(step.effects[i]) && (i >= step.effectCount ==> step.effects[i] == NO_EFFECT))
  }

  function Create(capacity: nat): Recorder {
    Recorder([], NO_STATS, NO_SCOPE, if capacity <= MAX_RECORDS then capacity else MAX_RECORDS, 0, 0, false)
  }

  /** The old scope is gone whether or not the new one is taken. */
  function Enable(r: Recorder, scope: Scope, now: nat): (Recorder, bool) {
    var cleared := r.(enabled := false, entries := [], stats := NO_STATS, scope := NO_SCOPE, lastTick := now);
    if r.generation == MAX_U64 then (cleared, false)
    else
      var next := cleared.(generation := r.generation + 1);
      if scope.session == 0 || scope.document == 0 || scope.invocation == 0 || scope.expiresAt <= now then (next, false)
      else (next.(scope := scope, enabled := true), true)
  }

  predicate IsPartial(step: Instruction) { step.partial || step.before.partial || step.after.partial }

  function Record(r: Recorder, document: nat, generation: nat, now: nat, step: Instruction): (Recorder, RecordResult)
    requires ShapedStep(step)
  {
    var stats := r.stats;
    if !r.enabled then (r, Disabled)
    else if generation != r.generation then
      (r.(stats := stats.(staleGeneration := Advance(stats.staleGeneration))), StaleGeneration)
    else if document != r.scope.document then
      (r.(stats := stats.(wrongDocument := Advance(stats.wrongDocument))), WrongDocument)
    else if now >= r.scope.expiresAt || now < r.lastTick then
      (r.(enabled := false, stats := stats.(expired := Advance(stats.expired))), Expired)
    else if stats.attempted == MAX_U64 then
      (r.(lastTick := now, enabled := false, stats := stats.(exhausted := Advance(stats.exhausted))), Exhausted)
    else
      var counted := stats.(attempted := stats.attempted + 1);
      if !ValidStep(step) then
        (r.(lastTick := now, stats := counted.(malformed := Advance(counted.malformed))), Malformed)
      else if |r.entries| == r.capacity then
        (r.(lastTick := now, stats := counted.(full := Advance(counted.full))), Full)
      else
        var kept := counted.(recorded := Advance(counted.recorded));
        (r.(lastTick := now, entries := r.entries + [Entry(counted.attempted, now, step)],
            stats := if IsPartial(step) then kept.(partial := Advance(kept.partial)) else kept), Recorded)
  }

  lemma {:induction false} RegistersAreValid(k: nat)
    requires k < |PCS|
    ensures ValidSnapshot(Expected(Register, k)) && !Expected(Register, k).partial
  {
  }

  lemma {:induction false} StackIsValid(k: nat)
    requires k < |PCS|
    ensures ValidSnapshot(Expected(Stack, k)) && !Expected(Stack, k).partial
  {
  }

  lemma ExpectedIsValid(arch: Architecture, k: nat)
    requires k < |PCS|
    ensures ValidSnapshot(Expected(arch, k)) && !Expected(arch, k).partial
  {
    hide ValidSnapshot, Expected;
    if arch.Register? {
      RegistersAreValid(k);
    } else {
      StackIsValid(k);
    }
  }

  /** What the recorder asks of an instruction's operands and effects. */
  predicate Recordable(d: Decoded) {
    && |d.operands| <= MAX_OPERANDS && |d.effects| <= MAX_EFFECTS
    && (forall i | 0 <= i < |d.operands| :: ValidOperand(d.operands[i]))
    && (forall i | 0 <= i < |d.effects| :: ValidEffect(d.effects[i]))
  }

  lemma {:induction false} RegisterIsRecordable(k: nat)
    requires k < 9
    ensures Decode(Register, Expected(Register, k)).Some? && Recordable(Decode(Register, Expected(Register, k)).value)
  {
  }

  lemma {:induction false} StackIsRecordable(k: nat)
    requires k < 9
    ensures Decode(Stack, Expected(Stack, k)).Some? && Recordable(Decode(Stack, Expected(Stack, k)).value)
  {
  }

  lemma AssembledIsValid(s: Snapshot, d: Decoded)
    requires Shaped(s) && Shaped(d.next) && ValidSnapshot(s) && ValidSnapshot(d.next) && Recordable(d)
    ensures ShapedStep(Assemble(s, d)) && ValidStep(Assemble(s, d))
  {
    var step := Assemble(s, d);
    forall i | 0 <= i < MAX_OPERANDS
      ensures ValidOperand(step.operands[i]) && (i >= step.operandCount ==> step.operands[i] == NO_OPERAND) {
      assert i < |d.operands| ==> step.operands[..|d.operands|][i] == d.operands[i];
    }
    forall i | 0 <= i < MAX_EFFECTS
      ensures ValidEffect(step.effects[i]) && (i >= step.effectCount ==> step.effects[i] == NO_EFFECT) {
      assert i < |d.effects| ==> step.effects[..|d.effects|][i] == d.effects[i];
    }
  }

  /** Every instruction of either program is one the recorder retains. */
  lemma ProgramStepsAreValid(arch: Architecture, k: nat)
    requires k < 9
    ensures StatusOf(Run(arch, k)).Committed?
    ensures ShapedStep(InstructionOf(Run(arch, k))) && ValidStep(InstructionOf(Run(arch, k)))
    ensures !IsPartial(InstructionOf(Run(arch, k)))
    ensures InstructionOf(Run(arch, k)).before == Run(arch, k).state
    ensures InstructionOf(Run(arch, k)).after == Run(arch, k + 1).state
  {
    RunIsExpected(arch, k);
    RunIsExpected(arch, k + 1);
    ExpectedIsValid(arch, k);
    ExpectedIsValid(arch, k + 1);
    if arch.Register? {
      RegisterIsRecordable(k);
      RegisterStep(k);
    } else {
      StackIsRecordable(k);
      StackStep(k);
    }
    AssembledIsValid(Expected(arch, k), Decode(arch, Expected(arch, k)).value);
  }

  // Runs of calls.

  datatype Call =
    | Enabling(scope: Scope, now: nat)
    | Disabling
    | Recording(document: nat, token: nat, now: nat, step: Instruction)

  /** A step is a record of arrays of fixed sizes. */
  predicate ShapedCalls(calls: seq<Call>) { forall c | c in calls && c.Recording? :: ShapedStep(c.step) }

  function Do(r: Recorder, call: Call): Recorder
    requires call.Recording? ==> ShapedStep(call.step)
  {
    match call
    case Enabling(scope, now) => Enable(r, scope, now).0
    case Disabling => r.(enabled := false)
    case Recording(document, token, now, step) => Record(r, document, token, now, step).0
  }

  function RecorderAfter(capacity: nat, calls: seq<Call>): Recorder
    requires ShapedCalls(calls)
  {
    if calls == [] then Create(capacity) else Do(RecorderAfter(capacity, calls[..|calls| - 1]), calls[|calls| - 1])
  }

  predicate Whole(scope: Scope) { scope.session > 0 && scope.document > 0 && scope.invocation > 0 }

  function Partials(entries: seq<Entry>): nat {
    if entries == [] then 0
    else
      var n := |entries| - 1;
      Partials(entries[..n]) + if IsPartial(entries[n].step) then 1 else 0
  }

  /** Every attempt is in one counter, and a valid step is missing for want of room alone. */
  predicate Counts(attempted: nat, recorded: nat, full: nat, malformed: nat, partial: nat,
                   entries: nat, capacity: nat, partials: nat) {
    && attempted == recorded + full + malformed && attempted <= MAX_U64
    && recorded == entries && entries <= capacity <= MAX_RECORDS && (full > 0 ==> entries == capacity)
    && partial == partials && partials <= entries
  }

  ghost predicate Balanced(r: Recorder) {
    var s := r.stats;
    Counts(s.attempted, s.recorded, s.full, s.malformed, s.partial, |r.entries|, r.capacity, Partials(r.entries))
  }

  /** Entries are valid, in the order of attempts and of time, and inside the scope. */
  ghost predicate Ordered(r: Recorder) {
    && (forall i | 0 <= i < |r.entries| ::
          var e := r.entries[i];
          && 1 <= e.sequence <= r.stats.attempted && e.tick <= r.lastTick && e.tick < r.scope.expiresAt
          && ShapedStep(e.step) && ValidStep(e.step))
    && (forall i, j | 0 <= i < j < |r.entries| ::
          r.entries[i].sequence < r.entries[j].sequence && r.entries[i].tick <= r.entries[j].tick)
    && (r.enabled || r.entries != [] ==> Whole(r.scope))
  }

  lemma CountsBalance(attempted: nat, recorded: nat, full: nat, malformed: nat, partial: nat,
                      entries: nat, capacity: nat, partials: nat)
    requires Counts(attempted, recorded, full, malformed, partial, entries, capacity, partials) && attempted < MAX_U64
    ensures Counts(attempted + 1, recorded, full, Advance(malformed), partial, entries, capacity, partials)
    ensures entries == capacity ==>
      Counts(attempted + 1, recorded, Advance(full), malformed, partial, entries, capacity, partials)
    ensures entries < capacity ==>
      && Counts(attempted + 1, Advance(recorded), full, malformed, partial, entries + 1, capacity, partials)
      && Counts(attempted + 1, Advance(recorded), full, malformed, Advance(partial), entries + 1, capacity,
          partials + 1)
  {
  }

  lemma RecordBalances(r: Recorder, document: nat, token: nat, now: nat, step: Instruction)
    requires ShapedStep(step) && Balanced(r)
    ensures Balanced(Record(r, document, token, now, step).0)
  {
    RecordChanges(r, document, token, now, step);
    var next, e := Record(r, document, token, now, step).0, Entry(r.stats.attempted + 1, now, step);
    var s := r.stats;
    hide ValidStep, ShapedStep, IsPartial, Record;
    PartialsMore(r.entries, e);
    if s.attempted < MAX_U64 {
      CountsBalance(s.attempted, s.recorded, s.full, s.malformed, s.partial, |r.entries|, r.capacity,
          Partials(r.entries));
    }
    hide Partials, Counts, Advance;
  }

  /** What one recording does to the counters of attempts and to the entries. */
  ghost predicate Changes(r: Recorder, next: Recorder, e: Entry) {
    var s, t := r.stats, next.stats;
    && next.capacity == r.capacity
    && (next.entries == r.entries || next.entries == r.entries + [e])
    && (|| ((t.attempted, t.recorded, t.full, t.malformed, t.partial)
              == (s.attempted, s.recorded, s.full, s.malformed, s.partial) && next.entries == r.entries)
        || (s.attempted < MAX_U64 && t.attempted == s.attempted + 1
            && (|| ((t.recorded, t.full, t.malformed, t.partial)
                      == (s.recorded, s.full, Advance(s.malformed), s.partial)
                    && next.entries == r.entries)
                || ((t.recorded, t.full, t.malformed, t.partial)
                      == (s.recorded, Advance(s.full), s.malformed, s.partial)
                    && next.entries == r.entries && |r.entries| == r.capacity)
                || ((t.recorded, t.full, t.malformed) == (Advance(s.recorded), s.full, s.malformed)
                    && t.partial == (if IsPartial(e.step) then Advance(s.partial) else s.partial)
                    && next.entries == r.entries + [e] && |r.entries| != r.capacity))))
  }

  lemma RecordChanges(r: Recorder, document: nat, token: nat, now: nat, step: Instruction)
    requires ShapedStep(step) && r.stats.attempted <= MAX_U64
    ensures Changes(r, Record(r, document, token, now, step).0, Entry(r.stats.attempted + 1, now, step))
  {
    hide ValidStep, ShapedStep, IsPartial, Advance;
  }

  lemma PartialsMore(entries: seq<Entry>, e: Entry)
    ensures Partials(entries + [e]) == Partials(entries) + if IsPartial(e.step) then 1 else 0
  {
    hide IsPartial;
    assert (entries + [e])[..|entries|] == entries;
  }

  lemma RecordOrders(r: Recorder, document: nat, token: nat, now: nat, step: Instruction)
    requires ShapedStep(step) && Ordered(r)
    ensures Ordered(Record(r, document, token, now, step).0)
  {
    hide ValidStep, ShapedStep;
  }

  lemma DoKeepsBooks(r: Recorder, call: Call)
    requires call.Recording? ==> ShapedStep(call.step)
    requires Balanced(r) && Ordered(r)
    ensures Balanced(Do(r, call)) && Ordered(Do(r, call))
  {
    assert r.capacity <= MAX_RECORDS;
    hide ValidStep, ShapedStep, Record, Balanced, Ordered;
    match call
    case Enabling(scope, now) => EmptyKeepsBooks(Enable(r, scope, now).0);
    case Disabling => DisabledKeepsBooks(r);
    case Recording(document, token, now, step) =>
      RecordBalances(r, document, token, now, step);
      RecordOrders(r, document, token, now, step);
  }

  lemma DisabledKeepsBooks(r: Recorder)
    requires Balanced(r) && Ordered(r)
    ensures Balanced(r.(enabled := false)) && Ordered(r.(enabled := false))
  {
    hide ValidStep, ShapedStep;
  }

  /** Whatever is called, the counters balance and the entries are in order. */
  lemma {:induction false} RunsKeepBooks(capacity: nat, calls: seq<Call>)
    requires ShapedCalls(calls)
    ensures Balanced(RecorderAfter(capacity, calls)) && Ordered(RecorderAfter(capacity, calls))
  {
    if calls == [] {
      CreatedKeepsBooks(capacity);
    } else {
      hide ValidStep, Do, Balanced, Ordered, ShapedStep;
      var n := |calls| - 1;
      RunsKeepBooks(capacity, calls[..n]);
      DoKeepsBooks(RecorderAfter(capacity, calls[..n]), calls[n]);
    }
  }

  lemma CreatedKeepsBooks(capacity: nat)
    ensures Balanced(Create(capacity)) && Ordered(Create(capacity))
  {
    hide ValidStep, ShapedStep, Ordered, Balanced;
    EmptyKeepsBooks(Create(capacity));
  }

  lemma EmptyKeepsBooks(r: Recorder)
    requires r.entries == [] && r.stats == NO_STATS && (r.enabled ==> Whole(r.scope)) && r.capacity <= MAX_RECORDS
    ensures Balanced(r)
    ensures Ordered(r)
  {
    hide ValidStep, ShapedStep;
  }

  // Who is let in, whatever is then kept.

  /** The latest scope, while it is open, and the recordings it admitted. */
  datatype Session = Session(scope: Scope, generation: nat, open: bool, last: nat, admitted: seq<Call>)

  function Admit(s: Session, call: Call): Session
    requires call.Recording?
  {
    if !s.open || call.token != s.generation || call.document != s.scope.document then s
    else if call.now >= s.scope.expiresAt || call.now < s.last || |s.admitted| == MAX_U64 then s.(open := false)
    else s.(last := call.now, admitted := s.admitted + [call])
  }

  function SessionAfter(calls: seq<Call>): Session {
    if calls == [] then Session(NO_SCOPE, 0, false, 0, [])
    else
      var n := |calls| - 1;
      match calls[n]
      case Enabling(scope, now) =>
        Session(scope, Enablings(calls), Enablings(calls) <= MAX_U64 && Whole(scope) && now < scope.expiresAt, now, [])
      case Disabling => SessionAfter(calls[..n]).(open := false)
      case Recording(_, _, _, _) => Admit(SessionAfter(calls[..n]), calls[n])
  }

  ghost predicate Admissions(calls: seq<Call>) { ShapedCalls(calls) && forall c | c in calls :: c.Recording? }

  /** The valid steps among admitted recordings, each with its place as sequence. */
  function Valids(admitted: seq<Call>): seq<Entry>
    requires Admissions(admitted)
  {
    if admitted == [] then []
    else
      var n := |admitted| - 1;
      Valids(admitted[..n])
      + if ValidStep(admitted[n].step) then [Entry(n + 1, admitted[n].now, admitted[n].step)] else []
  }

  function Min(a: nat, b: nat): nat { if a < b then a else b }

  /** The entries are the first valid admissions there is room for, and the counters count the others. */
  predicate FirstKept(entries: seq<Entry>, attempted: nat, malformed: nat, full: nat,
                      capacity: nat, admitted: nat, valids: seq<Entry>) {
    && entries == valids[..Min(capacity, |valids|)]
    && attempted == admitted <= MAX_U64 && malformed == admitted - |valids| && full == |valids| - |entries|
  }

  ghost predicate Keeps(r: Recorder, s: Session) {
    && Admissions(s.admitted)
    && r.enabled == s.open && (s.open ==> r.scope == s.scope && r.generation == s.generation && r.lastTick == s.last)
    && FirstKept(r.entries, r.stats.attempted, r.stats.malformed, r.stats.full,
                 r.capacity, |s.admitted|, Valids(s.admitted))
  }

  /** The calls behind the latest enabling one. */
  function Window(calls: seq<Call>): seq<Call> {
    if calls == [] then []
    else
      var n := |calls| - 1;
      if calls[n].Enabling? then [] else Window(calls[..n]) + [calls[n]]
  }

  function Enablings(calls: seq<Call>): nat {
    if calls == [] then 0 else Enablings(calls[..|calls| - 1]) + if calls[|calls| - 1].Enabling? then 1 else 0
  }

  predicate IsEntryOf(e: Entry, call: Call, document: nat, generation: nat) {
    call == Recording(document, generation, e.tick, e.step)
  }

  /** The entries, in order, are recordings among the calls with this document and generation. */
  predicate Picked(entries: seq<Entry>, calls: seq<Call>, document: nat, generation: nat)
    decreases |calls|
  {
    entries == []
    || (calls != [] &&
        var n, m := |calls| - 1, |entries| - 1;
        || (IsEntryOf(entries[m], calls[n], document, generation)
            && Picked(entries[..m], calls[..n], document, generation))
        || Picked(entries, calls[..n], document, generation))
  }

  /** A recording adds at most its own entry, and only with the document and generation of the scope. */
  lemma RecordAppends(r: Recorder, document: nat, token: nat, now: nat, step: Instruction)
    requires ShapedStep(step)
    ensures var next := Record(r, document, token, now, step).0;
            && next.scope == r.scope && next.generation == r.generation && (next.enabled ==> r.enabled)
            && (next.entries == r.entries
                || (r.enabled && token == r.generation && document == r.scope.document
                    && exists e: Entry :: e.tick == now && e.step == step && next.entries == r.entries + [e]))
  {
    hide ValidStep, ShapedStep;
  }

  lemma PickedAnyway(entries: seq<Entry>, calls: seq<Call>, call: Call, document: nat, generation: nat)
    requires Picked(entries, calls, document, generation)
    ensures Picked(entries, calls + [call], document, generation)
  {
    assert (calls + [call])[..|calls|] == calls;
  }

  lemma PickedMore(entries: seq<Entry>, e: Entry, calls: seq<Call>, call: Call, document: nat, generation: nat)
    requires Picked(entries, calls, document, generation) && IsEntryOf(e, call, document, generation)
    ensures Picked(entries + [e], calls + [call], document, generation)
  {
    assert (calls + [call])[..|calls|] == calls && (entries + [e])[..|entries|] == entries;
  }

  ghost predicate Belongs(r: Recorder, calls: seq<Call>) {
    && Picked(r.entries, Window(calls), r.scope.document, r.generation)
    && r.generation == (if Enablings(calls) <= MAX_U64 then Enablings(calls) else MAX_U64)
    && (r.enabled || r.entries != [] ==> r.generation == Enablings(calls) > 0)
  }

  /**
   * Every entry is a recording made since the latest enabling, for its document and under
   * its generation, a number no other scope ever had.
   */
  lemma {:induction false} EntriesBelongToTheScope(capacity: nat, calls: seq<Call>)
    requires ShapedCalls(calls)
    ensures Belongs(RecorderAfter(capacity, calls), calls)
  {
    if calls == [] {
      assert Belongs(Create(capacity), []);
    } else {
      hide ValidStep, ShapedStep, Belongs, Do;
      var n := |calls| - 1;
      EntriesBelongToTheScope(capacity, calls[..n]);
      DoBelongs(RecorderAfter(capacity, calls[..n]), calls[..n], calls[n]);
      assert calls == calls[..n] + [calls[n]];
    }
  }

  lemma DoBelongs(r: Recorder, calls: seq<Call>, call: Call)
    requires call.Recording? ==> ShapedStep(call.step)
    requires Belongs(r, calls)
    ensures Belongs(Do(r, call), calls + [call])
  {
    hide ValidStep, ShapedStep, Record, Picked;
    assert (calls + [call])[..|calls|] == calls;
    var window := Window(calls);
    match call
    case Enabling(scope, now) => NothingPicked(scope.document, Enable(r, scope, now).0.generation);
      NothingPicked(0, Enable(r, scope, now).0.generation);
    case Disabling => PickedAnyway(r.entries, window, call, r.scope.document, r.generation);
    case Recording(document, token, now, step) =>
      RecordAppends(r, document, token, now, step);
      var next := Record(r, document, token, now, step).0;
      if next.entries == r.entries {
        PickedAnyway(r.entries, window, call, r.scope.document, r.generation);
      } else {
        var e: Entry :| e.tick == now && e.step == step && next.entries == r.entries + [e];
        PickedMore(r.entries, e, window, call, r.scope.document, r.generation);
      }
  }

  lemma NothingPicked(document: nat, generation: nat)
    ensures Picked([], [], document, generation)
  {
  }

  lemma ValidsMore(admitted: seq<Call>, call: Call)
    requires Admissions(admitted) && call.Recording? && ShapedStep(call.step)
    ensures Admissions(admitted + [call])
    ensures Valids(admitted + [call])
         == Valids(admitted) + if ValidStep(call.step) then [Entry(|admitted| + 1, call.now, call.step)] else []
  {
    hide ValidStep, ShapedStep;
    assert (admitted + [call])[..|admitted|] == admitted;
  }

  lemma {:induction false} FewerValid(admitted: seq<Call>)
    requires Admissions(admitted)
    ensures |Valids(admitted)| <= |admitted|
  {
    hide ValidStep, ShapedStep;
    if admitted != [] {
      FewerValid(admitted[..|admitted| - 1]);
    }
  }

  lemma FirstKeptMore(entries: seq<Entry>, attempted: nat, malformed: nat, full: nat,
                      capacity: nat, admitted: nat, valids: seq<Entry>, e: Entry)
    requires FirstKept(entries, attempted, malformed, full, capacity, admitted, valids)
    requires attempted < MAX_U64 && |valids| <= admitted
    ensures FirstKept(entries, attempted + 1, Advance(malformed), full, capacity, admitted + 1, valids)
    ensures |entries| == capacity ==>
      FirstKept(entries, attempted + 1, malformed, Advance(full), capacity, admitted + 1, valids + [e])
    ensures |entries| != capacity ==>
      FirstKept(entries + [e], attempted + 1, malformed, full, capacity, admitted + 1, valids + [e])
  {
  }

  lemma RefusedKeeps(r: Recorder, s: Session, call: Call)
    requires Keeps(r, s) && call.Recording? && ShapedStep(call.step) && Admit(s, call).admitted == s.admitted
    ensures Keeps(Record(r, call.document, call.token, call.now, call.step).0, Admit(s, call))
  {
    assert r.stats.attempted == |s.admitted|;
    hide ValidStep, ShapedStep, Valids, Admissions, FirstKept;
  }

  lemma AdmittedKeeps(r: Recorder, s: Session, call: Call)
    requires Keeps(r, s) && call.Recording? && ShapedStep(call.step) && Admit(s, call).admitted == s.admitted + [call]
    ensures Keeps(Record(r, call.document, call.token, call.now, call.step).0, Admit(s, call))
  {
    var stats, valids, e := r.stats, Valids(s.admitted), Entry(|s.admitted| + 1, call.now, call.step);
    assert stats.attempted == |s.admitted|;
    FewerValid(s.admitted);
    ValidsMore(s.admitted, call);
    FirstKeptMore(r.entries, stats.attempted, stats.malformed, stats.full, r.capacity, |s.admitted|, valids, e);
    hide ValidStep, ShapedStep, Valids, Admissions, FirstKept, Advance;
  }

  lemma RecordKeeps(r: Recorder, s: Session, call: Call)
    requires Keeps(r, s) && call.Recording? && ShapedStep(call.step)
    ensures Keeps(Record(r, call.document, call.token, call.now, call.step).0, Admit(s, call))
  {
    hide Keeps, Record;
    if Admit(s, call).admitted == s.admitted {
      RefusedKeeps(r, s, call);
    } else {
      AdmittedKeeps(r, s, call);
    }
  }

  lemma EnableKeeps(r: Recorder, scope: Scope, now: nat, enablings: nat)
    requires r.generation == if enablings <= MAX_U64 then enablings else MAX_U64
    ensures var n := enablings + 1;
            Keeps(Enable(r, scope, now).0,
                Session(scope, n, n <= MAX_U64 && Whole(scope) && now < scope.expiresAt, now, []))
  {
    hide ValidStep, ShapedStep;
  }

  /**
   * After any calls the entries are exactly the first valid recordings admitted since the
   * latest enabling, as many as there is room for; every other admitted recording is
   * counted as malformed when its step is not valid, and as full when it is.
   */
  lemma {:induction false} FirstValidAdmissionsAreKept(capacity: nat, calls: seq<Call>)
    requires ShapedCalls(calls)
    ensures Keeps(RecorderAfter(capacity, calls), SessionAfter(calls))
  {
    if calls == [] {
      CreatedKeeps(capacity);
    } else {
      hide ValidStep, ShapedStep, Keeps, Record, Enable, Admit;
      var n := |calls| - 1;
      FirstValidAdmissionsAreKept(capacity, calls[..n]);
      var r, s := RecorderAfter(capacity, calls[..n]), SessionAfter(calls[..n]);
      match calls[n]
      case Enabling(scope, now) =>
        EntriesBelongToTheScope(capacity, calls[..n]);
        EnableKeeps(r, scope, now, Enablings(calls[..n]));
      case Disabling => ClosedKeeps(r, s);
      case Recording(_, _, _, _) => RecordKeeps(r, s, calls[n]);
    }
  }

  lemma CreatedKeeps(capacity: nat)
    ensures Keeps(Create(capacity), Session(NO_SCOPE, 0, false, 0, []))
  {
    hide ValidStep, ShapedStep;
  }

  lemma ClosedKeeps(r: Recorder, s: Session)
    requires Keeps(r, s)
    ensures Keeps(r.(enabled := false), s.(open := false))
  {
    hide ValidStep, ShapedStep, Valids;
  }

  class NativeVmRecorder {
    var entries: seq<Entry>
    var stats: Stats
    var scope: Scope
    const capacity: nat
    var lastTick: nat
    var generation: nat
    var enabled: bool

    constructor (capacity: nat)
      ensures Contents() == Create(capacity)
    {
      this.capacity := if capacity <= MAX_RECORDS then capacity else MAX_RECORDS;
      entries, stats, scope, lastTick, generation, enabled := [], NO_STATS, NO_SCOPE, 0, 0, false;
    }

    function Contents(): Recorder
      reads this
    {
      Recorder(entries, stats, scope, capacity, lastTick, generation, enabled)
    }

    method EnableScope(wanted: Scope, now: nat) returns (ok: bool)
      modifies this
      ensures (Contents(), ok) == Enable(old(Contents()), wanted, now)
    {
      enabled := false;
      entries, stats, scope, lastTick := [], NO_STATS, NO_SCOPE, now;
      if generation == MAX_U64 {
        return false;
      }
      generation := generation + 1;
      if wanted.session == 0 || wanted.document == 0 || wanted.invocation == 0 || wanted.expiresAt <= now {
        return false;
      }
      scope := wanted;
      enabled := true;
      ok := true;
    }

    /** Also what becomes of a recorder whose document goes away. */
    method Disable()
      modifies this`enabled
      ensures Contents() == old(Contents()).(enabled := false)
    {
      enabled := false;
    }

    method RecordStep(document: nat, token: nat, now: nat, step: Instruction) returns (result: RecordResult)
      requires ShapedStep(step)
      modifies this
      ensures (Contents(), result) == Record(old(Contents()), document, token, now, step)
    {
      if !enabled {
        return Disabled;
      }
      if token != generation {
        stats := stats.(staleGeneration := Advance(stats.staleGeneration));
        return StaleGeneration;
      }
      if document != scope.document {
        stats := stats.(wrongDocument := Advance(stats.wrongDocument));
        return WrongDocument;
      }
      if now >= scope.expiresAt || now < lastTick {
        enabled := false;
        stats := stats.(expired := Advance(stats.expired));
        return Expired;
      }
      lastTick := now;
      if stats.attempted == MAX_U64 {
        stats := stats.(exhausted := Advance(stats.exhausted));
        enabled := false;
        return Exhausted;
      }
      stats := stats.(attempted := stats.attempted + 1);
      var sequence := stats.attempted;
      if !ValidStep(step) {
        stats := stats.(malformed := Advance(stats.malformed));
        return Malformed;
      }
      if |entries| == capacity {
        stats := stats.(full := Advance(stats.full));
        return Full;
      }
      entries := entries + [Entry(sequence, now, step)];
      stats := stats.(recorded := Advance(stats.recorded));
      if IsPartial(step) {
        stats := stats.(partial := Advance(stats.partial));
      }
      result := Recorded;
    }
  }
}
