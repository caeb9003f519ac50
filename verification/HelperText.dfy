/**
 * The bounded JSON the helper prints: `Value`, `Snapshot`, `Record` and
 * `ControlPayload` in apps/reb-native-vm-fixture/main.cpp, and `PayloadBuffer` in
 * apps/reb-native-vm-fixture/owned_vm_helper_protocol.hpp.
 */
module HelperText {
  import opened OwnedVm
  import opened NativeRecorder
  import opened Decimals

  const MAX_PAYLOAD_BYTES: nat := 32 * 1024

  // ---------------------------------------------------------------- the buffer

  /** What a fixed buffer and its stream hold: the accepted text, and whether all of it fitted. */
  datatype Sink = Sink(view: string, good: bool)

  function Push(s: Sink, text: string): Sink
    requires |s.view| <= MAX_PAYLOAD_BYTES
  {
    if !s.good then s
    else if |s.view| + |text| <= MAX_PAYLOAD_BYTES then Sink(s.view + text, true)
    else Sink(s.view + text[..MAX_PAYLOAD_BYTES - |s.view|], false)
  }

  lemma PushJoins(s: Sink, a: string, b: string)
    requires |s.view| <= MAX_PAYLOAD_BYTES
    ensures |Push(s, a).view| <= MAX_PAYLOAD_BYTES
    ensures Push(Push(s, a), b) == Push(s, a + b)
  {
    if s.good {
      assert s.view + (a + b) == (s.view + a) + b;
      var room := MAX_PAYLOAD_BYTES - |s.view|;
      if |a| + |b| > room {
        if |a| > room {
          assert (a + b)[..room] == a[..room];
        } else {
          assert (a + b)[..room] == a + b[..room - |a|];
          assert s.view + (a + b[..room - |a|]) == (s.view + a) + b[..room - |a|];
        }
      }
    }
  }

  class PayloadBuffer {
    const bytes: array<char>
    var length: nat
    var good: bool

    ghost predicate Valid()
      reads this
    {
      length <= bytes.Length == MAX_PAYLOAD_BYTES
    }

    constructor ()
      ensures Valid() && fresh(bytes) && Contents() == Sink("", true)
    {
      bytes := new char[MAX_PAYLOAD_BYTES](_ => ' ');
      length, good := 0, true;
    }

    function Contents(): Sink
      requires Valid()
      reads this, bytes
    {
      Sink(bytes[..length], good)
    }

    /** Copy what fits; overflow fails the stream instead of growing or truncating silently. */
    method Put(text: string)
      requires Valid()
      modifies this, bytes
      ensures Valid() && Contents() == Push(old(Contents()), text)
    {
      if !good {
        return;
      }
      ghost var view := bytes[..length];
      var i := 0;
      while i < |text| && length < bytes.Length
        invariant 0 <= i <= |text| && length == |view| + i && Valid() && good
        invariant bytes[..length] == view + text[..i]
        modifies this`length, bytes
      {
        bytes[length] := text[i];
        assert bytes[..length + 1] == bytes[..length] + [text[i]];
        assert text[..i + 1] == text[..i] + [text[i]];
        length, i := length + 1, i + 1;
      }
      assert i == |text| ==> text[..i] == text;
      good := i == |text|;
    }

    /** `Put` as one piece of a longer text begun at `start`. */
    method Emit(piece: string, ghost start: Sink, ghost sofar: string) returns (ghost total: string)
      requires Valid() && |start.view| <= MAX_PAYLOAD_BYTES && Contents() == Push(start, sofar)
      modifies this, bytes
      ensures Valid() && total == sofar + piece && Contents() == Push(start, total)
    {
      Put(piece);
      PushJoins(start, sofar, piece);
      total := sofar + piece;
    }
  }

  // ---------------------------------------------------------------- the text

  function EvidenceText(e: Evidence): string {
    match e
    case Observed => "observed"
    case Inferred => "inferred"
    case Unknown => "unknown"
  }

  function PlaceText(p: Place): string {
    match p
    case Immediate => "immediate"
    case Registers => "register"
    case StackSlots => "stack"
    case Memory => "memory"
  }

  function BoolText(b: bool): string { if b then "true" else "false" }

  function AccessText(a: Access): string { if a.Read? then "read" else "write" }

  function ValueText(v: Value): string {
    "{\"bits\":\"" + Text(v.bits) + "\",\"evidence\":\"" + EvidenceText(v.evidence) + "\"}"
  }

  function CellText(c: Cell): string {
    "{\"guest_address\":\"" + Text(c.address) + "\",\"value\":" + ValueText(c.value) + "}"
  }

  function OperandText(o: Operand): string {
    "{\"location\":\"" + PlaceText(o.place) + "\",\"index\":\"" + Text(o.index) + "\",\"value\":"
        + ValueText(o.value) + "}"
  }

  function EffectText(e: Effect): string {
    "{\"access\":\"" + AccessText(e.access) + "\",\"location\":\"" + PlaceText(e.place) + "\",\"index\":\""
        + Text(e.index)
    + "\",\"value\":" + ValueText(e.value) + "}"
  }

  /** The texts of the first `n` items, separated by commas. */
  function Listed<T>(items: seq<T>, n: nat, show: T -> string): string
    requires n <= |items|
  {
    if n == 0 then ""
    else (if n == 1 then "" else Listed(items, n - 1, show) + ",") + show(items[n - 1])
  }

  predicate Printable(s: Snapshot) {
    Shaped(s) && s.registerCount <= SLOTS && s.stackCount <= SLOTS && s.memoryCount <= SLOTS
  }

  function HeadText(s: Snapshot): string {
    "{\"pc\":\"" + Text(s.pc) + "\",\"pc_evidence\":\"" + EvidenceText(s.pcEvidence)
    + "\",\"partial\":" + BoolText(s.partial) + ",\"halted\":" + BoolText(s.halted)
  }

  function SnapshotText(s: Snapshot): string
    requires Printable(s)
  {
    HeadText(s)
    + ",\"registers\":[" + Listed(s.registers, s.registerCount, ValueText) + "]"
    + ",\"stack\":[" + Listed(s.stack, s.stackCount, ValueText) + "]"
    + ",\"memory\":[" + Listed(s.memory, s.memoryCount, CellText) + "]}"
  }

  predicate PrintableStep(step: Instruction) {
    && ShapedStep(step) && step.operandCount <= MAX_OPERANDS && step.effectCount <= MAX_EFFECTS
    && Printable(step.before) && Printable(step.after)
  }

  function EntryHeadText(e: Entry): string {
    "{\"sequence\":\"" + Text(e.sequence) + "\",\"tick\":\"" + Text(e.tick)
    + "\",\"opcode\":" + Text(e.step.opcode) + ",\"opcode_evidence\":\"" + EvidenceText(e.step.opcodeEvidence)
    + "\",\"partial\":" + BoolText(e.step.partial)
  }

  function EntryText(e: Entry): string
    requires PrintableStep(e.step)
  {
    EntryHeadText(e)
    + ",\"operands\":[" + Listed(e.step.operands, e.step.operandCount, OperandText)
    + "],\"effects\":[" + Listed(e.step.effects, e.step.effectCount, EffectText)
    + "],\"before\":" + SnapshotText(e.step.before)
    + ",\"after\":" + SnapshotText(e.step.after)
    + "}"
  }

  // ---------------------------------------------------------------- printing in place

  method PrintList<T>(out: PayloadBuffer, items: seq<T>, n: nat, show: T -> string, ghost start: Sink,
        ghost sofar: string)
    returns (ghost total: string)
    requires out.Valid() && n <= |items| && |start.view| <= MAX_PAYLOAD_BYTES && out.Contents() == Push(start, sofar)
    modifies out, out.bytes
    ensures out.Valid() && total == sofar + Listed(items, n, show) && out.Contents() == Push(start, total)
  {
    total := sofar;
    assert total == sofar + "";
    for i := 0 to n
      invariant out.Valid() && total == sofar + Listed(items, i, show) && out.Contents() == Push(start, total)
    {
      if i != 0 {
        total := out.Emit(",", start, total);
      }
      total := out.Emit(show(items[i]), start, total);
      assert total == sofar + Listed(items, i + 1, show);
    }
  }

  method PrintSnapshot(out: PayloadBuffer, s: Snapshot)
    requires out.Valid() && Printable(s)
    modifies out, out.bytes
    ensures out.Valid() && out.Contents() == Push(old(out.Contents()), SnapshotText(s))
  {
    ghost var start := out.Contents();
    assert "" + HeadText(s) == HeadText(s);
    ghost var text := out.Emit(HeadText(s), start, "");
    text := out.Emit(",\"registers\":[", start, text);
    text := PrintList(out, s.registers, s.registerCount, ValueText, start, text);
    text := out.Emit("]", start, text);
    text := out.Emit(",\"stack\":[", start, text);
    text := PrintList(out, s.stack, s.stackCount, ValueText, start, text);
    text := out.Emit("]", start, text);
    text := out.Emit(",\"memory\":[", start, text);
    text := PrintList(out, s.memory, s.memoryCount, CellText, start, text);
    text := out.Emit("]}", start, text);
    assert text == SnapshotText(s);
  }

  method PrintEntry(out: PayloadBuffer, e: Entry)
    requires out.Valid() && PrintableStep(e.step)
    modifies out, out.bytes
    ensures out.Valid() && out.Contents() == Push(old(out.Contents()), EntryText(e))
  {
    ghost var start := out.Contents();
    assert "" + EntryHeadText(e) == EntryHeadText(e);
    ghost var text := out.Emit(EntryHeadText(e), start, "");
    text := out.Emit(",\"operands\":[", start, text);
    text := PrintList(out, e.step.operands, e.step.operandCount, OperandText, start, text);
    text := out.Emit("],\"effects\":[", start, text);
    text := PrintList(out, e.step.effects, e.step.effectCount, EffectText, start, text);
    text := out.Emit("],\"before\":", start, text);
    PrintSnapshot(out, e.step.before);
    PushJoins(start, text, SnapshotText(e.step.before));
    text := text + SnapshotText(e.step.before);
    text := out.Emit(",\"after\":", start, text);
    PrintSnapshot(out, e.step.after);
    PushJoins(start, text, SnapshotText(e.step.after));
    text := text + SnapshotText(e.step.after);
    text := out.Emit("}", start, text);
    assert text == EntryText(e);
  }

  // ---------------------------------------------------------------- how long it can get

  predicate Fits(n: nat) { n <= U64_MAX }

  predicate FitsValue(v: Value) { Fits(v.bits) }

  predicate FitsCell(c: Cell) { Fits(c.address) && FitsValue(c.value) }

  predicate FitsSnapshot(s: Snapshot) {
    && Printable(s) && Fits(s.pc)
    && (forall v <- s.registers :: FitsValue(v)) && (forall v <- s.stack :: FitsValue(v))
    && (forall c <- s.memory :: FitsCell(c))
  }

  predicate FitsEntry(e: Entry) {
    && PrintableStep(e.step) && Fits(e.sequence) && Fits(e.tick) && e.step.opcode <= 0xFFFF_FFFF
    && (forall o <- e.step.operands :: Fits(o.index) && FitsValue(o.value))
    && (forall f <- e.step.effects :: Fits(f.index) && FitsValue(f.value))
    && FitsSnapshot(e.step.before) && FitsSnapshot(e.step.after)
  }

  lemma ValueLength(v: Value)
    requires FitsValue(v)
    ensures |ValueText(v)| == 25 + |Text(v.bits)| + |EvidenceText(v.evidence)| <= 53
  {
    U64Length(v.bits);
  }

  lemma CellLength(c: Cell)
    requires FitsCell(c)
    ensures |CellText(c)| == 29 + |Text(c.address)| + |ValueText(c.value)| <= 102
  {
    U64Length(c.address);
    ValueLength(c.value);
  }

  lemma {:induction false} ListedLength<T>(items: seq<T>, n: nat, show: T -> string, each: nat)
    requires n <= |items|
    requires forall i | 0 <= i < n :: |show(items[i])| <= each
    ensures |Listed(items, n, show)| <= if n == 0 then 0 else n * each + (n - 1)
    ensures n > 0 && (forall i | 0 <= i < n :: |show(items[i])| == each) ==>
              |Listed(items, n, show)| == n * each + (n - 1)
  {
    if n > 1 {
      ListedLength(items, n - 1, show, each);
      assert n * each == (n - 1) * each + each;
    }
  }

  lemma ListedWithin<T>(items: seq<T>, n: nat, show: T -> string, each: nat, cap: nat)
    requires n <= |items| && n <= cap && cap > 0
    requires forall i | 0 <= i < n :: |show(items[i])| <= each
    ensures |Listed(items, n, show)| <= cap * each + (cap - 1)
  {
    ListedLength(items, n, show, each);
    TimesIsMonotone(n, cap, each);
  }

  lemma TimesIsMonotone(n: nat, cap: nat, each: nat)
    requires n <= cap
    ensures n * each <= cap * each
  {
    assert (cap - n) * each >= 0;
  }

  lemma HeadLength(s: Snapshot)
    requires Fits(s.pc)
    ensures |HeadText(s)|
        == 46 + |Text(s.pc)| + |EvidenceText(s.pcEvidence)| + |BoolText(s.partial)| + |BoolText(s.halted)| <= 84
  {
    U64Length(s.pc);
  }

  lemma SnapshotPieces(s: Snapshot)
    requires Printable(s)
    ensures |SnapshotText(s)| == |HeadText(s)| + 39 + |Listed(s.registers, s.registerCount, ValueText)|
                                 + |Listed(s.stack, s.stackCount, ValueText)|
                                 + |Listed(s.memory, s.memoryCount, CellText)|
  {
  }

  /** Every snapshot within the slot limits prints in at most 1808 bytes. */
  lemma {:induction false} SnapshotBound(s: Snapshot)
    requires FitsSnapshot(s)
    ensures |SnapshotText(s)| <= 1808
  {
    SnapshotPieces(s);
    HeadLength(s);
    forall v: Value | FitsValue(v) { ValueLength(v); }
    forall c: Cell | FitsCell(c) { CellLength(c); }
    ListedWithin(s.registers, s.registerCount, ValueText, 53, SLOTS);
    ListedWithin(s.stack, s.stackCount, ValueText, 53, SLOTS);
    ListedWithin(s.memory, s.memoryCount, CellText, 102, SLOTS);
  }

  lemma LongestNumber(n: nat)
    requires U64_MAX - 8 < n <= U64_MAX
    ensures |Text(n)| == 20
  {
    U64Length(n);
    Power10Of20();
    TextLength(n, 19);
  }

  const LONGEST_VALUE := Value(U64_MAX, Observed)

  /** All slots in use, every number twenty digits long and every address distinct. */
  function LongestSnapshot(): (s: Snapshot)
    ensures FitsSnapshot(s) && ValidSnapshot(s)
  {
    var bank := seq(SLOTS, i => LONGEST_VALUE);
    Snapshot(U64_MAX, Observed, SLOTS, SLOTS, SLOTS, false, false, bank, bank,
             seq(SLOTS, i requires 0 <= i < SLOTS => Cell(U64_MAX - i, LONGEST_VALUE)))
  }

  lemma LongestBank(bank: seq<Value>)
    requires |bank| == SLOTS && forall i | 0 <= i < SLOTS :: bank[i] == LONGEST_VALUE
    ensures |Listed(bank, SLOTS, ValueText)| == 431
  {
    LongestNumber(U64_MAX);
    ValueLength(LONGEST_VALUE);
    ListedLength(bank, SLOTS, ValueText, 53);
  }

  lemma LongestMemory(cells: seq<Cell>)
    requires |cells| == SLOTS && forall i | 0 <= i < SLOTS :: cells[i] == Cell(U64_MAX - i, LONGEST_VALUE)
    ensures |Listed(cells, SLOTS, CellText)| == 823
  {
    LongestNumber(U64_MAX);
    ValueLength(LONGEST_VALUE);
    forall i | 0 <= i < SLOTS ensures |CellText(cells[i])| == 102 {
      LongestNumber(U64_MAX - i);
      CellLength(cells[i]);
    }
    ListedLength(cells, SLOTS, CellText, 102);
  }

  /** Full banks of longest values, distinct twenty-digit addresses and the longest head. */
  predicate IsLongest(s: Snapshot) {
    && Printable(s) && s.registerCount == SLOTS && s.stackCount == SLOTS && s.memoryCount == SLOTS
    && s.pc == U64_MAX && s.pcEvidence == Observed && !s.partial && !s.halted
    && (forall i | 0 <= i < SLOTS ::
          s.registers[i] == LONGEST_VALUE && s.stack[i] == LONGEST_VALUE
              && s.memory[i] == Cell(U64_MAX - i, LONGEST_VALUE))
  }

  lemma LongestLength(s: Snapshot)
    requires IsLongest(s)
    ensures |SnapshotText(s)| == 1808
  {
    LongestNumber(U64_MAX);
    SnapshotPieces(s);
    HeadLength(s);
    LongestBank(s.registers);
    LongestBank(s.stack);
    LongestMemory(s.memory);
  }

  /** The bound is exact: a valid snapshot prints in 1808 bytes. */
  lemma SnapshotBoundIsAttained()
    ensures FitsSnapshot(LongestSnapshot()) && ValidSnapshot(LongestSnapshot())
    ensures |SnapshotText(LongestSnapshot())| == 1808
  {
    LongestLength(LongestSnapshot());
  }

  lemma OperandLength(o: Operand)
    requires Fits(o.index) && FitsValue(o.value)
    ensures |OperandText(o)| == 35 + |PlaceText(o.place)| + |Text(o.index)| + |ValueText(o.value)| <= 117
    ensures ValidOperand(o) ==> |OperandText(o)| <= 114
  {
    U64Length(o.index);
    ValueLength(o.value);
  }

  lemma EffectLength(e: Effect)
    requires Fits(e.index) && FitsValue(e.value)
    ensures |EffectText(e)|
        == 47 + |AccessText(e.access)| + |PlaceText(e.place)| + |Text(e.index)| + |ValueText(e.value)| <= 134
    ensures ValidEffect(e) ==> |EffectText(e)| <= 131
  {
    U64Length(e.index);
    ValueLength(e.value);
  }

  lemma OpcodeLength(n: nat)
    requires n <= 0xFFFF_FFFF
    ensures |Text(n)| <= 10
    ensures n == 0xFFFF_FFFF ==> |Text(n)| == 10
  {
    assert Power10(5) == 100000;
    assert Power10(9) == 1000000000 && Power10(10) == 10000000000;
    TextLength(n, 10);
    TextLength(n, 9);
  }

  lemma EntryHeadLength(e: Entry)
    requires Fits(e.sequence) && Fits(e.tick) && e.step.opcode <= 0xFFFF_FFFF
    ensures |EntryHeadText(e)| == 66 + |Text(e.sequence)| + |Text(e.tick)| + |Text(e.step.opcode)|
                                  + |EvidenceText(e.step.opcodeEvidence)| + |BoolText(e.step.partial)| <= 129
  {
    U64Length(e.sequence);
    U64Length(e.tick);
    OpcodeLength(e.step.opcode);
  }

  lemma EntryPieces(e: Entry)
    requires PrintableStep(e.step)
    ensures |EntryText(e)| == |EntryHeadText(e)| + 47
                              + |Listed(e.step.operands, e.step.operandCount, OperandText)|
                              + |Listed(e.step.effects, e.step.effectCount, EffectText)|
                              + |SnapshotText(e.step.before)| + |SnapshotText(e.step.after)|
  {
  }

  /** Any record within the slot limits prints in at most 5342 bytes. */
  lemma {:induction false} EntryBound(e: Entry)
    requires FitsEntry(e)
    ensures |EntryText(e)| <= 5342
  {
    EntryPieces(e);
    EntryHeadLength(e);
    SnapshotBound(e.step.before);
    SnapshotBound(e.step.after);
    forall i | 0 <= i < e.step.operandCount { OperandLength(e.step.operands[i]); }
    forall i | 0 <= i < e.step.effectCount { EffectLength(e.step.effects[i]); }
    ListedWithin(e.step.operands, e.step.operandCount, OperandText, 117, MAX_OPERANDS);
    ListedWithin(e.step.effects, e.step.effectCount, EffectText, 134, MAX_EFFECTS);
  }

  /** A record the recorder accepts prints in at most 5306 bytes: long place names go with short indexes. */
  lemma {:induction false} RetainedEntryBound(e: Entry)
    requires FitsEntry(e) && ValidStep(e.step)
    ensures |EntryText(e)| <= 5306
  {
    EntryPieces(e);
    EntryHeadLength(e);
    SnapshotBound(e.step.before);
    SnapshotBound(e.step.after);
    forall i | 0 <= i < e.step.operandCount { OperandLength(e.step.operands[i]); }
    forall i | 0 <= i < e.step.effectCount { EffectLength(e.step.effects[i]); }
    ListedWithin(e.step.operands, e.step.operandCount, OperandText, 114, MAX_OPERANDS);
    ListedWithin(e.step.effects, e.step.effectCount, EffectText, 131, MAX_EFFECTS);
  }

  function LongestEntry(operand: Place, effect: Place): (e: Entry)
    ensures FitsEntry(e)
  {
    var o := Operand(operand, U64_MAX, LONGEST_VALUE);
    var f := Effect(Write, effect, U64_MAX, LONGEST_VALUE);
    Entry(U64_MAX, U64_MAX,
          Instruction(0xFFFF_FFFF, Observed, false, MAX_OPERANDS, seq(MAX_OPERANDS, i => o),
                      MAX_EFFECTS, seq(MAX_EFFECTS, i => f), LongestSnapshot(), LongestSnapshot()))
  }

  lemma LongestEntryLength(operand: Place, effect: Place)
    ensures |EntryText(LongestEntry(operand, effect))| == 5234 + 4 * |PlaceText(operand)| + 8 * |PlaceText(effect)|
  {
    var e := LongestEntry(operand, effect);
    LongestEntryPieces(e, operand, effect);
  }

  lemma {:induction false} LongestEntryPieces(e: Entry, operand: Place, effect: Place)
    requires PrintableStep(e.step) && IsLongest(e.step.before) && IsLongest(e.step.after)
    requires e.sequence == U64_MAX && e.tick == U64_MAX && e.step.opcode == 0xFFFF_FFFF
    requires e.step.opcodeEvidence == Observed && !e.step.partial
    requires e.step.operandCount == MAX_OPERANDS && e.step.effectCount == MAX_EFFECTS
    requires forall i | 0 <= i < MAX_OPERANDS :: e.step.operands[i] == Operand(operand, U64_MAX, LONGEST_VALUE)
    requires forall i | 0 <= i < MAX_EFFECTS :: e.step.effects[i] == Effect(Write, effect, U64_MAX, LONGEST_VALUE)
    ensures |EntryText(e)| == 5234 + 4 * |PlaceText(operand)| + 8 * |PlaceText(effect)|
  {
    LongestNumber(U64_MAX);
    OpcodeLength(0xFFFF_FFFF);
    EntryPieces(e);
    EntryHeadLength(e);
    LongestLength(e.step.before);
    LongestLength(e.step.after);
    LongestOperands(e.step.operands, operand);
    LongestEffects(e.step.effects, effect);
  }

  lemma LongestOperands(operands: seq<Operand>, place: Place)
    requires |operands| == MAX_OPERANDS
        && forall i | 0 <= i < MAX_OPERANDS :: operands[i] == Operand(place, U64_MAX, LONGEST_VALUE)
    ensures |Listed(operands, MAX_OPERANDS, OperandText)| == 435 + 4 * |PlaceText(place)|
  {
    LongestNumber(U64_MAX);
    ValueLength(LONGEST_VALUE);
    OperandLength(Operand(place, U64_MAX, LONGEST_VALUE));
    ListedLength(operands, MAX_OPERANDS, OperandText, 108 + |PlaceText(place)|);
  }

  lemma LongestEffects(effects: seq<Effect>, place: Place)
    requires |effects| == MAX_EFFECTS
        && forall i | 0 <= i < MAX_EFFECTS :: effects[i] == Effect(Write, place, U64_MAX, LONGEST_VALUE)
    ensures |Listed(effects, MAX_EFFECTS, EffectText)| == 1007 + 8 * |PlaceText(place)|
  {
    LongestNumber(U64_MAX);
    ValueLength(LONGEST_VALUE);
    EffectLength(Effect(Write, place, U64_MAX, LONGEST_VALUE));
    ListedLength(effects, MAX_EFFECTS, EffectText, 125 + |PlaceText(place)|);
  }

  lemma LongestEntryValidity(place: Place)
    ensures ValidStep(LongestEntry(place, place).step) <==> place.Memory?
  {
    var step := LongestEntry(place, place).step;
    assert ValidOperand(step.operands[0]) <==> place.Memory?;
    assert ValidSnapshot(LongestSnapshot());
  }

  /** Both bounds are attained; only the first by a record the recorder accepts. */
  lemma {:induction false} EntryBoundsAreAttained()
    ensures |EntryText(LongestEntry(Memory, Memory))| == 5306 && ValidStep(LongestEntry(Memory, Memory).step)
    ensures |EntryText(LongestEntry(Immediate, Immediate))| == 5342
        && !ValidStep(LongestEntry(Immediate, Immediate).step)
  {
    LongestEntryLength(Memory, Memory);
    LongestEntryLength(Immediate, Immediate);
    LongestEntryValidity(Memory);
    LongestEntryValidity(Immediate);
  }
}
