/**
 * The two fixed programs of the owned fixture, stepped one instruction at a time
 * (src/analysis/owned_vm_fixture.cpp, include/reb/owned_vm_fixture.hpp).
 */
module OwnedVm {
  import opened Outcomes

  const SLOTS: nat := 8
  const MAX_OPERANDS: nat := 4
  const MAX_EFFECTS: nat := 8
  const DISPATCH_BUDGET: nat := 16
  const U64: nat := 0x1_0000_0000_0000_0000

  datatype Architecture = Register | Stack
  datatype Evidence = Unknown | Observed | Inferred
  datatype Place = Immediate | Registers | StackSlots | Memory
  datatype Access = Read | Write

  datatype Value = Value(bits: nat, evidence: Evidence)
  datatype Cell = Cell(address: nat, value: Value)

  const NO_VALUE := Value(0, Unknown)
  const NO_CELL := Cell(0, NO_VALUE)
  const NO_OPERAND := Operand(Immediate, 0, NO_VALUE)
  const NO_EFFECT := Effect(Read, Registers, 0, NO_VALUE)

  /** Fixed arrays: eight slots in each bank, with the active ones counted. */
  datatype Snapshot = Snapshot(pc: nat, pcEvidence: Evidence, registerCount: nat, stackCount: nat, memoryCount: nat,
                               partial: bool, halted: bool,
                               registers: seq<Value>, stack: seq<Value>, memory: seq<Cell>)

  datatype Operand = Operand(place: Place, index: nat, value: Value)
  datatype Effect = Effect(access: Access, place: Place, index: nat, value: Value)
  datatype Instruction = Instruction(opcode: nat, opcodeEvidence: Evidence, partial: bool,
                                     operandCount: nat, operands: seq<Operand>,
                                     effectCount: nat, effects: seq<Effect>,
                                     before: Snapshot, after: Snapshot)

  function Seen(bits: nat): Value { Value(bits, Observed) }

  /** The storage every snapshot and instruction has. */
  predicate Shaped(s: Snapshot) {
    |s.registers| == SLOTS && |s.stack| == SLOTS && |s.memory| == SLOTS
  }

  function Initial(arch: Architecture): (s: Snapshot)
    ensures Shaped(s)
  {
    Snapshot(0, Observed, if arch.Register? then 3 else 0, 0, 0, false, false,
             [NO_VALUE, NO_VALUE, NO_VALUE, NO_VALUE, NO_VALUE, NO_VALUE, NO_VALUE, NO_VALUE],
             [NO_VALUE, NO_VALUE, NO_VALUE, NO_VALUE, NO_VALUE, NO_VALUE, NO_VALUE, NO_VALUE],
             [NO_CELL, NO_CELL, NO_CELL, NO_CELL, NO_CELL, NO_CELL, NO_CELL, NO_CELL])
  }

  const PCS: seq<nat> := [0, 1, 2, 3, 4, 5, 6, 8, 10, 10]

  /** The exact state of each fixed program after `count` instructions. */
  function Expected(arch: Architecture, count: nat): (s: Snapshot)
    requires count < |PCS|
    ensures Shaped(s)
  {
    var start := Initial(arch).(pc := PCS[count], halted := count == 9);
    var active :=
      if arch.Register? then
        var first := if count >= 3 then Seen(12) else if count >= 1 then Seen(7) else NO_VALUE;
        start.(registers := start.registers[0 := first]
                                           [1 := if count >= 2 then Seen(5) else NO_VALUE]
                                           [2 := if count >= 5 then Seen(12) else NO_VALUE])
      else
        var top := if count == 0 || count == 4 then NO_VALUE else if count <= 2 then Seen(7) else Seen(12);
        start.(stackCount := if count == 2 then 2 else if count == 0 || count == 4 then 0 else 1,
               stack := start.stack[0 := top][1 := if count == 2 then Seen(5) else NO_VALUE]);
    if count >= 4 then active.(memoryCount := 1, memory := active.memory[0 := Cell(16, Seen(12))]) else active
  }

  /** `ValidState`: the whole snapshot is checked before the next state is computed. */
  predicate ValidState(arch: Architecture, s: Snapshot, count: nat) {
    count < |PCS| && s == Expected(arch, count)
  }

  function Fill<T>(items: seq<T>, size: nat, none: T): (r: seq<T>)
    requires |items| <= size
    ensures |r| == size && r[..|items|] == items
    ensures forall i | |items| <= i < size :: r[i] == none
  {
    items + seq(size - |items|, i => none)
  }

  /** The instruction at one program counter: its operands, effects and next state. */
  datatype Decoded = Decoded(opcode: nat, operands: seq<Operand>, effects: seq<Effect>, next: Snapshot)

  function Decode(arch: Architecture, s: Snapshot): Option<Decoded>
    requires Shaped(s)
  {
    var stack := arch.Stack?;
    var place := if stack then StackSlots else Registers;
    var slots := if stack then s.stack else s.registers;
    var pc := s.pc;
    if pc < 2 then
      var value := Seen(if pc == 0 then 7 else 5);
      var next := if stack then s.(stack := slots[pc := value], stackCount := s.stackCount + 1)
                  else s.(registers := slots[pc := value]);
      Some(Decoded(1, [Operand(Immediate, 0, value)], [Effect(Write, place, pc, value)], next.(pc := pc + 1)))
    else if pc == 2 then
      var sum := Seen((slots[0].bits + slots[1].bits) % U64);
      var uses := [Effect(Read, place, 0, slots[0]), Effect(Read, place, 1, slots[1]), Effect(Write, place, 0, sum)];
      var operands := [Operand(place, 0, slots[0]), Operand(place, 1, slots[1])];
      if stack then
        Some(Decoded(2, operands, uses + [Effect(Write, place, 1, NO_VALUE)],
                     s.(stack := slots[0 := sum][1 := NO_VALUE], stackCount := 1, pc := 3)))
      else Some(Decoded(2, operands, uses, s.(registers := slots[0 := sum], pc := 3)))
    else if pc == 3 then
      var stored := s.(memoryCount := 1, memory := s.memory[0 := Cell(16, slots[0])], pc := 4);
      var effects := [Effect(Read, place, 0, slots[0]), Effect(Write, Memory, 16, slots[0])];
      if stack then
        Some(Decoded(3, [Operand(place, 0, slots[0])], effects + [Effect(Write, place, 0, NO_VALUE)],
                     stored.(stack := slots[0 := NO_VALUE], stackCount := 0)))
      else Some(Decoded(3, [Operand(place, 0, slots[0])], effects, stored))
    else if pc == 4 then
      var loaded := s.memory[0].value;
      var to := if stack then 0 else 2;
      var next := if stack then s.(stack := slots[to := loaded], stackCount := 1)
          else s.(registers := slots[to := loaded]);
      Some(Decoded(4, [Operand(Memory, 16, loaded)],
          [Effect(Read, Memory, 16, loaded), Effect(Write, place, to, loaded)],
                   next.(pc := 5)))
    else if pc == 5 || pc == 8 then
      var at := if stack then 0 else 2;
      var taken := if pc == 5 then slots[at].bits == 0 else slots[at].bits != 0;
      Some(Decoded(if pc == 5 then 5 else 7, [Operand(place, at, slots[at]), Operand(Immediate, 0, Seen(10))],
                   [Effect(Read, place, at, slots[at])], s.(pc := if taken then 10 else pc + 1)))
    else if pc == 6 then
      Some(Decoded(6, [Operand(Immediate, 0, Seen(8))], [], s.(pc := 8)))
    else if pc == 10 then
      Some(Decoded(8, [], [], s.(halted := true)))
    else None
  }

  function Assemble(s: Snapshot, d: Decoded): Instruction
    requires |d.operands| <= MAX_OPERANDS && |d.effects| <= MAX_EFFECTS
  {
    Instruction(d.opcode, Observed, false, |d.operands|, Fill(d.operands, MAX_OPERANDS, NO_OPERAND),
                |d.effects|, Fill(d.effects, MAX_EFFECTS, NO_EFFECT), s, d.next)
  }

  datatype ExecuteStatus = Committed | Halted | Budget | InvalidState
  datatype Fixture = Fixture(arch: Architecture, state: Snapshot, executed: nat)

  function StatusOf(f: Fixture): ExecuteStatus {
    if f.executed >= DISPATCH_BUDGET then Budget
    else if !ValidState(f.arch, f.state, f.executed) then InvalidState
    else if f.state.halted then Halted
    else if Decode(f.arch, f.state).None? then InvalidState
    else Committed
  }

  function InstructionOf(f: Fixture): Instruction
    requires StatusOf(f).Committed?
  {
    Assemble(f.state, Decode(f.arch, f.state).value)
  }

  /** The interpreter: one instruction, or nothing at all. */
  function Stepped(f: Fixture): Fixture {
    if StatusOf(f).Committed? then f.(state := InstructionOf(f).after, executed := f.executed + 1) else f
  }

  function Run(arch: Architecture, k: nat): Fixture {
    if k == 0 then Fixture(arch, Initial(arch), 0) else Stepped(Run(arch, k - 1))
  }

  // ---------------------------------------------------------------- the two programs

  lemma {:induction false} RegisterStarts(k: nat)
    requires k < 4
    ensures Decode(Register, Expected(Register, k)).Some?
    ensures Decode(Register, Expected(Register, k)).value.next == Expected(Register, k + 1)
  {
    var s, t := Expected(Register, k), Expected(Register, k + 1);
    var d := Decode(Register, s).value;
    assert d.next.registers == t.registers && d.next.memory == t.memory;
  }

  lemma {:induction false} RegisterEnds(k: nat)
    requires 4 <= k < 9
    ensures Decode(Register, Expected(Register, k)).Some?
    ensures Decode(Register, Expected(Register, k)).value.next == Expected(Register, k + 1)
  {
    var s, t := Expected(Register, k), Expected(Register, k + 1);
    var d := Decode(Register, s).value;
    assert d.next.registers == t.registers && d.next.memory == t.memory;
  }

  lemma RegisterStep(k: nat)
    requires k < 9
    ensures Decode(Register, Expected(Register, k)).Some?
    ensures Decode(Register, Expected(Register, k)).value.next == Expected(Register, k + 1)
  {
    hide Decode, Expected;
    if k < 4 {
      RegisterStarts(k);
    } else {
      RegisterEnds(k);
    }
  }

  lemma {:induction false} StackStarts(k: nat)
    requires k < 4
    ensures Decode(Stack, Expected(Stack, k)).Some?
    ensures Decode(Stack, Expected(Stack, k)).value.next == Expected(Stack, k + 1)
  {
    var s, t := Expected(Stack, k), Expected(Stack, k + 1);
    var d := Decode(Stack, s).value;
    assert d.next.stack == t.stack && d.next.memory == t.memory;
  }

  lemma {:induction false} StackEnds(k: nat)
    requires 4 <= k < 9
    ensures Decode(Stack, Expected(Stack, k)).Some?
    ensures Decode(Stack, Expected(Stack, k)).value.next == Expected(Stack, k + 1)
  {
    var s, t := Expected(Stack, k), Expected(Stack, k + 1);
    var d := Decode(Stack, s).value;
    assert d.next.stack == t.stack && d.next.memory == t.memory;
  }

  lemma StackStep(k: nat)
    requires k < 9
    ensures Decode(Stack, Expected(Stack, k)).Some?
    ensures Decode(Stack, Expected(Stack, k)).value.next == Expected(Stack, k + 1)
  {
    hide Decode, Expected;
    if k < 4 {
      StackStarts(k);
    } else {
      StackEnds(k);
    }
  }

  lemma ProgramStep(arch: Architecture, k: nat)
    requires k < 9
    ensures var f := Fixture(arch, Expected(arch, k), k);
            StatusOf(f).Committed? && Stepped(f) == Fixture(arch, Expected(arch, k + 1), k + 1)
  {
    if arch.Register? { RegisterStep(k); } else { StackStep(k); }
  }

  /** Both programs are exactly nine instructions; then they halt and stay as they are. */
  lemma {:induction false} RunIsExpected(arch: Architecture, k: nat)
    ensures Run(arch, k) == var n := if k < 9 then k else 9; Fixture(arch, Expected(arch, n), n)
    ensures StatusOf(Run(arch, k)) == if k < 9 then Committed else Halted
  {
    if k == 0 {
      assert Expected(arch, 0).registers == Initial(arch).registers;
      assert Expected(arch, 0).stack == Initial(arch).stack;
      ProgramStep(arch, 0);
    } else {
      RunIsExpected(arch, k - 1);
      if k <= 9 { ProgramStep(arch, k - 1); }
      if k < 9 { ProgramStep(arch, k); }
    }
  }

  /** The result both programs compute: 7 + 5 in guest memory at address 16. */
  lemma ProgramsStoreTwelve(arch: Architecture, k: nat)
    requires k >= 9
    ensures Run(arch, k).state.halted && Run(arch, k).executed == 9
    ensures Shaped(Run(arch, k).state) && Run(arch, k).state.memory[0] == Cell(16, Seen(12))
  {
    RunIsExpected(arch, k);
  }

  /** The production class: `ExecuteOne` is the only writer. */
  class OwnedVmFixture {
    const architecture: Architecture
    var state: Snapshot
    var executed: nat

    constructor (architecture: Architecture)
      ensures this.architecture == architecture && Contents() == Run(architecture, 0)
    {
      this.architecture := architecture;
      state := Initial(architecture);
      executed := 0;
    }

    function Contents(): Fixture
      reads this
    {
      Fixture(architecture, state, executed)
    }

    method ExecuteOne() returns (status: ExecuteStatus, step: Option<Instruction>)
      modifies this
      ensures Contents() == Stepped(old(Contents())) && status == StatusOf(old(Contents()))
      ensures step == if status.Committed? then Some(InstructionOf(old(Contents()))) else None
    {
      if executed >= DISPATCH_BUDGET {
        return Budget, None;
      }
      if !ValidState(architecture, state, executed) {
        return InvalidState, None;
      }
      if state.halted {
        return Halted, None;
      }
      var decoded := Decode(architecture, state);
      if decoded.None? {
        return InvalidState, None;
      }
      var instruction := Assemble(state, decoded.value);
      // The only commit point.
      state := decoded.value.next;
      executed := executed + 1;
      return Committed, Some(instruction);
    }
  }
}
