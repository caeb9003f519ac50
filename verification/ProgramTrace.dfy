/**
 * The two fixed programs written out: what each instruction reads and writes, and what
 * the machine holds (src/analysis/owned_vm_fixture.cpp).
 */
module ProgramTrace {
  import opened OwnedVm

  /** An instruction of a program: its code, its operands and its effects in order. */
  datatype Row = Row(opcode: nat, operands: seq<Operand>, effects: seq<Effect>)

  function Reads(place: Place, index: nat, bits: nat): Effect { Effect(Read, place, index, Value(bits, Observed)) }

  function Writes(place: Place, index: nat, bits: nat): Effect { Effect(Write, place, index, Value(bits, Observed)) }

  function Clears(index: nat): Effect { Effect(Write, StackSlots, index, Value(0, Unknown)) }

  function Of(place: Place, index: nat, bits: nat): Operand { Operand(place, index, Value(bits, Observed)) }

  /** 7 and 5 into two registers, their sum to address 16 and back, and three jumps to the end. */
  const REGISTER_PROGRAM: seq<Row> := [
    Row(1, [Of(Immediate, 0, 7)], [Writes(Registers, 0, 7)]),
    Row(1, [Of(Immediate, 0, 5)], [Writes(Registers, 1, 5)]),
    Row(2, [Of(Registers, 0, 7), Of(Registers, 1, 5)],
        [Reads(Registers, 0, 7), Reads(Registers, 1, 5), Writes(Registers, 0, 12)]),
    Row(3, [Of(Registers, 0, 12)], [Reads(Registers, 0, 12), Writes(Memory, 16, 12)]),
    Row(4, [Of(Memory, 16, 12)], [Reads(Memory, 16, 12), Writes(Registers, 2, 12)]),
    Row(5, [Of(Registers, 2, 12), Of(Immediate, 0, 10)], [Reads(Registers, 2, 12)]),
    Row(6, [Of(Immediate, 0, 8)], []),
    Row(7, [Of(Registers, 2, 12), Of(Immediate, 0, 10)], [Reads(Registers, 2, 12)]),
    Row(8, [], [])]

  /** The same over a stack, whose freed slots are cleared. */
  const STACK_PROGRAM: seq<Row> := [
    Row(1, [Of(Immediate, 0, 7)], [Writes(StackSlots, 0, 7)]),
    Row(1, [Of(Immediate, 0, 5)], [Writes(StackSlots, 1, 5)]),
    Row(2, [Of(StackSlots, 0, 7), Of(StackSlots, 1, 5)],
        [Reads(StackSlots, 0, 7), Reads(StackSlots, 1, 5), Writes(StackSlots, 0, 12), Clears(1)]),
    Row(3, [Of(StackSlots, 0, 12)], [Reads(StackSlots, 0, 12), Writes(Memory, 16, 12), Clears(0)]),
    Row(4, [Of(Memory, 16, 12)], [Reads(Memory, 16, 12), Writes(StackSlots, 0, 12)]),
    Row(5, [Of(StackSlots, 0, 12), Of(Immediate, 0, 10)], [Reads(StackSlots, 0, 12)]),
    Row(6, [Of(Immediate, 0, 8)], []),
    Row(7, [Of(StackSlots, 0, 12), Of(Immediate, 0, 10)], [Reads(StackSlots, 0, 12)]),
    Row(8, [], [])]

  lemma RegisterRow(k: nat)
    requires k < 9 && Decode(Register, Expected(Register, k)).Some?
    ensures var d := Decode(Register, Expected(Register, k)).value;
            d.opcode == REGISTER_PROGRAM[k].opcode && d.operands == REGISTER_PROGRAM[k].operands
            && d.effects == REGISTER_PROGRAM[k].effects
  {
  }

  lemma StackRow(k: nat)
    requires k < 9 && Decode(Stack, Expected(Stack, k)).Some?
    ensures var d := Decode(Stack, Expected(Stack, k)).value;
            d.opcode == STACK_PROGRAM[k].opcode && d.operands == STACK_PROGRAM[k].operands
            && d.effects == STACK_PROGRAM[k].effects
  {
  }

  /** The program counter, and the words in the slots and at address 16, before each instruction and at the end. */
  datatype Shown = Shown(pc: nat, slots: seq<nat>, stored: bool)

  const REGISTER_STATES: seq<Shown> := [
    Shown(0, [], false), Shown(1, [7], false), Shown(2, [7, 5], false), Shown(3, [12, 5], false),
    Shown(4, [12, 5], true), Shown(5, [12, 5, 12], true), Shown(6, [12, 5, 12], true), Shown(8, [12, 5, 12], true),
    Shown(10, [12, 5, 12], true), Shown(10, [12, 5, 12], true)]

  const STACK_STATES: seq<Shown> := [
    Shown(0, [], false), Shown(1, [7], false), Shown(2, [7, 5], false), Shown(3, [12], false),
    Shown(4, [], true), Shown(5, [12], true), Shown(6, [12], true), Shown(8, [12], true),
    Shown(10, [12], true), Shown(10, [12], true)]

  /** The first slots hold these words as observed, and the others nothing. */
  predicate Slots(bank: seq<Value>, words: seq<nat>) {
    && |bank| == 8 && |words| <= 8
    && forall i | 0 <= i < 8 :: bank[i] == if i < |words| then Value(words[i], Observed) else Value(0, Unknown)
  }

  predicate Holds(arch: Architecture, s: Snapshot, shown: Shown, halted: bool) {
    && s.pc == shown.pc && s.pcEvidence == Observed && s.halted == halted && !s.partial
    && s.registerCount == (if arch == Register then 3 else 0)
    && s.stackCount == (if arch == Register then 0 else |shown.slots|)
    && Slots(s.registers, if arch == Register then shown.slots else [])
    && Slots(s.stack, if arch == Register then [] else shown.slots)
    && s.memoryCount == (if shown.stored then 1 else 0) && |s.memory| == 8
    && forall i | 0 <= i < 8 ::
         s.memory[i] == if i == 0 && shown.stored then Cell(16, Value(12, Observed)) else Cell(0, Value(0, Unknown))
  }

  lemma RegisterState(k: nat)
    requires k < 10
    ensures Holds(Register, Expected(Register, k), REGISTER_STATES[k], k == 9)
  {
  }

  lemma StackState(k: nat)
    requires k < 10
    ensures Holds(Stack, Expected(Stack, k), STACK_STATES[k], k == 9)
  {
  }

  /** After k instructions, nine of them at most, the machine holds what the tables say. */
  lemma RunHolds(arch: Architecture, k: nat)
    ensures var n := if k < 9 then k else 9;
            && Run(arch, k).executed == n
            && Holds(arch, Run(arch, k).state, if arch == Register then REGISTER_STATES[n] else STACK_STATES[n], n == 9)
  {
    var n := if k < 9 then k else 9;
    RunIsExpected(arch, k);
    hide Run, Expected, Holds, REGISTER_STATES, STACK_STATES;
    if arch == Register {
      RegisterState(n);
    } else {
      StackState(n);
    }
  }

  /** Each instruction that commits is the program's, between the states around it, and complete. */
  lemma RunTraces(arch: Architecture, k: nat)
    requires k < 9
    ensures StatusOf(Run(arch, k)) == Committed
    ensures var row := if arch == Register then REGISTER_PROGRAM[k] else STACK_PROGRAM[k];
            var step := InstructionOf(Run(arch, k));
            && step.opcode == row.opcode && step.opcodeEvidence == Observed && !step.partial
            && step.operandCount == |row.operands| && step.operands[..step.operandCount] == row.operands
            && step.effectCount == |row.effects| && step.effects[..step.effectCount] == row.effects
            && step.before == Run(arch, k).state && step.after == Run(arch, k + 1).state
  {
    RunIsExpected(arch, k);
    ProgramStep(arch, k);
    if arch == Register {
      RegisterRow(k);
    } else {
      StackRow(k);
    }
    hide Expected, Decode, ValidState, REGISTER_PROGRAM, STACK_PROGRAM;
  }
}
