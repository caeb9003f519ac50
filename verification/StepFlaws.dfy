/**
 * What the recorder refuses as malformed (src/analysis/native_vm_recorder.cpp), flaw by flaw.
 */
module StepFlaws {
  import opened OwnedVm
  import opened NativeRecorder

  predicate FlawedValue(v: Value) { v.evidence == Unknown && v.bits > 0 }

  /** An unused slot that holds something. */
  ghost predicate Leftover(s: Snapshot)
    requires Shaped(s)
  {
    || (exists i | s.registerCount <= i < 8 :: s.registers[i] != Value(0, Unknown))
    || (exists i | s.stackCount <= i < 8 :: s.stack[i] != Value(0, Unknown))
    || (exists i | s.memoryCount <= i < 8 :: s.memory[i] != Cell(0, Value(0, Unknown)))
  }

  ghost predicate FlawedSnapshot(s: Snapshot)
    requires Shaped(s)
  {
    || s.registerCount > 8 || s.stackCount > 8 || s.memoryCount > 8 || (s.pcEvidence == Unknown && s.pc > 0)
    || (exists i | 0 <= i < 8 :: FlawedValue(s.registers[i]))
    || (exists i | 0 <= i < 8 :: FlawedValue(s.stack[i]))
    || (exists i | 0 <= i < 8 :: FlawedValue(s.memory[i].value))
    || (exists i, j | 0 <= i < j < s.memoryCount && j < 8 :: s.memory[i].address == s.memory[j].address)
    || Leftover(s)
  }

  predicate FlawedPlace(place: Place, index: nat) {
    (place == Immediate && index > 0) || ((place == Registers || place == StackSlots) && index > 7)
  }

  ghost predicate FlawedOperand(step: Instruction, i: nat)
    requires ShapedStep(step) && i < 4
  {
    var o := step.operands[i];
    || FlawedPlace(o.place, o.index) || FlawedValue(o.value)
    || (i >= step.operandCount && o != Operand(Immediate, 0, Value(0, Unknown)))
  }

  ghost predicate FlawedEffect(step: Instruction, i: nat)
    requires ShapedStep(step) && i < 8
  {
    var e := step.effects[i];
    || e.place == Immediate || FlawedPlace(e.place, e.index) || FlawedValue(e.value)
    || (i >= step.effectCount && e != Effect(Read, Registers, 0, Value(0, Unknown)))
  }

  ghost predicate Flawed(step: Instruction)
    requires ShapedStep(step)
  {
    || step.operandCount > 4 || step.effectCount > 8 || (step.opcodeEvidence == Unknown && step.opcode > 0)
    || (exists i | 0 <= i < 4 :: FlawedOperand(step, i))
    || (exists i | 0 <= i < 8 :: FlawedEffect(step, i))
    || FlawedSnapshot(step.before) || FlawedSnapshot(step.after)
  }

  lemma SnapshotExactly(s: Snapshot)
    requires Shaped(s)
    ensures ValidSnapshot(s) <==> !FlawedSnapshot(s)
  {
    if !FlawedSnapshot(s) {
      assert forall i | 0 <= i < SLOTS ::
          !FlawedValue(s.registers[i]) && !FlawedValue(s.stack[i]) && !FlawedValue(s.memory[i].value);
    }
  }

  lemma ValidExactly(step: Instruction)
    requires ShapedStep(step)
    ensures ValidStep(step) <==> !Flawed(step)
  {
    SnapshotExactly(step.before);
    SnapshotExactly(step.after);
    hide ValidSnapshot, FlawedSnapshot;
    if !Flawed(step) {
      forall i | 0 <= i < MAX_OPERANDS
        ensures ValidOperand(step.operands[i]) && (i >= step.operandCount ==> step.operands[i] == NO_OPERAND)
      {
        assert !FlawedOperand(step, i);
      }
      forall i | 0 <= i < MAX_EFFECTS
        ensures ValidEffect(step.effects[i]) && (i >= step.effectCount ==> step.effects[i] == NO_EFFECT)
      {
        assert !FlawedEffect(step, i);
      }
    }
  }

  /** Among the admissions that reach the check, the malformed are exactly the flawed. */
  lemma MalformedExactly(r: Recorder, document: nat, generation: nat, now: nat, step: Instruction)
    requires ShapedStep(step) && r.enabled && generation == r.generation && document == r.scope.document
    requires r.lastTick <= now < r.scope.expiresAt && r.stats.attempted < MAX_U64
    ensures Record(r, document, generation, now, step).1
         == if Flawed(step) then Malformed else if |r.entries| == r.capacity then Full else Recorded
  {
    ValidExactly(step);
    hide ValidStep, Flawed;
  }
}
