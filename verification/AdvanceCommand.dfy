/**
 * The advance command as it runs: a workspace whose disk is changed in place
 * (`advance_known_patch` in tools/check-integrated-brave-state.py, `preserve_blob`
 * and `atomic_source` in tools/brave_patch_advance.py). Any chosen steps may raise,
 * before or behind their effect; whatever they are, one call is one attempt of the step
 * relation.
 */
module AdvanceCommand {
  import opened Outcomes
  import opened Patches
  import opened PatchAdvance
  import StackPlan
  import opened AdvanceTransaction

  datatype Admission = Refuse | Done | Fresh(audit: Audit) | Resume(audit: Audit)

  /** Where the attempt continues after admission. */
  function Continuation(admission: Admission): (Phase, Outcome) {
    match admission
    case Refuse => (Idle, Raised)
    case Done => (Idle, AlreadyAdvanced)
    case Fresh(a) => (SaveBefore(a), NotRun)
    case Resume(a) => (VerifyBefore(a), NotRun)
  }

  lemma FinishStep(job: Job, w: World, faults: Faults)
    requires !w.phase.Idle?
    ensures Finish(job, w, faults) == Finish(job, Step(job, w, FateOf(faults, w.phase)), faults)
  {
  }

  class Workspace {
    var disk: Disk

    constructor (disk: Disk)
      ensures this.disk == disk
    {
      this.disk := disk;
    }

    ghost function At(phase: Phase, verified: Option<Tree>): World
      reads this
    {
      World(disk, phase, NotRun, verified)
    }

    method Admit(job: Job) returns (admission: Admission)
      requires Routed(job.previous) && Routed(job.current)
      ensures Continuation(admission) == Begin(job, disk)
    {
      var previous := disk.previousReceipt;
      if previous.integration != job.previousIntegration || previous.brave != job.brave {
        return Refuse;
      }
      var request := RequestOf(job, disk);
      var audit := disk.audit;
      if audit.Some? && (audit.value.request != request || audit.value.status == NeedsReview) {
        return Refuse;
      }
      if disk.receipt.Some? {
        if audit.Some? && audit.value.status == Complete && disk.receipt.value == IdentityOf(job, disk) {
          return Done;
        }
        return Refuse;
      }
      if audit.None? {
        if previous.upstream != disk.sources {
          return Refuse;
        }
        var prepared := PrepareSingleFile(job.previous, job.current, job.head, disk.sources, disk.sources);
        if prepared.Refused? {
          return Refuse;
        }
        var plan := prepared.value;
        PreflightIs(job, disk.sources, plan);
        return Fresh(Audit(request, Prepared, plan, disk.sources - {plan.target}, disk.indexes, None));
      }
      var plan := audit.value.plan;
      var inventory := StackPlan.PatchPaths(job.current.Of(plan.target.owner));
      if plan.target !in inventory || disk.beforeBackup != Some(plan.before) || disk.afterBackup != Some(plan.after) {
        return Refuse;
      }
      return Resume(audit.value);
    }

    /** Publish both backups and the prepared audit. */
    method Prepare(job: Job, a: Audit, faults: Faults) returns (ok: bool)
      modifies this
      ensures Finish(job, old(At(SaveBefore(a), None)), faults) ==
              if ok then Finish(job, At(VerifyBefore(a), None), faults) else Stop(At(Idle, None), Raised)
    {
      FinishStep(job, At(SaveBefore(a), None), faults);
      var fate := FateOf(faults, SaveBefore(a));
      if fate == FailsBefore || (disk.beforeBackup.Some? && disk.beforeBackup.value != a.plan.before) {
        return false;
      }
      disk := disk.(beforeBackup := Some(a.plan.before));
      if fate == FailsAfter {
        return false;
      }
      FinishStep(job, At(SaveAfter(a), None), faults);
      fate := FateOf(faults, SaveAfter(a));
      if fate == FailsBefore || (disk.afterBackup.Some? && disk.afterBackup.value != a.plan.after) {
        return false;
      }
      disk := disk.(afterBackup := Some(a.plan.after));
      if fate == FailsAfter {
        return false;
      }
      FinishStep(job, At(SaveAudit(a), None), faults);
      fate := FateOf(faults, SaveAudit(a));
      if fate == FailsBefore {
        return false;
      }
      disk := disk.(audit := Some(a));
      ok := fate == Works;
    }

    /** The checks before the guarded part: nothing has been changed when they refuse. */
    method VerifyUnchanged(job: Job, a: Audit, faults: Faults) returns (ok: bool)
      ensures Finish(job, At(VerifyBefore(a), None), faults) ==
              if ok then Finish(job, At(Replace(a), None), faults) else Stop(At(Idle, None), Raised)
    {
      FinishStep(job, At(VerifyBefore(a), None), faults);
      if FateOf(faults, VerifyBefore(a)) != Works || !Unaffected(disk, a) {
        return false;
      }
      FinishStep(job, At(Recheck(a), None), faults);
      if FateOf(faults, Recheck(a)) != Works || a.plan.target !in disk.sources
         || (disk.sources[a.plan.target].lines == a.plan.before && a.request.previousReceipt.upstream != disk.sources) {
        return false;
      }
      ok := true;
    }

    /** The guarded part: replace the file, verify, capture the new state and record it. */
    method Commit(job: Job, a: Audit, faults: Faults) returns (ok: bool, local: Audit, ghost verified: Option<Tree>)
      modifies this
      ensures Finish(job, old(At(Replace(a), None)), faults) ==
              Finish(job, At(if ok then CheckPrevious(local) else RollBack(local), verified), faults)
      ensures local.request == a.request && local.plan == a.plan
    {
      local, ok, verified := a, false, None;
      FinishStep(job, At(Replace(a), None), faults);
      var fate := FateOf(faults, Replace(a));
      if fate == FailsBefore || a.plan.target !in disk.sources {
        return;
      }
      if disk.sources[a.plan.target].lines == a.plan.before {
        AtomicSource(a.plan.target, a.plan.after, a.plan.mode);
      }
      if fate == FailsAfter {
        return;
      }
      FinishStep(job, At(VerifyAfter(a), None), faults);
      if FateOf(faults, VerifyAfter(a)) != Works || !Unaffected(disk, a)
          || disk.sources[a.plan.target].lines != a.plan.after {
        return;
      }
      verified := Some(disk.sources);
      FinishStep(job, At(Capture(a), verified), faults);
      fate := FateOf(faults, Capture(a));
      if fate == FailsBefore {
        return;
      }
      local := a.(status := Complete, sourceAfter := Some(IdentityOf(job, disk)));
      if fate == FailsAfter {
        return;
      }
      ok := RecordCompletion(job, local, faults, verified);
    }

    /** The end of the guarded part: the audit says complete, then the receipt appears. */
    method RecordCompletion(job: Job, a: Audit, faults: Faults, ghost verified: Option<Tree>) returns (ok: bool)
      modifies this
      ensures Finish(job, old(At(MarkComplete(a), verified)), faults) ==
              Finish(job, At(if ok then CheckPrevious(a) else RollBack(a), verified), faults)
    {
      FinishStep(job, At(MarkComplete(a), verified), faults);
      var fate := FateOf(faults, MarkComplete(a));
      if fate == FailsBefore {
        return false;
      }
      disk := disk.(audit := Some(a));
      if fate == FailsAfter {
        return false;
      }
      FinishStep(job, At(WriteReceipt(a), verified), faults);
      fate := FateOf(faults, WriteReceipt(a));
      if fate == FailsBefore {
        return false;
      }
      disk := disk.(receipt := a.sourceAfter);
      ok := fate == Works;
    }

    method AtomicSource(l: Location, content: seq<Line>, mode: nat)
      modifies this
      ensures disk == old(disk).(sources := old(disk).sources[l := File(mode, content)])
    {
      disk := disk.(sources := disk.sources[l := File(mode, content)]);
    }

    /** The exception handler: bytes other than the ones written here stay, and the audit says which case it was. */
    method Recover(job: Job, a: Audit, faults: Faults, ghost verified: Option<Tree>)
      modifies this
      ensures Finish(job, old(At(RollBack(a), verified)), faults) == Stop(At(Idle, verified), Raised)
    {
      FinishStep(job, At(RollBack(a), verified), faults);
      var fate := FateOf(faults, RollBack(a));
      if fate == FailsBefore {
        return;
      }
      var restored := false;
      var target := a.plan.target;
      if target in disk.sources && disk.sources[target].mode == a.plan.mode {
        if disk.sources[target].lines == a.plan.after {
          AtomicSource(target, a.plan.before, a.plan.mode);
        }
        restored := disk.sources[target].lines == a.plan.before;
      }
      if fate == FailsAfter {
        return;
      }
      FinishStep(job, At(MarkRolledBack(a, restored), verified), faults);
      if FateOf(faults, MarkRolledBack(a, restored)) == FailsBefore {
        return;
      }
      disk := disk.(audit := Some(a.(status := if restored then RolledBack else NeedsReview)));
    }

    /** One invocation with nobody interfering; `faults` says which steps raise, and whether behind their effect. */
    method AdvanceKnownPatch(job: Job, faults: Faults) returns (outcome: Outcome)
      requires Routed(job.previous) && Routed(job.current)
      modifies this
      ensures var attempt := Attempt(job, old(disk), faults); disk == attempt.disk && outcome == attempt.outcome
    {
      var admission := Admit(job);
      if admission.Refuse? {
        return Raised;
      } else if admission.Done? {
        return AlreadyAdvanced;
      }
      var a := admission.audit;
      if admission.Fresh? {
        var prepared := Prepare(job, a, faults);
        if !prepared {
          return Raised;
        }
      }
      var verified := VerifyUnchanged(job, a, faults);
      if !verified {
        return Raised;
      }
      var ok, local, seen := Commit(job, a, faults);
      if !ok {
        Recover(job, local, faults, seen);
        return Raised;
      }
      FinishStep(job, At(CheckPrevious(local), seen), faults);
      if FateOf(faults, CheckPrevious(local)) != Works || disk.previousReceipt != local.request.previousReceipt {
        return Raised;
      }
      return Advanced;
    }
  }

  lemma PreflightIs(job: Job, sources: Tree, plan: AdvancePlan)
    requires Advances(job.previous, job.current, job.head, sources, sources, plan)
    ensures Preflight(job, sources) == Some(plan)
  {
    var found := Preflight(job, sources).value;
    AdvancePlanIsUnique(job.previous, job.current, job.head, sources, sources, plan, found);
  }
}
