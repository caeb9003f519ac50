/**
 * Which disks an advance starts from, goes on from or refuses, and for which operation
 * anything it writes stands (`advance_known_patch` in
 * tools/check-integrated-brave-state.py).
 */
module AdvanceAdmission {
  import opened Outcomes
  import opened Patches
  import opened PatchAdvance
  import opened AdvanceTransaction
  import opened AdvanceSafety

  /** The receipt is for the recorded previous integration and the pinned upstream. */
  predicate Previous(job: Job, receipt: Receipt) {
    receipt.integration == job.previousIntegration && receipt.brave == job.brave
  }

  /** An audit of another operation, or over another previous receipt. */
  predicate OfAnother(job: Job, d: Disk, a: Audit) {
    || a.request.integration != job.integration || a.request.previousIntegration != job.previousIntegration
    || a.request.brave != job.brave || a.request.previousReceipt != d.previousReceipt
  }

  /** The target holds this content with the recorded mode. */
  predicate Holding(d: Disk, plan: AdvancePlan, lines: seq<Line>) {
    Lookup(d.sources, plan.target) == Some(File(plan.mode, lines))
  }

  /** Everything but the target is as recorded, and the target holds one of the two contents. */
  ghost predicate AsRecorded(d: Disk, a: Audit) {
    && (forall l :: Lookup(a.unaffected, l) == if l == a.plan.target then None else Lookup(d.sources, l))
    && d.indexes == a.indexes && (Holding(d, a.plan, a.plan.before) || Holding(d, a.plan, a.plan.after))
  }

  /** A finished advance: its audit is complete, and its receipt names what is there. */
  predicate Finished(job: Job, d: Disk) {
    && Previous(job, d.previousReceipt)
    && d.audit.Some? && !OfAnother(job, d, d.audit.value) && d.audit.value.status == Complete
    && d.receipt == Some(Receipt(job.integration, job.brave, d.sources))
  }

  /** A recorded advance that can go on. */
  ghost predicate GoesOn(job: Job, d: Disk) {
    && Previous(job, d.previousReceipt) && d.receipt == None
    && d.audit.Some?
    && var a := d.audit.value;
    && !OfAnother(job, d, a) && a.status != NeedsReview
    && a.plan.target in Touched(job.current.Of(a.plan.target.owner))
    && d.beforeBackup == Some(a.plan.before) && d.afterBackup == Some(a.plan.after)
    && AsRecorded(d, a) && (Holding(d, a.plan, a.plan.before) ==> d.previousReceipt.upstream == d.sources)
  }

  predicate Free(backup: Option<seq<Line>>, content: seq<Line>) { backup == None || backup == Some(content) }

  /** An advance by this plan can start. */
  ghost predicate CanStart(job: Job, d: Disk, plan: AdvancePlan) {
    && Previous(job, d.previousReceipt) && d.receipt == None && d.audit == None
    && d.previousReceipt.upstream == d.sources
    && Advances(job.previous, job.current, job.head, d.sources, d.sources, plan)
    && Free(d.beforeBackup, plan.before) && Free(d.afterBackup, plan.after)
  }

  // ---------------------------------------------------------------- refusals

  /** What an attempt refuses before it changes anything, whatever would become of its steps. */
  ghost predicate Foreclosed(job: Job, d: Disk) {
    || !Previous(job, d.previousReceipt)
    || (d.audit.Some? && (OfAnother(job, d, d.audit.value) || d.audit.value.status == NeedsReview))
    || (d.receipt.Some? && !Finished(job, d))
    || (d.audit == None && d.previousReceipt.upstream != d.sources)
    || (d.audit == None && forall plan :: !Advances(job.previous, job.current, job.head, d.sources, d.sources, plan))
    || (d.audit.Some? && d.receipt == None && !AsRecorded(d, d.audit.value))
    || (d.audit.Some? && d.receipt == None && d.beforeBackup != Some(d.audit.value.plan.before))
    || (d.audit.Some? && d.receipt == None && d.afterBackup != Some(d.audit.value.plan.after))
    || (d.audit.Some? && d.receipt == None
        && var l := d.audit.value.plan.target; l !in Touched(job.current.Of(l.owner)))
  }

  lemma AsRecordedMeans(d: Disk, a: Audit)
    requires d.previousReceipt == a.request.previousReceipt
    ensures Unaffected(d, a) <==> AsRecorded(d, a)
  {
    var rest := d.sources - {a.plan.target};
    forall l ensures Lookup(rest, l) == if l == a.plan.target then None else Lookup(d.sources, l) {
    }
    if AsRecorded(d, a) {
      SameLookups(rest, a.unaffected);
    }
  }

  lemma ForeclosedStops(job: Job, d: Disk)
    requires Foreclosed(job, d)
    ensures var w := Next(job, World(d, Idle, NotRun, None), Start);
            || w == World(d, Idle, Raised, None)
            || (w == World(d, VerifyBefore(d.audit.value), NotRun, None) && d.audit.Some?
                && !Unaffected(d, d.audit.value))
  {
    if d.audit.Some? && d.previousReceipt == d.audit.value.request.previousReceipt {
      AsRecordedMeans(d, d.audit.value);
    }
    hide Advances, AsRecorded, Unaffected, Touched;
  }

  /**
   * Refusals: an attempt over an audit of another operation or one that needs review, over
   * a receipt it has not finished, with surroundings, sources or backups other than
   * recorded, or without a plan, raises and changes nothing, whichever steps would raise.
   */
  lemma ForeclosedIsRefused(job: Job, d: Disk, faults: Faults)
    requires Foreclosed(job, d)
    ensures Attempt(job, d, faults) == World(d, Idle, Raised, None)
  {
    ForeclosedStops(job, d);
    var w := Next(job, World(d, Idle, NotRun, None), Start);
    hide Foreclosed, Unaffected, Begin, Next;
    if w.phase.VerifyBefore? {
      var fate := FateOf(faults, w.phase);
      assert Step(job, w, fate) == World(d, Idle, Raised, None);
      hide Step;
      FinishOnce(job, w, faults);
    }
  }

  lemma FinishOnce(job: Job, w: World, faults: Faults)
    requires !w.phase.Idle?
    ensures Finish(job, w, faults) == Finish(job, Step(job, w, FateOf(faults, w.phase)), faults)
    ensures Step(job, w, FateOf(faults, w.phase)).phase.Idle? ==>
      Finish(job, w, faults) == Step(job, w, FateOf(faults, w.phase))
  {
  }

  // ---------------------------------------------------------------- clean attempts

  /** The disk of an advance that went through. */
  predicate AdvancedTo(job: Job, d: Disk, plan: AdvancePlan, end: Disk) {
    && end.sources == d.sources[plan.target := File(plan.mode, plan.after)]
    && end.receipt == Some(Receipt(job.integration, job.brave, end.sources))
    && end.audit.Some? && end.audit.value.status == Complete && end.audit.value.plan == plan
    && end.beforeBackup == Some(plan.before) && end.afterBackup == Some(plan.after)
    && end.indexes == d.indexes && end.previousReceipt == d.previousReceipt
  }

  lemma Writes(job: Job, d: Disk, a: Audit)
    requires Unaffected(d, a)
    ensures var w := World(d, Replace(a), NotRun, None);
            var after := d.(sources := d.sources[a.plan.target := File(a.plan.mode, a.plan.after)]);
            && Step(job, w, Works) == World(after, VerifyAfter(a), NotRun, None)
            && Unaffected(after, a) && HoldsLines(after, a.plan, a.plan.after)
  {
    var after := d.(sources := d.sources[a.plan.target := File(a.plan.mode, a.plan.after)]);
    assert after.sources - {a.plan.target} == d.sources - {a.plan.target};
    if !HoldsLines(d, a.plan, a.plan.before) {
      assert d.sources == after.sources;
    } else {
      assert WithSource(World(d, Replace(a), NotRun, None), a.plan, a.plan.after).disk == after;
    }
  }

  lemma GoesThrough(job: Job, d: Disk, a: Audit)
    requires Unaffected(d, a) && d.beforeBackup == Some(a.plan.before) && d.afterBackup == Some(a.plan.after)
    ensures var end := Finish(job, World(d, Replace(a), NotRun, None), map[]);
            end.outcome == Advanced && AdvancedTo(job, d, a.plan, end.disk)
  {
    var w0 := World(d, Replace(a), NotRun, None);
    Writes(job, d, a);
    var w1 := Step(job, w0, Works);
    FinishUnfolds(job, w0);
    FinishUnfolds(job, w1);
    Records(job, w1.disk, a);
  }

  lemma Records(job: Job, d: Disk, a: Audit)
    requires Unaffected(d, a) && HoldsLines(d, a.plan, a.plan.after)
    ensures var end := Finish(job, World(d, VerifyAfter(a), NotRun, None), map[]);
            var receipt := Receipt(job.integration, job.brave, d.sources);
            end == World(d.(audit := Some(a.(status := Complete, sourceAfter := Some(receipt))), receipt :=
                Some(receipt)),
                         Idle, Advanced, Some(d.sources))
  {
    var receipt := Receipt(job.integration, job.brave, d.sources);
    var done := a.(status := Complete, sourceAfter := Some(receipt));
    var w1 := World(d, VerifyAfter(a), NotRun, None);
    var w2 := World(d, Capture(a), NotRun, Some(d.sources));
    var w3 := World(d, MarkComplete(done), NotRun, Some(d.sources));
    var w4 := World(d.(audit := Some(done)), WriteReceipt(done), NotRun, Some(d.sources));
    var w5 := World(d.(audit := Some(done), receipt := Some(receipt)), CheckPrevious(done), NotRun, Some(d.sources));
    assert Step(job, w1, Works) == w2 && Step(job, w2, Works) == w3;
    assert Step(job, w3, Works) == w4 && Step(job, w4, Works) == w5;
    hide Step, Unaffected;
    FinishUnfolds(job, w1);
    FinishUnfolds(job, w2);
    FinishUnfolds(job, w3);
    FinishUnfolds(job, w4);
    FinishUnfolds(job, w5);
    LastStep(job, w5);
  }

  lemma LastStep(job: Job, w: World)
    requires w.phase.CheckPrevious? && w.disk.previousReceipt == w.phase.audit.request.previousReceipt
    ensures Finish(job, Step(job, w, Works), map[]) == w.(phase := Idle, outcome := Advanced)
  {
  }

  lemma ResumesExactly(job: Job, d: Disk)
    requires d.audit.Some? && d.receipt == None
    ensures GoesOn(job, d) ==>
        Attempt(job, d, map[]) == Finish(job, World(d, Replace(d.audit.value), NotRun, None), map[])
    ensures GoesOn(job, d) ==> Unaffected(d, d.audit.value)
    ensures !GoesOn(job, d) ==> Attempt(job, d, map[]).outcome == Raised
  {
    var a := d.audit.value;
    var verifying, checking := World(d, VerifyBefore(a), NotRun, None), World(d, Recheck(a), NotRun, None);
    if Foreclosed(job, d) {
      ForeclosedIsRefused(job, d, map[]);
      GoesOnIsOpen(job, d);
    } else {
      AsRecordedMeans(d, a);
      OpenResumes(job, d);
      hide Foreclosed, Begin, GoesOn, AsRecorded;
      FinishUnfolds(job, verifying);
      FinishUnfolds(job, checking);
      Rechecks(job, d, a);
    }
  }

  lemma GoesOnIsOpen(job: Job, d: Disk)
    requires Foreclosed(job, d) && d.audit.Some? && d.receipt == None
    ensures !GoesOn(job, d)
  {
  }

  lemma OpenResumes(job: Job, d: Disk)
    requires !Foreclosed(job, d) && d.audit.Some? && d.receipt == None
    ensures Next(job, World(d, Idle, NotRun, None), Start) == World(d, VerifyBefore(d.audit.value), NotRun, None)
    ensures AsRecorded(d, d.audit.value) && d.previousReceipt == d.audit.value.request.previousReceipt
    ensures GoesOn(job, d)
       <==> (Holding(d, d.audit.value.plan, d.audit.value.plan.before) ==> d.previousReceipt.upstream == d.sources)
  {
    hide AsRecorded, Advances;
  }

  lemma Rechecks(job: Job, d: Disk, a: Audit)
    requires Unaffected(d, a)
    ensures Step(job, World(d, VerifyBefore(a), NotRun, None), Works) == World(d, Recheck(a), NotRun, None)
    ensures Step(job, World(d, Recheck(a), NotRun, None), Works)
         == if Holding(d, a.plan, a.plan.before) && d.previousReceipt.upstream != d.sources
            then World(d, Idle, Raised, None) else World(d, Replace(a), NotRun, None)
  {
  }

  lemma StartsExactly(job: Job, d: Disk)
    requires d.audit == None && d.receipt == None && Routed(job.previous) && Routed(job.current)
    ensures forall plan | CanStart(job, d, plan) ::
              var end := Attempt(job, d, map[]); end.outcome == Advanced && AdvancedTo(job, d, plan, end.disk)
    ensures (forall plan :: !CanStart(job, d, plan)) ==> Attempt(job, d, map[]).outcome == Raised
  {
    if Foreclosed(job, d) {
      ForeclosedIsRefused(job, d, map[]);
    } else {
      var plan := Preflight(job, d.sources).value;
      forall other | Advances(job.previous, job.current, job.head, d.sources, d.sources, other) ensures other == plan {
        AdvancePlanIsUnique(job.previous, job.current, job.head, d.sources, d.sources, other, plan);
      }
      assert CanStart(job, d, plan) <==> Free(d.beforeBackup, plan.before) && Free(d.afterBackup, plan.after);
      StartsOrStops(job, d, plan);
    }
  }

  /** Where a fresh start without errors gets: to the guarded part, or out at a backup of other content. */
  lemma Prepares(job: Job, d: Disk, a: Audit)
    ensures var w := World(d, SaveBefore(a), NotRun, None);
            var saved := d.(beforeBackup := Some(a.plan.before), afterBackup := Some(a.plan.after), audit := Some(a));
            if Free(d.beforeBackup, a.plan.before) && Free(d.afterBackup, a.plan.after)
            then Finish(job, w, map[]) == Finish(job, World(saved, VerifyBefore(a), NotRun, None), map[])
            else Finish(job, w, map[]).outcome == Raised
  {
    var d1 := d.(beforeBackup := Some(a.plan.before));
    var d2 := d1.(afterBackup := Some(a.plan.after));
    var w0, w1, w2 := World(d, SaveBefore(a), NotRun, None), World(d1, SaveAfter(a), NotRun, None),
      World(d2, SaveAudit(a), NotRun, None);
    FinishUnfolds(job, w0);
    FinishUnfolds(job, w1);
    FinishUnfolds(job, w2);
    assert Free(d.beforeBackup, a.plan.before) ==> Step(job, w0, Works) == w1;
    assert Free(d.afterBackup, a.plan.after) ==> Step(job, w1, Works) == w2;
    assert Step(job, w2, Works) == World(d2.(audit := Some(a)), VerifyBefore(a), NotRun, None);
  }

  lemma FreshIsUnaffected(job: Job, d: Disk, plan: AdvancePlan)
    requires d.previousReceipt.upstream == d.sources
    requires plan.target in d.sources && d.sources[plan.target] == File(plan.mode, plan.before)
    ensures var a := FirstAudit(job, d, plan);
            Unaffected(d.(beforeBackup := Some(plan.before), afterBackup := Some(plan.after), audit := Some(a)), a)
  {
  }

  lemma StartsOrStops(job: Job, d: Disk, plan: AdvancePlan)
    requires !Foreclosed(job, d) && d.audit == None && d.receipt == None && Routed(job.previous) && Routed(job.current)
    requires Preflight(job, d.sources) == Some(plan)
    ensures var end := Attempt(job, d, map[]);
            if Free(d.beforeBackup, plan.before) && Free(d.afterBackup, plan.after)
            then end.outcome == Advanced && AdvancedTo(job, d, plan, end.disk)
            else end.outcome == Raised
  {
    var a := FirstAudit(job, d, plan);
    PlanFacts(job, d.sources, plan);
    assert Next(job, World(d, Idle, NotRun, None), Start) == World(d, SaveBefore(a), NotRun, None);
    assert d.previousReceipt.upstream == d.sources && a.plan == plan;
    hide Foreclosed, Begin, Next, Preflight, Routed, Touched, Unaffected, Step, FirstAudit;
    Prepares(job, d, a);
    if Free(d.beforeBackup, plan.before) && Free(d.afterBackup, plan.after) {
      var saved := d.(beforeBackup := Some(plan.before), afterBackup := Some(plan.after), audit := Some(a));
      FreshIsUnaffected(job, d, plan);
      FreshRequest(job, d, plan);
      Rechecks(job, saved, a);
      FinishUnfolds(job, World(saved, VerifyBefore(a), NotRun, None));
      FinishUnfolds(job, World(saved, Recheck(a), NotRun, None));
      GoesThrough(job, saved, a);
    }
  }

  lemma FreshRequest(job: Job, d: Disk, plan: AdvancePlan)
    ensures FirstAudit(job, d, plan).plan == plan
  {
  }

  /**
   * A clean attempt on any disk at all reports a finished advance exactly when there is
   * one, goes through exactly when a recorded advance can go on or a fresh one start,
   * by the plan of that advance, and raises on every other disk.
   */
  lemma CleanAttemptsExactly(job: Job, d: Disk)
    requires Routed(job.previous) && Routed(job.current)
    ensures var end := Attempt(job, d, map[]);
            && (end.outcome == AlreadyAdvanced <==> Finished(job, d))
            && (Finished(job, d) ==> end.disk == d)
            && (end.outcome == Advanced <==> GoesOn(job, d) || exists plan :: CanStart(job, d, plan))
            && (end.outcome == AlreadyAdvanced || end.outcome == Advanced || end.outcome == Raised)
            && (GoesOn(job, d) ==> AdvancedTo(job, d, d.audit.value.plan, end.disk))
            && (forall plan | CanStart(job, d, plan) :: AdvancedTo(job, d, plan, end.disk))
  {
    if d.receipt.Some? {
      ReceiptDecides(job, d);
    } else if d.audit.Some? {
      ResumesExactly(job, d);
      if GoesOn(job, d) {
        GoesThrough(job, d, d.audit.value);
      }
    } else {
      StartsExactly(job, d);
    }
    hide Attempt, Advances, AsRecorded, Unaffected, AdvancedTo;
  }

  lemma ReceiptDecides(job: Job, d: Disk)
    requires d.receipt.Some?
    ensures Attempt(job, d, map[]) == World(d, Idle, if Finished(job, d) then AlreadyAdvanced else Raised, None)
  {
    if !Finished(job, d) {
      ForeclosedIsRefused(job, d, map[]);
    }
  }

  // ---------------------------------------------------------------- what is written stands for the operation

  predicate NamesJob(job: Job, a: Audit) {
    && a.request.integration == job.integration && a.request.previousIntegration == job.previousIntegration
    && a.request.brave == job.brave && Previous(job, a.request.previousReceipt)
  }

  /** The plan is an advance of the job over the sources the previous receipt names. */
  ghost predicate PlansTheJob(job: Job, a: Audit) {
    var sources := a.request.previousReceipt.upstream;
    && Advances(job.previous, job.current, job.head, sources, sources, a.plan)
    && a.unaffected == sources - {a.plan.target}
  }

  predicate Captured(phase: Phase) { phase.MarkComplete? || phase.WriteReceipt? }

  ghost predicate StandsForTheJob(job: Job, d: Disk, w: World) {
    && (!w.phase.Idle? ==> NamesJob(job, w.phase.audit))
    && (!w.phase.Idle? && d.audit == None ==> PlansTheJob(job, w.phase.audit))
    && (d.audit == None && w.disk.audit.Some? ==> PlansTheJob(job, w.disk.audit.value))
    && (Captured(w.phase) ==> ForJob(job, w.phase.audit.sourceAfter))
    && (w.disk.receipt != d.receipt ==>
          ForJob(job, w.disk.receipt) && w.disk.audit.Some? && NamesJob(job, w.disk.audit.value))
  }

  predicate ForJob(job: Job, receipt: Option<Receipt>) {
    receipt.Some? && receipt.value.integration == job.integration && receipt.value.brave == job.brave
  }

  lemma StepFrame(job: Job, w: World, fate: Fate)
    requires !w.phase.Idle?
    ensures var next := Step(job, w, fate);
            && (!next.phase.Idle? ==> SamePlan(next.phase.audit, w.phase.audit))
            && (next.disk.audit == w.disk.audit
                || (next.disk.audit.Some? && SamePlan(next.disk.audit.value, w.phase.audit)))
            && (next.disk.receipt == w.disk.receipt
                || (w.phase.WriteReceipt? && next.disk.receipt == w.phase.audit.sourceAfter))
            && (Captured(next.phase) ==>
                  || next.phase.audit.sourceAfter == Some(IdentityOf(job, w.disk))
                  || (Captured(w.phase) && next.phase.audit == w.phase.audit))
  {
  }

  lemma BeginsForTheJob(job: Job, d0: Disk, w: World)
    requires Pinned(w) && w.phase.Idle? && StandsForTheJob(job, d0, w)
    ensures StandsForTheJob(job, d0, Next(job, w, Start))
  {
    hide Advances, Touched;
    var next := Next(job, w, Start);
    if next.phase.SaveBefore? {
      assert Preflight(job, w.disk.sources) == Some(next.phase.audit.plan);
      assert w.disk.previousReceipt.upstream == w.disk.sources;
    }
  }

  lemma ProceedsForTheJob(job: Job, d0: Disk, w: World, fate: Fate)
    requires Pinned(w) && !w.phase.Idle? && StandsForTheJob(job, d0, w)
    ensures StandsForTheJob(job, d0, Step(job, w, fate))
  {
    StepFrame(job, w, fate);
    hide Step, Advances;
  }

  lemma StandsStep(job: Job, d0: Disk, w: World, event: Event)
    requires Pinned(w) && StandsForTheJob(job, d0, w)
    ensures StandsForTheJob(job, d0, Next(job, w, event))
  {
    hide Advances, Pinned;
    match event
    case Start =>
      if w.phase.Idle? {
        BeginsForTheJob(job, d0, w);
      }
    case Proceed(fate) =>
      if !w.phase.Idle? {
        ProceedsForTheJob(job, d0, w, fate);
      }
    case Crash =>
    case Foreign(_) =>
  }

  lemma {:induction false} StandsRun(job: Job, d0: Disk, w: World, events: seq<Event>)
    requires Pinned(w) && StandsForTheJob(job, d0, w)
    ensures StandsForTheJob(job, d0, Exec(job, w, events))
    decreases |events|
  {
    hide Pinned, StandsForTheJob, Next;
    if events != [] {
      PinnedStep(job, w, events[0]);
      StandsStep(job, d0, w, events[0]);
      StandsRun(job, d0, Next(job, w, events[0]), events[1..]);
    }
  }

  /**
   * Over every history, crashed, failing and edited anywhere: a receipt that appears is
   * for the job's integration and upstream, over an audit of this very operation; and an
   * audit that appears plans an advance of the job from the sources the previous receipt
   * names.
   */
  lemma WrittenForTheOperation(job: Job, d: Disk, events: seq<Event>)
    ensures var end := Exec(job, World(d, Idle, NotRun, None), events).disk;
            && (end.receipt != d.receipt ==>
                  && end.receipt.Some? && end.audit.Some?
                  && end.receipt.value.integration == end.audit.value.request.integration == job.integration
                  && end.receipt.value.brave == end.audit.value.request.brave == job.brave
                  && end.audit.value.request.previousIntegration == job.previousIntegration
                  && end.audit.value.request.previousReceipt.integration == job.previousIntegration)
            && (d.audit == None && end.audit.Some? ==>
                  var a := end.audit.value;
                  var sources := a.request.previousReceipt.upstream;
                  && Advances(job.previous, job.current, job.head, sources, sources, a.plan)
                  && a.unaffected == sources - {a.plan.target})
  {
    hide Advances;
    StandsRun(job, d, World(d, Idle, NotRun, None), events);
  }

  /**
   * The final verification passes exactly when all is as recorded and the new content
   * stands; otherwise the handler runs.
   */
  lemma VerifiesExactly(job: Job, w: World, fate: Fate)
    requires w.phase.VerifyAfter?
    ensures var a, next := w.phase.audit, Step(job, w, fate);
            && next.disk == w.disk && (next.phase == Capture(a) || next.phase == RollBack(a))
            && (next.phase == Capture(a) <==>
                  && fate == Works && w.disk.previousReceipt == a.request.previousReceipt
                  && AsRecorded(w.disk, a) && Holding(w.disk, a.plan, a.plan.after))
  {
    if w.disk.previousReceipt == w.phase.audit.request.previousReceipt {
      AsRecordedMeans(w.disk, w.phase.audit);
    }
    hide AsRecorded;
  }

  /**
   * The end of an invocation: it reports an advance exactly when the previous receipt is
   * still the one it began with.
   */
  lemma AdvancedIsReported(job: Job, d: Disk, events: seq<Event>, fate: Fate)
    ensures var w := Exec(job, World(d, Idle, NotRun, None), events);
            var end := Step(job, w, fate);
            w.phase.CheckPrevious? ==>
              && w.disk.audit.Some? && end.disk == w.disk
              && (end.outcome == Advanced
                  <==> fate == Works && w.disk.previousReceipt == w.disk.audit.value.request.previousReceipt)
  {
    PinnedRun(job, World(d, Idle, NotRun, None), events);
  }
}
