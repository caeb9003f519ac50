/**
 * Advancing one recorded source file under crashes, failing writes and foreign
 * edits (`advance_known_patch` in tools/check-integrated-brave-state.py).
 *
 * Every atomic disk access is one step. Between any two steps the process may
 * die, and others may edit sources, index entries, backups or the old receipt.
 * A digest stands for the content it was taken from.
 */
module AdvanceTransaction {
  import opened Outcomes
  import opened Patches
  import opened PatchAdvance

  /** What one invocation is asked to do: the two clean source checkouts and the upstream HEAD. */
  datatype Job = Job(integration: string, previousIntegration: string, brave: string,
                     previous: Stacks, current: Stacks, head: Tree)

  datatype Receipt = Receipt(integration: string, brave: string, upstream: Tree)
  datatype Request = Request(integration: string, previousIntegration: string, brave: string, previousReceipt: Receipt)
  datatype Status = Prepared | Complete | RolledBack | NeedsReview
  datatype Audit = Audit(request: Request, status: Status, plan: AdvancePlan, unaffected: Tree,
                         indexes: int, sourceAfter: Option<Receipt>)

  datatype Disk = Disk(sources: Tree, indexes: int, previousReceipt: Receipt,
                       beforeBackup: Option<seq<Line>>, afterBackup: Option<seq<Line>>,
                       audit: Option<Audit>, receipt: Option<Receipt>)

  /** Where a running invocation stands; its local audit travels with it. */
  datatype Phase =
    | Idle
    | SaveBefore(audit: Audit)
    | SaveAfter(audit: Audit)
    | SaveAudit(audit: Audit)
    | VerifyBefore(audit: Audit)
    | Recheck(audit: Audit)
    | Replace(audit: Audit)
    | VerifyAfter(audit: Audit)
    | Capture(audit: Audit)
    | MarkComplete(audit: Audit)
    | WriteReceipt(audit: Audit)
    | CheckPrevious(audit: Audit)
    | RollBack(audit: Audit)
    | MarkRolledBack(audit: Audit, restored: bool)

  datatype Outcome = NotRun | Advanced | AlreadyAdvanced | Raised

  /** `verified` is history only: the sources the last successful final verification saw. */
  datatype World = World(disk: Disk, phase: Phase, outcome: Outcome, verified: Option<Tree>)

  datatype Edit =
    | SetSource(l: Location, entry: Option<File>)
    | SetIndexes(indexes: int)
    | SetPreviousReceipt(receipt: Receipt)
    | SetBeforeBackup(content: Option<seq<Line>>)
    | SetAfterBackup(content: Option<seq<Line>>)

  datatype Event = Start | Proceed(fate: Fate) | Crash | Foreign(edit: Edit)

  function Put(tree: Tree, l: Location, entry: Option<File>): Tree {
    if entry.Some? then tree[l := entry.value] else tree - {l}
  }

  function ApplyEdit(d: Disk, e: Edit): Disk {
    match e
    case SetSource(l, entry) => d.(sources := Put(d.sources, l, entry))
    case SetIndexes(i) => d.(indexes := i)
    case SetPreviousReceipt(r) => d.(previousReceipt := r)
    case SetBeforeBackup(c) => d.(beforeBackup := c)
    case SetAfterBackup(c) => d.(afterBackup := c)
  }

  ghost function Preflight(job: Job, sources: Tree): Option<AdvancePlan> {
    if plan :| Advances(job.previous, job.current, job.head, sources, sources, plan) then Some(plan) else None
  }

  function HoldsLines(d: Disk, plan: AdvancePlan, lines: seq<Line>): bool {
    plan.target in d.sources && d.sources[plan.target].lines == lines
  }

  /** `verify_unaffected`: everything but the destination is as recorded, and it holds known bytes. */
  predicate Unaffected(d: Disk, a: Audit) {
    && d.previousReceipt == a.request.previousReceipt
    && d.sources - {a.plan.target} == a.unaffected
    && d.indexes == a.indexes
    && a.plan.target in d.sources && d.sources[a.plan.target].mode == a.plan.mode
    && (HoldsLines(d, a.plan, a.plan.before) || HoldsLines(d, a.plan, a.plan.after))
  }

  function RequestOf(job: Job, d: Disk): Request {
    Request(job.integration, job.previousIntegration, job.brave, d.previousReceipt)
  }

  function IdentityOf(job: Job, d: Disk): Receipt {
    Receipt(job.integration, job.brave, d.sources)
  }

  /** Admission: refuse, report a finished advance, plan a fresh one or resume a recorded one. */
  ghost function Begin(job: Job, d: Disk): (Phase, Outcome) {
    var request := RequestOf(job, d);
    if d.previousReceipt.integration != job.previousIntegration || d.previousReceipt.brave != job.brave
        then (Idle, Raised)
    else if d.audit.Some? && d.audit.value.request != request then (Idle, Raised)
    else if d.audit.Some? && d.audit.value.status == NeedsReview then (Idle, Raised)
    else if d.receipt.Some? then
      if d.audit.Some? && d.audit.value.status == Complete && d.receipt.value == IdentityOf(job, d)
      then (Idle, AlreadyAdvanced) else (Idle, Raised)
    else if d.audit.None? then
      if d.previousReceipt.upstream != d.sources then (Idle, Raised)
      else
        match Preflight(job, d.sources)
        case None => (Idle, Raised)
        case Some(plan) =>
          (SaveBefore(Audit(request, Prepared, plan, d.sources - {plan.target}, d.indexes, None)), NotRun)
    else
      var a := d.audit.value;
      if a.plan.target !in Touched(job.current.Of(a.plan.target.owner)) then (Idle, Raised)
      else if d.beforeBackup != Some(a.plan.before) || d.afterBackup != Some(a.plan.after) then (Idle, Raised)
      else (VerifyBefore(a), NotRun)
  }

  function Stop(w: World, outcome: Outcome): World {
    w.(phase := Idle, outcome := outcome)
  }

  /** `preserve_blob`: publish a backup, accept an equal one, refuse a different one. */
  function Preserve(existing: Option<seq<Line>>, content: seq<Line>): Option<seq<Line>> {
    if existing.None? || existing.value == content then Some(content) else None
  }

  /** An effect before the guarded block: raising ends the invocation, even behind the effect. */
  function Leave(done: World, next: Phase, fate: Fate): World {
    if fate == Works then done.(phase := next) else Stop(done, Raised)
  }

  /** An effect inside the guarded block: raising enters the handler, even behind the effect. */
  function Guard(done: World, a: Audit, next: Phase, fate: Fate): World {
    done.(phase := if fate == Works then next else RollBack(a))
  }

  function WithSource(w: World, plan: AdvancePlan, lines: seq<Line>): World {
    w.(disk := w.disk.(sources := w.disk.sources[plan.target := File(plan.mode, lines)]))
  }

  /** The target is exactly a file of the plan with these lines. */
  predicate IsExactly(d: Disk, plan: AdvancePlan, lines: seq<Line>) {
    plan.target in d.sources && d.sources[plan.target] == File(plan.mode, lines)
  }

  /** One atomic step of the running invocation; a step that raises may already have taken effect. */
  function Step(job: Job, w: World, fate: Fate): World {
    var d := w.disk;
    match w.phase
    case Idle => w
    case SaveBefore(a) =>
      var saved := Preserve(d.beforeBackup, a.plan.before);
      if fate == FailsBefore || saved.None? then Stop(w, Raised)
      else Leave(w.(disk := d.(beforeBackup := saved)), SaveAfter(a), fate)
    case SaveAfter(a) =>
      var saved := Preserve(d.afterBackup, a.plan.after);
      if fate == FailsBefore || saved.None? then Stop(w, Raised)
      else Leave(w.(disk := d.(afterBackup := saved)), SaveAudit(a), fate)
    case SaveAudit(a) =>
      if fate == FailsBefore then Stop(w, Raised)
      else Leave(w.(disk := d.(audit := Some(a))), VerifyBefore(a), fate)
    case VerifyBefore(a) =>
      if fate != Works || !Unaffected(d, a) then Stop(w, Raised) else w.(phase := Recheck(a))
    case Recheck(a) =>
      if fate != Works || a.plan.target !in d.sources
         || (HoldsLines(d, a.plan, a.plan.before) && a.request.previousReceipt.upstream != d.sources)
      then Stop(w, Raised) else w.(phase := Replace(a))
    case Replace(a) =>
      if fate == FailsBefore || a.plan.target !in d.sources then w.(phase := RollBack(a))
      else if HoldsLines(d, a.plan, a.plan.before) then
        Guard(WithSource(w, a.plan, a.plan.after), a, VerifyAfter(a), fate)
      else Guard(w, a, VerifyAfter(a), fate)
    case VerifyAfter(a) =>
      if fate != Works || !Unaffected(d, a) || !HoldsLines(d, a.plan, a.plan.after) then w.(phase := RollBack(a))
      else w.(phase := Capture(a), verified := Some(d.sources))
    case Capture(a) =>
      if fate == FailsBefore then w.(phase := RollBack(a))
      else
        var complete := a.(status := Complete, sourceAfter := Some(IdentityOf(job, d)));
        Guard(w, complete, MarkComplete(complete), fate)
    case MarkComplete(a) =>
      if fate == FailsBefore then w.(phase := RollBack(a))
      else Guard(w.(disk := d.(audit := Some(a))), a, WriteReceipt(a), fate)
    case WriteReceipt(a) =>
      if fate == FailsBefore then w.(phase := RollBack(a))
      else Guard(w.(disk := d.(receipt := a.sourceAfter)), a, CheckPrevious(a), fate)
    case CheckPrevious(a) =>
      Stop(w, if fate != Works || d.previousReceipt != a.request.previousReceipt then Raised else Advanced)
    case RollBack(a) =>
      // An edit that is neither content of the plan stays.
      if fate == FailsBefore then Stop(w, Raised)
      else if IsExactly(d, a.plan, a.plan.after) then
        Leave(WithSource(w, a.plan, a.plan.before), MarkRolledBack(a, true), fate)
      else
        Leave(w, MarkRolledBack(a, IsExactly(d, a.plan, a.plan.before)), fate)
    case MarkRolledBack(a, restored) =>
      if fate == FailsBefore then Stop(w, Raised)
      else Stop(w.(disk := d.(audit := Some(a.(status := if restored then RolledBack else NeedsReview)))), Raised)
  }

  /** The workspace lock admits one invocation at a time. */
  ghost function Next(job: Job, w: World, event: Event): World {
    match event
    case Start =>
      if w.phase.Idle? then
        var (phase, outcome) := Begin(job, w.disk);
        w.(phase := phase, outcome := outcome)
      else w
    case Proceed(fate) => Step(job, w, fate)
    case Crash => w.(phase := Idle)
    case Foreign(e) => w.(disk := ApplyEdit(w.disk, e))
  }

  ghost function Exec(job: Job, w: World, events: seq<Event>): World
    decreases |events|
  {
    if events == [] then w else Exec(job, Next(job, w, events[0]), events[1..])
  }

  function Rank(phase: Phase): nat {
    match phase
    case Idle => 0
    case MarkRolledBack(_, _) => 1
    case RollBack(_) => 2
    case CheckPrevious(_) => 3
    case WriteReceipt(_) => 4
    case MarkComplete(_) => 5
    case Capture(_) => 6
    case VerifyAfter(_) => 7
    case Replace(_) => 8
    case Recheck(_) => 9
    case VerifyBefore(_) => 10
    case SaveAudit(_) => 11
    case SaveAfter(_) => 12
    case SaveBefore(_) => 13
  }

  /** What becomes of each step of one invocation, by rank; steps not named work. */
  type Faults = map<nat, Fate>

  function FateOf(faults: Faults, phase: Phase): Fate {
    if Rank(phase) in faults then faults[Rank(phase)] else Works
  }

  /** The rest of an invocation with nobody interfering. */
  function Finish(job: Job, w: World, faults: Faults): World
    decreases Rank(w.phase)
  {
    if w.phase.Idle? then w else Finish(job, Step(job, w, FateOf(faults, w.phase)), faults)
  }

  ghost function Attempt(job: Job, d: Disk, faults: Faults): World {
    Finish(job, Next(job, World(d, Idle, NotRun, None), Start), faults)
  }

  /** An attempt is one particular run of the step relation. */
  lemma {:induction false} FinishIsARun(job: Job, w: World, faults: Faults) returns (events: seq<Event>)
    ensures Finish(job, w, faults) == Exec(job, w, events)
    ensures forall e <- events :: e.Proceed?
    decreases Rank(w.phase)
  {
    if w.phase.Idle? {
      events := [];
    } else {
      var fate := FateOf(faults, w.phase);
      var rest := FinishIsARun(job, Step(job, w, fate), faults);
      events := [Proceed(fate)] + rest;
      assert events[1..] == rest;
    }
  }

  // ---------------------------------------------------------------- recovery

  /** A recorded, unadvanced workspace whose preflight succeeds. */
  ghost predicate Ready(job: Job, d: Disk, plan: AdvancePlan) {
    && Routed(job.previous) && Routed(job.current)
    && d.previousReceipt.integration == job.previousIntegration && d.previousReceipt.brave == job.brave
    && d.previousReceipt.upstream == d.sources
    && d.audit.None? && d.receipt.None?
    && d.beforeBackup.None? && d.afterBackup.None?
    && Preflight(job, d.sources) == Some(plan)
  }

  lemma PlanFacts(job: Job, sources: Tree, plan: AdvancePlan)
    requires Routed(job.previous) && Routed(job.current)
    requires Preflight(job, sources) == Some(plan)
    ensures plan.target in sources && sources[plan.target] == File(plan.mode, plan.before)
    ensures plan.before != plan.after
    ensures plan.target in Touched(job.current.Of(plan.target.owner))
  {
    var owner := plan.target.owner;
    var before, after := job.previous.Of(owner), job.current.Of(owner);
    var original := Original(job.head, sources, owner, Touched(before));
    assert SameInventory(before, after);
    RebuiltFrame(original, before, after, Touched(before));
    var desired := Rebuilt(original, before, after).value;
    assert Lookup(original, plan.target) != Lookup(desired, plan.target);
  }

  /** What the steps after admission rely on. */
  predicate Planned(d: Disk, plan: AdvancePlan) {
    && d.previousReceipt.upstream == d.sources
    && plan.target in d.sources && d.sources[plan.target] == File(plan.mode, plan.before)
    && plan.before != plan.after
  }

  function AdvancedSources(d: Disk, plan: AdvancePlan): Tree {
    d.sources[plan.target := File(plan.mode, plan.after)]
  }

  function FirstAudit(job: Job, d: Disk, plan: AdvancePlan): Audit {
    Audit(RequestOf(job, d), Prepared, plan, d.sources - {plan.target}, d.indexes, None)
  }

  function NewReceipt(job: Job, d: Disk, plan: AdvancePlan): Receipt {
    Receipt(job.integration, job.brave, AdvancedSources(d, plan))
  }

  /** The disk a completed advance leaves. */
  function Completed(job: Job, d: Disk, plan: AdvancePlan): Disk {
    var receipt := NewReceipt(job, d, plan);
    d.(sources := AdvancedSources(d, plan),
       beforeBackup := Some(plan.before), afterBackup := Some(plan.after),
       audit := Some(FirstAudit(job, d, plan).(status := Complete, sourceAfter := Some(receipt))),
       receipt := Some(receipt))
  }

  ghost predicate OurAudit(job: Job, d0: Disk, plan: AdvancePlan, a: Audit) {
    && a.(status := Prepared, sourceAfter := None) == FirstAudit(job, d0, plan)
    && a.status != NeedsReview
    && (a.sourceAfter.None? || a.sourceAfter == Some(NewReceipt(job, d0, plan)))
    && (a.status == Complete ==> a.sourceAfter.Some?)
  }

  ghost predicate DiskOk(job: Job, d0: Disk, plan: AdvancePlan, d: Disk) {
    && (d.sources == d0.sources || d.sources == AdvancedSources(d0, plan))
    && d.indexes == d0.indexes && d.previousReceipt == d0.previousReceipt
    && (d.beforeBackup.None? || d.beforeBackup == Some(plan.before))
    && (d.afterBackup.None? || d.afterBackup == Some(plan.after))
    && (d.audit.None? ==> d.sources == d0.sources && d.receipt.None?)
    && (d.audit.Some? ==> d.beforeBackup.Some? && d.afterBackup.Some? && OurAudit(job, d0, plan, d.audit.value))
    && (d.receipt.Some? ==> d == Completed(job, d0, plan))
  }

  /** Everywhere an undisturbed chain of attempts can be, on any schedule of crashes and failures. */
  ghost predicate OnCourse(job: Job, d0: Disk, plan: AdvancePlan, w: World) {
    var d := w.disk;
    && DiskOk(job, d0, plan, d)
    && (!w.phase.Idle? ==> OurAudit(job, d0, plan, w.phase.audit))
    && (match w.phase
        case Idle => true
        case SaveBefore(a) => d.audit.None? && a == FirstAudit(job, d0, plan)
        case SaveAfter(a) => d.audit.None? && a == FirstAudit(job, d0, plan) && d.beforeBackup.Some?
        case SaveAudit(a) => d.audit.None? && a == FirstAudit(job, d0, plan) && d.beforeBackup.Some?
            && d.afterBackup.Some?
        case VerifyBefore(a) => d.audit.Some? && d.receipt.None?
        case Recheck(a) => d.audit.Some? && d.receipt.None?
        case Replace(a) => d.audit.Some? && d.receipt.None?
        case RollBack(a) => d.audit.Some?
        case VerifyAfter(a) => d.audit.Some? && d.receipt.None? && d.sources == AdvancedSources(d0, plan)
        case Capture(a) => d.audit.Some? && d.receipt.None? && d.sources == AdvancedSources(d0, plan)
        case MarkComplete(a) =>
          d.audit.Some? && d.receipt.None? && d.sources == AdvancedSources(d0, plan) && a.status == Complete
        case WriteReceipt(a) =>
          d.audit == Some(a) && d.receipt.None? && d.sources == AdvancedSources(d0, plan) && a.status == Complete
        case CheckPrevious(a) => d.receipt.Some?
        case MarkRolledBack(a, restored) => d.audit.Some? && d.receipt.None? && restored && d.sources == d0.sources)
  }

  /** What starting again finds, by what the disk already holds. */
  lemma BeginOnCourse(job: Job, d0: Disk, plan: AdvancePlan, d: Disk)
    requires Ready(job, d0, plan) && DiskOk(job, d0, plan, d)
    ensures d.receipt.Some? ==> Begin(job, d) == (Idle, AlreadyAdvanced)
    ensures d.audit.None? ==> Begin(job, d) == (SaveBefore(FirstAudit(job, d0, plan)), NotRun)
    ensures d.receipt.None? && d.audit.Some? ==> Begin(job, d) == (VerifyBefore(d.audit.value), NotRun)
  {
    PlanFacts(job, d0.sources, plan);
    SourcesFacts(d0, plan);
    hide Preflight;
  }

  lemma {:induction false} OnCourseBegin(job: Job, d0: Disk, plan: AdvancePlan, w: World)
    requires Ready(job, d0, plan) && OnCourse(job, d0, plan, w) && w.phase.Idle?
    ensures OnCourse(job, d0, plan, Next(job, w, Start))
    ensures w.disk.receipt.Some? ==> Next(job, w, Start) == w.(outcome := AlreadyAdvanced)
    ensures w.disk.receipt.None? ==> Next(job, w, Start).phase.SaveBefore? || Next(job, w, Start).phase.VerifyBefore?
  {
    OnCourseAgain(job, d0, plan, w);
    BeginOnCourse(job, d0, plan, w.disk);
    FirstAuditIsOurs(job, d0, plan);
    DiskFacts(job, d0, plan, w.disk);
    NextStart(job, w);
    hide Begin, Ready, FirstAudit, DiskOk, OurAudit, Next, OnCourse;
    if w.disk.receipt.Some? {
      OnCourseAgain(job, d0, plan, w);
    } else if w.disk.audit.None? {
      OnCourseAnew(job, d0, plan, w);
    } else {
      OnCourseResumed(job, d0, plan, w);
    }
  }

  lemma OnCourseAgain(job: Job, d0: Disk, plan: AdvancePlan, w: World)
    requires OnCourse(job, d0, plan, w) && w.phase.Idle?
    ensures DiskOk(job, d0, plan, w.disk)
    ensures OnCourse(job, d0, plan, w.(phase := Idle, outcome := AlreadyAdvanced))
    ensures w.(phase := Idle, outcome := AlreadyAdvanced) == w.(outcome := AlreadyAdvanced)
  {
  }

  lemma OnCourseAnew(job: Job, d0: Disk, plan: AdvancePlan, w: World)
    requires DiskOk(job, d0, plan, w.disk) && w.disk.audit.None?
    requires OurAudit(job, d0, plan, FirstAudit(job, d0, plan))
    ensures OnCourse(job, d0, plan, w.(phase := SaveBefore(FirstAudit(job, d0, plan)), outcome := NotRun))
  {
    hide OurAudit, FirstAudit, DiskOk;
  }

  lemma OnCourseResumed(job: Job, d0: Disk, plan: AdvancePlan, w: World)
    requires DiskOk(job, d0, plan, w.disk) && w.disk.audit.Some? && w.disk.receipt.None?
    requires OurAudit(job, d0, plan, w.disk.audit.value)
    ensures OnCourse(job, d0, plan, w.(phase := VerifyBefore(w.disk.audit.value), outcome := NotRun))
  {
    hide OurAudit, DiskOk;
  }

  lemma NextStart(job: Job, w: World)
    requires w.phase.Idle?
    ensures Next(job, w, Start) == w.(phase := Begin(job, w.disk).0, outcome := Begin(job, w.disk).1)
  {
  }

  lemma DiskFacts(job: Job, d0: Disk, plan: AdvancePlan, d: Disk)
    requires DiskOk(job, d0, plan, d)
    ensures d.receipt.Some? ==> d.audit.Some?
    ensures d.audit.Some? ==> OurAudit(job, d0, plan, d.audit.value)
  {
  }

  lemma FirstAuditIsOurs(job: Job, d0: Disk, plan: AdvancePlan)
    ensures OurAudit(job, d0, plan, FirstAudit(job, d0, plan))
  {
  }

  lemma OnCourseSaving(job: Job, d0: Disk, plan: AdvancePlan, w: World, fate: Fate)
    requires Planned(d0, plan) && OnCourse(job, d0, plan, w)
    requires w.phase.SaveBefore? || w.phase.SaveAfter? || w.phase.SaveAudit?
    ensures OnCourse(job, d0, plan, Step(job, w, fate))
  {
  }

  lemma {:induction false} OnCourseVerifying(job: Job, d0: Disk, plan: AdvancePlan, w: World, fate: Fate)
    requires Planned(d0, plan) && OnCourse(job, d0, plan, w)
    requires w.phase.VerifyBefore? || w.phase.Recheck? || w.phase.VerifyAfter? || w.phase.Capture?
    ensures OnCourse(job, d0, plan, Step(job, w, fate))
  {
    SourcesFacts(d0, plan);
  }

  lemma OnCourseReplacing(job: Job, d0: Disk, plan: AdvancePlan, w: World, fate: Fate)
    requires Planned(d0, plan) && OnCourse(job, d0, plan, w) && w.phase.Replace?
    ensures OnCourse(job, d0, plan, Step(job, w, fate))
  {
    SourcesFacts(d0, plan);
    var after := Step(job, w, fate);
    if fate != FailsBefore {
      if w.disk.sources == d0.sources {
        assert HoldsLines(w.disk, plan, plan.before);
        assert after.disk == w.disk.(sources := AdvancedSources(d0, plan));
      } else {
        assert !HoldsLines(w.disk, plan, plan.before);
        assert after.disk == w.disk;
      }
      assert after.phase == if fate == Works then VerifyAfter(w.phase.audit) else RollBack(w.phase.audit);
    }
  }

  lemma OnCourseRecording(job: Job, d0: Disk, plan: AdvancePlan, w: World, fate: Fate)
    requires Planned(d0, plan) && OnCourse(job, d0, plan, w)
    requires w.phase.MarkComplete? || w.phase.WriteReceipt? || w.phase.CheckPrevious?
    ensures OnCourse(job, d0, plan, Step(job, w, fate))
  {
  }

  lemma {:induction false} OnCourseRollingBack(job: Job, d0: Disk, plan: AdvancePlan, w: World, fate: Fate)
    requires Planned(d0, plan) && OnCourse(job, d0, plan, w)
    requires w.phase.MarkRolledBack? || (w.phase.RollBack? && !RestoresUnderReceipt(w, Proceed(fate)))
    ensures OnCourse(job, d0, plan, Step(job, w, fate))
  {
    SourcesFacts(d0, plan);
    if w.phase.RollBack? && fate != FailsBefore {
      var a, after := w.phase.audit, Step(job, w, fate);
      assert a.plan == plan;
      assert after.disk == w.disk.(sources := d0.sources);
      assert after.phase == if fate == Works then MarkRolledBack(a, true) else Idle;
    }
  }

  lemma OnCourseProceed(job: Job, d0: Disk, plan: AdvancePlan, w: World, fate: Fate)
    requires Planned(d0, plan) && OnCourse(job, d0, plan, w) && !RestoresUnderReceipt(w, Proceed(fate))
    ensures OnCourse(job, d0, plan, Step(job, w, fate))
  {
    match w.phase
    case Idle =>
    case SaveBefore(_) => OnCourseSaving(job, d0, plan, w, fate);
    case SaveAfter(_) => OnCourseSaving(job, d0, plan, w, fate);
    case SaveAudit(_) => OnCourseSaving(job, d0, plan, w, fate);
    case VerifyBefore(_) => OnCourseVerifying(job, d0, plan, w, fate);
    case Recheck(_) => OnCourseVerifying(job, d0, plan, w, fate);
    case Replace(_) => OnCourseReplacing(job, d0, plan, w, fate);
    case VerifyAfter(_) => OnCourseVerifying(job, d0, plan, w, fate);
    case Capture(_) => OnCourseVerifying(job, d0, plan, w, fate);
    case MarkComplete(_) => OnCourseRecording(job, d0, plan, w, fate);
    case WriteReceipt(_) => OnCourseRecording(job, d0, plan, w, fate);
    case CheckPrevious(_) => OnCourseRecording(job, d0, plan, w, fate);
    case RollBack(_) => OnCourseRollingBack(job, d0, plan, w, fate);
    case MarkRolledBack(_, _) => OnCourseRollingBack(job, d0, plan, w, fate);
  }

  lemma OnCourseStep(job: Job, d0: Disk, plan: AdvancePlan, w: World, event: Event)
    requires Ready(job, d0, plan) && OnCourse(job, d0, plan, w)
    requires !event.Foreign? && !RestoresUnderReceipt(w, event)
    ensures OnCourse(job, d0, plan, Next(job, w, event))
  {
    PlanFacts(job, d0.sources, plan);
    match event
    case Start =>
      if w.phase.Idle? { OnCourseBegin(job, d0, plan, w); }
    case Crash =>
    case Proceed(fate) => OnCourseProceed(job, d0, plan, w, fate);
  }

  lemma SourcesFacts(d0: Disk, plan: AdvancePlan)
    requires plan.target in d0.sources && d0.sources[plan.target] == File(plan.mode, plan.before)
    ensures AdvancedSources(d0, plan) - {plan.target} == d0.sources - {plan.target}
    ensures d0.sources[plan.target := File(plan.mode, plan.before)] == d0.sources
    ensures AdvancedSources(d0, plan)[plan.target := File(plan.mode, plan.before)] == d0.sources
    ensures AdvancedSources(d0, plan)[plan.target := File(plan.mode, plan.after)] == AdvancedSources(d0, plan)
  {
  }

  // The receipt is written inside the guarded block. An error raised behind that write
  // enters the handler, which restores the file and leaves the receipt.

  /** The handler puts the old content back while a receipt exists. */
  predicate RestoresUnderReceipt(w: World, event: Event) {
    && event.Proceed? && event.fate != FailsBefore
    && w.phase.RollBack? && w.disk.receipt.Some? && IsExactly(w.disk, w.phase.audit.plan, w.phase.audit.plan.after)
  }

  ghost predicate RestoredUnderReceipt(job: Job, w: World, events: seq<Event>)
    decreases |events|
  {
    events != [] && (RestoresUnderReceipt(w, events[0])
        || RestoredUnderReceipt(job, Next(job, w, events[0]), events[1..]))
  }

  /** A receipt for the new content over the old content, and at most the audit still to be written. */
  ghost predicate Stuck(job: Job, d0: Disk, plan: AdvancePlan, w: World) {
    var d := w.disk;
    && d.receipt == Some(NewReceipt(job, d0, plan)) && d.sources == d0.sources
    && d.previousReceipt == d0.previousReceipt
    && d.audit.Some? && d.audit.value.request == RequestOf(job, d0) && d.audit.value.status != NeedsReview
    && (w.phase.Idle?
        || (w.phase.MarkRolledBack? && w.phase.restored && w.phase.audit.request == RequestOf(job, d0)))
  }

  lemma {:induction false} BecomesStuck(job: Job, d0: Disk, plan: AdvancePlan, w: World, event: Event)
    requires Planned(d0, plan) && OnCourse(job, d0, plan, w) && RestoresUnderReceipt(w, event)
    ensures Stuck(job, d0, plan, Next(job, w, event))
  {
    SourcesFacts(d0, plan);
    assert w.disk == Completed(job, d0, plan) && w.phase.audit.plan == plan;
    assert Next(job, w, event).disk == w.disk.(sources := d0.sources);
  }

  lemma {:induction false} StuckBegins(job: Job, d0: Disk, plan: AdvancePlan, d: Disk)
    requires Ready(job, d0, plan) && Planned(d0, plan) && Stuck(job, d0, plan, World(d, Idle, NotRun, None))
    ensures Begin(job, d) == (Idle, Raised)
  {
    hide Preflight;
    assert d0.sources[plan.target] != AdvancedSources(d0, plan)[plan.target];
  }

  lemma {:induction false} StuckStays(job: Job, d0: Disk, plan: AdvancePlan, w: World, event: Event)
    requires Ready(job, d0, plan) && Planned(d0, plan) && Stuck(job, d0, plan, w) && !event.Foreign?
    ensures Stuck(job, d0, plan, Next(job, w, event))
  {
    match event
    case Start =>
      if w.phase.Idle? {
        StuckBegins(job, d0, plan, w.disk);
        hide Begin, Ready, Planned, NewReceipt;
      }
    case Crash =>
      hide Begin, Ready, Planned, NewReceipt;
    case Proceed(fate) =>
      hide Begin, Ready, Planned, NewReceipt;
      StuckProceeds(job, d0, plan, w, fate);
  }

  lemma {:induction false} StuckProceeds(job: Job, d0: Disk, plan: AdvancePlan, w: World, fate: Fate)
    requires Stuck(job, d0, plan, w)
    ensures Stuck(job, d0, plan, Step(job, w, fate))
  {
    hide NewReceipt, RequestOf, Begin;
    if w.phase.MarkRolledBack? {
      assert Step(job, w, fate).disk.receipt == w.disk.receipt;
    }
  }

  /** A stuck disk refuses every attempt, whatever fails in it, and no attempt changes it. */
  lemma {:induction false} StuckAttempt(job: Job, d0: Disk, plan: AdvancePlan, w: World, faults: Faults)
    requires Ready(job, d0, plan) && Planned(d0, plan) && Stuck(job, d0, plan, w)
    ensures Attempt(job, w.disk, faults) == World(w.disk, Idle, Raised, None)
  {
    StuckBegins(job, d0, plan, w.disk);
  }

  lemma {:induction false} StuckRun(job: Job, d0: Disk, plan: AdvancePlan, w: World, events: seq<Event>)
    requires Ready(job, d0, plan) && Planned(d0, plan) && Stuck(job, d0, plan, w)
    requires forall e <- events :: !e.Foreign?
    ensures Stuck(job, d0, plan, Exec(job, w, events))
    decreases |events|
  {
    if events != [] {
      StuckStays(job, d0, plan, w, events[0]);
      StuckRun(job, d0, plan, Next(job, w, events[0]), events[1..]);
    }
  }

  /** Every history without foreign edits stays on course, or ends stuck where a handler restored under a receipt. */
  lemma {:induction false} OnCourseRun(job: Job, d0: Disk, plan: AdvancePlan, w: World, events: seq<Event>)
    requires Ready(job, d0, plan) && OnCourse(job, d0, plan, w)
    requires forall e <- events :: !e.Foreign?
    ensures if RestoredUnderReceipt(job, w, events) then Stuck(job, d0, plan, Exec(job, w, events))
            else OnCourse(job, d0, plan, Exec(job, w, events))
    decreases |events|
  {
    hide OnCourse, Stuck, Ready, Next, RestoresUnderReceipt;
    if events != [] {
      ReadyIsPlanned(job, d0, plan);
      if RestoresUnderReceipt(w, events[0]) {
        BecomesStuck(job, d0, plan, w, events[0]);
        StuckRun(job, d0, plan, Next(job, w, events[0]), events[1..]);
      } else {
        OnCourseStep(job, d0, plan, w, events[0]);
        OnCourseRun(job, d0, plan, Next(job, w, events[0]), events[1..]);
      }
    }
  }

  lemma ReadyIsPlanned(job: Job, d0: Disk, plan: AdvancePlan)
    requires Ready(job, d0, plan)
    ensures Planned(d0, plan)
  {
    PlanFacts(job, d0.sources, plan);
  }

  predicate Forward(phase: Phase) {
    !phase.Idle? && !phase.RollBack? && !phase.MarkRolledBack?
  }

  /** Fault-free, an on-course run never turns back and ends with the completed disk. */
  ghost predicate GoesOn(job: Job, d0: Disk, plan: AdvancePlan, w: World) {
    var next := Step(job, w, Works);
    if w.phase.CheckPrevious?
    then next.phase.Idle? && next.outcome == Advanced && next.disk == Completed(job, d0, plan)
    else Forward(next.phase)
  }

  lemma FaultFreeVerification(job: Job, d0: Disk, plan: AdvancePlan, w: World)
    requires Planned(d0, plan) && OnCourse(job, d0, plan, w)
    requires w.phase.VerifyBefore? || w.phase.Recheck? || w.phase.VerifyAfter?
    ensures GoesOn(job, d0, plan, w)
  {
    SourcesFacts(d0, plan);
    var d, a := w.disk, w.phase.audit;
    assert a.plan == plan && a.request == RequestOf(job, d0) && a.unaffected == d0.sources - {plan.target};
    assert Unaffected(d, a);
    assert HoldsLines(d, plan, plan.before) ==> d.sources == d0.sources;
  }

  lemma FaultFreeSaving(job: Job, d0: Disk, plan: AdvancePlan, w: World)
    requires Planned(d0, plan) && OnCourse(job, d0, plan, w)
    requires w.phase.SaveBefore? || w.phase.SaveAfter? || w.phase.SaveAudit?
    ensures GoesOn(job, d0, plan, w)
  {
  }

  lemma FaultFreeReplacing(job: Job, d0: Disk, plan: AdvancePlan, w: World)
    requires Planned(d0, plan) && OnCourse(job, d0, plan, w) && w.phase.Replace?
    ensures GoesOn(job, d0, plan, w)
  {
  }

  lemma FaultFreeRecording(job: Job, d0: Disk, plan: AdvancePlan, w: World)
    requires Planned(d0, plan) && OnCourse(job, d0, plan, w)
    requires w.phase.Capture? || w.phase.MarkComplete? || w.phase.WriteReceipt? || w.phase.CheckPrevious?
    ensures GoesOn(job, d0, plan, w)
  {
  }

  lemma FaultFreeGoesOn(job: Job, d0: Disk, plan: AdvancePlan, w: World)
    requires Planned(d0, plan) && OnCourse(job, d0, plan, w) && Forward(w.phase)
    ensures GoesOn(job, d0, plan, w)
  {
    match w.phase
    case SaveBefore(_) => FaultFreeSaving(job, d0, plan, w);
    case SaveAfter(_) => FaultFreeSaving(job, d0, plan, w);
    case SaveAudit(_) => FaultFreeSaving(job, d0, plan, w);
    case VerifyBefore(_) => FaultFreeVerification(job, d0, plan, w);
    case Recheck(_) => FaultFreeVerification(job, d0, plan, w);
    case Replace(_) => FaultFreeReplacing(job, d0, plan, w);
    case VerifyAfter(_) => FaultFreeVerification(job, d0, plan, w);
    case Capture(_) => FaultFreeRecording(job, d0, plan, w);
    case MarkComplete(_) => FaultFreeRecording(job, d0, plan, w);
    case WriteReceipt(_) => FaultFreeRecording(job, d0, plan, w);
    case CheckPrevious(_) => FaultFreeRecording(job, d0, plan, w);
  }

  lemma {:induction false} FinishUnfolds(job: Job, w: World)
    requires !w.phase.Idle?
    ensures Finish(job, w, map[]) == Finish(job, Step(job, w, Works), map[])
    ensures Rank(Step(job, w, Works).phase) < Rank(w.phase)
  {
    assert FateOf(map[], w.phase) == Works;
  }

  lemma {:induction false} FaultFreeFinish(job: Job, d0: Disk, plan: AdvancePlan, w: World)
    requires Planned(d0, plan) && OnCourse(job, d0, plan, w) && Forward(w.phase)
    ensures Finish(job, w, map[]).disk == Completed(job, d0, plan) && Finish(job, w, map[]).outcome == Advanced
    decreases Rank(w.phase)
  {
    var next := Step(job, w, Works);
    FinishUnfolds(job, w);
    FaultFreeGoesOn(job, d0, plan, w);
    if !w.phase.CheckPrevious? {
      OnCourseProceed(job, d0, plan, w, Works);
      FaultFreeFinish(job, d0, plan, next);
    }
  }

  lemma AttemptCompletes(job: Job, d0: Disk, plan: AdvancePlan, w: World)
    requires Ready(job, d0, plan) && OnCourse(job, d0, plan, w)
    ensures Attempt(job, w.disk, map[]).disk == Completed(job, d0, plan)
    ensures Attempt(job, w.disk, map[]).outcome == if w.disk.receipt.Some? then AlreadyAdvanced else Advanced
  {
    var idle := World(w.disk, Idle, NotRun, None);
    OnCourseBegin(job, d0, plan, idle);
    PlanFacts(job, d0.sources, plan);
    if w.disk.receipt.None? {
      FaultFreeFinish(job, d0, plan, Next(job, idle, Start));
    }
  }

  lemma {:induction false} StartsOnCourse(job: Job, d0: Disk, plan: AdvancePlan)
    requires Ready(job, d0, plan)
    ensures OnCourse(job, d0, plan, World(d0, Idle, NotRun, None))
    ensures OnCourse(job, d0, plan, World(Completed(job, d0, plan), Idle, Advanced, None))
  {
    PlanFacts(job, d0.sources, plan);
  }

  /**
   * Recovery. Whatever attempts ran, each crashed between any two steps or raising
   * before or behind the effect of any of them: one uninterrupted rerun leaves exactly the
   * disk an undisturbed first run leaves, and a further rerun changes nothing, if and only
   * if no handler put the old content back while a receipt existed. After such a
   * handler every rerun refuses and changes nothing.
   */
  lemma {:induction false} AdvanceRecovers(job: Job, d0: Disk, plan: AdvancePlan, events: seq<Event>)
    requires Ready(job, d0, plan)
    requires forall e <- events :: !e.Foreign?
    ensures var start := World(d0, Idle, NotRun, None);
            var w := Exec(job, start, events);
            && Attempt(job, d0, map[]).disk == Completed(job, d0, plan)
            && (Attempt(job, w.disk, map[]).disk == Completed(job, d0, plan)
                <==> !RestoredUnderReceipt(job, start, events))
            && (RestoredUnderReceipt(job, start, events)
                <==> w.disk.receipt.Some? && w.disk.sources != w.disk.receipt.value.upstream)
            && (RestoredUnderReceipt(job, start, events) ==>
                  forall faults: Faults :: Attempt(job, w.disk, faults) == World(w.disk, Idle, Raised, None))
            && Attempt(job, Completed(job, d0, plan), map[])
                 == World(Completed(job, d0, plan), Idle, AlreadyAdvanced, None)
  {
    ReadyIsPlanned(job, d0, plan);
    StartsOnCourse(job, d0, plan);
    var start := World(d0, Idle, NotRun, None);
    var w := Exec(job, start, events);
    OnCourseRun(job, d0, plan, start, events);
    AttemptCompletes(job, d0, plan, start);
    AttemptCompletes(job, d0, plan, World(Completed(job, d0, plan), Idle, Advanced, None));
    hide OnCourse, Ready, Planned, Attempt;
    if RestoredUnderReceipt(job, start, events) {
      forall faults: Faults ensures Attempt(job, w.disk, faults) == World(w.disk, Idle, Raised, None) {
        StuckAttempt(job, d0, plan, w, faults);
      }
      StuckIsNotCompleted(job, d0, plan, w);
      assert Attempt(job, w.disk, map[]) == World(w.disk, Idle, Raised, None);
    } else {
      AttemptCompletes(job, d0, plan, w);
    }
  }

  lemma StuckIsNotCompleted(job: Job, d0: Disk, plan: AdvancePlan, w: World)
    requires Planned(d0, plan) && Stuck(job, d0, plan, w)
    ensures w.disk != Completed(job, d0, plan)
  {
    assert d0.sources[plan.target] != AdvancedSources(d0, plan)[plan.target];
  }

  /** One error, raised behind the receipt write. */
  ghost predicate RaisesBehindTheReceipt(faults: Faults) {
    forall phase: Phase :: FateOf(faults, phase) == if phase.WriteReceipt? then FailsAfter else Works
  }

  /** The disk of a completed advance with the old content put back under its receipt. */
  function RestoredUnder(job: Job, d: Disk, plan: AdvancePlan): Disk {
    var done := Completed(job, d, plan);
    done.(sources := d.sources, audit := Some(done.audit.value.(status := RolledBack)))
  }

  lemma {:induction false} HandledBehindTheReceipt(job: Job, d0: Disk, plan: AdvancePlan, w: World, faults: Faults)
    requires Planned(d0, plan) && OnCourse(job, d0, plan, w) && w.phase.WriteReceipt? && RaisesBehindTheReceipt(faults)
    ensures Finish(job, w, faults).disk == RestoredUnder(job, d0, plan) && Finish(job, w, faults).outcome == Raised
  {
    SourcesFacts(d0, plan);
    var a := w.phase.audit;
    var handled := Step(job, w, FailsAfter);
    assert handled == World(Completed(job, d0, plan), RollBack(a), w.outcome, w.verified);
    var restored := Step(job, handled, Works);
    assert restored == World(handled.disk.(sources := d0.sources), MarkRolledBack(a, true), w.outcome, w.verified);
    var ended := Step(job, restored, Works);
    hide Step;
    assert FateOf(faults, w.phase) == FailsAfter;
    assert FateOf(faults, handled.phase) == Works && FateOf(faults, restored.phase) == Works;
    assert Finish(job, w, faults) == Finish(job, handled, faults) == Finish(job, restored, faults)
        == Finish(job, ended, faults);
  }

  lemma {:induction false} RunsToTheReceipt(job: Job, d0: Disk, plan: AdvancePlan, w: World, faults: Faults)
    requires Planned(d0, plan) && OnCourse(job, d0, plan, w) && RaisesBehindTheReceipt(faults)
    requires Forward(w.phase) && !w.phase.CheckPrevious?
    ensures Finish(job, w, faults).disk == RestoredUnder(job, d0, plan) && Finish(job, w, faults).outcome == Raised
    decreases Rank(w.phase)
  {
    if w.phase.WriteReceipt? {
      HandledBehindTheReceipt(job, d0, plan, w, faults);
    } else {
      assert FateOf(faults, w.phase) == Works;
      FaultFreeGoesOn(job, d0, plan, w);
      OnCourseProceed(job, d0, plan, w, Works);
      NextIsLater(job, w);
      hide Step, OnCourse, Planned;
      RunsToTheReceipt(job, d0, plan, Step(job, w, Works), faults);
    }
  }

  lemma NextIsLater(job: Job, w: World)
    requires !w.phase.Idle?
    ensures Rank(Step(job, w, Works).phase) < Rank(w.phase)
    ensures Step(job, w, Works).phase.CheckPrevious? ==> w.phase.WriteReceipt?
  {
  }

  /**
   * The input: on every ready workspace a first attempt whose one error is raised behind
   * the receipt write leaves the receipt over the old content, and from there every
   * attempt refuses and changes nothing.
   */
  lemma {:induction false} ReceiptOverRestoredSource(job: Job, d0: Disk, plan: AdvancePlan, faults: Faults,
        later: Faults)
    requires Ready(job, d0, plan) && RaisesBehindTheReceipt(faults)
    ensures var ended := Attempt(job, d0, faults);
            && ended.disk == RestoredUnder(job, d0, plan) && ended.outcome == Raised
            && ended.disk.receipt.Some? && ended.disk.sources == d0.sources
            && Attempt(job, ended.disk, later) == World(ended.disk, Idle, Raised, None)
  {
    ReadyIsPlanned(job, d0, plan);
    StartsOnCourse(job, d0, plan);
    var start := World(d0, Idle, NotRun, None);
    OnCourseBegin(job, d0, plan, start);
    RunsToTheReceipt(job, d0, plan, Next(job, start, Start), faults);
    assert Stuck(job, d0, plan, World(RestoredUnder(job, d0, plan), Idle, NotRun, None));
    StuckAttempt(job, d0, plan, World(RestoredUnder(job, d0, plan), Idle, NotRun, None), later);
  }

  const LATE_ERROR: Faults := map[4 := FailsAfter]

  lemma OneLateError()
    ensures RaisesBehindTheReceipt(LATE_ERROR)
  {
  }
}
