/**
 * What every interleaving of advance attempts, crashes, failed writes and foreign
 * edits keeps (`advance_known_patch` in tools/check-integrated-brave-state.py).
 */
module AdvanceSafety {
  import opened Outcomes
  import opened Patches
  import opened PatchAdvance
  import opened AdvanceTransaction

  ghost predicate SamePlan(a: Audit, b: Audit) {
    a.request == b.request && a.plan == b.plan && a.unaffected == b.unaffected && a.indexes == b.indexes
  }

  predicate BeforeAudit(phase: Phase) {
    phase.SaveBefore? || phase.SaveAfter? || phase.SaveAudit?
  }

  predicate InWindow(phase: Phase) {
    phase.Capture? || phase.MarkComplete? || phase.WriteReceipt?
  }

  /** The phases before the receipt; only the handler and the last check can follow it. */
  predicate Unrecorded(phase: Phase) {
    !phase.Idle? && !phase.CheckPrevious? && !phase.RollBack? && !phase.MarkRolledBack?
  }

  /** Exactly the recorded surroundings with the destination advanced. */
  predicate IsAdvanced(sources: Tree, a: Audit) {
    && sources - {a.plan.target} == a.unaffected
    && Lookup(sources, a.plan.target) == Some(File(a.plan.mode, a.plan.after))
  }

  /**
   * Write-ahead order: until the audit is on disk nothing else is written, and from
   * then on the running plan is the one on disk, whatever others edit.
   */
  ghost predicate Pinned(w: World) {
    && (w.disk.audit.None? ==> w.phase.Idle? || BeforeAudit(w.phase))
    && (w.disk.audit.Some? && !w.phase.Idle? ==>
          && !BeforeAudit(w.phase)
          && SamePlan(w.phase.audit, w.disk.audit.value)
          && w.disk.audit.value.status != NeedsReview)
    && (!w.phase.Idle? ==> w.phase.audit.status != NeedsReview)
    && (Unrecorded(w.phase) ==> w.disk.receipt.None?)
    && (InWindow(w.phase) ==> w.verified.Some? && IsAdvanced(w.verified.value, w.phase.audit))
  }

  lemma {:induction false} PinnedStep(job: Job, w: World, event: Event)
    requires Pinned(w)
    ensures Pinned(Next(job, w, event))
  {
    if event.Proceed? {
      PinnedProceed(job, w, event.fate);
    }
  }

  lemma PinnedProceed(job: Job, w: World, fate: Fate)
    requires Pinned(w)
    ensures Pinned(Step(job, w, fate))
  {
    if w.phase.VerifyAfter? && fate == Works {
      var d, a := w.disk, w.phase.audit;
      if Unaffected(d, a) && HoldsLines(d, a.plan, a.plan.after) {
        assert IsAdvanced(d.sources, a);
      }
    }
  }

  lemma {:induction false} PinnedRun(job: Job, w: World, events: seq<Event>)
    requires Pinned(w)
    ensures Pinned(Exec(job, w, events))
    decreases |events|
  {
    if events != [] {
      PinnedStep(job, w, events[0]);
      PinnedRun(job, Next(job, w, events[0]), events[1..]);
    }
  }

  // ---------------------------------------------------------------- the destination

  /** The only source writes there are: `before` to `after`, or exactly `after` back to `before`. */
  ghost predicate DisciplinedWrite(d: Disk, d': Disk) {
    || d'.sources == d.sources
    || (&& d.audit.Some?
        && var plan := d.audit.value.plan;
        || (HoldsLines(d, plan, plan.before)
            && d'.sources == d.sources[plan.target := File(plan.mode, plan.after)])
        || (Lookup(d.sources, plan.target) == Some(File(plan.mode, plan.after))
            && d'.sources == d.sources[plan.target := File(plan.mode, plan.before)]))
  }

  /** After any history at all, the next step writes sources only as the recorded plan allows. */
  lemma {:induction false} SourceWritesFollowThePlan(job: Job, d: Disk, events: seq<Event>, fate: Fate)
    ensures var w := Exec(job, World(d, Idle, NotRun, None), events);
            DisciplinedWrite(w.disk, Step(job, w, fate).disk)
  {
    PinnedRun(job, World(d, Idle, NotRun, None), events);
  }

  /** The destination holds neither recorded content. */
  predicate Unknown(d: Disk, plan: AdvancePlan) {
    !HoldsLines(d, plan, plan.before) && !HoldsLines(d, plan, plan.after)
  }

  predicate EditsPath(e: Event, l: Location) {
    e.Foreign? && e.edit.SetSource? && e.edit.l == l
  }

  ghost predicate Guarded(w: World, plan: AdvancePlan, entry: Option<File>) {
    && Pinned(w) && w.disk.audit.Some? && w.disk.audit.value.plan == plan
    && Lookup(w.disk.sources, plan.target) == entry
    && Unknown(w.disk, plan)
  }

  lemma {:induction false} GuardedStep(job: Job, w: World, event: Event, plan: AdvancePlan, entry: Option<File>)
    requires Guarded(w, plan, entry) && !EditsPath(event, plan.target)
    ensures Guarded(Next(job, w, event), plan, entry)
    ensures !InWindow(w.phase) ==>
              !InWindow(Next(job, w, event).phase) && Next(job, w, event).disk.receipt == w.disk.receipt
  {
    PinnedStep(job, w, event);
  }

  /**
   * Unknown bytes put into the destination are never overwritten, whatever runs,
   * fails, crashes or is edited elsewhere; and unless they arrive after the final
   * verification, no receipt is written over them either.
   */
  lemma {:induction false} UnknownBytesSurvive(job: Job, w: World, events: seq<Event>, plan: AdvancePlan)
    requires Pinned(w) && w.disk.audit.Some? && w.disk.audit.value.plan == plan && Unknown(w.disk, plan)
    requires forall e <- events :: !EditsPath(e, plan.target)
    ensures var end := Exec(job, w, events);
            && Lookup(end.disk.sources, plan.target) == Lookup(w.disk.sources, plan.target)
            && (!InWindow(w.phase) ==> end.disk.receipt == w.disk.receipt)
    decreases |events|
  {
    if events != [] {
      GuardedStep(job, w, events[0], plan, Lookup(w.disk.sources, plan.target));
      UnknownBytesSurvive(job, Next(job, w, events[0]), events[1..], plan);
    }
  }

  /** A run that meets unknown bytes at the destination ends by asking for review. */
  lemma {:induction false} UnknownBytesNeedReview(job: Job, w: World)
    requires Pinned(w) && (w.phase.Replace? || w.phase.VerifyAfter? || w.phase.RollBack?)
    requires Unknown(w.disk, w.phase.audit.plan)
    ensures var end := Finish(job, w, map[]);
            && end.disk.sources == w.disk.sources && end.disk.receipt == w.disk.receipt
            && end.disk.audit.Some? && end.disk.audit.value.status == NeedsReview
            && end.outcome == Raised
  {
    var a, d := w.phase.audit, w.disk;
    FinishUnfolds(job, w);
    var next := Step(job, w, Works);
    if w.phase.Replace? {
      FinishUnfolds(job, next);
      next := Step(job, next, Works);
      assert next.phase.RollBack? || next.phase.MarkRolledBack?;
    }
    if next.phase.RollBack? {
      assert next == w.(phase := RollBack(a));
      FinishUnfolds(job, next);
      next := Step(job, next, Works);
    }
    assert next == w.(phase := MarkRolledBack(a, false));
    FinishUnfolds(job, next);
  }

  /** Both contents of the destination are on disk before the audit names them. */
  ghost predicate BackedUp(w: World) {
    && (w.phase.SaveAfter? || w.phase.SaveAudit? ==> w.disk.beforeBackup == Some(w.phase.audit.plan.before))
    && (w.phase.SaveAudit? ==> w.disk.afterBackup == Some(w.phase.audit.plan.after))
    && (w.disk.audit.Some? ==>
          && w.disk.beforeBackup == Some(w.disk.audit.value.plan.before)
          && w.disk.afterBackup == Some(w.disk.audit.value.plan.after))
  }

  predicate EditsBackups(e: Event) {
    e.Foreign? && (e.edit.SetBeforeBackup? || e.edit.SetAfterBackup?)
  }

  lemma {:induction false} BackedUpStep(job: Job, w: World, event: Event)
    requires Pinned(w) && BackedUp(w) && !EditsBackups(event)
    ensures BackedUp(Next(job, w, event))
  {
  }

  /**
   * Whatever bytes a run ever replaces are kept: while nobody edits the backups,
   * the disk holds both recorded contents from before the first source write on.
   */
  lemma {:induction false} BackupsPrecedeWrites(job: Job, w: World, events: seq<Event>, fate: Fate)
    requires Pinned(w) && BackedUp(w)
    requires forall e <- events :: !EditsBackups(e)
    ensures var end := Exec(job, w, events);
            Step(job, end, fate).disk.sources != end.disk.sources ==>
              && end.disk.audit.Some?
              && end.disk.beforeBackup == Some(end.disk.audit.value.plan.before)
              && end.disk.afterBackup == Some(end.disk.audit.value.plan.after)
    decreases |events|
  {
    if events != [] {
      PinnedStep(job, w, events[0]);
      BackedUpStep(job, w, events[0]);
      BackupsPrecedeWrites(job, Next(job, w, events[0]), events[1..], fate);
    }
  }

  // ---------------------------------------------------------------- review is final

  function {:tailrecursion false} ForeignOnly(d: Disk, events: seq<Event>): Disk
    decreases |events|
  {
    if events == [] then d
    else ForeignOnly(if events[0].Foreign? then ApplyEdit(d, events[0].edit) else d, events[1..])
  }

  /**
   * Once the audit asks for review, no later run changes anything: the disk only
   * ever differs by what others edited, even if familiar bytes come back.
   */
  lemma {:induction false} ReviewIsFinal(job: Job, w: World, events: seq<Event>)
    requires w.phase.Idle? && w.disk.audit.Some? && w.disk.audit.value.status == NeedsReview
    ensures Exec(job, w, events).disk == ForeignOnly(w.disk, events)
    ensures Exec(job, w, events).disk.audit == w.disk.audit && Exec(job, w, events).disk.receipt == w.disk.receipt
    decreases |events|
  {
    if events != [] {
      var next := Next(job, w, events[0]);
      assert next.phase.Idle?;
      ReviewIsFinal(job, next, events[1..]);
    }
  }

  // ---------------------------------------------------------------- receipts

  /** Nobody edits sources between the final verification and the receipt. */
  ghost predicate QuietWindow(job: Job, w: World, events: seq<Event>)
    decreases |events|
  {
    events != [] ==>
      && !(events[0].Foreign? && events[0].edit.SetSource? && InWindow(w.phase))
      && QuietWindow(job, Next(job, w, events[0]), events[1..])
  }

  /** While recording, the sources are the verified ones; a written receipt names them. */
  ghost predicate Certified(w: World) {
    && (InWindow(w.phase) ==> w.verified == Some(w.disk.sources))
    && (w.phase.MarkComplete? || w.phase.WriteReceipt? ==>
          w.phase.audit.sourceAfter.Some? && Some(w.phase.audit.sourceAfter.value.upstream) == w.verified)
    && (w.disk.receipt.Some? ==> w.disk.audit.Some? && IsAdvanced(w.disk.receipt.value.upstream, w.disk.audit.value))
  }

  lemma {:induction false} CertifiedStep(job: Job, w: World, event: Event)
    requires Pinned(w) && Certified(w)
    requires !(event.Foreign? && event.edit.SetSource? && InWindow(w.phase))
    ensures Certified(Next(job, w, event))
    ensures event.Proceed? && Next(job, w, event).disk.receipt != w.disk.receipt ==>
              && w.disk.receipt.None? && Next(job, w, event).disk.receipt.Some?
              && Next(job, w, event).disk.receipt.value.upstream == w.disk.sources
  {
  }

  /**
   * With a quiet window, every receipt that ever appears names exactly the recorded
   * surroundings with the destination advanced.
   */
  lemma {:induction false} ReceiptsAreCertified(job: Job, w: World, events: seq<Event>)
    requires Pinned(w) && Certified(w) && QuietWindow(job, w, events)
    ensures Pinned(Exec(job, w, events)) && Certified(Exec(job, w, events))
    decreases |events|
  {
    if events != [] {
      PinnedStep(job, w, events[0]);
      CertifiedStep(job, w, events[0]);
      ReceiptsAreCertified(job, Next(job, w, events[0]), events[1..]);
    }
  }

  // The exact condition, by what an observer of the run sees.

  /**
   * The sources at the last final verification, at the capture behind it and at the write
   * of the receipt, with the edits others make in between.
   */
  datatype Sighting = Sighting(verified: Option<Tree>, untilCapture: seq<Edit>, captured: Option<Tree>,
                               untilWrite: seq<Edit>, written: Option<Tree>)

  const NOTHING_SEEN := Sighting(None, [], None, [], None)

  ghost function See(job: Job, w: World, event: Event, s: Sighting): Sighting {
    match event
    case Proceed(fate) =>
      if w.phase.VerifyAfter? && Step(job, w, fate).phase.Capture? then
        Sighting(Some(w.disk.sources), [], None, [], None)
      else if w.phase.Capture? && fate == Works then s.(captured := Some(w.disk.sources))
      else if w.phase.WriteReceipt? && fate != FailsBefore then s.(written := Some(w.disk.sources))
      else s
    case Foreign(e) =>
      if w.phase.Capture? then s.(untilCapture := s.untilCapture + [e])
      else if w.phase.MarkComplete? || w.phase.WriteReceipt? then s.(untilWrite := s.untilWrite + [e])
      else s
    case Start => s
    case Crash => s
  }

  ghost function Watch(job: Job, w: World, events: seq<Event>, s: Sighting): Sighting
    decreases |events|
  {
    if events == [] then s else Watch(job, Next(job, w, events[0]), events[1..], See(job, w, events[0], s))
  }

  /** The sources after edits in order. */
  function Edited(sources: Tree, edits: seq<Edit>): Tree {
    if edits == [] then sources
    else
      var n := |edits| - 1;
      var before := Edited(sources, edits[..n]);
      if edits[n].SetSource? then Put(before, edits[n].l, edits[n].entry) else before
  }

  lemma EditedMore(sources: Tree, edits: seq<Edit>, e: Edit)
    ensures Edited(sources, edits + [e])
         == if e.SetSource? then Put(Edited(sources, edits), e.l, e.entry) else Edited(sources, edits)
  {
    assert (edits + [e])[..|edits|] == edits;
  }

  ghost predicate CapturedBy(job: Job, s: Sighting, receipt: Option<Receipt>) {
    && s.verified.Some? && s.captured == Some(Edited(s.verified.value, s.untilCapture))
    && receipt == Some(Receipt(job.integration, job.brave, s.captured.value))
  }

  /** What the observer knows of a running invocation. */
  ghost predicate Followed(job: Job, w: World, s: Sighting) {
    && (InWindow(w.phase) ==> s.verified.Some? && s.verified == w.verified)
    && (w.phase.Capture? ==> s.untilWrite == [] && w.disk.sources == Edited(s.verified.value, s.untilCapture))
    && (w.phase.MarkComplete? || w.phase.WriteReceipt? ==>
          && CapturedBy(job, s, w.phase.audit.sourceAfter)
          && w.disk.sources == Edited(s.captured.value, s.untilWrite))
  }

  /** What the observer knows of a receipt: nobody wrote one before these runs. */
  ghost predicate Documented(job: Job, w: World, s: Sighting) {
    w.disk.receipt.Some? ==>
      && w.disk.audit.Some? && CapturedBy(job, s, w.disk.receipt)
      && s.written == Some(Edited(s.captured.value, s.untilWrite))
      && IsAdvanced(s.verified.value, w.disk.audit.value)
  }

  lemma FollowedEdit(job: Job, w: World, e: Edit, s: Sighting)
    requires Followed(job, w, s)
    ensures Followed(job, Next(job, w, Foreign(e)), See(job, w, Foreign(e), s))
  {
    if w.phase.Capture? {
      EditedMore(s.verified.value, s.untilCapture, e);
    } else if w.phase.MarkComplete? || w.phase.WriteReceipt? {
      EditedMore(s.captured.value, s.untilWrite, e);
    }
    hide Edited;
  }

  lemma FollowedStep(job: Job, w: World, event: Event, s: Sighting)
    requires Pinned(w) && Followed(job, w, s)
    ensures Followed(job, Next(job, w, event), See(job, w, event, s))
  {
    if event.Foreign? {
      FollowedEdit(job, w, event.edit, s);
      hide Followed, Next, See;
    }
  }

  lemma DocumentedStep(job: Job, w: World, event: Event, s: Sighting)
    requires Pinned(w) && Followed(job, w, s) && Documented(job, w, s)
    ensures Documented(job, Next(job, w, event), See(job, w, event, s))
  {
    hide Edited;
  }

  lemma {:induction false} WatchedRun(job: Job, w: World, events: seq<Event>, s: Sighting)
    requires Pinned(w) && Followed(job, w, s)
    ensures Documented(job, w, s) ==> Documented(job, Exec(job, w, events), Watch(job, w, events, s))
    ensures w.disk.receipt.Some? ==> Exec(job, w, events).disk.receipt == w.disk.receipt
    decreases |events|
  {
    if events != [] {
      PinnedStep(job, w, events[0]);
      FollowedStep(job, w, events[0], s);
      if Documented(job, w, s) {
        DocumentedStep(job, w, events[0], s);
      }
      ReceiptStays(job, w, events[0]);
      hide Pinned, Followed, Documented, Next, See;
      WatchedRun(job, Next(job, w, events[0]), events[1..], See(job, w, events[0], s));
    }
  }

  lemma ReceiptStays(job: Job, w: World, event: Event)
    requires Pinned(w)
    ensures w.disk.receipt.Some? ==> Next(job, w, event).disk.receipt == w.disk.receipt
  {
  }

  /**
   * Exactly when receipts are right. After any history, a receipt that appeared names the
   * sources of the capture. These are the recorded surroundings with the destination
   * advanced if and only if the edits since the final verification left everything as it
   * was, and they are what the disk held under the new receipt if and only if the edits
   * since the capture did.
   */
  lemma ReceiptsAreRightExactly(job: Job, d: Disk, events: seq<Event>)
    ensures var start := World(d, Idle, NotRun, None);
            var end, s := Exec(job, start, events).disk, Watch(job, start, events, NOTHING_SEEN);
            end.receipt != d.receipt ==>
              && s.verified.Some? && s.captured.Some? && s.written.Some? && end.audit.Some?
              && end.receipt == Some(Receipt(job.integration, job.brave, s.captured.value))
              && (IsAdvanced(s.captured.value, end.audit.value)
                  <==> Edited(s.verified.value, s.untilCapture) == s.verified.value)
              && (s.written == s.captured <==> Edited(s.captured.value, s.untilWrite) == s.captured.value)
              && (IsAdvanced(s.written.value, end.audit.value) <==> s.written == s.verified)
  {
    var start := World(d, Idle, NotRun, None);
    WatchedRun(job, start, events, NOTHING_SEEN);
    var end, s := Exec(job, start, events).disk, Watch(job, start, events, NOTHING_SEEN);
    if end.receipt != d.receipt {
      AdvancedIsUnique(s.verified.value, s.captured.value, end.audit.value);
      AdvancedIsUnique(s.verified.value, s.written.value, end.audit.value);
    }
  }

  /**
   * The window is real: an edit between the final verification and the capture of
   * the source state is recorded in the receipt as if it had been verified. The
   * receipt names the advanced sources exactly when that edit changed nothing.
   */
  lemma {:induction false} EditInTheWindowIsRecorded(job: Job, w: World, l: Location, entry: Option<File>)
    requires Pinned(w) && w.phase.VerifyAfter? && Unaffected(w.disk, w.phase.audit)
    requires HoldsLines(w.disk, w.phase.audit.plan, w.phase.audit.plan.after)
    ensures var go := Proceed(Works);
            var end := Exec(job, w, [go, Foreign(SetSource(l, entry)), go, go, go]);
            && end.phase.CheckPrevious?
            && end.disk.receipt == Some(Receipt(job.integration, job.brave, Put(w.disk.sources, l, entry)))
            && (IsAdvanced(end.disk.receipt.value.upstream, w.phase.audit)
                <==> Put(w.disk.sources, l, entry) == w.disk.sources)
  {
    var go, edit := Proceed(Works), Foreign(SetSource(l, entry));
    var w1 := Next(job, w, go);
    var w2 := Next(job, w1, edit);
    var w3 := Next(job, w2, go);
    var w4 := Next(job, w3, go);
    var w5 := Next(job, w4, go);
    var events := [go, edit, go, go, go];
    assert events[1..] == [edit, go, go, go];
    assert events[1..][1..] == [go, go, go];
    assert [go, go, go][1..] == [go, go];
    assert [go, go][1..] == [go];
    assert [go][1..] == [];
    assert Exec(job, w4, [go]) == w5;
    assert Exec(job, w3, [go, go]) == w5;
    assert Exec(job, w2, [go, go, go]) == w5;
    assert Exec(job, w1, [edit, go, go, go]) == w5;
    AdvancedIsUnique(w.disk.sources, Put(w.disk.sources, l, entry), w.phase.audit);
  }

  lemma AdvancedIsUnique(a: Tree, b: Tree, audit: Audit)
    requires IsAdvanced(a, audit)
    ensures IsAdvanced(b, audit) <==> a == b
  {
    if IsAdvanced(b, audit) {
      forall l ensures Lookup(a, l) == Lookup(b, l) {
        if l != audit.plan.target {
          assert Lookup(a, l) == Lookup(a - {audit.plan.target}, l);
          assert Lookup(b, l) == Lookup(b - {audit.plan.target}, l);
        }
      }
      SameLookups(a, b);
    }
  }
}
