/**
 * That syncs get through: an interrupted one is resumed, and a finished one recorded
 * (`verify_reusable`, `resume_sync`, `verify_sync` and the begin and record modes of
 * tools/check-integrated-brave-state.py).
 */
module SyncResumption {
  import opened Outcomes
  import opened Patches
  import opened StackPlan
  import opened PatchAdvance
  import opened SyncChain

  /** A step of the sync itself, or its end by a crash. */
  predicate Own(event: Event) { !event.Record? && !event.Foreign? }

  /** The checkouts are clean, or exactly as this integration recorded them. */
  predicate Startable(repo: Repository, w: World) {
    w.phase == Idle
    && (w.tree == repo.head || w.receipt == Some(Identity(repo.integration, repo.brave, w.tree)))
  }

  /** What a sync may write anywhere. */
  ghost predicate IsOwned(repo: Repository, l: Location) {
    l in repo.overlay || l in PatchedPaths(repo) || l == repo.sisoCopy
  }

  /** What the sync's own steps keep: everything else as it began, and overlays old or new. */
  ghost predicate Mends(repo: Repository, start: Tree, w: World) {
    && SameIntent(repo, start, w.pending)
    && (forall l :: !IsOwned(repo, l) ==> Lookup(w.tree, l) == Lookup(start, l))
    && (forall l <- repo.overlay.Keys ::
          Lookup(w.tree, l) == Some(repo.overlay[l]) || Lookup(w.tree, l) == w.pending.value.overlays[l].before)
  }

  lemma SameOutside(repo: Repository, a: Tree, b: Tree)
    requires forall l :: !IsOwned(repo, l) ==> Lookup(a, l) == Lookup(b, l)
    ensures Unaffected(repo, a) == Unaffected(repo, b)
  {
    forall l ensures Lookup(Unaffected(repo, a), l) == Lookup(Unaffected(repo, b), l) {
      assert l in Owned(repo) <==> IsOwned(repo, l);
    }
    SameLookups(Unaffected(repo, a), Unaffected(repo, b));
  }

  lemma MendedIsResumable(repo: Repository, start: Tree, w: World)
    requires Mends(repo, start, w)
    ensures Resumable(repo, w.tree, w.pending.value) && Admitted(repo, w)
  {
    SameOutside(repo, w.tree, start);
    hide PlannedEntries, PatchedPaths, Owned;
  }

  /** A begin on a tree that mends is accepted, and keeps it so. */
  lemma BeginResumes(repo: Repository, start: Tree, w: World)
    requires Mends(repo, start, w) && w.phase == Idle && Plannable(repo, w.tree)
    requires PlannedEntries(repo, w.tree) == PlannedEntries(repo, start)
    ensures var next := Next(repo, w, Begin);
            && next.phase == Begun && next.tree == w.tree && next.receipt == w.receipt
            && Mends(repo, start, next)
  {
    MendedIsResumable(repo, start, w);
    IntentAgain(repo, start, w.pending, w.tree);
    OldOverlays(repo, w.tree);
    hide PlannedEntries, PlanIn, Owned, Admitted, Resumable, SameIntent, IntentFor, IsOwned;
    assert Next(repo, w, Begin) == w.(pending := Some(IntentFor(repo, w.tree)), phase := Begun);
  }

  lemma OldOverlays(repo: Repository, tree: Tree)
    ensures IntentFor(repo, tree).overlays.Keys == repo.overlay.Keys
    ensures forall l <- repo.overlay.Keys :: IntentFor(repo, tree).overlays[l].before == Lookup(tree, l)
  {
  }

  /** A write to one owned location that is not an overlay, or of an overlay's own content. */
  lemma WriteMends(repo: Repository, start: Tree, w: World, tree: Tree, phase: Phase)
    requires Mends(repo, start, w)
    requires forall l :: !IsOwned(repo, l) ==> Lookup(tree, l) == Lookup(w.tree, l)
    requires forall l <- repo.overlay.Keys ::
      Lookup(tree, l) == Lookup(w.tree, l) || Lookup(tree, l) == Some(repo.overlay[l])
    ensures Mends(repo, start, w.(tree := tree, phase := phase))
  {
    hide SameIntent, IsOwned;
  }

  lemma PatchMends(repo: Repository, tree: Tree, o: Owner, i: nat)
    requires Separate(repo) && i < |repo.stacks.Of(o)| && Apply(tree, repo.stacks.Of(o)[i]).Some?
    ensures var after := Apply(tree, repo.stacks.Of(o)[i]).value;
            forall l :: l !in PatchedPaths(repo) ==> Lookup(after, l) == Lookup(tree, l)
  {
    var patches := repo.stacks.Of(o);
    assert patches[i].changes.Keys <= Touched(patches) <= PatchedPaths(repo);
    ApplyFrame(tree, patches[i], PatchedPaths(repo));
  }

  lemma StepMends(repo: Repository, start: Tree, w: World, event: Event)
    requires Separate(repo) && Mends(repo, start, w) && Own(event) && !event.Begin?
    ensures Mends(repo, start, Next(repo, w, event)) && Next(repo, w, event).receipt == w.receipt
  {
    hide SameIntent, PlanIn;
    var next := Next(repo, w, event);
    match event
    case ApplyNext(o) =>
      if w.phase.Syncing? && o in w.phase.next && w.phase.next[o] < |repo.stacks.Of(o)| {
        var i := w.phase.next[o];
        if Apply(w.tree, repo.stacks.Of(o)[i]).Some? {
          PatchMends(repo, w.tree, o, i);
          WriteMends(repo, start, w, next.tree, next.phase);
        }
      }
    case CopyOverlay(l) => WriteMends(repo, start, w, next.tree, next.phase);
    case CopySiso => WriteMends(repo, start, w, next.tree, next.phase);
    case PlanPatches =>
    case Crash =>
  }

  /** Where the sync's own steps lead: the tree mends, and each stack holds a known prefix. */
  lemma {:induction false} OwnRun(repo: Repository, start: Tree, origins: Origins, w: World, events: seq<Event>,
                                  held: map<Owner, nat>)
    returns (held': map<Owner, nat>)
    requires Separate(repo) && StartsFrom(repo, start, origins) && Mends(repo, start, w)
    requires Follows(repo, origins, w.tree, w.phase, held) && forall e | e in events :: Own(e)
    ensures var end := Exec(repo, w, events);
            && Mends(repo, start, end) && Follows(repo, origins, end.tree, end.phase, held')
            && end.receipt == w.receipt
    decreases |events|
  {
    if events == [] {
      held' := held;
    } else {
      var event := events[0];
      PlannedOnChain(repo, start, origins, w.tree, w.phase, held);
      OwnStepResumes(repo, start, w, event);
      held' := TreeOnChain(repo, origins, w, event, held);
      hide Mends, Follows, StartsFrom, Separate, Next, ResumingStep, Plannable, NextPatches;
      held' := OwnRun(repo, start, origins, Next(repo, w, event), events[1..], held');
    }
  }

  lemma OwnStepResumes(repo: Repository, start: Tree, w: World, event: Event)
    requires Separate(repo) && Mends(repo, start, w) && Own(event) && Plannable(repo, w.tree)
    requires PlannedEntries(repo, w.tree) == PlannedEntries(repo, start)
    ensures ResumingStep(repo, w, event)
    ensures Mends(repo, start, Next(repo, w, event)) && Next(repo, w, event).receipt == w.receipt
  {
    SameOutside(repo, w.tree, start);
    hide PlannedEntries, PlanIn, PatchedPaths, Separate;
    assert Resumable(repo, w.tree, w.pending.value);
    if event.Begin? {
      if w.phase == Idle {
        BeginResumes(repo, start, w);
      } else {
        assert Next(repo, w, Begin) == w;
      }
    } else {
      StepMends(repo, start, w, event);
    }
  }

  /**
   * An intent written for other commits, of the integration or of Brave, counts for
   * nothing: a begin goes by the tree and the receipt alone and replaces it, and a record
   * compares nothing and leaves it.
   */
  lemma OtherIntentsCountForNothing(repo: Repository, w: World)
    requires w.phase.Idle? && w.pending.Some?
    requires w.pending.value.integration != repo.integration || w.pending.value.brave != repo.brave
    ensures var identity := Some(Identity(repo.integration, repo.brave, w.tree));
            && Next(repo, w, Begin) == (if (w.tree == repo.head || w.receipt == identity) && Plannable(repo, w.tree)
                                        then w.(pending := Some(IntentFor(repo, w.tree)), phase := Begun) else w)
            && Next(repo, w, Record) == w.(receipt := identity)
  {
    hide Plannable, IntentFor;
  }

  /** The first begin is accepted on every clean or recorded tree whose stacks can be planned. */
  lemma FirstBegin(repo: Repository, w: World)
    requires Startable(repo, w) && Plannable(repo, w.tree)
    ensures var begun := Next(repo, w, Begin);
            begun.phase == Begun && begun.tree == w.tree && begun.receipt == w.receipt && Mends(repo, w.tree, begun)
  {
    hide PlannedEntries, PlanIn, PatchedPaths;
  }

  /** Without a plan for some stack nothing begins, whatever the tree. */
  lemma NothingToBegin(repo: Repository, w: World, o: Owner)
    requires forall k :: !Explains(Part(repo, w.tree, o), repo.stacks.Of(o), k)
    ensures Next(repo, w, Begin) == w
  {
    PlanExplains(Part(repo, w.tree, o), repo.stacks.Of(o));
    assert PlanIn(repo, w.tree, o) == None;
  }

  lemma PlanExplains(tree: Tree, patches: seq<Patch>)
    ensures PlanOf(tree, patches).Some? ==> Explains(tree, patches, PlanOf(tree, patches).value.0)
  {
    hide Explains;
  }

  ghost predicate GetsGoing(repo: Repository, w: World, origins: Origins) {
    Startable(repo, w) && Separate(repo) && StartsFrom(repo, w.tree, origins)
  }

  lemma Underway(repo: Repository, w: World, origins: Origins, events: seq<Event>) returns (held: map<Owner, nat>)
    requires GetsGoing(repo, w, origins) && forall e | e in events :: Own(e)
    ensures var begun := Next(repo, w, Begin);
            var mid := Exec(repo, begun, events);
            && begun.phase == Begun && mid.receipt == w.receipt
            && Mends(repo, w.tree, mid) && Follows(repo, origins, mid.tree, mid.phase, held)
  {
    assert Plannable(repo, w.tree);
    FirstBegin(repo, w);
    var begun := Next(repo, w, Begin);
    hide Next, Mends, Plannable, Progress, PlanIn;
    held := BegunFollows(repo, w.tree, origins, begun.phase);
    held := OwnRun(repo, w.tree, origins, begun, events, held);
  }

  /**
   * From a clean or recorded tree whose stacks are unambiguous the first begin is accepted,
   * and so is another one after any of the sync's own steps and a crash: nothing but the
   * phase changes, and the intent is the first one's.
   */
  lemma InterruptedSyncsResume(repo: Repository, w: World, origins: Origins, events: seq<Event>)
    requires GetsGoing(repo, w, origins) && forall e | e in events :: Own(e)
    ensures Next(repo, w, Begin).phase == Begun
    ensures var mid := Exec(repo, Next(repo, w, Begin), events);
            var again := Next(repo, Next(repo, mid, Crash), Begin);
            && again.phase == Begun && again.tree == mid.tree && again.receipt == w.receipt
            && SameIntent(repo, w.tree, again.pending)
  {
    var held := Underway(repo, w, origins, events);
    var mid := Exec(repo, Next(repo, w, Begin), events);
    hide Exec, Mends, Follows, GetsGoing, SameIntent;
    assert StartsFrom(repo, w.tree, origins) by { GoingStarts(repo, w, origins); }
    AnotherBegin(repo, w.tree, origins, mid, held);
  }

  lemma GoingStarts(repo: Repository, w: World, origins: Origins)
    requires GetsGoing(repo, w, origins)
    ensures StartsFrom(repo, w.tree, origins) && Separate(repo)
  {
  }

  lemma AnotherBegin(repo: Repository, start: Tree, origins: Origins, mid: World, held: map<Owner, nat>)
    requires StartsFrom(repo, start, origins) && Mends(repo, start, mid)
    requires Follows(repo, origins, mid.tree, mid.phase, held)
    ensures var again := Next(repo, Next(repo, mid, Crash), Begin);
            && again.phase == Begun && again.tree == mid.tree && again.receipt == mid.receipt
            && SameIntent(repo, start, again.pending)
  {
    PlannedOnChain(repo, start, origins, mid.tree, mid.phase, held);
    CrashMends(repo, start, mid);
    hide *;
    BeginResumes(repo, start, Next(repo, mid, Crash));
    MendsIntent(repo, start, Next(repo, Next(repo, mid, Crash), Begin));
  }

  lemma CrashMends(repo: Repository, start: Tree, w: World)
    requires Mends(repo, start, w)
    ensures var crashed := Next(repo, w, Crash);
            Mends(repo, start, crashed) && crashed.phase == Idle && crashed.tree == w.tree
                && crashed.receipt == w.receipt
  {
    hide SameIntent, IsOwned;
  }

  lemma MendsIntent(repo: Repository, start: Tree, w: World)
    requires Mends(repo, start, w)
    ensures SameIntent(repo, start, w.pending)
  {
    hide SameIntent, IsOwned;
  }

  // ---------------------------------------------------------------- a finished sync is recorded

  /** Every patch is applied and every overlay copied. */
  ghost predicate AllDone(repo: Repository, w: World) {
    && w.phase.Syncing?
    && (forall o: Owner :: o in w.phase.next && w.phase.next[o] == |repo.stacks.Of(o)|)
    && (forall l <- repo.overlay.Keys :: Lookup(w.tree, l) == Some(repo.overlay[l]))
  }

  lemma DoneAtTheGoal(repo: Repository, start: Tree, origins: Origins, tree: Tree, held: map<Owner, nat>, o: Owner)
    requires StartsFrom(repo, start, origins) && Follows(repo, origins, tree, Syncing(held), held)
    requires o in held && held[o] == |repo.stacks.Of(o)|
    ensures PlanIn(repo, start, o).Some? && Part(repo, tree, o) == PlanIn(repo, start, o).value.1
  {
    PlanIsOne(Part(repo, start, o), repo.stacks.Of(o));
    assert PlanIn(repo, start, o) == Some((origins[o].from, origins[o].goal))
        && origins[o].base == Part(repo, start, o);
    assert Progress(origins[o], repo.stacks.Of(o), Part(repo, tree, o), held[o]);
    hide StartsFrom, Follows, PlanOf, Explains, Progress, IsPlan, Part;
    WholeProgress(origins[o], repo.stacks.Of(o), Part(repo, tree, o), held[o]);
  }

  lemma WholeProgress(origin: Origin, patches: seq<Patch>, now: Tree, j: nat)
    requires IsPlan(origin.base, patches, origin.from, origin.goal)
    requires Progress(origin, patches, now, j) && j == |patches|
    ensures now == origin.goal
  {
    assert patches[origin.from..|patches|] == patches[origin.from..];
  }

  lemma PlanIsOne(tree: Tree, patches: seq<Patch>)
    ensures PlanOf(tree, patches).Some? ==>
      IsPlan(tree, patches, PlanOf(tree, patches).value.0, PlanOf(tree, patches).value.1)
  {
    hide IsPlan;
  }

  /** The planned entry of a patched path is that of its own checkout's plan. */
  lemma OwnersPlan(repo: Repository, start: Tree, l: Location)
    requires Separate(repo) && Plannable(repo, start) && l in PatchedPaths(repo)
    ensures l in Touched(repo.stacks.Of(l.owner))
    ensures l in PlannedEntries(repo, start)
            && PlannedEntries(repo, start)[l] == Lookup(PlanIn(repo, start, l.owner).value.1, l)
  {
    hide PlanIn;
    assert forall o: Owner | l in Touched(repo.stacks.Of(o)) :: o == l.owner;
    assert PlanIn(repo, start, l.owner).Some?;
    ExpectedKeys(repo, start, BraveCore);
    ExpectedKeys(repo, start, Chromium);
    ExpectedKeys(repo, start, V8);
  }

  lemma DoneIsPlanned(repo: Repository, start: Tree, origins: Origins, w: World, held: map<Owner, nat>, l: Location)
    requires Separate(repo) && StartsFrom(repo, start, origins) && AllDone(repo, w)
    requires Follows(repo, origins, w.tree, w.phase, held) && l in PatchedPaths(repo)
    ensures l in PlannedEntries(repo, start) && Lookup(w.tree, l) == PlannedEntries(repo, start)[l]
  {
    assert Plannable(repo, start) by { hide Unambiguous, PlanIn; }
    OwnersPlan(repo, start, l);
    DoneAtTheGoal(repo, start, origins, w.tree, held, l.owner);
    assert Lookup(Part(repo, w.tree, l.owner), l) == Lookup(w.tree, l);
  }

  lemma MatchesBy(repo: Repository, start: Tree, tree: Tree, pending: Option<Intent>)
    requires SameIntent(repo, start, pending) && Unaffected(repo, tree) == Unaffected(repo, start)
    requires forall l | l in PlannedEntries(repo, start) :: Lookup(tree, l) == PlannedEntries(repo, start)[l]
    requires forall l | l in repo.overlay :: Lookup(tree, l) == Some(repo.overlay[l])
    ensures MatchesIntent(repo, tree, pending.value)
  {
    hide PlannedEntries, Unaffected;
  }

  lemma MendsOutside(repo: Repository, start: Tree, w: World)
    requires Mends(repo, start, w)
    ensures Unaffected(repo, w.tree) == Unaffected(repo, start) && SameIntent(repo, start, w.pending)
  {
    SameOutside(repo, w.tree, start);
  }

  lemma DoneMatches(repo: Repository, start: Tree, origins: Origins, w: World, held: map<Owner, nat>)
    requires Separate(repo) && StartsFrom(repo, start, origins) && Mends(repo, start, w) && AllDone(repo, w)
    requires Follows(repo, origins, w.tree, w.phase, held)
    ensures MatchesIntent(repo, w.tree, w.pending.value)
  {
    MendsOutside(repo, start, w);
    assert Plannable(repo, start) by { hide Unambiguous, PlanIn; }
    assert forall l | l in repo.overlay :: Lookup(w.tree, l) == Some(repo.overlay[l]);
    hide Mends, Follows, StartsFrom, Plannable, SameIntent, Separate, AllDone;
    PlannedKeys(repo, start);
    hide PatchedPaths, PlannedEntries;
    forall l | l in PlannedEntries(repo, start) ensures Lookup(w.tree, l) == PlannedEntries(repo, start)[l] {
      assert l in PatchedPaths(repo);
      DoneIsPlanned(repo, start, origins, w, held, l);
    }
    MatchesBy(repo, start, w.tree, w.pending);
  }

  /** When everything is done, the record writes the receipt of the tree and clears the intent. */
  lemma FinishedSyncsAreRecorded(repo: Repository, w: World, origins: Origins, events: seq<Event>)
    requires GetsGoing(repo, w, origins) && forall e | e in events :: Own(e)
    requires AllDone(repo, Exec(repo, Next(repo, w, Begin), events))
    ensures var done := Exec(repo, Next(repo, w, Begin), events);
            var end := Next(repo, done, Record);
            && end.receipt == Some(Identity(repo.integration, repo.brave, done.tree))
            && end.pending == None && end.tree == done.tree && end.phase == Idle
  {
    var held := Underway(repo, w, origins, events);
    var done := Exec(repo, Next(repo, w, Begin), events);
    hide Exec, Mends, Follows, AllDone, MatchesIntent;
    DoneMatches(repo, w.tree, origins, done, held);
    RecordsMatching(repo, w.tree, done);
  }

  lemma RecordsMatching(repo: Repository, start: Tree, w: World)
    requires Mends(repo, start, w) && MatchesIntent(repo, w.tree, w.pending.value)
    ensures var end := Next(repo, w, Record);
            && end.receipt == Some(Identity(repo.integration, repo.brave, w.tree))
            && end.pending == None && end.tree == w.tree && end.phase == Idle
  {
    hide MatchesIntent, IsOwned;
  }

  // ---------------------------------------------------------------- an undisturbed sync finishes

  /** A step of an undisturbed sync behind its begin. */
  predicate Forward(event: Event) { event.PlanPatches? || event.CopyOverlay? || event.ApplyNext? }

  lemma {:induction false} ExecTwice(repo: Repository, w: World, a: seq<Event>, b: seq<Event>)
    ensures Exec(repo, w, a + b) == Exec(repo, Exec(repo, w, a), b)
    decreases |a|
  {
    if a == [] {
      assert a + b == b;
    } else {
      assert (a + b)[1..] == a[1..] + b;
      ExecTwice(repo, Next(repo, w, a[0]), a[1..], b);
    }
  }

  /** Copying overlays one by one; the other locations stay. */
  lemma {:induction false} CopiesOverlays(repo: Repository, w: World, left: set<Location>) returns (run: seq<Event>)
    requires w.phase.Syncing? && left <= repo.overlay.Keys
    ensures forall e | e in run :: e.CopyOverlay?
    ensures var end := Exec(repo, w, run);
            && end.phase == w.phase
            && (forall l <- left :: Lookup(end.tree, l) == Some(repo.overlay[l]))
            && (forall l :: l !in left ==> Lookup(end.tree, l) == Lookup(w.tree, l))
    decreases |left|
  {
    if left == {} {
      run := [];
    } else {
      var l :| l in left;
      var rest := CopiesOverlays(repo, w, left - {l});
      run := rest + [CopyOverlay(l)];
      ExecTwice(repo, w, rest, [CopyOverlay(l)]);
      var mid := Exec(repo, w, rest);
      assert Exec(repo, mid, [CopyOverlay(l)]) == Next(repo, mid, CopyOverlay(l)) by {
        assert [CopyOverlay(l)][1..] == [];
      }
    }
  }

  /** On a chain the next patch of any stack that is not finished applies. */
  lemma NextApplies(repo: Repository, start: Tree, origins: Origins, tree: Tree, held: map<Owner, nat>, o: Owner)
    requires Separate(repo) && StartsFrom(repo, start, origins) && Follows(repo, origins, tree, Syncing(held), held)
    requires o in held && held[o] < |repo.stacks.Of(o)|
    ensures Apply(tree, repo.stacks.Of(o)[held[o]]).Some?
  {
    var patches, j := repo.stacks.Of(o), held[o];
    assert IsPlan(Part(repo, start, o), patches, origins[o].from, origins[o].goal);
    ProgressReachesTheGoal(origins[o], patches, Part(repo, tree, o), j);
    assert patches[j..][0] == patches[j];
    assert patches[j].changes.Keys <= Touched(patches);
    ApplyFrame(tree, patches[j], Touched(patches));
  }

  function Remaining(repo: Repository, held: map<Owner, nat>, o: Owner): nat {
    if o in held && held[o] < |repo.stacks.Of(o)| then |repo.stacks.Of(o)| - held[o] else 0
  }

  function AllRemaining(repo: Repository, held: map<Owner, nat>): nat {
    Remaining(repo, held, BraveCore) + Remaining(repo, held, Chromium) + Remaining(repo, held, V8)
  }

  /** Applying what remains of the stacks, one patch at a time; other locations stay. */
  lemma {:induction false} AppliesTheRest(repo: Repository, start: Tree, origins: Origins, w: World,
        held: map<Owner, nat>)
    returns (run: seq<Event>)
    requires Separate(repo) && StartsFrom(repo, start, origins) && w.phase == Syncing(held)
    requires Follows(repo, origins, w.tree, w.phase, held)
    ensures forall e | e in run :: e.ApplyNext?
    ensures var end := Exec(repo, w, run);
            && end.phase.Syncing?
            && (forall o: Owner :: o in end.phase.next && end.phase.next[o] == |repo.stacks.Of(o)|)
            && (forall l :: l !in PatchedPaths(repo) ==> Lookup(end.tree, l) == Lookup(w.tree, l))
    decreases AllRemaining(repo, held)
  {
    if AllRemaining(repo, held) == 0 {
      run := [];
      NothingRemains(repo, origins, w, held);
    } else {
      var o := Unfinished(repo, held);
      NextApplies(repo, start, origins, w.tree, held, o);
      ApplyOnChain(repo, origins, w.tree, held, o);
      PatchMends(repo, w.tree, o, held[o]);
      var next, held' := Next(repo, w, ApplyNext(o)), held[o := held[o] + 1];
      AppliedOne(repo, w, held, o);
      hide Follows, StartsFrom, Separate, PatchedPaths, Next;
      var rest := AppliesTheRest(repo, start, origins, next, held');
      run := [ApplyNext(o)] + rest;
      assert run[1..] == rest;
    }
  }

  lemma NothingRemains(repo: Repository, origins: Origins, w: World, held: map<Owner, nat>)
    requires AllRemaining(repo, held) == 0 && w.phase == Syncing(held) && Follows(repo, origins, w.tree, w.phase, held)
    ensures forall o: Owner :: o in held && held[o] == |repo.stacks.Of(o)|
  {
    forall o: Owner ensures o in held && held[o] == |repo.stacks.Of(o)| {
      assert Remaining(repo, held, o) == 0;
    }
  }

  function Unfinished(repo: Repository, held: map<Owner, nat>): (o: Owner)
    requires AllRemaining(repo, held) > 0
    ensures o in held && held[o] < |repo.stacks.Of(o)|
  {
    if Remaining(repo, held, BraveCore) > 0 then BraveCore
    else if Remaining(repo, held, Chromium) > 0 then Chromium else V8
  }

  lemma AppliedOne(repo: Repository, w: World, held: map<Owner, nat>, o: Owner)
    requires w.phase == Syncing(held) && o in held && held[o] < |repo.stacks.Of(o)|
    requires Apply(w.tree, repo.stacks.Of(o)[held[o]]).Some?
    ensures var next, held' := Next(repo, w, ApplyNext(o)), held[o := held[o] + 1];
            && next.phase == Syncing(held') && next.tree == Apply(w.tree, repo.stacks.Of(o)[held[o]]).value
            && AllRemaining(repo, held') < AllRemaining(repo, held)
  {
    var held' := held[o := held[o] + 1];
    assert forall p: Owner | p != o :: Remaining(repo, held', p) == Remaining(repo, held, p);
    assert Remaining(repo, held', o) == Remaining(repo, held, o) - 1;
  }

  /** From an accepted begin an undisturbed sync plans, copies and applies until all is done. */
  lemma RunsToTheEnd(repo: Repository, start: Tree, origins: Origins, w: World, held: map<Owner, nat>)
    returns (run: seq<Event>)
    requires Separate(repo) && StartsFrom(repo, start, origins) && w.phase == Begun
    requires Follows(repo, origins, w.tree, w.phase, held)
    ensures (forall e | e in run :: Forward(e)) && AllDone(repo, Exec(repo, w, run))
  {
    PlansOnce(repo, start, origins, w, held);
    var planned := Next(repo, w, PlanPatches);
    hide Next, Follows, StartsFrom, Separate, AllDone;
    var copies := CopiesOverlays(repo, planned, repo.overlay.Keys);
    var copied := Exec(repo, planned, copies);
    CopiesFollow(repo, origins, planned, copied, held);
    var applies := AppliesTheRest(repo, start, origins, copied, held);
    run := [PlanPatches] + (copies + applies);
    assert run[1..] == copies + applies;
    ExecTwice(repo, planned, copies, applies);
    DoneAtLast(repo, copied, Exec(repo, copied, applies));
  }

  lemma PlansOnce(repo: Repository, start: Tree, origins: Origins, w: World, held: map<Owner, nat>)
    requires StartsFrom(repo, start, origins) && w.phase == Begun && Follows(repo, origins, w.tree, w.phase, held)
    ensures var planned := Next(repo, w, PlanPatches);
            planned == w.(phase := Syncing(held)) && Follows(repo, origins, planned.tree, planned.phase, held)
  {
    PlannedOnChain(repo, start, origins, w.tree, w.phase, held);
    hide Plannable, PlannedEntries, NextPatches, Progress, StartsFrom;
  }

  lemma CopiesFollow(repo: Repository, origins: Origins, planned: World, copied: World, held: map<Owner, nat>)
    requires Separate(repo) && Follows(repo, origins, planned.tree, planned.phase, held)
        && copied.phase == planned.phase
    requires forall l :: l !in repo.overlay.Keys ==> Lookup(copied.tree, l) == Lookup(planned.tree, l)
    ensures Follows(repo, origins, copied.tree, copied.phase, held)
  {
    hide Follows;
    OutsideWrites(repo, origins, planned.tree, copied.tree, planned.phase, held);
  }

  lemma DoneAtLast(repo: Repository, copied: World, end: World)
    requires Separate(repo) && end.phase.Syncing?
    requires forall o: Owner :: o in end.phase.next && end.phase.next[o] == |repo.stacks.Of(o)|
    requires forall l :: l !in PatchedPaths(repo) ==> Lookup(end.tree, l) == Lookup(copied.tree, l)
    requires forall l <- repo.overlay.Keys :: Lookup(copied.tree, l) == Some(repo.overlay[l])
    ensures AllDone(repo, end)
  {
  }

  /**
   * However often a sync was interrupted, after one more begin an undisturbed run of
   * planning, copies and patches ends where the record is accepted: the receipt names the
   * tree, and the intent is cleared.
   */
  lemma InterruptedSyncsFinish(repo: Repository, w: World, origins: Origins, events: seq<Event>)
    returns (run: seq<Event>)
    requires GetsGoing(repo, w, origins) && forall e | e in events :: Own(e)
    ensures forall e | e in run :: Forward(e)
    ensures var again := Next(repo, Next(repo, Exec(repo, Next(repo, w, Begin), events), Crash), Begin);
            var done := Exec(repo, again, run);
            && AllDone(repo, done)
            && Next(repo, done, Record)
               == World(done.tree, None, Some(Identity(repo.integration, repo.brave, done.tree)), Idle)
  {
    GoingStarts(repo, w, origins);
    var more, begun := events + [Crash, Begin], Next(repo, w, Begin);
    var held := BegunAgain(repo, w, origins, events);
    hide *;
    LastTwo(repo, begun, events);
    run := RunsToTheEnd(repo, w.tree, origins, Exec(repo, begun, more), held);
    ForwardIsOwn(more, run);
    ExecTwice(repo, begun, more, run);
    FinishedSyncsAreRecorded(repo, w, origins, more + run);
  }

  lemma BegunAgain(repo: Repository, w: World, origins: Origins, events: seq<Event>) returns (held: map<Owner, nat>)
    requires GetsGoing(repo, w, origins) && forall e | e in events :: Own(e)
    ensures forall e | e in events + [Crash, Begin] :: Own(e)
    ensures var again := Exec(repo, Next(repo, w, Begin), events + [Crash, Begin]);
            again.phase == Begun && Follows(repo, origins, again.tree, again.phase, held)
  {
    var more := events + [Crash, Begin];
    assert forall e | e in more :: e in events || e == Crash || e == Begin;
    assert forall e | e in more :: Own(e);
    hide Next, Exec, Mends, Follows, SameIntent, GetsGoing, Own;
    LastTwo(repo, Next(repo, w, Begin), events);
    InterruptedSyncsResume(repo, w, origins, events);
    held := Underway(repo, w, origins, more);
  }

  lemma ForwardIsOwn(more: seq<Event>, run: seq<Event>)
    requires (forall e | e in more :: Own(e)) && forall e | e in run :: Forward(e)
    ensures forall e | e in more + run :: Own(e)
  {
  }

  lemma LastTwo(repo: Repository, w: World, events: seq<Event>)
    ensures Exec(repo, w, events + [Crash, Begin]) == Next(repo, Next(repo, Exec(repo, w, events), Crash), Begin)
  {
    ExecTwice(repo, w, events, [Crash, Begin]);
    assert [Crash, Begin][1..] == [Begin] && [Begin][1..] == [];
    var mid := Exec(repo, w, events);
    assert Exec(repo, Next(repo, mid, Crash), [Begin]) == Next(repo, Next(repo, mid, Crash), Begin);
  }
}
