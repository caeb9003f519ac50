/**
 * An integration sync interrupted and resumed any number of times: `sync_intent`,
 * `resume_sync`, `verify_sync`, `verify_reusable` and the begin and record modes of
 * tools/check-integrated-brave-state.py, with the steps of
 * scripts/sync-browser-integration.sh between them.
 */
module SyncChain {
  import opened Outcomes
  import opened Patches
  import opened StackPlan
  import opened PatchAdvance

  datatype Repository = Repository(integration: string, brave: string, stacks: Stacks, overlay: map<Location, File>,
                                   head: Tree, sisoSource: Location, sisoCopy: Location)

  datatype OverlayEntry = OverlayEntry(before: Option<File>, after: Option<File>)
  datatype Intent = Intent(integration: string, brave: string, unaffected: Tree, patched: Entries,
                           overlays: map<Location, OverlayEntry>)
  datatype Identity = Identity(integration: string, brave: string, upstream: Tree)

  /** `next` is the patch each checkout's running stack applies next. */
  datatype Phase = Idle | Begun | Syncing(next: map<Owner, nat>)
  datatype World = World(tree: Tree, pending: Option<Intent>, receipt: Option<Identity>, phase: Phase)

  datatype Event =
    | Begin
    | PlanPatches
    | CopyOverlay(l: Location)
    | ApplyNext(owner: Owner)
    | CopySiso
    | Record
    | Crash
    | Foreign(l: Location, entry: Option<File>)

  ghost function PatchedPaths(repo: Repository): set<Location> {
    Touched(repo.stacks.braveCore) + Touched(repo.stacks.chromium) + Touched(repo.stacks.v8)
  }

  /** The locations a run may change; everything else must come out as it went in. */
  ghost function Owned(repo: Repository): set<Location> {
    repo.overlay.Keys + PatchedPaths(repo) + {repo.sisoCopy}
  }

  ghost function Unaffected(repo: Repository, tree: Tree): Tree {
    tree - Owned(repo)
  }

  ghost function Part(repo: Repository, tree: Tree, owner: Owner): Tree {
    Restrict(tree, Touched(repo.stacks.Of(owner)))
  }

  ghost function PlanOf(tree: Tree, patches: seq<Patch>): Option<(nat, Tree)> {
    if p: (nat, Tree) :| IsPlan(tree, patches, p.0, p.1) then Some(p) else None
  }

  ghost function PlanIn(repo: Repository, tree: Tree, owner: Owner): Option<(nat, Tree)> {
    PlanOf(Part(repo, tree, owner), repo.stacks.Of(owner))
  }

  ghost function ExpectedEntries(repo: Repository, tree: Tree, owner: Owner): Entries {
    var plan := PlanIn(repo, tree, owner);
    if plan.None? then map[] else EntriesOf(plan.value.1, Touched(repo.stacks.Of(owner)))
  }

  /** Every patched path's content once all three stacks are applied. */
  ghost function PlannedEntries(repo: Repository, tree: Tree): Entries {
    ExpectedEntries(repo, tree, BraveCore) + ExpectedEntries(repo, tree, Chromium) + ExpectedEntries(repo, tree, V8)
  }

  ghost predicate Plannable(repo: Repository, tree: Tree) {
    forall o :: PlanIn(repo, tree, o).Some?
  }

  function OverlayEntries(repo: Repository, tree: Tree): map<Location, OverlayEntry> {
    map l | l in repo.overlay :: OverlayEntry(Lookup(tree, l), Some(repo.overlay[l]))
  }

  ghost function IntentFor(repo: Repository, tree: Tree): Intent {
    Intent(repo.integration, repo.brave, Unaffected(repo, tree), PlannedEntries(repo, tree), OverlayEntries(repo, tree))
  }

  /** An intent counts only for the pair of commits it was written for. */
  function Relevant(repo: Repository, pending: Option<Intent>): Option<Intent> {
    if pending.Some? && (pending.value.integration != repo.integration || pending.value.brave != repo.brave) then None
    else pending
  }

  ghost predicate Resumable(repo: Repository, tree: Tree, intent: Intent) {
    && Unaffected(repo, tree) == intent.unaffected
    && forall l <- intent.overlays.Keys ::
         Lookup(tree, l) == intent.overlays[l].before || Lookup(tree, l) == intent.overlays[l].after
  }

  function IdentityOf(repo: Repository, tree: Tree): Identity {
    Identity(repo.integration, repo.brave, tree)
  }

  /** When `verify_reusable` lets a sync begin on the present tree. */
  ghost predicate Admitted(repo: Repository, w: World) {
    || w.tree == repo.head
    || w.receipt == Some(IdentityOf(repo, w.tree))
    || (var pending := Relevant(repo, w.pending); pending.Some? && Resumable(repo, w.tree, pending.value))
  }

  ghost predicate MatchesIntent(repo: Repository, tree: Tree, intent: Intent) {
    && Unaffected(repo, tree) == intent.unaffected
    && (forall l <- intent.patched.Keys :: Lookup(tree, l) == intent.patched[l])
    && (forall l <- intent.overlays.Keys :: Lookup(tree, l) == intent.overlays[l].after)
  }

  ghost predicate BeginAccepts(repo: Repository, w: World) {
    w.phase.Idle? && Admitted(repo, w) && Plannable(repo, w.tree)
  }

  ghost predicate RecordAccepts(repo: Repository, w: World) {
    var pending := Relevant(repo, w.pending);
    pending.Some? ==> MatchesIntent(repo, w.tree, pending.value)
  }

  const OWNERS: set<Owner> := {BraveCore, Chromium, V8}

  /** The script's own plan: the applied prefix of each stack. */
  ghost function NextPatches(repo: Repository, tree: Tree): map<Owner, nat>
    requires Plannable(repo, tree)
  {
    map o: Owner | o in OWNERS :: PlanIn(repo, tree, o).value.0
  }

  ghost function Next(repo: Repository, w: World, event: Event): World {
    match event
    case Begin =>
      if BeginAccepts(repo, w) then w.(pending := Some(IntentFor(repo, w.tree)), phase := Begun) else w
    case PlanPatches =>
      if w.phase.Begun? && Plannable(repo, w.tree)
      then w.(phase := Syncing(NextPatches(repo, w.tree)))
      else w
    case CopyOverlay(l) =>
      if w.phase.Syncing? && l in repo.overlay then w.(tree := w.tree[l := repo.overlay[l]]) else w
    case ApplyNext(o) =>
      if w.phase.Syncing? && o in w.phase.next && w.phase.next[o] < |repo.stacks.Of(o)| then
        var i := w.phase.next[o];
        match Apply(w.tree, repo.stacks.Of(o)[i])
        case None => w.(phase := Idle)
        case Some(t) => w.(tree := t, phase := Syncing(w.phase.next[o := i + 1]))
      else w
    case CopySiso =>
      if w.phase.Syncing? && repo.sisoSource in w.tree
      then w.(tree := w.tree[repo.sisoCopy := w.tree[repo.sisoSource]]) else w
    case Record =>
      if RecordAccepts(repo, w)
      then w.(receipt := Some(IdentityOf(repo, w.tree)),
              pending := if Relevant(repo, w.pending).Some? then None else w.pending, phase := Idle)
      else w.(phase := Idle)
    case Crash => w.(phase := Idle)
    case Foreign(l, entry) => w.(tree := if entry.Some? then w.tree[l := entry.value] else w.tree - {l})
  }

  ghost function Exec(repo: Repository, w: World, events: seq<Event>): World
    decreases |events|
  {
    if events == [] then w else Exec(repo, Next(repo, w, events[0]), events[1..])
  }

  // ---------------------------------------------------------------- planning

  lemma PlanOfIs(tree: Tree, patches: seq<Patch>, k: nat, expected: Tree)
    requires IsPlan(tree, patches, k, expected)
    ensures PlanOf(tree, patches) == Some((k, expected))
  {
    assert IsPlan(tree, patches, (k, expected).0, (k, expected).1);
    var p := PlanOf(tree, patches).value;
    PlanIsUnique(tree, patches, p.0, p.1, k, expected);
  }

  /** Overlays, the Siso copy and patch destinations are apart, and patches stay in their checkout. */
  ghost predicate Separate(repo: Repository) {
    && Routed(repo.stacks) && repo.overlay.Keys !! PatchedPaths(repo)
    && repo.sisoCopy !in PatchedPaths(repo) && repo.sisoCopy !in repo.overlay
  }

  /** What one checkout's stack held when the chain started, and what was planned for it. */
  datatype Origin = Origin(base: Tree, from: nat, goal: Tree)

  /** `now` is the origin with the patches from its planned prefix up to `j` applied. */
  ghost predicate Progress(origin: Origin, patches: seq<Patch>, now: Tree, j: nat) {
    origin.from <= j <= |patches| && ApplyAll(origin.base, patches[origin.from..j]) == Some(now)
  }

  /** Along the whole stack, each state is explained by one prefix only. */
  ghost predicate Unambiguous(origin: Origin, patches: seq<Patch>) {
    forall now, j, k | Progress(origin, patches, now, j) && Explains(now, patches, k) :: k == j
  }

  lemma ProgressReachesTheGoal(origin: Origin, patches: seq<Patch>, now: Tree, j: nat)
    requires IsPlan(origin.base, patches, origin.from, origin.goal) && Progress(origin, patches, now, j)
    ensures ApplyAll(now, patches[j..]) == Some(origin.goal)
  {
    assert patches[origin.from..] == patches[origin.from..j] + patches[j..];
    ApplyAllSplit(origin.base, patches[origin.from..j], patches[j..]);
  }

  lemma ProgressUndoes(origin: Origin, patches: seq<Patch>, now: Tree, j: nat)
    requires IsPlan(origin.base, patches, origin.from, origin.goal) && Progress(origin, patches, now, j)
    ensures UndoAll(now, patches[..j]).Some?
  {
    var k := origin.from;
    UndoIsInverse(origin.base, now, patches[k..j]);
    assert patches[..j] == patches[..k] + patches[k..j];
    UndoAllSplit(now, patches[..k], patches[k..j]);
  }

  lemma ProgressPlan(origin: Origin, patches: seq<Patch>, now: Tree, j: nat)
    requires IsPlan(origin.base, patches, origin.from, origin.goal)
    requires Progress(origin, patches, now, j) && Unambiguous(origin, patches)
    ensures PlanOf(now, patches) == Some((j, origin.goal))
  {
    ProgressReachesTheGoal(origin, patches, now, j);
    ProgressUndoes(origin, patches, now, j);
    assert j <= |patches|;
    hide Progress, PlanOf, ApplyAll, UndoAll;
    PlanOfIs(now, patches, j, origin.goal);
  }

  lemma ProgressByOne(origin: Origin, patches: seq<Patch>, now: Tree, j: nat, next: Tree)
    requires Progress(origin, patches, now, j) && j < |patches| && Apply(now, patches[j]) == Some(next)
    ensures Progress(origin, patches, next, j + 1)
  {
    ApplyAllSplit(origin.base, patches[origin.from..j], [patches[j]]);
    assert patches[origin.from..j + 1] == patches[origin.from..j] + [patches[j]];
    assert [patches[j]][1..] == [];
  }

  type Origins = map<Owner, Origin>

  /** The checkouts' stacks where a chain starts, each with one explaining prefix all along. */
  ghost predicate StartsFrom(repo: Repository, start: Tree, origins: Origins) {
    forall o ::
      && o in origins
      && PlanIn(repo, start, o) == Some((origins[o].from, origins[o].goal))
      && origins[o].base == Part(repo, start, o)
      && Unambiguous(origins[o], repo.stacks.Of(o))
  }

  /** Each checkout holds exactly `held[o]` patches over its origin, and a running sync knows it. */
  ghost predicate Follows(repo: Repository, origins: Origins, tree: Tree, phase: Phase, held: map<Owner, nat>) {
    && (forall o :: o in origins && o in held && Progress(origins[o], repo.stacks.Of(o), Part(repo, tree, o), held[o]))
    && (phase.Syncing? ==> phase.next == held)
  }

  ghost predicate SameIntent(repo: Repository, start: Tree, pending: Option<Intent>) {
    && pending.Some?
    && pending.value.integration == repo.integration && pending.value.brave == repo.brave
    && pending.value.unaffected == Unaffected(repo, start)
    && pending.value.patched == PlannedEntries(repo, start)
    && pending.value.overlays.Keys == repo.overlay.Keys
    && (forall l <- repo.overlay.Keys :: pending.value.overlays[l].after == Some(repo.overlay[l]))
  }

  /** A write outside patched paths leaves every stack where it was. */
  lemma OutsideWrite(repo: Repository, a: Tree, b: Tree, o: Owner)
    requires forall l | l in PatchedPaths(repo) :: Lookup(a, l) == Lookup(b, l)
    ensures Part(repo, a, o) == Part(repo, b, o)
  {
    assert Touched(repo.stacks.Of(o)) <= PatchedPaths(repo);
    forall l ensures Lookup(Part(repo, a, o), l) == Lookup(Part(repo, b, o), l) {
      assert l in Touched(repo.stacks.Of(o)) ==> Lookup(a, l) == Lookup(b, l);
    }
    SameLookups(Part(repo, a, o), Part(repo, b, o));
  }

  lemma OutsideWrites(repo: Repository, origins: Origins, a: Tree, b: Tree, phase: Phase, held: map<Owner, nat>)
    requires Follows(repo, origins, a, phase, held)
    requires forall l | l in PatchedPaths(repo) :: Lookup(a, l) == Lookup(b, l)
    ensures Follows(repo, origins, b, phase, held)
  {
    forall o ensures Part(repo, a, o) == Part(repo, b, o) {
      OutsideWrite(repo, a, b, o);
    }
  }

  /** Planning again from any state of the chain gives the prefix held and the first plan's result. */
  lemma ReplanOnChain(repo: Repository, start: Tree, origins: Origins, tree: Tree, phase: Phase, held: map<Owner, nat>,
        o: Owner)
    requires StartsFrom(repo, start, origins) && Follows(repo, origins, tree, phase, held)
    ensures o in held && o in origins && PlanIn(repo, tree, o) == Some((held[o], origins[o].goal))
  {
    ProgressPlan(origins[o], repo.stacks.Of(o), Part(repo, tree, o), held[o]);
  }

  lemma ApplyElsewhere(repo: Repository, tree: Tree, o: Owner, i: nat, p: Owner)
    requires Routed(repo.stacks) && i < |repo.stacks.Of(o)| && Apply(tree, repo.stacks.Of(o)[i]).Some?
    ensures var after := Apply(tree, repo.stacks.Of(o)[i]).value;
            && (p != o ==> Part(repo, after, p) == Part(repo, tree, p))
            && Apply(Part(repo, tree, o), repo.stacks.Of(o)[i]) == Some(Part(repo, after, o))
  {
    var patches := repo.stacks.Of(o);
    var after := Apply(tree, patches[i]).value;
    assert patches[i].changes.Keys <= Touched(patches);
    ApplyFrame(tree, patches[i], Touched(patches));
    if p != o {
      forall l ensures Lookup(Part(repo, after, p), l) == Lookup(Part(repo, tree, p), l) {
        assert l in Touched(repo.stacks.Of(p)) ==> l.owner == p;
        assert l in Touched(repo.stacks.Of(o)) ==> l.owner == o;
      }
      SameLookups(Part(repo, after, p), Part(repo, tree, p));
    }
  }

  lemma ApplyOnChain(repo: Repository, origins: Origins, tree: Tree, held: map<Owner, nat>, o: Owner)
    requires Routed(repo.stacks) && Follows(repo, origins, tree, Syncing(held), held)
    requires o in held && held[o] < |repo.stacks.Of(o)| && Apply(tree, repo.stacks.Of(o)[held[o]]).Some?
    ensures var held' := held[o := held[o] + 1];
            Follows(repo, origins, Apply(tree, repo.stacks.Of(o)[held[o]]).value, Syncing(held'), held')
  {
    var held' := held[o := held[o] + 1];
    var after := Apply(tree, repo.stacks.Of(o)[held[o]]).value;
    forall p ensures p in held' && Progress(origins[p], repo.stacks.Of(p), Part(repo, after, p), held'[p]) {
      ApplyElsewhere(repo, tree, o, held[o], p);
      if p == o {
        ProgressByOne(origins[o], repo.stacks.Of(o), Part(repo, tree, o), held[o], Part(repo, after, o));
      }
    }
  }

  // ---------------------------------------------------------------- a chain of interruptions

  /** Every accepted `begin` resumes, only sync steps touch patched paths, and nothing is recorded yet. */
  ghost predicate Resuming(repo: Repository, w: World, events: seq<Event>)
    decreases |events|
  {
    events != [] ==> ResumingStep(repo, w, events[0]) && Resuming(repo, Next(repo, w, events[0]), events[1..])
  }

  ghost predicate ResumingStep(repo: Repository, w: World, event: Event) {
    && (event.Begin? && BeginAccepts(repo, w) ==> w.pending.Some? && Resumable(repo, w.tree, w.pending.value))
    && (event.Foreign? ==> event.l !in PatchedPaths(repo))
    && !(event.Record? && RecordAccepts(repo, w))
  }

  lemma SameExpectations(repo: Repository, a: Tree, b: Tree, o: Owner)
    requires PlanIn(repo, a, o).Some? && PlanIn(repo, b, o).Some?
    requires PlanIn(repo, a, o).value.1 == PlanIn(repo, b, o).value.1
    ensures ExpectedEntries(repo, a, o) == ExpectedEntries(repo, b, o)
  {
  }

  lemma HeldOnChain(repo: Repository, tree: Tree, held: map<Owner, nat>)
    requires Plannable(repo, tree)
    requires forall o :: o in held && PlanIn(repo, tree, o).value.0 == held[o]
    ensures NextPatches(repo, tree) == held
  {
    forall o ensures o in OWNERS {
      assert o == BraveCore || o == Chromium || o == V8;
    }
  }

  lemma {:induction false} PlannedOnChain(repo: Repository, start: Tree, origins: Origins, tree: Tree, phase: Phase,
        held: map<Owner, nat>)
    requires StartsFrom(repo, start, origins) && Follows(repo, origins, tree, phase, held)
    ensures PlannedEntries(repo, tree) == PlannedEntries(repo, start)
    ensures Plannable(repo, tree) && NextPatches(repo, tree) == held
  {
    hide PlanIn, Progress, ExpectedEntries;
    forall o ensures o in held && PlanIn(repo, tree, o) == Some((held[o], origins[o].goal)) {
      ReplanOnChain(repo, start, origins, tree, phase, held, o);
    }
    HeldOnChain(repo, tree, held);
    SameExpectations(repo, tree, start, BraveCore);
    SameExpectations(repo, tree, start, Chromium);
    SameExpectations(repo, tree, start, V8);
  }

  lemma PendingAfter(repo: Repository, w: World, event: Event)
    requires !(event.Record? && RecordAccepts(repo, w))
    ensures Next(repo, w, event).pending ==
            if event.Begin? && BeginAccepts(repo, w) then Some(IntentFor(repo, w.tree)) else w.pending
  {
  }

  lemma IntentAgain(repo: Repository, start: Tree, pending: Option<Intent>, tree: Tree)
    requires SameIntent(repo, start, pending) && Resumable(repo, tree, pending.value)
    requires PlannedEntries(repo, tree) == PlannedEntries(repo, start)
    ensures SameIntent(repo, start, Some(IntentFor(repo, tree)))
  {
    hide PlannedEntries, Unaffected;
  }

  lemma PendingOnChain(repo: Repository, start: Tree, w: World, event: Event)
    requires SameIntent(repo, start, w.pending) && ResumingStep(repo, w, event)
    requires PlannedEntries(repo, w.tree) == PlannedEntries(repo, start)
    ensures SameIntent(repo, start, Next(repo, w, event).pending)
  {
    PendingAfter(repo, w, event);
    if event.Begin? && BeginAccepts(repo, w) {
      IntentAgain(repo, start, w.pending, w.tree);
    }
    hide Next, BeginAccepts, RecordAccepts, SameIntent, IntentFor;
  }

  lemma {:induction false} WritesOnChain(repo: Repository, origins: Origins, w: World, event: Event,
        held: map<Owner, nat>)
    requires Follows(repo, origins, w.tree, w.phase, held) && Separate(repo)
    requires event.CopyOverlay? || event.CopySiso? || (event.Foreign? && event.l !in PatchedPaths(repo))
    ensures Follows(repo, origins, Next(repo, w, event).tree, Next(repo, w, event).phase, held)
  {
    OutsideWrites(repo, origins, w.tree, Next(repo, w, event).tree, w.phase, held);
  }

  lemma {:induction false} TreeOnChain(repo: Repository, origins: Origins, w: World, event: Event,
        held: map<Owner, nat>)
    returns (held': map<Owner, nat>)
    requires Follows(repo, origins, w.tree, w.phase, held) && Separate(repo) && ResumingStep(repo, w, event)
    requires event.PlanPatches? ==> Plannable(repo, w.tree) && NextPatches(repo, w.tree) == held
    ensures Follows(repo, origins, Next(repo, w, event).tree, Next(repo, w, event).phase, held')
  {
    hide Progress, PatchedPaths, Plannable, NextPatches, BeginAccepts, RecordAccepts;
    held' := held;
    if event.CopyOverlay? || event.CopySiso? || event.Foreign? {
      WritesOnChain(repo, origins, w, event, held);
    } else if event.ApplyNext? {
      var o := event.owner;
      if w.phase.Syncing? && held[o] < |repo.stacks.Of(o)| && Apply(w.tree, repo.stacks.Of(o)[held[o]]).Some? {
        held' := held[o := held[o] + 1];
        ApplyOnChain(repo, origins, w.tree, held, o);
      }
    }
  }

  lemma {:induction false} ChainRun(repo: Repository, start: Tree, origins: Origins, w: World, events: seq<Event>,
        held: map<Owner, nat>)
    returns (held': map<Owner, nat>)
    requires Separate(repo) && StartsFrom(repo, start, origins) && SameIntent(repo, start, w.pending)
    requires Follows(repo, origins, w.tree, w.phase, held) && Resuming(repo, w, events)
    ensures var end := Exec(repo, w, events);
            SameIntent(repo, start, end.pending) && Follows(repo, origins, end.tree, end.phase, held')
    decreases |events|
  {
    if events == [] {
      held' := held;
    } else {
      PlannedOnChain(repo, start, origins, w.tree, w.phase, held);
      PendingOnChain(repo, start, w, events[0]);
      held' := TreeOnChain(repo, origins, w, events[0], held);
      held' := ChainRun(repo, start, origins, Next(repo, w, events[0]), events[1..], held');
    }
  }

  /** A chain starts with an accepted `begin` on a tree whose stacks are unambiguous. */
  ghost predicate ChainStarts(repo: Repository, w: World, origins: Origins) {
    BeginAccepts(repo, w) && Separate(repo) && StartsFrom(repo, w.tree, origins)
  }

  /** What the first `begin` leaves: the same tree, and the intent of that tree. */
  lemma BegunAccepts(repo: Repository, w: World)
    requires BeginAccepts(repo, w)
    ensures var begun := Next(repo, w, Begin);
            begun.tree == w.tree && !begun.phase.Syncing? && SameIntent(repo, w.tree, begun.pending)
  {
  }

  lemma BegunFollows(repo: Repository, start: Tree, origins: Origins, phase: Phase)
    returns (held: map<Owner, nat>)
    requires StartsFrom(repo, start, origins) && !phase.Syncing?
    ensures Follows(repo, origins, start, phase, held)
  {
    held := map o: Owner | o in OWNERS && o in origins :: origins[o].from;
    forall o ensures o in held && Progress(origins[o], repo.stacks.Of(o), Part(repo, start, o), held[o]) {
      assert o == BraveCore || o == Chromium || o == V8;
      assert IsPlan(Part(repo, start, o), repo.stacks.Of(o), origins[o].from, origins[o].goal);
      assert repo.stacks.Of(o)[held[o]..held[o]] == [];
    }
  }

  /**
   * However often a sync is interrupted and resumed, each resumption plans again and
   * arrives at the same intent: the unaffected state, the planned content of every
   * patched path and the overlay targets are those of the first `begin`.
   */
  lemma {:induction false} ChainKeepsTheIntent(repo: Repository, w: World, origins: Origins, events: seq<Event>)
    requires ChainStarts(repo, w, origins) && Resuming(repo, Next(repo, w, Begin), events)
    ensures SameIntent(repo, w.tree, Exec(repo, Next(repo, w, Begin), events).pending)
  {
    hide Progress, PlanIn, Follows, SameIntent, BeginAccepts, StartsFrom, Next;
    var begun := Next(repo, w, Begin);
    BegunAccepts(repo, w);
    var held := BegunFollows(repo, w.tree, origins, begun.phase);
    var _ := ChainRun(repo, w.tree, origins, begun, events, held);
  }

  lemma RecordedContent(repo: Repository, start: Tree, end: World, l: Location)
    requires Plannable(repo, start) && SameIntent(repo, start, end.pending) && RecordAccepts(repo, end)
    ensures l in PatchedPaths(repo) ==>
        l in PlannedEntries(repo, start) && Lookup(end.tree, l) == PlannedEntries(repo, start)[l]
    ensures l in repo.overlay ==> Lookup(end.tree, l) == Some(repo.overlay[l])
    ensures l !in Owned(repo) ==> Lookup(end.tree, l) == Lookup(start, l)
  {
    if l !in Owned(repo) {
      assert Lookup(end.tree, l) == Lookup(Unaffected(repo, end.tree), l);
      assert Lookup(start, l) == Lookup(Unaffected(repo, start), l);
    }
    if l in PatchedPaths(repo) {
      PlannedKeys(repo, start);
    }
  }

  lemma ExpectedKeys(repo: Repository, tree: Tree, owner: Owner)
    requires Plannable(repo, tree)
    ensures ExpectedEntries(repo, tree, owner).Keys == Touched(repo.stacks.Of(owner))
  {
    hide PlanIn;
    assert PlanIn(repo, tree, owner).Some?;
  }

  lemma PlannedKeys(repo: Repository, tree: Tree)
    requires Plannable(repo, tree)
    ensures PlannedEntries(repo, tree).Keys == PatchedPaths(repo)
  {
    hide ExpectedEntries, Plannable;
    ExpectedKeys(repo, tree, BraveCore);
    ExpectedKeys(repo, tree, Chromium);
    ExpectedKeys(repo, tree, V8);
  }

  /** What a sync that begins on this tree is to leave at a location other than the Siso copy. */
  ghost function Intended(repo: Repository, start: Tree, l: Location): Option<File> {
    if l in PlannedEntries(repo, start) then PlannedEntries(repo, start)[l]
    else if l in repo.overlay then Some(repo.overlay[l])
    else Lookup(start, l)
  }

  lemma RecordedIsIntended(repo: Repository, start: Tree, end: World, l: Location)
    requires Plannable(repo, start) && SameIntent(repo, start, end.pending) && RecordAccepts(repo, end)
    requires l != repo.sisoCopy
    ensures Lookup(end.tree, l) == Intended(repo, start, l)
  {
    RecordedContent(repo, start, end, l);
    PlannedKeys(repo, start);
    hide SameIntent, RecordAccepts, Plannable, PlannedEntries, PatchedPaths;
  }

  lemma ChainStartsPlannable(repo: Repository, w: World, origins: Origins)
    requires ChainStarts(repo, w, origins)
    ensures Plannable(repo, w.tree)
  {
  }

  /** Whatever a chain records is what its first `begin` intended. */
  lemma ChainRecordsTheIntended(repo: Repository, w: World, origins: Origins, events: seq<Event>, l: Location)
    requires ChainStarts(repo, w, origins) && l != repo.sisoCopy
    requires Resuming(repo, Next(repo, w, Begin), events)
    requires RecordAccepts(repo, Exec(repo, Next(repo, w, Begin), events))
    ensures Lookup(Exec(repo, Next(repo, w, Begin), events).tree, l) == Intended(repo, w.tree, l)
  {
    ChainStartsPlannable(repo, w, origins);
    ChainKeepsTheIntent(repo, w, origins, events);
    hide Next, Exec, ChainStarts, Resuming, SameIntent, RecordAccepts, Plannable, Intended;
    RecordedIsIntended(repo, w.tree, Exec(repo, Next(repo, w, Begin), events), l);
  }

  /** Every result a chain can record agrees on every path except the Siso copy. */
  lemma RecordedTreesAgree(
      repo: Repository, w: World, origins: Origins, a: seq<Event>, b: seq<Event>, l: Location)
    requires ChainStarts(repo, w, origins) && l != repo.sisoCopy
    requires Resuming(repo, Next(repo, w, Begin), a) && Resuming(repo, Next(repo, w, Begin), b)
    requires RecordAccepts(repo, Exec(repo, Next(repo, w, Begin), a))
    requires RecordAccepts(repo, Exec(repo, Next(repo, w, Begin), b))
    ensures Lookup(Exec(repo, Next(repo, w, Begin), a).tree, l) == Lookup(Exec(repo, Next(repo, w, Begin), b).tree, l)
  {
    hide Next, Exec, ChainStarts, Resuming, RecordAccepts, Intended, Lookup;
    ChainRecordsTheIntended(repo, w, origins, a, l);
    ChainRecordsTheIntended(repo, w, origins, b, l);
  }

  // ---------------------------------------------------------------- edits by others

  /** Resumptions only, with any foreign edit anywhere. */
  ghost predicate OnlyResumes(repo: Repository, w: World, events: seq<Event>)
    decreases |events|
  {
    events != [] ==>
      && (events[0].Begin? && BeginAccepts(repo, w) ==> w.pending.Some? && Resumable(repo, w.tree, w.pending.value))
      && !(events[0].Record? && RecordAccepts(repo, w))
      && OnlyResumes(repo, Next(repo, w, events[0]), events[1..])
  }

  /** Whatever others edit, resumptions never move the unaffected state or the overlay targets. */
  lemma {:induction false} ResumptionsKeepUnaffected(repo: Repository, w: World, events: seq<Event>)
    requires OnlyResumes(repo, w, events)
    requires w.pending.Some? && w.pending.value.overlays.Keys == repo.overlay.Keys
    requires forall l <- repo.overlay.Keys :: w.pending.value.overlays[l].after == Some(repo.overlay[l])
    ensures var end := Exec(repo, w, events).pending;
            && end.Some? && end.value.unaffected == w.pending.value.unaffected
            && end.value.overlays.Keys == repo.overlay.Keys
            && (forall l <- repo.overlay.Keys :: end.value.overlays[l].after == w.pending.value.overlays[l].after)
    decreases |events|
  {
    hide Next, BeginAccepts, RecordAccepts, PlannedEntries, PatchedPaths;
    if events != [] {
      PendingAfter(repo, w, events[0]);
      ResumptionsKeepUnaffected(repo, Next(repo, w, events[0]), events[1..]);
    }
  }

  /**
   * A foreign edit outside sync-owned paths refuses both ways to carry on: the record
   * is refused, and a further `begin` is admitted only if the edit made the whole
   * tree clean or exactly the recorded one.
   */
  lemma {:induction false} OutsideEditsAreRefused(repo: Repository, w: World, l: Location, entry: Option<File>)
    requires w.pending.Some? && Relevant(repo, w.pending) == w.pending
    requires Unaffected(repo, w.tree) == w.pending.value.unaffected
    requires l !in Owned(repo) && Lookup(w.tree, l) != entry
    ensures var edited := Next(repo, w, Foreign(l, entry));
            && !RecordAccepts(repo, edited)
            && Next(repo, edited, Record).receipt == w.receipt && Next(repo, edited, Record).pending == w.pending
            && (BeginAccepts(repo, edited) ==>
                  edited.tree == repo.head || edited.receipt == Some(IdentityOf(repo, edited.tree)))
  {
    var edited := Next(repo, w, Foreign(l, entry));
    assert Lookup(Unaffected(repo, edited.tree), l) == entry;
    assert Lookup(Unaffected(repo, w.tree), l) == Lookup(w.tree, l);
  }

  /** An accepted `begin` keeps the unaffected record exactly when nothing outside changed. */
  lemma CleanTreesRestartTheChain(repo: Repository, w: World)
    requires BeginAccepts(repo, w) && w.pending.Some?
    ensures Next(repo, w, Begin).pending.value.unaffected == w.pending.value.unaffected <==>
            Unaffected(repo, w.tree) == w.pending.value.unaffected
    ensures w.tree == repo.head ==> Next(repo, w, Begin).pending == Some(IntentFor(repo, repo.head))
  {
    PendingAfter(repo, w, Begin);
  }

  /** Without unambiguity, planning again keeps the goal exactly when the patches it skips change nothing. */
  lemma {:induction false} ReplanKeepsTheGoal(origin: Origin, patches: seq<Patch>, now: Tree, j: nat, k: nat,
        expected: Tree)
    requires IsPlan(origin.base, patches, origin.from, origin.goal) && Progress(origin, patches, now, j)
    requires IsPlan(now, patches, k, expected)
    ensures j <= k
    ensures expected == origin.goal <==> ApplyAll(now, patches[j..k]) == Some(now)
  {
    hide Touched;
    var base := UndoAll(origin.base, patches[..origin.from]).value;
    UndoIsInverse(base, origin.base, patches[..origin.from]);
    ApplyAllSplit(base, patches[..origin.from], patches[origin.from..]);
    assert patches == patches[..origin.from] + patches[origin.from..];
    ApplyAllSplit(base, patches[..origin.from], patches[origin.from..j]);
    assert patches[..j] == patches[..origin.from] + patches[origin.from..j];
    PlanAimsAtTheStack(base, patches, j, now, k, expected);
  }

  // ---------------------------------------------------------------- as commands

  /** The upstream checkouts with the local records beside them, changed in place. */
  class Upstream {
    var tree: Tree
    var pending: Option<Intent>
    var receipt: Option<Identity>

    constructor (tree: Tree)
      ensures this.tree == tree && pending.None? && receipt.None?
    {
      this.tree := tree;
      pending := None;
      receipt := None;
    }

    ghost function State(phase: Phase): World
      reads this
    {
      World(tree, pending, receipt, phase)
    }

    method OwnedPaths(repo: Repository) returns (owned: set<Location>)
      ensures owned == Owned(repo)
    {
      var braveCore := PatchPaths(repo.stacks.braveCore);
      var chromium := PatchPaths(repo.stacks.chromium);
      var v8 := PatchPaths(repo.stacks.v8);
      owned := repo.overlay.Keys + (braveCore + chromium + v8) + {repo.sisoCopy};
    }

    method ExpectedIn(repo: Repository, o: Owner) returns (r: Option<Entries>)
      ensures r == if PlanIn(repo, tree, o).Some? then Some(ExpectedEntries(repo, tree, o)) else None
    {
      var patches := repo.stacks.Of(o);
      var plan := PlanStack(repo.head, tree, patches);
      if plan.Refused? {
        return None;
      }
      ghost var expected: Tree :|
        IsPlan(Part(repo, tree, o), patches, plan.value.applied, expected)
        && plan.value.expected == EntriesOf(expected, Touched(patches));
      PlanOfIs(Part(repo, tree, o), patches, plan.value.applied, expected);
      return Some(plan.value.expected);
    }

    /** `sync_intent`: the exact planned result, or a refusal by any of the three stacks. */
    method SyncIntent(repo: Repository) returns (intent: Option<Intent>)
      ensures intent == if Plannable(repo, tree) then Some(IntentFor(repo, tree)) else None
    {
      var braveCore := ExpectedIn(repo, BraveCore);
      var chromium := ExpectedIn(repo, Chromium);
      var v8 := ExpectedIn(repo, V8);
      if braveCore.None? || chromium.None? || v8.None? {
        return None;
      }
      forall o ensures PlanIn(repo, tree, o).Some? {
        assert o == BraveCore || o == Chromium || o == V8;
      }
      var owned := OwnedPaths(repo);
      return Some(Intent(repo.integration, repo.brave, tree - owned, braveCore.value + chromium.value + v8.value,
                         OverlayEntries(repo, tree)));
    }

    method Reusable(repo: Repository) returns (admitted: bool)
      ensures admitted <==> Admitted(repo, State(Idle))
    {
      if tree == repo.head || receipt == Some(IdentityOf(repo, tree)) {
        return true;
      }
      var relevant := Relevant(repo, pending);
      if relevant.None? {
        return false;
      }
      var owned := OwnedPaths(repo);
      var intent := relevant.value;
      return tree - owned == intent.unaffected && forall l <- intent.overlays.Keys ::
        Lookup(tree, l) == intent.overlays[l].before || Lookup(tree, l) == intent.overlays[l].after;
    }

    /** `begin --phase sync`. */
    method BeginSync(repo: Repository) returns (accepted: bool)
      modifies this
      ensures State(if accepted then Begun else Idle) == Next(repo, old(State(Idle)), Begin)
    {
      accepted := Reusable(repo);
      if accepted {
        var intent := SyncIntent(repo);
        accepted := intent.Some?;
        if accepted {
          pending := intent;
        }
      }
    }

    /** Apply the rest of one stack in order; a misfit leaves the prefix reached so far. */
    method ApplyRemaining(repo: Repository, o: Owner, applied: nat) returns (ok: bool, held: nat)
      requires applied <= |repo.stacks.Of(o)|
      modifies this
      ensures applied <= held <= |repo.stacks.Of(o)|
      ensures ApplyAll(old(tree), repo.stacks.Of(o)[applied..held]) == Some(tree)
      ensures if ok then held == |repo.stacks.Of(o)|
              else held < |repo.stacks.Of(o)| && Apply(tree, repo.stacks.Of(o)[held]).None?
      ensures pending == old(pending) && receipt == old(receipt)
    {
      var patches := repo.stacks.Of(o);
      held := applied;
      assert patches[applied..applied] == [];
      while held < |patches|
        invariant applied <= held <= |patches|
        invariant ApplyAll(old(tree), patches[applied..held]) == Some(tree)
        invariant pending == old(pending) && receipt == old(receipt)
      {
        var next := Apply(tree, patches[held]);
        if next.None? {
          return false, held;
        }
        ApplyAllSplit(old(tree), patches[applied..held], [patches[held]]);
        assert patches[applied..held + 1] == patches[applied..held] + [patches[held]];
        assert [patches[held]][1..] == [];
        tree := next.value;
        held := held + 1;
      }
      ok := true;
    }

    method VerifySync(repo: Repository, intent: Intent) returns (ok: bool)
      ensures ok <==> MatchesIntent(repo, tree, intent)
    {
      var owned := OwnedPaths(repo);
      return tree - owned == intent.unaffected
        && (forall l <- intent.patched.Keys :: Lookup(tree, l) == intent.patched[l])
        && (forall l <- intent.overlays.Keys :: Lookup(tree, l) == intent.overlays[l].after);
    }

    /** `record`: verify a pending sync, write the receipt, remove the intent. */
    method RecordSync(repo: Repository) returns (accepted: bool)
      modifies this
      ensures State(Idle) == Next(repo, old(State(Idle)), Record)
      ensures accepted <==> RecordAccepts(repo, old(State(Idle)))
    {
      var relevant := Relevant(repo, pending);
      accepted := true;
      if relevant.Some? {
        accepted := VerifySync(repo, relevant.value);
      }
      if accepted {
        receipt := Some(IdentityOf(repo, tree));
        if relevant.Some? {
          pending := None;
        }
      }
    }
  }
}
