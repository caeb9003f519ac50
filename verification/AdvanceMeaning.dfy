/**
 * What a plan of `prepare_single_file` in tools/brave_patch_advance.py means, by what the
 * two stacks do and without the index it is computed in.
 */
module AdvanceMeaning {
  import opened Outcomes
  import opened Patches
  import opened PatchAdvance

  /** The checkout with its patched paths as they are on disk and the rest as committed. */
  ghost predicate IsCheckout(owner: Owner, paths: set<Location>, head: Tree, worktree: Tree, tree: Tree) {
    forall l :: Lookup(tree, l) ==
      if l in paths then Lookup(worktree, l) else if l.owner == owner then Lookup(head, l) else None
  }

  /** A regular file with the plan's two contents, and the same mode in both. */
  predicate ChangesContent(plan: AdvancePlan, checkout: Tree, desired: Tree) {
    var was, will := Lookup(checkout, plan.target), Lookup(desired, plan.target);
    && was.Some? && will.Some? && was.value.mode == will.value.mode
    && (was.value.mode == 0x81A4 || was.value.mode == 0x81ED)
    && was.value.lines == plan.before && will.value.lines == plan.after
  }

  /**
   * The old stack leads from some base to the checkout, and the new stack from the same
   * base to a tree that differs in one file of at most 16 MiB before and after.
   */
  ghost predicate Foreseen(before: seq<Patch>, after: seq<Patch>, plan: AdvancePlan, base: Tree, checkout: Tree,
                           desired: Tree)
  {
    && ApplyAll(base, before) == Some(checkout) && ApplyAll(base, after) == Some(desired)
    && (forall l :: Lookup(checkout, l) != Lookup(desired, l) <==> l == plan.target)
    && ChangesContent(plan, checkout, desired)
  }

  /** The stacks name the same patches and paths, and only the target's own stack changes. */
  ghost predicate OneStackChanges(previous: Stacks, current: Stacks, owner: Owner) {
    forall o ::
      && |previous.Of(o)| == |current.Of(o)| && Touched(previous.Of(o)) == Touched(current.Of(o))
      && (forall i | 0 <= i < |previous.Of(o)| :: previous.Of(o)[i].name == current.Of(o)[i].name)
      && (previous.Of(o) != current.Of(o) <==> o == owner)
  }

  ghost predicate Sound(previous: Stacks, current: Stacks, head: Tree, worktree: Tree, later: Tree, plan: AdvancePlan) {
    var owner := plan.target.owner;
    var before := previous.Of(owner);
    && OneStackChanges(previous, current, owner)
    && (forall l | l in Touched(before) :: (l in head && l.owner == owner) || l in worktree)
    && (exists base, checkout, desired ::
          IsCheckout(owner, Touched(before), head, worktree, checkout)
          && Foreseen(before, current.Of(owner), plan, base, checkout, desired))
    && ByteLength(plan.before) <= 0x100_0000 && ByteLength(plan.after) <= 0x100_0000
    && Lookup(later, plan.target) == Some(File(plan.mode, plan.before))
    && (plan.mode == 0x81A4 || plan.mode == 0x81ED)
  }

  lemma OriginalIsTheCheckout(owner: Owner, paths: set<Location>, head: Tree, worktree: Tree, tree: Tree)
    ensures IsCheckout(owner, paths, head, worktree, tree) <==> tree == Original(head, worktree, owner, paths)
  {
    var original := Original(head, worktree, owner, paths);
    forall l ensures Lookup(original, l) ==
      if l in paths then Lookup(worktree, l) else if l.owner == owner then Lookup(head, l) else None {
    }
    if IsCheckout(owner, paths, head, worktree, tree) {
      SameLookups(tree, original);
    }
  }

  lemma OnlyOwnerExactly(previous: Stacks, current: Stacks, owner: Owner)
    ensures OnlyOwnerChanges(previous, current, owner) <==> OneStackChanges(previous, current, owner)
  {
    forall o ensures Names(previous.Of(o)) == Names(current.Of(o)) <==>
      && |previous.Of(o)| == |current.Of(o)|
      && forall i | 0 <= i < |previous.Of(o)| :: previous.Of(o)[i].name == current.Of(o)[i].name {
      SameNames(previous.Of(o), current.Of(o));
    }
    hide Names, Touched;
  }

  lemma SameNames(a: seq<Patch>, b: seq<Patch>)
    ensures Names(a) == Names(b) <==> |a| == |b| && forall i | 0 <= i < |a| :: a[i].name == b[i].name
  {
    if Names(a) == Names(b) {
      assert |Names(a)| == |Names(b)|;
      forall i | 0 <= i < |a| ensures a[i].name == b[i].name {
        assert Names(a)[i] == Names(b)[i];
      }
    }
  }

  lemma EditExactly(checkout: Tree, desired: Tree, plan: AdvancePlan)
    ensures EditsOneFile(checkout, desired, plan) <==>
      && ByteLength(plan.before) <= 0x100_0000 && ByteLength(plan.after) <= 0x100_0000
      && (forall l :: Lookup(checkout, l) != Lookup(desired, l) <==> l == plan.target)
      && ChangesContent(plan, checkout, desired)
  {
    if EditsOneFile(checkout, desired, plan) {
      assert ChangesContent(plan, checkout, desired);
    }
  }

  lemma RebuiltFrom(base: Tree, checkout: Tree, before: seq<Patch>, after: seq<Patch>, desired: Tree)
    requires ApplyAll(base, before) == Some(checkout) && ApplyAll(base, after) == Some(desired)
    ensures Rebuilt(checkout, before, after) == Some(desired)
  {
    UndoIsInverse(base, checkout, before);
  }

  lemma RebuiltHasABase(checkout: Tree, before: seq<Patch>, after: seq<Patch>, desired: Tree) returns (base: Tree)
    requires Rebuilt(checkout, before, after) == Some(desired)
    ensures ApplyAll(base, before) == Some(checkout) && ApplyAll(base, after) == Some(desired)
  {
    base := UndoAll(checkout, before).value;
    UndoIsInverse(base, checkout, before);
  }

  lemma PathsExactly(head: Tree, worktree: Tree, owner: Owner, paths: set<Location>)
    ensures PathsKnown(head, worktree, owner, paths) <==>
      forall l | l in paths :: (l in head && l.owner == owner) || l in worktree
  {
    assert forall l :: l in OwnerTree(head, owner) <==> l in head && l.owner == owner;
  }

  /** The two trees a plan compares, and what it says of them. */
  lemma ForeseenExactly(before: seq<Patch>, after: seq<Patch>, plan: AdvancePlan, original: Tree, desired: Tree)
    requires ByteLength(plan.before) <= 0x100_0000 && ByteLength(plan.after) <= 0x100_0000
    ensures Rebuilt(original, before, after) == Some(desired) && EditsOneFile(original, desired, plan)
       <==> exists base :: Foreseen(before, after, plan, base, original, desired)
  {
    hide Rebuilt, EditsOneFile, ByteLength, ApplyAll, ChangesContent;
    EditExactly(original, desired, plan);
    if Rebuilt(original, before, after) == Some(desired) && EditsOneFile(original, desired, plan) {
      var base := RebuiltHasABase(original, before, after, desired);
      assert Foreseen(before, after, plan, base, original, desired);
    }
    if base :| Foreseen(before, after, plan, base, original, desired) {
      RebuiltFrom(base, original, before, after, desired);
    }
  }

  /** A plan is returned exactly when it is sound. */
  lemma AdvancesExactly(previous: Stacks, current: Stacks, head: Tree, worktree: Tree, later: Tree, plan: AdvancePlan)
    ensures Advances(previous, current, head, worktree, later, plan)
       <==> Sound(previous, current, head, worktree, later, plan)
  {
    hide OnlyOwnerChanges, OneStackChanges, PathsKnown, Touched, Original, IsCheckout, Rebuilt, EditsOneFile, Foreseen;
    hide ByteLength;
    var owner := plan.target.owner;
    var before, after := previous.Of(owner), current.Of(owner);
    var paths := Touched(before);
    var original := Original(head, worktree, owner, paths);
    OnlyOwnerExactly(previous, current, owner);
    PathsExactly(head, worktree, owner, paths);
    OriginalIsTheCheckout(owner, paths, head, worktree, original);
    if Advances(previous, current, head, worktree, later, plan) {
      var desired := Rebuilt(original, before, after).value;
      EditExactly(original, desired, plan);
      ForeseenExactly(before, after, plan, original, desired);
    }
    if Sound(previous, current, head, worktree, later, plan) {
      var base, checkout, desired :| IsCheckout(owner, paths, head, worktree, checkout)
        && Foreseen(before, after, plan, base, checkout, desired);
      OriginalIsTheCheckout(owner, paths, head, worktree, checkout);
      ForeseenExactly(before, after, plan, original, desired);
    }
  }
}
