/**
 * Planning the change of the one source file in which two stacks differ
 * (`prepare_single_file` in tools/brave_patch_advance.py).
 */
module PatchAdvance {
  import opened Outcomes
  import opened Patches
  import opened StackPlan

  const MAX_SOURCE_BYTES := 16 * 1024 * 1024
  const REGULAR_FILE := 33188   // 0o100644
  const EXECUTABLE_FILE := 33261   // 0o100755

  datatype Stacks = Stacks(braveCore: seq<Patch>, chromium: seq<Patch>, v8: seq<Patch>) {
    function Of(owner: Owner): seq<Patch> {
      match owner
      case BraveCore => braveCore
      case Chromium => chromium
      case V8 => v8
    }
  }

  /** Patch paths are relative to their own checkout. */
  ghost predicate Routed(stacks: Stacks) {
    forall o, l | l in Touched(stacks.Of(o)) :: l.owner == o
  }

  datatype AdvancePlan = AdvancePlan(target: Location, mode: nat, before: seq<Line>, after: seq<Line>)

  datatype AdvanceError =
    | DifferentInventory
    | NotOneCheckout
    | UnknownPath
    | StackDoesNotReverse
    | StackDoesNotApply
    | NotOneFile
    | NotAnEditedRegularFile
    | TooLarge
    | ChangedDuringPreflight

  predicate Regular(mode: nat) { mode == REGULAR_FILE || mode == EXECUTABLE_FILE }

  function ByteLength(lines: seq<Line>): nat {
    if lines == [] then 0 else |lines[0]| + ByteLength(lines[1..])
  }

  function Names(patches: seq<Patch>): seq<string> {
    seq(|patches|, i requires 0 <= i < |patches| => patches[i].name)
  }

  ghost predicate SameInventory(before: seq<Patch>, after: seq<Patch>) {
    Names(before) == Names(after) && Touched(before) == Touched(after)
  }

  function OwnerTree(tree: Tree, owner: Owner): Tree {
    map l | l in tree && l.owner == owner :: tree[l]
  }

  /** HEAD of one checkout with the patch destinations taken from its working tree. */
  function Original(head: Tree, worktree: Tree, owner: Owner, paths: set<Location>): Tree {
    Overlay(OwnerTree(head, owner), paths, Restrict(worktree, paths))
  }

  /** The old stack reversed newest-first, then the new stack applied in order. */
  function Rebuilt(tree: Tree, before: seq<Patch>, after: seq<Patch>): Option<Tree> {
    match UndoAll(tree, before)
    case None => None
    case Some(base) => ApplyAll(base, after)
  }

  ghost predicate DiffersOnlyAt(a: Tree, b: Tree, l: Location) {
    forall m :: Lookup(a, m) != Lookup(b, m) <==> m == l
  }

  /** Exactly one existing regular file differs, and `plan` names it and both contents. */
  ghost predicate EditsOneFile(original: Tree, desired: Tree, plan: AdvancePlan) {
    && DiffersOnlyAt(original, desired, plan.target)
    && plan.target in original && plan.target in desired
    && Regular(original[plan.target].mode) && original[plan.target].mode == desired[plan.target].mode
    && original[plan.target].lines == plan.before && desired[plan.target].lines == plan.after
    && ByteLength(plan.before) <= MAX_SOURCE_BYTES && ByteLength(plan.after) <= MAX_SOURCE_BYTES
  }

  /** The destination is still the regular file that was read. */
  predicate StillHolds(later: Tree, plan: AdvancePlan) {
    Lookup(later, plan.target) == Some(File(plan.mode, plan.before)) && Regular(plan.mode)
  }

  ghost predicate OnlyOwnerChanges(previous: Stacks, current: Stacks, owner: Owner) {
    && (forall o :: SameInventory(previous.Of(o), current.Of(o)))
    && (forall o :: previous.Of(o) != current.Of(o) <==> o == owner)
  }

  /** Every location stands in the commit or on disk; Git refuses to add any other. */
  ghost predicate PathsKnown(head: Tree, worktree: Tree, owner: Owner, paths: set<Location>) {
    forall l <- paths :: l in OwnerTree(head, owner) || l in worktree
  }

  /**
   * The plan an advance may act on: one checkout's stack changes, exactly one
   * existing regular file changes with it, and that file still holds `before`.
   */
  ghost predicate Advances(previous: Stacks, current: Stacks, head: Tree, worktree: Tree, later: Tree,
        plan: AdvancePlan) {
    var owner := plan.target.owner;
    var paths := Touched(previous.Of(owner));
    var original := Original(head, worktree, owner, paths);
    var desired := Rebuilt(original, previous.Of(owner), current.Of(owner));
    && OnlyOwnerChanges(previous, current, owner)
    && PathsKnown(head, worktree, owner, paths)
    && desired.Some? && EditsOneFile(original, desired.value, plan)
    && StillHolds(later, plan)
  }

  lemma AdvancePlanIsUnique(previous: Stacks, current: Stacks, head: Tree, worktree: Tree, later: Tree, a: AdvancePlan,
        b: AdvancePlan)
    requires Advances(previous, current, head, worktree, later, a)
        && Advances(previous, current, head, worktree, later, b)
    ensures a == b
  {
    assert a.target.owner == b.target.owner;
  }

  /** Reversing and reapplying stacks reads and changes nothing outside their paths. */
  lemma RebuiltFrame(tree: Tree, before: seq<Patch>, after: seq<Patch>, paths: set<Location>)
    requires Touched(before) <= paths && Touched(after) <= paths
    requires Rebuilt(tree, before, after).Some?
    ensures var desired := Rebuilt(tree, before, after).value;
            && (forall l | l !in paths :: Lookup(desired, l) == Lookup(tree, l))
            && exists base ::
                && UndoAll(Restrict(tree, paths), before) == Some(base)
                && ApplyAll(base, after) == Some(Restrict(desired, paths))
  {
    var base := UndoAll(tree, before).value;
    var desired := ApplyAll(base, after).value;
    UndoIsInverse(base, tree, before);
    ApplyAllFrame(base, before, paths);
    ApplyAllFrame(base, after, paths);
    var small := Restrict(base, paths);
    var was, now := ApplyAll(small, before).value, ApplyAll(small, after).value;
    forall l ensures Lookup(was, l) == Lookup(Restrict(tree, paths), l) {
      assert Lookup(tree, l) == Lookup(Overlay(base, paths, was), l);
    }
    SameLookups(was, Restrict(tree, paths));
    forall l ensures Lookup(now, l) == Lookup(Restrict(desired, paths), l) {
      assert Lookup(desired, l) == Lookup(Overlay(base, paths, now), l);
    }
    SameLookups(now, Restrict(desired, paths));
    UndoIsInverse(small, was, before);
  }

  /**
   * A one-file advance is a whole-stack change: writing the planned bytes gives the
   * working tree that reversing the old stack and applying the new one would give,
   * and planning the new stack on it reports every patch applied and nothing left.
   */
  lemma AdvanceIsAWholeStackChange(previous: Stacks, current: Stacks, head: Tree, worktree: Tree, later: Tree,
        plan: AdvancePlan)
    requires Routed(previous) && Routed(current)
    requires Advances(previous, current, head, worktree, later, plan)
    ensures var before, after := previous.Of(plan.target.owner), current.Of(plan.target.owner);
            var paths := Touched(after);
            var mode := if plan.target in worktree then worktree[plan.target].mode else 0;
            var advanced := Restrict(worktree[plan.target := File(mode, plan.after)], paths);
            && plan.target in worktree && worktree[plan.target] == File(mode, plan.before)
            && Rebuilt(Restrict(worktree, paths), before, after) == Some(advanced)
            && IsPlan(advanced, after, |after|, advanced)
  {
    var owner := plan.target.owner;
    var before, after := previous.Of(owner), current.Of(owner);
    var paths := Touched(before);
    assert paths == Touched(after) by { assert SameInventory(before, after); }
    var original := Original(head, worktree, owner, paths);
    var desired := Rebuilt(original, before, after).value;
    RebuiltFrame(original, before, after, paths);
    OriginalHoldsWorktree(head, worktree, owner, paths);
    assert plan.target in paths by {
      assert Lookup(original, plan.target) != Lookup(desired, plan.target);
    }
    var advanced := Restrict(worktree[plan.target := File(worktree[plan.target].mode, plan.after)], paths);
    EditIsARestriction(original, desired, worktree, paths, plan);
    var base :| UndoAll(Restrict(original, paths), before) == Some(base) && ApplyAll(base, after) == Some(advanced);
    FullyAppliedPlan(base, after, advanced);
  }

  lemma OriginalHoldsWorktree(head: Tree, worktree: Tree, owner: Owner, paths: set<Location>)
    ensures Restrict(Original(head, worktree, owner, paths), paths) == Restrict(worktree, paths)
  {
    var original := Original(head, worktree, owner, paths);
    forall l ensures Lookup(Restrict(original, paths), l) == Lookup(Restrict(worktree, paths), l) {
    }
    SameLookups(Restrict(original, paths), Restrict(worktree, paths));
  }

  lemma EditIsARestriction(original: Tree, desired: Tree, worktree: Tree, paths: set<Location>, plan: AdvancePlan)
    requires EditsOneFile(original, desired, plan) && plan.target in paths
    requires Restrict(original, paths) == Restrict(worktree, paths)
    ensures plan.target in worktree && worktree[plan.target] == original[plan.target]
    ensures Restrict(desired, paths)
        == Restrict(worktree[plan.target := File(worktree[plan.target].mode, plan.after)], paths)
  {
    assert plan.target in Restrict(original, paths);
    var edited := worktree[plan.target := File(worktree[plan.target].mode, plan.after)];
    forall l ensures Lookup(Restrict(desired, paths), l) == Lookup(Restrict(edited, paths), l) {
      if l in paths && l != plan.target {
        assert Lookup(original, l) == Lookup(desired, l);
        assert Lookup(Restrict(original, paths), l) == Lookup(Restrict(worktree, paths), l);
      }
    }
    SameLookups(Restrict(desired, paths), Restrict(edited, paths));
  }

  method Inventories(previous: Stacks, current: Stacks) returns (r: Result<seq<Owner>, AdvanceError>)
    ensures r.Refused? ==> exists o :: !SameInventory(previous.Of(o), current.Of(o))
    ensures r.Ok? ==> forall o ::
                && SameInventory(previous.Of(o), current.Of(o))
                && (o in r.value <==> previous.Of(o) != current.Of(o))
    ensures r.Ok? ==> forall i, j | 0 <= i < j < |r.value| :: r.value[i] != r.value[j]
  {
    var owners := [BraveCore, Chromium, V8];
    var changed := [];
    for i := 0 to 3
      invariant forall o | o in owners[..i] ::
          && SameInventory(previous.Of(o), current.Of(o))
          && (o in changed <==> previous.Of(o) != current.Of(o))
      invariant forall o | o in changed :: o in owners[..i]
      invariant forall i, j | 0 <= i < j < |changed| :: changed[i] != changed[j]
    {
      var before, after := previous.Of(owners[i]), current.Of(owners[i]);
      var beforePaths := PatchPaths(before);
      var afterPaths := PatchPaths(after);
      if Names(before) != Names(after) || beforePaths != afterPaths {
        return Refused(DifferentInventory);
      }
      if before != after {
        changed := changed + [owners[i]];
      }
    }
    assert owners[..3] == owners;
    forall o: Owner ensures o in owners {
      assert owners[0] == BraveCore && owners[1] == Chromium && owners[2] == V8;
      assert o == owners[0] || o == owners[1] || o == owners[2];
    }
    return Ok(changed);
  }

  method PrepareSingleFile(previous: Stacks, current: Stacks, head: Tree, worktree: Tree, later: Tree)
    returns (r: Result<AdvancePlan, AdvanceError>)
    requires Routed(previous) && Routed(current)
    ensures r.Ok? ==> Advances(previous, current, head, worktree, later, r.value)
    ensures r.Refused? ==> forall plan :: !Advances(previous, current, head, worktree, later, plan)
  {
    var inventories := Inventories(previous, current);
    if inventories.Refused? {
      return Refused(DifferentInventory);
    }
    var changed := inventories.value;
    if |changed| != 1 {
      forall plan: AdvancePlan ensures !Advances(previous, current, head, worktree, later, plan) {
        OneMember(changed, plan.target.owner);
      }
      return Refused(NotOneCheckout);
    }
    var owner := changed[0];
    assert OnlyOwnerChanges(previous, current, owner);
    r := PrepareOwner(owner, previous, current, head, worktree, later);
  }

  lemma OneMember<T>(s: seq<T>, x: T)
    requires forall i, j | 0 <= i < j < |s| :: s[i] != s[j]
    ensures |s| == 1 || exists y :: !(y in s <==> y == x)
  {
    if |s| == 0 {
      assert x !in s;
    } else if |s| > 1 {
      assert s[0] in s && s[1] in s && s[0] != s[1];
    }
  }

  /** Write the tree of the checkout as it is, and as the new stack would leave it. */
  method WriteTrees(owner: Owner, before: seq<Patch>, after: seq<Patch>, head: Tree, worktree: Tree)
    returns (r: Result<(Tree, Tree), AdvanceError>)
    ensures var original := Original(head, worktree, owner, Touched(before));
            && (r.Ok? <==> PathsKnown(head, worktree, owner, Touched(before)) && Rebuilt(original, before, after).Some?)
            && (r.Ok? ==> original == r.value.0 && Rebuilt(original, before, after) == Some(r.value.1))
  {
    var paths := PatchPaths(before);
    var checkout := OwnerTree(head, owner);
    if exists l <- paths :: l !in checkout && l !in worktree {
      return Refused(UnknownPath);
    }
    var index := new PrivateIndex();
    index.WriteBytes(checkout);
    index.Add(worktree, paths);
    var original := index.staged;
    assert original == Original(head, worktree, owner, paths) by {
      SameLookups(original, Original(head, worktree, owner, paths));
    }
    var reversed := ReverseAll(index, before);
    if !reversed {
      return Refused(StackDoesNotReverse);
    }
    var applied := ForwardAll(index, after);
    if !applied {
      return Refused(StackDoesNotApply);
    }
    return Ok((original, index.staged));
  }

  /** The rest of the preflight, inside the one checkout whose stack changed. */
  method PrepareOwner(owner: Owner, previous: Stacks, current: Stacks, head: Tree, worktree: Tree, later: Tree)
    returns (r: Result<AdvancePlan, AdvanceError>)
    requires Routed(previous) && Routed(current) && OnlyOwnerChanges(previous, current, owner)
    ensures r.Ok? ==> Advances(previous, current, head, worktree, later, r.value)
    ensures r.Refused? ==> forall plan :: !Advances(previous, current, head, worktree, later, plan)
  {
    var before, after := previous.Of(owner), current.Of(owner);
    var trees := WriteTrees(owner, before, after, head, worktree);
    assert forall plan | Advances(previous, current, head, worktree, later, plan) :: plan.target.owner == owner;
    if trees.Refused? {
      return Refused(trees.error);
    }
    var (original, desired) := trees.value;
    r := PlanOneFile(original, desired, later);
    if r.Ok? {
      assert SameInventory(before, after);
      RebuiltFrame(original, before, after, Touched(before));
      assert r.value.target in Touched(before) by {
        assert Lookup(original, r.value.target) != Lookup(desired, r.value.target);
      }
    }
  }

  /** Compare the two written trees and read the one changed file. */
  method PlanOneFile(original: Tree, desired: Tree, later: Tree) returns (r: Result<AdvancePlan, AdvanceError>)
    ensures r.Ok? ==> EditsOneFile(original, desired, r.value) && StillHolds(later, r.value)
    ensures r.Refused? ==> forall plan :: !(EditsOneFile(original, desired, plan) && StillHolds(later, plan))
  {
    var names := set l | l in original.Keys + desired.Keys && Lookup(original, l) != Lookup(desired, l);
    if |names| != 1 {
      forall plan: AdvancePlan {
        OneDifference(original, desired, plan, names);
      }
      return Refused(NotOneFile);
    }
    var target :| target in names;
    assert names == {target} by { SingletonOf(names, target); }
    assert DiffersOnlyAt(original, desired, target) by {
      forall m ensures Lookup(original, m) != Lookup(desired, m) <==> m == target {
        assert m in names <==> m == target;
      }
    }
    if target !in original || target !in desired || !Regular(original[target].mode)
       || original[target].mode != desired[target].mode {
      return Refused(NotAnEditedRegularFile);
    }
    var from, to := original[target].lines, desired[target].lines;
    if ByteLength(from) > MAX_SOURCE_BYTES || ByteLength(to) > MAX_SOURCE_BYTES {
      return Refused(TooLarge);
    }
    if target !in later || !Regular(later[target].mode) || later[target].lines != from {
      return Refused(ChangedDuringPreflight);
    }
    return Ok(AdvancePlan(target, later[target].mode, from, to));
  }

  lemma OneDifference(original: Tree, desired: Tree, plan: AdvancePlan, names: set<Location>)
    requires names == set l | l in original.Keys + desired.Keys && Lookup(original, l) != Lookup(desired, l)
    ensures EditsOneFile(original, desired, plan) ==> |names| == 1
  {
    if EditsOneFile(original, desired, plan) {
      assert names == {plan.target};
    }
  }

  lemma SingletonOf<T>(s: set<T>, x: T)
    requires |s| == 1 && x in s
    ensures s == {x}
  {
    assert |s - {x}| == 0;
    assert s == {x} + (s - {x});
  }
}
