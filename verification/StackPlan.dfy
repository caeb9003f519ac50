/**
 * Finding which ordered prefix of a patch stack a checkout holds
 * (`PrivateIndex` and `stack_plan` in tools/brave_patch_contract.py).
 */
module StackPlan {
  import opened Outcomes
  import opened Patches

  type Entries = map<Location, Option<File>>

  function EntriesOf(tree: Tree, paths: set<Location>): Entries {
    map l | l in paths :: Lookup(tree, l)
  }

  /** The throwaway Git index of one checkout: `staged` is rewritten in place. */
  class PrivateIndex {
    var staged: Tree

    constructor ()
      ensures staged == map[]
    {
      staged := map[];
    }

    /** `git add -A`: every given path takes its working-tree state. */
    method Add(worktree: Tree, present: set<Location>)
      modifies this
      ensures forall l :: Lookup(staged, l) == Lookup(if l in present then worktree else old(staged), l)
    {
      var rest := present;
      while rest != {}
        invariant rest <= present
        invariant forall l :: Lookup(staged, l) == Lookup(if l in present - rest then worktree else old(staged), l)
        decreases |rest|
      {
        var l :| l in rest;
        ghost var previous := staged;
        staged := if l in worktree then staged[l := worktree[l]] else staged - {l};
        rest := rest - {l};
        forall m ensures Lookup(staged, m) == Lookup(if m in present - rest then worktree else old(staged), m) {
          assert m != l ==> Lookup(staged, m) == Lookup(previous, m);
        }
      }
    }

    /** The index then holds the working tree on these paths, whatever HEAD had there. */
    method LoadWorktree(head: Tree, worktree: Tree, paths: set<Location>)
      modifies this
      ensures staged == Restrict(worktree, paths)
    {
      staged := Restrict(head, paths);
      // Git adds nothing for a path neither side has.
      var present := set l | l in paths && (l in staged || l in worktree);
      Add(worktree, present);
      forall l ensures Lookup(staged, l) == Lookup(Restrict(worktree, paths), l) {
      }
      SameLookups(staged, Restrict(worktree, paths));
    }

    method ReadEntries(paths: set<Location>) returns (entries: Entries)
      ensures entries == EntriesOf(staged, paths)
    {
      entries := map l | l in paths :: Lookup(staged, l);
    }

    method WriteBytes(content: Tree)
      modifies this
      ensures staged == content
    {
      staged := content;
    }

    /** `git apply --cached`: the index changes only when the whole patch fits. */
    method Applies(p: Patch, reverse: bool) returns (ok: bool)
      modifies this
      ensures var r := Apply(old(staged), if reverse then Inverse(p) else p);
              ok == r.Some? && staged == (if ok then r.value else old(staged))
    {
      var r := Apply(staged, if reverse then Inverse(p) else p);
      ok := r.Some?;
      if ok {
        staged := r.value;
      }
    }
  }

  /** The first `k` patches reverse newest-first off the tree and the rest apply to it. */
  ghost predicate Explains(tree: Tree, patches: seq<Patch>, k: nat) {
    k <= |patches| && UndoAll(tree, patches[..k]).Some? && ApplyAll(tree, patches[k..]).Some?
  }

  ghost predicate IsPlan(tree: Tree, patches: seq<Patch>, applied: nat, expected: Tree) {
    && Explains(tree, patches, applied)
    && (forall k | applied < k <= |patches| :: !Explains(tree, patches, k))
    && ApplyAll(tree, patches[applied..]) == Some(expected)
  }

  datatype Plan = Plan(applied: nat, expected: Entries)
  datatype PlanError = NotAnOrderedPrefix

  method PatchPaths(patches: seq<Patch>) returns (paths: set<Location>)
    ensures paths == Touched(patches)
  {
    paths := {};
    for i := 0 to |patches|
      invariant paths == Touched(patches[..i])
    {
      paths := paths + patches[i].changes.Keys;
      TouchedSplit(patches[..i], [patches[i]]);
      assert patches[..i + 1] == patches[..i] + [patches[i]];
      assert Touched([patches[i]]) == patches[i].changes.Keys by {
        forall l | l in patches[i].changes.Keys ensures l in Touched([patches[i]]) {
          assert l in [patches[i]][0].changes;
        }
      }
    }
    assert patches[..|patches|] == patches;
  }

  lemma TouchedSplit(a: seq<Patch>, b: seq<Patch>)
    ensures Touched(a + b) == Touched(a) + Touched(b)
  {
    forall l | l in Touched(a) + Touched(b) ensures l in Touched(a + b) {
      if l in Touched(a) {
        var i :| 0 <= i < |a| && l in a[i].changes;
        assert (a + b)[i] == a[i];
      } else {
        var i :| 0 <= i < |b| && l in b[i].changes;
        assert (a + b)[|a| + i] == b[i];
      }
    }
  }

  /** All of `patches` in reverse order, newest first, stopping at the first misfit. */
  method ReverseAll(index: PrivateIndex, patches: seq<Patch>) returns (ok: bool)
    modifies index
    ensures ok == UndoAll(old(index.staged), patches).Some?
    ensures ok ==> Some(index.staged) == UndoAll(old(index.staged), patches)
  {
    var i := |patches|;
    assert patches[..i] == patches;
    while i > 0
      invariant 0 <= i <= |patches|
      invariant UndoAll(old(index.staged), patches) == UndoAll(index.staged, patches[..i])
    {
      assert patches[..i][..i - 1] == patches[..i - 1];
      var fits := index.Applies(patches[i - 1], true);
      if !fits {
        return false;
      }
      i := i - 1;
    }
    ok := true;
  }

  method ForwardAll(index: PrivateIndex, patches: seq<Patch>) returns (ok: bool)
    modifies index
    ensures ok == ApplyAll(old(index.staged), patches).Some?
    ensures ok ==> Some(index.staged) == ApplyAll(old(index.staged), patches)
  {
    var i := 0;
    assert patches[0..] == patches;
    while i < |patches|
      invariant 0 <= i <= |patches|
      invariant ApplyAll(old(index.staged), patches) == ApplyAll(index.staged, patches[i..])
    {
      assert patches[i..][1..] == patches[i + 1..];
      var fits := index.Applies(patches[i], false);
      if !fits {
        return false;
      }
      i := i + 1;
    }
    ok := true;
  }

  /**
   * The largest applied prefix and the content every patched path ends with, or a
   * refusal exactly when no prefix explains the checkout. One index is rewritten
   * for every candidate.
   */
  method PlanStack(head: Tree, worktree: Tree, patches: seq<Patch>) returns (r: Result<Plan, PlanError>)
    ensures r.Refused? <==> forall k :: !Explains(Restrict(worktree, Touched(patches)), patches, k)
    ensures r.Ok? ==> exists expected: Tree ::
                && IsPlan(Restrict(worktree, Touched(patches)), patches, r.value.applied, expected)
                && expected.Keys <= Touched(patches)
                && r.value.expected == EntriesOf(expected, Touched(patches))
  {
    var paths := PatchPaths(patches);
    var index := new PrivateIndex();
    index.LoadWorktree(head, worktree, paths);
    var current := index.staged;
    ApplyAllFrame(current, [], paths);
    var applied := |patches|;
    while applied >= 0
      invariant -1 <= applied <= |patches|
      invariant current == Restrict(worktree, paths)
      invariant forall k | applied < k <= |patches| :: !Explains(current, patches, k)
    {
      index.WriteBytes(current);
      var reversed := ReverseAll(index, patches[..applied]);
      if reversed {
        index.WriteBytes(current);
        var forward := ForwardAll(index, patches[applied..]);
        if forward {
          var entries := index.ReadEntries(paths);
          ghost var expected := index.staged;
          assert Restrict(current, paths) == current;
          assert Touched(patches[applied..]) <= paths by {
            TouchedSplit(patches[..applied], patches[applied..]);
            assert patches == patches[..applied] + patches[applied..];
          }
          ApplyAllFrame(current, patches[applied..], paths);
          assert IsPlan(current, patches, applied, expected);
          return Ok(Plan(applied, entries));
        }
      }
      applied := applied - 1;
    }
    forall k: nat ensures !Explains(Restrict(worktree, Touched(patches)), patches, k) {
    }
    return Refused(NotAnOrderedPrefix);
  }

  // ---------------------------------------------------------------- what a plan means

  lemma PlanIsUnique(tree: Tree, patches: seq<Patch>, j: nat, a: Tree, k: nat, b: Tree)
    requires IsPlan(tree, patches, j, a) && IsPlan(tree, patches, k, b)
    ensures j == k && a == b
  {
  }

  /** A plan exists exactly when some prefix explains the tree. */
  lemma {:induction false} PlanExists(tree: Tree, patches: seq<Patch>, k: nat) returns (applied: nat, expected: Tree)
    requires Explains(tree, patches, k)
    ensures applied >= k && IsPlan(tree, patches, applied, expected)
    decreases |patches| - k
  {
    if j: nat :| k < j <= |patches| && Explains(tree, patches, j) {
      applied, expected := PlanExists(tree, patches, j);
    } else {
      applied, expected := k, ApplyAll(tree, patches[k..]).value;
    }
  }

  /** `tree` holds the first `k` patches of the stack over `base`. */
  ghost predicate Holds(base: Tree, patches: seq<Patch>, k: nat, tree: Tree) {
    && k <= |patches|
    && ApplyAll(base, patches).Some?
    && ApplyAll(base, patches[..k]) == Some(tree)
  }

  /** A genuinely applied prefix is never refused. */
  lemma AppliedPrefixIsAccepted(base: Tree, patches: seq<Patch>, k: nat, tree: Tree)
    requires Holds(base, patches, k, tree)
    ensures Explains(tree, patches, k)
    ensures ApplyAll(tree, patches[k..]) == ApplyAll(base, patches)
    ensures UndoAll(tree, patches[..k]) == Some(base)
    ensures exists j, e :: j >= k && IsPlan(tree, patches, j, e)
  {
    ApplyAllSplit(base, patches[..k], patches[k..]);
    assert patches == patches[..k] + patches[k..];
    UndoIsInverse(base, tree, patches[..k]);
    var j, e := PlanExists(tree, patches, k);
  }

  /** Planning the planned tree reports the whole stack applied and the same tree. */
  lemma ReplanningIsStable(tree: Tree, patches: seq<Patch>, applied: nat, expected: Tree)
    requires IsPlan(tree, patches, applied, expected)
    ensures IsPlan(expected, patches, |patches|, expected)
  {
    UndoIsInverse(tree, expected, patches[applied..]);
    UndoAllSplit(expected, patches[..applied], patches[applied..]);
    assert patches == patches[..applied] + patches[applied..];
    assert patches[..|patches|] == patches;
    assert patches[|patches|..] == [];
  }

  /** A tree reached by a whole stack is reported fully applied, with nothing left to do. */
  lemma FullyAppliedPlan(base: Tree, patches: seq<Patch>, tree: Tree)
    requires ApplyAll(base, patches) == Some(tree)
    ensures IsPlan(tree, patches, |patches|, tree)
  {
    UndoIsInverse(base, tree, patches);
    assert patches[..|patches|] == patches;
    assert patches[|patches|..] == [];
  }

  /**
   * When `tree` really holds the first `k` patches, the plan aims at the real
   * final tree exactly when the patches it wrongly takes as applied would change nothing.
   */
  lemma PlanAimsAtTheStack(base: Tree, patches: seq<Patch>, k: nat, tree: Tree, applied: nat, expected: Tree)
    requires Holds(base, patches, k, tree) && IsPlan(tree, patches, applied, expected)
    ensures k <= applied
    ensures Some(expected) == ApplyAll(base, patches) <==> ApplyAll(tree, patches[k..applied]) == Some(tree)
  {
    AppliedPrefixIsAccepted(base, patches, k, tree);
    assert Explains(tree, patches, k);
    assert patches[k..] == patches[k..applied] + patches[applied..];
    ApplyAllSplit(tree, patches[k..applied], patches[applied..]);
    var mid := ApplyAll(tree, patches[k..applied]).value;
    if Some(expected) == ApplyAll(base, patches) {
      ApplyAllIsInjective(mid, tree, patches[applied..]);
    }
  }

  /** Inserting a line that is already there is the ambiguity: the plan skips the patch. */
  lemma {:induction false} AmbiguousPrefixIsSkipped(l: Location)
    ensures var insert := Patch("0001.patch", map[l := Edit([Hunk(0, [], ["x"])])]);
            var base: Tree := map[l := File(0, ["x"])];
            && Holds(base, [insert], 0, base)
            && IsPlan(base, [insert], 1, base)
            && ApplyAll(base, [insert]) == Some(map[l := File(0, ["x", "x"])])
  {
    var insert := Patch("0001.patch", map[l := Edit([Hunk(0, [], ["x"])])]);
    var base: Tree := map[l := File(0, ["x"])];
    var twice: Tree := map[l := File(0, ["x", "x"])];
    var none: Tree := map[l := File(0, [])];
    InsertOnce(l, ["x"]);
    InsertOnce(l, []);
    assert ["x"] + ["x"] == ["x", "x"] && ["x"] + [] == ["x"];
    ReverseUndoesApply(none, base, insert);
    assert [insert][..1] == [insert] && [insert][1..] == [] && [insert][..0] == [] && [insert][0..] == [insert];
    assert ApplyAll(twice, []) == Some(twice);
    assert UndoAll(none, []) == Some(none);
    assert ApplyAll(base, [insert]) == Some(twice);
    assert UndoAll(base, [insert]) == Some(none);
  }

  lemma InsertOnce(l: Location, lines: seq<Line>)
    ensures var insert := Patch("0001.patch", map[l := Edit([Hunk(0, [], ["x"])])]);
            Apply(map[l := File(0, lines)], insert) == Some(map[l := File(0, ["x"] + lines)])
  {
    var hunk := Hunk(0, [], ["x"]);
    var insert := Patch("0001.patch", map[l := Edit([hunk])]);
    var before: Tree := map[l := File(0, lines)];
    var after: Tree := map[l := File(0, ["x"] + lines)];
    assert lines[0..0] == [] && [hunk][1..] == [];
    assert PatchedFrom(lines, 0, []) == Some(lines);
    assert PatchedFrom(lines, 0, [hunk]) == Some([] + ["x"] + lines);
    assert [] + ["x"] + lines == ["x"] + lines;
    assert EntryAfter(before, insert, l) == Some(Some(File(0, ["x"] + lines)));
    assert Fits(before, insert);
    forall m ensures Lookup(Apply(before, insert).value, m) == Lookup(after, m) {
      assert EntryAfter(before, insert, m) == Some(Lookup(Apply(before, insert).value, m));
    }
    SameLookups(Apply(before, insert).value, after);
  }
}
