/**
 * Concrete repositories that meet the premises of the recovery and of the chain
 * theorems: one patch that replaces the one line of one file.
 */
module Instances {
  import opened Outcomes
  import opened Patches
  import opened StackPlan
  import opened PatchAdvance
  import T = AdvanceTransaction
  import C = AdvanceCommand
  import S = SyncChain
  import R = SyncResumption

  function OneLine(l: Location, line: Line): Tree { map[l := File(REGULAR_FILE, [line])] }

  function Swap(l: Location, from: Line, to: Line): Patch {
    Patch("0001.patch", map[l := Edit([Hunk(0, [from], [to])])])
  }

  lemma SwapApplies(l: Location, from: Line, to: Line, found: Line)
    ensures Apply(OneLine(l, found), Swap(l, from, to)) == if found == from then Some(OneLine(l, to)) else None
  {
    var hunk := Hunk(0, [from], [to]);
    var before, p := OneLine(l, found), Swap(l, from, to);
    assert [hunk][1..] == [] && [found][0..1] == [found] && [found][0..0] == [] && [found][1..] == [];
    assert PatchedFrom([found], 1, []) == Some([]);
    assert PatchedFrom([found], 0, [hunk]) == if found == from then Some([] + [to] + []) else None;
    if found == from {
      assert [] + [to] + [] == [to];
      assert EntryAfter(before, p, l) == Some(Some(File(REGULAR_FILE, [to])));
      assert Fits(before, p);
      forall m ensures Lookup(Apply(before, p).value, m) == Lookup(OneLine(l, to), m) {
        assert EntryAfter(before, p, m) == Some(Lookup(Apply(before, p).value, m));
      }
      SameLookups(Apply(before, p).value, OneLine(l, to));
    } else {
      assert l in p.changes.Keys && EntryAfter(before, p, l) == None;
    }
  }

  lemma SwapReverses(l: Location, from: Line, to: Line)
    ensures Apply(OneLine(l, to), Inverse(Swap(l, from, to))) == Some(OneLine(l, from))
  {
    SwapApplies(l, from, to, from);
    ReverseUndoesApply(OneLine(l, from), OneLine(l, to), Swap(l, from, to));
  }

  lemma OnePatch(tree: Tree, p: Patch)
    ensures ApplyAll(tree, [p]) == Apply(tree, p) && UndoAll(tree, [p]) == Apply(tree, Inverse(p))
    ensures ApplyAll(tree, []) == Some(tree) && UndoAll(tree, []) == Some(tree)
    ensures Touched([p]) == p.changes.Keys && Touched([]) == {}
  {
    assert [p][1..] == [] && [p][..0] == [];
    forall l | l in p.changes.Keys ensures l in Touched([p]) {
      assert l in [p][0].changes;
    }
    if Apply(tree, p).Some? {
      assert ApplyAll(Apply(tree, p).value, []) == Some(Apply(tree, p).value);
    }
    if Apply(tree, Inverse(p)).Some? {
      assert UndoAll(Apply(tree, Inverse(p)).value, []) == Some(Apply(tree, Inverse(p)).value);
    }
  }

  function StackOf(p: Patch): Stacks { Stacks([p], [], []) }

  /** The old stack reversed and the new one applied over a tree that holds the old one. */
  lemma SwapsRebuild(l: Location)
    ensures Rebuilt(OneLine(l, "b"), [Swap(l, "a", "b")], [Swap(l, "a", "c")]) == Some(OneLine(l, "c"))
  {
    var was, now := Swap(l, "a", "b"), Swap(l, "a", "c");
    OnePatch(OneLine(l, "b"), was);
    OnePatch(OneLine(l, "a"), now);
    SwapReverses(l, "a", "b");
    SwapApplies(l, "a", "c", "a");
    hide Apply, OneLine, Swap, Inverse;
  }

  lemma SwapStacks(l: Location)
    requires l.owner == BraveCore
    ensures Routed(StackOf(Swap(l, "a", "b"))) && Routed(StackOf(Swap(l, "a", "c")))
    ensures OnlyOwnerChanges(StackOf(Swap(l, "a", "b")), StackOf(Swap(l, "a", "c")), BraveCore)
    ensures Touched([Swap(l, "a", "b")]) == {l}
  {
    var was, now := Swap(l, "a", "b"), Swap(l, "a", "c");
    OnePatch(map[], was);
    OnePatch(map[], now);
    assert Names([was]) == ["0001.patch"] == Names([now]);
    assert [was][0] != [now][0] by { assert was.changes[l].hunks[0].added[0] != now.changes[l].hunks[0].added[0]; }
    forall o ensures o == BraveCore || (StackOf(was).Of(o) == [] == StackOf(now).Of(o)) {
      assert o == BraveCore || o == Chromium || o == V8;
    }
  }

  lemma SwapEditsOneFile(l: Location)
    ensures EditsOneFile(OneLine(l, "b"), OneLine(l, "c"), AdvancePlan(l, REGULAR_FILE, ["b"], ["c"]))
  {
    assert ["b"][1..] == [] && ["c"][1..] == [];
    assert ByteLength(["b"]) == 1 && ByteLength(["c"]) == 1;
    assert ["b"][0] != ["c"][0];
  }

  lemma SwapOriginal(l: Location)
    requires l.owner == BraveCore
    ensures Original(OneLine(l, "a"), OneLine(l, "b"), BraveCore, {l}) == OneLine(l, "b")
  {
  }

  lemma SwapAdvances(l: Location)
    requires l.owner == BraveCore
    ensures Advances(StackOf(Swap(l, "a", "b")), StackOf(Swap(l, "a", "c")), OneLine(l, "a"), OneLine(l, "b"),
        OneLine(l, "b"),
                     AdvancePlan(l, REGULAR_FILE, ["b"], ["c"]))
  {
    SwapStacks(l);
    SwapOriginal(l);
    SwapsRebuild(l);
    SwapEditsOneFile(l);
    hide Original, Rebuilt, EditsOneFile, OnlyOwnerChanges, Swap, Touched;
  }

  /** An advance from one replacement to another of the same line may start, and one late error is possible. */
  lemma AnAdvanceIsReady(l: Location) returns (job: T.Job, d: T.Disk, plan: AdvancePlan, faults: T.Faults)
    requires l.owner == BraveCore
    ensures T.Ready(job, d, plan) && T.RaisesBehindTheReceipt(faults)
  {
    T.OneLateError();
    faults := T.LATE_ERROR;
    var receipt := T.Receipt("old", "brave", OneLine(l, "b"));
    job := T.Job("new", "old", "brave", StackOf(Swap(l, "a", "b")), StackOf(Swap(l, "a", "c")), OneLine(l, "a"));
    d := T.Disk(OneLine(l, "b"), 0, receipt, None, None, None, None);
    plan := AdvancePlan(l, REGULAR_FILE, ["b"], ["c"]);
    SwapStacks(l);
    SwapAdvances(l);
    C.PreflightIs(job, d.sources, plan);
    hide Routed, T.Preflight, OneLine, Swap;
  }

  /** Every state of the one-patch stack is explained by one prefix. */
  lemma SwapIsUnambiguous(l: Location)
    ensures var origin := S.Origin(OneLine(l, "a"), 0, OneLine(l, "b"));
            && IsPlan(origin.base, [Swap(l, "a", "b")], 0, origin.goal)
            && S.Unambiguous(origin, [Swap(l, "a", "b")])
  {
    var p := Swap(l, "a", "b");
    var a, b := OneLine(l, "a"), OneLine(l, "b");
    var origin := S.Origin(a, 0, b);
    SwapApplies(l, "a", "b", "a");
    SwapApplies(l, "a", "b", "b");
    SwapReverses(l, "a", "b");
    assert Apply(a, Inverse(p)) == None by {
      if Apply(a, Inverse(p)).Some? {
        SwapDoesNotReverse(l);
      }
    }
    OnePatch(a, p);
    OnePatch(b, p);
    assert [p][..0] == [] && [p][0..] == [p] && [p][..1] == [p] && [p][1..] == [] && [p][0..0] == []
        && [p][0..1] == [p];
    assert Explains(a, [p], 0) && !Explains(a, [p], 1) && Explains(b, [p], 1) && !Explains(b, [p], 0);
    forall now, j: nat, k: nat | S.Progress(origin, [p], now, j) && Explains(now, [p], k) ensures k == j {
      assert j == 0 || j == 1;
      assert k == 0 || k == 1;
    }
  }

  lemma SwapDoesNotReverse(l: Location)
    ensures Apply(OneLine(l, "a"), Inverse(Swap(l, "a", "b"))) == None
  {
    var p := Inverse(Swap(l, "a", "b"));
    assert InvertHunks([], 0) == [];
    assert [Hunk(0, ["a"], ["b"])][1..] == [];
    assert p.changes[l] == Edit([Hunk(0, ["b"], ["a"])]);
    assert ["a"][0..1] == ["a"] && ["a"][0] != ["b"][0];
    assert PatchedFrom(["a"], 0, [Hunk(0, ["b"], ["a"])]) == None;
    assert l in p.changes.Keys && EntryAfter(OneLine(l, "a"), p, l) == None;
  }

  function SwapOrigins(l: Location): S.Origins {
    map[BraveCore := S.Origin(OneLine(l, "a"), 0, OneLine(l, "b")),
        Chromium := S.Origin(map[], 0, map[]), V8 := S.Origin(map[], 0, map[])]
  }

  function SwapRepository(l: Location, siso: Location): S.Repository {
    S.Repository("new", "brave", StackOf(Swap(l, "a", "b")), map[], OneLine(l, "a"), siso, siso)
  }

  lemma NoPatches(tree: Tree)
    ensures IsPlan(tree, [], 0, tree) && S.Unambiguous(S.Origin(tree, 0, tree), [])
  {
    var nothing: seq<Patch> := [];
    assert nothing[..0] == nothing && nothing[0..] == nothing;
    assert ApplyAll(tree, nothing) == Some(tree) && UndoAll(tree, nothing) == Some(tree);
  }

  lemma SwapStarts(l: Location, siso: Location, o: Owner)
    requires l.owner == BraveCore
    ensures var repo, origins, tree := SwapRepository(l, siso), SwapOrigins(l), OneLine(l, "a");
            && o in origins && S.PlanIn(repo, tree, o) == Some((origins[o].from, origins[o].goal))
            && origins[o].base == S.Part(repo, tree, o) && S.Unambiguous(origins[o], repo.stacks.Of(o))
  {
    var tree := OneLine(l, "a");
    OnePatch(tree, Swap(l, "a", "b"));
    if o == BraveCore {
      SwapIsUnambiguous(l);
      assert S.Part(SwapRepository(l, siso), tree, o) == tree;
      S.PlanOfIs(tree, [Swap(l, "a", "b")], 0, OneLine(l, "b"));
    } else {
      assert o == Chromium || o == V8;
      assert S.Part(SwapRepository(l, siso), tree, o) == map[];
      NoPatches(map[]);
      S.PlanOfIs(map[], [], 0, map[]);
    }
  }

  /** A sync of that stack over a clean tree may start a chain. */
  lemma AChainStarts(l: Location, siso: Location) returns (repo: S.Repository, w: S.World, origins: S.Origins)
    requires l.owner == BraveCore && siso != l
    ensures S.ChainStarts(repo, w, origins) && R.GetsGoing(repo, w, origins)
  {
    repo, origins := SwapRepository(l, siso), SwapOrigins(l);
    w := S.World(OneLine(l, "a"), None, None, S.Idle);
    SwapStacks(l);
    OnePatch(map[], Swap(l, "a", "b"));
    hide S.PlanIn, S.Part, S.Unambiguous, SwapOrigins, Swap;
    forall o ensures && o in origins && S.PlanIn(repo, w.tree, o) == Some((origins[o].from, origins[o].goal))
                     && origins[o].base == S.Part(repo, w.tree, o) && S.Unambiguous(origins[o], repo.stacks.Of(o)) {
      SwapStarts(l, siso, o);
    }
  }
}
