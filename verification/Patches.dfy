/**
 * Ordered patch stacks over the independent upstream checkouts
 * (tools/brave_patch_contract.py).
 *
 * A patch is concrete: for every path it names either an ordered list of hunks at
 * fixed positions, an added file or a deleted file. Reversing a patch is the
 * inverse of applying it by proof, not by assumption.
 */
module Patches {
  import opened Outcomes

  type Line = string
  datatype Owner = BraveCore | Chromium | V8
  datatype Location = Location(owner: Owner, path: string)

  /** `mode` is the file mode Git records; a symlink has mode 0o120000. */
  datatype File = File(mode: nat, lines: seq<Line>)
  type Tree = map<Location, File>

  datatype Hunk = Hunk(at: int, removed: seq<Line>, added: seq<Line>)
  datatype Change = Edit(hunks: seq<Hunk>) | Add(file: File) | Delete(file: File)
  datatype Patch = Patch(name: string, changes: map<Location, Change>)

  // ---------------------------------------------------------------- one file

  /** The text from `pos` on, once the hunks (positions in `src`) have replaced their lines. */
  function PatchedFrom(src: seq<Line>, pos: nat, hunks: seq<Hunk>): Option<seq<Line>>
    requires pos <= |src|
    decreases |hunks|
  {
    if hunks == [] then Some(src[pos..])
    else
      var h := hunks[0];
      if h.at < pos || h.at + |h.removed| > |src| || src[h.at..h.at + |h.removed|] != h.removed then None
      else
        match PatchedFrom(src, h.at + |h.removed|, hunks[1..])
        case None => None
        case Some(rest) => Some(src[pos..h.at] + h.added + rest)
  }

  /** The same hunks read right to left; `shift` is how far earlier hunks moved the text. */
  function InvertHunks(hunks: seq<Hunk>, shift: int): seq<Hunk>
    decreases |hunks|
  {
    if hunks == [] then []
    else
      var h := hunks[0];
      [Hunk(h.at + shift, h.added, h.removed)] + InvertHunks(hunks[1..], shift + |h.added| - |h.removed|)
  }

  lemma FirstHunk(text: seq<Line>, pos: nat, hunks: seq<Hunk>, tail: seq<Line>)
    requires hunks != [] && pos <= hunks[0].at && hunks[0].at + |hunks[0].removed| <= |text|
    requires text[hunks[0].at..hunks[0].at + |hunks[0].removed|] == hunks[0].removed
    requires PatchedFrom(text, hunks[0].at + |hunks[0].removed|, hunks[1..]) == Some(tail)
    ensures PatchedFrom(text, pos, hunks) == Some(text[pos..hunks[0].at] + hunks[0].added + tail)
  {
  }

  lemma {:induction false} InvertedHunksUndo(src: seq<Line>, pos: nat, hunks: seq<Hunk>, pre: seq<Line>)
    requires pos <= |src| && PatchedFrom(src, pos, hunks).Some?
    ensures var out := PatchedFrom(src, pos, hunks).value;
            PatchedFrom(pre + out, |pre|, InvertHunks(hunks, |pre| - pos)) == Some(src[pos..])
    decreases |hunks|
  {
    var out := PatchedFrom(src, pos, hunks).value;
    if hunks == [] {
      assert (pre + out)[|pre|..] == out;
    } else {
      var h := hunks[0];
      PatchedHead(src, pos, hunks);
      InvertedHead(hunks, |pre| - pos);
      hide PatchedFrom, InvertHunks;
      var next := h.at + |h.removed|;
      var rest := PatchedFrom(src, next, hunks[1..]).value;
      var kept := src[pos..h.at];
      InvertedHunksUndo(src, next, hunks[1..], pre + kept + h.added);
      UndoStep(pre, kept, h, rest, InvertHunks(hunks, |pre| - pos), src[next..]);
      Reassemble(src, pos, h.at, next);
    }
  }

  lemma UndoStep(pre: seq<Line>, kept: seq<Line>, h: Hunk, rest: seq<Line>, inverse: seq<Hunk>, back: seq<Line>)
    requires inverse != [] && inverse[0] == Hunk(|pre| + |kept|, h.added, h.removed)
    requires PatchedFrom(pre + kept + h.added + rest, |pre + kept + h.added|, inverse[1..]) == Some(back)
    ensures PatchedFrom(pre + (kept + h.added + rest), |pre|, inverse) == Some(kept + h.removed + back)
  {
    hide PatchedFrom;
    var text := pre + (kept + h.added + rest);
    Assemble(pre, kept, h.added, rest, text);
    FirstHunk(text, |pre|, inverse, back);
  }

  lemma PatchedHead(src: seq<Line>, pos: nat, hunks: seq<Hunk>)
    requires pos <= |src| && hunks != [] && PatchedFrom(src, pos, hunks).Some?
    ensures var h := hunks[0];
            var next := h.at + |h.removed|;
            && pos <= h.at && next <= |src| && src[h.at..next] == h.removed
            && PatchedFrom(src, next, hunks[1..]).Some?
            && PatchedFrom(src, pos, hunks).value == src[pos..h.at] + h.added + PatchedFrom(src, next, hunks[1..]).value
  {
  }

  lemma InvertedHead(hunks: seq<Hunk>, shift: int)
    requires hunks != []
    ensures var h, inverse := hunks[0], InvertHunks(hunks, shift);
            && inverse != [] && inverse[0] == Hunk(h.at + shift, h.added, h.removed)
            && inverse[1..] == InvertHunks(hunks[1..], shift + |h.added| - |h.removed|)
  {
  }

  lemma Reassemble(src: seq<Line>, pos: nat, at: nat, next: nat)
    requires pos <= at <= next <= |src|
    ensures src[pos..] == src[pos..at] + src[at..next] + src[next..]
  {
  }

  lemma Assemble(pre: seq<Line>, kept: seq<Line>, added: seq<Line>, rest: seq<Line>, text: seq<Line>)
    requires text == pre + (kept + added + rest)
    ensures text == pre + kept + added + rest
    ensures var at := |pre| + |kept|; text[|pre|..at] == kept && text[at..at + |added|] == added
  {
  }

  lemma {:induction false} InvertTwice(hunks: seq<Hunk>, shift: int)
    ensures InvertHunks(InvertHunks(hunks, shift), -shift) == hunks
    decreases |hunks|
  {
    if hunks != [] {
      var h := hunks[0];
      InvertTwice(hunks[1..], shift + |h.added| - |h.removed|);
      var inverse := InvertHunks(hunks, shift);
      assert inverse[1..] == InvertHunks(hunks[1..], shift + |h.added| - |h.removed|);
    }
  }

  /** None when the change does not fit; otherwise the entry it leaves. */
  function ApplyChange(entry: Option<File>, change: Change): Option<Option<File>> {
    match change
    case Edit(hunks) =>
      if entry.None? then None
      else
        (match PatchedFrom(entry.value.lines, 0, hunks)
         case None => None
         case Some(lines) => Some(Some(entry.value.(lines := lines))))
    case Add(file) => if entry.None? then Some(Some(file)) else None
    case Delete(file) => if entry == Some(file) then Some(None) else None
  }

  function InvertChange(change: Change): Change {
    match change
    case Edit(hunks) => Edit(InvertHunks(hunks, 0))
    case Add(file) => Delete(file)
    case Delete(file) => Add(file)
  }

  lemma {:induction false} InvertedChangeUndoes(entry: Option<File>, change: Change)
    ensures InvertChange(InvertChange(change)) == change
    ensures ApplyChange(entry, change).Some? ==>
              ApplyChange(ApplyChange(entry, change).value, InvertChange(change)) == Some(entry)
  {
    if change.Edit? {
      InvertTwice(change.hunks, 0);
      if ApplyChange(entry, change).Some? {
        var src := entry.value.lines;
        InvertedHunksUndo(src, 0, change.hunks, []);
        var out := PatchedFrom(src, 0, change.hunks).value;
        assert [] + out == out;
      }
    }
  }

  // ---------------------------------------------------------------- one patch

  function Lookup(tree: Tree, l: Location): Option<File> {
    if l in tree then Some(tree[l]) else None
  }

  function EntryAfter(tree: Tree, p: Patch, l: Location): Option<Option<File>> {
    if l in p.changes then ApplyChange(Lookup(tree, l), p.changes[l]) else Some(Lookup(tree, l))
  }

  predicate Fits(tree: Tree, p: Patch) {
    forall l <- p.changes.Keys :: EntryAfter(tree, p, l).Some?
  }

  /** `git apply`: every path of the patch changes, or nothing does. */
  function Apply(tree: Tree, p: Patch): (r: Option<Tree>)
    ensures r.Some? <==> Fits(tree, p)
    ensures r.Some? ==> forall l :: EntryAfter(tree, p, l) == Some(Lookup(r.value, l))
  {
    if Fits(tree, p) then
      Some(map l | l in tree.Keys + p.changes.Keys && EntryAfter(tree, p, l) != Some(None)
             :: EntryAfter(tree, p, l).value.value)
    else None
  }

  function Inverse(p: Patch): Patch {
    p.(changes := map l | l in p.changes :: InvertChange(p.changes[l]))
  }

  lemma SameLookups(a: Tree, b: Tree)
    requires forall l :: Lookup(a, l) == Lookup(b, l)
    ensures a == b
  {
    forall l ensures l in a <==> l in b {
      assert Lookup(a, l) == Lookup(b, l);
    }
    forall l | l in a ensures a[l] == b[l] {
      assert Lookup(a, l) == Lookup(b, l);
    }
  }

  // What an edit leaves, position by position.

  /** Where the text before the k-th hunk begins. */
  function GapStart(pos: nat, hunks: seq<Hunk>, k: nat): int
    requires k <= |hunks|
  {
    if k == 0 then pos else hunks[k - 1].at + |hunks[k - 1].removed|
  }

  function GapEnd(src: seq<Line>, hunks: seq<Hunk>, k: nat): int
    requires k <= |hunks|
  {
    if k == |hunks| then |src| else hunks[k].at
  }

  /** How far the hunks before the k-th one move the text. */
  function Moved(hunks: seq<Hunk>, k: nat): int
    requires k <= |hunks|
  {
    if k == 0 then 0 else |hunks[0].added| - |hunks[0].removed| + Moved(hunks[1..], k - 1)
  }

  predicate HunkPlaced(src: seq<Line>, pos: nat, hunks: seq<Hunk>, k: nat)
    requires k < |hunks|
  {
    var h := hunks[k];
    && 0 <= h.at && GapStart(pos, hunks, k) <= h.at && h.at + |h.removed| <= |src|
    && src[h.at..h.at + |h.removed|] == h.removed
  }

  /** The hunks stand in order, and the lines each removes are at its place. */
  ghost predicate Placed(src: seq<Line>, pos: nat, hunks: seq<Hunk>) {
    forall k | 0 <= k < |hunks| :: HunkPlaced(src, pos, hunks, k)
  }

  predicate HasAt(out: seq<Line>, j: int, lines: seq<Line>) {
    0 <= j && j + |lines| <= |out| && out[j..j + |lines|] == lines
  }

  predicate AddedStands(pos: nat, hunks: seq<Hunk>, out: seq<Line>, k: nat)
    requires k < |hunks|
  {
    HasAt(out, hunks[k].at - pos + Moved(hunks, k), hunks[k].added)
  }

  predicate GapKept(src: seq<Line>, pos: nat, hunks: seq<Hunk>, out: seq<Line>, k: nat)
    requires k <= |hunks|
  {
    var a, b := GapStart(pos, hunks, k), GapEnd(src, hunks, k);
    0 <= a <= b <= |src| && HasAt(out, a - pos + Moved(hunks, k), src[a..b])
  }

  /** Every hunk's added lines stand at its moved place, and the text between hunks is kept. */
  ghost predicate IsEdited(src: seq<Line>, pos: nat, hunks: seq<Hunk>, out: seq<Line>) {
    && |out| == |src| - pos + Moved(hunks, |hunks|)
    && (forall k | 0 <= k < |hunks| :: AddedStands(pos, hunks, out, k))
    && (forall k | 0 <= k <= |hunks| :: GapKept(src, pos, hunks, out, k))
  }

  lemma PlacedHead(src: seq<Line>, pos: nat, hunks: seq<Hunk>)
    requires hunks != []
    ensures Placed(src, pos, hunks) <==>
      HunkPlaced(src, pos, hunks, 0) && Placed(src, hunks[0].at + |hunks[0].removed|, hunks[1..])
  {
    var rest := hunks[1..];
    if HunkPlaced(src, pos, hunks, 0) {
      var next := hunks[0].at + |hunks[0].removed|;
      forall k | 0 <= k < |rest| ensures HunkPlaced(src, next, rest, k) == HunkPlaced(src, pos, hunks, k + 1) {
        assert rest[k] == hunks[k + 1];
      }
      if Placed(src, next, rest) {
        forall k | 0 <= k < |hunks| ensures HunkPlaced(src, pos, hunks, k) {
          assert k > 0 ==> HunkPlaced(src, next, rest, k - 1);
        }
      }
    }
  }

  lemma HasBehind(front: seq<Line>, rest: seq<Line>, j: int, lines: seq<Line>)
    requires HasAt(rest, j, lines)
    ensures HasAt(front + rest, |front| + j, lines)
  {
    assert (front + rest)[|front| + j..|front| + j + |lines|] == rest[j..j + |lines|];
  }

  lemma HasBetween(front: seq<Line>, lines: seq<Line>, rest: seq<Line>)
    ensures HasAt(front + lines + rest, |front|, lines)
  {
  }

  lemma AddedBehind(front: seq<Line>, pos: nat, next: nat, hunks: seq<Hunk>, rest: seq<Line>, k: nat)
    requires 0 < k < |hunks| && |front| == next - pos + |hunks[0].added| - |hunks[0].removed|
    requires AddedStands(next, hunks[1..], rest, k - 1)
    ensures AddedStands(pos, hunks, front + rest, k)
  {
    hide HasAt;
    var later := hunks[1..];
    assert hunks[k] == later[k - 1];
    HasBehind(front, rest, later[k - 1].at - next + Moved(later, k - 1), later[k - 1].added);
  }

  lemma GapBehind(src: seq<Line>, front: seq<Line>, pos: nat, hunks: seq<Hunk>, rest: seq<Line>, k: nat)
    requires 0 < k <= |hunks| && 0 <= hunks[0].at
    requires var next := hunks[0].at + |hunks[0].removed|;
             && |front| == next - pos + |hunks[0].added| - |hunks[0].removed|
             && GapKept(src, next, hunks[1..], rest, k - 1)
    ensures GapKept(src, pos, hunks, front + rest, k)
  {
    hide HasAt;
    var later, next := hunks[1..], hunks[0].at + |hunks[0].removed|;
    assert GapStart(pos, hunks, k) == GapStart(next, later, k - 1);
    assert GapEnd(src, hunks, k) == GapEnd(src, later, k - 1);
    var a, b := GapStart(pos, hunks, k), GapEnd(src, hunks, k);
    HasBehind(front, rest, a - next + Moved(later, k - 1), src[a..b]);
  }

  lemma FirstStands(src: seq<Line>, pos: nat, hunks: seq<Hunk>, rest: seq<Line>)
    requires hunks != [] && pos <= hunks[0].at <= |src|
    ensures var out := src[pos..hunks[0].at] + hunks[0].added + rest;
            AddedStands(pos, hunks, out, 0) && GapKept(src, pos, hunks, out, 0)
  {
    var kept := src[pos..hunks[0].at];
    HasBetween(kept, hunks[0].added, rest);
    HasBetween([], kept, hunks[0].added + rest);
    assert [] + kept + (hunks[0].added + rest) == kept + hunks[0].added + rest;
  }

  lemma EditedHead(src: seq<Line>, pos: nat, hunks: seq<Hunk>, rest: seq<Line>)
    requires hunks != [] && pos <= hunks[0].at && hunks[0].at + |hunks[0].removed| <= |src|
    requires IsEdited(src, hunks[0].at + |hunks[0].removed|, hunks[1..], rest)
    ensures IsEdited(src, pos, hunks, src[pos..hunks[0].at] + hunks[0].added + rest)
  {
    var front := src[pos..hunks[0].at] + hunks[0].added;
    var next := hunks[0].at + |hunks[0].removed|;
    assert |front + rest| == |src| - pos + Moved(hunks, |hunks|);
    FirstStands(src, pos, hunks, rest);
    hide AddedStands, GapKept, Moved;
    forall k | 0 <= k < |hunks| ensures AddedStands(pos, hunks, front + rest, k) {
      if k > 0 {
        AddedBehind(front, pos, next, hunks, rest, k);
      }
    }
    forall k | 0 <= k <= |hunks| ensures GapKept(src, pos, hunks, front + rest, k) {
      if k > 0 {
        GapBehind(src, front, pos, hunks, rest, k);
      }
    }
  }

  /** A file can be edited exactly when its hunks are placed, and what comes out is the edited text. */
  lemma {:induction false} EditIsExact(src: seq<Line>, pos: nat, hunks: seq<Hunk>)
    requires pos <= |src|
    ensures PatchedFrom(src, pos, hunks).Some? <==> Placed(src, pos, hunks)
    ensures PatchedFrom(src, pos, hunks).Some? ==> IsEdited(src, pos, hunks, PatchedFrom(src, pos, hunks).value)
    decreases |hunks|
  {
    if hunks != [] {
      var h := hunks[0];
      PlacedHead(src, pos, hunks);
      hide Placed, IsEdited;
      if pos <= h.at && h.at + |h.removed| <= |src| {
        EditIsExact(src, h.at + |h.removed|, hunks[1..]);
        if PatchedFrom(src, pos, hunks).Some? {
          EditedHead(src, pos, hunks, PatchedFrom(src, h.at + |h.removed|, hunks[1..]).value);
        }
      }
    }
  }

  /** A change that can be made to an entry. */
  ghost predicate Meets(entry: Option<File>, change: Change) {
    match change
    case Edit(hunks) => entry.Some? && Placed(entry.value.lines, 0, hunks)
    case Add(_) => entry == None
    case Delete(file) => entry == Some(file)
  }

  /** What the change makes of it. */
  ghost predicate Becomes(before: Option<File>, change: Change, after: Option<File>) {
    match change
    case Edit(hunks) =>
      && before.Some? && after.Some? && after.value.mode == before.value.mode
      && IsEdited(before.value.lines, 0, hunks, after.value.lines)
    case Add(file) => before == None && after == Some(file)
    case Delete(file) => before == Some(file) && after == None
  }

  /** A patch fits exactly when each of its changes can be made, and then makes them and nothing else. */
  lemma PatchMakesItsChanges(tree: Tree, p: Patch)
    ensures Apply(tree, p).Some? <==> forall l | l in p.changes :: Meets(Lookup(tree, l), p.changes[l])
    ensures Apply(tree, p).Some? ==>
      forall l :: if l in p.changes then Becomes(Lookup(tree, l), p.changes[l], Lookup(Apply(tree, p).value, l))
                  else Lookup(Apply(tree, p).value, l) == Lookup(tree, l)
  {
    hide Placed, IsEdited, PatchedFrom;
    forall l | l in p.changes
      ensures EntryAfter(tree, p, l).Some? <==> Meets(Lookup(tree, l), p.changes[l])
      ensures EntryAfter(tree, p, l).Some? ==> Becomes(Lookup(tree, l), p.changes[l], EntryAfter(tree, p, l).value) {
      if p.changes[l].Edit? && Lookup(tree, l).Some? {
        EditIsExact(tree[l].lines, 0, p.changes[l].hunks);
      }
    }
    if Apply(tree, p).Some? {
      var after := Apply(tree, p).value;
      forall l ensures if l in p.changes then Becomes(Lookup(tree, l), p.changes[l], Lookup(after, l))
                       else Lookup(after, l) == Lookup(tree, l) {
        assert EntryAfter(tree, p, l) == Some(Lookup(after, l));
      }
    }
  }

  lemma InverseTwice(p: Patch)
    ensures Inverse(Inverse(p)) == p
  {
    forall l | l in p.changes ensures InvertChange(InvertChange(p.changes[l])) == p.changes[l] {
      InvertedChangeUndoes(None, p.changes[l]);
    }
    assert Inverse(Inverse(p)).changes == p.changes;
  }

  /** Applying and reversing a patch are inverse on every tree, in both directions. */
  lemma ReverseUndoesApply(before: Tree, after: Tree, p: Patch)
    ensures Apply(before, p) == Some(after) <==> Apply(after, Inverse(p)) == Some(before)
  {
    if Apply(before, p) == Some(after) {
      ReverseOf(before, after, p);
    }
    if Apply(after, Inverse(p)) == Some(before) {
      ReverseOf(after, before, Inverse(p));
      InverseTwice(p);
    }
  }

  lemma ReverseOf(before: Tree, after: Tree, p: Patch)
    requires Apply(before, p) == Some(after)
    ensures Apply(after, Inverse(p)) == Some(before)
  {
    var q := Inverse(p);
    forall l ensures EntryAfter(after, q, l) == Some(Lookup(before, l)) {
      assert EntryAfter(before, p, l) == Some(Lookup(after, l));
      if l in p.changes {
        InvertedChangeUndoes(Lookup(before, l), p.changes[l]);
      }
    }
    assert Fits(after, q);
    forall l ensures Lookup(Apply(after, q).value, l) == Lookup(before, l) {
      assert EntryAfter(after, q, l) == Some(Lookup(Apply(after, q).value, l));
    }
    SameLookups(Apply(after, q).value, before);
  }

  // ---------------------------------------------------------------- a stack

  function ApplyAll(tree: Tree, patches: seq<Patch>): Option<Tree>
    decreases |patches|
  {
    if patches == [] then Some(tree)
    else
      match Apply(tree, patches[0])
      case None => None
      case Some(next) => ApplyAll(next, patches[1..])
  }

  /** Reverse the stack newest-first. */
  function UndoAll(tree: Tree, patches: seq<Patch>): Option<Tree>
    decreases |patches|
  {
    if patches == [] then Some(tree)
    else
      match Apply(tree, Inverse(patches[|patches| - 1]))
      case None => None
      case Some(next) => UndoAll(next, patches[..|patches| - 1])
  }

  lemma {:induction false} ApplyAllSplit(tree: Tree, first: seq<Patch>, rest: seq<Patch>)
    ensures ApplyAll(tree, first + rest) ==
            (match ApplyAll(tree, first) case None => None case Some(mid) => ApplyAll(mid, rest))
    decreases |first|
  {
    if first == [] {
      assert first + rest == rest;
    } else {
      assert (first + rest)[1..] == first[1..] + rest;
      if Apply(tree, first[0]).Some? {
        ApplyAllSplit(Apply(tree, first[0]).value, first[1..], rest);
      }
    }
  }

  lemma {:induction false} UndoAllSplit(tree: Tree, first: seq<Patch>, rest: seq<Patch>)
    ensures UndoAll(tree, first + rest) ==
            (match UndoAll(tree, rest) case None => None case Some(mid) => UndoAll(mid, first))
    decreases |rest|
  {
    if rest == [] {
      assert first + rest == first;
    } else {
      var all, short := first + rest, rest[..|rest| - 1];
      assert all[..|all| - 1] == first + short;
      assert all[|all| - 1] == rest[|rest| - 1];
      var undone := Apply(tree, Inverse(rest[|rest| - 1]));
      if undone.Some? {
        UndoAllSplit(undone.value, first, short);
      }
    }
  }

  /** A stack reverses newest-first exactly when it was applied in order. */
  lemma {:induction false} UndoIsInverse(before: Tree, after: Tree, patches: seq<Patch>)
    ensures ApplyAll(before, patches) == Some(after) <==> UndoAll(after, patches) == Some(before)
    decreases |patches|
  {
    if patches != [] {
      var n := |patches| - 1;
      var short, last := patches[..n], patches[n];
      assert patches == short + [last];
      ApplyAllSplit(before, short, [last]);
      forall mid: Tree ensures ApplyAll(mid, [last]) == Apply(mid, last) {
        assert [last][1..] == [];
      }
      if ApplyAll(before, patches) == Some(after) {
        var mid := ApplyAll(before, short).value;
        ReverseUndoesApply(mid, after, last);
        UndoIsInverse(before, mid, short);
      }
      if UndoAll(after, patches) == Some(before) {
        var mid := Apply(after, Inverse(last)).value;
        ReverseUndoesApply(mid, after, last);
        UndoIsInverse(before, mid, short);
      }
    }
  }

  lemma ApplyAllIsInjective(a: Tree, b: Tree, patches: seq<Patch>)
    requires ApplyAll(a, patches).Some? && ApplyAll(a, patches) == ApplyAll(b, patches)
    ensures a == b
  {
    var after := ApplyAll(a, patches).value;
    UndoIsInverse(a, after, patches);
    UndoIsInverse(b, after, patches);
  }

  // ---------------------------------------------------------------- framing

  ghost function Touched(patches: seq<Patch>): set<Location> {
    set i, l | 0 <= i < |patches| && l in patches[i].changes :: l
  }

  function Restrict(tree: Tree, paths: set<Location>): Tree {
    map l | l in tree && l in paths :: tree[l]
  }

  /** `tree` with everything at `paths` taken from `inner`. */
  function Overlay(tree: Tree, paths: set<Location>, inner: Tree): Tree {
    map l | l in tree.Keys + inner.Keys && (if l in paths then l in inner else l in tree)
      :: if l in paths then inner[l] else tree[l]
  }

  lemma {:induction false} ApplyAllFrame(tree: Tree, patches: seq<Patch>, paths: set<Location>)
    requires Touched(patches) <= paths
    ensures var inner := ApplyAll(Restrict(tree, paths), patches);
            ApplyAll(tree, patches) ==
            if inner.None? then None else Some(Overlay(tree, paths, inner.value))
    ensures ApplyAll(Restrict(tree, paths), patches).Some? ==>
              ApplyAll(Restrict(tree, paths), patches).value.Keys <= paths
    decreases |patches|
  {
    var small := Restrict(tree, paths);
    if patches == [] {
      assert Overlay(tree, paths, small) == tree;
    } else {
      var p := patches[0];
      ApplyFrame(tree, p, paths) by { assert p.changes.Keys <= Touched(patches); }
      if Apply(tree, p).Some? {
        var next := Apply(tree, p).value;
        assert Touched(patches[1..]) <= Touched(patches) by {
          forall l | l in Touched(patches[1..]) ensures l in Touched(patches) {
            var i :| 0 <= i < |patches[1..]| && l in patches[1..][i].changes;
            assert l in patches[i + 1].changes;
          }
        }
        ApplyAllFrame(next, patches[1..], paths);
        var inner := ApplyAll(small, patches);
        if inner.Some? {
          forall l
            ensures Lookup(Overlay(next, paths, inner.value), l) == Lookup(Overlay(tree, paths, inner.value), l) {
            assert l !in paths ==> Lookup(next, l) == Lookup(tree, l);
          }
          SameLookups(Overlay(next, paths, inner.value), Overlay(tree, paths, inner.value));
        }
      }
    }
  }

  lemma ApplyFrame(tree: Tree, p: Patch, paths: set<Location>)
    requires p.changes.Keys <= paths
    ensures Apply(tree, p).Some? <==> Apply(Restrict(tree, paths), p).Some?
    ensures Apply(tree, p).Some? ==>
              && Apply(Restrict(tree, paths), p) == Some(Restrict(Apply(tree, p).value, paths))
              && forall l | l !in paths :: Lookup(Apply(tree, p).value, l) == Lookup(tree, l)
  {
    var small := Restrict(tree, paths);
    forall l | l in paths ensures EntryAfter(small, p, l) == EntryAfter(tree, p, l) {
      assert Lookup(small, l) == Lookup(tree, l);
    }
    assert Fits(tree, p) <==> Fits(small, p);
    if Fits(tree, p) {
      var big, little := Apply(tree, p).value, Apply(small, p).value;
      forall l ensures Lookup(little, l) == Lookup(Restrict(big, paths), l) {
        assert EntryAfter(tree, p, l) == Some(Lookup(big, l));
        assert EntryAfter(small, p, l) == Some(Lookup(little, l));
      }
      SameLookups(little, Restrict(big, paths));
      forall l | l !in paths ensures Lookup(big, l) == Lookup(tree, l) {
        assert EntryAfter(tree, p, l) == Some(Lookup(big, l));
      }
    }
  }
}
