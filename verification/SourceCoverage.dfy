/**
 * `covered_source_bytes` in tools/run-deobfuscation-benchmark.py: how many source bytes
 * the recorded transformations touch, each counted once however the ranges overlap.
 */
module SourceCoverage {
  datatype Range = Range(start: int, end: int)

  function Max(a: int, b: int): int { if a < b then b else a }

  function Interval(lo: int, hi: int): (s: set<int>)
    ensures forall i :: i in s <==> lo <= i < hi
    ensures |s| == Max(0, hi - lo)
    decreases hi - lo
  {
    if hi <= lo then {} else Interval(lo, hi - 1) + {hi - 1}
  }

  /** The bytes of a half-open range; a source has none before 0. */
  function Bytes(r: Range): set<int> { Interval(Max(0, r.start), r.end) }

  function Covered(ranges: seq<Range>): set<int>
    decreases |ranges|
  {
    if ranges == [] then {} else Covered(ranges[..|ranges| - 1]) + Bytes(ranges[|ranges| - 1])
  }

  lemma {:induction false} CoveredIsTheUnion(ranges: seq<Range>, i: int)
    ensures i in Covered(ranges) <==> exists r | r in ranges :: i in Bytes(r)
    decreases |ranges|
  {
    if ranges != [] {
      var front, last := ranges[..|ranges| - 1], ranges[|ranges| - 1];
      assert forall r :: r in ranges <==> r in front || r == last;
      CoveredIsTheUnion(front, i);
    }
  }

  /** Pairs compare by start, then by end. */
  predicate Precedes(a: Range, b: Range) { a.start < b.start || (a.start == b.start && a.end <= b.end) }

  predicate Sorted(ranges: seq<Range>)
    decreases |ranges|
  {
    |ranges| > 1 ==> Precedes(ranges[0], ranges[1]) && Sorted(ranges[1..])
  }

  lemma {:induction false} SortedPairs(ranges: seq<Range>, i: nat, j: nat)
    requires Sorted(ranges) && i < j < |ranges|
    ensures Precedes(ranges[i], ranges[j])
    decreases j
  {
    if i > 0 {
      SortedPairs(ranges[1..], i - 1, j - 1);
    } else if j > 1 {
      SortedPairs(ranges[1..], 0, j - 1);
    }
  }

  function Insert(r: Range, ranges: seq<Range>): (s: seq<Range>)
    requires Sorted(ranges)
    ensures Sorted(s) && |s| == |ranges| + 1 && (s[0] == r || (ranges != [] && s[0] == ranges[0]))
    decreases |ranges|
  {
    if ranges == [] || Precedes(r, ranges[0]) then [r] + ranges
    else [ranges[0]] + Insert(r, ranges[1..])
  }

  lemma {:induction false} InsertAdds(r: Range, ranges: seq<Range>)
    requires Sorted(ranges)
    ensures multiset(Insert(r, ranges)) == multiset(ranges) + multiset{r}
    decreases |ranges|
  {
    if ranges != [] {
      assert ranges == [ranges[0]] + ranges[1..];
      if !Precedes(r, ranges[0]) {
        InsertAdds(r, ranges[1..]);
      }
    }
  }

  function Sort(ranges: seq<Range>): (s: seq<Range>)
    ensures Sorted(s) && |s| == |ranges|
    decreases |ranges|
  {
    if ranges == [] then [] else Insert(ranges[|ranges| - 1], Sort(ranges[..|ranges| - 1]))
  }

  lemma {:induction false} SortPermutes(ranges: seq<Range>)
    ensures multiset(Sort(ranges)) == multiset(ranges)
    decreases |ranges|
  {
    if ranges != [] {
      var front, last := ranges[..|ranges| - 1], ranges[|ranges| - 1];
      assert ranges == front + [last];
      SortPermutes(front);
      InsertAdds(last, Sort(front));
    }
  }

  lemma SameRangesSameBytes(a: seq<Range>, b: seq<Range>)
    requires multiset(a) == multiset(b)
    ensures Covered(a) == Covered(b)
  {
    assert forall r :: r in a <==> r in multiset(a);
    assert forall r :: r in b <==> r in multiset(b);
    assert forall r :: r in a <==> r in b;
    forall i ensures i in Covered(a) <==> i in Covered(b) {
      CoveredIsTheUnion(a, i);
      CoveredIsTheUnion(b, i);
    }
  }

  /** How far the first ranges reach. */
  function Reach(ranges: seq<Range>): (cursor: nat)
    ensures cursor == 0 || exists k | 0 <= k < |ranges| :: ranges[k].end == cursor
    ensures forall k | 0 <= k < |ranges| :: ranges[k].end <= cursor
    decreases |ranges|
  {
    if ranges == [] then 0 else Max(Reach(ranges[..|ranges| - 1]), ranges[|ranges| - 1].end)
  }

  /** An inverted range past everything before it: the program subtracts its length. */
  predicate Subtracted(sorted: seq<Range>, k: nat)
    requires k < |sorted|
  {
    sorted[k].end < sorted[k].start && Reach(sorted[..k]) < sorted[k].end
  }

  lemma Front(ranges: seq<Range>, k: nat)
    requires k < |ranges|
    ensures Covered(ranges[..k + 1]) == Covered(ranges[..k]) + Bytes(ranges[k])
    ensures Reach(ranges[..k + 1]) == Max(Reach(ranges[..k]), ranges[k].end)
  {
    assert ranges[..k + 1][..k] == ranges[..k];
  }

  /** Every byte counted so far is before the cursor, and the next range adds none before it. */
  lemma CursorSplits(sorted: seq<Range>, k: nat, i: int)
    requires Sorted(sorted) && k < |sorted|
    ensures i in Covered(sorted[..k]) ==> i < Reach(sorted[..k])
    ensures i in Bytes(sorted[k]) && i < Reach(sorted[..k]) ==> i in Covered(sorted[..k])
  {
    hide Covered, Sorted, Reach;
    var front := sorted[..k];
    var cursor := Reach(front);
    CoveredIsTheUnion(front, i);
    if i in Covered(front) {
      var r :| r in front && i in Bytes(r);
      var j :| 0 <= j < k && front[j] == r;
    }
    if i in Bytes(sorted[k]) && i < cursor {
      var j :| 0 <= j < |front| && front[j].end == cursor;
      SortedPairs(sorted, j, k);
      assert front[j] in front && i in Bytes(front[j]);
    }
  }

  /** What one more range adds: the bytes from the cursor on, if it reaches past the cursor. */
  lemma OneMoreRange(sorted: seq<Range>, k: nat)
    requires Sorted(sorted) && k < |sorted|
    ensures var (start, end, cursor) := (sorted[k].start, sorted[k].end, Reach(sorted[..k]));
            |Covered(sorted[..k + 1])| - |Covered(sorted[..k])|
              == if end <= cursor || end < start then 0 else end - Max(start, cursor)
  {
    hide Covered, Sorted, Reach;
    Front(sorted, k);
    var done, cursor := Covered(sorted[..k]), Reach(sorted[..k]);
    var added := Interval(Max(sorted[k].start, cursor), sorted[k].end);
    forall i ensures i in done + Bytes(sorted[k]) <==> i in done + added {
      CursorSplits(sorted, k, i);
    }
    forall i | i in added ensures i !in done {
      CursorSplits(sorted, k, i);
    }
    assert done + Bytes(sorted[k]) == done + added;
    assert done !! added;
  }

  predicate NothingSubtracted(sorted: seq<Range>, n: nat)
    requires n <= |sorted|
  {
    forall k | 0 <= k < n :: !Subtracted(sorted, k)
  }

  /** What the subtracted ranges among the first n take away. */
  function Lost(sorted: seq<Range>, n: nat): nat
    requires n <= |sorted|
  {
    if n == 0 then 0
    else Lost(sorted, n - 1) + if Subtracted(sorted, n - 1) then sorted[n - 1].start - sorted[n - 1].end else 0
  }

  lemma {:induction false} LostNothing(sorted: seq<Range>, n: nat)
    requires n <= |sorted|
    ensures Lost(sorted, n) == 0 <==> NothingSubtracted(sorted, n)
  {
    hide Reach;
    if n > 0 {
      LostNothing(sorted, n - 1);
    }
  }

  /** What the loop knows after the first k sorted ranges. */
  predicate Counted(sorted: seq<Range>, k: nat, covered: int, cursor: int)
    requires k <= |sorted|
  {
    cursor == Reach(sorted[..k]) && covered == |Covered(sorted[..k])| - Lost(sorted, k)
  }

  lemma CountedOneMore(sorted: seq<Range>, k: nat, covered: int, cursor: int)
    requires Sorted(sorted) && k < |sorted| && Counted(sorted, k, covered, cursor)
    ensures var (start, end) := (sorted[k].start, sorted[k].end);
            if cursor < end then Counted(sorted, k + 1, covered + end - Max(start, cursor), end)
            else Counted(sorted, k + 1, covered, cursor)
  {
    hide Covered, Sorted, Reach, Bytes;
    OneMoreRange(sorted, k);
    Front(sorted, k);
  }

  lemma CountedNone(sorted: seq<Range>)
    ensures Counted(sorted, 0, 0, 0)
  {
    assert sorted[..0] == [];
  }

  /**
   * The size of the union of the ranges, less the length of every inverted range that
   * reaches past everything sorted before it.
   */
  method CoveredSourceBytes(transformations: seq<Range>) returns (covered: int)
    ensures covered == |Covered(transformations)| - Lost(Sort(transformations), |transformations|)
    ensures covered == |Covered(transformations)|
       <==> NothingSubtracted(Sort(transformations), |transformations|)
  {
    var ranges := Sort(transformations);
    SortPermutes(transformations);
    SameRangesSameBytes(ranges, transformations);
    var cursor := 0;
    covered := 0;
    CountedNone(ranges);
    assert ranges[..|ranges|] == ranges;
    LostNothing(ranges, |ranges|);
    for k := 0 to |ranges|
      invariant Counted(ranges, k, covered, cursor)
    {
      hide Counted;
      CountedOneMore(ranges, k, covered, cursor);
      var start, end := ranges[k].start, ranges[k].end;
      if end <= cursor {
        continue;
      }
      covered := covered + end - Max(start, cursor);
      cursor := end;
    }
  }

  /** Well-formed ranges are never subtracted. */
  lemma OrderedRangesCountTheUnion(transformations: seq<Range>)
    requires forall r | r in transformations :: r.start <= r.end
    ensures NothingSubtracted(Sort(transformations), |transformations|)
  {
    var sorted := Sort(transformations);
    SortPermutes(transformations);
    forall k | 0 <= k < |sorted| ensures !Subtracted(sorted, k) {
      assert sorted[k] in multiset(sorted);
      assert sorted[k] in multiset(transformations);
    }
  }

  /** One inverted range makes the count negative: 3 to 1 counts as -2 bytes. */
  lemma InvertedRangeIsSubtracted()
    ensures Covered([Range(3, 1)]) == {} && Lost(Sort([Range(3, 1)]), 1) == 2
  {
    var ranges := [Range(3, 1)];
    assert ranges[..0] == [];
    assert Sort(ranges) == Insert(Range(3, 1), Sort([])) == ranges;
    assert Covered(ranges) == Covered([]) + Interval(3, 1);
  }

  lemma CoverageIsMonotone(some: seq<Range>, more: seq<Range>)
    requires forall r | r in some :: r in more
    ensures |Covered(some)| <= |Covered(more)|
  {
    forall i | i in Covered(some) ensures i in Covered(more) {
      CoveredIsTheUnion(some, i);
      CoveredIsTheUnion(more, i);
    }
    SubsetSize(Covered(some), Covered(more));
  }

  lemma SubsetSize(a: set<int>, b: set<int>)
    requires a <= b
    ensures |a| <= |b|
  {
    assert b == a + (b - a);
  }

  lemma CoverageFitsTheSource(ranges: seq<Range>, length: nat)
    requires forall r | r in ranges :: r.end <= length
    ensures |Covered(ranges)| <= length
  {
    forall i | i in Covered(ranges) ensures i in Interval(0, length) {
      CoveredIsTheUnion(ranges, i);
    }
    SubsetSize(Covered(ranges), Interval(0, length));
  }
}
