/** Repetition-free sequences, and the pigeonhole that compares a sequence with its set. */
module Sequences {
  ghost predicate Distinct<T>(s: seq<T>) { forall i, j | 0 <= i < j < |s| :: s[i] != s[j] }

  function SetOf<T(==)>(s: seq<T>): set<T> { set x | x in s }

  /** A sequence has at most as many values as places, and as many exactly when none repeats. */
  lemma {:induction false} AsManyAsPlaces<T>(s: seq<T>)
    ensures |SetOf(s)| <= |s|
    ensures |SetOf(s)| == |s| <==> Distinct(s)
    decreases |s|
  {
    if s == [] {
      assert SetOf(s) == {};
    } else {
      var front, last := s[..|s| - 1], s[|s| - 1];
      AsManyAsPlaces(front);
      assert SetOf(s) == SetOf(front) + {last};
      if last in front {
        assert SetOf(s) == SetOf(front);
        var i :| 0 <= i < |front| && front[i] == last;
        assert s[i] == s[|s| - 1];
      } else {
        assert last !in SetOf(front);
      }
    }
  }
}
