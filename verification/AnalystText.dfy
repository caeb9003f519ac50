/**
 * `utf8Bytes` and `boundedText` in apps/research-ui/analyst_runner_core.js: JavaScript
 * strings are UTF-16 units, counted and cut by their UTF-8 size. A lone surrogate is a
 * point of its own and counts three bytes.
 */
module AnalystText {
  import opened Outcomes
  import opened Unicode

  type Text = seq<Unit>

  predicate High(u: Unit) { 0xD800 <= u <= 0xDBFF }

  predicate Low(u: Unit) { 0xDC00 <= u <= 0xDFFF }

  predicate PairAt(s: Text, i: nat) { i + 1 < |s| && High(s[i]) && Low(s[i + 1]) }

  function PairPoint(high: int, low: int): int { 0x1_0000 + (high - 0xD800) * 1024 + (low - 0xDC00) }

  function PointAt(s: Text, i: nat): nat
    requires i < |s|
  {
    if PairAt(s, i) then PairPoint(s[i], s[i + 1]) else s[i]
  }

  function Width(point: nat): nat { if point > 0xFFFF then 2 else 1 }

  function Encoded(point: nat): (bytes: nat)
    ensures 1 <= bytes <= 4
  {
    if point <= 0x7F then 1 else if point <= 0x7FF then 2 else if point <= 0xFFFF then 3 else 4
  }

  lemma WidthAt(s: Text, i: nat)
    requires i < |s|
    ensures 1 <= Width(PointAt(s, i)) <= 2 && i + Width(PointAt(s, i)) <= |s|
  {
  }

  /** The UTF-8 size of what starts at a position. */
  function BytesFrom(s: Text, i: nat): nat
    decreases |s| - i
  {
    if i >= |s| then 0
    else Encoded(PointAt(s, i)) + BytesFrom(s, i + Width(PointAt(s, i)))
  }

  function Utf8Bytes(s: Text): nat { BytesFrom(s, 0) }

  /** Not inside a surrogate pair. */
  predicate Aligned(s: Text, i: nat) { i <= |s| && (i > 0 ==> !PairAt(s, i - 1)) }

  lemma NextIsAligned(s: Text, i: nat)
    requires i < |s| && Aligned(s, i)
    ensures Aligned(s, i + Width(PointAt(s, i)))
  {
  }

  /** Up to an aligned position a prefix reads as the whole text does. */
  lemma PrefixPoint(s: Text, j: nat, i: nat)
    requires Aligned(s, j) && i < j
    ensures PointAt(s[..j], i) == PointAt(s, i) && i + Width(PointAt(s, i)) <= j
  {
  }

  lemma {:induction false} PrefixBytes(s: Text, j: nat, i: nat)
    requires Aligned(s, j) && Aligned(s, i) && i <= j
    ensures BytesFrom(s[..j], i) + BytesFrom(s, j) == BytesFrom(s, i)
    decreases j - i
  {
    if i < j {
      PrefixPoint(s, j, i);
      NextIsAligned(s, i);
      PrefixBytes(s, j, i + Width(PointAt(s, i)));
    }
  }

  /** Where the loop of `boundedText` stops. */
  function Stop(s: Text, i: nat, budget: nat): (end: nat)
    requires i <= |s|
    ensures i <= end <= |s|
    decreases |s| - i
  {
    if i == |s| || Encoded(PointAt(s, i)) > budget then i
    else
      WidthAt(s, i);
      Stop(s, i + Width(PointAt(s, i)), budget - Encoded(PointAt(s, i)))
  }

  function Bounded(s: Text, limit: nat): Text { s[..Stop(s, 0, limit)] }

  lemma {:induction false} StopIsLongest(s: Text, i: nat, budget: nat, j: nat)
    requires Aligned(s, i) && Aligned(s, j) && i <= j
    ensures var end := Stop(s, i, budget);
            && Aligned(s, end) && BytesFrom(s[..end], i) <= budget
            && (BytesFrom(s[..j], i) <= budget ==> j <= end)
    decreases |s| - i
  {
    if i < |s| {
      var point := PointAt(s, i);
      NextIsAligned(s, i);
      if i < j {
        PrefixPoint(s, j, i);
      }
      if Encoded(point) <= budget {
        var next := i + Width(point);
        StopIsLongest(s, next, budget - Encoded(point), if i < j then j else next);
        PrefixPoint(s, Stop(s, i, budget), i);
      }
    }
  }

  /**
   * The text kept ends between characters and fits, no longer aligned prefix fits, and
   * text that fits is kept whole.
   */
  lemma BoundedIsTheLongestPrefix(s: Text, limit: nat, j: nat)
    requires Aligned(s, j)
    ensures Bounded(s, limit) <= s && Aligned(s, |Bounded(s, limit)|) && Utf8Bytes(Bounded(s, limit)) <= limit
    ensures Utf8Bytes(s[..j]) <= limit ==> j <= |Bounded(s, limit)|
    ensures Utf8Bytes(s) <= limit <==> Bounded(s, limit) == s
  {
    StopIsLongest(s, 0, limit, j);
    StopIsLongest(s, 0, limit, |s|);
    assert s[..|s|] == s;
  }

  lemma BoundingTwice(s: Text, limit: nat)
    ensures Bounded(Bounded(s, limit), limit) == Bounded(s, limit)
  {
    BoundedIsTheLongestPrefix(s, limit, 0);
    BoundedIsTheLongestPrefix(Bounded(s, limit), limit, 0);
  }

  /** For text without lone surrogates the count is the length of the UTF-8 encoding. */
  lemma {:induction false} CountIsTheEncodedLength(text: seq<nat>)
    requires forall cp | cp in text :: Scalar(cp)
    ensures Utf8Bytes(Utf16(text)) == |EncodeAll(text)|
    decreases |text|
  {
    if text != [] {
      var units, rest := Units(text[0]), Utf16(text[1..]);
      CountIsTheEncodedLength(text[1..]);
      OnePoint(text[0], rest);
      BytesOfSuffix(units, rest);
    }
  }

  /** Two units that encode one character. */
  ghost predicate EncodesOne(a: Unit, b: Unit) { exists cp | 0x1_0000 <= cp < 0x11_0000 :: Units(cp) == [a, b] }

  lemma PairsEncodeOne(a: Unit, b: Unit)
    ensures High(a) && Low(b) <==> EncodesOne(a, b)
  {
    if High(a) && Low(b) {
      var cp := PairPoint(a, b);
      assert cp - 0x1_0000 == (a - 0xD800) * 1024 + (b - 0xDC00);
      assert Units(cp) == [a, b];
    }
  }

  /** The text with every unit that belongs to no character replaced. */
  ghost function Mended(s: Text): (text: seq<nat>)
    ensures forall cp | cp in text :: Scalar(cp)
    decreases |s|
  {
    if s == [] then []
    else if |s| > 1 && EncodesOne(s[0], s[1]) then
      PairsEncodeOne(s[0], s[1]);
      [PairPoint(s[0], s[1])] + Mended(s[2..])
    else [if Scalar(s[0]) then s[0] else 0xFFFD] + Mended(s[1..])
  }

  /** Any text counts the bytes of its UTF-8 encoding once each lone surrogate is U+FFFD. */
  lemma {:induction false} CountIsTheMendedLength(s: Text)
    ensures Utf8Bytes(s) == |EncodeAll(Mended(s))|
    decreases |s|
  {
    if s != [] {
      var n := Width(PointAt(s, 0));
      if |s| > 1 {
        PairsEncodeOne(s[0], s[1]);
      }
      CountIsTheMendedLength(s[n..]);
      assert s == s[..n] + s[n..];
      BytesOfSuffix(s[..n], s[n..]);
      assert Mended(s)[1..] == Mended(s[n..]);
    }
  }

  lemma OnePoint(cp: nat, rest: Text)
    requires Scalar(cp)
    ensures PointAt(Units(cp) + rest, 0) == cp && Width(cp) == |Units(cp)| && Encoded(cp) == |Encode(cp)|
    ensures Utf8Bytes(Units(cp) + rest) == Encoded(cp) + BytesFrom(Units(cp) + rest, |Units(cp)|)
  {
    assert BytesFrom(Units(cp) + rest, 0) == Encoded(cp) + BytesFrom(Units(cp) + rest, Width(cp));
  }

  lemma {:induction false} BytesOfShift(front: Text, rest: Text, i: nat)
    ensures BytesFrom(front + rest, |front| + i) == BytesFrom(rest, i)
    decreases |rest| - i
  {
    if i < |rest| {
      assert (front + rest)[|front| + i] == rest[i];
      assert PointAt(front + rest, |front| + i) == PointAt(rest, i);
      BytesOfShift(front, rest, i + Width(PointAt(rest, i)));
    }
  }

  lemma BytesOfSuffix(front: Text, rest: Text)
    ensures BytesFrom(front + rest, |front|) == Utf8Bytes(rest)
  {
    BytesOfShift(front, rest, 0);
  }

  method CountUtf8(value: Text) returns (bytes: nat)
    ensures bytes == Utf8Bytes(value)
  {
    bytes := 0;
    var index: nat := 0;
    while index < |value|
      invariant index <= |value|
      invariant bytes + BytesFrom(value, index) == Utf8Bytes(value)
    {
      WidthAt(value, index);
      var point := PointAt(value, index);
      index := index + Width(point);
      bytes := bytes + Encoded(point);
    }
  }

  const UNAVAILABLE: Text := [60, 117, 110, 97, 118, 97, 105, 108, 97, 98, 108, 101, 62]

  lemma StopStep(s: Text, i: nat, budget: nat)
    requires i < |s|
    ensures var point := PointAt(s, i); var next := i + Width(point);
            && i < next <= |s| && s[..i] + s[i..next] == s[..next]
            && (if Encoded(point) > budget then Stop(s, i, budget) == i
                else Stop(s, i, budget) == Stop(s, next, budget - Encoded(point)))
  {
    WidthAt(s, i);
  }

  lemma StopsAtTheEnd(s: Text, budget: nat)
    ensures Stop(s, |s|, budget) == |s| && s[..0] == [] && s[..|s|] == s
  {
  }

  method Cut(text: Text, limit: nat) returns (result: Text)
    ensures result == Bounded(text, limit)
  {
    hide Stop, PointAt, Width, Encoded;
    result := [];
    var bytes: nat := 0;
    var index: nat := 0;
    StopsAtTheEnd(text, 0);
    while index < |text|
      invariant index <= |text| && bytes <= limit
      invariant result == text[..index]
      invariant Stop(text, index, limit - bytes) == Stop(text, 0, limit)
    {
      StopStep(text, index, limit - bytes);
      var point := PointAt(text, index);
      var width, encoded := Width(point), Encoded(point);
      if bytes + encoded > limit {
        return;
      }
      result := result + text[index..index + width];
      bytes := bytes + encoded;
      index := index + width;
    }
    StopsAtTheEnd(text, limit - bytes);
  }

  /** `shown` is what the value converts to, None when converting it throws. */
  method BoundedText(shown: Option<Text>, limit: nat) returns (result: Text)
    ensures result == Bounded(if shown == None then UNAVAILABLE else shown.value, limit)
  {
    hide Bounded, Aligned, Utf8Bytes;
    var text := if shown == None then UNAVAILABLE else shown.value;
    AlignedAtTheStart(text);
    BoundedIsTheLongestPrefix(text, limit, 0);
    var size := CountUtf8(text);
    if size <= limit {
      return text;
    }
    result := Cut(text, limit);
  }

  lemma AlignedAtTheStart(s: Text)
    ensures Aligned(s, 0)
  {
  }
}
