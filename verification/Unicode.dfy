/**
 * Text as code points, UTF-8 bytes (RFC 3629, section 3: strict decoding) and UTF-16
 * units (RFC 2781, section 2.1).
 */
module Unicode {
  import opened Outcomes
  import opened LittleEndian

  type Unit = n: nat | n < 0x1_0000

  predicate Scalar(cp: nat) { cp < 0xD800 || 0xDFFF < cp < 0x11_0000 }

  datatype Decoded = Decoded(cp: nat, width: nat)

  predicate Continues(b: Byte) { 0x80 <= b <= 0xBF }

  // Six payload bits a continuation byte.

  function Cp2(a: int, b: int): int { (a - 0xC0) * 64 + (b - 0x80) }

  function Cp3(a: int, b: int, c: int): int { ((a - 0xE0) * 64 + (b - 0x80)) * 64 + (c - 0x80) }

  function Cp4(a: int, b: int, c: int, d: int): int {
    (((a - 0xF0) * 64 + (b - 0x80)) * 64 + (c - 0x80)) * 64 + (d - 0x80)
  }

  /** The first character: the table of well-formed byte sequences. */
  function First(bytes: seq<Byte>): (d: Option<Decoded>)
    ensures d.Some? ==> 1 <= d.value.width <= |bytes| && Scalar(d.value.cp)
  {
    if bytes == [] then None
    else if bytes[0] < 0x80 then Some(Decoded(bytes[0], 1))
    else if |bytes| >= 2 && 0xC2 <= bytes[0] <= 0xDF && Continues(bytes[1]) then
      Some(Decoded(Cp2(bytes[0], bytes[1]), 2))
    else if |bytes| >= 3 && 0xE0 <= bytes[0] <= 0xEF && Continues(bytes[1]) && Continues(bytes[2])
         && (bytes[0] == 0xE0 ==> bytes[1] >= 0xA0) && (bytes[0] == 0xED ==> bytes[1] <= 0x9F) then
      Some(Decoded(Cp3(bytes[0], bytes[1], bytes[2]), 3))
    else if |bytes| >= 4 && 0xF0 <= bytes[0] <= 0xF4 && Continues(bytes[1]) && Continues(bytes[2])
        && Continues(bytes[3])
         && (bytes[0] == 0xF0 ==> bytes[1] >= 0x90) && (bytes[0] == 0xF4 ==> bytes[1] <= 0x8F) then
      Some(Decoded(Cp4(bytes[0], bytes[1], bytes[2], bytes[3]), 4))
    else None
  }

  function Decode(bytes: seq<Byte>): Option<seq<nat>>
    decreases |bytes|
  {
    if bytes == [] then Some([])
    else match First(bytes)
      case None => None
      case Some(d) => match Decode(bytes[d.width..])
        case None => None
        case Some(rest) => Some([d.cp] + rest)
  }

  function Encode(cp: nat): (bytes: seq<Byte>)
    requires Scalar(cp)
    ensures 1 <= |bytes| <= 4
  {
    if cp < 0x80 then [cp]
    else if cp < 0x800 then Two(cp)
    else if cp < 0x1_0000 then Three(cp)
    else Four(cp)
  }

  function Two(cp: nat): seq<Byte>
    requires cp < 0x800
  {
    [0xC0 + cp / 64, 0x80 + cp % 64]
  }

  function Three(cp: nat): seq<Byte>
    requires cp < 0x1_0000
  {
    [0xE0 + cp / 64 / 64, 0x80 + cp / 64 % 64, 0x80 + cp % 64]
  }

  function Four(cp: nat): seq<Byte>
    requires cp < 0x11_0000
  {
    [0xF0 + cp / 64 / 64 / 64, 0x80 + cp / 64 / 64 % 64, 0x80 + cp / 64 % 64, 0x80 + cp % 64]
  }

  function EncodeAll(text: seq<nat>): (bytes: seq<Byte>)
    requires forall cp | cp in text :: Scalar(cp)
    decreases |text|
  {
    if text == [] then [] else Encode(text[0]) + EncodeAll(text[1..])
  }

  lemma TwoBytes(a: int, b: int)
    requires 0xC0 <= a <= 0xDF && 0x80 <= b <= 0xBF
    ensures var cp := Cp2(a, b); 0 <= cp < 0x800 && Two(cp) == [a, b] && (cp >= 0x80 <==> a >= 0xC2)
  {
  }

  lemma ThreeBytes(a: int, b: int, c: int)
    requires 0xE0 <= a <= 0xEF && 0x80 <= b <= 0xBF && 0x80 <= c <= 0xBF
    ensures var cp := Cp3(a, b, c);
            && 0 <= cp < 0x1_0000 && Three(cp) == [a, b, c]
            && (cp >= 0x800 <==> (a == 0xE0 ==> b >= 0xA0))
            && (0xD800 <= cp <= 0xDFFF <==> a == 0xED && b > 0x9F)
  {
    var q := (a - 0xE0) * 64 + (b - 0x80);
    assert Cp3(a, b, c) / 64 == q && q / 64 == a - 0xE0;
  }

  lemma FourBytes(a: int, b: int, c: int, d: int)
    requires 0xF0 <= a <= 0xF4 && 0x80 <= b <= 0xBF && 0x80 <= c <= 0xBF && 0x80 <= d <= 0xBF
    ensures var cp := Cp4(a, b, c, d);
            && (cp >= 0x1_0000 <==> (a == 0xF0 ==> b >= 0x90))
            && (0 <= cp < 0x11_0000 <==> (a == 0xF4 ==> b <= 0x8F))
            && (0 <= cp < 0x11_0000 ==> Four(cp) == [a, b, c, d])
  {
    var q := (a - 0xF0) * 64 + (b - 0x80);
    var r := q * 64 + (c - 0x80);
    assert Cp4(a, b, c, d) / 64 == r && r / 64 == q && q / 64 == a - 0xF0;
  }

  lemma TwoIsRead(cp: nat)
    requires cp < 0x800
    ensures var b := Two(cp); Cp2(b[0], b[1]) == cp && b[0] <= 0xDF && Continues(b[1])
  {
  }

  lemma ThreeIsRead(cp: nat)
    requires cp < 0x1_0000
    ensures var b := Three(cp); Cp3(b[0], b[1], b[2]) == cp && b[0] <= 0xEF && Continues(b[1]) && Continues(b[2])
  {
  }

  lemma FourIsRead(cp: nat)
    requires cp < 0x11_0000
    ensures var b := Four(cp);
            && Cp4(b[0], b[1], b[2], b[3]) == cp && b[0] <= 0xF4
            && Continues(b[1]) && Continues(b[2]) && Continues(b[3])
  {
  }

  /** The table is the inverse of the encoding, both ways. */
  lemma FirstOfEncoded(cp: nat, rest: seq<Byte>)
    requires Scalar(cp)
    ensures First(Encode(cp) + rest) == Some(Decoded(cp, |Encode(cp)|))
  {
    hide Cp2, Cp3, Cp4;
    var bytes := Encode(cp) + rest;
    if cp < 0x80 {
    } else if cp < 0x800 {
      TwoIsRead(cp);
      TwoBytes(bytes[0], bytes[1]);
    } else if cp < 0x1_0000 {
      ThreeIsRead(cp);
      ThreeBytes(bytes[0], bytes[1], bytes[2]);
    } else {
      FourIsRead(cp);
      FourBytes(bytes[0], bytes[1], bytes[2], bytes[3]);
    }
  }

  lemma EncodedIsFirst(bytes: seq<Byte>)
    ensures First(bytes).Some? ==> Encode(First(bytes).value.cp) == bytes[..First(bytes).value.width]
  {
    hide Cp2, Cp3, Cp4, Two, Three, Four;
    if First(bytes).Some? {
      match First(bytes).value.width
      case 2 =>
        TwoBytes(bytes[0], bytes[1]);
        assert bytes[..2] == [bytes[0], bytes[1]];
      case 3 =>
        ThreeBytes(bytes[0], bytes[1], bytes[2]);
        assert bytes[..3] == [bytes[0], bytes[1], bytes[2]];
      case 4 =>
        FourBytes(bytes[0], bytes[1], bytes[2], bytes[3]);
        assert bytes[..4] == [bytes[0], bytes[1], bytes[2], bytes[3]];
      case _ =>
        assert bytes[..1] == [bytes[0]];
    }
  }

  /** Bytes decode to a text exactly when they are its encoding. */
  lemma {:induction false} DecodeIsTheInverse(bytes: seq<Byte>, text: seq<nat>)
    ensures Decode(bytes) == Some(text) <==> (forall cp | cp in text :: Scalar(cp)) && bytes == EncodeAll(text)
    decreases |text| + |bytes|
  {
    hide First, Encode;
    if bytes != [] && First(bytes).Some? && text != [] {
      var d := First(bytes).value;
      EncodedIsFirst(bytes);
      DecodeIsTheInverse(bytes[d.width..], text[1..]);
      assert bytes == bytes[..d.width] + bytes[d.width..];
      assert text == [text[0]] + text[1..];
    }
    if text != [] && (forall cp | cp in text :: Scalar(cp)) && bytes == EncodeAll(text) {
      FirstOfEncoded(text[0], EncodeAll(text[1..]));
    }
  }

  /** The first character needs only its own bytes. */
  lemma FirstOfLonger(bytes: seq<Byte>, rest: seq<Byte>)
    ensures First(bytes).Some? ==> First(bytes + rest) == First(bytes)
  {
  }

  lemma FirstOfShorter(bytes: seq<Byte>, n: nat)
    requires First(bytes).Some? && First(bytes).value.width <= n <= |bytes|
    ensures First(bytes[..n]) == First(bytes)
  {
  }

  lemma {:induction false} DecodeSplit(a: seq<Byte>, b: seq<Byte>)
    requires Decode(a).Some?
    ensures Decode(a + b) == match Decode(b) case None => None case Some(t) => Some(Decode(a).value + t)
    decreases |a|
  {
    hide First;
    if a == [] {
      assert a + b == b;
      if Decode(b).Some? {
        assert [] + Decode(b).value == Decode(b).value;
      }
    } else {
      var d := First(a).value;
      FirstOfLonger(a, b);
      assert (a + b)[d.width..] == a[d.width..] + b;
      DecodeSplit(a[d.width..], b);
      if Decode(b).Some? {
        assert [d.cp] + Decode(a[d.width..]).value + Decode(b).value
            == [d.cp] + (Decode(a[d.width..]).value + Decode(b).value);
      }
    }
  }

  /** Inside a character there are only continuation bytes. */
  lemma InsideContinues(bytes: seq<Byte>, i: nat)
    ensures First(bytes).Some? && 0 < i < First(bytes).value.width ==> Continues(bytes[i])
  {
  }

  /** An ASCII byte of valid text starts a character: the bytes before it are valid text. */
  lemma {:induction false} AsciiStartsACharacter(bytes: seq<Byte>, i: nat)
    requires Decode(bytes).Some? && i < |bytes| && bytes[i] < 0x80
    ensures Decode(bytes[..i]).Some?
    decreases |bytes|
  {
    hide First;
    if i > 0 {
      var d := First(bytes).value;
      InsideContinues(bytes, i);
      AsciiStartsACharacter(bytes[d.width..], i - d.width);
      FirstOfShorter(bytes, i);
      assert bytes[..i][d.width..] == bytes[d.width..][..i - d.width];
    }
  }

  lemma FirstIsAscii(bytes: seq<Byte>, c: Byte)
    requires c < 0x80
    ensures First(bytes).Some? ==> (First(bytes).value.cp == c <==> bytes[0] == c)
  {
  }

  function Units(cp: nat): (units: seq<Unit>)
    requires Scalar(cp)
    ensures 1 <= |units| <= 2
  {
    if cp < 0x1_0000 then [cp]
    else [0xD800 + (cp - 0x1_0000) / 1024, 0xDC00 + (cp - 0x1_0000) % 1024]
  }

  function Utf16(text: seq<nat>): seq<Unit>
    requires forall cp | cp in text :: Scalar(cp)
    decreases |text|
  {
    if text == [] then [] else Units(text[0]) + Utf16(text[1..])
  }

  lemma {:induction false} DecodedIsScalar(bytes: seq<Byte>)
    ensures Decode(bytes).Some? ==> forall cp | cp in Decode(bytes).value :: Scalar(cp)
    decreases |bytes|
  {
    hide First;
    if bytes != [] && First(bytes).Some? {
      DecodedIsScalar(bytes[First(bytes).value.width..]);
    }
  }

  lemma {:induction false} Utf16Split(a: seq<nat>, b: seq<nat>)
    requires forall cp | cp in a + b :: Scalar(cp)
    ensures (forall cp | cp in a :: Scalar(cp)) && forall cp | cp in b :: Scalar(cp)
    ensures Utf16(a + b) == Utf16(a) + Utf16(b)
    decreases |a|
  {
    assert forall cp | cp in a :: cp in a + b;
    assert forall cp | cp in b :: cp in a + b;
    if a == [] {
      assert a + b == b;
    } else {
      assert (a + b)[1..] == a[1..] + b;
      Utf16Split(a[1..], b);
    }
  }
}
