/**
 * Fixed-width little-endian integers in byte buffers: `ReadLe`/`WriteLe` in
 * apps/reb-native-vm-fixture/owned_vm_helper_protocol.hpp and `number`/`put` in
 * tools/check-client-project-export.swift. The source combines bytes with shifts
 * and bitwise or; each byte has its own eight bits, so that is a weighted sum.
 */
module LittleEndian {
  type Byte = n: nat | n < 256

  const U16_LIMIT := 0x1_0000
  const U32_LIMIT := 0x1_0000_0000
  const U64_LIMIT := 0x1_0000_0000_0000_0000

  function Power256(n: nat): (p: nat)
    ensures p > 0
  {
    if n == 0 then 1 else 256 * Power256(n - 1)
  }

  /** The number whose least significant byte comes first. */
  function Number(bytes: seq<Byte>): nat {
    if bytes == [] then 0 else bytes[0] + 256 * Number(bytes[1..])
  }

  /** The low `width` bytes of a value; higher bits are lost, as a narrowing cast loses them. */
  function Digits(value: nat, width: nat): (bytes: seq<Byte>)
    ensures |bytes| == width
  {
    if width == 0 then [] else [value % 256] + Digits(value / 256, width - 1)
  }

  lemma {:induction false} NumberSplit(a: seq<Byte>, b: seq<Byte>)
    ensures Number(a + b) == Number(a) + Power256(|a|) * Number(b)
  {
    if a == [] {
      assert a + b == b;
    } else {
      NumberSplit(a[1..], b);
      assert (a + b)[1..] == a[1..] + b;
      assert Power256(|a|) * Number(b) == 256 * (Power256(|a| - 1) * Number(b));
    }
  }

  lemma {:induction false} NumberBound(bytes: seq<Byte>)
    ensures Number(bytes) < Power256(|bytes|)
  {
    if bytes != [] {
      NumberBound(bytes[1..]);
    }
  }

  /** Writing then reading gives the value back, reduced to the width. */
  lemma {:induction false} ReadOfWrite(value: nat, width: nat)
    ensures Number(Digits(value, width)) == value % Power256(width)
  {
    if width > 0 {
      ReadOfWrite(value / 256, width - 1);
      assert Digits(value, width)[1..] == Digits(value / 256, width - 1);
      ModuloSplit(value, Power256(width - 1));
    }
  }

  lemma ModuloSplit(value: nat, p: nat)
    requires p > 0
    ensures value % (256 * p) == value % 256 + 256 * (value / 256 % p)
  {
    var q, r := value / 256, value % 256;
    var a, b := q / p, q % p;
    assert value == 256 * (a * p + b) + r;
    assert value == a * (256 * p) + (256 * b + r);
    assert 0 <= 256 * b + r < 256 * p;
    QuotientUnique(value, 256 * p, a, 256 * b + r);
  }

  lemma QuotientUnique(value: nat, d: nat, q: nat, r: nat)
    requires d > 0 && r < d && value == q * d + r
    ensures value % d == r
  {
    var q', r' := value / d, value % d;
    assert value == q' * d + r';
    assert (q' - q) * d == r - r';
    if q' > q {
      AtLeastOnce(q' - q, d);
    } else if q' < q {
      AtLeastOnce(q - q', d);
    }
  }

  lemma AtLeastOnce(times: nat, d: nat)
    requires times > 0
    ensures times * d >= d
  {
  }

  /** Reading then writing gives the bytes back. */
  lemma {:induction false} WriteOfRead(bytes: seq<Byte>)
    ensures Digits(Number(bytes), |bytes|) == bytes
  {
    if bytes != [] {
      WriteOfRead(bytes[1..]);
      assert Number(bytes) % 256 == bytes[0] && Number(bytes) / 256 == Number(bytes[1..]);
    }
  }

  lemma Powers()
    ensures Power256(1) == 256 && Power256(2) == U16_LIMIT && Power256(4) == U32_LIMIT && Power256(8) == U64_LIMIT
  {
    assert Power256(3) == 256 * Power256(2);
    assert Power256(5) == 256 * Power256(4);
    assert Power256(6) == 256 * Power256(5);
    assert Power256(7) == 256 * Power256(6);
  }

  /** A value below its field's limit survives the field. */
  lemma FieldRoundTrip(value: nat, width: nat)
    requires value < Power256(width)
    ensures Number(Digits(value, width)) == value
  {
    ReadOfWrite(value, width);
    SmallModulo(value, Power256(width));
  }

  lemma SmallModulo(value: nat, d: nat)
    requires value < d
    ensures value % d == value
  {
  }

  method ReadLe(bytes: seq<Byte>, offset: nat, width: nat) returns (result: nat)
    requires offset + width <= |bytes|
    ensures result == Number(bytes[offset..offset + width])
  {
    result := 0;
    var weight: nat := 1;
    for i := 0 to width
      invariant result == Number(bytes[offset..offset + i])
      invariant weight == Power256(i)
    {
      assert bytes[offset..offset + i + 1] == bytes[offset..offset + i] + [bytes[offset + i]];
      NumberSplit(bytes[offset..offset + i], [bytes[offset + i]]);
      assert Number([bytes[offset + i]]) == bytes[offset + i];
      result := result + bytes[offset + i] * weight;
      weight := weight * 256;
    }
  }

  lemma OneByteWritten(whole: seq<Byte>, digits: seq<Byte>, offset: nat, i: nat)
    requires i < |digits| && offset + |digits| <= |whole|
    ensures (whole[..offset] + digits[..i] + whole[offset + i..])[offset + i := digits[i]]
         == whole[..offset] + digits[..i + 1] + whole[offset + i + 1..]
  {
  }

  lemma DigitsRest(value: nat, digits: seq<Byte>, width: nat, i: nat)
    requires i < |digits| == width && Digits(value, width - i) == digits[i..]
    ensures value % 256 == digits[i] && Digits(value / 256, width - i - 1) == digits[i + 1..]
  {
    assert digits[i..][1..] == digits[i + 1..];
  }

  /** Fills exactly `width` bytes at `offset`; every other byte keeps its value. */
  method WriteLe(bytes: array<Byte>, offset: nat, width: nat, value: nat)
    requires offset + width <= bytes.Length
    modifies bytes
    ensures bytes[..] == old(bytes[..offset]) + Digits(value, width) + old(bytes[offset + width..])
  {
    var rest := value;
    ghost var digits, whole := Digits(value, width), bytes[..];
    assert digits[..width] == digits;
    hide Digits;
    for i := 0 to width
      invariant Digits(rest, width - i) == digits[i..]
      invariant bytes[..] == whole[..offset] + digits[..i] + whole[offset + i..]
    {
      ghost var before := bytes[..];
      OneByteWritten(whole, digits, offset, i);
      DigitsRest(rest, digits, width, i);
      bytes[offset + i] := rest % 256;
      assert bytes[..] == before[offset + i := digits[i]];
      rest := rest / 256;
    }
    assert whole[..offset] == old(bytes[..offset]) && whole[offset + width..] == old(bytes[offset + width..]);
  }
}
