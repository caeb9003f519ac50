/**
 * What the checksum of tools/check-client-project-export.swift is. A body is read as a
 * polynomial over one bit, the first byte's lowest bit in front; the checksum is what
 * makes it divisible by the generator once its ends are complemented, as section
 * 4.4.7 of the PKWARE APPNOTE.TXT has it by naming CRC-32.
 */
module CrcResidue {
  import opened LittleEndian
  import opened StoredZip

  /** x^32 + x^26 + x^23 + ... + 1, the constant term in the highest of its 33 bits. */
  const GENERATOR: nat := 0x1_db71_0641

  /** The product of two polynomials over one bit: no carries. */
  function Product(a: nat, b: nat): nat {
    if a == 0 then 0 else Xor(2 * Product(a / 2, b), if a % 2 == 1 then b else 0)
  }

  ghost predicate Divisible(n: nat) { exists q: nat :: n == Product(q, GENERATOR) }

  lemma {:induction false} XorAssociates(a: nat, b: nat, c: nat)
    ensures Xor(Xor(a, b), c) == Xor(a, Xor(b, c))
    decreases a + b + c
  {
    if a != 0 || b != 0 || c != 0 {
      XorAssociates(a / 2, b / 2, c / 2);
      XorHalves(a, b);
      XorHalves(b, c);
      XorHalves(Xor(a, b), c);
      XorHalves(a, Xor(b, c));
    }
  }

  lemma {:induction false} XorHalves(a: nat, b: nat)
    ensures Xor(a, b) / 2 == Xor(a / 2, b / 2)
    ensures Xor(a, b) % 2 == if a % 2 == b % 2 then 0 else 1
  {
  }

  /** Two pairs of sums can be regrouped. */
  lemma XorRegroups(a: nat, b: nat, c: nat, d: nat)
    ensures Xor(Xor(a, b), Xor(c, d)) == Xor(Xor(a, c), Xor(b, d))
  {
    XorAssociates(a, b, Xor(c, d));
    XorAssociates(b, c, d);
    XorCommutes(b, c);
    XorAssociates(c, b, d);
    XorAssociates(a, c, Xor(b, d));
  }

  lemma XorDoubles(a: nat, b: nat)
    ensures Xor(2 * a, 2 * b) == 2 * Xor(a, b)
  {
  }

  /** A polynomial times x^n. */
  function Raised(n: nat, a: nat): nat { if n == 0 then a else 2 * Raised(n - 1, a) }

  lemma {:induction false} XorRaised(n: nat, a: nat, b: nat)
    ensures Xor(Raised(n, a), Raised(n, b)) == Raised(n, Xor(a, b))
  {
    if n > 0 {
      XorRaised(n - 1, a, b);
      XorDoubles(Raised(n - 1, a), Raised(n - 1, b));
      hide Xor;
    }
  }

  lemma {:induction false} RaisedTwice(m: nat, n: nat, a: nat)
    ensures Raised(m, Raised(n, a)) == Raised(m + n, a)
  {
    if m > 0 {
      RaisedTwice(m - 1, n, a);
    }
  }

  /** Bits below a number's own stay beside it. */
  lemma {:induction false} XorJoins(low: nat, n: nat, x: nat, y: nat)
    requires low < Raised(n, 1)
    ensures Xor(low + Raised(n, x), Raised(n, y)) == low + Raised(n, Xor(x, y))
  {
    if n > 0 {
      XorJoins(low / 2, n - 1, x, y);
      XorHalves(low + Raised(n, x), Raised(n, y));
      hide Xor;
    }
  }

  // Multiples of the generator.

  lemma {:induction false} ProductAdds(p: nat, q: nat, g: nat)
    ensures Product(Xor(p, q), g) == Xor(Product(p, g), Product(q, g))
    decreases p + q
  {
    if p != 0 || q != 0 {
      ProductAdds(p / 2, q / 2, g);
      XorHalves(p, q);
      XorDoubles(Product(p / 2, g), Product(q / 2, g));
      var pb, qb := if p % 2 == 1 then g else 0, if q % 2 == 1 then g else 0;
      XorRegroups(2 * Product(p / 2, g), pb, 2 * Product(q / 2, g), qb);
      XorCancels(0, g);
      XorZero(g);
      XorCommutes(0, g);
      XorZero(0);
      ProductStep(p, g);
      ProductStep(q, g);
      ProductStep(Xor(p, q), g);
      hide Product;
    }
  }

  lemma ProductStep(a: nat, g: nat)
    ensures Product(a, g) == Xor(2 * Product(a / 2, g), if a % 2 == 1 then g else 0)
  {
    XorZero(0);
  }

  lemma SumsDivide(a: nat, b: nat)
    requires Divisible(a) && Divisible(b)
    ensures Divisible(Xor(a, b))
  {
    var p: nat :| a == Product(p, GENERATOR);
    var q: nat :| b == Product(q, GENERATOR);
    ProductAdds(p, q, GENERATOR);
  }

  lemma Doubled(q: nat)
    ensures Product(2 * q, GENERATOR) == 2 * Product(q, GENERATOR)
  {
    ProductStep(2 * q, GENERATOR);
    XorZero(2 * Product(q, GENERATOR));
  }

  lemma {:induction false} RaisedDivides(n: nat, a: nat)
    requires Divisible(a)
    ensures Divisible(Raised(n, a))
  {
    if n > 0 {
      RaisedDivides(n - 1, a);
      var q: nat :| Raised(n - 1, a) == Product(q, GENERATOR);
      Doubled(q);
    }
  }

  /** The generator has a constant term, so a multiple of it times x^n is x^n times a multiple. */
  lemma {:induction false} Lowered(n: nat, a: nat)
    requires Divisible(Raised(n, a))
    ensures Divisible(a)
  {
    if n > 0 {
      var q: nat :| Raised(n, a) == Product(q, GENERATOR);
      ProductStep(q, GENERATOR);
      XorHalves(2 * Product(q / 2, GENERATOR), if q % 2 == 1 then GENERATOR else 0);
      XorZero(2 * Product(q / 2, GENERATOR));
      assert Raised(n - 1, a) == Product(q / 2, GENERATOR);
      Lowered(n - 1, a);
    }
  }

  lemma TheGeneratorDivides(bit: bool)
    ensures Divisible(if bit then GENERATOR else 0)
  {
    ProductStep(1, GENERATOR);
    XorZero(GENERATOR);
    XorCommutes(0, GENERATOR);
    hide Xor;
    assert Product(0, GENERATOR) == 0;
    assert Product(1, GENERATOR) == GENERATOR;
  }

  // The register.

  /** One shift divides by x: twice the result is the register, but for a multiple of the generator. */
  lemma ShiftHalves(c: Word)
    ensures 2 * Shift(c) == Xor(c, if c % 2 == 1 then GENERATOR else 0)
  {
    XorHalves(c, GENERATOR);
    XorHalves(c, 0);
    assert GENERATOR / 2 == POLYNOMIAL && GENERATOR % 2 == 1;
  }

  lemma {:induction false} ShiftsDivide(c: Word, n: nat)
    ensures Divisible(Xor(Raised(n, Shifts(c, n)), c))
  {
    if n == 0 {
      XorSelf(c);
      TheGeneratorDivides(false);
    } else {
      ShiftsDivide(c, n - 1);
      OneMoreShift(c, n, Shifts(c, n - 1));
      hide Shift, Divisible, Raised;
    }
  }

  lemma OneMoreShift(c: Word, n: nat, d: Word)
    requires n > 0 && Divisible(Xor(Raised(n - 1, d), c))
    ensures Divisible(Xor(Raised(n, Shift(d)), c))
  {
    ShiftHalves(d);
    RaisedTwice(n - 1, 1, Shift(d));
    assert Raised(1, Shift(d)) == 2 * Raised(0, Shift(d)) == 2 * Shift(d);
    hide Xor, Divisible, Raised;
    var g := if d % 2 == 1 then GENERATOR else 0;
    var rd, rg := Raised(n - 1, d), Raised(n - 1, g);
    XorRaised(n - 1, d, g);
    XorCommutes(rd, rg);
    XorAssociates(rg, rd, c);
    TheGeneratorDivides(d % 2 == 1);
    RaisedDivides(n - 1, g);
    SumsDivide(rg, Xor(rd, c));
  }

  lemma XorSelf(a: nat)
    ensures Xor(a, a) == 0 && Xor(0, a) == a && Xor(a, 0) == a
  {
    XorCancels(0, a);
    XorCommutes(0, a);
    XorZero(a);
  }

  lemma {:induction false} Appended(body: seq<Byte>, more: seq<Byte>)
    ensures Number(body + more) == Xor(Number(body), Raised(8 * |body|, Number(more)))
  {
    if body == [] {
      assert body + more == more;
      XorSelf(Number(more));
    } else {
      var rest := Raised(8 * |body[1..]|, Number(more));
      Appended(body[1..], more);
      assert (body + more)[1..] == body[1..] + more;
      RaisedTwice(8, 8 * |body[1..]|, Number(more));
      RaisedBy8(Number(body[1..]));
      RaisedBy8(Xor(Number(body[1..]), rest));
      RaisedBy8(1);
      XorJoins(body[0], 8, Number(body[1..]), rest);
      hide Xor, Raised;
    }
  }

  lemma RaisedBy8(a: nat)
    ensures Raised(8, a) == 256 * a
  {
    assert Raised(1, a) == 2 * a && Raised(3, a) == 8 * a;
    assert Raised(5, a) == 32 * a && Raised(7, a) == 128 * a;
  }

  /** The register, behind the body, continues the body with its first four bytes complemented. */
  lemma {:induction false} RegisterIsTheRemainder(body: seq<Byte>)
    ensures Divisible(Xor(Raised(8 * |body|, Register(body)), Xor(ONES, Number(body))))
    decreases |body|
  {
    if body == [] {
      XorSelf(ONES);
      TheGeneratorDivides(false);
    } else {
      var front, last := body[..|body| - 1], body[|body| - 1];
      RegisterIsTheRemainder(front);
      Appended(front, [last]);
      assert front + [last] == body && Number([last]) == last;
      hide Number, Register;
      NextByte(8 * |front|, Register(front), last, Xor(ONES, Number(front)));
      XorAssociates(ONES, Number(front), Raised(8 * |front|, last));
      hide Xor, Shifts, Divisible, Raised;
      assert 8 * |front| + 8 == 8 * |body|;
      assert Register(body) == Shifts(Added(Register(front), last), 8) by { RegisterStep(body); }
    }
  }

  lemma RegisterStep(body: seq<Byte>)
    requires body != []
    ensures Register(body) == Shifts(Added(Register(body[..|body| - 1]), body[|body| - 1]), 8)
  {
  }

  lemma NextByte(n: nat, r: Word, last: Byte, m: nat)
    requires Divisible(Xor(Raised(n, r), m))
    ensures Divisible(Xor(Raised(n + 8, Shifts(Added(r, last), 8)), Xor(m, Raised(n, last))))
  {
    var c := Added(r, last);
    var shifted := Raised(8, Shifts(c, 8));
    ShiftsDivide(c, 8);
    RaisedDivides(n, Xor(shifted, c));
    XorRaised(n, shifted, c);
    XorRaised(n, r, last);
    RaisedTwice(n, 8, Shifts(c, 8));
    var a := Raised(n + 8, Shifts(c, 8));
    SumsDivide(Xor(a, Raised(n, c)), Xor(Raised(n, r), m));
    Telescopes(a, Raised(n, r), Raised(n, last), m);
    hide Xor, Shifts, Divisible, Raised;
  }

  /** a + (r + l), added to r + m, is a + (m + l). */
  lemma Telescopes(a: nat, r: nat, l: nat, m: nat)
    ensures Xor(Xor(a, Xor(r, l)), Xor(r, m)) == Xor(a, Xor(m, l))
  {
    XorAssociates(a, Xor(r, l), Xor(r, m));
    XorRegroups(r, l, r, m);
    XorSelf(r);
    XorSelf(Xor(l, m));
    XorCommutes(l, m);
    hide Xor;
  }

  lemma {:induction false} XorKeepsHigh(a: nat, b: nat, width: nat)
    requires a >= Power2(width) > b
    ensures Xor(a, b) >= Power2(width)
    decreases width
  {
    if width == 0 {
      XorZero(a);
    } else {
      XorKeepsHigh(a / 2, b / 2, width - 1);
      XorHalves(a, b);
    }
  }

  /** Only zero is a multiple of the generator below its degree. */
  lemma {:induction false} MultiplesAreLong(q: nat)
    requires q > 0
    ensures Product(q, GENERATOR) >= U32_LIMIT
  {
    ProductStep(q, GENERATOR);
    if q == 1 {
      XorSelf(GENERATOR);
      assert Product(0, GENERATOR) == 0;
    } else {
      WordPowers();
      assert Power2(33) == 2 * U32_LIMIT;
      MultiplesAreLong(q / 2);
      XorKeepsHigh(2 * Product(q / 2, GENERATOR), if q % 2 == 1 then GENERATOR else 0, 33);
    }
  }

  /** The body with the checksum behind it, the first and the last four bytes complemented. */
  function Complemented(body: seq<Byte>, checksum: Word): nat {
    Xor(Number(body + Digits(checksum, 4)), Xor(ONES, Raised(8 * |body|, ONES)))
  }

  lemma ComplementedIs(body: seq<Byte>, checksum: Word)
    ensures Complemented(body, checksum)
         == Xor(Raised(8 * |body|, Xor(checksum, ONES)), Xor(ONES, Number(body)))
  {
    var n := 8 * |body|;
    Appended(body, Digits(checksum, 4));
    Powers();
    FieldRoundTrip(checksum, 4);
    hide Digits, Number;
    XorRaised(n, checksum, ONES);
    XorRegroups(Number(body), Raised(n, checksum), ONES, Raised(n, ONES));
    XorCommutes(Number(body), ONES);
    XorCommutes(Xor(ONES, Number(body)), Xor(Raised(n, checksum), Raised(n, ONES)));
    hide Xor, Raised;
  }

  /**
   * The checksum of a body is the one word that, written behind it in little-endian
   * order, makes the complemented whole divisible by the generator.
   */
  lemma ChecksumIsTheResidue(body: seq<Byte>, checksum: Word)
    ensures checksum == Crc32(body) <==> Divisible(Complemented(body, checksum))
  {
    var n, r, m := 8 * |body|, Register(body), Xor(ONES, Number(body));
    var k := Xor(checksum, ONES);
    RegisterIsTheRemainder(body);
    ComplementedIs(body, checksum);
    XorCancels(r, ONES);
    if Divisible(Complemented(body, checksum)) {
      SumsDivide(Xor(Raised(n, k), m), Xor(Raised(n, r), m));
      XorRegroups(Raised(n, k), m, Raised(n, r), m);
      XorSelf(m);
      XorSelf(Xor(Raised(n, k), Raised(n, r)));
      XorRaised(n, k, r);
      Lowered(n, Xor(k, r));
      SmallMultiples(checksum, k, r);
      hide Divisible, Xor, Number, Raised;
    }
    hide Divisible, Xor, Number, Raised;
  }

  lemma SmallMultiples(checksum: Word, k: nat, r: Word)
    requires k == Xor(checksum, ONES) && Divisible(Xor(k, r))
    ensures checksum == Xor(r, ONES)
  {
    WordPowers();
    XorFits(checksum, ONES, 32);
    XorFits(k, r, 32);
    var q: nat :| Xor(k, r) == Product(q, GENERATOR);
    if q > 0 {
      MultiplesAreLong(q);
    }
    assert Xor(k, r) == 0;
    XorCancels(k, r);
    XorSelf(r);
    XorCancels(checksum, ONES);
    hide Xor;
  }
}
