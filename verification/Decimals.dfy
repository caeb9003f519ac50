/**
 * Canonical unsigned 64-bit decimals. Three gates admit them: `CanonicalU64` in
 * apps/reb-native-vm-fixture/owned_vm_helper_protocol.hpp, `canonical_id` in
 * tools/native-js-invocation-site.py and `parse_canonical_integer` with the uint64
 * range check in tools/validate-evidence-store.py.
 */
module Decimals {
  import opened Outcomes

  const U64_MAX: nat := 0xFFFF_FFFF_FFFF_FFFF

  predicate IsDigit(c: char) { '0' <= c <= '9' }

  predicate AllDigits(s: string) { forall i | 0 <= i < |s| :: IsDigit(s[i]) }

  predicate Ascii(s: string) { forall i | 0 <= i < |s| :: s[i] as int < 128 }

  function DigitValue(c: char): (d: nat)
    requires IsDigit(c)
    ensures d < 10
  {
    c as int - '0' as int
  }

  function DigitChar(d: nat): (c: char)
    requires d < 10
    ensures IsDigit(c) && DigitValue(c) == d
  {
    ('0' as int + d) as char
  }

  /** How every integer is printed: no sign, no padding. */
  function Text(n: nat): (s: string)
    ensures |s| > 0 && AllDigits(s)
  {
    if n < 10 then [DigitChar(n)] else Text(n / 10) + [DigitChar(n % 10)]
  }

  function ValueOf(s: string): nat
    requires AllDigits(s)
  {
    if s == [] then 0 else 10 * ValueOf(s[..|s| - 1]) + DigitValue(s[|s| - 1])
  }

  lemma {:induction false} ParseOfPrint(n: nat)
    ensures ValueOf(Text(n)) == n
  {
    if n < 10 {
      assert Text(n)[..0] == [];
    } else {
      ParseOfPrint(n / 10);
      assert Text(n)[..|Text(n)| - 1] == Text(n / 10);
    }
  }

  /** Nonempty digits without a superfluous leading zero. */
  predicate Canonical(s: string) {
    s != [] && AllDigits(s) && (|s| > 1 ==> s[0] != '0')
  }

  lemma {:induction false} TextIsCanonical(n: nat)
    ensures Canonical(Text(n)) && (Text(n)[0] == '0' ==> n == 0)
  {
    if n >= 10 {
      TextIsCanonical(n / 10);
    }
  }

  lemma {:induction false} PrintOfParse(s: string)
    requires Canonical(s)
    ensures Text(ValueOf(s)) == s
    ensures |s| > 1 ==> ValueOf(s) >= 10
  {
    var short, last := s[..|s| - 1], s[|s| - 1];
    assert s == short + [last];
    if |s| == 1 {
      assert short == [];
    } else {
      PrintOfParse(short);
      assert ValueOf(short) > 0 by {
        if |short| == 1 {
          assert short[..0] == [];
        }
      }
    }
  }

  /** Every digit text of a value is at least as long as its printed text, and equal only to it. */
  lemma {:induction false} PrintIsShortest(s: string)
    requires s != [] && AllDigits(s)
    ensures |Text(ValueOf(s))| <= |s|
    ensures |Text(ValueOf(s))| == |s| <==> Canonical(s)
  {
    if Canonical(s) {
      PrintOfParse(s);
    } else {
      var tail := s[1..];
      LeadingZero(s);
      PrintIsShortest(tail);
    }
  }

  lemma {:induction false} LeadingZero(s: string)
    requires |s| > 1 && AllDigits(s) && s[0] == '0'
    ensures ValueOf(s) == ValueOf(s[1..])
  {
    var short := s[..|s| - 1];
    if |s| == 2 {
      assert short[..0] == [] && s[1..][..0] == [];
    } else {
      LeadingZero(short);
      assert s[1..][..|s[1..]| - 1] == short[1..];
    }
  }

  function Power10(n: nat): nat {
    if n == 0 then 1 else 10 * Power10(n - 1)
  }

  /** Length and magnitude: `n` prints in at most `k` characters exactly when it is below 10^k. */
  lemma {:induction false} TextLength(n: nat, k: nat)
    requires k > 0
    ensures |Text(n)| <= k <==> n < Power10(k)
  {
    if n < 10 {
      PowerAtLeastTen(k);
    } else if k > 1 {
      TextLength(n / 10, k - 1);
    }
  }

  lemma {:induction false} PowerAtLeastTen(k: nat)
    requires k > 0
    ensures Power10(k) >= 10
  {
    if k > 1 {
      PowerAtLeastTen(k - 1);
    }
  }

  lemma Power10Of20()
    ensures Power10(20) == 100000000000000000000
  {
    assert Power10(5) == 100000;
    assert Power10(10) == 10000000000;
    assert Power10(15) == 1000000000000000;
  }

  /** Every uint64 fits the twenty-character cap. */
  lemma U64Length(n: nat)
    requires n <= U64_MAX
    ensures |Text(n)| <= 20
  {
    Power10Of20();
    TextLength(n, 20);
  }

  // ---------------------------------------------------------------- the C++ gate

  /** `std::from_chars` over digits: out of range leaves no value. */
  method FromChars(text: string) returns (ok: bool, result: nat)
    requires AllDigits(text)
    ensures ok <==> ValueOf(text) <= U64_MAX
    ensures ok ==> result == ValueOf(text)
  {
    result := 0;
    for i := 0 to |text|
      invariant result == ValueOf(text[..i]) <= U64_MAX
    {
      assert text[..i + 1][..i] == text[..i];
      var next := 10 * result + DigitValue(text[i]);
      assert next == ValueOf(text[..i + 1]);
      if next > U64_MAX {
        PrefixValue(text, i + 1);
        return false, 0;
      }
      result := next;
    }
    assert text[..|text|] == text;
    ok := true;
  }

  lemma {:induction false} PrefixValue(s: string, i: nat)
    requires AllDigits(s) && i <= |s|
    ensures ValueOf(s[..i]) <= ValueOf(s)
  {
    if i < |s| {
      PrefixValue(s[..|s| - 1], i);
      assert s[..|s| - 1][..i] == s[..i];
    } else {
      assert s[..i] == s;
    }
  }

  method CanonicalU64(text: string) returns (ok: bool, result: nat)
    ensures ok <==> exists n: nat :: n <= U64_MAX && text == Text(n)
    ensures ok ==> result <= U64_MAX && text == Text(result)
  {
    U64Texts(text);
    if text == [] || |text| > 20 || (|text| > 1 && text[0] == '0') {
      return false, 0;
    }
    for i := 0 to |text|
      invariant AllDigits(text[..i])
    {
      if !IsDigit(text[i]) {
        return false, 0;
      }
    }
    assert text[..|text|] == text;
    ok, result := FromChars(text);
  }

  /** What all gates admit, stated once: the printed form of some uint64. */
  predicate IsU64Text(s: string) {
    Canonical(s) && |s| <= 20 && ValueOf(s) <= U64_MAX
  }

  lemma U64Texts(s: string)
    ensures IsU64Text(s) <==> exists n: nat :: n <= U64_MAX && s == Text(n)
    ensures IsU64Text(s) ==> s == Text(ValueOf(s))
  {
    if IsU64Text(s) {
      PrintOfParse(s);
    }
    if n: nat :| n <= U64_MAX && s == Text(n) {
      TextIsCanonical(n);
      ParseOfPrint(n);
      U64Length(n);
    }
  }

  // ---------------------------------------------------------------- the Python gates

  /** `canonical_id`: `str.isdigit` is false of the empty text. */
  predicate CanonicalId(s: string) {
    && Ascii(s) && (s != [] && AllDigits(s)) && |s| <= 20
    && (s == "0" || s[0] != '0')
    && ValueOf(s) <= U64_MAX
  }

  datatype IntegerError = NotAnInteger | NotCanonical | OutsideUint64

  /** `parse_canonical_integer` on ASCII text, where `str.isdigit` means decimal digits. */
  function ParseCanonicalInteger(s: string): Result<int, IntegerError>
    requires Ascii(s)
  {
    if s == [] then Refused(NotAnInteger)
    else if s[0] == '-' then
      var digits := s[1..];
      if digits == [] || !AllDigits(digits) || s[..2] == "-0" then Refused(NotCanonical)
      else Ok(-(ValueOf(digits) as int))
    else if !AllDigits(s) || (s[0] == '0' && s != "0") then Refused(NotCanonical)
    else Ok(ValueOf(s))
  }

  /** The uint64 fields of `validate_event`. */
  function ParseU64Field(s: string): Result<int, IntegerError>
    requires Ascii(s)
  {
    var parsed := ParseCanonicalInteger(s);
    if parsed.Ok? && !(0 <= parsed.value <= U64_MAX) then Refused(OutsideUint64) else parsed
  }

  lemma {:induction false} NonzeroDigits(s: string)
    requires s != [] && AllDigits(s) && s[0] != '0'
    ensures ValueOf(s) > 0
  {
    if |s| > 1 {
      NonzeroDigits(s[..|s| - 1]);
    }
  }

  /** On ASCII text the three gates admit the same texts, and read the same number from them. */
  lemma GatesAgree(s: string)
    requires Ascii(s)
    ensures CanonicalId(s) <==> exists n: nat :: n <= U64_MAX && s == Text(n)
    ensures ParseU64Field(s).Ok? <==> exists n: nat :: n <= U64_MAX && s == Text(n)
    ensures ParseU64Field(s).Ok? ==> ParseU64Field(s).value >= 0 && s == Text(ParseU64Field(s).value)
    ensures forall n: nat | n <= U64_MAX && s == Text(n) :: ParseU64Field(s) == Ok(n)
  {
    U64Texts(s);
    if s != [] && s[0] != '-' && Canonical(s) && ValueOf(s) <= U64_MAX {
      PrintOfParse(s);
      U64Length(ValueOf(s));
    }
    if s != [] && s[0] == '-' && s[1..] != [] && AllDigits(s[1..]) && s[..2] != "-0" {
      assert s[..2] == [s[0], s[1]];
      NonzeroDigits(s[1..]);
    }
    forall n: nat | n <= U64_MAX && s == Text(n) ensures ValueOf(s) == n {
      ParseOfPrint(n);
    }
  }

  lemma DigitsAreAscii(s: string)
    requires AllDigits(s)
    ensures Ascii("-" + s)
  {
    forall i | 0 <= i < |"-" + s| ensures ("-" + s)[i] as int < 128 {
      assert i > 0 ==> IsDigit(s[i - 1]);
    }
  }

  /** Negative texts are canonical integers but no uint64. */
  lemma NegativesAreRefused(n: nat)
    requires n > 0
    ensures ParseCanonicalInteger("-" + Text(n)) == Ok(-(n as int))
    ensures ParseU64Field("-" + Text(n)) == Refused(OutsideUint64)
  {
    var s := "-" + Text(n);
    DigitsAreAscii(Text(n));
    ParseOfPrint(n);
    TextIsCanonical(n);
    assert s[1..] == Text(n);
    assert s[..2] == ['-', Text(n)[0]];
  }
}
