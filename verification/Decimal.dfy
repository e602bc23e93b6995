/** Decimal text: strconv.FormatInt, strconv.Itoa and strconv.ParseInt in base ten. */
module Decimal {
  import opened Text

  const INT64_MIN: int := -0x8000_0000_0000_0000
  const INT64_MAX: int := 0x7fff_ffff_ffff_ffff

  predicate IsInt64(n: int) {
    INT64_MIN <= n <= INT64_MAX
  }

  predicate IsDigit(c: char) {
    '0' <= c <= '9'
  }

  function DigitChar(d: nat): (c: char)
    requires d < 10
    ensures IsDigit(c)
  {
    '0' + d as char
  }

  function DigitValue(c: char): nat
    requires IsDigit(c)
  {
    (c - '0') as nat
  }

  predicate AllDigits(s: string) {
    forall i :: 0 <= i < |s| ==> IsDigit(s[i])
  }

  function FormatNat(n: nat): (s: string)
    ensures s != "" && AllDigits(s)
  {
    if n < 10 then [DigitChar(n)] else FormatNat(n / 10) + [DigitChar(n % 10)]
  }

  function FormatInt(n: int): string {
    if n < 0 then "-" + FormatNat(-n) else FormatNat(n)
  }

  function DigitsValue(s: string): nat
    requires AllDigits(s)
  {
    if s == "" then 0 else 10 * DigitsValue(s[..|s| - 1]) + DigitValue(s[|s| - 1])
  }

  /** strconv.ParseInt(s, 10, 64): an optional sign, at least one digit, nothing else, and a value that fits. */
  function ParseInt(s: string): (r: Option<int>)
    ensures r.Some? ==> IsInt64(r.value)
  {
    var signed := s != "" && (s[0] == '+' || s[0] == '-');
    var digits := if signed then s[1..] else s;
    if digits == "" || !AllDigits(digits) then None
    else
      var magnitude: int := DigitsValue(digits);
      var n := if signed && s[0] == '-' then -magnitude else magnitude;
      if IsInt64(n) then Some(n) else None
  }

  lemma {:induction false} FormatNatValue(n: nat)
    ensures DigitsValue(FormatNat(n)) == n
  {
    var s := FormatNat(n);
    if n < 10 {
      assert s[..0] == "";
    } else {
      FormatNatValue(n / 10);
      assert s[..|s| - 1] == FormatNat(n / 10);
    }
  }

  /** Printing and parsing a 64-bit integer is the identity. */
  lemma FormatParse(n: int)
    requires IsInt64(n)
    ensures ParseInt(FormatInt(n)) == Some(n)
  {
    if n < 0 {
      FormatNatValue(-n);
      assert FormatInt(n)[1..] == FormatNat(-n);
    } else {
      FormatNatValue(n);
      assert IsDigit(FormatInt(n)[0]);
    }
  }

  lemma FormatNatInjective(m: nat, n: nat)
    requires FormatNat(m) == FormatNat(n)
    ensures m == n
  {
    FormatNatValue(m);
    FormatNatValue(n);
  }

  lemma FormatIntInjective(m: int, n: int)
    requires FormatInt(m) == FormatInt(n)
    ensures m == n
  {
    assert FormatInt(m)[0] == '-' <==> m < 0;
    assert FormatInt(n)[0] == '-' <==> n < 0;
    if m < 0 {
      assert FormatInt(m)[1..] == FormatNat(-m) && FormatInt(n)[1..] == FormatNat(-n);
      FormatNatInjective(-m, -n);
    } else {
      FormatNatInjective(m, n);
    }
  }

  lemma ParsesUnsigned(n: nat)
    ensures ParseInt(FormatNat(n)) == if n <= 9_223_372_036_854_775_807 then Some(n) else None
  {
    FormatNatValue(n);
    assert IsDigit(FormatNat(n)[0]);
  }

  lemma ParsesPlus(n: nat)
    ensures ParseInt("+" + FormatNat(n)) == if n <= 9_223_372_036_854_775_807 then Some(n) else None
  {
    FormatNatValue(n);
    assert ("+" + FormatNat(n))[1..] == FormatNat(n);
  }

  lemma ParsesMinus(n: nat)
    ensures ParseInt("-" + FormatNat(n)).Some? <==> n <= 9_223_372_036_854_775_808
    ensures ParseInt("-" + FormatNat(n)).Some? ==> ParseInt("-" + FormatNat(n)).value + n == 0
  {
    FormatNatValue(n);
    assert ("-" + FormatNat(n))[1..] == FormatNat(n);
  }

  /** Leading zeros are allowed, and nothing else than digits after an optional sign is. */
  lemma ParsesDigitsOnly(s: string)
    ensures s != "" && AllDigits(s) ==> ParseInt("0" + s) == ParseInt(s)
    ensures ParseInt(s).Some? ==>
              s != "" && (AllDigits(s) || ((s[0] == '+' || s[0] == '-') && |s| > 1 && AllDigits(s[1..])))
  {
    if s != "" && AllDigits(s) {
      ZeroFirst(s);
      assert AllDigits("0" + s);
    }
  }

  lemma {:induction false} ZeroFirst(s: string)
    requires AllDigits(s)
    ensures AllDigits("0" + s) && DigitsValue("0" + s) == DigitsValue(s)
  {
    if s == "" {
      assert ("0" + s)[..0] == "";
    } else {
      ZeroFirst(s[..|s| - 1]);
      assert ("0" + s)[..|s|] == "0" + s[..|s| - 1];
    }
  }

  /** The digits themselves. */
  lemma Digits()
    ensures FormatNat(1234567890) == "1234567890"
  {
    assert FormatNat(12345) == "12345";
  }
}
