/** `strconv.FormatInt(n, 10)` and `strconv.ParseInt(s, 10, 64)`. */
module Decimal {
  import opened Options

  const MAX_INT64: int := 0x7FFF_FFFF_FFFF_FFFF

  function DigitChar(d: nat): (c: char)
    requires d < 10
  {
    '0' + (d as char)
  }

  predicate IsDigit(c: char) {
    '0' <= c <= '9'
  }

  function DigitValue(c: char): (d: nat)
    requires IsDigit(c)
    ensures d < 10 && DigitChar(d) == c
  {
    (c - '0') as nat
  }

  predicate AllDigits(s: string) {
    forall i :: 0 <= i < |s| ==> IsDigit(s[i])
  }

  function FormatNat(n: nat): (s: string)
    ensures s != [] && AllDigits(s)
  {
    if n < 10 then [DigitChar(n)] else FormatNat(n / 10) + [DigitChar(n % 10)]
  }

  function FormatInt(n: int): string {
    if n < 0 then "-" + FormatNat(-n) else FormatNat(n)
  }

  function DigitsValue(s: string): nat
    requires AllDigits(s)
  {
    if s == [] then 0 else 10 * DigitsValue(s[..|s| - 1]) + DigitValue(s[|s| - 1])
  }

  /** A sign is optional, at least one digit is not, and the value must fit in an int64. */
  function ParseInt(s: string): Option<int> {
    if s == [] then None
    else
      var negative := s[0] == '-';
      var digits := if s[0] == '+' || s[0] == '-' then s[1..] else s;
      if digits == [] || !AllDigits(digits) then None
      else
        var n: int := DigitsValue(digits);
        if negative then if n > MAX_INT64 + 1 then None else Some(-n)
        else if n > MAX_INT64 then None else Some(n)
  }

  lemma {:induction false} FormatNatValue(n: nat)
    ensures DigitsValue(FormatNat(n)) == n
  {
    if n < 10 {
      assert FormatNat(n)[..0] == [];
    } else {
      FormatNatValue(n / 10);
      var s := FormatNat(n);
      assert s[..|s| - 1] == FormatNat(n / 10);
    }
  }

  /** A printed offset parses back to itself. */
  lemma FormatParses(n: nat)
    requires n <= MAX_INT64
    ensures ParseInt(FormatInt(n)) == Some(n)
  {
    FormatNatValue(n);
    assert IsDigit(FormatNat(n)[0]);
  }

  /** No sign and no superfluous zero: the shape of every printed offset. */
  predicate Canonical(s: string) {
    s != [] && AllDigits(s) && (s[0] == '0' ==> |s| == 1)
  }

  lemma {:induction false} FormatIsCanonical(n: nat)
    ensures Canonical(FormatNat(n))
    ensures n > 0 ==> FormatNat(n)[0] != '0'
  {
    if n >= 10 {
      FormatIsCanonical(n / 10);
    }
  }

  lemma OneMoreDigit(v: nat, d: nat)
    requires v > 0 && d < 10
    ensures FormatNat(10 * v + d) == FormatNat(v) + [DigitChar(d)]
  {
    assert (10 * v + d) / 10 == v && (10 * v + d) % 10 == d;
  }

  lemma {:induction false} CanonicalIsFormat(s: string)
    requires Canonical(s)
    ensures FormatNat(DigitsValue(s)) == s
    decreases |s|
  {
    var k := |s| - 1;
    var front := s[..k];
    assert front + [s[k]] == s;
    if k == 0 {
      assert DigitsValue(front) == 0;
    } else {
      hide FormatNat;
      assert front[0] == s[0];
      CanonicalIsFormat(front);
      NonZero(front);
      OneMoreDigit(DigitsValue(front), DigitValue(s[k]));
    }
  }

  /** Only "0" stands for zero. */
  lemma NonZero(s: string)
    requires Canonical(s) && s[0] != '0' && FormatNat(DigitsValue(s)) == s
    ensures DigitsValue(s) > 0
  {}

  /** The strings that are some printed offset are exactly the canonical ones that parse. */
  lemma PrintedExactly(s: string)
    ensures (exists n: nat :: n <= MAX_INT64 && s == FormatInt(n)) <==> Canonical(s) && ParseInt(s) != None
  {
    if n: nat :| n <= MAX_INT64 && s == FormatInt(n) {
      FormatIsCanonical(n);
      FormatParses(n);
    }
    if Canonical(s) && ParseInt(s) != None {
      CanonicalIsFormat(s);
      assert IsDigit(s[0]);
      var n := DigitsValue(s);
      assert n <= MAX_INT64 && s == FormatInt(n);
    }
  }

  // ----- Which strings parse, and to what

  function Zeros(k: nat): (s: string)
    ensures |s| == k && forall i :: 0 <= i < k ==> s[i] == '0'
  {
    seq(k, _ => '0')
  }

  lemma {:induction false} LeadingZero(t: string)
    requires AllDigits(t)
    ensures DigitsValue("0" + t) == DigitsValue(t)
    decreases |t|
  {
    var s := "0" + t;
    if t == [] {
      assert s[..0] == [];
    } else {
      var k := |t| - 1;
      assert s[..|s| - 1] == "0" + t[..k];
      LeadingZero(t[..k]);
    }
  }

  lemma {:induction false} LeadingZeros(k: nat, t: string)
    requires AllDigits(t)
    ensures DigitsValue(Zeros(k) + t) == DigitsValue(t)
  {
    if k == 0 {
      assert Zeros(0) + t == t;
    } else {
      LeadingZeros(k - 1, t);
      LeadingZero(Zeros(k - 1) + t);
      assert Zeros(k) + t == "0" + (Zeros(k - 1) + t);
    }
  }

  /** Digits are some zeros before the printed form of their value. */
  lemma {:induction false} DigitsAreZerosAndFormat(s: string) returns (k: nat)
    requires s != [] && AllDigits(s)
    ensures s == Zeros(k) + FormatNat(DigitsValue(s))
    decreases |s|
  {
    if Canonical(s) {
      CanonicalIsFormat(s);
      k := 0;
    } else {
      var i := DigitsAreZerosAndFormat(s[1..]);
      assert s == "0" + s[1..];
      LeadingZero(s[1..]);
      k := i + 1;
      assert Zeros(k) == "0" + Zeros(i);
    }
  }

  /** A sign or none, any number of zeros, and the digits that print the magnitude. */
  predicate Spells(s: string, sign: string, k: nat, n: int) {
    && (sign == "" || sign == "+" || sign == "-")
    && (if sign == "-" then n <= 0 else n >= 0)
    && s == sign + Zeros(k) + FormatNat(if n < 0 then -n else n)
  }

  lemma ParsedParts(s: string, n: int) returns (sign: string, digits: string)
    requires ParseInt(s) == Some(n)
    ensures s == sign + digits && digits != [] && AllDigits(digits)
    ensures sign == "" || sign == "+" || sign == "-"
    ensures var v: int := DigitsValue(digits); n == if sign == "-" then -v else v
    ensures -MAX_INT64 - 1 <= n <= MAX_INT64
  {
    hide DigitsValue;
    if s[0] == '+' || s[0] == '-' {
      sign, digits := [s[0]], s[1..];
    } else {
      sign, digits := "", s;
    }
    assert s == sign + digits;
  }

  lemma ParsedIsSpelled(s: string, n: int) returns (sign: string, k: nat)
    requires ParseInt(s) == Some(n)
    ensures Spells(s, sign, k, n) && -MAX_INT64 - 1 <= n <= MAX_INT64
  {
    hide ParseInt, FormatNat, DigitsValue, AllDigits;
    var digits;
    sign, digits := ParsedParts(s, n);
    k := DigitsAreZerosAndFormat(digits);
    var f := FormatNat(DigitsValue(digits));
    assert sign + (Zeros(k) + f) == sign + Zeros(k) + f;
  }

  lemma SpelledParses(s: string, sign: string, k: nat, n: int)
    requires Spells(s, sign, k, n) && -MAX_INT64 - 1 <= n <= MAX_INT64
    ensures ParseInt(s) == Some(n)
  {
    hide FormatNat, DigitsValue;
    var m: nat := if n < 0 then -n else n;
    var digits := Zeros(k) + FormatNat(m);
    LeadingZeros(k, FormatNat(m));
    FormatNatValue(m);
    assert s == sign + digits && AllDigits(digits) && IsDigit(digits[0]);
    if sign == "" {
      assert s == digits;
    } else {
      assert s[0] == sign[0] && s[1..] == digits;
    }
  }

  /** The strings that parse to an int64 are exactly its spellings; all others parse to nothing. */
  lemma ParsesExactly(s: string, n: int)
    ensures ParseInt(s) == Some(n) <==>
            -0x8000_0000_0000_0000 <= n <= 0x7FFF_FFFF_FFFF_FFFF && exists sign, k :: Spells(s, sign, k, n)
  {
    hide ParseInt, Spells;
    if ParseInt(s) == Some(n) {
      var sign, k := ParsedIsSpelled(s, n);
    }
    if -MAX_INT64 - 1 <= n <= MAX_INT64 {
      if sign, k :| Spells(s, sign, k, n) {
        SpelledParses(s, sign, k, n);
      }
    }
  }

  function Power10(k: nat): nat {
    if k == 0 then 1 else 10 * Power10(k - 1)
  }

  /** The value of digits is positional. */
  lemma {:induction false} Positional(a: string, b: string)
    requires AllDigits(a) && AllDigits(b)
    ensures DigitsValue(a + b) == DigitsValue(a) * Power10(|b|) + DigitsValue(b)
    decreases |b|
  {
    if b == [] {
      assert a + b == a;
    } else {
      var k := |b| - 1;
      Positional(a, b[..k]);
      LastDigit(a + b);
      LastDigit(b);
      assert (a + b)[..|a + b| - 1] == a + b[..k];
      hide DigitsValue;
      TenTimes(DigitsValue(a), Power10(k), DigitsValue(b[..k]));
    }
  }

  lemma LastDigit(s: string)
    requires s != [] && AllDigits(s)
    ensures DigitsValue(s) == 10 * DigitsValue(s[..|s| - 1]) + DigitValue(s[|s| - 1])
  {}

  lemma TenTimes(v: nat, p: nat, w: nat)
    ensures 10 * (v * p + w) == v * (10 * p) + 10 * w
  {}
}
