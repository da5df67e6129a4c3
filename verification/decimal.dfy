/** Decimal text of machine integers: the `{}` formatting of an integer, and
    Rust's `usize::from_str`, which `value_t_or_exit!` applies to option values.
    `usize` is taken to be 64 bits wide. */
module Decimal {
  import opened Wrappers

  const USIZE_MAX: nat := 0xFFFF_FFFF_FFFF_FFFF

  type Usize = n: nat | n <= USIZE_MAX

  predicate IsDigit(c: char) {
    '0' <= c <= '9'
  }

  predicate AllDigits(s: string) {
    forall i :: 0 <= i < |s| ==> IsDigit(s[i])
  }

  function DigitChar(d: nat): (c: char)
    requires d < 10
    ensures IsDigit(c)
  {
    ('0' as int + d) as char
  }

  function DigitValue(c: char): (d: nat)
    requires IsDigit(c)
    ensures d < 10 && DigitChar(d) == c
  {
    c as int - '0' as int
  }

  /** The value of a string of decimal digits, most significant first. */
  function ValueOfDigits(s: string): nat
    requires AllDigits(s)
  {
    if s == [] then 0 else ValueOfDigits(s[..|s| - 1]) * 10 + DigitValue(s[|s| - 1])
  }

  /** Canonical decimal text: digits only, and no leading zero except in "0". */
  predicate IsCanonical(s: string) {
    |s| >= 1 && AllDigits(s) && (s[0] == '0' ==> |s| == 1)
  }

  /** What `format!("{}", n)` prints for a non-negative integer. */
  function ToDecimal(n: nat): string {
    if n < 10 then [DigitChar(n)] else ToDecimal(n / 10) + [DigitChar(n % 10)]
  }

  /** The formatted text is canonical, and starts with '0' only for zero. */
  lemma {:induction false} ToDecimalIsCanonical(n: nat)
    ensures IsCanonical(ToDecimal(n))
    ensures ToDecimal(n)[0] == '0' <==> n == 0
  {
    if n >= 10 {
      var init := ToDecimal(n / 10);
      ToDecimalIsCanonical(n / 10);
      assert ToDecimal(n) == init + [DigitChar(n % 10)];
      assert ToDecimal(n)[0] == init[0];
    }
  }

  /** `usize::from_str`: an optional '+' sign, then at least one ASCII digit,
      and a value that fits in 64 bits; anything else is an error. */
  function ParseUsize(s: string): (r: Option<Usize>)
    ensures r.Some? ==> |s| >= 1 && IsDigit(s[|s| - 1])
    ensures r.Some? ==> forall i :: 0 <= i < |s| ==> IsDigit(s[i]) || (i == 0 && s[i] == '+')
    ensures |s| >= 1 && AllDigits(s) && ValueOfDigits(s) <= USIZE_MAX ==> r == Some(ValueOfDigits(s))
    ensures |s| >= 2 && s[0] == '+' && AllDigits(s[1..]) && ValueOfDigits(s[1..]) <= USIZE_MAX ==>
              r == Some(ValueOfDigits(s[1..]))
    ensures |s| >= 1 && AllDigits(s) && ValueOfDigits(s) > USIZE_MAX ==> r.None?
    ensures |s| >= 2 && s[0] == '+' && AllDigits(s[1..]) && ValueOfDigits(s[1..]) > USIZE_MAX ==> r.None?
  {
    var digits := if |s| > 0 && s[0] == '+' then s[1..] else s;
    if |digits| == 0 || !AllDigits(digits) then None
    else if ValueOfDigits(digits) > USIZE_MAX then None
    else Some(ValueOfDigits(digits))
  }

  lemma {:induction false} ValueOfToDecimal(n: nat)
    ensures IsCanonical(ToDecimal(n)) && ValueOfDigits(ToDecimal(n)) == n
  {
    ToDecimalIsCanonical(n);
    if n >= 10 {
      var s := ToDecimal(n);
      ValueOfToDecimal(n / 10);
      assert s[..|s| - 1] == ToDecimal(n / 10);
    }
  }

  /** The leading digit alone never exceeds the value of the whole string. */
  lemma {:induction false} LeadingDigitBound(s: string)
    requires |s| >= 1 && AllDigits(s)
    ensures ValueOfDigits(s) >= DigitValue(s[0])
  {
    if |s| > 1 {
      LeadingDigitBound(s[..|s| - 1]);
    }
  }

  /** Canonical text is determined by its value. */
  lemma {:induction false} CanonicalIsToDecimal(s: string)
    requires IsCanonical(s)
    ensures ToDecimal(ValueOfDigits(s)) == s
  {
    var n := ValueOfDigits(s);
    if |s| > 1 {
      var init := s[..|s| - 1];
      assert IsCanonical(init);
      LeadingDigitBound(init);
      CanonicalIsToDecimal(init);
      assert n / 10 == ValueOfDigits(init) && n % 10 == DigitValue(s[|s| - 1]);
      assert init + [s[|s| - 1]] == s;
    }
  }

  /** Formatting then parsing gives the number back. */
  lemma ParseToDecimal(n: Usize)
    ensures ParseUsize(ToDecimal(n)) == Some(n)
  {
    ValueOfToDecimal(n);
  }

  /** The canonical texts the parser accepts are exactly the formatted numbers. */
  lemma ParseCanonicalIff(s: string, n: Usize)
    ensures (IsCanonical(s) && ParseUsize(s) == Some(n)) <==> s == ToDecimal(n)
  {
    if s == ToDecimal(n) {
      ToDecimalIsCanonical(n);
      ParseToDecimal(n);
    }
    if IsCanonical(s) && ParseUsize(s) == Some(n) {
      CanonicalIsToDecimal(s);
    }
  }

  /** `k` zero digits. */
  function Zeros(k: nat): (z: string)
    ensures |z| == k && AllDigits(z)
  {
    seq(k, _ => '0')
  }

  lemma {:induction false} ZerosValue(k: nat)
    ensures ValueOfDigits(Zeros(k)) == 0
  {
    if k > 0 {
      assert Zeros(k)[..k - 1] == Zeros(k - 1);
      ZerosValue(k - 1);
    }
  }

  /** Leading zeros do not change the value of digit text. */
  lemma {:induction false} LeadingZerosValue(k: nat, t: string)
    requires AllDigits(t)
    ensures AllDigits(Zeros(k) + t) && ValueOfDigits(Zeros(k) + t) == ValueOfDigits(t)
  {
    var u := Zeros(k) + t;
    if t == [] {
      assert u == Zeros(k);
      ZerosValue(k);
    } else {
      LeadingZerosValue(k, t[..|t| - 1]);
      assert u[..|u| - 1] == Zeros(k) + t[..|t| - 1];
      assert u[|u| - 1] == t[|t| - 1];
    }
  }

  /** How many leading zeros to drop from digit text to leave canonical text. */
  function LeadingZeroCount(d: string): (k: nat)
    requires |d| >= 1 && AllDigits(d)
    ensures k < |d| && d == Zeros(k) + d[k..] && IsCanonical(d[k..])
  {
    if |d| > 1 && d[0] == '0' then
      var k := 1 + LeadingZeroCount(d[1..]);
      assert d[1..] == Zeros(k - 1) + d[1..][k - 1..];
      assert d[1..][k - 1..] == d[k..];
      k
    else 0
  }

  /** Text that parses to `n` is `n` formatted, after the optional '+' and
      some leading zeros. */
  lemma ParsedTextIsPaddedDecimal(s: string, n: Usize) returns (sign: string, k: nat)
    requires ParseUsize(s) == Some(n)
    ensures (sign == "" || sign == "+") && s == sign + (Zeros(k) + ToDecimal(n))
  {
    sign := if s[0] == '+' then "+" else "";
    var digits := s[|sign|..];
    assert s == sign + digits;
    k := LeadingZeroCount(digits);
    var c := digits[k..];
    LeadingZerosValue(k, c);
    CanonicalIsToDecimal(c);
  }

  /** Digit text within 64 bits, after an optional '+', parses to its value. */
  lemma SignedDigitsParse(sign: string, d: string)
    requires sign == "" || sign == "+"
    requires |d| >= 1 && AllDigits(d) && ValueOfDigits(d) <= USIZE_MAX
    ensures ParseUsize(sign + d) == Some(ValueOfDigits(d))
  {
    if sign == "+" {
      assert (sign + d)[1..] == d;
    } else {
      assert sign + d == d;
    }
  }

  /** `n` formatted, after an optional '+' and any leading zeros, parses to `n`. */
  lemma PaddedDecimalParses(sign: string, k: nat, n: Usize)
    requires sign == "" || sign == "+"
    ensures ParseUsize(sign + (Zeros(k) + ToDecimal(n))) == Some(n)
  {
    ValueOfToDecimal(n);
    PaddedDigitsParse(sign, k, ToDecimal(n));
  }

  lemma PaddedDigitsParse(sign: string, k: nat, d: string)
    requires sign == "" || sign == "+"
    requires |d| >= 1 && AllDigits(d) && ValueOfDigits(d) <= USIZE_MAX
    ensures ParseUsize(sign + (Zeros(k) + d)) == Some(ValueOfDigits(d))
  {
    var digits := Zeros(k) + d;
    LeadingZerosValue(k, d);
    SignedDigitsParse(sign, digits);
  }

  /** The texts that parse to `n` are exactly `n` formatted, after an optional
      '+' and any number of leading zeros. */
  lemma ParseUsizeIff(s: string, n: Usize)
    ensures ParseUsize(s) == Some(n) <==>
              exists sign: string, k: nat :: (sign == "" || sign == "+") && s == sign + (Zeros(k) + ToDecimal(n))
  {
    if ParseUsize(s) == Some(n) {
      var sign, k := ParsedTextIsPaddedDecimal(s, n);
    }
    if exists sign: string, k: nat :: (sign == "" || sign == "+") && s == sign + (Zeros(k) + ToDecimal(n)) {
      var sign: string, k: nat :| (sign == "" || sign == "+") && s == sign + (Zeros(k) + ToDecimal(n));
      PaddedDecimalParses(sign, k, n);
    }
  }

  /** A '+' sign is accepted and contributes nothing; text too large for 64 bits
      is rejected. */
  lemma PlusSignAndOverflow()
    ensures ParseUsize("+7") == Some(7)
    ensures ParseUsize("+") == None && ParseUsize("") == None && ParseUsize("-1") == None
    ensures ParseUsize(ToDecimal(USIZE_MAX + 1)) == None
  {
    assert ToDecimal(7) == "7";
    PaddedDecimalParses("+", 0, 7);
    assert "+" + (Zeros(0) + ToDecimal(7)) == "+7";
    ValueOfToDecimal(USIZE_MAX + 1);
  }
}
