/** strconv.Itoa and strconv.Atoi. */
module Decimal {
  import opened Basics
  import opened Text

  const MIN_INT: int := -0x8000_0000_0000_0000
  const MAX_INT: int := 0x7fff_ffff_ffff_ffff

  /** A 64-bit Go int. */
  type Int64 = x: int | MIN_INT <= x <= MAX_INT

  predicate IsDigit(c: char) {
    '0' <= c <= '9'
  }

  function DigitOf(d: nat): (c: char)
    requires d < 10
    ensures IsDigit(c)
  {
    '0' + d as char
  }

  function DigitsOf(n: nat): (s: string)
    ensures |s| > 0
  {
    if n < 10 then [DigitOf(n)] else DigitsOf(n / 10) + [DigitOf(n % 10)]
  }

  function ValueOf(s: string): nat
    requires forall i | 0 <= i < |s| :: IsDigit(s[i])
  {
    if s == [] then 0
    else
      var last := s[|s| - 1];
      assert IsDigit(last);
      ValueOf(s[..|s| - 1]) * 10 + (last - '0') as nat
  }

  function Itoa(n: int): (s: string)
    ensures |s| > 0
  {
    if n < 0 then "-" + DigitsOf(-n) else DigitsOf(n)
  }

  predicate AllDigits(s: string) {
    s != [] && forall i | 0 <= i < |s| :: IsDigit(s[i])
  }

  function InRange(n: int): Option<Int64> {
    if MIN_INT <= n <= MAX_INT then Some(n) else None
  }

  function Negated(n: int): int {
    -n
  }

  /** An optional sign and at least one digit, within 64 bits. */
  function Atoi(s: string): Option<Int64> {
    if s == [] then None
    else if s[0] == '-' then (if AllDigits(s[1..]) then InRange(Negated(ValueOf(s[1..]))) else None)
    else if s[0] == '+' then (if AllDigits(s[1..]) then InRange(ValueOf(s[1..])) else None)
    else if AllDigits(s) then InRange(ValueOf(s))
    else None
  }

  lemma {:induction false} DigitsRoundTrip(n: nat)
    ensures AllDigits(DigitsOf(n)) && ValueOf(DigitsOf(n)) == n
  {
    if n >= 10 {
      DigitsRoundTrip(n / 10);
      var s := DigitsOf(n);
      assert s[..|s| - 1] == DigitsOf(n / 10);
    } else {
      assert DigitsOf(n)[..0] == [];
    }
  }

  /** Every Go int reads back. */
  lemma AtoiOfItoa(n: Int64)
    ensures Atoi(Itoa(n)) == Some(n)
  {
    if n < 0 {
      DigitsRoundTrip(Negated(n));
      assert Itoa(n)[1..] == DigitsOf(Negated(n));
    } else {
      DigitsRoundTrip(n);
      assert IsDigit(Itoa(n)[0]);
    }
  }

  function PowerOfTen(n: nat): nat {
    if n == 0 then 1 else 10 * PowerOfTen(n - 1)
  }

  lemma TenTimes(d: nat, p: nat)
    ensures d * (10 * p) == (d * p) * 10
  {
  }

  /** Digits count from the left, each ten times the next: "7" is seven, "70" is seventy. */
  lemma {:induction false} DigitsArePlaces(s: string)
    requires s != [] && AllDigits(s)
    ensures ValueOf(s) == (s[0] - '0') as nat * PowerOfTen(|s| - 1) + ValueOf(s[1..])
  {
    if |s| == 1 {
      assert s[..0] == [] && s[1..] == [];
    } else {
      var front, last := s[..|s| - 1], s[|s| - 1];
      DigitsArePlaces(front);
      assert s[1..][..|s[1..]| - 1] == front[1..];
      assert s[1..][|s[1..]| - 1] == last;
      TenTimes((s[0] - '0') as nat, PowerOfTen(|front| - 1));
    }
  }

  /** What reads as a number: digits, with at most one sign before them, and no more than 64 bits hold. */
  lemma AtoiReads(digits: string)
    requires AllDigits(digits)
    ensures Atoi(digits) == InRange(ValueOf(digits)) && Atoi("+" + digits) == InRange(ValueOf(digits))
    ensures Atoi("-" + digits) == InRange(-(ValueOf(digits) as int))
  {
    assert ("+" + digits)[1..] == digits && ("-" + digits)[1..] == digits;
  }

  lemma AtoiRefuses(s: string)
    requires !AllDigits(s) && !(s != [] && s[0] in "+-" && AllDigits(s[1..]))
    ensures Atoi(s) == None
  {
  }

  lemma ItoaInjective(m: nat, n: nat)
    requires Itoa(m) == Itoa(n)
    ensures m == n
  {
    DigitsRoundTrip(m);
    DigitsRoundTrip(n);
  }

  /** Only digits and a sign: nothing that trimming, quotes or line breaks could touch. */
  lemma ItoaPlain(n: int)
    ensures OneLine(Itoa(n)) && Trimmed(Itoa(n), Spaces) && Trimmed(Itoa(n), Quotes)
  {
    var digits := DigitsOf(if n < 0 then -n else n);
    DigitsRoundTrip(if n < 0 then -n else n);
    assert forall i | 0 <= i < |Itoa(n)| :: IsDigit(Itoa(n)[i]) || Itoa(n)[i] == '-';
  }
}
