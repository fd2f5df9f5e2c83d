/** Decimal numbers as Go's strconv and fmt read and print them. */
module Strconv {
  import opened Options

  const MAX_INT64: int := 0x7fff_ffff_ffff_ffff
  const MIN_INT64: int := -0x8000_0000_0000_0000

  predicate IsDigit(c: char) { '0' <= c <= '9' }

  function DigitValue(c: char): nat { if IsDigit(c) then c as nat - '0' as nat else 0 }

  function DigitChar(d: nat): char
    requires d < 10
  {
    ('0' as nat + d) as char
  }

  function Digits(s: string): nat {
    if s == "" then 0 else Digits(s[..|s| - 1]) * 10 + DigitValue(s[|s| - 1])
  }

  /** The decimal form of a number, as %d prints it. */
  function Decimal(n: nat): (s: string)
    ensures s != "" && forall c <- s :: IsDigit(c)
  {
    if n < 10 then [DigitChar(n)] else Decimal(n / 10) + [DigitChar(n % 10)]
  }

  /** strconv.ParseInt in base 10 and 64 bits: an optional sign, at least one digit, and a value in range. */
  function ParseInt(s: string): (r: Option<int>)
    ensures r.Some? ==> MIN_INT64 <= r.value <= MAX_INT64
  {
    var signed := s != "" && (s[0] == '-' || s[0] == '+');
    var digits := if signed then s[1..] else s;
    if digits == "" || exists c <- digits :: !IsDigit(c) then None
    else
      var n: int := Digits(digits);
      var value := if s[0] == '-' then -n else n;
      if MIN_INT64 <= value <= MAX_INT64 then Some(value) else None
  }

  lemma {:induction false} DigitsOfDecimal(n: nat)
    ensures Digits(Decimal(n)) == n
  {
    if n < 10 {
      assert Decimal(n)[..0] == "";
    } else {
      DigitsOfDecimal(n / 10);
      assert Decimal(n)[..|Decimal(n)| - 1] == Decimal(n / 10);
    }
  }

  lemma ParseDecimal(n: nat)
    ensures ParseInt(Decimal(n)) == if n <= MAX_INT64 then Some(n) else None
  {
    DigitsOfDecimal(n);
    assert Decimal(n)[0] in Decimal(n);
  }

  lemma NoDigit(n: nat, c: char)
    requires !IsDigit(c)
    ensures c !in Decimal(n)
  {}

  function TenTo(k: nat): nat { if k == 0 then 1 else 10 * TenTo(k - 1) }

  /** Read from the left: the leading digit counts for a power of ten as high as there are digits behind it. */
  lemma {:induction false} LeadingDigit(s: string)
    requires s != "" && '0' <= s[0] <= '9'
    ensures Digits(s) == (s[0] as nat - '0' as nat) * TenTo(|s| - 1) + Digits(s[1..])
    decreases |s|
  {
    var n := |s| - 1;
    if n > 0 {
      LeadingDigit(s[..n]);
      assert s[..n][1..] == s[1..][..n - 1] && s[1..][n - 1] == s[n];
      Shift(DigitValue(s[0]), TenTo(n - 1), Digits(s[..n][1..]), DigitValue(s[n]));
    } else {
      assert s[..0] == "" && s[1..] == "";
    }
  }

  lemma Shift(d: nat, unit: nat, rest: nat, last: nat)
    ensures (d * unit + rest) * 10 + last == d * (10 * unit) + (rest * 10 + last)
  {
    assert d * (10 * unit) == 10 * (d * unit);
  }

  /** Numbers are printed without leading zeros. */
  lemma {:induction false} NoLeadingZero(n: nat)
    ensures Decimal(n)[0] == '0' ==> n == 0
  {
    if n >= 10 { NoLeadingZero(n / 10); }
  }
}
