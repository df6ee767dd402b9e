/** Decimal printing and parsing as Go's strconv does it for base 10 and 64 bits. */
module Strconv {
  import opened Common

  const MAX_INT64 := 0x7fff_ffff_ffff_ffff
  const MIN_INT64 := -0x8000_0000_0000_0000

  predicate IsDigit(c: char) {
    '0' <= c <= '9'
  }

  predicate AllDigits(s: string) {
    forall i :: 0 <= i < |s| ==> IsDigit(s[i])
  }

  function DigitOf(n: nat): (c: char)
    requires n < 10
    ensures IsDigit(c)
  {
    '0' + n as char
  }

  function ValueOf(c: char): (n: nat)
    requires IsDigit(c)
    ensures n < 10
  {
    (c - '0') as int
  }

  /** The number that a string of digits denotes. */
  function Value(s: string): nat
    requires AllDigits(s)
  {
    if s == "" then 0 else 10 * Value(s[..|s| - 1]) + ValueOf(s[|s| - 1])
  }

  function FormatNat(n: nat): (s: string)
    ensures s != "" && AllDigits(s)
  {
    if n < 10 then [DigitOf(n)] else FormatNat(n / 10) + [DigitOf(n % 10)]
  }

  /** strconv.FormatInt with base 10. */
  function FormatInt(n: int): string {
    if n < 0 then "-" + FormatNat(-n) else FormatNat(n)
  }

  function Unsigned(s: string): Option<nat> {
    if s == "" || !AllDigits(s) then None else Some(Value(s))
  }

  function Signed(negative: bool, size: int): int {
    if negative then -size else size
  }

  /** strconv.ParseInt with base 10 and 64 bits; it accepts a plus sign and leading zeros. */
  function ParseInt(s: string): (r: Option<int>)
    ensures r.Some? ==> MIN_INT64 <= r.value <= MAX_INT64
  {
    if s == "" then None
    else
      var negative := s[0] == '-';
      match Unsigned(if negative || s[0] == '+' then s[1..] else s)
      case None => None
      case Some(size) =>
        var n := Signed(negative, size);
        if MIN_INT64 <= n <= MAX_INT64 then Some(n) else None
  }

  lemma {:induction false} FormatNatValue(n: nat)
    ensures Value(FormatNat(n)) == n
  {
    if n >= 10 {
      FormatNatValue(n / 10);
      var s := FormatNat(n);
      assert s[..|s| - 1] == FormatNat(n / 10);
    } else {
      assert FormatNat(n)[..0] == "";
    }
  }

  lemma ParseUnsigned(s: string)
    requires s != "" && AllDigits(s) && Value(s) <= MAX_INT64
    ensures ParseInt(s) == Some(Value(s))
  {
    assert IsDigit(s[0]);
  }

  lemma ParseNegative(s: string)
    requires s != "" && AllDigits(s) && Value(s) <= MAX_INT64 + 1
    ensures ParseInt("-" + s) == Some(Signed(true, Value(s)))
  {
    assert ("-" + s)[1..] == s;
  }

  /** What FormatInt prints, ParseInt reads back, over the whole 64-bit range. */
  lemma ParseFormat(n: int)
    requires MIN_INT64 <= n <= MAX_INT64
    ensures ParseInt(FormatInt(n)) == Some(n)
  {
    if n < 0 {
      FormatNatValue(-n);
      ParseNegative(FormatNat(-n));
    } else {
      FormatNatValue(n);
      ParseUnsigned(FormatNat(n));
    }
  }

  lemma FormatIntHasNo(n: int, c: char)
    requires c != '-' && !IsDigit(c)
    ensures c !in FormatInt(n)
  {
    var s := FormatNat(if n < 0 then -n else n);
    forall i | 0 <= i < |s| ensures s[i] != c {
      assert IsDigit(s[i]);
    }
  }

  lemma {:induction false} LeadingDigitCounts(s: string)
    requires s != "" && AllDigits(s) && s[0] != '0'
    ensures Value(s) > 0
  {
    if |s| > 1 { LeadingDigitCounts(s[..|s| - 1]); }
  }

  /** The print of a number is the one way to write it in digits without a leading zero. */
  lemma {:induction false} FormatNatExactly(n: nat, s: string)
    ensures s == FormatNat(n) <==> s != "" && AllDigits(s) && Value(s) == n && (|s| > 1 ==> s[0] != '0')
  {
    if s != "" && AllDigits(s) {
      if |s| == 1 {
        FormatNatValue(n);
        assert Value(s[..0]) == 0;
      } else {
        FormatNatExactly(n / 10, s[..|s| - 1]);
        if s == FormatNat(n) {
          FormatNatValue(n);
          assert s[..|s| - 1] == FormatNat(n / 10);
          assert |s| == 2 ==> n / 10 > 0;
        }
        if s[0] != '0' && Value(s) == n {
          LeadingDigitCounts(s[..|s| - 1]);
          assert s == s[..|s| - 1] + [s[|s| - 1]];
        }
      }
    }
  }

  /** A sign or none, at least one digit, leading zeros as one likes, and a value that fits 64 bits. */
  ghost predicate Spells(s: string, n: int, digits: string) {
    && digits != "" && AllDigits(digits)
    && (((s == digits || s == "+" + digits) && n == Value(digits))
        || (s == "-" + digits && n == Signed(true, Value(digits))))
  }

  lemma ParseIntExactly(s: string, n: int)
    ensures ParseInt(s) == Some(n)
            <==> -0x8000_0000_0000_0000 <= n < 0x8000_0000_0000_0000 && exists digits :: Spells(s, n, digits)
  {
    if ParseInt(s) == Some(n) {
      var digits := if s[0] == '-' || s[0] == '+' then s[1..] else s;
      assert s == [s[0]] + s[1..];
      assert Spells(s, n, digits);
    }
    if digits :| Spells(s, n, digits) {
      assert IsDigit(digits[0]);
      assert s != digits ==> s[1..] == digits;
    }
  }

  // ---- fixed width --------------------------------------------------------------------------------

  /** A number with leading zeros, as %0wd prints it when it fits. */
  function Padded(n: nat, width: nat): (s: string)
    ensures |s| == width && AllDigits(s)
  {
    if width == 0 then "" else Padded(n / 10, width - 1) + [DigitOf(n % 10)]
  }

  function Pow10(width: nat): nat {
    if width == 0 then 1 else 10 * Pow10(width - 1)
  }

  lemma {:induction false} PaddedValue(n: nat, width: nat)
    requires n < Pow10(width)
    ensures Value(Padded(n, width)) == n
  {
    if width > 0 {
      PaddedValue(n / 10, width - 1);
      assert Padded(n, width)[..width - 1] == Padded(n / 10, width - 1);
    }
  }

  lemma {:induction false} ValuePadded(s: string)
    requires AllDigits(s)
    ensures Value(s) < Pow10(|s|) && Padded(Value(s), |s|) == s
  {
    if s != "" {
      ValuePadded(s[..|s| - 1]);
      assert s == s[..|s| - 1] + [s[|s| - 1]];
    }
  }
}
