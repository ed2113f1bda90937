/** The part of Go's strconv package that the handlers rely on:
    ParseInt(s, 10, 64), which every handler uses to read an id, and
    Atoi, which on a 64-bit platform accepts exactly the same strings.
    FormatInt is its inverse on the int64 range. */
module Strconv {
  import opened Common

  const MinInt64: int := -0x8000_0000_0000_0000
  const MaxInt64: int := 0x7fff_ffff_ffff_ffff

  predicate InInt64(n: int) {
    MinInt64 <= n <= MaxInt64
  }

  predicate IsDigit(c: char) {
    '0' <= c <= '9'
  }

  predicate AllDigits(s: string) {
    forall i :: 0 <= i < |s| ==> IsDigit(s[i])
  }

  /** The value of a string of decimal digits, read left to right. */
  function DecimalValue(s: string): nat
    requires AllDigits(s)
  {
    if |s| == 0 then 0
    else DecimalValue(s[..|s| - 1]) * 10 + (s[|s| - 1] as int - '0' as int)
  }

  /** strconv.ParseInt(s, 10, 64). An optional '+' or '-' sign, then one or
      more decimal digits (base 10 admits no underscores); a value outside
      the int64 range is a range error. Every error is None here, since the
      handlers treat syntax and range errors alike. */
  function ParseInt(s: string): (r: Option<int>)
    ensures r.Some? ==> InInt64(r.value)
    ensures r.Some? ==> |s| > 0 && (r.value < 0 ==> s[0] == '-')
  {
    if |s| == 0 then None
    else
      var neg := s[0] == '-';
      var digits := if s[0] == '+' || s[0] == '-' then s[1..] else s;
      if |digits| == 0 || !AllDigits(digits) then None
      else
        var u: int := DecimalValue(digits);
        if neg then (if u <= 0x8000_0000_0000_0000 then Some(-u) else None)
        else if u <= MaxInt64 then Some(u)
        else None
  }

  /** The decimal digits of a natural number, most significant first. */
  function Digits(n: nat): (s: string)
    ensures |s| > 0 && AllDigits(s)
  {
    if n < 10 then [('0' as int + n) as char]
    else Digits(n / 10) + [('0' as int + n % 10) as char]
  }

  /** strconv.FormatInt(n, 10). */
  function FormatInt(n: int): string {
    if n < 0 then "-" + Digits(-n) else Digits(n)
  }

  lemma {:induction false} DigitsValue(n: nat)
    ensures DecimalValue(Digits(n)) == n
  {
    if n >= 10 {
      var s := Digits(n);
      assert s[..|s| - 1] == Digits(n / 10);
      DigitsValue(n / 10);
    }
  }

  /** Reading back what FormatInt wrote gives the same int64. */
  lemma ParseFormat(n: int)
    requires InInt64(n)
    ensures ParseInt(FormatInt(n)) == Some(n)
  {
    if n < 0 {
      DigitsValue(-n);
      assert FormatInt(n)[1..] == Digits(-n);
    } else {
      DigitsValue(n);
    }
  }

  /** A rendered integer never contains a path separator, so it is always one
      whole segment of a URL path. */
  lemma FormatHasNoSlash(n: int)
    ensures '/' !in FormatInt(n)
  {
    var s := FormatInt(n);
    if n < 0 {
      assert forall i :: 1 <= i < |s| ==> s[i] == Digits(-n)[i - 1];
    }
  }
}
