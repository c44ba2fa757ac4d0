/**
 * strconv.ParseInt(s, 10, 64) and the decimal formatting `%v` gives an
 * integer: the conversions every positional field of the protocol goes through.
 */
module Strconv {
  import opened Wrappers

  const MinInt64: int := -0x8000_0000_0000_0000
  const MaxInt64: int := 0x7fff_ffff_ffff_ffff

  predicate IsInt64(n: int) { MinInt64 <= n <= MaxInt64 }

  /** The error strconv reports; the text that failed to parse is kept. */
  datatype NumError = NumError(num: string)

  predicate IsDigit(c: char) { '0' <= c <= '9' }

  predicate AllDigits(s: string) { forall i | 0 <= i < |s| :: IsDigit(s[i]) }

  /** The value of a string of decimal digits, most significant first. */
  function DigitsValue(s: string): nat
    requires AllDigits(s)
    decreases |s|
  {
    if |s| == 0 then 0
    else DigitsValue(s[..|s| - 1]) * 10 + (s[|s| - 1] as int - '0' as int)
  }

  /**
   * strconv.ParseInt(s, 10, 64): an optional sign, then one or more decimal
   * digits, whose value must lie in the int64 range; anything else fails.
   */
  function ParseInt(s: string): (r: Result<int, NumError>)
    ensures r.Ok? ==> IsInt64(r.value)
    ensures r.Err? ==> r.error == NumError(s)
  {
    if |s| == 0 then Err(NumError(s))
    else
      var signed := s[0] == '+' || s[0] == '-';
      var digits := if signed then s[1..] else s;
      if |digits| == 0 || !AllDigits(digits) then Err(NumError(s))
      else
        var v: int := if s[0] == '-' then -(DigitsValue(digits) as int) else DigitsValue(digits);
        if IsInt64(v) then Ok(v) else Err(NumError(s))
  }

  /** The decimal digits of a natural number, no leading zero. */
  function NatDigits(n: nat): (r: string)
    ensures |r| >= 1 && AllDigits(r)
    ensures r[0] != '-' && r[0] != '+'
    decreases n
  {
    if n < 10 then [('0' as int + n) as char]
    else NatDigits(n / 10) + [('0' as int + n % 10) as char]
  }

  /** fmt's `%v` of an integer: an optional minus sign and the decimal digits. */
  function FormatInt(n: int): string {
    if n < 0 then "-" + NatDigits(-n) else NatDigits(n)
  }

  lemma {:induction false} DigitsValueOfNatDigits(n: nat)
    ensures DigitsValue(NatDigits(n)) == n
    decreases n
  {
    if n >= 10 {
      DigitsValueOfNatDigits(n / 10);
      var d := NatDigits(n);
      assert d[..|d| - 1] == NatDigits(n / 10);
    }
  }

  /** Every int64 survives formatting and parsing. */
  lemma ParseFormat(n: int)
    requires IsInt64(n)
    ensures ParseInt(FormatInt(n)) == Ok(n)
  {
    if n < 0 {
      ParseNegative(n);
    } else {
      ParseNatural(n);
    }
  }

  lemma ParseNatural(n: nat)
    requires n <= MaxInt64
    ensures ParseInt(NatDigits(n)) == Ok(n)
  {
    DigitsValueOfNatDigits(n);
  }

  lemma ParseNegative(n: int)
    requires MinInt64 <= n < 0
    ensures ParseInt("-" + NatDigits(-n)) == Ok(n)
  {
    var d := NatDigits(-n);
    var s := "-" + d;
    assert s[0] == '-' && s[1..] == d;
    DigitsValueOfNatDigits(-n);
    var v: int := -(DigitsValue(d) as int);
    assert v == n && IsInt64(v);
  }

  /** A formatted integer holds neither spaces, `=`, `|`, `%` nor line breaks. */
  lemma FormatIntPlain(n: int)
    ensures forall i | 0 <= i < |FormatInt(n)| :: FormatInt(n)[i] == '-' || IsDigit(FormatInt(n)[i])
  {
  }
}
