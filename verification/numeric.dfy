/**
  Decimal integer text, as far as numeric coercion of spreadsheet cells
  needs it: recognising an optionally signed run of ASCII digits and reading
  its value, plus the canonical rendering used to state the round trip.
 */
module Numeric {
  import opened Wrappers

  predicate IsDigit(c: char)
  {
    '0' <= c <= '9'
  }

  predicate AllDigits(s: string)
  {
    forall i :: 0 <= i < |s| ==> IsDigit(s[i])
  }

  /** Value of a run of decimal digits, most significant first. */
  function DigitsValue(s: string): (r: nat)
    requires AllDigits(s)
    decreases |s|
  {
    if s == [] then 0
    else DigitsValue(s[..|s| - 1]) * 10 + (s[|s| - 1] as int - '0' as int)
  }

  /** An optional leading `+` or `-`, then a non-empty run of digits. */
  predicate SignedDigits(s: string)
  {
    s != [] && if s[0] == '-' || s[0] == '+' then |s| > 1 && AllDigits(s[1..]) else AllDigits(s)
  }

  /**
    Reads an optionally signed decimal integer. Empty text, a bare sign and
    any non-digit character give `None`.
   */
  function ParseInt(s: string): (r: Option<int>)
    ensures r.Some? <==> SignedDigits(s)
    ensures (s != [] && AllDigits(s)) ==> r == Some(DigitsValue(s))
    ensures SignedDigits(s) && s[0] == '+' ==> r == Some(DigitsValue(s[1..]))
    ensures SignedDigits(s) && s[0] == '-' ==> r.Some? && r.value == -(DigitsValue(s[1..]) as int)
    ensures r.Some? && r.value < 0 ==> s[0] == '-'
  {
    if s == [] then None
    else if s[0] == '-' || s[0] == '+' then
      var digits := s[1..];
      if digits != [] && AllDigits(digits) then
        var magnitude: int := DigitsValue(digits);
        Some(if s[0] == '-' then -magnitude else magnitude)
      else None
    else if AllDigits(s) then Some(DigitsValue(s))
    else None
  }

  /** Canonical decimal rendering of a natural number: digits only, no leading zero. */
  function ShowNat(n: nat): (r: string)
    ensures r != [] && AllDigits(r)
    ensures |r| > 1 ==> r[0] != '0'
  {
    if n < 10 then ['0' + n as char]
    else ShowNat(n / 10) + ['0' + (n % 10) as char]
  }

  /** Canonical decimal rendering of an integer, with a leading `-` when negative. */
  function ShowInt(n: int): (r: string)
    ensures r != []
  {
    if n < 0 then "-" + ShowNat(-n) else ShowNat(n)
  }

  lemma {:induction false} DigitsOfShowNat(n: nat)
    ensures DigitsValue(ShowNat(n)) == n
    decreases n
  {
    if n >= 10 {
      var s := ShowNat(n);
      assert s[..|s| - 1] == ShowNat(n / 10);
      DigitsOfShowNat(n / 10);
    }
  }

  /** Every integer survives rendering and reading back. */
  lemma ParseShowRoundTrip(n: int)
    ensures ParseInt(ShowInt(n)) == Some(n)
  {
    if n < 0 {
      DigitsOfShowNat(-n);
      assert ShowInt(n)[1..] == ShowNat(-n);
    } else {
      DigitsOfShowNat(n);
    }
  }

  /** Text holding a letter never reads as a number. */
  lemma NonNumericText(s: string, i: int)
    requires 0 <= i < |s| && s[i] != '-' && s[i] != '+' && !IsDigit(s[i])
    ensures ParseInt(s) == None
  {
    if s[0] == '-' || s[0] == '+' {
      assert i > 0;
      assert s[1..][i - 1] == s[i];
    }
  }
}
