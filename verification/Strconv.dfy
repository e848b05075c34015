/** Decimal parsing as strconv.Atoi does it on 64-bit integers, for ASCII text. */
module Strconv {
  import opened Entities

  predicate IsDigit(c: char) {
    '0' <= c <= '9'
  }

  predicate AllDigits(s: string) {
    forall i | 0 <= i < |s| :: IsDigit(s[i])
  }

  function DigitsValue(s: string): nat
    requires AllDigits(s)
  {
    if s == [] then 0 else 10 * DigitsValue(s[..|s| - 1]) + (s[|s| - 1] as int - '0' as int)
  }

  /** An optional sign, then one or more digits, in range; anything else is an error. */
  function Atoi(s: string): Option<int> {
    var negative := s != [] && s[0] == '-';
    var body := if s != [] && (s[0] == '-' || s[0] == '+') then s[1..] else s;
    if body == [] || !AllDigits(body) then None
    else
      var x: int := if negative then 0 - DigitsValue(body) else DigitsValue(body);
      if InInt64(x) then Some(x) else None
  }

  function Decimal(n: nat): string {
    if n < 10 then [('0' as int + n) as char] else Decimal(n / 10) + [('0' as int + n % 10) as char]
  }

  /** Parsing inverts printing. */
  lemma {:induction false} DecimalRoundTrip(n: nat)
    ensures Decimal(n) != [] && AllDigits(Decimal(n))
    ensures DigitsValue(Decimal(n)) == n
    decreases n
  {
    if n >= 10 {
      DecimalRoundTrip(n / 10);
      assert Decimal(n)[..|Decimal(n)| - 1] == Decimal(n / 10);
    } else {
      assert Decimal(n)[..0] == [];
    }
  }

  lemma SignOff(sign: char, d: string)
    requires sign == '-' || sign == '+'
    requires d != [] && AllDigits(d)
    ensures Atoi([sign] + d) == (
      var x: int := if sign == '-' then 0 - DigitsValue(d) else DigitsValue(d);
      if InInt64(x) then Some(x) else None)
  {
    assert ([sign] + d)[1..] == d;
  }

  lemma NoSign(d: string)
    requires d != [] && AllDigits(d)
    ensures Atoi(d) == if DigitsValue(d) <= MAX_INT64 then Some(DigitsValue(d)) else None
  {
    assert IsDigit(d[0]);
  }

  /** Atoi on printed numbers with either sign or none: the number, or an error when int64 cannot hold it. */
  lemma AtoiOfDecimal(n: nat)
    ensures Atoi(Decimal(n)) == if n <= 0x7FFF_FFFF_FFFF_FFFF then Some(n) else None
    ensures Atoi("+" + Decimal(n)) == if n <= 0x7FFF_FFFF_FFFF_FFFF then Some(n) else None
    ensures Atoi("-" + Decimal(n)) == if n <= 0x8000_0000_0000_0000 then Some(-(n as int)) else None
  {
    hide Atoi;
    DecimalRoundTrip(n);
    NoSign(Decimal(n));
    SignOff('+', Decimal(n));
    SignOff('-', Decimal(n));
  }

  /** No number without a digit. */
  lemma AtoiOfNothing()
    ensures Atoi("") == Atoi("+") == Atoi("-") == None
  {
  }

  /** One more digit is ten times the number and the digit; the digits are the ten of ASCII. */
  lemma DecimalDigits(n: nat, d: nat)
    requires d < 10
    ensures Decimal(d) == ["0123456789"[d]]
    ensures n > 0 ==> Decimal(10 * n + d) == Decimal(n) + ["0123456789"[d]]
  {
    assert (10 * n + d) / 10 == n && (10 * n + d) % 10 == d;
  }

  /** Nothing else than digits after an optional sign is a number. */
  lemma AtoiNeedsDigits(s: string, i: nat)
    requires i < |s| && !IsDigit(s[i])
    requires i > 0 || (s[0] != '-' && s[0] != '+')
    ensures Atoi(s) == None
  {
    if s[0] == '-' || s[0] == '+' {
      assert s[1..][i - 1] == s[i];
    }
  }
}
