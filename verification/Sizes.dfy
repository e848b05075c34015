/** The size parser that turns configured limits such as "500mb" into bytes. */
module Sizes {
  import opened Entities
  import opened Strconv

  function Unit(k: nat): string
    requires k < 5
  {
    match k
    case 0 => "b"
    case 1 => "kb"
    case 2 => "mb"
    case 3 => "gb"
    case _ => "tb"
  }

  function Pow1024(k: nat): (p: nat)
    ensures p >= 1
  {
    if k == 0 then 1 else 1024 * Pow1024(k - 1)
  }

  // ---------------------------------------------------------------- normalisation

  predicate IsSpace(c: char) {
    c == ' ' || '\t' <= c <= '\r'
  }

  function Lower(s: string): string {
    seq(|s|, i requires 0 <= i < |s| => if 'A' <= s[i] <= 'Z' then (s[i] as int + 32) as char else s[i])
  }

  function TrimLeft(s: string): string {
    if s != [] && IsSpace(s[0]) then TrimLeft(s[1..]) else s
  }

  function TrimRight(s: string): string {
    if s != [] && IsSpace(s[|s| - 1]) then TrimRight(s[..|s| - 1]) else s
  }

  function Normalize(s: string): string {
    TrimRight(TrimLeft(Lower(s)))
  }

  // ---------------------------------------------------------------- specification

  /** `v` is the digits `d`, at least one and in range, followed by unit number `k`. */
  ghost predicate IsSize(v: string, d: string, k: nat) {
    k < 5 && d != [] && AllDigits(d) && DigitsValue(d) <= MAX_INT64 && v == d + Unit(k)
  }

  /** Units start with a letter, so digits end where the scan stops. */
  lemma ScanStopsAtUnit(v: string, d: string, k: nat, j: nat)
    requires k < 5 && AllDigits(d) && v == d + Unit(k)
    requires j < |v| && AllDigits(v[..j]) && !IsDigit(v[j])
    ensures j == |d|
    ensures v[..j] == d && v[j..] == Unit(k)
  {
    assert forall i | 0 <= i < |d| :: v[i] == d[i];
    assert v[|d|] == Unit(k)[0] && !IsDigit(v[|d|]);
    assert forall i | 0 <= i < j :: v[..j][i] == v[i];
  }

  lemma UnitIsInjective(k: nat, l: nat)
    requires k < 5 && l < 5 && Unit(k) == Unit(l)
    ensures k == l
  {
  }

  lemma SplitAt(d: string, u: string)
    requires u != []
    ensures (d + u)[..|d|] == d && (d + u)[|d|..] == u && (d + u)[|d|] == u[0]
  {
  }

  /** A text is a size in at most one way. */
  lemma SizeIsUnique(v: string, d: string, k: nat, e: string, l: nat)
    requires IsSize(v, d, k) && IsSize(v, e, l)
    ensures d == e && k == l
  {
    SplitAt(d, Unit(k));
    assert !IsDigit(Unit(k)[0]);
    ScanStopsAtUnit(v, e, l, |d|);
    UnitIsInjective(k, l);
  }

  /** Nothing that is all digits is a size, although the scan takes its last digit for the unit. */
  lemma SizeHasNonDigit(v: string, d: string, k: nat)
    requires IsSize(v, d, k)
    ensures !AllDigits(v)
  {
    assert v[|d|] == Unit(k)[0];
  }

  // ---------------------------------------------------------------- in plain text

  predicate IsBlank(c: char) {
    c == ' ' || c == '\t' || c == '\n' || c == '\U{000B}' || c == '\U{000C}' || c == '\r'
  }

  /** The same character, but for the case of a letter of a unit. */
  predicate SameLetter(c: char, d: char) {
    || c == d
    || (c == 'B' && d == 'b') || (c == 'K' && d == 'k') || (c == 'M' && d == 'm')
    || (c == 'G' && d == 'g') || (c == 'T' && d == 't')
  }

  /** The text from `i` to `j` is the number `n`, as it is printed, and the unit, in any case; around it are
      blanks only. */
  ghost predicate WrittenAt(value: string, n: nat, unit: string, i: nat, j: nat) {
    var text := Decimal(n) + unit;
    && i <= j <= |value| && j - i == |text|
    && (forall k | 0 <= k < i || j <= k < |value| :: IsBlank(value[k]))
    && (forall k | 0 <= k < |text| :: SameLetter(value[i + k], text[k]))
  }

  ghost predicate Written(value: string, n: nat, unit: string) {
    exists i: nat, j: nat :: WrittenAt(value, n, unit, i, j)
  }

  lemma {:induction false} TrimLeftBlanks(l: string, rest: string)
    requires forall k | 0 <= k < |l| :: IsSpace(l[k])
    requires rest != [] && !IsSpace(rest[0])
    ensures TrimLeft(l + rest) == rest
    decreases |l|
  {
    if l == [] {
      assert l + rest == rest;
    } else {
      TrimLeftBlanks(l[1..], rest);
      assert (l + rest)[1..] == l[1..] + rest;
    }
  }

  lemma {:induction false} TrimRightBlanks(text: string, r: string)
    requires forall k | 0 <= k < |r| :: IsSpace(r[k])
    requires text != [] && !IsSpace(text[|text| - 1])
    ensures TrimRight(text + r) == text
    decreases |r|
  {
    if r == [] {
      assert text + r == text;
    } else {
      TrimRightBlanks(text, r[..|r| - 1]);
      assert (text + r)[..|text + r| - 1] == text + r[..|r| - 1];
    }
  }

  lemma LowerParts(value: string, text: string, i: nat, j: nat)
    requires i <= j <= |value| && j - i == |text|
    requires forall k | 0 <= k < i || j <= k < |value| :: IsBlank(value[k])
    requires forall k | 0 <= k < |text| :: SameLetter(value[i + k], text[k]) && !('A' <= text[k] <= 'Z')
    ensures Lower(value) == Lower(value)[..i] + text + Lower(value)[j..]
    ensures forall k | 0 <= k < i || j <= k < |value| :: IsSpace(Lower(value)[k])
  {
    var low := Lower(value);
    assert forall k | 0 <= k < |text| :: low[i..j][k] == low[i + k] == text[k];
    assert low[i..j] == text;
    assert low == low[..i] + low[i..j] + low[j..];
  }

  /** A printed size begins with a digit and ends with a `b`, and has nothing to lower. */
  lemma SizeText(n: nat, k: nat)
    requires k < 5
    ensures var text := Decimal(n) + Unit(k);
      text != [] && IsDigit(text[0]) && text[|text| - 1] == 'b'
      && forall i | 0 <= i < |text| :: !('A' <= text[i] <= 'Z')
  {
    var text := Decimal(n) + Unit(k);
    DecimalRoundTrip(n);
    LowerCase(Decimal(n), k);
    assert text[0] == Decimal(n)[0];
    assert text[|text| - 1] == Unit(k)[|Unit(k)| - 1];
  }

  /** Blanks before and after a text that has none at its ends are cut off. */
  lemma TrimBlanks(l: string, text: string, r: string)
    requires forall k | 0 <= k < |l| :: IsSpace(l[k])
    requires forall k | 0 <= k < |r| :: IsSpace(r[k])
    requires text != [] && !IsSpace(text[0]) && !IsSpace(text[|text| - 1])
    ensures TrimRight(TrimLeft(l + text + r)) == text
  {
    assert l + text + r == l + (text + r);
    TrimLeftBlanks(l, text + r);
    TrimRightBlanks(text, r);
  }

  lemma WrittenIsNormal(value: string, n: nat, k: nat)
    requires k < 5 && Written(value, n, Unit(k))
    ensures Normalize(value) == Decimal(n) + Unit(k)
  {
    var i: nat, j: nat :| WrittenAt(value, n, Unit(k), i, j);
    var text := Decimal(n) + Unit(k);
    SizeText(n, k);
    LowerParts(value, text, i, j);
    TrimBlanks(Lower(value)[..i], text, Lower(value)[j..]);
  }

  lemma UnitsInNumbers()
    ensures Unit(0) == "b" && Unit(1) == "kb" && Unit(2) == "mb" && Unit(3) == "gb" && Unit(4) == "tb"
    ensures Pow1024(0) == 1 && Pow1024(1) == 1024 && Pow1024(2) == 1048576
    ensures Pow1024(3) == 1073741824 && Pow1024(4) == 1099511627776
  {
    assert Pow1024(2) == 1024 * Pow1024(1);
    assert Pow1024(3) == 1024 * Pow1024(2);
    assert Pow1024(4) == 1024 * Pow1024(3);
  }

  /** What the parser makes of a printed number and a unit. */
  lemma WrittenIsSize(value: string, n: nat, k: nat)
    requires k < 5 && Written(value, n, Unit(k)) && n <= MAX_INT64
    ensures IsSize(Normalize(value), Decimal(n), k)
    ensures DigitsValue(Decimal(n)) == n
  {
    WrittenIsNormal(value, n, k);
    DecimalRoundTrip(n);
  }

  // ---------------------------------------------------------------- the parser

  /** The index of a text among the units. */
  method IndexOfUnit(u: string) returns (k: int)
    ensures -1 <= k < 5
    ensures k >= 0 ==> u == Unit(k)
    ensures k == -1 ==> forall j | 0 <= j < 5 :: u != Unit(j)
  {
    k := 0;
    while k < 5
      invariant 0 <= k <= 5
      invariant forall j | 0 <= j < k :: u != Unit(j)
    {
      if Unit(k) == u {
        return;
      }
      k := k + 1;
    }
    k := -1;
  }

  /** Accepts exactly digits followed by a unit, up to case and surrounding space, and computes the
      product in int64. */
  method ToBytes(value: string) returns (r: Result<int, ()>)
    ensures forall n: nat | Written(value, n, "b") && n <= 0x7FFF_FFFF_FFFF_FFFF :: r == Ok(n)
    ensures forall n: nat | Written(value, n, "kb") && n * 1024 <= 0x7FFF_FFFF_FFFF_FFFF :: r == Ok(n * 1024)
    ensures forall n: nat | Written(value, n, "mb") && n * 1048576 <= 0x7FFF_FFFF_FFFF_FFFF :: r == Ok(n * 1048576)
    ensures forall n: nat | Written(value, n, "gb") && n * 1073741824 <= 0x7FFF_FFFF_FFFF_FFFF ::
              r == Ok(n * 1073741824)
    ensures forall n: nat | Written(value, n, "tb") && n * 1099511627776 <= 0x7FFF_FFFF_FFFF_FFFF ::
              r == Ok(n * 1099511627776)
    ensures r.Ok? <==> exists d, k :: IsSize(Normalize(value), d, k)
    ensures forall d, k | IsSize(Normalize(value), d, k) :: r == Ok(Wrap64(DigitsValue(d) * Pow1024(k)))
  {
    r := Parse(value);
    UnitsInNumbers();
    forall n: nat, k | 0 <= k < 5 && Written(value, n, Unit(k)) && n * Pow1024(k) <= MAX_INT64
      ensures r == Ok(n * Pow1024(k))
    {
      AtLeast(n, Pow1024(k));
      WrittenIsSize(value, n, k);
    }
  }

  lemma AtLeast(n: nat, m: nat)
    requires m >= 1
    ensures n <= n * m
  {
  }

  /** The scan, the number and the unit. */
  method Parse(value: string) returns (r: Result<int, ()>)
    ensures r.Ok? <==> exists d, k :: IsSize(Normalize(value), d, k)
    ensures forall d, k | IsSize(Normalize(value), d, k) :: r == Ok(Wrap64(DigitsValue(d) * Pow1024(k)))
  {
    var v := Normalize(value);
    var lastNumberIndex := 0;
    var i := 0;
    while i < |v|
      invariant 0 <= i <= |v|
      invariant AllDigits(v[..i])
      invariant lastNumberIndex == if i == 0 then 0 else i - 1
    {
      lastNumberIndex := i;
      if !IsDigit(v[i]) {
        break;
      }
      i := i + 1;
    }
    ScanEnds(v, lastNumberIndex);
    if lastNumberIndex == 0 {
      return Err(());
    }
    var number := Atoi(v[..lastNumberIndex]);
    if number == None {
      return Err(());
    }
    var unitIdx := IndexOfUnit(v[lastNumberIndex..]);
    if unitIdx == -1 {
      return Err(());
    }
    assert v == v[..lastNumberIndex] + v[lastNumberIndex..];
    assert IsSize(v, v[..lastNumberIndex], unitIdx);
    forall d, k | IsSize(v, d, k) ensures d == v[..lastNumberIndex] && k == unitIdx {
      SizeIsUnique(v, d, k, v[..lastNumberIndex], unitIdx);
    }
    return Ok(Wrap64(number.value * Pow1024(unitIdx)));
  }

  /** Where the scan stands when it ends: at the first non-digit, or at the last digit. */
  lemma ScanEnds(v: string, j: nat)
    requires v == [] ==> j == 0
    requires v != [] ==> j < |v| && AllDigits(v[..j]) && (IsDigit(v[j]) ==> j == |v| - 1)
    ensures forall d, k | IsSize(v, d, k) :: j > 0 && d == v[..j] && v[j..] == Unit(k)
    ensures j > 0 && Atoi(v[..j]).Some? ==>
              AllDigits(v[..j]) && Atoi(v[..j]).value == DigitsValue(v[..j]) <= MAX_INT64
    ensures j > 0 && Atoi(v[..j]) == None ==> DigitsValue(v[..j]) > MAX_INT64
  {
    forall d, k | IsSize(v, d, k) ensures j > 0 && d == v[..j] && v[j..] == Unit(k) {
      SizeHasNonDigit(v, d, k);
      assert forall i | 0 <= i < j :: v[i] == v[..j][i];
      ScanStopsAtUnit(v, d, k, j);
    }
    if j > 0 {
      assert IsDigit(v[..j][0]);
    }
  }

  // ---------------------------------------------------------------- round trip

  lemma NothingToNormalize(d: string, k: nat)
    requires k < 5 && d != [] && AllDigits(d)
    ensures Normalize(d + Unit(k)) == d + Unit(k)
  {
    var v := d + Unit(k);
    LowerCase(d, k);
    AlreadyLower(v);
    assert v[0] == d[0] && IsDigit(d[0]);
    assert v[|v| - 1] == Unit(k)[|Unit(k)| - 1] == 'b';
    NothingToTrim(v);
  }

  lemma LowerCase(d: string, k: nat)
    requires k < 5 && AllDigits(d)
    ensures forall i | 0 <= i < |d + Unit(k)| :: !('A' <= (d + Unit(k))[i] <= 'Z')
  {
    assert forall i | 0 <= i < |Unit(k)| :: !('A' <= Unit(k)[i] <= 'Z');
  }

  lemma AlreadyLower(v: string)
    requires forall i | 0 <= i < |v| :: !('A' <= v[i] <= 'Z')
    ensures Lower(v) == v
  {
  }

  lemma NothingToTrim(v: string)
    requires v != [] && !IsSpace(v[0]) && !IsSpace(v[|v| - 1])
    ensures TrimLeft(v) == v && TrimRight(v) == v
  {
  }

  /** Writing a number of units and parsing it back: accepted whenever the number itself is in range, and
      the number of bytes exactly when that is in range too. */
  lemma SizesRoundTrip(n: nat, k: nat)
    requires k < 5 && n <= MAX_INT64
    ensures IsSize(Normalize(Decimal(n) + Unit(k)), Decimal(n), k)
    ensures DigitsValue(Decimal(n)) == n
    ensures Wrap64(n * Pow1024(k)) == n * Pow1024(k) <==> n * Pow1024(k) <= MAX_INT64
  {
    DecimalRoundTrip(n);
    NothingToNormalize(Decimal(n), k);
    WrapOfProduct(n, Pow1024(k));
  }
}
