/** Canonical decimal text: ParseDecimal and FormatDecimal of internal/exact/exact.go.

    The accepted texts are exactly those of its pattern: no leading zeros, no
    trailing fractional zeros, no "-0", no exponent.
  */
module DecimalText {
  import opened Results
  import opened Exact

  /******* Digit strings *******/

  predicate IsDigit(c: char) {
    '0' <= c <= '9'
  }

  predicate AllDigits(s: string) {
    forall i :: 0 <= i < |s| ==> IsDigit(s[i])
  }

  function DigitsVal(s: string): (n: nat)
    requires AllDigits(s)
    ensures n < Pow10(|s|)
  {
    if s == "" then 0 else 10 * DigitsVal(s[..|s| - 1]) + (s[|s| - 1] as int - '0' as int)
  }

  /** The last w decimal digits of n. */
  function FixedDigits(n: nat, w: nat): (s: string)
    ensures |s| == w && AllDigits(s)
  {
    if w == 0 then "" else FixedDigits(n / 10, w - 1) + [('0' as int + n % 10) as char]
  }

  lemma {:induction false} FixedOfVal(s: string)
    requires AllDigits(s)
    ensures FixedDigits(DigitsVal(s), |s|) == s
  {
    hide Pow10;
    if s != "" {
      var front, d := s[..|s| - 1], s[|s| - 1] as int - '0' as int;
      assert IsDigit(s[|s| - 1]);
      FixedOfVal(front);
      LastOf(DigitsVal(front), d);
      assert s == front + [s[|s| - 1]];
    }
  }

  lemma LastOf(n: nat, d: nat)
    requires d < 10
    ensures (10 * n + d) / 10 == n && (10 * n + d) % 10 == d
  {}

  lemma {:induction false} ValOfFixed(n: nat, w: nat)
    requires n < Pow10(w)
    ensures DigitsVal(FixedDigits(n, w)) == n
  {
    if w != 0 {
      ValOfFixed(n / 10, w - 1);
      var s := FixedDigits(n, w);
      assert s[..|s| - 1] == FixedDigits(n / 10, w - 1);
    }
  }

  lemma {:induction false} LeadingDigit(s: string)
    requires AllDigits(s) && s != ""
    ensures s[0] != '0' <==> DigitsVal(s) >= Pow10(|s| - 1)
  {
    if |s| > 1 {
      LeadingDigit(s[..|s| - 1]);
    }
  }

  /** How many digits n needs, at least one. */
  function Width(n: nat): (w: nat)
    ensures w >= 1 && n < Pow10(w) && (w > 1 ==> n >= Pow10(w - 1))
  {
    if n < 10 then
      assert Pow10(1) == 10;
      1
    else Width(n / 10) + 1
  }

  lemma WidthIs(n: nat, w: nat)
    requires w >= 1 && n < Pow10(w) && (w > 1 ==> n >= Pow10(w - 1))
    ensures Width(n) == w
  {
    SmallWidth(n, w);
    if w > 1 {
      Pow10Order(w - 1, Width(n));
    }
  }

  lemma SmallWidth(n: nat, w: nat)
    requires w >= 1 && n < Pow10(w)
    ensures Width(n) <= w
  {
    if Width(n) > 1 {
      Pow10Order(Width(n) - 1, w);
    }
  }

  lemma Pow10Monotone(a: nat, b: nat)
    requires a <= b
    ensures Pow10(a) <= Pow10(b)
  {
    Pow10Add(a, b - a);
    MulNonNegative(Pow10(a), Pow10(b - a) - 1);
    IntDistrib(Pow10(b - a), 1, Pow10(a));
  }

  lemma Pow10Order(a: nat, b: nat)
    requires Pow10(a) < Pow10(b)
    ensures a < b
  {
    if b <= a {
      Pow10Monotone(b, a);
    }
  }

  /******* Mantissas *******/

  lemma DecInjective(m: int, n: int, k: nat)
    requires Dec(m, k) == Dec(n, k)
    ensures m == n
  {
    DecIs(Dec(m, k), m, k);
    DecIs(Dec(n, k), n, k);
  }

  /** The integer m with r = m / 10^k. */
  function Mantissa(r: Rat, k: nat): (m: int)
    requires HasScale(Val(r), k)
    ensures Dec(m, k) == Val(r)
  {
    MantissaDivides(r, k);
    (r.num * Pow10(k)) / r.den
  }

  lemma MantissaDivides(r: Rat, k: nat)
    requires HasScale(Val(r), k)
    ensures Dec((r.num * Pow10(k)) / r.den, k) == Val(r)
  {
    var m := ScaleGivesMultiple(r, k);
    MultipleMod(m, r.den);
    MultipleGivesScale(r, k, m);
  }

  lemma ShorterMantissa(m: int, k: nat, j: nat)
    requires j < k && HasScale(Dec(m, k), j)
    ensures m % 10 == 0
  {
    var n :| Dec(m, k) == Dec(n, j);
    var t := Pow10(k - j);
    DecIs(1.0, t, k - j);
    DecProduct(n, j, t, k - j);
    DecInjective(m, n * t, k);
    IntProducts(n, Pow10(k - j - 1), 10, 1);
    MultipleMod(n * Pow10(k - j - 1), 10);
  }

  /** A mantissa whose last digit is not zero cannot be shortened. */
  lemma MinimalScale(m: int, k: nat)
    requires k == 0 || m % 10 != 0
    ensures Finite(Dec(m, k)) && ScaleOf(Dec(m, k)) == k
  {
    assert HasScale(Dec(m, k), k);
    forall j: nat | j < k
      ensures !HasScale(Dec(m, k), j)
    {
      if HasScale(Dec(m, k), j) {
        ShorterMantissa(m, k, j);
      }
    }
    ScaleOfIs(Dec(m, k), k);
  }

  lemma TrailingZero(m: int, k: nat)
    requires k > 0 && m % 10 == 0
    ensures HasScale(Dec(m, k), k - 1)
  {
    assert Pow10(1) == 10;
    DecIs(1.0, 10, 1);
    DecProduct(m / 10, k - 1, 10, 1);
  }

  lemma MinimalMantissa(r: Rat, k: nat)
    requires Finite(Val(r)) && k == ScaleOf(Val(r))
    ensures k == 0 || Mantissa(r, k) % 10 != 0
  {
    if k > 0 && Mantissa(r, k) % 10 == 0 {
      TrailingZero(Mantissa(r, k), k);
    }
  }

  /******* Texts *******/

  function AbsNat(m: int): nat {
    Abs(m)
  }

  /** The text of m / 10^k with k fractional digits. */
  function Text(m: int, k: nat): (s: string) {
    Pointed(m, FixedDigits(AbsNat(m), Max(Width(AbsNat(m)), k + 1)), k)
  }

  function Pointed(m: int, digits: string, k: nat): string
    requires k < |digits|
  {
    var cut := |digits| - k;
    Join(m, digits[..cut], digits[cut..])
  }

  function Join(m: int, integer: string, fraction: string): string {
    (if m < 0 then "-" else "") + Body(integer, fraction)
  }

  function Body(integer: string, fraction: string): string {
    if fraction == "" then integer else integer + "." + fraction
  }

  /** FormatDecimal. */
  function FormatDecimal(r: Rat): (t: Option<string>)
    ensures t.Some? <==> Finite(Val(r))
  {
    match FloatPrec(r)
    case None => None
    case Some(k) => Some(Text(Mantissa(r, k), k))
  }

  /** The position of the decimal point, or the end. */
  function PointAt(s: string, from: nat): (i: nat)
    requires from <= |s|
    ensures from <= i <= |s| && (i < |s| ==> s[i] == '.')
    ensures forall j :: from <= j < i ==> s[j] != '.'
    decreases |s| - from
  {
    if from == |s| || s[from] == '.' then from else PointAt(s, from + 1)
  }

  predicate CanonicalInteger(s: string) {
    s != "" && AllDigits(s) && (s == "0" || s[0] != '0')
  }

  predicate CanonicalFraction(s: string) {
    s != "" && AllDigits(s) && s[|s| - 1] != '0'
  }

  function Signed(negative: bool, n: int): int {
    if negative then -n else n
  }

  /** ParseDecimal: the pattern check and the value in one pass. */
  function ParseDecimal(raw: string): (v: Option<Rat>)
    ensures v.Some? ==> Finite(Val(v.value))
  {
    var negative := raw != "" && raw[0] == '-';
    var body := if negative then raw[1..] else raw;
    var point := PointAt(body, 0);
    if point == |body| then ParseParts(negative, body, None) else ParseParts(negative, body[..point], Some(body[point + 1..]))
  }

  function ParseParts(negative: bool, integer: string, fraction: Option<string>): (v: Option<Rat>)
    ensures v.Some? ==> Finite(Val(v.value))
  {
    if !CanonicalInteger(integer) then None
    else match fraction
      case None => if negative && integer == "0" then None else Some(FromDigits(negative, integer, 0))
      case Some(digits) =>
        if CanonicalFraction(digits) then
          DigitsOfConcat(integer, digits);
          Some(FromDigits(negative, integer + digits, |digits|))
        else None
  }

  function FromDigits(negative: bool, digits: string, k: nat): (r: Rat)
    requires AllDigits(digits)
    ensures Finite(Val(r))
  {
    ParsedFinite(Signed(negative, DigitsVal(digits)), k);
    Ratio(Signed(negative, DigitsVal(digits)), Pow10(k))
  }

  lemma DigitsOfConcat(a: string, b: string)
    requires AllDigits(a) && AllDigits(b)
    ensures AllDigits(a + b)
  {}

  lemma ParsedFinite(m: int, k: nat)
    ensures Val(Ratio(m, Pow10(k))) == Dec(m, k) && Finite(Dec(m, k))
  {
    assert HasScale(Dec(m, k), k);
  }

  lemma SplitAtPoint(s: string, i: nat)
    requires i < |s| && s[i] == '.'
    ensures s == s[..i] + "." + s[i + 1..]
  {}

  /** What an accepted text looks like. */
  lemma ParsedShape(raw: string) returns (m: int, integer: string, fraction: string)
    requires ParseDecimal(raw).Some?
    ensures CanonicalInteger(integer) && (fraction == "" || CanonicalFraction(fraction))
    ensures AllDigits(integer + fraction) && DigitsVal(integer + fraction) == Abs(m)
    ensures ParseDecimal(raw).value == Ratio(m, Pow10(|fraction|))
    ensures raw == Join(m, integer, fraction)
  {
    var negative := raw != "" && raw[0] == '-';
    var body := if negative then raw[1..] else raw;
    assert raw == (if negative then "-" else "") + body;
    var point := PointAt(body, 0);
    if point == |body| {
      integer, fraction := body, "";
      assert integer + fraction == integer;
      WholeShape(negative, integer);
    } else {
      integer, fraction := body[..point], body[point + 1..];
      SplitAtPoint(body, point);
      DigitsOfConcat(integer, fraction);
      PointedShape(negative, integer, fraction);
    }
    m := Signed(negative, DigitsVal(integer + fraction));
    hide Pow10, DigitsVal, PointAt;
  }

  lemma WholeShape(negative: bool, integer: string)
    requires CanonicalInteger(integer) && (negative ==> integer != "0")
    ensures Signed(negative, DigitsVal(integer)) < 0 <==> negative
  {
    LeadingDigit(integer);
  }

  lemma PointedShape(negative: bool, integer: string, fraction: string)
    requires AllDigits(integer + fraction) && CanonicalFraction(fraction)
    ensures Signed(negative, DigitsVal(integer + fraction)) < 0 <==> negative
  {
    LastDigit(integer + fraction);
  }

  lemma TextOfParts(m: int, integer: string, fraction: string)
    requires CanonicalInteger(integer) && (fraction == "" || CanonicalFraction(fraction))
    requires AllDigits(integer + fraction) && DigitsVal(integer + fraction) == Abs(m)
    ensures Text(m, |fraction|) == Join(m, integer, fraction)
  {
    var all := integer + fraction;
    PartsWidth(integer, fraction);
    FixedOfVal(all);
    hide Pow10, DigitsVal, FixedDigits, Width, Join;
    assert all[..|integer|] == integer && all[|integer|..] == fraction;
  }

  lemma PartsWidth(integer: string, fraction: string)
    requires CanonicalInteger(integer) && AllDigits(integer + fraction)
    ensures Max(Width(DigitsVal(integer + fraction)), |fraction| + 1) == |integer + fraction|
  {
    var all := integer + fraction;
    if integer == "0" {
      SmallWidth(DigitsVal(all), |all|);
    } else {
      LeadingDigit(all);
      WidthIs(DigitsVal(all), |all|);
    }
    hide Pow10, DigitsVal, Width;
  }

  /** Formatting a parsed text gives the text back: every accepted text is canonical. */
  lemma FormatOfParse(raw: string)
    requires ParseDecimal(raw).Some?
    ensures FormatDecimal(ParseDecimal(raw).value) == Some(raw)
  {
    var m, integer, fraction := ParsedShape(raw);
    TextOfParts(m, integer, fraction);
    MinimalParts(m, integer, fraction);
    hide *;
    FormatIs(m, |fraction|);
  }

  lemma MinimalParts(m: int, integer: string, fraction: string)
    requires fraction == "" || CanonicalFraction(fraction)
    requires AllDigits(integer + fraction) && DigitsVal(integer + fraction) == Abs(m)
    ensures |fraction| == 0 || m % 10 != 0
  {
    if fraction != "" {
      LastDigit(integer + fraction);
    }
  }

  lemma FormatIs(m: int, k: nat)
    requires k == 0 || m % 10 != 0
    ensures FormatDecimal(Ratio(m, Pow10(k))) == Some(Text(m, k))
  {
    ParsedFinite(m, k);
    MinimalScale(m, k);
    DecInjective(Mantissa(Ratio(m, Pow10(k)), k), m, k);
    hide Text, Pow10;
  }

  lemma LastDigit(s: string)
    requires AllDigits(s) && s != ""
    ensures DigitsVal(s) % 10 == s[|s| - 1] as int - '0' as int
  {
    var d := s[|s| - 1] as int - '0' as int;
    assert IsDigit(s[|s| - 1]);
    assert DigitsVal(s) == 10 * DigitsVal(s[..|s| - 1]) + d;
    LastOf(DigitsVal(s[..|s| - 1]), d);
  }

  /** Parsing a formatted value succeeds and gives the value back. */
  lemma ParseOfFormat(r: Rat)
    requires Finite(Val(r))
    ensures var t := FormatDecimal(r); t.Some? && ParseDecimal(t.value).Some? && Val(ParseDecimal(t.value).value) == Val(r)
  {
    var k := ScaleOf(Val(r));
    var m := Mantissa(r, k);
    MinimalMantissa(r, k);
    ParseOfText(m, k);
    ParsedFinite(m, k);
  }

  lemma ParseOfText(m: int, k: nat)
    requires k == 0 || m % 10 != 0
    ensures ParseDecimal(Text(m, k)) == Some(Ratio(m, Pow10(k)))
  {
    hide *;
    var n := AbsNat(m);
    var w := Max(Width(n), k + 1);
    Pow10Monotone(Width(n), w);
    var digits := FixedDigits(n, w);
    ValOfFixed(n, w);
    TextIs(m, k, digits);
    AbsNatIs(m);
    TextParts(digits, w - k);
    FractionPart(digits, w - k, m);
    ParseOfParts(m, digits[..w - k], digits[w - k..]);
  }

  lemma AbsNatIs(m: int)
    ensures AbsNat(m) == Abs(m)
  {}

  lemma TextIs(m: int, k: nat, digits: string)
    requires digits == FixedDigits(AbsNat(m), Max(Width(AbsNat(m)), k + 1))
    ensures Text(m, k) == Join(m, digits[..|digits| - k], digits[|digits| - k..])
  {
    hide Join, FixedDigits, Width;
  }

  lemma FractionPart(digits: string, cut: nat, m: int)
    requires AllDigits(digits) && cut <= |digits| && DigitsVal(digits) == Abs(m)
    requires cut == |digits| || m % 10 != 0
    ensures digits[cut..] == "" || CanonicalFraction(digits[cut..])
  {
    if cut < |digits| {
      LastDigit(digits);
    }
    hide DigitsVal;
  }

  lemma ZeroDigits()
    ensures DigitsVal("0") == 0
  {
    LeadingDigit("0");
  }

  lemma ParseOfParts(m: int, integer: string, fraction: string)
    requires CanonicalInteger(integer) && (fraction == "" || CanonicalFraction(fraction))
    requires AllDigits(integer + fraction) && DigitsVal(integer + fraction) == Abs(m)
    ensures ParseDecimal(Join(m, integer, fraction)) == Some(Ratio(m, Pow10(|fraction|)))
  {
    hide ParseDecimal, Join, DigitsVal, Pow10, AllDigits;
    ParseOfJoin(m, integer, fraction);
    if fraction == "" {
      assert integer + fraction == integer;
      ZeroDigits();
      assert ParseParts(m < 0, integer, None) == Some(Ratio(m, Pow10(0)));
    } else {
      assert ParseParts(m < 0, integer, Some(fraction)) == Some(Ratio(m, Pow10(|fraction|)));
    }
  }

  lemma ParseOfJoin(m: int, integer: string, fraction: string)
    requires CanonicalInteger(integer)
    ensures ParseDecimal(Join(m, integer, fraction)) ==
      ParseParts(m < 0, integer, if fraction == "" then None else Some(fraction))
  {
    var body := Body(integer, fraction);
    var raw := Join(m, integer, fraction);
    assert raw == (if m < 0 then "-" else "") + body;
    assert (if raw[0] == '-' then raw[1..] else raw) == body;
    PointOf(body, integer);
    assert fraction != "" ==> body[..|integer|] == integer && body[|integer| + 1..] == fraction;
    hide ParseParts, CanonicalInteger, PointAt, Body, Join;
  }

  /** The digits before the point are a canonical integer. */
  lemma TextParts(digits: string, cut: nat)
    requires AllDigits(digits) && 1 <= cut <= |digits|
    requires cut > 1 ==> Width(DigitsVal(digits)) == |digits|
    ensures CanonicalInteger(digits[..cut]) && digits[..cut] + digits[cut..] == digits
  {
    hide Pow10, DigitsVal, Width;
    if cut == 1 {
      FirstDigit(digits);
    } else {
      LeadingDigit(digits);
    }
    assert digits[..cut] + digits[cut..] == digits;
  }

  lemma FirstDigit(digits: string)
    requires AllDigits(digits) && digits != ""
    ensures CanonicalInteger(digits[..1])
  {
    if digits[0] == '0' {
      assert digits[..1] == "0";
    }
  }

  lemma PointOf(body: string, integer: string)
    requires AllDigits(integer)
    requires body == integer || (|body| > |integer| && body[..|integer|] == integer && body[|integer|] == '.')
    ensures PointAt(body, 0) == |integer|
  {
    forall j | 0 <= j < |integer|
      ensures body[j] != '.'
    {
      assert body[j] == integer[j];
    }
  }

  /** Equal values have equal texts. */
  lemma FormatOfValue(a: Rat, b: Rat)
    requires Val(a) == Val(b)
    ensures FormatDecimal(a) == FormatDecimal(b)
  {
    if Finite(Val(a)) {
      var k := ScaleOf(Val(a));
      DecInjective(Mantissa(a, k), Mantissa(b, k), k);
    }
  }
}
