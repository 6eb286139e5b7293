/** Exact rational money arithmetic: internal/exact/exact.go.

    A `Rat` stands for Go's big.Rat. It is kept unreduced here, so only its value
    `Val` means anything; every operation states its effect on that value. The
    ghost half of the module defines the same notions on real numbers, and the
    executable half is proved to agree with it.
  */
module Exact {
  import opened Results

  /******* The smaller and the larger *******/

  function Min(a: int, b: int): (m: int)
    ensures m <= a && m <= b && (m == a || m == b)
  {
    if a > b then b else a
  }

  function Max(a: int, b: int): (m: int)
    ensures m >= a && m >= b && (m == a || m == b)
  {
    if a < b then b else a
  }

  ghost function MinReal(a: real, b: real): real {
    if a > b then b else a
  }

  /******* Powers of ten *******/

  function Pow10(k: nat): (p: int)
    ensures p >= 1
  {
    if k == 0 then 1 else 10 * Pow10(k - 1)
  }

  lemma {:induction false} Pow10Add(a: nat, b: nat)
    ensures Pow10(a + b) == Pow10(a) * Pow10(b)
  {
    if a != 0 {
      Pow10Add(a - 1, b);
    }
  }

  lemma MulReal(a: int, b: int)
    ensures (a * b) as real == a as real * b as real
  {}

  /******* Rationals *******/

  datatype Ratio = Ratio(num: int, den: int)
  type Rat = r: Ratio | r.den > 0 witness Ratio(0, 1)

  ghost function Val(r: Rat): real {
    r.num as real / r.den as real
  }

  lemma ValUnique(r: Rat, x: real)
    requires x * r.den as real == r.num as real
    ensures Val(r) == x
  {}

  function FromInt(n: int): (r: Rat)
    ensures Val(r) == n as real
  {
    Ratio(n, 1)
  }

  function Neg(a: Rat): (r: Rat)
    ensures Val(r) == -Val(a)
  {
    ValUnique(Ratio(-a.num, a.den), -Val(a));
    Ratio(-a.num, a.den)
  }

  function Add(a: Rat, b: Rat): (r: Rat)
    ensures Val(r) == Val(a) + Val(b)
  {
    AddValue(a, b);
    Ratio(a.num * b.den + b.num * a.den, a.den * b.den)
  }

  lemma AddValue(a: Rat, b: Rat)
    ensures a.den * b.den > 0
    ensures Val(Ratio(a.num * b.den + b.num * a.den, a.den * b.den)) == Val(a) + Val(b)
  {
    var x, y, c, d := Val(a), Val(b), a.den as real, b.den as real;
    MulReal(a.num, b.den);
    MulReal(b.num, a.den);
    MulReal(a.den, b.den);
    assert (x + y) * (c * d) == (x * c) * d + (y * d) * c;
    ValUnique(Ratio(a.num * b.den + b.num * a.den, a.den * b.den), x + y);
  }

  function Sub(a: Rat, b: Rat): (r: Rat)
    ensures Val(r) == Val(a) - Val(b)
  {
    Add(a, Neg(b))
  }

  function Mul(a: Rat, b: Rat): (r: Rat)
    ensures Val(r) == Val(a) * Val(b)
  {
    MulValue(a, b);
    Ratio(a.num * b.num, a.den * b.den)
  }

  lemma MulValue(a: Rat, b: Rat)
    ensures a.den * b.den > 0
    ensures Val(Ratio(a.num * b.num, a.den * b.den)) == Val(a) * Val(b)
  {
    var x, y, c, d := Val(a), Val(b), a.den as real, b.den as real;
    MulReal(a.num, b.num);
    MulReal(a.den, b.den);
    assert (x * y) * (c * d) == (x * c) * (y * d);
    ValUnique(Ratio(a.num * b.num, a.den * b.den), x * y);
  }

  /** Quotient of a by a non-zero b. */
  function Quo(a: Rat, b: Rat): (r: Rat)
    requires b.num != 0
    ensures Val(b) != 0.0 && Val(r) == Val(a) / Val(b)
  {
    QuoValue(a, b);
    if b.num > 0 then Ratio(a.num * b.den, a.den * b.num) else Ratio(-(a.num * b.den), a.den * -b.num)
  }

  lemma QuoValue(a: Rat, b: Rat)
    requires b.num != 0
    ensures Val(b) != 0.0
    ensures b.num > 0 ==> a.den * b.num > 0 && Val(Ratio(a.num * b.den, a.den * b.num)) == Val(a) / Val(b)
    ensures b.num < 0 ==> a.den * -b.num > 0 && Val(Ratio(-(a.num * b.den), a.den * -b.num)) == Val(a) / Val(b)
  {
    var x, y, c, d := Val(a), Val(b), a.den as real, b.den as real;
    assert y * d == b.num as real;
    var q := x / y;
    assert q * y == x;
    MulReal(a.num, b.den);
    MulReal(a.den, b.num);
    MulReal(a.den, -b.num);
    assert q * (c * (y * d)) == ((q * y) * c) * d;
    if b.num > 0 {
      ValUnique(Ratio(a.num * b.den, a.den * b.num), q);
    } else {
      assert q * (c * -(y * d)) == -(q * (c * (y * d)));
      ValUnique(Ratio(-(a.num * b.den), a.den * -b.num), q);
    }
  }

  lemma SignValue(r: Rat)
    ensures r.num > 0 <==> Val(r) > 0.0
    ensures r.num == 0 <==> Val(r) == 0.0
  {
    assert Val(r) * r.den as real == r.num as real;
  }

  function Sign(r: Rat): (s: int)
    ensures s in {-1, 0, 1}
    ensures s > 0 <==> Val(r) > 0.0
    ensures s == 0 <==> Val(r) == 0.0
  {
    SignValue(r);
    if r.num > 0 then 1 else if r.num == 0 then 0 else -1
  }

  function Cmp(a: Rat, b: Rat): (s: int)
    ensures s in {-1, 0, 1}
    ensures s > 0 <==> Val(a) > Val(b)
    ensures s == 0 <==> Val(a) == Val(b)
  {
    Sign(Sub(a, b))
  }

  /******* Finite decimals *******/

  /** The decimal m / 10^k. */
  ghost function Dec(m: int, k: nat): real {
    m as real / Pow10(k) as real
  }

  /** x has a decimal representation with k digits after the point. */
  ghost predicate HasScale(x: real, k: nat) {
    exists m: int :: x == Dec(m, k)
  }

  ghost predicate Finite(x: real) {
    exists k: nat :: HasScale(x, k)
  }

  lemma QuotientIs(n: real, d: real, x: real)
    requires d != 0.0
    ensures x == n / d <==> x * d == n
  {}

  lemma DecIs(x: real, m: int, k: nat)
    ensures x == Dec(m, k) <==> x * Pow10(k) as real == m as real
  {
    QuotientIs(m as real, Pow10(k) as real, x);
  }

  lemma RealDistrib(x: real, y: real, p: real)
    ensures (x + y) * p == x * p + y * p
    ensures (x - y) * p == x * p - y * p
  {}

  lemma RealProducts(x: real, y: real, p: real, q: real)
    ensures (x * y) * (p * q) == (x * p) * (y * q)
  {}

  lemma DecSum(m: int, n: int, k: nat)
    ensures Dec(m, k) + Dec(n, k) == Dec(m + n, k)
    ensures Dec(m, k) - Dec(n, k) == Dec(m - n, k)
  {
    hide *;
    DecIs(Dec(m, k), m, k);
    DecIs(Dec(n, k), n, k);
    RealDistrib(Dec(m, k), Dec(n, k), Pow10(k) as real);
    DecIs(Dec(m, k) + Dec(n, k), m + n, k);
    DecIs(Dec(m, k) - Dec(n, k), m - n, k);
  }

  lemma DecProduct(m: int, k: nat, n: int, j: nat)
    ensures Dec(m, k) * Dec(n, j) == Dec(m * n, k + j)
  {
    hide *;
    DecIs(Dec(m, k), m, k);
    DecIs(Dec(n, j), n, j);
    Pow10Add(k, j);
    MulReal(Pow10(k), Pow10(j));
    MulReal(m, n);
    RealProducts(Dec(m, k), Dec(n, j), Pow10(k) as real, Pow10(j) as real);
    DecIs(Dec(m, k) * Dec(n, j), m * n, k + j);
  }

  lemma ScaleUp(x: real, k: nat, j: nat)
    requires HasScale(x, k) && k <= j
    ensures HasScale(x, j)
  {
    var m :| x == Dec(m, k);
    var t := Pow10(j - k);
    DecIs(1.0, t, j - k);
    DecProduct(m, k, t, j - k);
  }

  lemma ScaleSum(x: real, y: real, k: nat)
    requires HasScale(x, k) && HasScale(y, k)
    ensures HasScale(x + y, k) && HasScale(x - y, k)
  {
    var m :| x == Dec(m, k);
    var n :| y == Dec(n, k);
    DecSum(m, n, k);
  }

  lemma FiniteSum(x: real, y: real)
    requires Finite(x) && Finite(y)
    ensures Finite(x + y) && Finite(x - y)
  {
    var k: nat :| HasScale(x, k);
    var j: nat :| HasScale(y, j);
    var m := if k < j then j else k;
    ScaleUp(x, k, m);
    ScaleUp(y, j, m);
    ScaleSum(x, y, m);
  }

  lemma ScaleProduct(x: real, y: real, k: nat, j: nat)
    requires HasScale(x, k) && HasScale(y, j)
    ensures HasScale(x * y, k + j)
  {
    var m :| x == Dec(m, k);
    var n :| y == Dec(n, j);
    DecProduct(m, k, n, j);
  }

  lemma FiniteProduct(x: real, y: real)
    requires Finite(x) && Finite(y)
    ensures Finite(x * y)
  {
    var k: nat :| HasScale(x, k);
    var j: nat :| HasScale(y, j);
    ScaleProduct(x, y, k, j);
  }

  lemma FiniteInt(n: int)
    ensures HasScale(n as real, 0) && Finite(n as real)
  {
    DecIs(n as real, n, 0);
    assert HasScale(n as real, 0);
  }

  /** The number of digits a finite decimal needs. */
  ghost function ScaleOf(x: real): (k: nat)
    requires Finite(x)
    ensures HasScale(x, k) && forall j: nat :: j < k ==> !HasScale(x, j)
  {
    var k: nat :| HasScale(x, k);
    LeastBelow(x, k)
  }

  ghost function LeastBelow(x: real, k: nat): (r: nat)
    requires HasScale(x, k)
    ensures r <= k && HasScale(x, r) && forall j: nat :: j < r ==> !HasScale(x, j)
  {
    if exists j: nat :: j < k && HasScale(x, j) then
      var j: nat :| j < k && HasScale(x, j);
      LeastBelow(x, j)
    else k
  }

  lemma ScaleOfIs(x: real, k: nat)
    requires HasScale(x, k) && forall j: nat :: j < k ==> !HasScale(x, j)
    ensures Finite(x) && ScaleOf(x) == k
  {}

  lemma ScaleGivesMultiple(r: Rat, k: nat) returns (m: int)
    requires HasScale(Val(r), k)
    ensures r.num * Pow10(k) == m * r.den
  {
    var x, d, p := Val(r), r.den as real, Pow10(k) as real;
    m :| x == Dec(m, k);
    DecIs(x, m, k);
    QuotientIs(r.num as real, d, x);
    Rescale(x, d, p, r.num as real);
    MulReal(r.num, Pow10(k));
    MulReal(m, r.den);
  }

  lemma MultipleGivesScale(r: Rat, k: nat, m: int)
    requires r.num * Pow10(k) == m * r.den
    ensures Val(r) == Dec(m, k) && HasScale(Val(r), k)
  {
    var x, d, p := Val(r), r.den as real, Pow10(k) as real;
    QuotientIs(r.num as real, d, x);
    Rescale(x, d, p, r.num as real);
    MulReal(r.num, Pow10(k));
    MulReal(m, r.den);
    CancelFactor(m as real, x * p, d);
    DecIs(x, m, k);
  }

  /** den divides num * 10^k exactly when num/den has scale k. */
  lemma ScaleIsDivisibility(r: Rat, k: nat)
    ensures HasScale(Val(r), k) <==> (r.num * Pow10(k)) % r.den == 0
  {
    var n := r.num * Pow10(k);
    if HasScale(Val(r), k) {
      var m := ScaleGivesMultiple(r, k);
      MultipleMod(m, r.den);
    }
    if n % r.den == 0 {
      MultipleGivesScale(r, k, n / r.den);
    }
  }

  lemma Rescale(x: real, d: real, p: real, n: real)
    requires x * d == n
    ensures (x * p) * d == n * p
  {}

  lemma MulNonNegative(a: int, b: int)
    requires a >= 0 && b >= 0
    ensures a * b >= 0
  {}

  lemma IntDistrib(a: int, b: int, c: int)
    ensures (a + b) * c == a * c + b * c
    ensures (a - b) * c == a * c - b * c
  {}

  lemma IntProducts(a: int, b: int, c: int, d: int)
    ensures (a * b) * (c * d) == (a * c) * (b * d)
    ensures (a * b) * c == a * (b * c)
  {}

  lemma SmallMultiple(t: int, d: int)
    requires d > 0 && -d < t * d < d
    ensures t == 0
  {
    if t >= 1 {
      MulNonNegative(t - 1, d);
      IntDistrib(t, 1, d);
    } else if t <= -1 {
      MulNonNegative(-t - 1, d);
      IntDistrib(-t, 1, d);
    }
  }

  lemma DivUnique(n: int, d: int, q: int, r: int)
    requires d > 0 && n == q * d + r && 0 <= r < d
    ensures n / d == q && n % d == r
  {
    var a, b := n / d, n % d;
    assert n == a * d + b && 0 <= b < d;
    IntDistrib(a, q, d);
    SmallMultiple(a - q, d);
  }

  lemma MultipleMod(m: int, d: int)
    requires d > 0
    ensures (m * d) % d == 0 && (m * d) / d == m
  {
    DivUnique(m * d, d, m, 0);
  }

  lemma CancelFactor(a: real, b: real, c: real)
    requires c != 0.0 && a * c == b * c
    ensures a == b
  {}

  /** Division by p as long as it goes through, as FormatDecimal's loops do. */
  function Strip(d: int, p: int): (r: int)
    requires d > 0 && p >= 2
    ensures 0 < r <= d && r % p != 0
    decreases d
  {
    if d % p == 0 then
      assert d == (d / p) * p;
      Strip(d / p, p)
    else d
  }

  /** d is its stripped part times a divisor of a power of ten. */
  lemma {:induction false} StripDivides(d: int, p: int, q: int) returns (c: int, f: int, e: nat)
    requires d > 0 && p >= 2 && p * q == 10
    ensures d == Strip(d, p) * c
    ensures Pow10(e) == f * c && c > 0
    decreases d
  {
    if d % p == 0 {
      var c0, f0, e0 := StripDivides(d / p, p, q);
      c, f, e := c0 * p, f0 * q, e0 + 1;
      StripStep(d, p);
      hide *;
      IntProducts(Strip(d, p), c0, p, 1);
      NextPow10(e0, f0, c0, q, p);
    } else {
      c, f, e := 1, 1, 0;
    }
  }

  lemma StripStep(d: int, p: int)
    requires d > 0 && p >= 2 && d % p == 0
    ensures d == (d / p) * p && d / p > 0 && Strip(d, p) == Strip(d / p, p)
  {}

  lemma NextPow10(e: nat, f: int, c: int, q: int, p: int)
    requires Pow10(e) == f * c && p * q == 10 && c > 0 && p > 0
    ensures Pow10(e + 1) == (f * q) * (c * p) && c * p > 0
  {
    IntProducts(f, q, c, p);
    MulNonNegative(c - 1, p);
    IntDistrib(c, 1, p);
  }

  lemma CancelTen(s: int, x: int)
    requires s > 0 && s % 2 != 0 && s % 5 != 0
    requires (x * 10) % s == 0
    ensures x % s == 0
  {
    var c := (x * 10) / s;
    assert x * 10 == s * c;
    Coprime2(s, c, 5 * x);
    var c2 := c / 2;
    assert c == 2 * c2;
    assert s * c == 2 * (s * c2);
    assert 5 * x == s * c2;
    Coprime5(s, c2, x);
    var c5 := c2 / 5;
    assert c2 == 5 * c5;
    assert s * c2 == 5 * (s * c5);
    MultipleMod(c5, s);
  }

  lemma Coprime2(s: int, c: int, x: int)
    requires s % 2 != 0 && s * c == 2 * x
    ensures c % 2 == 0
  {
    var u := s / 2;
    assert s == 2 * u + 1;
    assert s * c == 2 * (u * c) + c;
  }

  lemma Coprime5(s: int, c: int, x: int)
    requires s % 5 != 0 && s * c == 5 * x
    ensures c % 5 == 0
  {
    var u, r, v, w := s / 5, s % 5, c / 5, c % 5;
    assert s == 5 * u + r && c == 5 * v + w;
    assert s * c == 5 * (u * c + r * v) + r * w;
    assert (r * w) % 5 == 0;
    assert r == 1 || r == 2 || r == 3 || r == 4;
    assert w == 0 || w == 1 || w == 2 || w == 3 || w == 4;
  }

  lemma {:induction false} CancelPow10(s: int, x: int, k: nat)
    requires s > 0 && s % 2 != 0 && s % 5 != 0
    requires (x * Pow10(k)) % s == 0
    ensures x % s == 0
  {
    if k != 0 {
      assert x * Pow10(k) == (x * Pow10(k - 1)) * 10;
      CancelTen(s, x * Pow10(k - 1));
      CancelPow10(s, x, k - 1);
    }
  }

  /** What is left of d without its factors 2 and 5. */
  function Residue(d: int): (s: int)
    requires d > 0
    ensures 0 < s <= d && s % 5 != 0
  {
    Strip(Strip(d, 2), 5)
  }

  lemma EvenTimes(a: int, c: int)
    requires a % 2 == 0
    ensures (a * c) % 2 == 0
  {
    IntProducts(2, a / 2, c, 1);
    assert a * c == 2 * ((a / 2) * c);
  }

  lemma ResidueOdd(d: int)
    requires d > 0
    ensures Residue(d) % 2 != 0
  {
    var c, f, e := StripDivides(Strip(d, 2), 5, 2);
    if Residue(d) % 2 == 0 {
      EvenTimes(Residue(d), c);
    }
  }

  /** den is its residue times a divisor of a power of ten. */
  lemma ResidueDivides(d: int) returns (c: int, f: int, e: nat)
    requires d > 0
    ensures d == Residue(d) * c && Pow10(e) == f * c
  {
    var c2, f2, e2 := StripDivides(d, 2, 5);
    var c5, f5, e5 := StripDivides(Strip(d, 2), 5, 2);
    c, f, e := c5 * c2, f5 * f2, e5 + e2;
    IntProducts(Residue(d), c5, c2, 1);
    IntProducts(f5, c5, f2, c2);
    Pow10Add(e5, e2);
  }

  /** A fraction is a finite decimal exactly when what is left of its denominator
      after removing the factors 2 and 5 divides its numerator. */
  lemma FiniteIsResidue(r: Rat)
    ensures Finite(Val(r)) <==> r.num % Residue(r.den) == 0
  {
    var s := Residue(r.den);
    var c, f, e := ResidueDivides(r.den);
    if r.num % s == 0 {
      var t := r.num / s;
      IntProducts(t, s, f, c);
      MultipleGivesScale(r, e, t * f);
    }
    if Finite(Val(r)) {
      var k: nat :| HasScale(Val(r), k);
      var m := ScaleGivesMultiple(r, k);
      IntProducts(m, c, s, 1);
      ResidueMultiple(r.num, k, m * c, r.den);
    }
  }

  lemma ResidueMultiple(n: int, k: nat, m: int, d: int)
    requires d > 0 && n * Pow10(k) == m * Residue(d)
    ensures n % Residue(d) == 0
  {
    ResidueOdd(d);
    MultipleMod(m, Residue(d));
    CancelPow10(Residue(d), n, k);
  }

  /** The digits after the point that a fraction needs, when finitely many do:
      big.Rat.FloatPrec as exact.go uses it. */
  function FloatPrec(r: Rat): (p: Option<nat>)
    ensures p.Some? <==> Finite(Val(r))
    ensures p.Some? ==> p.value == ScaleOf(Val(r))
  {
    FiniteIsResidue(r);
    if r.num % Residue(r.den) == 0 then Some(SearchScale(r, 0)) else None
  }

  function SearchScale(r: Rat, k: nat): (s: nat)
    requires Finite(Val(r)) && k <= ScaleOf(Val(r))
    ensures s == ScaleOf(Val(r))
    decreases ScaleOf(Val(r)) - k
  {
    ScaleIsDivisibility(r, k);
    if (r.num * Pow10(k)) % r.den == 0 then k else SearchScale(r, k + 1)
  }

  /******* Rounding *******/

  /** Nearest multiple of 10^-scale, ties to the even multiple: the meaning of
      QuantizeHalfEven on a real number. */
  ghost function HalfEven(x: real, scale: nat): real {
    Dec(NearestEven(Scaled(x, scale)), scale)
  }

  ghost function Scaled(x: real, scale: nat): real {
    x * Pow10(scale) as real
  }

  /** Nearest integer, ties to even. */
  ghost function NearestEven(y: real): (n: int)
    ensures -0.5 <= y - n as real <= 0.5
    ensures (y - n as real == 0.5 || y - n as real == -0.5) ==> n % 2 == 0
  {
    var m := y.Floor;
    var d := y - m as real;
    if d > 0.5 || (d == 0.5 && m % 2 == 1) then m + 1 else m
  }

  lemma NearestEvenIs(y: real, n: int)
    requires -0.5 <= y - n as real <= 0.5
    requires (y - n as real == 0.5 || y - n as real == -0.5) ==> n % 2 == 0
    ensures NearestEven(y) == n
  {
    var k := NearestEven(y);
    assert k <= n + 1 && n <= k + 1;
  }

  /** QuantizeHalfEven: rounds the magnitude and puts the sign back. */
  function QuantizeHalfEven(value: Rat, scale: nat): (r: Rat)
    ensures Val(r) == HalfEven(Val(value), scale)
  {
    QuantizeIsHalfEven(value, scale);
    hide *;
    Ratio(RoundedUnits(value, scale), Pow10(scale))
  }

  function RoundedUnits(value: Rat, scale: nat): int {
    var scaled := Abs(value.num) * Pow10(scale);
    var quotient, remainder := scaled / value.den, scaled % value.den;
    var rounded := if 2 * remainder > value.den || (2 * remainder == value.den && quotient % 2 == 1)
                   then quotient + 1 else quotient;
    if value.num < 0 then -rounded else rounded
  }

  function Abs(x: int): (a: int)
    ensures a >= 0 && (a == x || a == -x)
  {
    if x < 0 then -x else x
  }

  lemma QuantizeIsHalfEven(value: Rat, scale: nat)
    ensures Val(Ratio(RoundedUnits(value, scale), Pow10(scale))) == HalfEven(Val(value), scale)
  {
    hide *;
    UnitsAreNearest(value, scale);
    HalfEvenIs(Val(value), scale, RoundedUnits(value, scale));
    ValOfDec(RoundedUnits(value, scale), scale);
  }

  lemma HalfEvenIs(x: real, scale: nat, n: int)
    requires NearestEven(Scaled(x, scale)) == n
    ensures HalfEven(x, scale) == Dec(n, scale)
  {}

  lemma ValOfDec(n: int, scale: nat)
    ensures Val(Ratio(n, Pow10(scale))) == Dec(n, scale)
  {}

  lemma UnitsAreNearest(value: Rat, scale: nat)
    ensures NearestEven(Scaled(Val(value), scale)) == RoundedUnits(value, scale)
  {
    hide NearestEven, Val, Pow10, Abs;
    var scaled := Abs(value.num) * Pow10(scale);
    NearestUnits(value, scale, scaled / value.den, scaled % value.den);
  }

  lemma NearestUnits(value: Rat, scale: nat, quotient: int, remainder: int)
    requires Abs(value.num) * Pow10(scale) == quotient * value.den + remainder && 0 <= remainder < value.den
    ensures var rounded := if 2 * remainder > value.den || (2 * remainder == value.den && quotient % 2 == 1)
                           then quotient + 1 else quotient;
      NearestEven(Scaled(Val(value), scale)) == if value.num < 0 then -rounded else rounded
  {
    hide *;
    var y := Scaled(Val(value), scale);
    var u := if value.num < 0 then -y else y;
    var rounded := if 2 * remainder > value.den || (2 * remainder == value.den && quotient % 2 == 1)
                   then quotient + 1 else quotient;
    MagnitudeQuotient(value, scale, quotient, remainder, u);
    NearestEvenIs(u, rounded);
    NearestEvenIs(y, if value.num < 0 then -rounded else rounded);
  }

  lemma MagnitudeQuotient(value: Rat, scale: nat, quotient: int, remainder: int, u: real)
    requires Abs(value.num) * Pow10(scale) == quotient * value.den + remainder && 0 <= remainder < value.den
    requires u == if value.num < 0 then -Scaled(Val(value), scale) else Scaled(Val(value), scale)
    ensures 0.0 <= u - quotient as real < 1.0
    ensures 2 * remainder > value.den <==> u - quotient as real > 0.5
    ensures 2 * remainder == value.den <==> u - quotient as real == 0.5
  {
    hide *;
    var d := value.den as real;
    MagnitudeProduct(value, scale, u);
    MulReal(quotient, value.den);
    RealDistrib(u, quotient as real, d);
    FractionBounds(u - quotient as real, d, remainder, value.den);
  }

  lemma MagnitudeProduct(value: Rat, scale: nat, u: real)
    requires u == if value.num < 0 then -Scaled(Val(value), scale) else Scaled(Val(value), scale)
    ensures u * value.den as real == (Abs(value.num) * Pow10(scale)) as real
  {
    ScaledTimesDen(value, scale);
    NegatedProduct(Scaled(Val(value), scale), value.den as real, value.num, Pow10(scale));
    hide Val, Scaled, Pow10;
  }

  lemma ScaledTimesDen(value: Rat, scale: nat)
    ensures Scaled(Val(value), scale) * value.den as real == (value.num * Pow10(scale)) as real
  {
    var d, p := value.den as real, Pow10(scale) as real;
    QuotientIs(value.num as real, d, Val(value));
    Rescale(Val(value), d, p, value.num as real);
    MulReal(value.num, Pow10(scale));
  }

  lemma NegatedProduct(y: real, d: real, n: int, p: int)
    ensures -y * d == -(y * d) && (-n) * p == -(n * p)
  {}

  lemma FractionBounds(f: real, d: real, r: int, den: int)
    requires den > 0 && d == den as real && f * d == r as real && 0 <= r < den
    ensures 0.0 <= f < 1.0
    ensures 2 * r > den <==> f > 0.5
    ensures 2 * r == den <==> f == 0.5
  {
    RealDistrib(f, 0.5, d);
    RealDistrib(f, 1.0, d);
    if f < 0.0 {
      SignOfProduct(-f, d);
    }
    if f >= 1.0 {
      SignOfProduct(f - 1.0, d);
    }
    SignOfProduct(f - 0.5, d);
  }

  lemma SignOfProduct(x: real, d: real)
    requires d > 0.0
    ensures x > 0.0 <==> x * d > 0.0
    ensures x == 0.0 <==> x * d == 0.0
  {}

  /** Half a unit in the last kept place; at eight places 5e-9. */
  lemma RoundingError(x: real, scale: nat)
    requires scale >= 8
    ensures -0.000000005 <= HalfEven(x, scale) - x <= 0.000000005
    ensures HasScale(HalfEven(x, scale), scale)
  {
    LargePow10(scale);
    DecNear(x, NearestEven(Scaled(x, scale)), scale);
  }

  lemma {:induction false} LargePow10(k: nat)
    requires k >= 8
    ensures Pow10(k) >= 100000000
  {
    if k > 8 {
      LargePow10(k - 1);
    } else {
      assert Pow10(4) == 10000;
      assert Pow10(8) == 10 * 10 * 10 * 10 * Pow10(4);
    }
  }

  lemma DecNear(x: real, n: int, k: nat)
    requires Pow10(k) >= 100000000
    requires -0.5 <= x * Pow10(k) as real - n as real <= 0.5
    ensures -0.000000005 <= Dec(n, k) - x <= 0.000000005
  {
    DecIs(Dec(n, k), n, k);
    RealDistrib(Dec(n, k), x, Pow10(k) as real);
    SmallQuotient(Dec(n, k) - x, Pow10(k) as real);
  }

  lemma SmallQuotient(e: real, p: real)
    requires p >= 100000000.0 && -0.5 <= e * p <= 0.5
    ensures -0.000000005 <= e <= 0.000000005
  {
    if e > 0.000000005 {
      SignOfProduct(e - 0.000000005, p);
      RealDistrib(e, 0.000000005, p);
    }
    if e < -0.000000005 {
      SignOfProduct(-e - 0.000000005, p);
      RealDistrib(-e, 0.000000005, p);
    }
  }

  /** Rounding x never leaves an interval whose ends are multiples of the unit. */
  lemma RoundingKeepsBounds(x: real, low: real, high: real, scale: nat)
    requires low <= x <= high && HasScale(low, scale) && HasScale(high, scale)
    ensures low <= HalfEven(x, scale) <= high
  {
    var a :| low == Dec(a, scale);
    var b :| high == Dec(b, scale);
    DecOrder(x, a, scale);
    DecOrder(x, b, scale);
    NearestEvenBounds(Scaled(x, scale), a, b);
    DecMonotone(a, NearestEven(Scaled(x, scale)), scale);
    DecMonotone(NearestEven(Scaled(x, scale)), b, scale);
  }

  lemma NearestEvenBounds(y: real, a: int, b: int)
    requires a as real <= y <= b as real
    ensures a <= NearestEven(y) <= b
  {}

  lemma DecOrder(x: real, m: int, k: nat)
    ensures Dec(m, k) <= x <==> m as real <= x * Pow10(k) as real
    ensures x <= Dec(m, k) <==> x * Pow10(k) as real <= m as real
  {
    DecIs(Dec(m, k), m, k);
    ScaledOrder(Dec(m, k), x, Pow10(k) as real);
    ScaledOrder(x, Dec(m, k), Pow10(k) as real);
  }

  lemma DecMonotone(m: int, n: int, k: nat)
    requires m <= n
    ensures Dec(m, k) <= Dec(n, k)
  {
    DecIs(Dec(n, k), n, k);
    DecOrder(Dec(n, k), m, k);
  }

  lemma ScaledOrder(x: real, y: real, p: real)
    requires p > 0.0
    ensures x <= y <==> x * p <= y * p
  {
    SignOfProduct(y - x, p);
    RealDistrib(y, x, p);
  }

  /******* FIFO cost allocation *******/

  /** The part of a lot's cost that goes with `take` out of `quantity` units: all of
      it for the whole lot, the exact share when that is a finite decimal, otherwise
      the share rounded half-even at eight places or the cost's own precision.
      This is FIFOAllocation on real numbers. */
  ghost function Allocation(cost: real, take: real, quantity: real): Option<real>
    requires take != quantity ==> quantity != 0.0
  {
    if take == quantity then Some(cost) else RoundedShare(cost, Share(cost, take, quantity))
  }

  /** The exact share of a cost. */
  ghost function Share(cost: real, take: real, quantity: real): real
    requires quantity != 0.0
  {
    cost * (take / quantity)
  }

  ghost function RoundedShare(cost: real, share: real): Option<real> {
    if Finite(share) then Some(share)
    else if !Finite(cost) then None
    else
      var rounded := HalfEven(share, MaxScale(ScaleOf(cost)));
      if rounded < 0.0 || rounded > cost then None else Some(rounded)
  }

  function MaxScale(scale: nat): (m: nat)
    ensures m >= 8 && m >= scale
  {
    if scale > 8 then scale else 8
  }

  function FIFOAllocation(cost: Rat, take: Rat, quantity: Rat): (r: Result<Rat>)
    requires Val(take) != Val(quantity) ==> Val(quantity) != 0.0
    ensures r.Ok? <==> Allocation(Val(cost), Val(take), Val(quantity)).Some?
    ensures r.Ok? ==> Val(r.value) == Allocation(Val(cost), Val(take), Val(quantity)).value
  {
    SignValue(quantity);
    AllocationOfShare(cost, take, quantity);
    hide *;
    if Cmp(take, quantity) == 0 then Ok(cost) else ShareAllocation(cost, Mul(cost, Quo(take, quantity)))
  }

  lemma AllocationOfShare(cost: Rat, take: Rat, quantity: Rat)
    requires Val(take) != Val(quantity) ==> Val(quantity) != 0.0
    ensures Val(take) == Val(quantity) ==> Allocation(Val(cost), Val(take), Val(quantity)) == Some(Val(cost))
    ensures (Val(take) != Val(quantity) ==> quantity.num != 0)
    ensures (Val(take) != Val(quantity) ==>
      Allocation(Val(cost), Val(take), Val(quantity)) == RoundedShare(Val(cost), Val(Mul(cost, Quo(take, quantity)))))
  {
    hide *;
    SignValue(quantity);
    AllocationUnfolds(Val(cost), Val(take), Val(quantity));
    if Val(take) != Val(quantity) {
      var fraction := Quo(take, quantity);
      ShareIs(Val(cost), Val(take), Val(quantity), Val(fraction));
      assert Val(Mul(cost, fraction)) == Share(Val(cost), Val(take), Val(quantity));
    }
  }

  lemma ShareIs(cost: real, take: real, quantity: real, fraction: real)
    requires quantity != 0.0 && fraction == take / quantity
    ensures Share(cost, take, quantity) == cost * fraction
  {}

  lemma AllocationUnfolds(cost: real, take: real, quantity: real)
    requires take != quantity ==> quantity != 0.0
    ensures take == quantity ==> Allocation(cost, take, quantity) == Some(cost)
    ensures take != quantity ==> Allocation(cost, take, quantity) == RoundedShare(cost, Share(cost, take, quantity))
  {
    hide RoundedShare;
  }

  function ShareAllocation(cost: Rat, share: Rat): (r: Result<Rat>)
    ensures r.Ok? <==> RoundedShare(Val(cost), Val(share)).Some?
    ensures r.Ok? ==> Val(r.value) == RoundedShare(Val(cost), Val(share)).value
  {
    hide HalfEven, Val, Finite, QuantizeHalfEven, Cmp, Sign, FloatPrec, MaxScale;
    if FloatPrec(share).Some? then Ok(share)
    else match FloatPrec(cost)
      case None => Err("lot cost is not a finite decimal")
      case Some(scale) =>
        var rounded := QuantizeHalfEven(share, MaxScale(scale));
        if Sign(rounded) < 0 || Cmp(rounded, cost) > 0
        then Err("rounded allocation exceeds lot cost") else Ok(rounded)
  }

  /** For a lot whose cost is a non-negative finite decimal neither error occurs:
      the allocation is a finite decimal between nothing and the whole cost, leaves a
      finite decimal behind, and misses the exact share by at most 5e-9. */
  lemma AllocationLaws(cost: real, take: real, quantity: real)
    requires Finite(cost) && cost >= 0.0 && 0.0 < take <= quantity
    ensures var a := Allocation(cost, take, quantity);
      && a.Some? && Finite(a.value) && Finite(cost - a.value) && 0.0 <= a.value <= cost
      && -0.000000005 <= a.value - Share(cost, take, quantity) <= 0.000000005
      && (take == quantity ==> a.value == cost)
  {
    hide *;
    AllocationUnfolds(cost, take, quantity);
    ShareBounds(cost, take, quantity);
    FiniteSum(cost, cost);
    ShareLaws(cost, Share(cost, take, quantity));
  }

  lemma ShareLaws(cost: real, share: real)
    requires Finite(cost) && 0.0 <= share <= cost
    ensures var a := RoundedShare(cost, share);
      && a.Some? && Finite(a.value) && Finite(cost - a.value) && 0.0 <= a.value <= cost
      && -0.000000005 <= a.value - share <= 0.000000005
  {
    if Finite(share) {
      FiniteSum(cost, share);
    } else {
      RoundedShareLaws(cost, share);
    }
    hide HalfEven, Finite, MaxScale;
  }

  lemma RoundedShareLaws(cost: real, share: real)
    requires Finite(cost) && 0.0 <= share <= cost
    ensures var rounded := HalfEven(share, MaxScale(ScaleOf(cost)));
      && 0.0 <= rounded <= cost && Finite(rounded) && Finite(cost - rounded)
      && -0.000000005 <= rounded - share <= 0.000000005
  {
    hide HalfEven;
    var scale := MaxScale(ScaleOf(cost));
    ScaleUp(cost, ScaleOf(cost), scale);
    DecIs(0.0, 0, scale);
    RoundingKeepsBounds(share, 0.0, cost, scale);
    RoundingError(share, scale);
    FiniteSum(cost, HalfEven(share, scale));
  }

  lemma ShareBounds(cost: real, take: real, quantity: real)
    requires cost >= 0.0 && 0.0 < take <= quantity
    ensures 0.0 <= Share(cost, take, quantity) <= cost
    ensures take == quantity ==> Share(cost, take, quantity) == cost
  {
    var fraction := take / quantity;
    QuotientIs(take, quantity, fraction);
    FractionOfCost(cost, take, quantity, fraction);
  }

  lemma FractionOfCost(cost: real, take: real, quantity: real, fraction: real)
    requires cost >= 0.0 && 0.0 < take <= quantity && fraction * quantity == take
    ensures 0.0 < fraction <= 1.0 && 0.0 <= cost * fraction <= cost
    ensures take == quantity ==> fraction == 1.0
  {
    SignOfProduct(fraction, quantity);
    SignOfProduct(1.0 - fraction, quantity);
    RealDistrib(1.0, fraction, quantity);
    SignOfProduct(cost, fraction);
    if fraction < 1.0 {
      SignOfProduct(cost, 1.0 - fraction);
      RealDistrib(1.0, fraction, cost);
    }
  }
}
