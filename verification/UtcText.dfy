/** RFC 3339 timestamps as the ledger stores and sorts them: time.Parse,
    UTC().Format(RFC3339Nano), canonicalUTCString (broker_snapshot.go) and SQLite's
    BINARY text order with and without rtrim(occurred_at,'Z').
  */
module UtcText {
  import opened Results
  import opened Exact
  import opened DecimalText

  /******* Text order *******/

  /** SQLite BINARY collation: the order of the first difference, prefixes first. */
  predicate LexLess(a: string, b: string) {
    b != "" && (a == "" || a[0] < b[0] || (a[0] == b[0] && LexLess(a[1..], b[1..])))
  }

  lemma {:induction false} LexAt(a: string, b: string, k: nat)
    requires k <= |a| && k < |b| && a[..k] == b[..k] && (k == |a| || a[k] < b[k])
    ensures LexLess(a, b) && !LexLess(b, a)
  {
    if k > 0 {
      assert a[0] == a[..k][0] == b[..k][0] == b[0];
      assert a[1..][..k - 1] == a[..k][1..] == b[..k][1..] == b[1..][..k - 1];
      LexAt(a[1..], b[1..], k - 1);
    }
  }

  /** Where two different texts part. */
  lemma {:induction false} FirstDifference(a: string, b: string) returns (k: nat)
    requires a != b
    ensures k <= |a| && k <= |b| && a[..k] == b[..k] && (k < |a| || k < |b|)
    ensures k < |a| && k < |b| ==> a[k] != b[k]
  {
    if a == "" || b == "" || a[0] != b[0] {
      k := 0;
    } else {
      assert a == [a[0]] + a[1..] && b == [b[0]] + b[1..];
      var j := FirstDifference(a[1..], b[1..]);
      k := j + 1;
      assert a[..k] == [a[0]] + a[1..][..j] && b[..k] == [b[0]] + b[1..][..j];
    }
  }

  lemma LexTotal(a: string, b: string)
    ensures a == b ==> !LexLess(a, b)
    ensures a != b ==> (LexLess(a, b) <==> !LexLess(b, a))
  {
    if a == b {
      LexIrreflexive(a);
    } else {
      var k := FirstDifference(a, b);
      if k == |a| || (k < |b| && a[k] < b[k]) {
        LexAt(a, b, k);
      } else {
        LexAt(b, a, k);
      }
    }
  }

  lemma {:induction false} LexIrreflexive(a: string)
    ensures !LexLess(a, a)
  {
    if a != "" {
      LexIrreflexive(a[1..]);
    }
  }

  lemma {:induction false} LexTransitive(a: string, b: string, c: string)
    requires LexLess(a, b) && LexLess(b, c)
    ensures LexLess(a, c)
  {
    if a != "" && a[0] == b[0] && b[0] == c[0] {
      LexTransitive(a[1..], b[1..], c[1..]);
    }
  }

  lemma {:induction false} LexConcat(x: string, a: string, y: string, b: string)
    requires |x| == |y|
    ensures LexLess(x + a, y + b) <==> LexLess(x, y) || (x == y && LexLess(a, b))
  {
    if x == "" {
      assert x + a == a && y + b == b;
    } else {
      LexConcat(x[1..], a, y[1..], b);
      assert (x + a)[1..] == x[1..] + a && (y + b)[1..] == y[1..] + b;
      assert x == [x[0]] + x[1..] && y == [y[0]] + y[1..];
    }
  }

  /** Fixed-width digits sort as numbers. */
  lemma {:induction false} DigitsOrder(m: nat, n: nat, w: nat)
    requires m < Pow10(w) && n < Pow10(w)
    ensures LexLess(FixedDigits(m, w), FixedDigits(n, w)) <==> m < n
    ensures FixedDigits(m, w) == FixedDigits(n, w) <==> m == n
  {
    if w == 0 {
      LexIrreflexive("");
    } else {
      DigitsOrder(m / 10, n / 10, w - 1);
      var c, d := [('0' as int + m % 10) as char], [('0' as int + n % 10) as char];
      LexConcat(FixedDigits(m / 10, w - 1), c, FixedDigits(n / 10, w - 1), d);
      assert LexLess(c, d) <==> m % 10 < n % 10 by { LexIrreflexive(""); assert c[1..] == "" && d[1..] == ""; }
      ValOfFixed(m, w);
      ValOfFixed(n, w);
    }
  }

  /******* Calendar *******/

  datatype Stamp = Stamp(year: int, month: int, day: int, hour: int, minute: int, second: int, nano: int)

  predicate Leap(year: int) {
    year % 4 == 0 && (year % 100 != 0 || year % 400 == 0)
  }

  function DaysIn(year: int, month: int): (d: int)
    ensures 28 <= d <= 31
  {
    if month == 2 then (if Leap(year) then 29 else 28)
    else if month in {4, 6, 9, 11} then 30 else 31
  }

  predicate ValidStamp(s: Stamp) {
    && 1 <= s.month <= 12 && 1 <= s.day <= DaysIn(s.year, s.month)
    && 0 <= s.hour < 24 && 0 <= s.minute < 60 && 0 <= s.second < 60 && 0 <= s.nano < 1_000_000_000
  }

  /** Years a four-digit text can hold. */
  predicate FourDigitYear(s: Stamp) {
    0 <= s.year <= 9999
  }

  ghost function YearDays(year: int): int {
    if Leap(year) then 366 else 365
  }

  ghost function DaysBeforeYear(year: int): int
    decreases if year < 0 then -year else year
  {
    if year == 0 then 0
    else if year > 0 then DaysBeforeYear(year - 1) + YearDays(year - 1)
    else DaysBeforeYear(year + 1) - YearDays(year)
  }

  ghost function DaysBeforeMonth(year: int, month: int): int
    decreases month
  {
    if month <= 1 then 0 else DaysBeforeMonth(year, month - 1) + DaysIn(year, month - 1)
  }

  ghost function DayNumber(s: Stamp): int {
    DaysBeforeYear(s.year) + DaysBeforeMonth(s.year, s.month) + s.day - 1
  }

  /** Nanoseconds since the start of year 0: the instant a UTC stamp names. */
  ghost function Instant(s: Stamp): int {
    (((DayNumber(s) * 24 + s.hour) * 60 + s.minute) * 60 + s.second) * 1_000_000_000 + s.nano
  }

  lemma NextYear(year: int)
    ensures DaysBeforeYear(year + 1) == DaysBeforeYear(year) + YearDays(year)
  {}

  lemma MonthsOfYear(year: int)
    ensures DaysBeforeMonth(year, 12) + 31 == YearDays(year)
  {
    assert DaysBeforeMonth(year, 4) == 31 + DaysIn(year, 2) + 31;
    assert DaysBeforeMonth(year, 8) == DaysBeforeMonth(year, 4) + 30 + 31 + 30 + 31;
    assert DaysBeforeMonth(year, 12) == DaysBeforeMonth(year, 8) + 31 + 30 + 31 + 30;
  }

  lemma {:induction false} MonthOrder(year: int, m: int, n: int)
    requires 1 <= m < n
    ensures DaysBeforeMonth(year, m) + DaysIn(year, m) <= DaysBeforeMonth(year, n)
  {
    if m + 1 < n {
      MonthOrder(year, m, n - 1);
    }
  }

  lemma {:induction false} YearOrder(y: int, z: int)
    requires y < z
    ensures DaysBeforeYear(y) + YearDays(y) <= DaysBeforeYear(z)
    decreases z - y
  {
    NextYear(y);
    if y + 1 < z {
      YearOrder(y + 1, z);
    }
  }

  /** Days of the year come after its start and before the next. */
  lemma DayInYear(s: Stamp)
    requires ValidStamp(s)
    ensures DaysBeforeYear(s.year) <= DayNumber(s) < DaysBeforeYear(s.year) + YearDays(s.year)
  {
    MonthsOfYear(s.year);
    if s.month < 12 {
      MonthOrder(s.year, s.month, 12);
    }
    if s.month > 1 {
      MonthOrder(s.year, 1, s.month);
    }
  }

  predicate DateLess(a: Stamp, b: Stamp) {
    a.year < b.year || (a.year == b.year && (a.month < b.month || (a.month == b.month && a.day < b.day)))
  }

  lemma DateOrder(a: Stamp, b: Stamp)
    requires ValidStamp(a) && ValidStamp(b) && DateLess(a, b)
    ensures DayNumber(a) < DayNumber(b)
  {
    if a.year < b.year {
      DayInYear(a);
      DayInYear(b);
      YearOrder(a.year, b.year);
    } else if a.month < b.month {
      MonthOrder(a.year, a.month, b.month);
    }
  }

  predicate SameDate(a: Stamp, b: Stamp) {
    a.year == b.year && a.month == b.month && a.day == b.day
  }

  /** Field order: year, month, day, hour, minute, second, nanosecond. */
  predicate StampLess(a: Stamp, b: Stamp) {
    DateLess(a, b) || (SameDate(a, b) && ClockLess(a, b))
  }

  predicate ClockLess(a: Stamp, b: Stamp) {
    a.hour < b.hour || (a.hour == b.hour && (a.minute < b.minute || (a.minute == b.minute &&
      (a.second < b.second || (a.second == b.second && a.nano < b.nano)))))
  }

  lemma InstantOrder(a: Stamp, b: Stamp)
    requires ValidStamp(a) && ValidStamp(b)
    ensures StampLess(a, b) <==> Instant(a) < Instant(b)
    ensures a == b <==> Instant(a) == Instant(b)
  {
    if DateLess(a, b) {
      DateOrder(a, b);
    } else if DateLess(b, a) {
      DateOrder(b, a);
    } else {
      assert SameDate(a, b) && DayNumber(a) == DayNumber(b);
    }
    hide DayNumber;
  }

  /******* Formatting *******/

  function YearText(year: int): string {
    if year < 0 then "-" + FixedDigits(-year, Max(4, Width(-year)))
    else FixedDigits(year, Max(4, Width(year)))
  }

  function TrimZeros(s: string): (t: string)
    ensures |t| <= |s| && t == s[..|t|] && (t != "" ==> t[|t| - 1] != '0')
    ensures forall i :: |t| <= i < |s| ==> s[i] == '0'
  {
    if s == "" || s[|s| - 1] != '0' then s else TrimZeros(s[..|s| - 1])
  }

  function FractionText(nano: nat): string {
    if nano == 0 then "" else "." + TrimZeros(FixedDigits(nano, 9))
  }

  function AfterYear(s: Stamp): string
    requires ValidStamp(s)
  {
    "-" + (FixedDigits(s.month, 2) + ("-" + (FixedDigits(s.day, 2) + ("T" + AfterDate(s)))))
  }

  function AfterDate(s: Stamp): string
    requires ValidStamp(s)
  {
    FixedDigits(s.hour, 2) + (":" + (FixedDigits(s.minute, 2) + (":" + (FixedDigits(s.second, 2) + FractionText(s.nano)))))
  }

  /** The text without its final Z: what rtrim(occurred_at,'Z') compares. */
  function Stripped(s: Stamp): string
    requires ValidStamp(s)
  {
    YearText(s.year) + AfterYear(s)
  }

  /** UTC().Format(time.RFC3339Nano). */
  function Format(s: Stamp): string
    requires ValidStamp(s)
  {
    Stripped(s) + "Z"
  }

  /******* Stripped texts sort in time order *******/

  lemma FractionOrder(m: nat, n: nat)
    requires m < Pow10(9) && n < Pow10(9)
    ensures LexLess(FractionText(m), FractionText(n)) <==> m < n
    ensures FractionText(m) == FractionText(n) ==> m == n
  {
    if m < n {
      FractionLess(m, n);
    } else if n < m {
      FractionLess(n, m);
    } else {
      LexIrreflexive(FractionText(m));
    }
    LexTotal(FractionText(m), FractionText(n));
  }

  lemma FractionLess(m: nat, n: nat)
    requires m < n < Pow10(9)
    ensures LexLess(FractionText(m), FractionText(n))
  {
    DigitsOrder(m, n, 9);
    TrimmedOrder(FixedDigits(m, 9), FixedDigits(n, 9));
    var s, t := TrimZeros(FixedDigits(m, 9)), TrimZeros(FixedDigits(n, 9));
    LexConcat(".", s, ".", t);
    hide FixedDigits, TrimZeros, Pow10;
  }

  /** Dropping trailing zeros keeps the order of digit strings of one length. */
  lemma TrimmedOrder(a: string, b: string)
    requires |a| == |b| && AllDigits(a) && AllDigits(b) && LexLess(a, b)
    ensures LexLess(TrimZeros(a), TrimZeros(b))
  {
    LexTotal(a, b);
    var k := FirstDifference(a, b);
    if b[k] < a[k] {
      LexAt(b, a, k);
    }
    var s, t := TrimZeros(a), TrimZeros(b);
    assert k < |t|;
    var j := if |s| < k then |s| else k;
    assert s[..j] == a[..k][..j] == b[..k][..j] == t[..j];
    LexAt(s, t, j);
    hide TrimZeros;
  }

  lemma FieldOrder(m: nat, n: nat, w: nat, c: string, a: string, b: string)
    requires m < Pow10(w) && n < Pow10(w)
    ensures LexLess(FixedDigits(m, w) + (c + a), FixedDigits(n, w) + (c + b)) <==> m < n || (m == n && LexLess(a, b))
    ensures LexLess(c + (FixedDigits(m, w) + a), c + (FixedDigits(n, w) + b)) <==> m < n || (m == n && LexLess(a, b))
  {
    DigitsOrder(m, n, w);
    LexConcat(FixedDigits(m, w), c + a, FixedDigits(n, w), c + b);
    LexConcat(FixedDigits(m, w), a, FixedDigits(n, w), b);
    LexConcat(c, a, c, b);
    LexConcat(c, FixedDigits(m, w) + a, c, FixedDigits(n, w) + b);
    LexIrreflexive(c);
  }

  lemma ClockOrder(a: Stamp, b: Stamp)
    requires ValidStamp(a) && ValidStamp(b)
    ensures LexLess(AfterDate(a), AfterDate(b)) <==> ClockLess(a, b)
  {
    assert Pow10(2) == 100;
    NanoBound();
    FractionOrder(a.nano, b.nano);
    DigitsOrder(a.second, b.second, 2);
    LexConcat(FixedDigits(a.second, 2), FractionText(a.nano), FixedDigits(b.second, 2), FractionText(b.nano));
    hide FixedDigits, FractionText, LexLess;
    var x, y := FixedDigits(a.second, 2) + FractionText(a.nano), FixedDigits(b.second, 2) + FractionText(b.nano);
    FieldOrder(a.minute, b.minute, 2, ":", x, y);
    FieldOrder(a.hour, b.hour, 2, ":", FixedDigits(a.minute, 2) + (":" + x), FixedDigits(b.minute, 2) + (":" + y));
  }

  lemma NanoBound()
    ensures Pow10(9) == 1_000_000_000
  {
    assert Pow10(4) == 10000;
    assert Pow10(9) == 10 * 10 * 10 * 10 * 10 * Pow10(4);
  }

  /** Canonical UTC texts without their Z sort exactly in time order. */
  lemma StrippedOrder(a: Stamp, b: Stamp)
    requires ValidStamp(a) && ValidStamp(b) && FourDigitYear(a) && FourDigitYear(b)
    ensures LexLess(Stripped(a), Stripped(b)) <==> Instant(a) < Instant(b)
    ensures Stripped(a) == Stripped(b) <==> a == b
  {
    InstantOrder(a, b);
    InstantOrder(b, a);
    StrippedFields(a, b);
    StrippedFields(b, a);
    if Stripped(a) == Stripped(b) {
      LexIrreflexive(Stripped(a));
    }
    hide Instant, Stripped, LexLess;
  }

  lemma StrippedFields(a: Stamp, b: Stamp)
    requires ValidStamp(a) && ValidStamp(b) && FourDigitYear(a) && FourDigitYear(b)
    ensures LexLess(Stripped(a), Stripped(b)) <==> StampLess(a, b)
  {
    ClockOrder(a, b);
    assert Pow10(2) == 100 && Pow10(4) == 10000;
    FourDigits(a.year);
    FourDigits(b.year);
    hide FixedDigits, LexLess, AfterDate, YearText;
    FieldOrder(a.day, b.day, 2, "T", AfterDate(a), AfterDate(b));
    var x, y := FixedDigits(a.day, 2) + ("T" + AfterDate(a)), FixedDigits(b.day, 2) + ("T" + AfterDate(b));
    FieldOrder(a.month, b.month, 2, "-", x, y);
    var u, v := FixedDigits(a.month, 2) + ("-" + x), FixedDigits(b.month, 2) + ("-" + y);
    FieldOrder(a.year, b.year, 4, "-", u, v);
  }

  lemma FourDigits(year: int)
    requires 0 <= year <= 9999
    ensures YearText(year) == FixedDigits(year, 4)
  {
    assert Pow10(4) == 10000;
    SmallWidth(year, 4);
  }

  /******* SQLite's rtrim *******/

  function RTrimZ(s: string): (t: string) {
    if s != "" && s[|s| - 1] == 'Z' then RTrimZ(s[..|s| - 1]) else s
  }

  lemma RTrimOfFormat(s: Stamp)
    requires ValidStamp(s)
    ensures RTrimZ(Format(s)) == Stripped(s)
  {
    var t := Stripped(s);
    assert Format(s)[..|Format(s)| - 1] == t;
    StrippedEnd(s);
  }

  lemma StrippedEnd(s: Stamp)
    requires ValidStamp(s)
    ensures Stripped(s) != "" && IsDigit(Stripped(s)[|Stripped(s)| - 1])
  {
    var tail := FixedDigits(s.second, 2) + FractionText(s.nano);
    assert IsDigit(tail[|tail| - 1]) by {
      if s.nano == 0 {
        assert tail == FixedDigits(s.second, 2);
      } else {
        NanoBound();
        ValOfFixed(s.nano, 9);
        var z := TrimZeros(FixedDigits(s.nano, 9));
        if z == "" {
          AllZeros(FixedDigits(s.nano, 9));
        }
        assert tail[|tail| - 1] == z[|z| - 1] == FixedDigits(s.nano, 9)[|z| - 1];
      }
    }
    hide FixedDigits, FractionText, YearText;
  }

  lemma {:induction false} AllZeros(s: string)
    requires forall i :: 0 <= i < |s| ==> s[i] == '0'
    ensures AllDigits(s) && DigitsVal(s) == 0
  {
    if s != "" {
      AllZeros(s[..|s| - 1]);
    }
  }

  /******* Parsing *******/

  datatype Scan = Scan(value: nat, rest: string)
  datatype Local = Local(stamp: Stamp, offset: int)

  function TakeDigits(s: string, w: nat): (r: Option<Scan>) {
    if w <= |s| && AllDigits(s[..w]) then Some(Scan(DigitsVal(s[..w]), s[w..])) else None
  }

  function Expect(s: string, c: char): (r: Option<string>) {
    if s != "" && s[0] == c then Some(s[1..]) else None
  }

  function DigitRun(s: string): (n: nat)
    ensures n <= |s| && AllDigits(s[..n]) && (n < |s| ==> !IsDigit(s[n]))
  {
    if s != "" && IsDigit(s[0]) then
      var n := 1 + DigitRun(s[1..]);
      assert forall i :: 1 <= i < n ==> s[i] == s[1..][..n - 1][i - 1];
      n
    else 0
  }

  /** The first nine fractional digits as nanoseconds. */
  function NanoOf(digits: string): (n: nat)
    requires AllDigits(digits)
    ensures n < Pow10(9)
  {
    DigitsVal((digits + "000000000")[..9])
  }

  /** An hour of one digit is taken too. */
  function TakeHour(s: string): (r: Option<Scan>) {
    if |s| >= 2 && IsDigit(s[1]) then TakeDigits(s, 2) else TakeDigits(s, 1)
  }

  /** A fraction after a point or a comma. */
  function TakeFraction(s: string): (r: Option<Scan>) {
    if s != "" && (s[0] == '.' || s[0] == ',') then
      var n := DigitRun(s[1..]);
      if n == 0 then None else Some(Scan(NanoOf(s[1..][..n]), s[1..][n..]))
    else Some(Scan(0, s))
  }

  /** The zone in minutes east of UTC: Z or a signed hh:mm, up to 24 hours and 60 minutes. */
  function ParseZone(s: string): (r: Option<int>) {
    if s == "Z" then Some(0)
    else if |s| == 6 && (s[0] == '+' || s[0] == '-') && AllDigits(s[1..3]) && s[3] == ':' && AllDigits(s[4..]) then
      var hours, minutes := DigitsVal(s[1..3]), DigitsVal(s[4..]);
      if hours <= 24 && minutes <= 60 then Some(Signed(s[0] == '-', hours * 60 + minutes)) else None
    else None
  }

  function ParseAfterDate(year: int, month: int, day: int, raw: string): (r: Option<Local>) {
    var hour :- TakeHour(raw);
    var s1 :- Expect(hour.rest, ':');
    var minute :- TakeDigits(s1, 2);
    var s2 :- Expect(minute.rest, ':');
    var second :- TakeDigits(s2, 2);
    var nano :- TakeFraction(second.rest);
    var offset :- ParseZone(nano.rest);
    var stamp := Stamp(year, month, day, hour.value, minute.value, second.value, nano.value);
    if ValidStamp(stamp) then Some(Local(stamp, offset)) else None
  }

  /** time.Parse(time.RFC3339, raw): the grammar of section 5.6 of RFC 3339, and what Go
      takes beyond it: an hour of one digit, a comma for the point, offsets of 24 hours
      or 60 minutes. */
  function ParseRfc3339(raw: string): (r: Option<Local>) {
    var year :- TakeDigits(raw, 4);
    var s1 :- Expect(year.rest, '-');
    var month :- TakeDigits(s1, 2);
    var s2 :- Expect(month.rest, '-');
    var day :- TakeDigits(s2, 2);
    var s3 :- Expect(day.rest, 'T');
    ParseAfterDate(year.value, month.value, day.value, s3)
  }

  lemma ParsedValid(raw: string)
    requires ParseRfc3339(raw).Some?
    ensures ValidStamp(ParseRfc3339(raw).value.stamp)
    ensures -1500 <= ParseRfc3339(raw).value.offset <= 1500
  {
    hide TakeDigits, TakeHour, Expect, TakeFraction, ValidStamp, DigitsVal;
  }

  lemma TakeFixed(n: nat, w: nat, rest: string)
    requires n < Pow10(w)
    ensures TakeDigits(FixedDigits(n, w) + rest, w) == Some(Scan(n, rest))
  {
    ValOfFixed(n, w);
    assert (FixedDigits(n, w) + rest)[..w] == FixedDigits(n, w) && (FixedDigits(n, w) + rest)[w..] == rest;
    hide FixedDigits, DigitsVal;
  }

  lemma TwoDigitHour(n: nat, rest: string)
    ensures TakeHour(FixedDigits(n, 2) + rest) == TakeDigits(FixedDigits(n, 2) + rest, 2)
  {
    assert (FixedDigits(n, 2) + rest)[1] == FixedDigits(n, 2)[1];
    hide FixedDigits, TakeDigits;
  }

  lemma ExpectHead(s: string, c: char)
    ensures Expect([c] + s, c) == Some(s)
  {
    assert ([c] + s)[1..] == s;
  }

  lemma {:induction false} PadTrimmed(s: string, w: nat)
    requires |s| == 9
    ensures (TrimZeros(s) + "000000000")[..9] == s
  {}

  lemma {:induction false} DigitRunIs(s: string, n: nat)
    requires n <= |s| && AllDigits(s[..n]) && (n < |s| ==> !IsDigit(s[n]))
    ensures DigitRun(s) == n
  {
    if n > 0 {
      assert IsDigit(s[..n][0]);
      assert s[1..][..n - 1] == s[..n][1..];
      DigitRunIs(s[1..], n - 1);
    }
  }

  /** A text that can follow the seconds and their fraction. */
  predicate ZoneStart(zone: string) {
    zone != "" && zone[0] != '.' && zone[0] != ',' && !IsDigit(zone[0])
  }

  lemma TakeFractionText(nano: nat, zone: string)
    requires nano < Pow10(9) && ZoneStart(zone)
    ensures TakeFraction(FractionText(nano) + zone) == Some(Scan(nano, zone))
  {
    if nano == 0 {
      assert FractionText(nano) + zone == zone;
    } else {
      TrimmedNano(nano);
      TakePointed(TrimZeros(FixedDigits(nano, 9)), zone, FractionText(nano) + zone);
    }
  }

  lemma TakePointed(t: string, zone: string, text: string)
    requires t != "" && AllDigits(t) && ZoneStart(zone) && text == "." + t + zone
    ensures TakeFraction(text) == Some(Scan(NanoOf(t), zone))
  {
    var rest := text[1..];
    assert rest == t + zone;
    assert rest[..|t|] == t && rest[|t|..] == zone;
    DigitRunIs(rest, |t|);
    hide DigitRun, NanoOf;
  }

  lemma TrimmedNano(nano: nat)
    requires 0 < nano < Pow10(9)
    ensures var t := TrimZeros(FixedDigits(nano, 9)); t != "" && AllDigits(t) && NanoOf(t) == nano
  {
    var all := FixedDigits(nano, 9);
    ValOfFixed(nano, 9);
    if TrimZeros(all) == "" {
      AllZeros(all);
    }
    PadTrimmed(all, 9);
    hide FixedDigits, DigitsVal, Pow10, TrimZeros;
  }

  lemma AfterDateIs(s: Stamp, zone: string)
    requires ValidStamp(s)
    ensures AfterDate(s) + zone == FixedDigits(s.hour, 2) + ([':'] + (FixedDigits(s.minute, 2) + ([':'] +
      (FixedDigits(s.second, 2) + (FractionText(s.nano) + zone)))))
  {
    hide FixedDigits, FractionText;
  }

  lemma ParseClock(s: Stamp, zone: string)
    requires ValidStamp(s) && ZoneStart(zone) && ParseZone(zone).Some?
    ensures ParseAfterDate(s.year, s.month, s.day, AfterDate(s) + zone) == Some(Local(s, ParseZone(zone).value))
  {
    assert Pow10(2) == 100;
    NanoBound();
    hide FixedDigits, FractionText, TakeDigits, TakeHour, TakeFraction, Expect, Pow10, AfterDate, ParseZone;
    AfterDateIs(s, zone);
    var tail := FractionText(s.nano) + zone;
    var f3 := FixedDigits(s.second, 2) + tail;
    var f2 := FixedDigits(s.minute, 2) + ([':'] + f3);
    TakeFixed(s.hour, 2, [':'] + f2);
    TwoDigitHour(s.hour, [':'] + f2);
    ExpectHead(f2, ':');
    TakeFixed(s.minute, 2, [':'] + f3);
    ExpectHead(f3, ':');
    TakeFixed(s.second, 2, tail);
    TakeFractionText(s.nano, zone);
  }

  lemma StrippedNests(s: Stamp, zone: string)
    requires ValidStamp(s) && FourDigitYear(s)
    ensures Stripped(s) + zone == FixedDigits(s.year, 4) + (['-'] + (FixedDigits(s.month, 2) + (['-'] +
      (FixedDigits(s.day, 2) + (['T'] + (AfterDate(s) + zone))))))
  {
    FourDigits(s.year);
    hide FixedDigits, AfterDate, YearText;
  }

  lemma ParseNested(s: Stamp, year: string, month: string, day: string, rest: string)
    requires ValidStamp(s) && FourDigitYear(s)
    requires TakeDigits(year + (['-'] + (month + (['-'] + (day + (['T'] + rest))))), 4) ==
      Some(Scan(s.year, ['-'] + (month + (['-'] + (day + (['T'] + rest))))))
    requires TakeDigits(month + (['-'] + (day + (['T'] + rest))), 2) == Some(Scan(s.month, ['-'] + (day + (['T'] + rest))))
    requires TakeDigits(day + (['T'] + rest), 2) == Some(Scan(s.day, ['T'] + rest))
    ensures ParseRfc3339(year + (['-'] + (month + (['-'] + (day + (['T'] + rest)))))) ==
      ParseAfterDate(s.year, s.month, s.day, rest)
  {
    ExpectHead(rest, 'T');
    ExpectHead(day + (['T'] + rest), '-');
    ExpectHead(month + (['-'] + (day + (['T'] + rest))), '-');
    hide TakeDigits, Expect, ParseAfterDate;
  }

  /** Every four-digit-year stamp is read back from its own text in any zone. */
  lemma ParseOfZoned(s: Stamp, zone: string)
    requires ValidStamp(s) && FourDigitYear(s) && ZoneStart(zone) && ParseZone(zone).Some?
    ensures ParseRfc3339(Stripped(s) + zone) == Some(Local(s, ParseZone(zone).value))
  {
    assert Pow10(2) == 100 && Pow10(4) == 10000;
    ParseClock(s, zone);
    StrippedNests(s, zone);
    hide FixedDigits, AfterDate, ParseAfterDate, TakeDigits, Expect, YearText, Pow10, ParseRfc3339, Stripped, ParseZone;
    var f3 := AfterDate(s) + zone;
    var f2 := FixedDigits(s.day, 2) + (['T'] + f3);
    var f1 := FixedDigits(s.month, 2) + (['-'] + f2);
    TakeFixed(s.day, 2, ['T'] + f3);
    TakeFixed(s.month, 2, ['-'] + f2);
    TakeFixed(s.year, 4, ['-'] + f1);
    ParseNested(s, FixedDigits(s.year, 4), FixedDigits(s.month, 2), FixedDigits(s.day, 2), f3);
  }

  /** Every four-digit-year stamp is read back from its own text, as UTC. */
  lemma ParseOfUtc(s: Stamp)
    requires ValidStamp(s) && FourDigitYear(s)
    ensures ParseRfc3339(Format(s)) == Some(Local(s, 0))
  {
    assert ParseZone("Z") == Some(0);
    ParseOfZoned(s, "Z");
    hide ParseRfc3339, Stripped;
  }

  /** A year before 0 or after 9999 prints as text the parser refuses. */
  lemma WideYearUnparsed(s: Stamp)
    requires ValidStamp(s) && !FourDigitYear(s)
    ensures ParseRfc3339(Format(s)) == None
  {
    var f := Format(s);
    if s.year < 0 {
      assert f[0] == '-';
      assert f[..4][0] == '-';
    } else {
      assert Pow10(4) == 10000;
      if Width(s.year) <= 4 {
        Pow10Monotone(Width(s.year), 4);
      }
      var y := YearText(s.year);
      assert |y| > 4 && f[4] == y[4] && IsDigit(y[4]);
      assert f[4..][0] == f[4];
    }
    hide FixedDigits, AfterYear, DigitsVal, Pow10;
  }

  /******* Conversion to UTC *******/

  function PrevDay(s: Stamp): Stamp {
    if s.day > 1 then s.(day := s.day - 1)
    else if s.month > 1 then s.(month := s.month - 1, day := DaysIn(s.year, s.month - 1))
    else s.(year := s.year - 1, month := 12, day := 31)
  }

  function NextDay(s: Stamp): Stamp {
    if s.day < DaysIn(s.year, s.month) then s.(day := s.day + 1)
    else if s.month < 12 then s.(month := s.month + 1, day := 1)
    else s.(year := s.year + 1, month := 1, day := 1)
  }

  /** The day the minutes of a day spill over to: up to two days away. */
  function SpillDay(s: Stamp, minutes: int): Stamp {
    if minutes < -1440 then PrevDay(PrevDay(s))
    else if minutes < 0 then PrevDay(s)
    else if minutes < 1440 then s
    else if minutes < 2880 then NextDay(s)
    else NextDay(NextDay(s))
  }

  /** The UTC stamp of a local time: time.Time.UTC(). */
  function ToUtc(l: Local): Stamp {
    var minutes := l.stamp.hour * 60 + l.stamp.minute - l.offset;
    SpillDay(l.stamp, minutes).(hour := (minutes % 1440) / 60, minute := minutes % 60)
  }

  lemma DayShift(s: Stamp)
    requires ValidStamp(s)
    ensures DayNumber(PrevDay(s)) == DayNumber(s) - 1 && DayNumber(NextDay(s)) == DayNumber(s) + 1
  {
    NextYear(s.year - 1);
    NextYear(s.year);
    MonthsOfYear(s.year - 1);
    MonthsOfYear(s.year);
    NextMonth(s.year, s.month);
    NextMonth(s.year, s.month - 1);
    hide DaysBeforeYear, DaysBeforeMonth, YearDays, DaysIn;
  }

  lemma NextMonth(year: int, month: int)
    ensures DaysBeforeMonth(year, 1) == 0 && DaysBeforeMonth(year + 1, 1) == 0
    ensures month >= 1 ==> DaysBeforeMonth(year, month + 1) == DaysBeforeMonth(year, month) + DaysIn(year, month)
    ensures DaysIn(year - 1, 12) == 31 && DaysIn(year, 12) == 31
  {}

  lemma DayNeighbours(s: Stamp)
    requires ValidStamp(s)
    ensures ValidStamp(PrevDay(s)) && ValidStamp(NextDay(s))
    ensures DayNumber(PrevDay(s)) == DayNumber(s) - 1 && DayNumber(NextDay(s)) == DayNumber(s) + 1
    ensures forall n :: n in {PrevDay(s), NextDay(s)} ==> n.hour == s.hour && n.minute == s.minute && n.second == s.second && n.nano == s.nano
  {
    DayShift(s);
    hide DayNumber;
  }

  ghost function SpilledDays(minutes: int): int {
    if minutes < -1440 then -2 else if minutes < 0 then -1 else if minutes < 1440 then 0 else if minutes < 2880 then 1 else 2
  }

  lemma SpillDayIs(s: Stamp, minutes: int)
    requires ValidStamp(s)
    ensures var day := SpillDay(s, minutes);
      ValidStamp(day) && DayNumber(day) == DayNumber(s) + SpilledDays(minutes) && day.second == s.second && day.nano == s.nano
  {
    hide DayNumber, ValidStamp, PrevDay, NextDay;
    DayNeighbours(s);
    DayNeighbours(PrevDay(s));
    DayNeighbours(NextDay(s));
  }

  /** Conversion keeps the stamp valid and names the same instant. */
  lemma ToUtcInstant(l: Local)
    requires ValidStamp(l.stamp) && -1500 <= l.offset <= 1500
    ensures ValidStamp(ToUtc(l))
    ensures Instant(ToUtc(l)) == Instant(l.stamp) - l.offset * 60 * 1_000_000_000
  {
    hide SpillDay, DayNumber;
    var s := l.stamp;
    var minutes := s.hour * 60 + s.minute - l.offset;
    SpillDayIs(s, minutes);
    MinuteSplit(minutes);
    SameDay(SpillDay(s, minutes), ToUtc(l));
  }

  lemma SameDay(s: Stamp, t: Stamp)
    requires s.year == t.year && s.month == t.month && s.day == t.day
    ensures DayNumber(s) == DayNumber(t)
  {}

  lemma MinuteSplit(minutes: int)
    requires -1500 <= minutes < 2940
    ensures (minutes % 1440) / 60 * 60 + minutes % 60 == minutes - 1440 * SpilledDays(minutes)
    ensures 0 <= (minutes % 1440) / 60 < 24 && 0 <= minutes % 60 < 60
  {}

  /******* Canonical texts *******/

  /** parsed.UTC(), when the text parses. */
  function ParseUtc(raw: string): (s: Option<Stamp>)
    ensures s.Some? <==> ParseRfc3339(raw).Some?
    ensures s.Some? ==> ValidStamp(s.value) && s.value == ToUtc(ParseRfc3339(raw).value)
  {
    match ParseRfc3339(raw)
    case None => None
    case Some(l) =>
      ParsedValid(raw);
      ToUtcInstant(l);
      Some(ToUtc(l))
  }

  /** canonicalUTCString: the text is its own UTC rendering. */
  predicate CanonicalUtc(raw: string) {
    match ParseUtc(raw)
    case None => false
    case Some(s) => Format(s) == raw
  }

  /** The stamp of a canonical text. */
  function StampOf(raw: string): (s: Stamp)
    requires CanonicalUtc(raw)
    ensures ValidStamp(s) && FourDigitYear(s) && Format(s) == raw
  {
    CanonicalYear(ParseUtc(raw).value);
    ParseUtc(raw).value
  }

  lemma CanonicalYear(s: Stamp)
    requires ValidStamp(s) && ParseRfc3339(Format(s)).Some?
    ensures FourDigitYear(s)
  {
    if !FourDigitYear(s) {
      WideYearUnparsed(s);
    }
  }

  /** Canonical texts are exactly the renderings of valid four-digit-year stamps. */
  lemma CanonicalIsFormat(s: Stamp)
    requires ValidStamp(s)
    ensures CanonicalUtc(Format(s)) <==> FourDigitYear(s)
    ensures FourDigitYear(s) ==> StampOf(Format(s)) == s
  {
    hide Format, ParseRfc3339, DaysIn, FourDigitYear;
    if FourDigitYear(s) {
      ParseOfUtc(s);
      UtcOfUtc(s);
    } else {
      WideYearUnparsed(s);
    }
  }

  lemma UtcOfUtc(s: Stamp)
    requires ValidStamp(s)
    ensures ToUtc(Local(s, 0)) == s
  {
    MinuteSplit(s.hour * 60 + s.minute);
  }

  /** The instant a canonical text names. */
  ghost function TimeOf(raw: string): int
    requires CanonicalUtc(raw)
  {
    Instant(StampOf(raw))
  }

  /** Texts compared after rtrim(...,'Z') sort exactly in time order, and two
      canonical texts with equal trimmed forms or equal times are equal. */
  lemma TrimmedTextsSortByTime(a: string, b: string)
    requires CanonicalUtc(a) && CanonicalUtc(b)
    ensures LexLess(RTrimZ(a), RTrimZ(b)) <==> TimeOf(a) < TimeOf(b)
    ensures RTrimZ(a) == RTrimZ(b) <==> a == b
    ensures TimeOf(a) == TimeOf(b) <==> a == b
  {
    var s, t := StampOf(a), StampOf(b);
    RTrimOfFormat(s);
    RTrimOfFormat(t);
    StrippedOrder(s, t);
    InstantOrder(s, t);
    hide Stripped, Instant, RTrimZ;
  }

  /** Compared whole, any fraction of a second sorts before the second it follows:
      the raw text order of the legacy replay is not time order. */
  lemma RawTextsMissort(s: Stamp, nano: int)
    requires ValidStamp(s) && FourDigitYear(s) && s.nano == 0 && 0 < nano < 1_000_000_000
    ensures var later := s.(nano := nano);
      && CanonicalUtc(Format(s)) && CanonicalUtc(Format(later))
      && TimeOf(Format(s)) < TimeOf(Format(later)) && LexLess(Format(later), Format(s))
  {
    var later := s.(nano := nano);
    CanonicalIsFormat(s);
    CanonicalIsFormat(later);
    InstantOrder(s, later);
    SharedPrefix(s, nano);
    LexConcat(Stripped(s), FractionText(nano) + "Z", Stripped(s), "Z");
    assert (FractionText(nano) + "Z")[0] == '.';
    hide Stripped, Instant, FractionText, ValidStamp, CanonicalUtc;
  }

  lemma SharedPrefix(s: Stamp, nano: int)
    requires ValidStamp(s) && s.nano == 0 && 0 < nano < 1_000_000_000
    ensures Format(s.(nano := nano)) == Stripped(s) + (FractionText(nano) + "Z")
  {
    hide *;
    SharedClock(s, nano);
    SharedDate(s, nano);
    FormatIsStripped(s.(nano := nano));
    SequenceSums(Stripped(s), FractionText(nano), "Z");
  }

  lemma SequenceSums(a: string, b: string, c: string)
    ensures (a + b) + c == a + (b + c)
  {}

  lemma FormatIsStripped(s: Stamp)
    requires ValidStamp(s)
    ensures Format(s) == Stripped(s) + "Z"
  {}

  lemma SharedDate(s: Stamp, nano: int)
    requires ValidStamp(s) && 0 <= nano < 1_000_000_000
    requires AfterDate(s.(nano := nano)) == AfterDate(s) + FractionText(nano)
    ensures ValidStamp(s.(nano := nano))
    ensures Stripped(s.(nano := nano)) == Stripped(s) + FractionText(nano)
  {
    var date := YearText(s.year) + "-" + FixedDigits(s.month, 2) + "-" + FixedDigits(s.day, 2) + "T";
    DateFirst(s, date);
    DateFirst(s.(nano := nano), date);
    SequenceSums(date, AfterDate(s), FractionText(nano));
    hide *;
  }

  lemma DateFirst(s: Stamp, date: string)
    requires ValidStamp(s)
    requires date == YearText(s.year) + "-" + FixedDigits(s.month, 2) + "-" + FixedDigits(s.day, 2) + "T"
    ensures Stripped(s) == date + AfterDate(s)
  {
    hide FixedDigits, YearText, AfterDate;
  }

  lemma SharedClock(s: Stamp, nano: int)
    requires ValidStamp(s) && s.nano == 0 && 0 < nano < 1_000_000_000
    ensures AfterDate(s.(nano := nano)) == AfterDate(s) + FractionText(nano)
  {
    assert FractionText(s.nano) == "";
    hide FixedDigits, FractionText;
  }

  /******* Two dates as text *******/

  lemma OneDigit(n: nat, s: string)
    requires n < 10 && s == [('0' as int + n) as char]
    ensures AllDigits(s) && DigitsVal(s) == n
  {
    assert s[..0] == "";
  }

  lemma TwoDigits(n: nat, s: string, v: nat)
    requires n < 10 && v < 10 && s == [('0' as int + n) as char, ('0' as int + v) as char]
    ensures AllDigits(s) && DigitsVal(s) == 10 * n + v && FixedDigits(10 * n + v, 2) == s
  {
    assert s[..1] == [s[0]];
    OneDigit(n, s[..1]);
    FixedOfVal(s);
    hide FixedDigits;
  }

  lemma SplitYear(year: nat, high: string, low: string)
    requires year < 10000 && FixedDigits(year / 100, 2) == high && FixedDigits(year % 100, 2) == low
    ensures FixedDigits(year, 4) == high + low
  {
    var a, b := year / 100, year % 100;
    assert year / 10 / 10 == a && year / 10 % 10 == b / 10 && year % 10 == b % 10;
    FixedStep(year, 3);
    FixedStep(year / 10, 2);
    FixedStep(b, 1);
    FixedStep(b / 10, 0);
    hide FixedDigits;
  }

  lemma FixedStep(n: nat, w: nat)
    ensures FixedDigits(n, w + 1) == FixedDigits(n / 10, w) + [('0' as int + n % 10) as char]
    ensures FixedDigits(n, 0) == "" && (n < 10 ==> n % 10 == n)
  {}

  /** The text of midnight on the first of January. */
  lemma NewYearText(s: Stamp, high: string, low: string)
    requires s == Stamp(s.year, 1, 1, 0, 0, 0, 0) && FourDigitYear(s)
    requires |high| == 2 && AllDigits(high) && DigitsVal(high) == s.year / 100
    requires |low| == 2 && AllDigits(low) && DigitsVal(low) == s.year % 100
    ensures Stripped(s) == high + low + "-01-01T00:00:00"
  {
    FixedOfVal(high);
    FixedOfVal(low);
    hide FixedDigits, YearText, AfterYear;
    FourDigits(s.year);
    SplitYear(s.year, high, low);
    MidnightText(s);
    NewYearDay(s);
  }

  lemma MidnightText(s: Stamp)
    requires s == Stamp(s.year, 1, 1, 0, 0, 0, 0)
    ensures AfterDate(s) == "00:00:00"
  {
    TwoDigits(0, "00", 0);
    assert FractionText(0) == "";
    hide FixedDigits, FractionText;
  }

  lemma NewYearDay(s: Stamp)
    requires s == Stamp(s.year, 1, 1, 0, 0, 0, 0) && AfterDate(s) == "00:00:00"
    ensures AfterYear(s) == "-01-01T00:00:00"
  {
    hide FixedDigits, AfterDate, AfterYear;
    TwoDigits(0, "01", 1);
    JanuaryFirst();
    AfterYearIs(s, "01", "00:00:00");
  }

  lemma AfterYearIs(s: Stamp, first: string, clock: string)
    requires ValidStamp(s) && s.month == 1 && s.day == 1 && FixedDigits(1, 2) == first && AfterDate(s) == clock
    ensures AfterYear(s) == "-" + (first + ("-" + (first + ("T" + clock))))
  {
    hide FixedDigits, AfterDate;
  }

  lemma JanuaryFirst()
    ensures "-" + ("01" + ("-" + ("01" + ("T" + "00:00:00")))) == "-01-01T00:00:00"
  {}
}
