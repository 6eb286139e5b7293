/** Comparing the broker's positions with the ledger's: positionDifferences and its
    validator validateBrokerReconciliation (services/core/broker_snapshot.go:380-429,
    556-594).
  */
module BrokerPositions {
  import opened Results
  import opened Exact
  import opened DecimalText
  import opened UtcText

  const MAX_TEXT := 64

  datatype BrokerPosition = BrokerPosition(symbol: string, quantity: string)
  datatype Difference = Difference(symbol: string, broker: string, ledger: string, difference: string, agrees: bool)

  /** ^[0-9]{6}$ */
  predicate StockSymbol(s: string) {
    |s| == 6 && AllDigits(s)
  }

  /** canonicalDecimal(raw, nonNegative). */
  predicate CanonicalDecimal(raw: string, nonNegative: bool) {
    && 0 < |raw| <= MAX_TEXT && ParseDecimal(raw).Some? && (nonNegative ==> Sign(ParseDecimal(raw).value) >= 0)
    && FormatDecimal(ParseDecimal(raw).value) == Some(raw)
  }

  /** Positions as validateKiwoomSnapshot leaves them. */
  predicate ValidPositions(positions: seq<BrokerPosition>) {
    && (forall i :: 0 <= i < |positions| ==> StockSymbol(positions[i].symbol) && CanonicalDecimal(positions[i].quantity, true))
    && (forall i, j :: 0 <= i < j < |positions| ==> positions[i].symbol != positions[j].symbol)
  }

  ghost predicate ValidLedger(ledger: map<string, Rat>) {
    forall s :: s in ledger ==> StockSymbol(s) && Finite(Val(ledger[s])) && Val(ledger[s]) >= 0.0
  }

  function Symbols(positions: seq<BrokerPosition>): set<string> {
    set i | 0 <= i < |positions| :: positions[i].symbol
  }

  /** The broker's text for a symbol, "0" where it has none. */
  function BrokerText(positions: seq<BrokerPosition>, symbol: string): string {
    if positions == [] then "0"
    else
      var last := positions[|positions| - 1];
      if last.symbol == symbol then last.quantity else BrokerText(positions[..|positions| - 1], symbol)
  }

  lemma {:induction false} BrokerTextIs(positions: seq<BrokerPosition>, symbol: string)
    ensures symbol in Symbols(positions) ==> BrokerPosition(symbol, BrokerText(positions, symbol)) in positions
    ensures symbol !in Symbols(positions) ==> BrokerText(positions, symbol) == "0"
  {
    if positions != [] {
      var n := |positions| - 1;
      assert positions == positions[..n] + [positions[n]];
      BrokerTextIs(positions[..n], symbol);
      SymbolsGrow(positions[..n], positions[n]);
    }
  }

  lemma SymbolsGrow(positions: seq<BrokerPosition>, p: BrokerPosition)
    ensures Symbols(positions + [p]) == Symbols(positions) + {p.symbol}
  {
    var all := positions + [p];
    assert all[|positions|] == p;
    forall s | s in Symbols(positions)
      ensures s in Symbols(all)
    {
      var i :| 0 <= i < |positions| && positions[i].symbol == s;
      assert all[i].symbol == s;
    }
    forall s | s in Symbols(all)
      ensures s in Symbols(positions) || s == p.symbol
    {
      var i :| 0 <= i < |all| && all[i].symbol == s;
      if i < |positions| {
        assert positions[i].symbol == s;
      }
    }
  }

  function LedgerOf(ledger: map<string, Rat>, symbol: string): Rat {
    if symbol in ledger then ledger[symbol] else FromInt(0)
  }

  /******* The producer *******/

  /** One row: the three texts and whether they agree. */
  ghost predicate RowFor(positions: seq<BrokerPosition>, ledger: map<string, Rat>, d: Difference) {
    var b := ParseDecimal(BrokerText(positions, d.symbol));
    b.Some? && d == DifferenceOf(d.symbol, b.value, LedgerOf(ledger, d.symbol)) && d.broker == BrokerText(positions, d.symbol)
  }

  ghost function DifferenceOf(symbol: string, broker: Rat, ledger: Rat): Difference {
    var difference := Sub(broker, ledger);
    Difference(symbol, TextOf(broker), TextOf(ledger), TextOf(difference), Val(difference) == 0.0)
  }

  function TextOf(r: Rat): string {
    var t := FormatDecimal(r);
    if t.Some? then t.value else ""
  }

  ghost predicate Ordered(rows: seq<Difference>) {
    forall i, j :: 0 <= i < j < |rows| ==> LexLess(rows[i].symbol, rows[j].symbol)
  }

  /** What positionDifferences returns: one row per symbol of either side, in order. */
  ghost predicate Differences(positions: seq<BrokerPosition>, ledger: map<string, Rat>, rows: seq<Difference>, allMatch: bool) {
    && Ordered(rows)
    && Named(rows) == Symbols(positions) + ledger.Keys
    && RowsFor(positions, ledger, rows)
    && (allMatch <==> AllMatch(rows))
  }

  ghost predicate RowsFor(positions: seq<BrokerPosition>, ledger: map<string, Rat>, rows: seq<Difference>) {
    forall i :: 0 <= i < |rows| ==> RowFor(positions, ledger, rows[i])
  }

  ghost predicate AllMatch(rows: seq<Difference>) {
    forall i :: 0 <= i < |rows| ==> rows[i].agrees
  }

  ghost function Named(rows: seq<Difference>): set<string> {
    set i | 0 <= i < |rows| :: rows[i].symbol
  }

  /** Every row comes before every symbol still to come. */
  ghost predicate Ahead(rows: seq<Difference>, symbols: set<string>) {
    forall i, s :: 0 <= i < |rows| && s in symbols ==> LexLess(rows[i].symbol, s)
  }

  lemma {:induction false} LeastExists(symbols: set<string>) returns (m: string)
    requires symbols != {}
    ensures m in symbols && forall x :: x in symbols ==> !LexLess(x, m)
    decreases |symbols|
  {
    var x :| x in symbols;
    if symbols == {x} {
      m := x;
      LexIrreflexive(x);
    } else {
      var y :| y in symbols && y != x;
      var rest := symbols - {x};
      assert y in rest;
      var least := LeastExists(rest);
      LexTotal(x, least);
      LexIrreflexive(x);
      if LexLess(x, least) {
        m := x;
        forall z | z in symbols
          ensures !LexLess(z, m)
        {
          if z != x && LexLess(z, x) {
            LexTransitive(z, x, least);
          }
        }
      } else {
        m := least;
      }
    }
  }

  /** positionDifferences. */
  method PositionDifferences(positions: seq<BrokerPosition>, ledger: map<string, Rat>) returns (r: Option<(seq<Difference>, bool)>)
    requires ValidPositions(positions) && ValidLedger(ledger)
    ensures r.Some? && Differences(positions, ledger, r.value.0, r.value.1)
  {
    hide Symbols, Named, Ordered, Ahead, RowsFor, AllMatch, RowFor, LexLess, ValidPositions, ValidLedger;
    var symbols := Symbols(positions) + ledger.Keys;
    var rows: seq<Difference>, allMatch := [], true;
    NoRows(positions, ledger, symbols);
    while symbols != {}
      invariant symbols <= Symbols(positions) + ledger.Keys
      invariant Named(rows) == Symbols(positions) + ledger.Keys - symbols
      invariant Ordered(rows) && Ahead(rows, symbols) && RowsFor(positions, ledger, rows) && (allMatch <==> AllMatch(rows))
      decreases symbols
    {
      ghost var least := LeastExists(symbols);
      var symbol :| symbol in symbols && forall x :: x in symbols ==> !LexLess(x, symbol);
      var row := MakeRow(positions, ledger, symbol);
      AddRow(positions, ledger, rows, row, symbols);
      rows, allMatch, symbols := rows + [row], allMatch && row.agrees, symbols - {symbol};
    }
    r := Some((rows, allMatch));
  }

  lemma NoRows(positions: seq<BrokerPosition>, ledger: map<string, Rat>, symbols: set<string>)
    ensures Named([]) == {} && Ordered([]) && Ahead([], symbols) && RowsFor(positions, ledger, []) && AllMatch([])
  {}

  /** The least symbol left makes the next row. */
  lemma AddRow(positions: seq<BrokerPosition>, ledger: map<string, Rat>, rows: seq<Difference>, row: Difference, symbols: set<string>)
    requires Ordered(rows) && Ahead(rows, symbols) && RowsFor(positions, ledger, rows) && RowFor(positions, ledger, row)
    requires row.symbol in symbols && forall x :: x in symbols ==> !LexLess(x, row.symbol)
    ensures Named(rows + [row]) == Named(rows) + {row.symbol} && Ordered(rows + [row]) && RowsFor(positions, ledger, rows + [row])
    ensures Ahead(rows + [row], symbols - {row.symbol}) && (AllMatch(rows + [row]) <==> AllMatch(rows) && row.agrees)
  {
    hide RowFor, LexLess;
    var all := rows + [row];
    assert all[|rows|] == row;
    assert forall i :: 0 <= i < |rows| ==> all[i] == rows[i];
    forall s | s in Named(rows)
      ensures s in Named(all)
    {
      var i :| 0 <= i < |rows| && rows[i].symbol == s;
      assert all[i].symbol == s;
    }
    forall s | s in symbols && s != row.symbol
      ensures LexLess(row.symbol, s)
    {
      LexTotal(row.symbol, s);
    }
  }

  method MakeRow(positions: seq<BrokerPosition>, ledger: map<string, Rat>, symbol: string) returns (row: Difference)
    requires ValidPositions(positions) && ValidLedger(ledger)
    ensures row.symbol == symbol && RowFor(positions, ledger, row)
  {
    hide Val, BrokerText, Finite, DifferenceOf, ValidLedger, ValidPositions, ParseDecimal, FormatDecimal, TextOf, LedgerOf, RowFor, CanonicalDecimal;
    BrokerParses(positions, symbol);
    var broker, held := ParseDecimal(BrokerText(positions, symbol)).value, LedgerOf(ledger, symbol);
    var difference := Sub(broker, held);
    row := Difference(symbol, TextOf(broker), TextOf(held), TextOf(difference), Sign(difference) == 0);
    RowIs(symbol, broker, held, row);
    RowMade(positions, ledger, row);
  }

  lemma BrokerParses(positions: seq<BrokerPosition>, symbol: string)
    requires ValidPositions(positions)
    ensures ParseDecimal(BrokerText(positions, symbol)).Some?
    ensures TextOf(ParseDecimal(BrokerText(positions, symbol)).value) == BrokerText(positions, symbol)
  {
    hide BrokerText, ParseDecimal, FormatDecimal, ValidPositions;
    BrokerTextParses(positions, symbol);
  }

  lemma RowMade(positions: seq<BrokerPosition>, ledger: map<string, Rat>, row: Difference)
    requires ParseDecimal(BrokerText(positions, row.symbol)).Some?
    requires row == DifferenceOf(row.symbol, ParseDecimal(BrokerText(positions, row.symbol)).value, LedgerOf(ledger, row.symbol))
    requires row.broker == BrokerText(positions, row.symbol)
    ensures RowFor(positions, ledger, row)
  {
    hide DifferenceOf, ParseDecimal, BrokerText, LedgerOf;
  }

  lemma RowIs(symbol: string, broker: Rat, held: Rat, row: Difference)
    requires row == Difference(symbol, TextOf(broker), TextOf(held), TextOf(Sub(broker, held)), Sign(Sub(broker, held)) == 0)
    ensures row == DifferenceOf(symbol, broker, held)
  {
    hide Val, TextOf;
  }

  lemma BrokerTextParses(positions: seq<BrokerPosition>, symbol: string)
    requires ValidPositions(positions)
    ensures var t := BrokerText(positions, symbol); CanonicalDecimal(t, true)
  {
    hide CanonicalDecimal, BrokerText;
    ZeroCanonical();
    BrokerTextIs(positions, symbol);
  }

  lemma ZeroCanonical()
    ensures CanonicalDecimal("0", true) && Val(ParseDecimal("0").value) == 0.0
  {
    ZeroDigits();
    assert ParseDecimal("0").Some?;
    FormatOfParse("0");
    hide FormatDecimal;
  }

  lemma LedgerFinite(ledger: map<string, Rat>, symbol: string)
    requires ValidLedger(ledger)
    ensures Finite(Val(LedgerOf(ledger, symbol))) && Val(LedgerOf(ledger, symbol)) >= 0.0
  {
    FiniteInt(0);
    hide Finite;
  }

  /******* The validator *******/

  predicate RowAccepted(positions: seq<BrokerPosition>, d: Difference) {
    && StockSymbol(d.symbol) && CanonicalDecimal(d.broker, true) && CanonicalDecimal(d.ledger, true) && CanonicalDecimal(d.difference, false)
    && Cmp(Sub(ParseDecimal(d.broker).value, ParseDecimal(d.ledger).value), ParseDecimal(d.difference).value) == 0
    && d.agrees == (Sign(ParseDecimal(d.difference).value) == 0)
    && d.broker == BrokerText(positions, d.symbol)
  }

  /** validateBrokerReconciliation accepts these rows. */
  ghost predicate Accepted(positions: seq<BrokerPosition>, rows: seq<Difference>, allMatch: bool) {
    && (forall i :: 0 <= i < |rows| ==> RowAccepted(positions, rows[i]))
    && (forall i :: 0 < i < |rows| ==> LexLess(rows[i - 1].symbol, rows[i].symbol))
    && Symbols(positions) <= Named(rows)
    && (allMatch <==> AllMatch(rows))
  }

  datatype Record = Record(reconciliationId: string, snapshotId: string, ledgerAccountId: string, ledgerRevision: string,
                           recordedAt: string, rows: seq<Difference>, allMatch: bool)

  function Utf8Bytes(c: char): nat {
    if c as int < 0x80 then 1 else if c as int < 0x800 then 2 else if c as int < 0x1_0000 then 3 else 4
  }

  function ByteLength(s: string): nat {
    if s == "" then 0 else ByteLength(s[..|s| - 1]) + Utf8Bytes(s[|s| - 1])
  }

  /** unicode.IsControl or unicode.IsSpace. */
  predicate ControlOrSpace(c: char) {
    var n := c as int;
    n <= 0x20 || 0x7F <= n <= 0xA0 || n == 0x1680 || 0x2000 <= n <= 0x200A || n in {0x2028, 0x2029, 0x202F, 0x205F, 0x3000}
  }

  /** safeOrderID (services/core/order_state.go:617-627). */
  predicate SafeId(s: string) {
    s != "" && ByteLength(s) <= 128 && forall i :: 0 <= i < |s| ==> !ControlOrSpace(s[i])
  }

  /** ^rev_[0-9]{10}$ */
  predicate RevisionText(s: string) {
    |s| == 14 && s[..4] == "rev_" && AllDigits(s[4..])
  }

  predicate Identified(r: Record) {
    && SafeId(r.reconciliationId) && SafeId(r.snapshotId) && r.ledgerAccountId == "account-main"
    && RevisionText(r.ledgerRevision) && CanonicalUtc(r.recordedAt)
  }

  /** validateBrokerReconciliation: its loop deletes each broker position as its row is
      met. */
  method Validate(positions: seq<BrokerPosition>, r: Record) returns (ok: bool)
    requires ValidPositions(positions)
    ensures ok <==> Identified(r) && Accepted(positions, r.rows, r.allMatch)
  {
    hide RowAccepted, LexLess, Named, AllMatch, ValidPositions, Symbols, BrokerText, Identified;
    var rows := r.rows;
    if !Identified(r) {
      return false;
    }
    Unmatched(positions, rows);
    if |rows| == 0 && |positions| != 0 {
      return false;
    }
    var left, matching := Symbols(positions), true;
    Unmatched(positions, []);
    for i := 0 to |rows|
      invariant forall j :: 0 <= j < i ==> RowAccepted(positions, rows[j])
      invariant forall j :: 0 < j < i ==> LexLess(rows[j - 1].symbol, rows[j].symbol)
      invariant left == Symbols(positions) - Named(rows[..i]) && (matching <==> AllMatch(rows[..i]))
    {
      assert rows[..i + 1] == rows[..i] + [rows[i]];
      NamedGrows(rows[..i], rows[i]);
      if i > 0 && !LexLess(rows[i - 1].symbol, rows[i].symbol) {
        return false;
      }
      if !RowAccepted(positions, rows[i]) {
        return false;
      }
      left, matching := left - {rows[i].symbol}, matching && rows[i].agrees;
    }
    assert rows[..|rows|] == rows;
    ok := left == {} && matching == r.allMatch;
  }

  lemma Unmatched(positions: seq<BrokerPosition>, rows: seq<Difference>)
    ensures Named([]) == {} && AllMatch([])
    ensures rows == [] && positions != [] ==> !(Symbols(positions) <= Named(rows))
  {
    if positions != [] {
      assert positions[0].symbol in Symbols(positions);
    }
  }

  lemma NamedGrows(rows: seq<Difference>, row: Difference)
    ensures Named(rows + [row]) == Named(rows) + {row.symbol} && (AllMatch(rows + [row]) <==> AllMatch(rows) && row.agrees)
  {
    var all := rows + [row];
    assert all[|rows|] == row;
    assert forall i :: 0 <= i < |rows| ==> all[i] == rows[i];
    forall s | s in Named(rows)
      ensures s in Named(all)
    {
      var i :| 0 <= i < |rows| && rows[i].symbol == s;
      assert all[i].symbol == s;
    }
  }

  /******* Producer and validator agree *******/

  predicate Short(d: Difference) {
    |d.ledger| <= MAX_TEXT && |d.difference| <= MAX_TEXT
  }

  /** The broker's quantity as a number. */
  ghost function BrokerValue(positions: seq<BrokerPosition>, symbol: string): real {
    var v := ParseDecimal(BrokerText(positions, symbol));
    if v.Some? then Val(v.value) else 0.0
  }

  ghost predicate SameQuantity(positions: seq<BrokerPosition>, ledger: map<string, Rat>, symbol: string) {
    BrokerValue(positions, symbol) == Val(LedgerOf(ledger, symbol))
  }

  /** What the validator says of the text of a finite value. */
  lemma TextAccepted(r: Rat, nonNegative: bool)
    requires Finite(Val(r)) && (nonNegative ==> Val(r) >= 0.0)
    ensures CanonicalDecimal(TextOf(r), nonNegative) <==> |TextOf(r)| <= MAX_TEXT
  {
    TextParses(r);
    hide ParseDecimal, FormatDecimal, TextOf, Finite, Val;
  }

  /** The three texts of a row always satisfy the validator's arithmetic. */
  lemma TextArithmetic(broker: Rat, held: Rat)
    requires Finite(Val(broker)) && Finite(Val(held))
    ensures Finite(Val(Sub(broker, held)))
    ensures var b, h, d := ParseDecimal(TextOf(broker)), ParseDecimal(TextOf(held)), ParseDecimal(TextOf(Sub(broker, held)));
      && b.Some? && h.Some? && d.Some? && Cmp(Sub(b.value, h.value), d.value) == 0
      && (Sign(d.value) == 0 <==> Val(broker) == Val(held))
  {
    hide *;
    FiniteSum(Val(broker), Val(held));
    TextParses(broker);
    TextParses(held);
    TextParses(Sub(broker, held));
    var b, h, d := ParseDecimal(TextOf(broker)).value, ParseDecimal(TextOf(held)).value, ParseDecimal(TextOf(Sub(broker, held))).value;
    assert Val(Sub(b, h)) == Val(d);
  }

  /** The texts of a produced row, and what the validator makes of them. */
  lemma ProducedRow(positions: seq<BrokerPosition>, ledger: map<string, Rat>, d: Difference)
    requires ValidPositions(positions) && ValidLedger(ledger) && RowFor(positions, ledger, d) && StockSymbol(d.symbol)
    ensures RowAccepted(positions, d) <==> Short(d)
    ensures d.agrees <==> SameQuantity(positions, ledger, d.symbol)
  {
    hide Val, BrokerText, Finite, ValidLedger, ValidPositions, StockSymbol, TextOf, ParseDecimal, FormatDecimal, LedgerOf;
    var broker, held := ParseDecimal(BrokerText(positions, d.symbol)).value, LedgerOf(ledger, d.symbol);
    BrokerTextParses(positions, d.symbol);
    LedgerFinite(ledger, d.symbol);
    ParsedIsFinite(BrokerText(positions, d.symbol));
    TextArithmetic(broker, held);
    TextAccepted(held, true);
    TextAccepted(Sub(broker, held), false);
    hide CanonicalDecimal;
  }

  lemma ParsedIsFinite(raw: string)
    requires ParseDecimal(raw).Some?
    ensures Finite(Val(ParseDecimal(raw).value))
  {}

  /** The text of a finite value parses back to it and is its own canonical form. */
  lemma TextParses(r: Rat)
    requires Finite(Val(r))
    ensures TextOf(r) != "" && ParseDecimal(TextOf(r)).Some? && Val(ParseDecimal(TextOf(r)).value) == Val(r)
    ensures FormatDecimal(ParseDecimal(TextOf(r)).value) == Some(TextOf(r))
  {
    hide Val, Finite;
    ParseOfFormat(r);
    FormatOfParse(TextOf(r));
    SignInTextNonEmpty(TextOf(r));
  }

  lemma SignInTextNonEmpty(raw: string)
    requires ParseDecimal(raw).Some?
    ensures raw != ""
  {}

  /** Whatever positionDifferences returns is accepted by the validator, exactly when no
      text is longer than 64 characters; and it reports a full match exactly when both
      sides, filled up with zeros, are equal. */
  lemma ProducedIsAccepted(positions: seq<BrokerPosition>, ledger: map<string, Rat>, rows: seq<Difference>, allMatch: bool)
    requires ValidPositions(positions) && ValidLedger(ledger) && Differences(positions, ledger, rows, allMatch)
    ensures Accepted(positions, rows, allMatch) <==> forall i :: 0 <= i < |rows| ==> Short(rows[i])
    ensures allMatch <==> forall s :: s in Symbols(positions) + ledger.Keys ==> SameQuantity(positions, ledger, s)
  {
    hide SameQuantity, RowAccepted, RowFor, LexLess, Short, ValidPositions, ValidLedger;
    forall i | 0 <= i < |rows|
      ensures RowAccepted(positions, rows[i]) <==> Short(rows[i])
      ensures rows[i].agrees <==> SameQuantity(positions, ledger, rows[i].symbol)
    {
      assert rows[i].symbol in Named(rows);
      KnownSymbol(positions, ledger, rows[i].symbol);
      ProducedRow(positions, ledger, rows[i]);
    }
    forall s | s in Symbols(positions) + ledger.Keys && allMatch
      ensures SameQuantity(positions, ledger, s)
    {
      assert s in Named(rows);
      var i :| 0 <= i < |rows| && rows[i].symbol == s;
    }
  }

  lemma KnownSymbol(positions: seq<BrokerPosition>, ledger: map<string, Rat>, s: string)
    requires ValidPositions(positions) && ValidLedger(ledger) && s in Symbols(positions) + ledger.Keys
    ensures StockSymbol(s)
  {
    hide CanonicalDecimal, Finite, Val;
  }

  /** A ledger holding 10^64 of a stock: positionDifferences reports it, in 65 digits,
      and the validator refuses the report. */
  lemma LongTextRefused(ledger: map<string, Rat>, rows: seq<Difference>, allMatch: bool)
    requires ledger == map["005930" := Ratio(Pow10(64), Pow10(0))]
    requires Differences([], ledger, rows, allMatch)
    ensures ValidPositions([]) && ValidLedger(ledger)
    ensures !Accepted([], rows, allMatch)
  {
    hide LexLess, DifferenceOf, Pow10;
    LargeLedger(ledger);
    assert "005930" in Named(rows);
    var i :| 0 <= i < |rows| && rows[i].symbol == "005930";
    LongText(ledger["005930"]);
    RowLedger([], ledger, rows[i]);
    ProducedIsAccepted([], ledger, rows, allMatch);
    assert !Short(rows[i]);
  }

  lemma RowLedger(positions: seq<BrokerPosition>, ledger: map<string, Rat>, d: Difference)
    requires RowFor(positions, ledger, d)
    ensures d.ledger == TextOf(LedgerOf(ledger, d.symbol))
  {
    hide TextOf, LedgerOf, BrokerText, ParseDecimal, Val;
  }

  lemma LargeLedger(ledger: map<string, Rat>)
    requires ledger == map["005930" := Ratio(Pow10(64), Pow10(0))]
    ensures ValidLedger(ledger) && ValidPositions([])
  {
    hide Pow10;
    ParsedFinite(Pow10(64), 0);
    LargeValue();
    hide Finite, Val;
  }

  lemma LargeValue()
    ensures Val(Ratio(Pow10(64), Pow10(0))) >= 0.0
  {
    ValUnique(Ratio(Pow10(64), Pow10(0)), Pow10(64) as real) by {
      assert Pow10(0) == 1;
    }
    hide Pow10, Val;
  }

  lemma LongText(r: Rat)
    requires r == Ratio(Pow10(64), Pow10(0))
    ensures |TextOf(r)| == 65
  {
    hide Pow10, Width, FixedDigits, FormatDecimal;
    FormatIs(Pow10(64), 0);
    Pow10Step(64);
    WidthIs(Pow10(64), 65);
  }

  lemma Pow10Step(n: nat)
    ensures Pow10(n + 1) == 10 * Pow10(n)
  {}
}
