/** What the rows of a broker comparison say in numbers, and which reports the validator
    takes (services/core/broker_snapshot.go:380-429, 556-594).
  */
module BrokerRows {
  import opened Exact
  import opened DecimalText
  import opened UtcText
  import opened FifoLaws
  import opened BrokerPositions

  /** The text the broker's positions give for a symbol: a position's quantity, or zero. */
  predicate BrokerSays(positions: seq<BrokerPosition>, symbol: string, text: string) {
    if exists i :: 0 <= i < |positions| && positions[i].symbol == symbol
    then exists i :: 0 <= i < |positions| && positions[i].symbol == symbol && positions[i].quantity == text
    else text == "0"
  }

  ghost function LedgerSays(ledger: map<string, Rat>, symbol: string): real {
    if symbol in ledger then Val(ledger[symbol]) else 0.0
  }

  /** A row compares the broker's quantity with the ledger's: the difference is the first
      less the second, and they agree when it is nothing. */
  ghost predicate Compares(positions: seq<BrokerPosition>, d: Difference) {
    && BrokerSays(positions, d.symbol, d.broker)
    && ParseDecimal(d.broker).Some? && ParseDecimal(d.ledger).Some? && ParseDecimal(d.difference).Some?
    && Num(d.difference) == Num(d.broker) - Num(d.ledger) && (d.agrees <==> Num(d.broker) == Num(d.ledger))
  }

  lemma BrokerTextSays(positions: seq<BrokerPosition>, symbol: string, text: string)
    requires forall i, j :: 0 <= i < j < |positions| ==> positions[i].symbol != positions[j].symbol
    ensures text == BrokerText(positions, symbol) <==> BrokerSays(positions, symbol, text)
  {
    BrokerTextIs(positions, symbol);
    hide BrokerText;
    if i :| 0 <= i < |positions| && positions[i].symbol == symbol {
      assert positions[i].symbol in Symbols(positions);
      var j :| 0 <= j < |positions| && positions[j] == BrokerPosition(symbol, BrokerText(positions, symbol));
      assert i == j;
    }
  }

  /** Every row of a comparison tells both sides and their difference. */
  lemma ProducedCompares(positions: seq<BrokerPosition>, ledger: map<string, Rat>, rows: seq<Difference>, allMatch: bool, i: nat)
    requires ValidPositions(positions) && ValidLedger(ledger) && Differences(positions, ledger, rows, allMatch) && i < |rows|
    ensures Compares(positions, rows[i]) && Num(rows[i].ledger) == LedgerSays(ledger, rows[i].symbol)
  {
    hide Differences, ValidPositions, ValidLedger, BrokerText, ParseDecimal, FormatDecimal, TextOf, Val, LedgerOf, Finite, BrokerSays;
    var d := rows[i];
    ProducedRowFor(positions, ledger, rows, allMatch, i);
    var broker, held := ParseDecimal(BrokerText(positions, d.symbol)).value, LedgerOf(ledger, d.symbol);
    PositionsDistinct(positions);
    BrokerTextSays(positions, d.symbol, d.broker);
    BrokerTextParses(positions, d.symbol);
    ParsedIsFinite(BrokerText(positions, d.symbol));
    LedgerFinite(ledger, d.symbol);
    FiniteSum(Val(broker), Val(held));
    TextParses(broker);
    TextParses(held);
    TextParses(Sub(broker, held));
    LedgerValue(ledger, d.symbol);
    hide CanonicalDecimal;
  }

  lemma LedgerValue(ledger: map<string, Rat>, symbol: string)
    ensures Val(LedgerOf(ledger, symbol)) == LedgerSays(ledger, symbol)
  {}

  lemma PositionsDistinct(positions: seq<BrokerPosition>)
    requires ValidPositions(positions)
    ensures forall i, j :: 0 <= i < j < |positions| ==> positions[i].symbol != positions[j].symbol
  {
    hide CanonicalDecimal;
  }

  lemma ProducedRowFor(positions: seq<BrokerPosition>, ledger: map<string, Rat>, rows: seq<Difference>, allMatch: bool, i: nat)
    requires Differences(positions, ledger, rows, allMatch) && i < |rows|
    ensures RowFor(positions, ledger, rows[i])
  {
    hide RowFor, Ordered, Named, Symbols;
  }

  /******* The validator *******/

  /** A row of a report the validator takes. */
  ghost predicate SoundRow(positions: seq<BrokerPosition>, d: Difference) {
    && |d.symbol| == 6 && (forall i :: 0 <= i < 6 ==> '0' <= d.symbol[i] <= '9')
    && Compares(positions, d) && Num(d.broker) >= 0.0 && Num(d.ledger) >= 0.0
    && |d.broker| <= 64 && |d.ledger| <= 64 && |d.difference| <= 64
  }

  predicate Listed(rows: seq<Difference>, symbol: string) {
    exists j :: 0 <= j < |rows| && rows[j].symbol == symbol
  }

  /** Rows sorted by symbol, one for every position, and the flag that says they all agree. */
  ghost predicate SoundReport(positions: seq<BrokerPosition>, rows: seq<Difference>, allMatch: bool) {
    && (forall i :: 0 <= i < |rows| ==> SoundRow(positions, rows[i]))
    && (forall i :: 0 < i < |rows| ==> LexLess(rows[i - 1].symbol, rows[i].symbol))
    && (forall i :: 0 <= i < |positions| ==> Listed(rows, positions[i].symbol))
    && (allMatch <==> forall i :: 0 <= i < |rows| ==> Num(rows[i].broker) == Num(rows[i].ledger))
  }

  lemma DecimalIs(raw: string, nonNegative: bool)
    ensures CanonicalDecimal(raw, nonNegative) <==> ParseDecimal(raw).Some? && |raw| <= 64 && (nonNegative ==> Num(raw) >= 0.0)
  {
    if ParseDecimal(raw).Some? {
      FormatOfParse(raw);
      SignInTextNonEmpty(raw);
      SignValue(ParseDecimal(raw).value);
    }
    hide ParseDecimal, FormatDecimal, Val, Sign;
  }

  lemma DifferenceIs(broker: Rat, ledger: Rat, difference: Rat)
    ensures Cmp(Sub(broker, ledger), difference) == 0 <==> Val(difference) == Val(broker) - Val(ledger)
    ensures Sign(difference) == 0 <==> Val(difference) == 0.0
  {
    SignValue(difference);
    hide Val;
  }

  lemma RowIsSound(positions: seq<BrokerPosition>, d: Difference)
    requires ValidPositions(positions)
    ensures RowAccepted(positions, d) <==> SoundRow(positions, d)
  {
    hide ValidPositions, CanonicalDecimal, ParseDecimal, Val, Sub, Cmp, Sign, BrokerText, BrokerSays;
    DecimalIs(d.broker, true);
    DecimalIs(d.ledger, true);
    DecimalIs(d.difference, false);
    PositionsDistinct(positions);
    BrokerTextSays(positions, d.symbol, d.broker);
    SymbolIs(d.symbol);
    if ParseDecimal(d.broker).Some? && ParseDecimal(d.ledger).Some? && ParseDecimal(d.difference).Some? {
      DifferenceIs(ParseDecimal(d.broker).value, ParseDecimal(d.ledger).value, ParseDecimal(d.difference).value);
    }
    hide StockSymbol;
  }

  lemma SymbolIs(s: string)
    ensures StockSymbol(s) <==> |s| == 6 && forall i :: 0 <= i < 6 ==> '0' <= s[i] <= '9'
  {
    if StockSymbol(s) {
      forall i | 0 <= i < 6
        ensures '0' <= s[i] <= '9'
      {
        assert IsDigit(s[i]);
      }
    }
    if |s| == 6 && forall i :: 0 <= i < 6 ==> '0' <= s[i] <= '9' {
      assert forall i :: 0 <= i < |s| ==> IsDigit(s[i]);
    }
  }

  lemma ListedIs(rows: seq<Difference>, symbol: string)
    ensures symbol in Named(rows) <==> Listed(rows, symbol)
  {}

  lemma CoversIs(positions: seq<BrokerPosition>, rows: seq<Difference>)
    ensures Symbols(positions) <= Named(rows) <==> forall i :: 0 <= i < |positions| ==> Listed(rows, positions[i].symbol)
  {
    hide Named, Listed;
    forall i | 0 <= i < |positions|
      ensures positions[i].symbol in Symbols(positions)
      ensures positions[i].symbol in Named(rows) <==> Listed(rows, positions[i].symbol)
    {
      ListedIs(rows, positions[i].symbol);
    }
  }

  /** The validator takes exactly the sound reports. */
  lemma AcceptedExactly(positions: seq<BrokerPosition>, rows: seq<Difference>, allMatch: bool)
    requires ValidPositions(positions)
    ensures Accepted(positions, rows, allMatch) <==> SoundReport(positions, rows, allMatch)
  {
    hide ValidPositions, RowAccepted, LexLess, Symbols, Named, BrokerSays;
    CoversIs(positions, rows);
    forall i | 0 <= i < |rows|
      ensures RowAccepted(positions, rows[i]) <==> SoundRow(positions, rows[i])
    {
      RowIsSound(positions, rows[i]);
    }
    hide Num;
  }
}
