/** A ledger of three rows on which the broker comparison fails although it replays: ten
    units bought, split by two, and fifteen sold.
  */
module SplitLedger {
  import opened Results
  import opened Exact
  import opened DecimalText
  import opened UtcText
  import opened LedgerTable
  import opened Fifo
  import opened FifoLaws
  import opened RowChecks
  import opened LedgerInvariants
  import opened BrokerPositions
  import opened BrokerLedger

  const NEW_YEAR := "2025-01-01T00:00:00Z"
  const ACCOUNT := "account-main"
  const STOCK := "005930"

  function Trade(id: string, kind: Kind, quantity: string, price: string, fee: string, amount: string): Transaction {
    Transaction(id, id, ACCOUNT, kind, NEW_YEAR, InstrumentIdFor(STOCK), STOCK, quantity, price, fee, KRW, amount, "", "", "")
  }

  const BUY := Row(1, Trade("buy", Buy, "10", "1", "0", "-10"), "receipt", NEW_YEAR)
  const SPLIT := Row(2, Trade("split", Split, "2", "", "", "0"), "receipt", NEW_YEAR)
  const SELL := Row(3, Trade("sell", Sell, "15", "1", "0", "15"), "receipt", NEW_YEAR)
  const LEDGER := [BUY, SPLIT, SELL]

  /******* The numbers *******/

  lemma WholeNumber(m: int, integer: string)
    requires CanonicalInteger(integer) && DigitsVal(integer) == Abs(m)
    ensures ParseDecimal(Join(m, integer, "")).Some? && Val(ParseDecimal(Join(m, integer, "")).value) == m as real
    ensures Number(Join(m, integer, "")) == Some(m as real)
  {
    assert integer + "" == integer;
    ParseOfParts(m, integer, "");
    assert Pow10(0) == 1;
    ValUnique(Ratio(m, 1), m as real);
    hide ParseDecimal, Val, Join, DigitsVal;
  }

  /** The value of a text that is a whole number. */
  ghost predicate Is(raw: string, n: int) {
    ParseDecimal(raw).Some? && Val(ParseDecimal(raw).value) == n as real && Number(raw) == Some(n as real)
  }

  lemma LedgerNumbers()
    ensures Is("10", 10) && Is("1", 1) && Is("0", 0) && Is("-10", -10) && Is("2", 2) && Is("15", 15)
  {
    hide ParseDecimal, Val;
    TwoDigits(1, "10", 0);
    TwoDigits(1, "15", 5);
    ZeroDigits();
    OneDigit(1, "1");
    OneDigit(2, "2");
    WholeNumber(10, "10");
    WholeNumber(1, "1");
    WholeNumber(0, "0");
    WholeNumber(-10, "10");
    WholeNumber(2, "2");
    WholeNumber(15, "15");
    Joins();
  }

  lemma Joins()
    ensures Join(10, "10", "") == "10" && Join(1, "1", "") == "1" && Join(0, "0", "") == "0" && Join(-10, "10", "") == "-10"
    ensures Join(2, "2", "") == "2" && Join(15, "15", "") == "15"
  {
    assert "" + "10" == "10" && "" + "1" == "1" && "" + "0" == "0" && "" + "2" == "2" && "" + "15" == "15";
    assert "-" + "10" == "-10";
  }

  lemma NewYearCanonical()
    ensures CanonicalUtc(NEW_YEAR)
  {
    hide Stripped, CanonicalUtc, DigitsVal, DaysIn, FixedDigits;
    var s := Stamp(2025, 1, 1, 0, 0, 0, 0);
    TwoDigits(2, "20", 0);
    TwoDigits(2, "25", 5);
    NewYear();
    NewYearText(s, "20", "25");
    CanonicalIsFormat(s);
    NewYearIs("20", "25");
  }

  lemma NewYear()
    ensures ValidStamp(Stamp(2025, 1, 1, 0, 0, 0, 0))
  {}

  lemma NewYearIs(high: string, low: string)
    requires high == "20" && low == "25"
    ensures high + low + "-01-01T00:00:00" + "Z" == NEW_YEAR
  {
    assert high + low == "2025";
    assert "2025" + "-01-01T00:00:00" == "2025-01-01T00:00:00";
  }

  /******* The table *******/

  lemma BuyFits()
    ensures Fits(BUY.tx)
  {
    hide ParseDecimal, Val;
    LedgerNumbers();
  }

  lemma SplitFits()
    ensures Fits(SPLIT.tx)
  {
    hide ParseDecimal, Val;
    LedgerNumbers();
  }

  lemma SellFits()
    ensures Fits(SELL.tx)
  {
    hide ParseDecimal, Val;
    LedgerNumbers();
  }

  lemma LedgerFits()
    ensures TableFits(LEDGER) && AllCanonical(LEDGER)
  {
    hide Fits, CanonicalUtc, InstrumentIdFor;
    NewYearCanonical();
    BuyFits();
    SplitFits();
    SellFits();
  }

  /******* The order of the rows *******/

  lemma {:induction false} InsertLast(policy: Policy, row: Row, rows: seq<Row>)
    requires forall r :: r in rows ==> !Before(policy, row, r)
    ensures Insert(policy, row, rows) == rows + [row]
  {
    if rows != [] {
      InsertLast(policy, row, rows[1..]);
      assert rows == [rows[0]] + rows[1..];
    }
  }

  /** Rows of one time are read in the order they were stored. */
  lemma {:induction false} OneTimeRanked(policy: Policy, rows: seq<Row>)
    requires forall i, j :: 0 <= i < j < |rows| ==> rows[i].tx.occurredAt == rows[j].tx.occurredAt && rows[i].sequence < rows[j].sequence
    ensures Ranked(policy, rows) == rows
  {
    if rows != [] {
      var front, last := rows[..|rows| - 1], rows[|rows| - 1];
      OneTimeRanked(policy, front);
      LexIrreflexive(SortKey(policy, last));
      InsertLast(policy, last, front);
      assert rows == front + [last];
    }
  }

  /******* The replay and the loop *******/

  lemma StockTrades()
    ensures StockSymbol(STOCK) && Concerns(BUY.tx, STOCK) && Concerns(SPLIT.tx, STOCK) && Concerns(SELL.tx, STOCK)
    ensures AllInstrumented(LEDGER) && Selected(ACCOUNT, BUY.tx) && ReadSale(ACCOUNT, SELL.tx)
  {
    hide InstrumentIdFor;
  }

  lemma StartsEmpty()
    ensures Replay([]).Some? && HeldIn([], STOCK) == 0.0 && Unread(ACCOUNT, [], STOCK) == 0.0
  {
    hide StockKey;
  }

  /** A held stock has lots to split. */
  lemma HeldHasLots(rows: seq<Row>, t: Transaction)
    requires Replay(rows).Some? && HeldIn(rows, STOCK) > 0.0 && Instrumented(t) && Concerns(t, STOCK)
    ensures Opened(Replay(rows).value, t).lots != []
    ensures LotUnits(Opened(Replay(rows).value, t).lots) == HeldIn(rows, STOCK)
  {
    hide Replay, Opened, Instrumented;
    StockTrades();
    HeldWithLots(Replay(rows).value, t, [], STOCK);
    NoLots();
  }

  /** Ten units after the buy. */
  lemma AfterBuy()
    ensures Checked(BUY.tx) && Replay([BUY]).Some? && HeldIn([BUY], STOCK) == 10.0 && Unread(ACCOUNT, [BUY], STOCK) == 0.0
  {
    hide Checked, Replay, CanonicalUtc, Instrumented, StockSymbol, Concerns, Selected, HeldIn, Fits, Num;
    NewYearCanonical();
    BuyFits();
    FitsChecked(BUY.tx);
    StartsEmpty();
    StockTrades();
    assert LEDGER[0] == BUY;
    assert [] + [BUY] == [BUY] && [BUY][..0] == [];
    ReplayStops([], BUY);
    StepReads(ACCOUNT, [BUY], STOCK);
    SelectedIsRead(ACCOUNT, 0.0, BUY.tx, STOCK);
    LedgerNumbers();
    BuyMoves();
  }

  lemma BuyMoves()
    ensures Moved(BUY.tx, STOCK) == 10.0
  {
    hide ParseDecimal, Number;
    LedgerNumbers();
    StockTrades();
  }

  /** After the split twenty units are held, ten of them unread. */
  lemma AfterSplit()
    ensures Checked(SPLIT.tx) && Replay([BUY, SPLIT]).Some? && AllChecked([BUY, SPLIT]) && AllInstrumented([BUY, SPLIT])
    ensures HeldIn([BUY, SPLIT], STOCK) == 20.0 && Unread(ACCOUNT, [BUY, SPLIT], STOCK) == 10.0
  {
    hide Checked, Replay, CanonicalUtc, Instrumented, StockSymbol, Concerns, Selected, HeldIn, Unread, Fits, Num;
    NewYearCanonical();
    SplitFits();
    FitsChecked(SPLIT.tx);
    AfterBuy();
    StockTrades();
    assert LEDGER[0] == BUY && LEDGER[1] == SPLIT;
    assert [BUY] + [SPLIT] == [BUY, SPLIT];
    HeldHasLots([BUY], SPLIT.tx);
    ReplayStops([BUY], SPLIT);
    SplitIsMissed(ACCOUNT, [BUY], SPLIT, STOCK);
    SplitFactor();
  }

  lemma SplitFactor()
    ensures Num(SPLIT.tx.quantity) == 2.0 && Num(SELL.tx.quantity) == 15.0
  {
    hide ParseDecimal, Number;
    LedgerNumbers();
  }

  /** A ledger the table accepts, with canonical times, that replays under the corrected
      order: the loop over its trades fails, because it sells 15 of the 20 units held
      while only 10 were read. */
  lemma ReplaysButFails()
    ensures TableFits(LEDGER) && AllCanonical(LEDGER) && Replay(Ranked(Corrected, LEDGER)).Some?
    ensures Quantities(Ranked(Corrected, Trades(ACCOUNT, LEDGER))).None?
  {
    hide Checked, Replay, CanonicalUtc, Instrumented, StockSymbol, Concerns, Selected, HeldIn, Unread, Fits, Num, Quantities, Trades,
      TableFits, ReadSale;
    LedgerFits();
    SellFits();
    FitsChecked(SELL.tx);
    NewYearCanonical();
    AfterSplit();
    StockTrades();
    SplitFactor();
    var rows := [BUY, SPLIT];
    assert LEDGER[2] == SELL && rows + [SELL] == LEDGER;
    HeldHasLots(rows, SELL.tx);
    ReplayStops(rows, SELL);
    NoSales();
    SaleAfterSplit(ACCOUNT, rows, SELL);
    OneTimeRanked(Corrected, LEDGER);
    TableIsChecked(LEDGER);
    TradesRanked(ACCOUNT, Corrected, LEDGER);
  }

  lemma NoSales()
    ensures SalesRead(ACCOUNT, [BUY, SPLIT])
  {
    hide HeldIn, Unread;
  }
}
