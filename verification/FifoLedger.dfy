/** Three rows: one unit bought at 100, one at 200, and one sold at 300. */
module FifoLedger {
  import opened Exact
  import opened DecimalText
  import opened UtcText
  import opened LedgerTable
  import opened Sums
  import opened Fifo
  import opened FifoLaws
  import opened RowChecks
  import opened SplitLedger
  import opened FifoOrder

  const CHEAP := Row(1, Trade("cheap", Buy, "1", "100", "0", "-100"), "receipt", NEW_YEAR)
  const DEAR := Row(2, Trade("dear", Buy, "1", "200", "0", "-200"), "receipt", NEW_YEAR)
  const SOLD := Row(3, Trade("sold", Sell, "1", "300", "0", "300"), "receipt", NEW_YEAR)
  const ROWS := [CHEAP, DEAR, SOLD]

  function Key(): string {
    PositionKey(InstrumentIdFor(STOCK), "KRW")
  }

  lemma Hundreds(n: nat, s: string)
    requires 1 <= n < 10 && s == [('0' as int + n) as char, '0', '0']
    ensures CanonicalInteger(s) && DigitsVal(s) == 100 * n
  {
    TwoDigits(n, s[..2], 0);
    assert s[..|s| - 1] == s[..2] && s[2] == '0';
  }

  lemma Prices()
    ensures Is("1", 1) && Is("0", 0) && Is("100", 100) && Is("200", 200) && Is("300", 300) && Is("-100", -100) && Is("-200", -200)
  {
    hide ParseDecimal, Val;
    LedgerNumbers();
    Hundreds(1, "100");
    Hundreds(2, "200");
    Hundreds(3, "300");
    WholeNumber(100, "100");
    WholeNumber(200, "200");
    WholeNumber(300, "300");
    WholeNumber(-100, "100");
    WholeNumber(-200, "200");
    PriceJoins();
  }

  lemma PriceJoins()
    ensures Join(100, "100", "") == "100" && Join(200, "200", "") == "200" && Join(300, "300", "") == "300"
    ensures Join(-100, "100", "") == "-100" && Join(-200, "200", "") == "-200"
  {
    assert "" + "100" == "100" && "" + "200" == "200" && "" + "300" == "300";
    assert "-" + "100" == "-100" && "-" + "200" == "-200";
  }

  lemma BuysFit()
    ensures Fits(CHEAP.tx) && Fits(DEAR.tx)
  {
    hide ParseDecimal, Val;
    Prices();
  }

  lemma SaleFits()
    ensures Fits(SOLD.tx)
  {
    hide ParseDecimal, Val;
    Prices();
  }

  lemma RowsChecked()
    ensures AllChecked(ROWS) && CanonicalUtc(NEW_YEAR)
  {
    hide Fits, Checked;
    BuysFit();
    SaleFits();
    NewYearCanonical();
    FitsChecked(CHEAP.tx);
    FitsChecked(DEAR.tx);
    FitsChecked(SOLD.tx);
  }

  lemma RowNumbers()
    ensures Num(CHEAP.tx.quantity) == 1.0 && Num(CHEAP.tx.price) == 100.0 && Num(CHEAP.tx.fee) == 0.0
    ensures Num(DEAR.tx.quantity) == 1.0 && Num(DEAR.tx.price) == 200.0 && Num(DEAR.tx.fee) == 0.0
    ensures Num(SOLD.tx.quantity) == 1.0 && Num(SOLD.tx.amount) == 300.0
  {
    hide ParseDecimal, Number;
    Prices();
  }

  /** A buy realises nothing and always replays. */
  lemma BuyReplays(rows: seq<Row>, row: Row)
    requires AllChecked(rows) && Checked(row.tx) && CanonicalUtc(row.tx.occurredAt) && Replay(rows).Some? && row.tx.kind.Buy?
    ensures Replay(rows + [row]).Some? && Replay(rows + [row]).value.realized == Replay(rows).value.realized
  {
    ReplayStops(rows, row);
    hide Checked, CanonicalUtc, Opened, Number, Step, Replay;
    assert (rows + [row])[..|rows|] == rows;
    LastStep(rows + [row]);
    BuyRealises(Replay(rows).value, row.tx);
  }

  lemma BuyRealises(book: Book, t: Transaction)
    requires t.kind.Buy? && Step(book, t).Some?
    ensures Step(book, t).value.realized == book.realized
  {
    hide CanonicalUtc, Opened, Number, Plus, PositionKey, BuyCost;
  }

  lemma TwoBought()
    ensures AllChecked([CHEAP, DEAR]) && Replay([CHEAP, DEAR]).Some? && Replay([CHEAP, DEAR]).value.realized == map[]
  {
    hide Checked, CanonicalUtc;
    RowsChecked();
    assert ROWS[0] == CHEAP && ROWS[1] == DEAR;
    assert [] + [CHEAP] == [CHEAP] && [CHEAP] + [DEAR] == [CHEAP, DEAR];
    BuyReplays([], CHEAP);
    BuyReplays([CHEAP], DEAR);
  }

  /** Two purchases, and after the sale one unit sold. */
  lemma PurchasesAre()
    ensures Purchases([CHEAP, DEAR], Key()) == [Purchase(1.0, 100.0), Purchase(1.0, 200.0)] && Sold([CHEAP, DEAR], Key()) == 0.0
    ensures Purchases(ROWS, Key()) == [Purchase(1.0, 100.0), Purchase(1.0, 200.0)] && Sold(ROWS, Key()) == 1.0
  {
    hide Num, InstrumentIdFor;
    RowNumbers();
    assert Touches(CHEAP.tx, Key()) && Touches(DEAR.tx, Key()) && Touches(SOLD.tx, Key());
    hide PositionKey, Touches;
    assert [CHEAP][..0] == [] && [CHEAP, DEAR][..1] == [CHEAP] && ROWS[..2] == [CHEAP, DEAR];
    assert Purchases([CHEAP], Key()) == [Purchase(1.0, 100.0)] && Sold([CHEAP], Key()) == 0.0;
    assert Sold([CHEAP, DEAR], Key()) == 0.0;
  }

  /** Two purchases of one unit each, of which `sold` units are gone. */
  lemma OpenLots(lots: seq<Lot>, sold: real, k: nat)
    requires FirstInFirstOut(lots, [Purchase(1.0, 100.0), Purchase(1.0, 200.0)], sold, k)
    ensures sold == 0.0 ==> LotCost(lots) == 300.0 && LotUnits(lots) == 2.0
    ensures sold == 1.0 ==> LotCost(lots) == 200.0 && LotUnits(lots) == 1.0
  {
    var p := [Purchase(1.0, 100.0), Purchase(1.0, 200.0)];
    assert p[..0] == [] && p[..1] == [] + [p[0]] && p[..2] == p[..1] + [p[1]];
    UnitsAppend([], p[0]);
    UnitsAppend(p[..1], p[1]);
    if k == 0 {
      assert lots == [lots[0], lots[1]] && lots[1..] == [lots[1]] && lots[1..][1..] == [];
      assert LotCost(lots) == lots[0].cost + (lots[1].cost + 0.0);
      assert LotUnits(lots) == lots[0].quantity + (lots[1].quantity + 0.0);
    } else if k == 1 {
      assert lots == [lots[0]] && lots[1..] == [];
    }
  }

  /** The unit sold is the one bought at 100: realised 200, and 200 left in the lots. */
  lemma OldestIsSold()
    ensures AllChecked(ROWS) && Replay(ROWS).Some?
    ensures Replay(ROWS).value.realized == map["KRW" := 200.0]
    ensures LotCost(LotsAt(Replay(ROWS).value, Key())) == 200.0 && LotUnits(LotsAt(Replay(ROWS).value, Key())) == 1.0
  {
    hide Checked, CanonicalUtc, Replay, FirstInFirstOut, LotsAt, Num, LotCost, LotUnits, Step, Opened, WithLots, Purchases, Sold,
      PositionKey, InstrumentIdFor;
    RowsChecked();
    TwoBought();
    RowNumbers();
    PurchasesAre();
    var rows := [CHEAP, DEAR];
    assert rows + [SOLD] == ROWS && ROWS[2] == SOLD;
    var k := OldestSoldFirst(rows, Key());
    OpenLots(LotsAt(Replay(rows).value, Key()), 0.0, k);
    LotsWith(Replay(rows).value, SOLD.tx, [], Key());
    ReplayStops(rows, SOLD);
    k := OldestSoldFirst(ROWS, Key());
    OpenLots(LotsAt(Replay(ROWS).value, Key()), 1.0, k);
    LastStep(ROWS);
    assert ROWS[..2] == rows;
    SaleRealises(Replay(rows).value, SOLD.tx);
  }
}
