/** The ledger side of the broker comparison: ledgerKRXQuantities
    (services/core/broker_snapshot.go:332-378) against the FIFO holdings.

    The query's account is a parameter; requireCurrentLedgerReplay is the condition
    that the corrected order is in force.
  */
module BrokerLedger {
  import opened Results
  import opened Exact
  import opened DecimalText
  import opened UtcText
  import opened LedgerTable
  import opened Sums
  import opened Fifo
  import opened FifoLaws
  import opened LedgerReplay
  import opened RowChecks
  import opened LedgerInvariants
  import opened BrokerPositions

  const KRW := "KRW"

  /******* The query and its loop *******/

  /** WHERE account_id=? AND currency='KRW' AND type IN ('BUY','SELL'). */
  predicate Selected(account: string, t: Transaction) {
    t.accountId == account && t.currency == KRW && (t.kind.Buy? || t.kind.Sell?)
  }

  function Trades(account: string, rows: seq<Row>): (r: seq<Row>) {
    if rows == [] then []
    else
      var last := rows[|rows| - 1];
      var before := Trades(account, rows[..|rows| - 1]);
      if Selected(account, last.tx) then before + [last] else before
  }

  /** What the loop adds up, row by row; `None` is one of its three errors. */
  ghost function Quantities(rows: seq<Row>): Option<map<string, real>> {
    if rows == [] then Some(map[])
    else
      var before :- Quantities(rows[..|rows| - 1]);
      Counted(before, rows[|rows| - 1].tx)
  }

  ghost function Counted(held: map<string, real>, t: Transaction): Option<map<string, real>> {
    if !CanonicalUtc(t.occurredAt) then None
    else if !StockSymbol(t.symbol) then Some(held)
    else
      var quantity :- Number(t.quantity);
      if quantity <= 0.0 then None
      else if t.kind.Buy? then Some(Plus(held, t.symbol, quantity))
      else if Get(held, t.symbol) - quantity < 0.0 then None
      else Some(Plus(held, t.symbol, -quantity))
  }

  method LedgerQuantities(rows: seq<Row>) returns (r: Result<map<string, Rat>>)
    ensures r.Ok? <==> Quantities(rows).Some?
    ensures r.Ok? ==> SameValues(r.value, Quantities(rows).value)
  {
    hide Counted, Val;
    var held: map<string, Rat> := map[];
    for i := 0 to |rows|
      invariant Quantities(rows[..i]).Some? && SameValues(held, Quantities(rows[..i]).value)
    {
      assert rows[..i + 1][..i] == rows[..i];
      var counted := CountRow(held, rows[i].tx, Quantities(rows[..i]).value);
      if counted.Err? {
        QuantitiesFail(rows, i + 1);
        return Err(counted.message);
      }
      held := counted.value;
    }
    assert rows[..|rows|] == rows;
    r := Ok(held);
  }

  /** The loop's body. */
  method CountRow(held: map<string, Rat>, t: Transaction, ghost spec: map<string, real>) returns (r: Result<map<string, Rat>>)
    requires SameValues(held, spec)
    ensures r.Ok? <==> Counted(spec, t).Some?
    ensures r.Ok? ==> SameValues(r.value, Counted(spec, t).value)
  {
    hide Val, ParseDecimal, CanonicalUtc, Sign, StockSymbol;
    if !CanonicalUtc(t.occurredAt) {
      return Err("broker ledger occurred_at is not canonical UTC");
    }
    if !StockSymbol(t.symbol) {
      return Ok(held);
    }
    var quantity := ParseDecimal(t.quantity);
    if quantity.None? || Sign(quantity.value) <= 0 {
      return Err("ledger quantity for " + t.symbol + " is invalid");
    }
    var sold := AddRat(held, t.symbol, if t.kind.Buy? then quantity.value else Neg(quantity.value), spec);
    if !t.kind.Buy? && Sign(sold[t.symbol]) < 0 {
      return Err("ledger position for " + t.symbol + " is negative");
    }
    r := Ok(sold);
  }

  lemma {:induction false} QuantitiesFail(rows: seq<Row>, n: nat)
    requires n <= |rows| && Quantities(rows[..n]).None?
    ensures Quantities(rows).None?
    decreases |rows| - n
  {
    if n == |rows| {
      assert rows[..n] == rows;
    } else {
      assert rows[..n + 1][..n] == rows[..n];
      QuantitiesFail(rows, n + 1);
    }
  }

  /** The map the comparison is given: stock symbols only, finite and not negative. */
  lemma {:induction false} QuantitiesValid(rows: seq<Row>)
    requires Quantities(rows).Some?
    ensures var held := Quantities(rows).value; AllFinite(held) && forall s :: s in held ==> StockSymbol(s) && held[s] >= 0.0
  {
    hide StockSymbol, CanonicalUtc, Finite, Number;
    if rows != [] {
      var t := rows[|rows| - 1].tx;
      var before := Quantities(rows[..|rows| - 1]).value;
      QuantitiesValid(rows[..|rows| - 1]);
      if StockSymbol(t.symbol) {
        NumberFinite(t.quantity);
        var quantity := Number(t.quantity).value;
        FiniteInt(0);
        FiniteSum(0.0, quantity);
        PlusFinite(before, t.symbol, quantity);
        PlusFinite(before, t.symbol, -quantity);
      }
    }
  }

  lemma LedgerIsValid(rows: seq<Row>, ledger: map<string, Rat>)
    requires Quantities(rows).Some? && SameValues(ledger, Quantities(rows).value)
    ensures ValidLedger(ledger)
  {
    QuantitiesValid(rows);
    hide Quantities, Finite, StockSymbol, Val;
  }

  /******* Filtering and ordering commute *******/

  lemma {:induction false} TradesFront(account: string, row: Row, rows: seq<Row>)
    ensures Trades(account, [row] + rows) == if Selected(account, row.tx) then [row] + Trades(account, rows) else Trades(account, rows)
  {
    hide Selected;
    var all := [row] + rows;
    if rows == [] {
      assert all[..0] == [];
    } else {
      assert all[..|all| - 1] == [row] + rows[..|rows| - 1];
      TradesFront(account, row, rows[..|rows| - 1]);
    }
  }

  lemma {:induction false} TradesMembers(account: string, rows: seq<Row>)
    ensures forall row :: row in Trades(account, rows) ==> row in rows
  {
    if rows != [] {
      TradesMembers(account, rows[..|rows| - 1]);
    }
  }

  lemma {:induction false} TradesInsert(account: string, policy: Policy, row: Row, rows: seq<Row>)
    requires Sorted(policy, rows)
    ensures Trades(account, Insert(policy, row, rows)) ==
      if Selected(account, row.tx) then Insert(policy, row, Trades(account, rows)) else Trades(account, rows)
  {
    hide Selected, Before;
    TradesFront(account, row, rows);
    assert [row] + [] == [row];
    if rows != [] {
      assert [rows[0]] + rows[1..] == rows;
      assert ([rows[0]] + Trades(account, rows[1..]))[1..] == Trades(account, rows[1..]);
      TradesFront(account, rows[0], rows[1..]);
      if Before(policy, row, rows[0]) {
        InsertFirst(account, policy, row, rows);
      } else {
        TradesInsert(account, policy, row, rows[1..]);
        TradesFront(account, rows[0], Insert(policy, row, rows[1..]));
      }
    }
  }

  lemma InsertFirst(account: string, policy: Policy, row: Row, rows: seq<Row>)
    requires rows != [] && Sorted(policy, rows) && Before(policy, row, rows[0])
    ensures Insert(policy, row, Trades(account, rows)) == [row] + Trades(account, rows)
  {
    hide Before;
    var trades := Trades(account, rows);
    TradesMembers(account, rows);
    if trades != [] {
      assert trades[0] in rows;
      var i :| 0 <= i < |rows| && rows[i] == trades[0];
      if i > 0 {
        BeforeTransitive(policy, row, rows[0], rows[i]);
      }
    }
  }

  /** Selecting and then ordering is ordering and then selecting. */
  lemma {:induction false} TradesRanked(account: string, policy: Policy, rows: seq<Row>)
    requires Distinct(rows)
    ensures Ranked(policy, Trades(account, rows)) == Trades(account, Ranked(policy, rows))
  {
    hide Selected, Sorted;
    if rows != [] {
      var front, last := rows[..|rows| - 1], rows[|rows| - 1];
      TradesRanked(account, policy, front);
      RankedIsOrdering(policy, front);
      TradesInsert(account, policy, last, Ranked(policy, front));
      assert (Trades(account, front) + [last])[..|Trades(account, front)|] == Trades(account, front);
    }
  }

  /******* Agreement with the FIFO holdings *******/

  function StockKey(symbol: string): string {
    PositionKey(InstrumentIdFor(symbol), KRW)
  }

  /** Units of the open lots of a symbol held in KRW. */
  ghost function HeldUnits(book: Book, symbol: string): real {
    if StockKey(symbol) in book.positions then LotUnits(book.positions[StockKey(symbol)].lots) else 0.0
  }

  /** A trade is its instrument's, as normalize leaves it. */
  predicate Instrumented(t: Transaction) {
    t.instrumentId == InstrumentOf(t.symbol)
  }

  /** The event is a KRW event of this symbol. */
  predicate Concerns(t: Transaction, symbol: string) {
    IsTrade(t.kind) && t.currency == KRW && t.symbol == symbol
  }

  ghost predicate AllInstrumented(rows: seq<Row>) {
    forall i :: 0 <= i < |rows| ==> Instrumented(rows[i].tx)
  }

  /** No KRW stock was split, and every KRW stock trade is this account's. */
  ghost predicate PlainStocks(account: string, rows: seq<Row>) {
    forall i :: 0 <= i < |rows| ==> PlainStock(account, rows[i].tx)
  }

  predicate PlainStock(account: string, t: Transaction) {
    StockSymbol(t.symbol) && Concerns(t, t.symbol) ==> t.accountId == account && !t.kind.Split?
  }

  /** Lower-casing leaves digits alone and never makes one. */
  lemma LowerDigits(s: string, t: string)
    requires AllDigits(s)
    ensures Lower(s) == s && (Lower(t) == s ==> t == s)
  {
    if Lower(t) == s {
      forall i | 0 <= i < |t|
        ensures t[i] == s[i]
      {
        assert Lower(t)[i] == s[i];
      }
    }
  }

  /** Two trades share a stock's position only if they name the same symbol in KRW. */
  lemma SameKey(t: Transaction, symbol: string)
    requires Instrumented(t) && StockSymbol(symbol) && |t.currency| == 3
    ensures PositionKey(t.instrumentId, t.currency) == StockKey(symbol) <==> t.symbol == symbol && t.currency == KRW
  {
    hide StockSymbol, Lower, PositionKey;
    StockDigits(symbol);
    LowerDigits(symbol, t.symbol);
    if PositionKey(t.instrumentId, t.currency) == StockKey(symbol) {
      KeyInjective(t.instrumentId, t.currency, InstrumentIdFor(symbol), KRW);
      SuffixOf(t.symbol, symbol);
    }
  }

  lemma StockDigits(symbol: string)
    requires StockSymbol(symbol)
    ensures AllDigits(symbol) && symbol != ""
  {}

  lemma SuffixOf(a: string, b: string)
    requires InstrumentOf(a) == InstrumentIdFor(b)
    ensures Lower(a) == Lower(b)
  {
    var n := |"instrument_"|;
    assert InstrumentIdFor(b)[n..] == Lower(b);
    assert a != "" ==> InstrumentIdFor(a)[n..] == Lower(a);
  }

  /** Units an event moves of a symbol, when it is no split. */
  ghost function Moved(t: Transaction, symbol: string): real {
    if !Concerns(t, symbol) then 0.0 else if t.kind.Buy? then Num(t.quantity) else -Num(t.quantity)
  }

  lemma HeldWithLots(book: Book, t: Transaction, lots: seq<Lot>, symbol: string)
    requires Instrumented(t) && StockSymbol(symbol) && |t.currency| == 3 && IsTrade(t.kind)
    ensures HeldUnits(WithLots(book, t, lots), symbol) == if Concerns(t, symbol) then LotUnits(lots) else HeldUnits(book, symbol)
    ensures Concerns(t, symbol) ==> HeldUnits(book, symbol) == LotUnits(Opened(book, t).lots)
  {
    hide StockSymbol, PositionKey, StockKey, InstrumentIdFor, Instrumented;
    SameKey(t, symbol);
    NoLots();
  }

  lemma {:induction false} LotUnitsAppend(lots: seq<Lot>, lot: Lot)
    ensures LotUnits(lots + [lot]) == LotUnits(lots) + lot.quantity
  {
    if lots != [] {
      assert (lots + [lot])[1..] == lots[1..] + [lot];
      LotUnitsAppend(lots[1..], lot);
    }
  }

  /** A replayed trade moves exactly its quantity; a sale found the units. */
  lemma TradeMoves(book: Book, t: Transaction, symbol: string)
    requires SoundBook(book) && Checked(t) && Instrumented(t) && IsTrade(t.kind) && TradeStep(book, t, Num(t.amount)).Some?
    requires StockSymbol(symbol) && !(Concerns(t, symbol) && t.kind.Split?)
    ensures HeldUnits(TradeStep(book, t, Num(t.amount)).value, symbol) == HeldUnits(book, symbol) + Moved(t, symbol)
    ensures Concerns(t, symbol) && t.kind.Sell? ==> Num(t.quantity) <= HeldUnits(book, symbol)
  {
    hide StockSymbol, Instrumented, Number, BuyCost, SoundBook, SellFrom, LotUnits, SplitLots, WithLots, Opened, Concerns, HeldUnits;
    var lots, quantity := Opened(book, t).lots, Num(t.quantity);
    if t.kind.Split? {
      HeldWithLots(book, t, SplitLots(lots, quantity), symbol);
    } else if t.kind.Buy? {
      var lot := Bought(quantity, BuyCost(quantity, Num(t.price), Num(t.fee)));
      LotUnitsAppend(lots, lot);
      HeldWithLots(book, t, lots + [lot], symbol);
    } else {
      OpenedSound(book, t);
      CheckedTrade(t);
      FiniteInt(0);
      SellLaws(lots, quantity, 0.0);
      HeldWithLots(book, t, SellFrom(lots, quantity, 0.0).value.lots, symbol);
      SameHeld(book, t, lots, quantity, symbol);
    }
  }

  lemma OpenedSound(book: Book, t: Transaction)
    requires SoundBook(book)
    ensures SoundLots(Opened(book, t).lots)
  {
    NoLotsSound();
    WithLotsSound(book, t, []);
  }

  lemma SameHeld(book: Book, t: Transaction, lots: seq<Lot>, quantity: real, symbol: string)
    requires lots == Opened(book, t).lots && SellStep(book, t, quantity, Num(t.amount)).Some?
    ensures HeldUnits(SellStep(book, t, quantity, Num(t.amount)).value, symbol) ==
      HeldUnits(WithLots(book, t, SellFrom(lots, quantity, 0.0).value.lots), symbol)
  {
    hide WithLots, Opened, SellFrom, StockKey, LotUnits;
  }

  lemma StepMoves(book: Book, t: Transaction, symbol: string)
    requires SoundBook(book) && Checked(t) && Instrumented(t) && Step(book, t).Some?
    requires StockSymbol(symbol) && !(Concerns(t, symbol) && t.kind.Split?)
    ensures HeldUnits(Step(book, t).value, symbol) == HeldUnits(book, symbol) + Moved(t, symbol)
    ensures Concerns(t, symbol) && t.kind.Sell? ==> Num(t.quantity) <= HeldUnits(book, symbol)
  {
    hide StockSymbol, Instrumented, CanonicalUtc, Number, TradeStep, AllFinite, StockKey, Plus, LotUnits, SoundLots, Moved, BuyCost;
    NumberFinite(t.amount);
    PlusFinite(book.cash, t.currency, Num(t.amount));
    var noted := book.(cash := Plus(book.cash, t.currency, Num(t.amount)));
    if IsTrade(t.kind) {
      TradeMoves(noted, t, symbol);
    } else {
      NothingMoved(t, symbol);
    }
  }

  lemma NothingMoved(t: Transaction, symbol: string)
    requires !IsTrade(t.kind)
    ensures Moved(t, symbol) == 0.0 && !Concerns(t, symbol)
  {}

  ghost predicate Agree(held: map<string, real>, book: Book) {
    forall s :: StockSymbol(s) ==> Get(held, s) == HeldUnits(book, s)
  }

  lemma {:induction false} SplitUnits(lots: seq<Lot>, factor: real)
    ensures LotUnits(SplitLots(lots, factor)) == Times(LotUnits(lots), factor)
  {
    if lots != [] {
      assert SplitLots(lots, factor)[1..] == SplitLots(lots[1..], factor);
      SplitUnits(lots[1..], factor);
    }
  }

  lemma SplitMoves(book: Book, t: Transaction, symbol: string)
    requires SoundBook(book) && Checked(t) && Instrumented(t) && Step(book, t).Some?
    requires StockSymbol(symbol) && Concerns(t, symbol) && t.kind.Split?
    ensures HeldUnits(Step(book, t).value, symbol) == Times(HeldUnits(book, symbol), Num(t.quantity)) && HeldUnits(book, symbol) > 0.0
  {
    hide StockSymbol, Instrumented, CanonicalUtc, Number, AllFinite, StockKey, Plus, LotUnits, SoundLots, Times, SplitLots;
    NumberFinite(t.amount);
    PlusFinite(book.cash, t.currency, Num(t.amount));
    var noted := book.(cash := Plus(book.cash, t.currency, Num(t.amount)));
    var lots := Opened(noted, t).lots;
    OpenedSound(noted, t);
    UnitsNonNegative(lots);
    SplitUnits(lots, Num(t.quantity));
    HeldWithLots(noted, t, SplitLots(lots, Num(t.quantity)), symbol);
  }

  /******* What the loop does not read *******/

  /** Units of a symbol after a replay. */
  ghost function HeldIn(rows: seq<Row>, symbol: string): real {
    if Replay(rows).Some? then HeldUnits(Replay(rows).value, symbol) else 0.0
  }

  /** Units an event moves without the loop reading it: a split creates its factor less
      one for each unit held, another account's trade moves its quantity. */
  ghost function UnreadOf(account: string, held: real, t: Transaction, symbol: string): real {
    if !Concerns(t, symbol) || Selected(account, t) then 0.0
    else if t.kind.Split? then Times(held, Num(t.quantity) - 1.0)
    else Moved(t, symbol)
  }

  ghost function Unread(account: string, rows: seq<Row>, symbol: string): real {
    if rows == [] then 0.0
    else
      var front := rows[..|rows| - 1];
      Unread(account, front, symbol) + UnreadOf(account, HeldIn(front, symbol), rows[|rows| - 1].tx, symbol)
  }

  predicate ReadSale(account: string, t: Transaction) {
    Selected(account, t) && t.kind.Sell? && StockSymbol(t.symbol)
  }

  /** Every sale the loop reads leaves at least the units it has not read. */
  ghost predicate SalesRead(account: string, rows: seq<Row>) {
    forall i :: 0 <= i < |rows| ==> SaleRead(account, rows, i)
  }

  ghost predicate SaleRead(account: string, rows: seq<Row>, i: nat)
    requires i < |rows|
  {
    ReadSale(account, rows[i].tx) ==> Unread(account, rows[..i], rows[i].tx.symbol) <= HeldIn(rows[..i + 1], rows[i].tx.symbol)
  }

  lemma SalesReadGrows(account: string, rows: seq<Row>)
    requires rows != []
    ensures SalesRead(account, rows) <==> SalesRead(account, rows[..|rows| - 1]) && SaleRead(account, rows, |rows| - 1)
  {
    var n := |rows| - 1;
    forall i | 0 <= i < n
      ensures SaleRead(account, rows[..n], i) <==> SaleRead(account, rows, i)
    {
      assert rows[..n][..i] == rows[..i] && rows[..n][..i + 1] == rows[..i + 1];
    }
    hide SaleRead;
  }

  /** What is held is what the loop counts and what it does not read. */
  ghost predicate Offset(account: string, rows: seq<Row>, counted: map<string, real>) {
    forall s :: StockSymbol(s) ==> HeldIn(rows, s) == Get(counted, s) + Unread(account, rows, s)
  }

  lemma TimesLess(x: real, f: real)
    ensures Times(x, f) == x + Times(x, f - 1.0)
  {}

  /** Each event moves what is held by what the loop reads of it and what it does not. */
  lemma StepReads(account: string, rows: seq<Row>, symbol: string)
    requires rows != [] && AllChecked(rows) && AllInstrumented(rows) && Replay(rows).Some? && StockSymbol(symbol)
    ensures var front, t := rows[..|rows| - 1], rows[|rows| - 1].tx;
      HeldIn(rows, symbol) == HeldIn(front, symbol) + UnreadOf(account, HeldIn(front, symbol), t, symbol)
        + if Selected(account, t) then Moved(t, symbol) else 0.0
  {
    hide Checked, Instrumented, Step, Replay, SoundBook, StockSymbol, HeldUnits, Moved, Times;
    var front, t := rows[..|rows| - 1], rows[|rows| - 1].tx;
    LastStep(rows);
    ReplaySound(front);
    var book := Replay(front).value;
    if Concerns(t, symbol) && t.kind.Split? {
      SplitMoves(book, t, symbol);
      TimesLess(HeldUnits(book, symbol), Num(t.quantity));
    } else {
      StepMoves(book, t, symbol);
      UnconcernedMoves(t, symbol);
    }
  }

  lemma UnconcernedMoves(t: Transaction, symbol: string)
    ensures !Concerns(t, symbol) ==> Moved(t, symbol) == 0.0
  {}

  lemma SelectedQuantity(account: string, t: Transaction)
    requires Checked(t) && Selected(account, t)
    ensures Number(t.quantity) == Some(Num(t.quantity)) && Num(t.quantity) > 0.0
  {
    hide BuyCost;
  }

  /** One row of the loop: refused exactly when a sale would leave less than nothing. */
  lemma CountedMoves(account: string, counted: map<string, real>, t: Transaction)
    requires Checked(t) && Selected(account, t) && CanonicalUtc(t.occurredAt)
    ensures Counted(counted, t).Some? <==> (ReadSale(account, t) ==> Get(counted, t.symbol) + Moved(t, t.symbol) >= 0.0)
    ensures Counted(counted, t).Some? ==>
      forall s :: StockSymbol(s) ==> Get(Counted(counted, t).value, s) == Get(counted, s) + Moved(t, s)
  {
    hide StockSymbol, CanonicalUtc, Number, Checked;
    SelectedQuantity(account, t);
  }

  /** Held and unread units after one more row. */
  lemma RowUnits(account: string, rows: seq<Row>, symbol: string)
    requires rows != [] && AllChecked(rows) && AllInstrumented(rows) && Replay(rows).Some? && StockSymbol(symbol)
    ensures var front, t := rows[..|rows| - 1], rows[|rows| - 1].tx;
      HeldIn(rows, symbol) - Unread(account, rows, symbol) == HeldIn(front, symbol) - Unread(account, front, symbol)
        + if Selected(account, t) then Moved(t, symbol) else 0.0
    ensures var front, t := rows[..|rows| - 1], rows[|rows| - 1].tx;
      Selected(account, t) ==> Unread(account, rows, symbol) == Unread(account, front, symbol)
  {
    hide AllChecked, AllInstrumented, Replay, StockSymbol, HeldIn, Moved, UnreadOf, Selected;
    StepReads(account, rows, symbol);
    SelectedIsRead(account, HeldIn(rows[..|rows| - 1], symbol), rows[|rows| - 1].tx, symbol);
  }

  /** One more row, when the loop got that far. */
  lemma RowReads(account: string, rows: seq<Row>, counted: map<string, real>)
    requires rows != [] && AllChecked(rows) && AllInstrumented(rows) && Replay(rows).Some?
    requires Offset(account, rows[..|rows| - 1], counted)
    ensures var t := rows[|rows| - 1].tx;
      && (Selected(account, t) ==>
        && (Counted(counted, t).Some? <==> SaleRead(account, rows, |rows| - 1))
        && (Counted(counted, t).Some? ==> Offset(account, rows, Counted(counted, t).value)))
      && (!Selected(account, t) ==> SaleRead(account, rows, |rows| - 1) && Offset(account, rows, counted))
  {
    hide AllChecked, AllInstrumented, Replay, Offset, SaleRead, Counted, Selected;
    if Selected(account, rows[|rows| - 1].tx) {
      LastCanonical(rows);
      SelectedReads(account, rows, counted);
    } else {
      SkippedReads(account, rows, counted);
    }
  }

  lemma SelectedReads(account: string, rows: seq<Row>, counted: map<string, real>)
    requires rows != [] && AllChecked(rows) && AllInstrumented(rows) && Replay(rows).Some?
    requires Offset(account, rows[..|rows| - 1], counted)
    requires var t := rows[|rows| - 1].tx; Checked(t) && CanonicalUtc(t.occurredAt) && Selected(account, t)
    ensures var t := rows[|rows| - 1].tx;
      && (Counted(counted, t).Some? <==> SaleRead(account, rows, |rows| - 1))
      && (Counted(counted, t).Some? ==> Offset(account, rows, Counted(counted, t).value))
  {
    hide *;
    var n, t := |rows| - 1, rows[|rows| - 1].tx;
    assert rows[..n + 1] == rows;
    CountedMoves(account, counted, t);
    SaleReadIs(account, rows, n);
    if ReadSale(account, t) {
      SkippedSale(account, t);
      OffsetAt(account, rows[..n], counted, t.symbol);
      RowUnits(account, rows, t.symbol);
    }
    if Counted(counted, t).Some? {
      var after := Counted(counted, t).value;
      forall s | StockSymbol(s)
        ensures HeldIn(rows, s) == Get(after, s) + Unread(account, rows, s)
      {
        OffsetAt(account, rows[..n], counted, s);
        RowUnits(account, rows, s);
      }
      OffsetIs(account, rows, after);
    }
  }

  lemma SkippedReads(account: string, rows: seq<Row>, counted: map<string, real>)
    requires rows != [] && AllChecked(rows) && AllInstrumented(rows) && Replay(rows).Some?
    requires Offset(account, rows[..|rows| - 1], counted) && !Selected(account, rows[|rows| - 1].tx)
    ensures SaleRead(account, rows, |rows| - 1) && Offset(account, rows, counted)
  {
    hide *;
    var n, t := |rows| - 1, rows[|rows| - 1].tx;
    SkippedSale(account, t);
    SaleReadIs(account, rows, n);
    forall s | StockSymbol(s)
      ensures HeldIn(rows, s) == Get(counted, s) + Unread(account, rows, s)
    {
      OffsetAt(account, rows[..n], counted, s);
      RowUnits(account, rows, s);
    }
    OffsetIs(account, rows, counted);
  }

  lemma OffsetAt(account: string, rows: seq<Row>, counted: map<string, real>, symbol: string)
    requires Offset(account, rows, counted) && StockSymbol(symbol)
    ensures HeldIn(rows, symbol) == Get(counted, symbol) + Unread(account, rows, symbol)
  {}

  lemma OffsetIs(account: string, rows: seq<Row>, counted: map<string, real>)
    requires forall s :: StockSymbol(s) ==> HeldIn(rows, s) == Get(counted, s) + Unread(account, rows, s)
    ensures Offset(account, rows, counted)
  {}

  lemma SaleReadIs(account: string, rows: seq<Row>, i: nat)
    requires i < |rows|
    ensures var t := rows[i].tx;
      SaleRead(account, rows, i) <==>
        (ReadSale(account, t) ==> Unread(account, rows[..i], t.symbol) <= HeldIn(rows[..i + 1], t.symbol))
  {}

  lemma LastCanonical(rows: seq<Row>)
    requires rows != [] && AllChecked(rows) && Replay(rows).Some?
    ensures Checked(rows[|rows| - 1].tx) && CanonicalUtc(rows[|rows| - 1].tx.occurredAt)
  {
    hide Checked, Replay, CanonicalUtc, SoundBook;
    ReplaySound(rows);
  }

  lemma SelectedIsRead(account: string, held: real, t: Transaction, symbol: string)
    ensures Selected(account, t) ==> UnreadOf(account, held, t, symbol) == 0.0
  {}

  lemma SkippedSale(account: string, t: Transaction)
    ensures ReadSale(account, t) ==> Selected(account, t) && StockSymbol(t.symbol)
  {}

  /** On any ledger that replays, with splits and other accounts anywhere: the loop
      succeeds exactly when every sale it reads leaves the units it has not read, and
      then those are exactly what it misses of each stock. */
  lemma {:induction false} QuantitiesTell(account: string, rows: seq<Row>)
    requires AllChecked(rows) && AllInstrumented(rows) && Replay(rows).Some?
    ensures Quantities(Trades(account, rows)).Some? <==> SalesRead(account, rows)
    ensures Quantities(Trades(account, rows)).Some? ==> Offset(account, rows, Quantities(Trades(account, rows)).value)
  {
    hide Checked, Instrumented, Replay, Offset, Counted, Selected, SalesRead, SaleRead;
    if rows == [] {
      NothingRead(account);
    } else {
      var front, last := rows[..|rows| - 1], rows[|rows| - 1];
      LastStep(rows);
      QuantitiesTell(account, front);
      SalesReadGrows(account, rows);
      var trades := Trades(account, front);
      assert (trades + [last])[..|trades|] == trades;
      if Quantities(trades).Some? {
        RowReads(account, rows, Quantities(trades).value);
      }
    }
  }

  lemma NothingRead(account: string)
    ensures SalesRead(account, []) && Offset(account, [], map[])
  {}

  /** The two sides agree on a stock exactly when nothing of it went unread. */
  lemma AgreeExactly(account: string, rows: seq<Row>)
    requires AllChecked(rows) && AllInstrumented(rows) && Replay(rows).Some? && SalesRead(account, rows)
    ensures Quantities(Trades(account, rows)).Some?
    ensures forall s :: StockSymbol(s) ==>
      (Get(Quantities(Trades(account, rows)).value, s) == HeldUnits(Replay(rows).value, s) <==> Unread(account, rows, s) == 0.0)
  {
    hide Checked, Instrumented, Replay, Quantities, Trades, Unread, SalesRead, HeldUnits, StockSymbol;
    QuantitiesTell(account, rows);
  }

  /******* Ledgers with nothing unread *******/

  lemma {:induction false} PlainUnread(account: string, rows: seq<Row>, symbol: string)
    requires AllChecked(rows) && PlainStocks(account, rows) && StockSymbol(symbol)
    ensures Unread(account, rows, symbol) == 0.0
  {
    hide Checked, StockSymbol, HeldIn, PlainStock;
    if rows != [] {
      var t := rows[|rows| - 1].tx;
      PlainUnread(account, rows[..|rows| - 1], symbol);
      PlainIsRead(account, t, symbol);
    }
  }

  lemma PlainIsRead(account: string, t: Transaction, symbol: string)
    requires Checked(t) && PlainStock(account, t) && StockSymbol(symbol)
    ensures Concerns(t, symbol) ==> Selected(account, t)
  {
    hide StockSymbol, Number, BuyCost, TradeChecked;
  }

  lemma HeldNonNegative(rows: seq<Row>, symbol: string)
    requires AllChecked(rows) && Replay(rows).Some?
    ensures HeldIn(rows, symbol) >= 0.0
  {
    hide Checked, Replay, StockKey, LotUnits;
    ReplaySound(rows);
    var book := Replay(rows).value;
    if StockKey(symbol) in book.positions {
      UnitsNonNegative(book.positions[StockKey(symbol)].lots);
    }
  }

  lemma {:induction false} PrefixReplay(rows: seq<Row>, n: nat)
    requires n <= |rows| && Replay(rows).Some?
    ensures Replay(rows[..n]).Some?
  {
    hide Step;
    if n < |rows| {
      LastStep(rows);
      PrefixReplay(rows[..|rows| - 1], n);
      assert rows[..|rows| - 1][..n] == rows[..n];
    } else {
      assert rows[..n] == rows;
    }
  }

  /** On ledgers with no KRW stock split and one account the loop cannot fail, and
      what it adds up for a stock is what the FIFO lots hold. */
  lemma QuantitiesAgree(account: string, rows: seq<Row>)
    requires AllChecked(rows) && AllInstrumented(rows) && PlainStocks(account, rows) && Replay(rows).Some?
    ensures Quantities(Trades(account, rows)).Some? && Agree(Quantities(Trades(account, rows)).value, Replay(rows).value)
  {
    hide Checked, Instrumented, PlainStock, Replay, Unread, HeldIn, StockSymbol, Quantities, Trades, HeldUnits;
    forall i | 0 <= i < |rows|
      ensures SaleRead(account, rows, i)
    {
      PrefixReplay(rows, i + 1);
      HeldNonNegative(rows[..i + 1], rows[i].tx.symbol);
      if StockSymbol(rows[i].tx.symbol) {
        PlainUnread(account, rows[..i], rows[i].tx.symbol);
      }
    }
    AgreeExactly(account, rows);
    forall s | StockSymbol(s)
      ensures Unread(account, rows, s) == 0.0
    {
      PlainUnread(account, rows, s);
    }
  }

  /******* Splits and sales *******/

  /** The loop does not read a split: what it misses of the stock grows by the factor
      less one for each unit held, so where nothing was missed before, the two sides
      agree afterwards exactly when the factor is one. */
  lemma SplitIsMissed(account: string, rows: seq<Row>, split: Row, symbol: string)
    requires AllChecked(rows) && Checked(split.tx) && Instrumented(split.tx)
    requires StockSymbol(symbol) && Concerns(split.tx, symbol) && split.tx.kind.Split?
    requires Replay(rows).Some? && Replay(rows + [split]).Some?
    ensures Trades(account, rows + [split]) == Trades(account, rows)
    ensures HeldIn(rows + [split], symbol) == Times(HeldIn(rows, symbol), Num(split.tx.quantity))
    ensures Unread(account, rows + [split], symbol) ==
      Unread(account, rows, symbol) + Times(HeldIn(rows, symbol), Num(split.tx.quantity) - 1.0)
    ensures Unread(account, rows, symbol) == 0.0 ==>
      (Unread(account, rows + [split], symbol) == 0.0 <==> Num(split.tx.quantity) == 1.0)
  {
    hide Checked, Instrumented, Step, Replay, SoundBook, StockSymbol, HeldUnits, Times, Num, AllChecked;
    var all := rows + [split];
    assert all[..|rows|] == rows;
    LastStep(all);
    ReplaySound(rows);
    SplitMoves(Replay(rows).value, split.tx, symbol);
    TimesZero(HeldIn(rows, symbol), Num(split.tx.quantity));
  }

  lemma TimesZero(x: real, f: real)
    requires x > 0.0
    ensures Times(x, f - 1.0) == 0.0 <==> f == 1.0
  {
    TimesLaws(x, f - 1.0);
    TimesLaws(x, 1.0 - f);
    assert Times(x, f - 1.0) == -Times(x, 1.0 - f);
  }

  /** A sale the ledger accepts fails the loop exactly when it sells more than was held
      without the units the loop has not read. */
  lemma SaleAfterSplit(account: string, rows: seq<Row>, sale: Row)
    requires AllChecked(rows) && AllInstrumented(rows) && SalesRead(account, rows)
    requires Checked(sale.tx) && Instrumented(sale.tx) && ReadSale(account, sale.tx)
    requires Replay(rows).Some? && Replay(rows + [sale]).Some?
    ensures Quantities(Trades(account, rows + [sale])).None? <==>
      Num(sale.tx.quantity) > HeldIn(rows, sale.tx.symbol) - Unread(account, rows, sale.tx.symbol)
  {
    hide Checked, Instrumented, Replay, Quantities, Trades, HeldIn, StockSymbol, UnreadOf;
    var all := rows + [sale];
    assert all[..|rows|] == rows && all[..|rows| + 1] == all;
    assert forall i :: 0 <= i < |rows| ==> all[i] == rows[i];
    QuantitiesTell(account, all);
    SalesReadGrows(account, all);
    StepReads(account, all, sale.tx.symbol);
    SelectedIsRead(account, HeldIn(rows, sale.tx.symbol), sale.tx, sale.tx.symbol);
  }

  /******* The whole comparison *******/

  lemma TableInstrumented(events: seq<Row>)
    requires TableFits(events)
    ensures AllInstrumented(events)
  {
    hide UniqueIds, Fits;
  }

  lemma RankedInstrumented(policy: Policy, events: seq<Row>)
    requires AllInstrumented(events)
    ensures AllInstrumented(Ranked(policy, events))
  {
    hide Instrumented, Ranked;
    RankedMembers(policy, events);
    var ranked := Ranked(policy, events);
    forall i | 0 <= i < |ranked|
      ensures Instrumented(ranked[i].tx)
    {
      assert ranked[i] in events;
    }
  }

  lemma RankedPlain(account: string, policy: Policy, events: seq<Row>)
    requires PlainStocks(account, events)
    ensures PlainStocks(account, Ranked(policy, events))
  {
    hide PlainStock, Ranked;
    RankedMembers(policy, events);
    var ranked := Ranked(policy, events);
    forall i | 0 <= i < |ranked|
      ensures PlainStock(account, ranked[i].tx)
    {
      assert ranked[i] in events;
    }
  }

  lemma LedgerValue(ledger: map<string, Rat>, held: map<string, real>, s: string)
    requires SameValues(ledger, held)
    ensures Val(LedgerOf(ledger, s)) == Get(held, s)
  {
    hide Val;
  }

  lemma AbsentIsZero(positions: seq<BrokerPosition>, ledger: map<string, Rat>, s: string)
    requires s !in Symbols(positions) && s !in ledger
    ensures SameQuantity(positions, ledger, s)
  {
    hide Val, BrokerText, Symbols, ParseDecimal;
    BrokerTextIs(positions, s);
    ZeroCanonical();
  }

  /** The comparison is between the broker's quantities and the loop's. */
  lemma SidesAgree(positions: seq<BrokerPosition>, ledger: map<string, Rat>, held: map<string, real>)
    requires ValidPositions(positions) && ValidLedger(ledger) && SameValues(ledger, held)
    ensures (forall s :: s in Symbols(positions) + ledger.Keys ==> SameQuantity(positions, ledger, s)) <==>
      forall s :: StockSymbol(s) ==> BrokerValue(positions, s) == Get(held, s)
  {
    hide StockSymbol, ValidPositions, ValidLedger, SameValues, BrokerValue, LedgerOf, Val, Symbols, Get;
    forall s | StockSymbol(s)
      ensures SameQuantity(positions, ledger, s) <==> BrokerValue(positions, s) == Get(held, s)
      ensures s !in Symbols(positions) + ledger.Keys ==> SameQuantity(positions, ledger, s)
    {
      LedgerValue(ledger, held, s);
      if s !in Symbols(positions) && s !in ledger {
        AbsentIsZero(positions, ledger, s);
      }
    }
    forall s | s in Symbols(positions) + ledger.Keys
      ensures StockSymbol(s)
    {
      KnownSymbol(positions, ledger, s);
    }
  }

  lemma OffsetSides(account: string, rows: seq<Row>, counted: map<string, real>, positions: seq<BrokerPosition>)
    requires Offset(account, rows, counted)
    ensures (forall s :: StockSymbol(s) ==> BrokerValue(positions, s) == Get(counted, s)) <==>
      forall s :: StockSymbol(s) ==> BrokerValue(positions, s) == HeldIn(rows, s) - Unread(account, rows, s)
  {
    hide StockSymbol, BrokerValue, HeldIn, Unread, Get;
    forall s | StockSymbol(s)
      ensures Get(counted, s) == HeldIn(rows, s) - Unread(account, rows, s)
    {
      OffsetAt(account, rows, counted, s);
    }
  }

  /** On any stored ledger that replays the quantities exist exactly when every sale read
      leaves what was not read; then the comparison reports a full match exactly when
      the broker holds, of every stock, the open FIFO units less the unread ones. */
  lemma FullMatchTells(account: string, events: seq<Row>, positions: seq<BrokerPosition>, ledger: map<string, Rat>,
                       rows: seq<Difference>, allMatch: bool)
    requires TableFits(events) && Replay(Ranked(Corrected, events)).Some?
    requires ValidPositions(positions) && Differences(positions, ledger, rows, allMatch)
    requires var q := Quantities(Ranked(Corrected, Trades(account, events))); q.Some? ==> SameValues(ledger, q.value)
    ensures var q, ranked := Quantities(Ranked(Corrected, Trades(account, events))), Ranked(Corrected, events);
      && (q.Some? <==> SalesRead(account, ranked))
      && (q.Some? ==> (allMatch <==> forall s :: StockSymbol(s) ==>
        BrokerValue(positions, s) == HeldIn(ranked, s) - Unread(account, ranked, s)))
  {
    hide *;
    var ranked := Ranked(Corrected, events);
    TableIsChecked(events);
    TableInstrumented(events);
    RankedChecked(Corrected, events);
    RankedInstrumented(Corrected, events);
    TradesRanked(account, Corrected, events);
    QuantitiesTell(account, ranked);
    var trades := Trades(account, ranked);
    if Quantities(trades).Some? {
      LedgerIsValid(trades, ledger);
      ProducedIsAccepted(positions, ledger, rows, allMatch);
      SidesAgree(positions, ledger, Quantities(trades).value);
      OffsetSides(account, ranked, Quantities(trades).value, positions);
    }
  }

  /** With one account and no KRW stock split the quantities always exist, and the
      comparison reports a full match exactly when the broker holds, of every stock,
      what the open FIFO lots hold. */
  lemma FullMatchIsFifo(account: string, events: seq<Row>, positions: seq<BrokerPosition>, ledger: map<string, Rat>,
                        rows: seq<Difference>, allMatch: bool)
    requires TableFits(events) && PlainStocks(account, events) && Replay(Ranked(Corrected, events)).Some?
    requires ValidPositions(positions) && Differences(positions, ledger, rows, allMatch)
    requires var q := Quantities(Ranked(Corrected, Trades(account, events))); q.Some? ==> SameValues(ledger, q.value)
    ensures Quantities(Ranked(Corrected, Trades(account, events))).Some?
    ensures allMatch <==> forall s :: StockSymbol(s) ==>
      BrokerValue(positions, s) == HeldUnits(Replay(Ranked(Corrected, events)).value, s)
  {
    hide Checked, PlainStocks, Replay, Ranked, Quantities, Trades, Differences, ValidPositions, HeldUnits, BrokerValue, TableFits,
      StockSymbol, AllInstrumented, Unread, SalesRead;
    var ranked := Ranked(Corrected, events);
    FullMatchTells(account, events, positions, ledger, rows, allMatch);
    TableIsChecked(events);
    TableInstrumented(events);
    RankedChecked(Corrected, events);
    RankedInstrumented(Corrected, events);
    RankedPlain(account, Corrected, events);
    TradesRanked(account, Corrected, events);
    QuantitiesAgree(account, ranked);
    forall s | StockSymbol(s)
      ensures HeldIn(ranked, s) - Unread(account, ranked, s) == HeldUnits(Replay(ranked).value, s)
    {
      PlainUnread(account, ranked, s);
    }
  }
}
