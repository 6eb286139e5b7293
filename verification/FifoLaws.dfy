/** Laws of whole replays: conservation, exactness, and the two replay orders. */
module FifoLaws {
  import opened Results
  import opened Exact
  import opened UtcText
  import opened LedgerTable
  import opened Sums
  import opened Fifo

  /******* What normalize promises about the numbers of an event *******/

  ghost function Num(raw: string): real {
    if Number(raw).Some? then Number(raw).value else 0.0
  }

  ghost predicate Positive(raw: string) {
    Number(raw).Some? && Number(raw).value > 0.0
  }

  ghost predicate TradeChecked(t: Transaction) {
    Positive(t.quantity) && Positive(t.price) && Number(t.fee).Some? && Num(t.fee) >= 0.0
  }

  /** The number checks of normalize (core.go:1427-1551). */
  ghost predicate Checked(t: Transaction) {
    && |t.currency| == 3 && Number(t.amount).Some?
    && match t.kind
       case Buy => TradeChecked(t) && Num(t.amount) == -BuyCost(Num(t.quantity), Num(t.price), Num(t.fee))
       case Sell => TradeChecked(t)
       case Split => Positive(t.quantity) && Num(t.amount) == 0.0
       case FxExchange => Number(t.counterAmount).Some?
       case Unsupported(_) => false
       case _ => true
  }

  ghost predicate AllChecked(rows: seq<Row>) {
    forall i :: 0 <= i < |rows| ==> Checked(rows[i].tx)
  }

  /** Currencies are three letters long: all the position keys need. */
  predicate ThreeLetters(rows: seq<Row>) {
    forall i :: 0 <= i < |rows| ==> |rows[i].tx.currency| == 3
  }

  /******* Sums over events *******/

  /** Quantities that events contribute to, per currency. */
  datatype Flow = Cash(currency: string) | NonTrade(currency: string) | Residual(currency: string)

  ghost function CashFlow(t: Transaction, c: string): real {
    (if t.currency == c then Num(t.amount) else 0.0)
    + (if t.kind.FxExchange? && t.counterCurrency == c then Num(t.counterAmount) else 0.0)
  }

  predicate IsTrade(kind: Kind) {
    !CashOnly(kind) && !kind.FxExchange?
  }

  ghost function FlowOf(flow: Flow, t: Transaction): real {
    match flow
    case Cash(c) => CashFlow(t, c)
    case NonTrade(c) => if IsTrade(t.kind) then 0.0 else CashFlow(t, c)
    case Residual(c) =>
      if t.kind.Buy? && t.currency == c then Num(t.amount) + BuyCost(Num(t.quantity), Num(t.price), Num(t.fee))
      else if IsTrade(t.kind) && !t.kind.Split? then 0.0
      else CashFlow(t, c)
  }

  ghost function Sum(rows: seq<Row>, flow: Flow): real {
    if rows == [] then 0.0 else Sum(rows[..|rows| - 1], flow) + FlowOf(flow, rows[|rows| - 1].tx)
  }

  lemma {:induction false} SumFront(row: Row, rows: seq<Row>, flow: Flow)
    ensures Sum([row] + rows, flow) == FlowOf(flow, row.tx) + Sum(rows, flow)
  {
    var all := [row] + rows;
    if rows == [] {
      assert all[..|all| - 1] == [];
    } else {
      assert all[..|all| - 1] == [row] + rows[..|rows| - 1];
      SumFront(row, rows[..|rows| - 1], flow);
    }
  }

  lemma {:induction false} SumInsert(policy: Policy, row: Row, rows: seq<Row>, flow: Flow)
    ensures Sum(Insert(policy, row, rows), flow) == FlowOf(flow, row.tx) + Sum(rows, flow)
  {
    hide FlowOf;
    SumFront(row, rows, flow);
    if rows != [] && !Before(policy, row, rows[0]) {
      SumInsert(policy, row, rows[1..], flow);
      SumFront(rows[0], Insert(policy, row, rows[1..]), flow);
      SumFront(rows[0], rows[1..], flow);
      assert [rows[0]] + rows[1..] == rows;
    }
  }

  /** A sum over events does not depend on the order they are read in. */
  lemma {:induction false} SumRanked(policy: Policy, rows: seq<Row>, flow: Flow)
    ensures Sum(Ranked(policy, rows), flow) == Sum(rows, flow)
  {
    hide FlowOf;
    if rows != [] {
      SumRanked(policy, rows[..|rows| - 1], flow);
      SumInsert(policy, rows[|rows| - 1], Ranked(policy, rows[..|rows| - 1]), flow);
    }
  }

  lemma {:induction false} SumsAgree(rows: seq<Row>, f: Flow, g: Flow)
    requires forall i :: 0 <= i < |rows| ==> FlowOf(f, rows[i].tx) == FlowOf(g, rows[i].tx)
    ensures Sum(rows, f) == Sum(rows, g)
  {
    hide FlowOf;
    if rows != [] {
      SumsAgree(rows[..|rows| - 1], f, g);
    }
  }

  /******* Conservation *******/

  ghost function OpenCosts(book: Book, c: string): map<string, real> {
    map k | k in book.positions && book.positions[k].currency == c :: LotCost(book.positions[k].lots)
  }

  /** Cost of the open lots held in a currency. */
  ghost function OpenCost(book: Book, c: string): real {
    Total(OpenCosts(book, c))
  }

  ghost function Net(book: Book, c: string): real {
    Get(book.cash, c) + OpenCost(book, c) - Get(book.realized, c)
  }

  ghost predicate Keyed(book: Book) {
    forall k :: k in book.positions ==>
      k == PositionKey(book.positions[k].instrumentId, book.positions[k].currency) && |book.positions[k].currency| == 3
  }

  lemma KeyInjective(i: string, c: string, j: string, d: string)
    requires PositionKey(i, c) == PositionKey(j, d) && |c| == |d|
    ensures i == j && c == d
  {
    var k := PositionKey(i, c);
    assert k[..|i|] == i && k[|i| + 1..] == c;
    assert k[..|j|] == j && k[|j| + 1..] == d;
  }

  lemma OpenedCurrency(book: Book, t: Transaction)
    requires Keyed(book) && |t.currency| == 3
    ensures Opened(book, t).currency == t.currency && Opened(book, t).instrumentId == t.instrumentId
  {
    var key := PositionKey(t.instrumentId, t.currency);
    if key in book.positions {
      KeyInjective(t.instrumentId, t.currency, book.positions[key].instrumentId, book.positions[key].currency);
    }
  }

  /** Replacing one position's lots moves only its own currency's open cost. */
  lemma OpenCostWithLots(book: Book, t: Transaction, lots: seq<Lot>, c: string)
    requires Keyed(book) && |t.currency| == 3
    ensures Keyed(WithLots(book, t, lots))
    ensures OpenCost(WithLots(book, t, lots), c) ==
      OpenCost(book, c) + if t.currency == c then LotCost(lots) - LotCost(Opened(book, t).lots) else 0.0
  {
    OpenCostsWithLots(book, t, lots, c);
    if t.currency == c {
      TotalUpdate(OpenCosts(book, c), PositionKey(t.instrumentId, t.currency), LotCost(lots));
    }
    hide *;
  }

  lemma OpenCostsWithLots(book: Book, t: Transaction, lots: seq<Lot>, c: string)
    requires Keyed(book) && |t.currency| == 3
    ensures Keyed(WithLots(book, t, lots))
    ensures var key := PositionKey(t.instrumentId, t.currency);
      && Get(OpenCosts(book, t.currency), key) == LotCost(Opened(book, t).lots)
      && OpenCosts(WithLots(book, t, lots), c) ==
         if t.currency == c then OpenCosts(book, c)[key := LotCost(lots)] else OpenCosts(book, c)
  {
    OpenedCurrency(book, t);
    NoLots();
    var key, p := PositionKey(t.instrumentId, t.currency), Opened(book, t).(lots := lots);
    assert WithLots(book, t, lots).positions == book.positions[key := p];
    PositionUpdate(book, WithLots(book, t, lots), key, p, c);
    hide *;
  }

  lemma PositionUpdate(book: Book, after: Book, key: string, p: Position, c: string)
    requires after.positions == book.positions[key := p]
    requires key in book.positions ==> book.positions[key].currency == p.currency
    ensures OpenCosts(after, c) == if p.currency == c then OpenCosts(book, c)[key := LotCost(p.lots)] else OpenCosts(book, c)
  {
    hide LotCost;
  }

  lemma NoLots()
    ensures LotCost([]) == 0.0 && LotUnits([]) == 0.0
  {}

  lemma TradeConserves(book: Book, t: Transaction, c: string)
    requires Keyed(book) && |t.currency| == 3 && IsTrade(t.kind) && TradeStep(book, t, Num(t.amount)).Some?
    ensures var after := TradeStep(book, t, Num(t.amount)).value;
      && Keyed(after) && after.cash == book.cash
      && OpenCost(after, c) - Get(after.realized, c) ==
         OpenCost(book, c) - Get(book.realized, c) + FlowOf(Residual(c), t) - CashFlow(t, c)
  {
    var quantity, lots := Number(t.quantity).value, Opened(book, t).lots;
    if t.kind.Split? {
      SplitCost(lots, quantity);
      OpenCostWithLots(book, t, SplitLots(lots, quantity), c);
    } else if t.kind.Buy? {
      var cost := BuyCost(quantity, Number(t.price).value, Number(t.fee).value);
      LotCostAppend(lots, Bought(quantity, cost));
      OpenCostWithLots(book, t, lots + [Bought(quantity, cost)], c);
    } else {
      SellConservesCost(lots, quantity, 0.0);
      var sale := SellFrom(lots, quantity, 0.0).value;
      OpenCostWithLots(book, t, sale.lots, c);
      SameOpenCost(WithLots(book, t, sale.lots),
        WithLots(book, t, sale.lots).(realized := Plus(book.realized, t.currency, Num(t.amount) - sale.charged)), c);
    }
    hide SellFrom, LotCost, OpenCost, Number, BuyCost, Keyed, WithLots;
  }

  lemma SameOpenCost(a: Book, b: Book, c: string)
    requires a.positions == b.positions
    ensures OpenCost(a, c) == OpenCost(b, c) && (Keyed(a) <==> Keyed(b))
  {}

  lemma StepConserves(book: Book, t: Transaction, c: string)
    requires Keyed(book) && |t.currency| == 3 && Step(book, t).Some?
    ensures var after := Step(book, t).value;
      Keyed(after) && Net(after, c) == Net(book, c) + FlowOf(Residual(c), t)
  {
    hide CanonicalUtc, TradeStep, Number, OpenCost, Keyed;
    var noted := book.(cash := Plus(book.cash, t.currency, Num(t.amount)));
    SameOpenCost(book, noted, c);
    if t.kind.FxExchange? {
      SameOpenCost(book, noted.(cash := Plus(noted.cash, t.counterCurrency, Num(t.counterAmount))), c);
    } else if !CashOnly(t.kind) {
      TradeConserves(noted, t, c);
    }
  }

  /** For any rows whatever: cash + open cost - realised PnL is the sum of what each
      event puts in, counting a buy only by what its amount misses its cost by. */
  lemma {:induction false} NetIsResidual(rows: seq<Row>, c: string)
    requires ThreeLetters(rows) && Replay(rows).Some?
    ensures Keyed(Replay(rows).value)
    ensures Net(Replay(rows).value, c) == Sum(rows, Residual(c))
  {
    if rows == [] {
      assert OpenCosts(EMPTY, c) == map[];
    } else {
      NetIsResidual(rows[..|rows| - 1], c);
      StepConserves(Replay(rows[..|rows| - 1]).value, rows[|rows| - 1].tx, c);
    }
    hide Step, Net, FlowOf, Keyed;
  }

  /** Conservation: in every accepted ledger the trades cancel out. */
  lemma Conservation(rows: seq<Row>, c: string)
    requires AllChecked(rows) && Replay(rows).Some?
    ensures var book := Replay(rows).value;
      Get(book.cash, c) + OpenCost(book, c) - Get(book.realized, c) == Sum(rows, NonTrade(c))
  {
    NetIsResidual(rows, c);
    forall i | 0 <= i < |rows|
      ensures FlowOf(Residual(c), rows[i].tx) == FlowOf(NonTrade(c), rows[i].tx)
    {
      CheckedResidual(rows[i].tx, c);
    }
    hide FlowOf, Checked, OpenCost;
    SumsAgree(rows, Residual(c), NonTrade(c));
  }

  lemma CheckedResidual(t: Transaction, c: string)
    requires Checked(t)
    ensures FlowOf(Residual(c), t) == FlowOf(NonTrade(c), t)
  {
    hide Number, BuyCost;
  }

  /******* Cash *******/

  function Currencies(rows: seq<Row>): set<string> {
    (set i | 0 <= i < |rows| :: rows[i].tx.currency)
    + (set i | 0 <= i < |rows| && rows[i].tx.kind.FxExchange? :: rows[i].tx.counterCurrency)
  }

  lemma StepCash(book: Book, t: Transaction, c: string)
    requires Step(book, t).Some?
    ensures var after := Step(book, t).value; Get(after.cash, c) == Get(book.cash, c) + CashFlow(t, c)
    ensures Step(book, t).value.cash.Keys ==
      book.cash.Keys + {t.currency} + if t.kind.FxExchange? then {t.counterCurrency} else {}
  {
    hide CanonicalUtc, TradeStep, Number;
    if IsTrade(t.kind) {
      TradeKeepsCash(book.(cash := Plus(book.cash, t.currency, Num(t.amount))), t, Num(t.amount));
    }
  }

  lemma TradeKeepsCash(book: Book, t: Transaction, amount: real)
    requires TradeStep(book, t, amount).Some?
    ensures TradeStep(book, t, amount).value.cash == book.cash
  {
    hide SellFrom, Number, BuyCost;
  }

  lemma {:induction false} CashIsSum(rows: seq<Row>, c: string)
    requires Replay(rows).Some?
    ensures Get(Replay(rows).value.cash, c) == Sum(rows, Cash(c))
    ensures Replay(rows).value.cash.Keys == Currencies(rows)
  {
    hide Step;
    if rows != [] {
      var front, last := rows[..|rows| - 1], rows[|rows| - 1];
      CashIsSum(front, c);
      StepCash(Replay(front).value, last.tx, c);
      CurrenciesGrow(front, last);
      assert rows == front + [last];
    }
    hide Sum, Currencies;
  }

  lemma CurrenciesGrow(rows: seq<Row>, row: Row)
    ensures Currencies(rows + [row]) ==
      Currencies(rows) + {row.tx.currency} + if row.tx.kind.FxExchange? then {row.tx.counterCurrency} else {}
  {
    var all := rows + [row];
    forall c | c in Currencies(rows)
      ensures c in Currencies(all)
    {
      if i :| 0 <= i < |rows| && rows[i].tx.currency == c {
        assert all[i].tx.currency == c;
      } else {
        var i :| 0 <= i < |rows| && rows[i].tx.kind.FxExchange? && rows[i].tx.counterCurrency == c;
        assert all[i].tx.counterCurrency == c;
      }
    }
    assert all[|rows|] == row;
  }

  /******* Exactness *******/

  ghost predicate AllFinite(m: map<string, real>) {
    forall k :: k in m ==> Finite(m[k])
  }

  ghost predicate SoundPositions(book: Book) {
    forall k :: k in book.positions ==> SoundLots(book.positions[k].lots)
  }

  /** Every balance is a finite decimal and every open lot is sound. */
  ghost predicate SoundBook(book: Book) {
    AllFinite(book.cash) && AllFinite(book.realized) && SoundPositions(book)
  }

  lemma PlusFinite(m: map<string, real>, k: string, x: real)
    requires AllFinite(m) && Finite(x)
    ensures AllFinite(Plus(m, k, x))
  {
    FiniteInt(0);
    FiniteSum(Get(m, k), x);
    hide Finite;
  }

  lemma NumberFinite(raw: string)
    requires Number(raw).Some?
    ensures Finite(Number(raw).value)
  {}

  lemma WithLotsSound(book: Book, t: Transaction, lots: seq<Lot>)
    requires SoundBook(book) && SoundLots(lots)
    ensures SoundBook(WithLots(book, t, lots)) && SoundLots(Opened(book, t).lots)
  {
    hide SoundLots, AllFinite;
    NoLotsSound();
  }

  lemma NoLotsSound()
    ensures SoundLots([])
  {}

  lemma BuyCostFinite(t: Transaction)
    requires TradeChecked(t)
    ensures var cost := BuyCost(Num(t.quantity), Num(t.price), Num(t.fee)); Finite(cost) && cost > 0.0
  {
    NumberFinite(t.quantity);
    NumberFinite(t.price);
    NumberFinite(t.fee);
    CostFinite(Num(t.quantity), Num(t.price), Num(t.fee));
    hide Finite, Number, BuyCost;
  }

  lemma CostFinite(quantity: real, price: real, fee: real)
    requires Finite(quantity) && Finite(price) && Finite(fee) && quantity > 0.0 && price > 0.0 && fee >= 0.0
    ensures Finite(BuyCost(quantity, price, fee)) && BuyCost(quantity, price, fee) > 0.0
  {
    TimesLaws(quantity, price);
    FiniteSum(Times(quantity, price), fee);
    hide Finite, Times;
  }

  /** Whether a checked trade can be replayed: a split needs an open lot, a sale needs
      the units. */
  ghost predicate Covered(book: Book, t: Transaction) {
    match t.kind
    case Split => Opened(book, t).lots != []
    case Sell => Num(t.quantity) <= LotUnits(Opened(book, t).lots)
    case _ => true
  }

  lemma TradeSound(book: Book, t: Transaction)
    requires SoundBook(book) && Checked(t) && IsTrade(t.kind)
    ensures var after := TradeStep(book, t, Num(t.amount));
      (after.Some? <==> Covered(book, t)) && (after.Some? ==> SoundBook(after.value))
  {
    WithLotsSound(book, t, []) by { NoLotsSound(); }
    NumberFinite(t.quantity);
    var lots, quantity := Opened(book, t).lots, Num(t.quantity);
    match t.kind {
      case Split =>
        SplitLotsSound(lots, quantity);
        WithLotsSound(book, t, SplitLots(lots, quantity));
      case Buy =>
        BuyCostFinite(t);
        BoughtSound(quantity, BuyCost(quantity, Num(t.price), Num(t.fee)));
        WithLotsSound(book, t, lots + [Bought(quantity, BuyCost(quantity, Num(t.price), Num(t.fee)))]);
      case _ => SellSound(book, t);
    }
    hide SoundBook, SoundLot, SellStep, Opened, WithLots, Finite, Number, BuyCost, Bought;
  }

  lemma SplitLotsSound(lots: seq<Lot>, factor: real)
    requires SoundLots(lots) && factor > 0.0 && Finite(factor)
    ensures SoundLots(SplitLots(lots, factor))
  {
    forall i | 0 <= i < |lots|
      ensures SoundLot(SplitLots(lots, factor)[i])
    {
      SplitSound(lots[i], factor);
    }
    hide SoundLot, Finite;
  }

  lemma SellSound(book: Book, t: Transaction)
    requires SoundBook(book) && Checked(t) && t.kind.Sell?
    ensures var after := SellStep(book, t, Num(t.quantity), Num(t.amount));
      (after.Some? <==> Covered(book, t)) && (after.Some? ==> SoundBook(after.value))
  {
    hide *;
    NoLotsSound();
    WithLotsSound(book, t, []);
    CheckedTrade(t);
    FiniteInt(0);
    SellLaws(Opened(book, t).lots, Num(t.quantity), 0.0);
    SellCovered(book, t);
    SellStepIs(book, t, Num(t.quantity), Num(t.amount));
    if SellFrom(Opened(book, t).lots, Num(t.quantity), 0.0).Some? {
      SaleSound(book, t, SellFrom(Opened(book, t).lots, Num(t.quantity), 0.0).value, Num(t.amount));
    }
  }

  lemma CheckedTrade(t: Transaction)
    requires Checked(t) && t.kind.Sell?
    ensures Num(t.quantity) > 0.0 && Finite(Num(t.quantity)) && Finite(Num(t.amount))
  {
    NumberFinite(t.quantity);
    NumberFinite(t.amount);
    hide Finite, Number, BuyCost;
  }

  lemma SellCovered(book: Book, t: Transaction)
    requires t.kind.Sell?
    ensures Covered(book, t) <==> Num(t.quantity) <= LotUnits(Opened(book, t).lots)
  {
    hide Opened, LotUnits, Num;
  }

  lemma SellStepIs(book: Book, t: Transaction, quantity: real, amount: real)
    ensures var sale := SellFrom(Opened(book, t).lots, quantity, 0.0);
      SellStep(book, t, quantity, amount) ==
        if sale.None? then None
        else Some(WithLots(book, t, sale.value.lots).(realized :=
          Plus(book.realized, t.currency, amount - sale.value.charged)))
  {
    hide Opened, SellFrom, WithLots, Plus;
  }

  lemma SaleSound(book: Book, t: Transaction, sale: Sale, amount: real)
    requires SoundBook(book) && SoundLots(sale.lots) && Finite(sale.charged) && Finite(amount)
    ensures SoundBook(WithLots(book, t, sale.lots).(realized := Plus(book.realized, t.currency, amount - sale.charged)))
  {
    WithLotsSound(book, t, sale.lots);
    FiniteSum(amount, sale.charged);
    PlusFinite(book.realized, t.currency, amount - sale.charged);
    hide Finite, SoundLots, AllFinite, Plus, Opened;
  }

  /** One accepted event keeps balances finite and lots sound; a checked event with a
      canonical time is refused only for want of units. */
  lemma StepSound(book: Book, t: Transaction)
    requires SoundBook(book) && Checked(t) && CanonicalUtc(t.occurredAt)
    ensures Step(book, t).Some? <==> Covered(book, t)
    ensures Step(book, t).Some? ==> SoundBook(Step(book, t).value)
  {
    hide Finite, Number, SoundLots, TradeStep, CanonicalUtc, AllFinite, LotUnits, BuyCost, TradeChecked, Positive;
    NumberFinite(t.amount);
    PlusFinite(book.cash, t.currency, Num(t.amount));
    var noted := book.(cash := Plus(book.cash, t.currency, Num(t.amount)));
    if t.kind.FxExchange? {
      NumberFinite(t.counterAmount);
      PlusFinite(noted.cash, t.counterCurrency, Num(t.counterAmount));
    } else if !CashOnly(t.kind) {
      TradeSound(noted, t);
    }
  }

  ghost predicate AllCanonical(rows: seq<Row>) {
    forall i :: 0 <= i < |rows| ==> CanonicalUtc(rows[i].tx.occurredAt)
  }

  /** Over a whole replay of checked events: all balances are finite decimals and every
      open lot's cost is within 5e-9 per partial sell of its exact share. */
  lemma {:induction false} ReplaySound(rows: seq<Row>)
    requires AllChecked(rows) && Replay(rows).Some?
    ensures AllCanonical(rows) && SoundBook(Replay(rows).value)
  {
    hide SoundBook, Checked, CanonicalUtc, Step, Replay;
    if rows == [] {
      EmptyReplay();
    } else {
      var front, last := rows[..|rows| - 1], rows[|rows| - 1];
      LastStep(rows);
      ReplaySound(front);
      StepCanonical(Replay(front).value, last.tx);
      StepSound(Replay(front).value, last.tx);
    }
  }

  lemma LastStep(rows: seq<Row>)
    requires rows != [] && Replay(rows).Some?
    ensures var front := rows[..|rows| - 1];
      Replay(front).Some? && Replay(rows) == Step(Replay(front).value, rows[|rows| - 1].tx)
  {
    hide Step;
  }

  lemma EmptyReplay()
    ensures Replay([]) == Some(EMPTY) && SoundBook(EMPTY)
  {}

  lemma StepCanonical(book: Book, t: Transaction)
    requires Step(book, t).Some?
    ensures CanonicalUtc(t.occurredAt)
  {
    hide CanonicalUtc, CashStep;
  }

  /** A replay goes on past a checked event exactly when the units are there. */
  lemma ReplayStops(rows: seq<Row>, row: Row)
    requires AllChecked(rows) && Checked(row.tx) && CanonicalUtc(row.tx.occurredAt) && Replay(rows).Some?
    ensures Replay(rows + [row]).Some? <==> Covered(Replay(rows).value, row.tx)
  {
    ReplaySound(rows);
    StepSound(Replay(rows).value, row.tx);
    assert (rows + [row])[..|rows|] == rows;
    hide SoundBook, Checked, CanonicalUtc, Covered, Step;
  }

  /******* The two replay orders *******/

  /** Whenever both replays of a ledger succeed they agree on cash, and on realised PnL
      minus open cost, whatever order each reads the events in. */
  lemma OrdersAgreeOnMoney(rows: seq<Row>, c: string)
    requires ThreeLetters(rows)
    requires Replay(Ranked(Legacy, rows)).Some? && Replay(Ranked(Corrected, rows)).Some?
    ensures var legacy, corrected := Replay(Ranked(Legacy, rows)).value, Replay(Ranked(Corrected, rows)).value;
      && legacy.cash == corrected.cash
      && Get(legacy.realized, c) - OpenCost(legacy, c) == Get(corrected.realized, c) - OpenCost(corrected, c)
  {
    RankedLetters(Legacy, rows);
    RankedLetters(Corrected, rows);
    NetIsResidual(Ranked(Legacy, rows), c);
    NetIsResidual(Ranked(Corrected, rows), c);
    SumRanked(Legacy, rows, Residual(c));
    SumRanked(Corrected, rows, Residual(c));
    hide Ranked, OpenCost, FlowOf, Replay, Sum, Currencies;
    var legacy, corrected := Replay(Ranked(Legacy, rows)).value, Replay(Ranked(Corrected, rows)).value;
    CashAgrees(rows, c);
    RankedCurrencies(Legacy, rows);
    RankedCurrencies(Corrected, rows);
    forall d | d in legacy.cash
      ensures d in corrected.cash && legacy.cash[d] == corrected.cash[d]
    {
      CashAgrees(rows, d);
    }
  }

  lemma CashAgrees(rows: seq<Row>, c: string)
    requires Replay(Ranked(Legacy, rows)).Some? && Replay(Ranked(Corrected, rows)).Some?
    ensures var legacy, corrected := Replay(Ranked(Legacy, rows)).value, Replay(Ranked(Corrected, rows)).value;
      && Get(legacy.cash, c) == Get(corrected.cash, c)
      && legacy.cash.Keys == Currencies(Ranked(Legacy, rows)) && corrected.cash.Keys == Currencies(Ranked(Corrected, rows))
  {
    CashIsSum(Ranked(Legacy, rows), c);
    CashIsSum(Ranked(Corrected, rows), c);
    SumRanked(Legacy, rows, Cash(c));
    SumRanked(Corrected, rows, Cash(c));
    hide *;
  }

  lemma RankedMembers(policy: Policy, rows: seq<Row>)
    ensures forall row :: row in Ranked(policy, rows) <==> row in rows
  {
    RankedContents(policy, rows);
    forall row
      ensures row in Ranked(policy, rows) <==> row in rows
    {
      assert row in multiset(Ranked(policy, rows)) <==> row in multiset(rows);
    }
  }

  lemma RankedLetters(policy: Policy, rows: seq<Row>)
    requires ThreeLetters(rows)
    ensures ThreeLetters(Ranked(policy, rows))
  {
    RankedMembers(policy, rows);
    var ranked := Ranked(policy, rows);
    forall i | 0 <= i < |ranked|
      ensures |ranked[i].tx.currency| == 3
    {
      assert ranked[i] in ranked;
    }
  }

  lemma RankedCurrencies(policy: Policy, rows: seq<Row>)
    ensures Currencies(Ranked(policy, rows)) == Currencies(rows)
  {
    RankedMembers(policy, rows);
    SameCurrencies(Ranked(policy, rows), rows);
    SameCurrencies(rows, Ranked(policy, rows));
    hide *;
  }

  lemma SameCurrencies(some: seq<Row>, all: seq<Row>)
    requires forall row :: row in some ==> row in all
    ensures Currencies(some) <= Currencies(all)
  {
    forall i | 0 <= i < |some|
      ensures some[i].tx.currency in Currencies(all)
      ensures some[i].tx.kind.FxExchange? ==> some[i].tx.counterCurrency in Currencies(all)
    {
      assert some[i] in all;
    }
  }

  function LastTime(rows: seq<Row>): string {
    if rows == [] then ZERO_TIME else rows[|rows| - 1].tx.occurredAt
  }

  /** The legacy clock over rows sorted as texts: the last text, but never below zeroTime. */
  lemma {:induction false} LegacyClock(rows: seq<Row>)
    requires Sorted(Legacy, rows)
    ensures Clock(Legacy, rows) == if LexLess(ZERO_TIME, LastTime(rows)) then LastTime(rows) else ZERO_TIME
  {
    LexIrreflexive(ZERO_TIME);
    if rows != [] {
      var front, last := rows[..|rows| - 1], rows[|rows| - 1];
      assert Sorted(Legacy, front);
      LegacyClock(front);
      LexTotal(LastTime(front), last.tx.occurredAt);
      LexTotal(ZERO_TIME, last.tx.occurredAt);
      if front != [] {
        assert Before(Legacy, rows[|rows| - 2], last);
        if LexLess(ZERO_TIME, LastTime(front)) && LexLess(LastTime(front), last.tx.occurredAt) {
          LexTransitive(ZERO_TIME, LastTime(front), last.tx.occurredAt);
        }
      }
    }
    hide LexLess;
  }

  /** If the two orders rank all events alike they read the same rows in the same order,
      and the clocks agree exactly when there are no events or the last one's text is
      not below zeroTime: before that the legacy clock stands still. */
  lemma AlikeOrdersAgree(rows: seq<Row>)
    requires Distinct(rows) && RankAlike(rows)
    ensures Ranked(Legacy, rows) == Ranked(Corrected, rows)
    ensures Clock(Legacy, Ranked(Legacy, rows)) == Clock(Corrected, Ranked(Corrected, rows)) <==>
      rows == [] || !LexLess(LastTime(Ranked(Legacy, rows)), ZERO_TIME)
  {
    RankedAlike(rows);
    RankedIsOrdering(Legacy, rows);
    var ranked := Ranked(Legacy, rows);
    LegacyClock(ranked);
    LexTotal(ZERO_TIME, LastTime(ranked));
    hide Ranked, LexLess, RankAlike;
  }
}
