/** First in, first out: which buys the open lots of a replay come from
    (services/core/core.go:1820-1859), told from the events alone.
  */
module FifoOrder {
  import opened Results
  import opened Exact
  import opened UtcText
  import opened LedgerTable
  import opened Sums
  import opened Fifo
  import opened FifoLaws

  /** Units in today's units, and what was paid for them. */
  datatype Purchase = Purchase(units: real, paid: real)

  ghost function UnitsOf(purchases: seq<Purchase>): real {
    if purchases == [] then 0.0 else UnitsOf(purchases[..|purchases| - 1]) + purchases[|purchases| - 1].units
  }

  /** An open lot no sale has touched. */
  ghost predicate Whole(lot: Lot) {
    lot.quantity == lot.units && lot.cost == lot.paid && lot.partials == 0
  }

  /** The lots are the purchases from k on, in their order: all whole but the first,
      and of the first and those before k exactly `sold` units are gone. */
  ghost predicate FirstInFirstOut(lots: seq<Lot>, purchases: seq<Purchase>, sold: real, k: nat) {
    && k + |lots| == |purchases|
    && (forall i :: 0 <= i < |lots| ==> lots[i].units == purchases[k + i].units && lots[i].paid == purchases[k + i].paid)
    && (forall i :: 0 < i < |lots| ==> Whole(lots[i]))
    && (lots != [] ==> 0.0 < lots[0].quantity <= lots[0].units && (lots[0].quantity == lots[0].units ==> Whole(lots[0])))
    && sold == UnitsOf(purchases[..k]) + Gone(lots)
  }

  /** Units sold out of the first open lot. */
  ghost function Gone(lots: seq<Lot>): real {
    if lots == [] then 0.0 else lots[0].units - lots[0].quantity
  }

  /******* Buying and splitting *******/

  lemma NothingBought()
    ensures FirstInFirstOut([], [], 0.0, 0)
  {}

  lemma UnitsAppend(purchases: seq<Purchase>, p: Purchase)
    ensures UnitsOf(purchases + [p]) == UnitsOf(purchases) + p.units
  {
    assert (purchases + [p])[..|purchases|] == purchases;
  }

  lemma BuyLast(lots: seq<Lot>, purchases: seq<Purchase>, sold: real, k: nat, quantity: real, cost: real)
    requires FirstInFirstOut(lots, purchases, sold, k) && quantity > 0.0
    ensures FirstInFirstOut(lots + [Bought(quantity, cost)], purchases + [Purchase(quantity, cost)], sold, k)
  {
    hide UnitsOf;
    assert (purchases + [Purchase(quantity, cost)])[..k] == purchases[..k];
  }

  ghost function Rescaled(purchases: seq<Purchase>, factor: real): (r: seq<Purchase>)
    ensures |r| == |purchases|
    ensures forall i :: 0 <= i < |r| ==> r[i] == Purchase(Times(purchases[i].units, factor), purchases[i].paid)
  {
    seq(|purchases|, i requires 0 <= i < |purchases| => Purchase(Times(purchases[i].units, factor), purchases[i].paid))
  }

  lemma {:induction false} UnitsRescaled(purchases: seq<Purchase>, factor: real)
    ensures UnitsOf(Rescaled(purchases, factor)) == Times(UnitsOf(purchases), factor)
  {
    if purchases != [] {
      var n := |purchases| - 1;
      UnitsRescaled(purchases[..n], factor);
      assert Rescaled(purchases, factor)[..n] == Rescaled(purchases[..n], factor);
      RealDistrib(UnitsOf(purchases[..n]), -purchases[n].units, factor);
    }
  }

  lemma ScaledLess(x: real, y: real, f: real)
    requires f > 0.0
    ensures x < y ==> Times(x, f) < Times(y, f)
    ensures x == y <==> Times(x, f) == Times(y, f)
    ensures Times(x, f) - Times(y, f) == Times(x - y, f)
    ensures x > 0.0 ==> Times(x, f) > 0.0
  {
    TimesLaws(y - x, f);
    TimesLaws(x - y, f);
    TimesLaws(x, f);
  }

  lemma SplitAll(lots: seq<Lot>, purchases: seq<Purchase>, sold: real, k: nat, factor: real)
    requires FirstInFirstOut(lots, purchases, sold, k) && factor > 0.0
    ensures FirstInFirstOut(SplitLots(lots, factor), Rescaled(purchases, factor), Times(sold, factor), k)
  {
    hide UnitsOf, Times;
    assert Rescaled(purchases, factor)[..k] == Rescaled(purchases[..k], factor);
    UnitsRescaled(purchases[..k], factor);
    RealTimes(UnitsOf(purchases[..k]), Gone(lots), factor);
    if lots != [] {
      ScaledLess(lots[0].quantity, lots[0].units, factor);
      ScaledLess(lots[0].units, lots[0].quantity, factor);
    }
    TimesNothing(factor);
  }

  lemma RealTimes(x: real, y: real, f: real)
    ensures Times(x + y, f) == Times(x, f) + Times(y, f)
  {}

  lemma TimesNothing(f: real)
    ensures Times(0.0, f) == 0.0
  {}

  /******* Selling *******/

  /** What a sale leaves: the lots from j on, the first of them possibly cut, and exactly
      the units asked for are gone. */
  ghost predicate TakenFromFront(lots: seq<Lot>, after: seq<Lot>, taken: real, j: nat) {
    && j + |after| == |lots|
    && (forall i :: 0 < i < |after| ==> after[i] == lots[j + i])
    && (after != [] ==>
      && after[0].units == lots[j].units && after[0].paid == lots[j].paid && 0.0 < after[0].quantity <= lots[j].quantity
      && (after[0].quantity == lots[j].quantity ==> after[0] == lots[j]))
    && taken == LotUnits(lots[..j]) + if after == [] then 0.0 else lots[j].quantity - after[0].quantity
  }

  ghost predicate Stocked(lots: seq<Lot>) {
    forall i :: 0 <= i < |lots| ==> lots[i].quantity > 0.0
  }

  /** A sale eats the lots from the front. */
  lemma {:induction false} SellFront(lots: seq<Lot>, remaining: real, charged: real) returns (j: nat)
    requires Stocked(lots) && remaining >= 0.0 && SellFrom(lots, remaining, charged).Some?
    ensures TakenFromFront(lots, SellFrom(lots, remaining, charged).value.lots, remaining, j)
    decreases |lots|, if remaining > 0.0 then 1 else 0
  {
    hide Allocation;
    if remaining > 0.0 && lots != [] {
      var lot := lots[0];
      var take := MinReal(remaining, lot.quantity);
      var a := Allocation(lot.cost, take, lot.quantity).value;
      if lot.quantity - take == 0.0 {
        var i := SellFront(lots[1..], remaining - take, charged + a);
        j := i + 1;
        assert lots[..j][1..] == lots[1..][..i];
      } else {
        j := 0;
        assert SellFrom(lots, remaining, charged) == Some(Sale([Cut(lot, take, a)] + lots[1..], charged + a));
        assert lots[..0] == [];
      }
    } else {
      j := 0;
      assert lots[..0] == [];
    }
  }

  lemma {:induction false} LotUnitsAppend(lots: seq<Lot>, lot: Lot)
    ensures LotUnits(lots + [lot]) == LotUnits(lots) + lot.quantity
  {
    if lots != [] {
      assert (lots + [lot])[1..] == lots[1..] + [lot];
      LotUnitsAppend(lots[1..], lot);
    } else {
      assert [lot][1..] == [] && [] + [lot] == [lot];
    }
  }

  /** What the first j open lots hold is what was bought with them, less what is gone. */
  lemma {:induction false} FrontUnits(lots: seq<Lot>, purchases: seq<Purchase>, sold: real, k: nat, j: nat)
    requires FirstInFirstOut(lots, purchases, sold, k) && j <= |lots|
    ensures UnitsOf(purchases[..k + j]) == UnitsOf(purchases[..k]) + LotUnits(lots[..j]) + if j > 0 then Gone(lots) else 0.0
  {
    if j > 0 {
      FrontUnits(lots, purchases, sold, k, j - 1);
      assert lots[..j] == lots[..j - 1] + [lots[j - 1]];
      LotUnitsAppend(lots[..j - 1], lots[j - 1]);
      assert purchases[..k + j] == purchases[..k + j - 1] + [purchases[k + j - 1]];
      UnitsAppend(purchases[..k + j - 1], purchases[k + j - 1]);
    }
    hide UnitsOf, LotUnits;
  }

  lemma SellOrder(lots: seq<Lot>, purchases: seq<Purchase>, sold: real, k: nat, after: seq<Lot>, taken: real, j: nat)
    requires FirstInFirstOut(lots, purchases, sold, k) && TakenFromFront(lots, after, taken, j)
    ensures FirstInFirstOut(after, purchases, sold + taken, k + j)
  {
    FrontUnits(lots, purchases, sold, k, j);
    hide UnitsOf, LotUnits;
    forall i | 0 <= i < |after|
      ensures after[i].units == purchases[k + j + i].units && after[i].paid == purchases[k + j + i].paid
      ensures i > 0 ==> Whole(after[i])
    {
      assert lots[j + i].units == purchases[k + (j + i)].units;
    }
  }

  /** What the open lots hold is what was bought less what was sold. */
  lemma UnitsLeft(lots: seq<Lot>, purchases: seq<Purchase>, sold: real, k: nat)
    requires FirstInFirstOut(lots, purchases, sold, k)
    ensures LotUnits(lots) == UnitsOf(purchases) - sold
  {
    FrontUnits(lots, purchases, sold, k, |lots|);
    assert lots[..|lots|] == lots && purchases[..k + |lots|] == purchases;
    hide UnitsOf, LotUnits;
  }

  /******* Whole replays *******/

  /** The event is a trade of this position. */
  predicate Touches(t: Transaction, key: string) {
    IsTrade(t.kind) && PositionKey(t.instrumentId, t.currency) == key
  }

  ghost function Price(quantity: real, unit: real, fee: real): real {
    quantity * unit + fee
  }

  /** The purchases of a position after one more event: a buy's units at its quantity
      times price plus fee, all rescaled by a split. */
  ghost function PurchasesAfter(before: seq<Purchase>, t: Transaction, key: string): seq<Purchase> {
    if !Touches(t, key) then before
    else if t.kind.Buy? then before + [Purchase(Num(t.quantity), Price(Num(t.quantity), Num(t.price), Num(t.fee)))]
    else if t.kind.Split? then Rescaled(before, Num(t.quantity))
    else before
  }

  /** Units of the position sold, in today's units. */
  ghost function SoldAfter(before: real, t: Transaction, key: string): real {
    if !Touches(t, key) then before
    else if t.kind.Sell? then before + Num(t.quantity)
    else if t.kind.Split? then before * Num(t.quantity)
    else before
  }

  /** The purchases of a position in reading order, told from the events. */
  ghost function Purchases(rows: seq<Row>, key: string): seq<Purchase> {
    if rows == [] then [] else PurchasesAfter(Purchases(rows[..|rows| - 1], key), rows[|rows| - 1].tx, key)
  }

  ghost function Sold(rows: seq<Row>, key: string): real {
    if rows == [] then 0.0 else SoldAfter(Sold(rows[..|rows| - 1], key), rows[|rows| - 1].tx, key)
  }

  ghost function LotsAt(book: Book, key: string): seq<Lot> {
    if key in book.positions then book.positions[key].lots else []
  }

  lemma StockedAt(book: Book, key: string)
    requires SoundBook(book)
    ensures Stocked(LotsAt(book, key))
  {
    hide AllFinite, NearExact, Finite;
  }

  lemma LotsWith(book: Book, t: Transaction, lots: seq<Lot>, key: string)
    ensures LotsAt(WithLots(book, t, lots), key) ==
      if PositionKey(t.instrumentId, t.currency) == key then lots else LotsAt(book, key)
    ensures PositionKey(t.instrumentId, t.currency) == key ==> Opened(book, t).lots == LotsAt(book, key)
  {
    hide PositionKey;
  }

  lemma BuyPurchase(before: seq<Purchase>, t: Transaction, key: string)
    requires t.kind.Buy? && Touches(t, key)
    ensures PurchasesAfter(before, t, key) ==
      before + [Purchase(Num(t.quantity), BuyCost(Num(t.quantity), Num(t.price), Num(t.fee)))]
  {
    hide Touches, Num, BuyCost, Price;
    PriceIsCost(Num(t.quantity), Num(t.price), Num(t.fee));
  }

  lemma PriceIsCost(quantity: real, unit: real, fee: real)
    ensures BuyCost(quantity, unit, fee) == Price(quantity, unit, fee)
  {}

  lemma SplitPurchases(before: seq<Purchase>, sold: real, t: Transaction, key: string)
    requires t.kind.Split? && Touches(t, key)
    ensures PurchasesAfter(before, t, key) == Rescaled(before, Num(t.quantity))
    ensures SoldAfter(sold, t, key) == Times(sold, Num(t.quantity))
  {
    hide Touches, Num, Rescaled;
  }

  lemma TradeOrder(book: Book, t: Transaction, key: string, purchases: seq<Purchase>, sold: real, k: nat) returns (after: nat)
    requires SoundBook(book) && Checked(t) && IsTrade(t.kind) && TradeStep(book, t, Num(t.amount)).Some?
    requires FirstInFirstOut(LotsAt(book, key), purchases, sold, k)
    ensures var lots := LotsAt(TradeStep(book, t, Num(t.amount)).value, key);
      FirstInFirstOut(lots, PurchasesAfter(purchases, t, key), SoldAfter(sold, t, key), after)
  {
    hide SoundBook, FirstInFirstOut, PositionKey, SellFrom, WithLots, Opened, LotsAt, SplitLots, Number, Rescaled, Times, BuyCost;
    var lots, quantity := LotsAt(book, key), Num(t.quantity);
    after := k;
    if t.kind.Split? {
      LotsWith(book, t, SplitLots(Opened(book, t).lots, quantity), key);
      if Touches(t, key) {
        SplitPurchases(purchases, sold, t, key);
        SplitAll(lots, purchases, sold, k, quantity);
      }
    } else if t.kind.Buy? {
      var cost := BuyCost(quantity, Num(t.price), Num(t.fee));
      LotsWith(book, t, Opened(book, t).lots + [Bought(quantity, cost)], key);
      if Touches(t, key) {
        BuyPurchase(purchases, t, key);
        BuyLast(lots, purchases, sold, k, quantity, cost);
      }
    } else {
      CheckedTrade(t);
      var sale := SellFrom(Opened(book, t).lots, quantity, 0.0).value;
      LotsWith(book, t, sale.lots, key);
      SellStepIs(book, t, quantity, Num(t.amount));
      SameLots(WithLots(book, t, sale.lots), Plus(book.realized, t.currency, Num(t.amount) - sale.charged), key);
      if Touches(t, key) {
        StockedAt(book, key);
        var j := SellFront(lots, quantity, 0.0);
        SellOrder(lots, purchases, sold, k, sale.lots, quantity, j);
        after := k + j;
      }
    }
  }

  lemma SameLots(book: Book, realized: map<string, real>, key: string)
    ensures LotsAt(book.(realized := realized), key) == LotsAt(book, key)
  {}

  /** A sale realises its amount less the cost that left its lots. */
  lemma SaleRealises(book: Book, t: Transaction)
    requires t.kind.Sell? && Step(book, t).Some?
    ensures var key, after := PositionKey(t.instrumentId, t.currency), Step(book, t).value;
      after.realized == Plus(book.realized, t.currency, Num(t.amount) - (LotCost(LotsAt(book, key)) - LotCost(LotsAt(after, key))))
  {
    hide CanonicalUtc, SellFrom, Number, LotCost, PositionKey, Plus, SellStep, LotsAt, WithLots, Opened;
    var key, quantity, amount := PositionKey(t.instrumentId, t.currency), Num(t.quantity), Num(t.amount);
    var noted := book.(cash := Plus(book.cash, t.currency, amount));
    SellStepIs(noted, t, quantity, amount);
    SellConservesCost(Opened(noted, t).lots, quantity, 0.0);
    var sale := SellFrom(Opened(noted, t).lots, quantity, 0.0).value;
    LotsWith(noted, t, sale.lots, key);
    SameLots(WithLots(noted, t, sale.lots), Plus(book.realized, t.currency, amount - sale.charged), key);
    SameCash(book, noted.cash, key);
    OnlyLots(noted, t, sale.lots);
  }

  lemma SameCash(book: Book, cash: map<string, real>, key: string)
    ensures LotsAt(book.(cash := cash), key) == LotsAt(book, key)
  {}

  lemma OnlyLots(book: Book, t: Transaction, lots: seq<Lot>)
    ensures WithLots(book, t, lots).realized == book.realized
  {}

  /** In every replay of checked events the open lots of a position are its last purchases
      in reading order, whole but for the first, and exactly the units sold are gone from
      the earlier ones and that first. */
  lemma {:induction false} OldestSoldFirst(rows: seq<Row>, key: string) returns (k: nat)
    requires AllChecked(rows) && Replay(rows).Some?
    ensures FirstInFirstOut(LotsAt(Replay(rows).value, key), Purchases(rows, key), Sold(rows, key), k)
  {
    hide Checked, Replay, SoundBook, FirstInFirstOut, LotsAt, Step, CanonicalUtc, PurchasesAfter, SoldAfter;
    if rows == [] {
      k := 0;
      NoPurchases(key);
    } else {
      var front, t := rows[..|rows| - 1], rows[|rows| - 1].tx;
      LastStep(rows);
      ReplaySound(front);
      k := OldestSoldFirst(front, key);
      k := StepOrder(Replay(front).value, t, key, Purchases(front, key), Sold(front, key), k);
    }
  }

  lemma NoPurchases(key: string)
    ensures Replay([]).Some? && FirstInFirstOut(LotsAt(Replay([]).value, key), [], 0.0, 0)
  {
    assert LotsAt(EMPTY, key) == [];
    NothingBought();
  }

  lemma StepOrder(book: Book, t: Transaction, key: string, purchases: seq<Purchase>, sold: real, k: nat) returns (after: nat)
    requires SoundBook(book) && Checked(t) && Step(book, t).Some? && FirstInFirstOut(LotsAt(book, key), purchases, sold, k)
    ensures FirstInFirstOut(LotsAt(Step(book, t).value, key), PurchasesAfter(purchases, t, key), SoldAfter(sold, t, key), after)
  {
    hide FirstInFirstOut, PositionKey, Number, TradeStep, CanonicalUtc, AllFinite, Plus, SoundLots, Rescaled, BuyCost, TradeChecked;
    NumberFinite(t.amount);
    PlusFinite(book.cash, t.currency, Num(t.amount));
    var noted := book.(cash := Plus(book.cash, t.currency, Num(t.amount)));
    after := k;
    if IsTrade(t.kind) {
      after := TradeOrder(noted, t, key, purchases, sold, k);
    }
  }
}
