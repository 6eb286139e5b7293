/** The FIFO ledger on exact numbers: what snapshotFromPolicy
    (services/core/core.go:1731-1859) means, and its laws.

    A `Book` is the state of that loop. Each lot also remembers what it cost when it
    was bought (`paid`), how many units that bought counted in today's units
    (`units`: splits multiply it), and how many partial sells cut it (`partials`);
    nothing the code computes depends on these three.
  */
module Fifo {
  import opened Results
  import opened Exact
  import opened DecimalText
  import opened UtcText
  import opened LedgerTable
  import opened Sums

  const ROUNDING: real := 0.000000005

  datatype Lot = Lot(quantity: real, cost: real, units: real, paid: real, partials: nat)
  datatype Position = Position(instrumentId: string, symbol: string, currency: string, lots: seq<Lot>)

  datatype Book = Book(cash: map<string, real>, realized: map<string, real>, positions: map<string, Position>)

  const EMPTY: Book := Book(map[], map[], map[])

  /** Lots left after a sale and the cost taken out of them. */
  datatype Sale = Sale(lots: seq<Lot>, charged: real)

  ghost function Number(raw: string): Option<real> {
    if ParseDecimal(raw).Some? then Some(Val(ParseDecimal(raw).value)) else None
  }

  function PositionKey(instrumentId: string, currency: string): string {
    instrumentId + (['\0'] + currency)
  }

  predicate CashOnly(kind: Kind) {
    kind.Deposit? || kind.Withdrawal? || kind.Dividend? || kind.Fee? || kind.Tax? || kind.CashVoid?
  }

  /******* One sale *******/

  /** The SELL loop, front lot first. `None` is an oversell or a refused allocation. */
  ghost function SellFrom(lots: seq<Lot>, remaining: real, charged: real): Option<Sale>
    decreases |lots|, if remaining > 0.0 then 1 else 0
  {
    if remaining > 0.0 && lots != [] then
      var lot := lots[0];
      var take := MinReal(remaining, lot.quantity);
      match Allocation(lot.cost, take, lot.quantity)
      case None => None
      case Some(a) =>
        SellFrom(if lot.quantity - take == 0.0 then lots[1..] else [Cut(lot, take, a)] + lots[1..], remaining - take, charged + a)
    else if remaining != 0.0 then None
    else Some(Sale(lots, charged))
  }

  /** What a partial sale leaves of a lot; the exact share goes with the units. */
  ghost function Cut(lot: Lot, take: real, a: real): Lot {
    lot.(quantity := lot.quantity - take, cost := lot.cost - a, partials := lot.partials + 1)
  }

  ghost function Bought(quantity: real, cost: real): Lot {
    Lot(quantity, cost, quantity, cost, 0)
  }

  ghost function SplitLots(lots: seq<Lot>, factor: real): (r: seq<Lot>)
    ensures |r| == |lots|
    ensures forall i :: 0 <= i < |r| ==> r[i] == SplitLot(lots[i], factor)
  {
    seq(|lots|, i requires 0 <= i < |lots| => SplitLot(lots[i], factor))
  }

  ghost function SplitLot(lot: Lot, factor: real): Lot {
    lot.(quantity := Times(lot.quantity, factor), units := Times(lot.units, factor))
  }

  ghost function Times(x: real, y: real): real {
    x * y
  }

  lemma TimesLaws(x: real, y: real)
    ensures x > 0.0 && y > 0.0 ==> Times(x, y) > 0.0
    ensures Finite(x) && Finite(y) ==> Finite(Times(x, y))
  {
    if Finite(x) && Finite(y) {
      FiniteProduct(x, y);
    }
    if y > 0.0 {
      SignOfProduct(x, y);
    }
    hide Finite;
  }

  /******* One event *******/

  ghost function Opened(book: Book, t: Transaction): Position {
    var key := PositionKey(t.instrumentId, t.currency);
    if key in book.positions then book.positions[key] else Position(t.instrumentId, t.symbol, t.currency, [])
  }

  ghost function WithLots(book: Book, t: Transaction, lots: seq<Lot>): Book {
    book.(positions := book.positions[PositionKey(t.instrumentId, t.currency) := Opened(book, t).(lots := lots)])
  }

  ghost function SplitStep(book: Book, t: Transaction, factor: real): Option<Book> {
    if Opened(book, t).lots == [] then None
    else Some(WithLots(book, t, SplitLots(Opened(book, t).lots, factor)))
  }

  ghost function BuyStep(book: Book, t: Transaction, quantity: real, cost: real): Book {
    WithLots(book, t, Opened(book, t).lots + [Bought(quantity, cost)])
  }

  ghost function SellStep(book: Book, t: Transaction, quantity: real, amount: real): Option<Book> {
    var sale :- SellFrom(Opened(book, t).lots, quantity, 0.0);
    Some(WithLots(book, t, sale.lots).(realized := Plus(book.realized, t.currency, amount - sale.charged)))
  }

  ghost function BuyCost(quantity: real, price: real, fee: real): real {
    Times(quantity, price) + fee
  }

  ghost function TradeStep(book: Book, t: Transaction, amount: real): Option<Book> {
    var quantity :- Number(t.quantity);
    if t.kind.Split? then SplitStep(book, t, quantity)
    else
      var price :- Number(t.price);
      var fee :- Number(t.fee);
      if t.kind.Buy? then Some(BuyStep(book, t, quantity, BuyCost(quantity, price, fee)))
      else SellStep(book, t, quantity, amount)
  }

  ghost function Step(book: Book, t: Transaction): Option<Book> {
    var amount :- Number(t.amount);
    if !CanonicalUtc(t.occurredAt) then None
    else CashStep(book.(cash := Plus(book.cash, t.currency, amount)), t, amount)
  }

  ghost function CashStep(book: Book, t: Transaction, amount: real): Option<Book> {
    if t.kind.FxExchange? then
      var counter :- Number(t.counterAmount);
      Some(book.(cash := Plus(book.cash, t.counterCurrency, counter)))
    else if CashOnly(t.kind) then Some(book)
    else TradeStep(book, t, amount)
  }

  /** The whole loop over rows already in query order. */
  ghost function Replay(rows: seq<Row>): Option<Book> {
    if rows == [] then Some(EMPTY)
    else
      var book :- Replay(rows[..|rows| - 1]);
      Step(book, rows[|rows| - 1].tx)
  }

  /** The snapshot's clock: the last time read, or for the legacy policy the greatest
      text not below zeroTime. */
  function Clock(policy: Policy, rows: seq<Row>): string {
    if rows == [] then ZERO_TIME
    else
      var before, time := Clock(policy, rows[..|rows| - 1]), rows[|rows| - 1].tx.occurredAt;
      if policy == Corrected || LexLess(before, time) then time else before
  }

  function EventIds(rows: seq<Row>): seq<string> {
    seq(|rows|, i requires 0 <= i < |rows| => rows[i].tx.eventId)
  }

  /** Receipts in the order they are first met. */
  function ReceiptIds(rows: seq<Row>): seq<string> {
    if rows == [] then []
    else
      var before, id := ReceiptIds(rows[..|rows| - 1]), rows[|rows| - 1].receiptId;
      if id in before then before else before + [id]
  }

  /******* Laws of one sale *******/

  ghost function LotCost(lots: seq<Lot>): real {
    if lots == [] then 0.0 else lots[0].cost + LotCost(lots[1..])
  }

  ghost function LotUnits(lots: seq<Lot>): real {
    if lots == [] then 0.0 else lots[0].quantity + LotUnits(lots[1..])
  }

  /** The part of what was paid that belongs to the units still held. */
  ghost function ExactCost(lot: Lot): real
    requires lot.units > 0.0
  {
    Share(lot.paid, lot.quantity, lot.units)
  }

  /** An open lot: positive units, a finite non-negative cost, and that cost within
      5e-9 per partial sell of the exact proportional cost. */
  ghost predicate SoundLot(lot: Lot) {
    && lot.quantity > 0.0 && lot.units > 0.0 && lot.cost >= 0.0
    && Finite(lot.quantity) && Finite(lot.cost)
    && NearExact(lot)
  }

  ghost predicate NearExact(lot: Lot)
    requires lot.units > 0.0
  {
    -Slack(lot.partials) <= lot.cost - ExactCost(lot) <= Slack(lot.partials)
  }

  /** What n roundings at eight places can add up to. */
  ghost function Slack(n: nat): real {
    n as real * ROUNDING
  }

  ghost predicate SoundLots(lots: seq<Lot>) {
    forall i :: 0 <= i < |lots| ==> SoundLot(lots[i])
  }

  /** What leaves the lots is exactly what the sale is charged. */
  lemma {:induction false} SellConservesCost(lots: seq<Lot>, remaining: real, charged: real)
    ensures var s := SellFrom(lots, remaining, charged);
      s.Some? ==> s.value.charged + LotCost(s.value.lots) == charged + LotCost(lots)
    decreases |lots|, if remaining > 0.0 then 1 else 0
  {
    hide Allocation, Finite, HalfEven;
    if remaining > 0.0 && lots != [] {
      var lot := lots[0];
      var take := MinReal(remaining, lot.quantity);
      var a := Allocation(lot.cost, take, lot.quantity);
      if a.Some? {
        if lot.quantity - take == 0.0 {
          AllocationUnfolds(lot.cost, take, lot.quantity);
          SellConservesCost(lots[1..], remaining - take, charged + a.value);
        } else {
          assert ([Cut(lot, take, a.value)] + lots[1..])[1..] == lots[1..];
          SellConservesCost([Cut(lot, take, a.value)] + lots[1..], remaining - take, charged + a.value);
        }
      }
    }
  }

  /** One partial sell adds at most one rounding step to the distance from the exact
      proportional cost. */
  lemma CutNearExact(lot: Lot, take: real, a: real)
    requires SoundLot(lot) && 0.0 < take < lot.quantity
    requires -ROUNDING <= a - Share(lot.cost, take, lot.quantity) <= ROUNDING
    ensures Cut(lot, take, a).units > 0.0 && NearExact(Cut(lot, take, a))
  {
    hide Share, Finite, Slack;
    var q, exact := lot.quantity, ExactCost(lot);
    var n := Slack(lot.partials);
    SharesAddUp(lot.paid, take, q, lot.units);
    ShareOfShare(lot.paid, take, q, lot.units);
    ShareOfError(lot.cost - exact, n, take, q);
    ShareDifference(lot.cost, exact, take, q);
    OneMore(lot.partials);
    assert ExactCost(Cut(lot, take, a)) == exact - Share(exact, take, q);
  }

  lemma OneMore(n: nat)
    ensures Slack(n + 1) == Slack(n) + ROUNDING && Slack(n) >= 0.0
  {}

  lemma SharesAddUp(paid: real, take: real, q: real, units: real)
    requires units > 0.0
    ensures Share(paid, q - take, units) == Share(paid, q, units) - Share(paid, take, units)
  {
    assert (q - take) / units == q / units - take / units;
    RealDistrib(q / units, take / units, paid);
  }

  lemma ShareOfShare(paid: real, take: real, q: real, units: real)
    requires units > 0.0 && q > 0.0
    ensures Share(Share(paid, q, units), take, q) == Share(paid, take, units)
  {
    var x, y, z := q / units, take / q, take / units;
    QuotientIs(q, units, x);
    QuotientIs(take, q, y);
    ProductOfQuotients(x, y, q, units, take);
    QuotientIs(take, units, x * y);
    assert (paid * x) * y == paid * (x * y);
  }

  lemma ProductOfQuotients(x: real, y: real, q: real, units: real, take: real)
    requires x * units == q && y * q == take
    ensures (x * y) * units == take
  {
    assert (x * y) * units == y * (x * units);
  }

  lemma ShareDifference(c: real, e: real, take: real, q: real)
    requires q > 0.0
    ensures Share(c - e, take, q) == Share(c, take, q) - Share(e, take, q)
  {
    RealDistrib(c, e, take / q);
  }

  /** Taking a share of an error leaves no more than the error. */
  lemma ShareOfError(d: real, n: real, take: real, q: real)
    requires -n <= d <= n && 0.0 < take < q
    ensures -n <= d - Share(d, take, q) <= n
  {
    var f := take / q;
    QuotientIs(take, q, f);
    FractionOfCost(1.0, take, q, f);
    if d >= 0.0 {
      FractionOfCost(d, take, q, f);
    } else {
      FractionOfCost(-d, take, q, f);
      assert (-d) * f == -(d * f);
    }
  }

  /** Lots taken whole or cut stay sound. */
  lemma CutSound(lot: Lot, take: real, a: real)
    requires SoundLot(lot) && 0.0 < take < lot.quantity && Finite(take)
    requires Allocation(lot.cost, take, lot.quantity) == Some(a)
    ensures SoundLot(Cut(lot, take, a)) && a >= 0.0 && Finite(a)
  {
    AllocationLaws(lot.cost, take, lot.quantity);
    FiniteSum(lot.quantity, take);
    CutNearExact(lot, take, a);
    hide Allocation, Finite, ExactCost, NearExact;
  }

  /** On sound lots a sale goes through exactly when the units suffice; it then takes
      that many units, and every lot it leaves is sound. Neither allocation error can
      occur. */
  lemma {:induction false} SellLaws(lots: seq<Lot>, remaining: real, charged: real)
    requires SoundLots(lots) && remaining >= 0.0 && Finite(remaining) && Finite(charged)
    ensures var s := SellFrom(lots, remaining, charged);
      && (s.Some? <==> remaining <= LotUnits(lots))
      && (s.Some? ==> (SoundLots(s.value.lots) && Finite(s.value.charged)
        && LotUnits(s.value.lots) == LotUnits(lots) - remaining))
    decreases |lots|, if remaining > 0.0 then 1 else 0
  {
    hide Allocation, Finite, SoundLot;
    if remaining > 0.0 && lots != [] {
      var lot := lots[0];
      var take := MinReal(remaining, lot.quantity);
      assert SoundLot(lot);
      SoundQuantity(lot);
      TakeLaws(lot, take);
      var a := Allocation(lot.cost, take, lot.quantity).value;
      FiniteSum(charged, a);
      FiniteSum(remaining, take);
      UnitsNonNegative(lots[1..]);
      if lot.quantity - take == 0.0 {
        SellLaws(lots[1..], remaining - take, charged + a);
      } else {
        var rest := [Cut(lot, take, a)] + lots[1..];
        assert rest[1..] == lots[1..];
        SellLaws(rest, remaining - take, charged + a);
      }
    } else if lots != [] {
      UnitsNonNegative(lots);
    }
  }

  lemma TakeLaws(lot: Lot, take: real)
    requires SoundLot(lot) && 0.0 < take <= lot.quantity && (Finite(take) || take == lot.quantity)
    ensures lot.quantity > 0.0 && Finite(take)
    ensures var a := Allocation(lot.cost, take, lot.quantity);
      && a.Some? && Finite(a.value) && (take < lot.quantity ==> SoundLot(Cut(lot, take, a.value)))
      && (take == lot.quantity ==> a.value == lot.cost)
  {
    AllocationLaws(lot.cost, take, lot.quantity);
    if take < lot.quantity {
      CutSound(lot, take, Allocation(lot.cost, take, lot.quantity).value);
    }
    hide Allocation, Finite, NearExact;
  }

  lemma SoundQuantity(lot: Lot)
    requires SoundLot(lot)
    ensures lot.quantity > 0.0 && Finite(lot.quantity)
  {}

  lemma {:induction false} UnitsNonNegative(lots: seq<Lot>)
    requires SoundLots(lots)
    ensures LotUnits(lots) >= 0.0 && LotCost(lots) >= 0.0 && (lots != [] ==> LotUnits(lots) > 0.0)
  {
    if lots != [] {
      assert SoundLot(lots[0]);
      UnitsNonNegative(lots[1..]);
    }
  }

  /** A split changes no cost and keeps lots sound: the exact proportional cost does
      not move. */
  lemma SplitSound(lot: Lot, factor: real)
    requires SoundLot(lot) && factor > 0.0 && Finite(factor)
    ensures SoundLot(SplitLot(lot, factor))
  {
    TimesLaws(lot.quantity, factor);
    TimesLaws(lot.units, factor);
    SplitShare(lot.paid, lot.quantity, lot.units, factor);
    hide Finite, Times, Share, Slack;
  }

  lemma SplitShare(paid: real, quantity: real, units: real, factor: real)
    requires units > 0.0 && factor > 0.0 && Times(units, factor) > 0.0
    ensures Share(paid, Times(quantity, factor), Times(units, factor)) == Share(paid, quantity, units)
  {
    var x := quantity / units;
    QuotientIs(quantity, units, x);
    assert x * (units * factor) == (x * units) * factor;
    QuotientIs(quantity * factor, units * factor, x);
  }

  lemma {:induction false} SplitCost(lots: seq<Lot>, factor: real)
    ensures LotCost(SplitLots(lots, factor)) == LotCost(lots)
  {
    if lots != [] {
      assert SplitLots(lots, factor)[1..] == SplitLots(lots[1..], factor);
      SplitCost(lots[1..], factor);
    }
  }

  lemma {:induction false} LotCostAppend(lots: seq<Lot>, lot: Lot)
    ensures LotCost(lots + [lot]) == LotCost(lots) + lot.cost
  {
    if lots != [] {
      assert (lots + [lot])[1..] == lots[1..] + [lot];
      LotCostAppend(lots[1..], lot);
    }
  }

  lemma BoughtSound(quantity: real, cost: real)
    requires quantity > 0.0 && cost >= 0.0 && Finite(quantity) && Finite(cost)
    ensures SoundLot(Bought(quantity, cost))
  {
    ShareBounds(cost, quantity, quantity);
    OneMore(0);
    SoundWhole(Bought(quantity, cost));
    hide Finite, Share, Slack, ExactCost, NearExact;
  }

  lemma SoundWhole(lot: Lot)
    requires lot.quantity > 0.0 && lot.units == lot.quantity && lot.paid == lot.cost >= 0.0
    requires Finite(lot.quantity) && Finite(lot.cost)
    requires Share(lot.paid, lot.quantity, lot.quantity) == lot.cost && Slack(lot.partials) >= 0.0
    ensures SoundLot(lot)
  {
    hide Finite, Share, Slack;
  }
}
