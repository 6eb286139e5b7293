/** One simulated fill and the account it is booked to:
    services/core/internal/paperdomain/paper.go.

    The ghost half works on real numbers; the executable half on exact rationals,
    proved to agree with it.
  */
module PaperFill {
  import opened Exact
  import opened Fifo
  import opened OrderStore

  datatype Policy = Policy(fee: Rat, tax: Rat, slippageBps: Rat, participation: Rat)

  /** What CalculateFill is asked, on real numbers and on rationals. */
  datatype Ask = Ask(side: Side, open: real, volume: real, remaining: int, cash: real, position: real, consumed: int)
  datatype Input = Input(side: Side, open: Rat, volume: Rat, remaining: int, cash: Rat, position: Rat, consumed: int)

  datatype Fill = Fill(quantity: int, reference: real, price: real, notional: real, fee: real, tax: real, slippage: real, cashDelta: real)
  datatype RatFill = RatFill(quantity: int, reference: Rat, price: Rat, notional: Rat, fee: Rat, tax: Rat, slippage: Rat, cashDelta: Rat)

  /** A fill, no fill on this bar, or an error. */
  datatype Outcome<+T> = Refused | NoFill | Filled(fill: T)

  /******* The calculation on real numbers *******/

  ghost predicate ValidPolicy(p: Policy) {
    Val(p.fee) >= 0.0 && 0.0 <= Val(p.tax) <= 1.0 && 0.0 <= Val(p.slippageBps) < 10000.0 && 0.0 < Val(p.participation) <= 1.0
  }

  ghost function Factor(side: Side, bps: real): real {
    if side == Buy then 1.0 + bps * 0.0001 else 1.0 - bps * 0.0001
  }

  /** The bar's open moved against the trader by the slippage. */
  ghost function PriceAt(side: Side, open: real, bps: real): real {
    Times(open, Factor(side, bps))
  }

  ghost function Capacity(volume: real, participation: real): int {
    Times(volume, participation).Floor
  }

  /** How many units the money, or the holding, allows. */
  ghost function Affordable(i: Ask, p: Policy, price: real): int
    requires price > 0.0
  {
    if i.side == Buy then ((i.cash - Val(p.fee)) / price).Floor else i.position.Floor
  }

  ghost function FillAt(p: Policy, side: Side, open: real, price: real, quantity: int): Fill {
    var notional := Times(price, quantity as real);
    var tax := if side == Sell then Times(notional, Val(p.tax)) else 0.0;
    Fill(quantity, open, price, notional, Val(p.fee), tax, Times(if price > open then price - open else open - price, quantity as real),
      if side == Buy then -(notional + Val(p.fee)) else notional - Val(p.fee) - tax)
  }

  ghost predicate ValidInput(i: Ask) {
    && i.open > 0.0 && i.volume >= 0.0 && i.remaining >= 0 && i.consumed >= 0
    && (i.side == Sell ==> i.position >= 0.0 && i.position == i.position.Floor as real)
  }

  /** CalculateFill. */
  ghost function FillFor(p: Policy, i: Ask): Outcome<Fill> {
    if !ValidPolicy(p) || !ValidInput(i) then Refused
    else
      var capacity := Capacity(i.volume, Val(p.participation));
      var room := Min(capacity - i.consumed, i.remaining);
      if i.consumed > capacity then Refused
      else if room == 0 then NoFill
      else if i.side == Buy && i.cash < 0.0 then Refused
      else if i.side == Buy && i.cash < Val(p.fee) then NoFill
      else Priced(p, i, room)
  }

  ghost function Priced(p: Policy, i: Ask, room: int): Outcome<Fill>
    requires ValidPolicy(p) && ValidInput(i)
  {
    PricePositive(i.side, i.open, Val(p.slippageBps));
    var price := PriceAt(i.side, i.open, Val(p.slippageBps));
    var quantity := Min(room, Affordable(i, p, price));
    var fill := FillAt(p, i.side, i.open, price, quantity);
    if quantity == 0 then NoFill else if i.side == Sell && fill.cashDelta < 0.0 then Refused else Filled(fill)
  }

  lemma PricePositive(side: Side, open: real, bps: real)
    requires open > 0.0 && 0.0 <= bps < 10000.0
    ensures PriceAt(side, open, bps) > 0.0
  {
    TimesLaws(open, Factor(side, bps));
    hide Times;
  }

  /******* Laws of one fill *******/

  /** A fill is a positive part of what is left of the order and of the bar's capacity;
      a buy never costs more than the cash, a sale never takes more than is held and
      never costs money. */
  lemma FillBounds(p: Policy, i: Ask)
    requires FillFor(p, i).Filled?
    ensures var f := FillFor(p, i).fill;
      && ValidPolicy(p) && ValidInput(i)
      && 0 < f.quantity <= i.remaining && i.consumed + f.quantity <= Capacity(i.volume, Val(p.participation))
      && f.fee >= 0.0 && f.tax >= 0.0 && f.slippage >= 0.0
      && (i.side == Buy ==> f.tax == 0.0 && f.cashDelta < 0.0 && i.cash + f.cashDelta >= 0.0)
      && (i.side == Sell ==> f.cashDelta >= 0.0 && f.quantity as real <= i.position)
  {
    hide Val, Capacity, PriceAt, Times;
    var price := PriceAt(i.side, i.open, Val(p.slippageBps));
    PricePositive(i.side, i.open, Val(p.slippageBps));
    var q := FillFor(p, i).fill.quantity;
    QuantityPositive(p, i, price);
    FillSigns(p, i.side, i.open, price, q);
    if i.side == Buy {
      AffordableCost(i.cash - Val(p.fee), price, q);
    }
  }

  lemma QuantityPositive(p: Policy, i: Ask, price: real)
    requires ValidPolicy(p) && ValidInput(i) && price > 0.0
    ensures i.side == Buy && i.cash >= Val(p.fee) ==> Affordable(i, p, price) >= 0
    ensures i.side == Sell ==> Affordable(i, p, price) >= 0
  {
    hide Val;
    if i.side == Buy && i.cash >= Val(p.fee) {
      QuotientNonNegative(i.cash - Val(p.fee), price);
    }
  }

  lemma QuotientNonNegative(x: real, y: real)
    requires x >= 0.0 && y > 0.0
    ensures x / y >= 0.0
  {
    QuotientIs(x, y, x / y);
    SignOfProduct(x / y, y);
  }

  lemma AffordableCost(money: real, price: real, q: int)
    requires money >= 0.0 && price > 0.0 && q <= (money / price).Floor
    ensures Times(price, q as real) <= money
  {
    QuotientIs(money, price, money / price);
    ScaledOrder(q as real, money / price, price);
  }

  lemma FillSigns(p: Policy, side: Side, open: real, price: real, q: int)
    requires ValidPolicy(p) && price > 0.0 && q > 0
    ensures var f := FillAt(p, side, open, price, q);
      f.notional > 0.0 && f.tax >= 0.0 && f.slippage >= 0.0 && f.fee >= 0.0 && (side == Buy ==> f.tax == 0.0)
  {
    var d := if price > open then price - open else open - price;
    TimesLaws(price, q as real);
    NonNegativeProduct(Times(price, q as real), Val(p.tax));
    NonNegativeProduct(d, q as real);
    hide Times, Val;
  }

  lemma NonNegativeProduct(x: real, y: real)
    requires x >= 0.0 && y >= 0.0
    ensures Times(x, y) >= 0.0
  {}

  /** All amounts of a fill are finite decimals: formatting them never fails. */
  lemma FillFinite(p: Policy, i: Ask)
    requires FillFor(p, i).Filled? && Finite(i.open) && Finite(Val(p.fee)) && Finite(Val(p.tax)) && Finite(Val(p.slippageBps))
    ensures var f := FillFor(p, i).fill;
      && Finite(f.quantity as real) && Finite(f.reference) && Finite(f.price) && Finite(f.notional) && Finite(f.fee) && Finite(f.tax)
      && Finite(f.slippage) && Finite(f.cashDelta)
  {
    hide Val, Capacity, Times, Finite;
    var open, bps, fee, tax := i.open, Val(p.slippageBps), Val(p.fee), Val(p.tax);
    var f := FillFor(p, i).fill;
    FactorFinite(i.side, bps);
    TimesLaws(open, Factor(i.side, bps));
    FiniteInt(f.quantity);
    FiniteInt(0);
    TimesLaws(f.price, f.quantity as real);
    TimesLaws(f.notional, tax);
    FiniteSum(f.price, open);
    FiniteSum(open, f.price);
    TimesLaws(f.price - open, f.quantity as real);
    TimesLaws(open - f.price, f.quantity as real);
    FiniteSum(f.notional, fee);
    FiniteSum(0.0, f.notional + fee);
    FiniteSum(f.notional - fee, f.tax);
  }

  lemma FactorFinite(side: Side, bps: real)
    requires Finite(bps)
    ensures Finite(Factor(side, bps))
  {
    assert Pow10(4) == 10000;
    DecIs(0.0001, 1, 4);
    assert HasScale(0.0001, 4);
    FiniteProduct(bps, 0.0001);
    FiniteInt(1);
    FiniteSum(1.0, bps * 0.0001);
    hide Finite;
  }

  /******* The calculation on rationals *******/

  ghost function View(f: RatFill): Fill {
    Fill(f.quantity, Val(f.reference), Val(f.price), Val(f.notional), Val(f.fee), Val(f.tax), Val(f.slippage), Val(f.cashDelta))
  }

  ghost function ViewOf(o: Outcome<RatFill>): Outcome<Fill> {
    match o
    case Refused => Refused
    case NoFill => NoFill
    case Filled(f) => Filled(View(f))
  }

  /** floorPositiveRat. */
  function Floor(r: Rat): (n: int)
    ensures n == Val(r).Floor
  {
    FloorIs(r, r.num / r.den);
    r.num / r.den
  }

  lemma FloorIs(r: Rat, n: int)
    requires n == r.num / r.den
    ensures n == Val(r).Floor
  {
    var x, d, rest := Val(r), r.den as real, r.num % r.den;
    QuotientIs(r.num as real, d, x);
    assert r.num == n * r.den + rest;
    MulReal(n, r.den);
    RealDistrib(x, n as real, d);
    FractionBounds(x - n as real, d, rest, r.den);
  }

  function IsInt(r: Rat): (b: bool)
    ensures b <==> Val(r) == Val(r).Floor as real
  {
    Cmp(r, FromInt(Floor(r))) == 0
  }

  function PolicyOk(p: Policy): (b: bool)
    ensures b <==> ValidPolicy(p)
  {
    hide Val;
    Sign(p.fee) >= 0 && Sign(p.tax) >= 0 && Cmp(p.tax, FromInt(1)) <= 0 && Sign(p.slippageBps) >= 0
    && Cmp(p.slippageBps, FromInt(10000)) < 0 && Sign(p.participation) > 0 && Cmp(p.participation, FromInt(1)) <= 0
  }

  ghost function AskOf(i: Input): Ask {
    Ask(i.side, Val(i.open), Val(i.volume), i.remaining, Val(i.cash), Val(i.position), i.consumed)
  }

  function InputOk(i: Input): (b: bool)
    ensures b <==> ValidInput(AskOf(i))
  {
    hide Val;
    Sign(i.open) > 0 && Sign(i.volume) >= 0 && i.remaining >= 0 && i.consumed >= 0
    && (i.side == Sell ==> Sign(i.position) >= 0 && IsInt(i.position))
  }

  function RatPrice(side: Side, open: Rat, bps: Rat): (r: Rat)
    ensures Val(r) == PriceAt(side, Val(open), Val(bps))
  {
    var adjustment := Quo(bps, FromInt(10000));
    AdjustmentIs(Val(bps), Val(adjustment));
    hide Val;
    Mul(open, if side == Buy then Add(FromInt(1), adjustment) else Sub(FromInt(1), adjustment))
  }

  lemma AdjustmentIs(bps: real, a: real)
    requires a == bps / 10000.0
    ensures a == bps * 0.0001
  {}

  /** CalculateFill, step by step. */
  method CalculateFill(p: Policy, i: Input) returns (o: Outcome<RatFill>)
    ensures ViewOf(o) == FillFor(p, AskOf(i))
  {
    hide Val, Times, FillAt;
    if !PolicyOk(p) || !InputOk(i) {
      return Refused;
    }
    var capacity := Floor(Mul(i.volume, p.participation));
    assert capacity == Capacity(Val(i.volume), Val(p.participation)) by { CapacityIs(i.volume, p.participation); }
    if i.consumed > capacity {
      return Refused;
    }
    var quantity := Min(capacity - i.consumed, i.remaining);
    var price := RatPrice(i.side, i.open, p.slippageBps);
    PricePositive(i.side, Val(i.open), Val(p.slippageBps));
    if quantity == 0 {
      return NoFill;
    }
    SignValue(price);
    if i.side == Buy {
      if Sign(i.cash) < 0 {
        return Refused;
      }
      var affordable := Sub(i.cash, p.fee);
      if Sign(affordable) < 0 {
        return NoFill;
      }
      quantity := Min(quantity, Floor(Quo(affordable, price)));
    } else {
      quantity := Min(quantity, Floor(i.position));
    }
    if quantity == 0 {
      return NoFill;
    }
    var fill := RatFillAt(p, i.side, i.open, price, quantity);
    if i.side == Sell && Sign(fill.cashDelta) < 0 {
      return Refused;
    }
    o := Filled(fill);
  }

  lemma CapacityIs(volume: Rat, participation: Rat)
    ensures Val(Mul(volume, participation)).Floor == Capacity(Val(volume), Val(participation))
  {
    hide Val;
  }

  function TimesRat(x: Rat, y: Rat): (r: Rat)
    ensures Val(r) == Times(Val(x), Val(y))
  {
    hide Val;
    Mul(x, y)
  }

  function Distance(price: Rat, open: Rat): (r: Rat)
    ensures Val(r) == if Val(price) > Val(open) then Val(price) - Val(open) else Val(open) - Val(price)
  {
    hide Val;
    var difference := Sub(price, open);
    if Sign(difference) > 0 then difference else Neg(difference)
  }

  function CashDelta(side: Side, notional: Rat, fee: Rat, tax: Rat): (r: Rat)
    ensures Val(r) == if side == Buy then -(Val(notional) + Val(fee)) else Val(notional) - Val(fee) - Val(tax)
  {
    hide Val;
    if side == Buy then Neg(Add(notional, fee)) else Sub(Sub(notional, fee), tax)
  }

  function RatFillAt(p: Policy, side: Side, open: Rat, price: Rat, quantity: int): (f: RatFill)
    ensures View(f) == FillAt(p, side, Val(open), Val(price), quantity)
  {
    hide Val, Times, Mul, Neg, Add, Sub, Sign;
    var q := FromInt(quantity);
    var notional := TimesRat(price, q);
    var tax := if side == Sell then TimesRat(notional, p.tax) else FromInt(0);
    RatFill(quantity, open, price, notional, p.fee, tax, TimesRat(Distance(price, open), q), CashDelta(side, notional, p.fee, tax))
  }
}
