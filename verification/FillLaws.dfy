/** When a simulated order fills on a bar, how much of it, and at what amounts:
    CalculateFill (services/core/internal/paperdomain/paper.go:43-162) told from its
    inputs alone.
  */
module FillLaws {
  import opened Exact
  import opened Fifo
  import opened OrderStore
  import opened PaperFill

  /** A policy, bar and order that make sense, on a bar not overdrawn so far. */
  ghost predicate Acceptable(p: Policy, i: Ask) {
    && Val(p.fee) >= 0.0 && 0.0 <= Val(p.tax) <= 1.0 && 0.0 <= Val(p.slippageBps) < 10000.0
    && 0.0 < Val(p.participation) <= 1.0
    && i.open > 0.0 && i.volume >= 0.0 && i.remaining >= 0 && i.consumed >= 0
    && (i.side == Sell ==> i.position >= 0.0 && i.position == i.position.Floor as real)
    && OnBar(p, i, 0)
  }

  /** The bar's share of volume has room for n units more. */
  ghost predicate OnBar(p: Policy, i: Ask, n: int) {
    (i.consumed + n) as real <= i.volume * Val(p.participation)
  }

  /** Ten thousand units at the bar's open, moved against the trader by the slippage in
      basis points: up for a buy, down for a sale. */
  ghost function TenThousandAt(i: Ask, bps: real): real {
    i.open * if i.side == Buy then 10000.0 + bps else 10000.0 - bps
  }

  ghost function Worth(price: real, n: int): real {
    price * n as real
  }

  /** n units fit the order, the bar, and the money or the holding. */
  ghost predicate Allowed(p: Policy, i: Ask, n: int) {
    && n <= i.remaining && OnBar(p, i, n)
    && if i.side == Sell then n as real <= i.position
       else Worth(TenThousandAt(i, Val(p.slippageBps)), n) + 10000.0 * Val(p.fee) <= 10000.0 * i.cash
  }

  /** The most units allowed, or none. */
  ghost predicate Largest(p: Policy, i: Ask, n: int) {
    n >= 0 && !Allowed(p, i, n + 1) && (n > 0 ==> Allowed(p, i, n))
  }

  /** The sale of n units brings in less than its fee and tax. */
  ghost predicate LosesMoney(p: Policy, i: Ask, n: int) {
    var worth := Worth(TenThousandAt(i, Val(p.slippageBps)), n);
    i.side == Sell && worth - worth * Val(p.tax) < 10000.0 * Val(p.fee)
  }

  /** A buyer in debt whose order and bar both have room. */
  ghost predicate InDebt(p: Policy, i: Ask) {
    i.side == Buy && i.cash < 0.0 && i.remaining > 0 && OnBar(p, i, 1)
  }

  /******* Amounts *******/

  /** Every amount of a fill, from the bar's open, the policy and the quantity. */
  lemma FillAmounts(p: Policy, i: Ask)
    requires FillFor(p, i).Filled?
    ensures var f, bps := FillFor(p, i).fill, Val(p.slippageBps);
      && f.reference == i.open && f.fee == Val(p.fee)
      && f.price * 10000.0 == i.open * (if i.side == Buy then 10000.0 + bps else 10000.0 - bps)
      && f.notional == f.price * f.quantity as real
      && f.slippage == (if i.side == Buy then f.price - i.open else i.open - f.price) * f.quantity as real
      && f.tax == (if i.side == Sell then f.notional * Val(p.tax) else 0.0)
      && f.cashDelta == (if i.side == Buy then -(f.notional + f.fee) else f.notional - f.fee - f.tax)
  {
    hide Val, Capacity, Times, PriceAt;
    PriceMoves(i, Val(p.slippageBps));
    var f := FillFor(p, i).fill;
    TimesIs(f.price, f.quantity as real);
    TimesIs(f.notional, Val(p.tax));
    TimesIs(f.price - i.open, f.quantity as real);
    TimesIs(i.open - f.price, f.quantity as real);
  }

  lemma TimesIs(x: real, y: real)
    ensures Times(x, y) == x * y
  {}

  lemma PriceMoves(i: Ask, bps: real)
    requires i.open > 0.0 && 0.0 <= bps < 10000.0
    ensures PriceAt(i.side, i.open, bps) * 10000.0 == TenThousandAt(i, bps) > 0.0
    ensures if i.side == Buy then PriceAt(i.side, i.open, bps) >= i.open else PriceAt(i.side, i.open, bps) <= i.open
  {
    var x := bps * 0.0001;
    RealDistrib(1.0, -x, i.open);
    RealDistrib(1.0, x, i.open);
    NonNegativeProduct(i.open, x);
    PricePositive(i.side, i.open, bps);
    Scaled(i.open, bps);
  }

  lemma Scaled(open: real, bps: real)
    ensures (open * (1.0 + bps * 0.0001)) * 10000.0 == open * (10000.0 + bps)
    ensures (open * (1.0 - bps * 0.0001)) * 10000.0 == open * (10000.0 - bps)
  {
    assert (1.0 + bps * 0.0001) * 10000.0 == 10000.0 + bps;
  }

  /******* Which orders fill, and by how much *******/

  lemma FloorOrder(n: int, x: real)
    ensures n <= x.Floor <==> n as real <= x
  {}

  lemma OnBarIs(p: Policy, i: Ask, n: int)
    ensures OnBar(p, i, n) <==> i.consumed + n <= Capacity(i.volume, Val(p.participation))
  {
    hide Val;
    TimesIs(i.volume, Val(p.participation));
    FloorOrder(i.consumed + n, Times(i.volume, Val(p.participation)));
  }

  /** Units the money allows. */
  lemma MoneyAllows(i: Ask, bps: real, fee: real, n: int)
    requires i.side == Buy && i.open > 0.0 && 0.0 <= bps < 10000.0 && PriceAt(i.side, i.open, bps) > 0.0
    ensures n <= ((i.cash - fee) / PriceAt(i.side, i.open, bps)).Floor <==>
      Worth(TenThousandAt(i, bps), n) + 10000.0 * fee <= 10000.0 * i.cash
  {
    hide PriceAt, TenThousandAt;
    var price, money := PriceAt(i.side, i.open, bps), i.cash - fee;
    PriceMoves(i, bps);
    FloorOrder(n, money / price);
    QuotientIs(money, price, money / price);
    ScaledOrder(n as real, money / price, price);
    WorthScales(price, n);
    hide Worth;
  }

  lemma WorthScales(price: real, n: int)
    ensures Worth(price * 10000.0, n) == 10000.0 * (n as real * price)
  {}

  /** The quantity the code limits an order to. */
  ghost function Limit(p: Policy, i: Ask): int
    requires ValidPolicy(p) && ValidInput(i)
  {
    PricePositive(i.side, i.open, Val(p.slippageBps));
    Min(Min(Capacity(i.volume, Val(p.participation)) - i.consumed, i.remaining),
      Affordable(i, p, PriceAt(i.side, i.open, Val(p.slippageBps))))
  }

  lemma AllowedIs(p: Policy, i: Ask, n: int)
    requires ValidPolicy(p) && ValidInput(i)
    ensures Allowed(p, i, n) <==> n <= Limit(p, i)
  {
    hide Val, Capacity, PriceAt, OnBar, TenThousandAt, Worth;
    OnBarIs(p, i, n);
    PricePositive(i.side, i.open, Val(p.slippageBps));
    if i.side == Buy {
      MoneyAllows(i, Val(p.slippageBps), Val(p.fee), n);
    } else {
      FloorOrder(n, i.position);
    }
  }

  lemma AcceptableIs(p: Policy, i: Ask)
    ensures Acceptable(p, i) <==> ValidPolicy(p) && ValidInput(i) && i.consumed <= Capacity(i.volume, Val(p.participation))
  {
    hide Val, Capacity, OnBar;
    OnBarIs(p, i, 0);
  }

  lemma LossIs(p: Policy, i: Ask, n: int)
    requires ValidPolicy(p) && ValidInput(i)
    ensures LosesMoney(p, i, n) <==>
      i.side == Sell && FillAt(p, i.side, i.open, PriceAt(i.side, i.open, Val(p.slippageBps)), n).cashDelta < 0.0
  {
    hide Val, PriceAt, TenThousandAt, Worth;
    var price, tax := PriceAt(i.side, i.open, Val(p.slippageBps)), Val(p.tax);
    PriceMoves(i, Val(p.slippageBps));
    WorthScales(price, n);
    TimesIs(price, n as real);
    TimesIs(Times(price, n as real), tax);
    ScaledTax(Times(price, n as real), tax);
    hide Times;
  }

  lemma ScaledTax(x: real, tax: real)
    ensures (10000.0 * x) * tax == 10000.0 * (x * tax)
  {}

  /** Inputs that make no sense are refused. */
  lemma OtherwiseRefused(p: Policy, i: Ask)
    ensures !Acceptable(p, i) ==> FillFor(p, i).Refused?
  {
    AcceptableIs(p, i);
    hide Acceptable, ValidPolicy, ValidInput, Capacity, Priced, Val;
  }

  /** Some number of units is the largest. */
  lemma LargestExists(p: Policy, i: Ask) returns (n: int)
    requires Acceptable(p, i)
    ensures Largest(p, i, n)
  {
    AcceptableIs(p, i);
    n := if Limit(p, i) > 0 then Limit(p, i) else 0;
    AllowedIs(p, i, n);
    AllowedIs(p, i, n + 1);
    hide Acceptable, Allowed, Limit, ValidPolicy, ValidInput, Capacity;
  }

  /** An order fills with the largest quantity allowed; it is refused when its buyer is
      in debt or its sale loses money, and otherwise does not fill only because not even
      one unit is allowed. */
  lemma OutcomeExactly(p: Policy, i: Ask, n: int)
    requires Acceptable(p, i) && Largest(p, i, n)
    ensures FillFor(p, i).Filled? <==> n > 0 && !LosesMoney(p, i, n)
    ensures FillFor(p, i).Filled? ==> FillFor(p, i).fill.quantity == n
    ensures FillFor(p, i).Refused? <==> InDebt(p, i) || (n > 0 && LosesMoney(p, i, n))
  {
    AcceptableIs(p, i);
    AllowedIs(p, i, n);
    AllowedIs(p, i, n + 1);
    LossIs(p, i, n);
    OnBarIs(p, i, 1);
    PricePositive(i.side, i.open, Val(p.slippageBps));
    QuantityPositive(p, i, PriceAt(i.side, i.open, Val(p.slippageBps)));
    PoorBuys(p, i);
    hide Acceptable, Allowed, ValidPolicy, ValidInput, Capacity, LosesMoney, OnBar, PriceAt, Val, Affordable, Times;
  }

  /** A buyer who cannot pay the fee can pay for nothing. */
  lemma PoorBuys(p: Policy, i: Ask)
    requires ValidPolicy(p) && ValidInput(i) && PriceAt(i.side, i.open, Val(p.slippageBps)) > 0.0
    ensures i.side == Buy && i.cash < Val(p.fee) ==> Affordable(i, p, PriceAt(i.side, i.open, Val(p.slippageBps))) < 0
  {
    hide Val, PriceAt;
    if i.side == Buy && i.cash < Val(p.fee) {
      var price, money := PriceAt(i.side, i.open, Val(p.slippageBps)), i.cash - Val(p.fee);
      QuotientIs(money, price, money / price);
      SignOfProduct(money / price, price);
    }
  }
}
