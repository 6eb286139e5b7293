/** The account a paper fill is booked to: ApplyFill of
    services/core/internal/paperdomain/paper.go:254-341.
  */
module PaperAccount {
  import opened Results
  import opened Exact
  import opened Sums
  import opened Fifo
  import opened FifoLaws
  import opened LedgerReplay
  import opened OrderStore
  import opened PaperFill

  datatype Account = Account(cash: real, fees: real, taxes: real, slippage: real, pnl: real, lots: map<string, seq<Lot>>, fills: nat)
  datatype RatAccount = RatAccount(cash: Rat, fees: Rat, taxes: Rat, slippage: Rat, pnl: Rat, lots: map<string, seq<RatLot>>, fills: nat)

  ghost function NewAccount(cash: real): Account {
    Account(cash, 0.0, 0.0, 0.0, 0.0, map[], 0)
  }

  ghost function LotsOf(a: Account, symbol: string): seq<Lot> {
    if symbol in a.lots then a.lots[symbol] else []
  }

  /** PositionQuantity. */
  ghost function Held(a: Account, symbol: string): real {
    LotUnits(LotsOf(a, symbol))
  }

  ghost function Booked(a: Account, f: Fill): Account {
    a.(cash := a.cash + f.cashDelta, fees := a.fees + f.fee, taxes := a.taxes + f.tax, slippage := a.slippage + f.slippage,
       fills := a.fills + 1)
  }

  predicate Bookable(side: Side, f: Fill) {
    && f.quantity > 0 && f.fee >= 0.0 && f.tax >= 0.0 && f.slippage >= 0.0
    && if side == Buy then f.tax == 0.0 && f.cashDelta < 0.0 else f.cashDelta >= 0.0
  }

  /** ApplyFill: works on a copy, so an error leaves the account as it was. */
  ghost function Apply(a: Account, symbol: string, side: Side, f: Fill): Option<Account> {
    if !Bookable(side, f) || a.cash + f.cashDelta < 0.0 then None
    else if side == Buy then
      Some(Booked(a, f).(lots := a.lots[symbol := LotsOf(a, symbol) + [Bought(f.quantity as real, -f.cashDelta)]]))
    else
      var sale :- SellFrom(LotsOf(a, symbol), f.quantity as real, 0.0);
      Some(Booked(a, f).(pnl := a.pnl + (f.cashDelta - sale.charged),
        lots := if sale.lots == [] then a.lots - {symbol} else a.lots[symbol := sale.lots]))
  }

  /******* Laws *******/

  ghost function OpenValues(a: Account): map<string, real> {
    map s | s in a.lots :: LotCost(a.lots[s])
  }

  /** Cash, cost of the open lots and realised PnL always add up to the starting cash. */
  ghost function Equity(a: Account): real {
    a.cash + Total(OpenValues(a)) - a.pnl
  }

  lemma LotsReplaced(a: Account, b: Account, symbol: string, lots: seq<Lot>)
    requires b.lots == if lots == [] then a.lots - {symbol} else a.lots[symbol := lots]
    ensures Total(OpenValues(b)) == Total(OpenValues(a)) + LotCost(lots) - LotCost(LotsOf(a, symbol))
  {
    NoLots();
    hide LotCost;
    if lots == [] {
      assert OpenValues(b) == OpenValues(a) - {symbol};
      if symbol in a.lots {
        TotalRemove(OpenValues(a), symbol);
      } else {
        assert OpenValues(b) == OpenValues(a);
      }
    } else {
      assert OpenValues(b) == OpenValues(a)[symbol := LotCost(lots)];
      TotalUpdate(OpenValues(a), symbol, LotCost(lots));
    }
  }

  lemma ApplyConserves(a: Account, symbol: string, side: Side, f: Fill)
    requires Apply(a, symbol, side, f).Some?
    ensures Equity(Apply(a, symbol, side, f).value) == Equity(a)
  {
    hide LotCost, SellFrom, Total;
    var after, lots := Apply(a, symbol, side, f).value, LotsOf(a, symbol);
    if side == Buy {
      LotCostAppend(lots, Bought(f.quantity as real, -f.cashDelta));
      LotsReplaced(a, after, symbol, lots + [Bought(f.quantity as real, -f.cashDelta)]);
    } else {
      SellConservesCost(lots, f.quantity as real, 0.0);
      LotsReplaced(a, after, symbol, SellFrom(lots, f.quantity as real, 0.0).value.lots);
    }
  }

  ghost predicate SoundAccount(a: Account) {
    && a.cash >= 0.0 && Finite(a.cash) && Finite(a.fees) && Finite(a.taxes) && Finite(a.slippage) && Finite(a.pnl)
    && forall s :: s in a.lots ==> SoundLots(a.lots[s])
  }

  ghost predicate FiniteFill(f: Fill) {
    Finite(f.fee) && Finite(f.tax) && Finite(f.slippage) && Finite(f.cashDelta)
  }

  /** A bookable fill with finite amounts is refused only for want of cash or units, and
      leaves a sound account. */
  lemma ApplySound(a: Account, symbol: string, side: Side, f: Fill)
    requires SoundAccount(a) && Bookable(side, f) && FiniteFill(f)
    ensures Apply(a, symbol, side, f).Some? <==>
      (a.cash + f.cashDelta >= 0.0 && (side == Sell ==> f.quantity as real <= Held(a, symbol)))
    ensures Apply(a, symbol, side, f).Some? ==> SoundAccount(Apply(a, symbol, side, f).value)
  {
    hide Finite, SellFrom, LotUnits, SoundLots;
    FiniteSum(a.cash, f.cashDelta);
    FiniteSum(a.fees, f.fee);
    FiniteSum(a.taxes, f.tax);
    FiniteSum(a.slippage, f.slippage);
    FiniteInt(f.quantity);
    FiniteInt(0);
    NoLotsSound();
    if side == Buy {
      BuySound(LotsOf(a, symbol), f);
    } else {
      SellLaws(LotsOf(a, symbol), f.quantity as real, 0.0);
      if SellFrom(LotsOf(a, symbol), f.quantity as real, 0.0).Some? {
        var sale := SellFrom(LotsOf(a, symbol), f.quantity as real, 0.0).value;
        FiniteSum(f.cashDelta, sale.charged);
        FiniteSum(a.pnl, f.cashDelta - sale.charged);
      }
    }
  }

  lemma BuySound(lots: seq<Lot>, f: Fill)
    requires SoundLots(lots) && f.quantity > 0 && f.cashDelta < 0.0 && Finite(f.cashDelta)
    ensures SoundLots(lots + [Bought(f.quantity as real, -f.cashDelta)])
  {
    hide SoundLot, Finite;
    FiniteInt(f.quantity);
    FiniteInt(0);
    FiniteSum(0.0, f.cashDelta);
    BoughtSound(f.quantity as real, -f.cashDelta);
  }

  /** A fill calculated for an account's own cash and holding can always be booked. */
  lemma CalculatedApplies(a: Account, symbol: string, p: Policy, i: Ask)
    requires SoundAccount(a) && FillFor(p, i).Filled? && i.cash == a.cash && i.position == Held(a, symbol)
    requires Finite(i.open) && Finite(Val(p.fee)) && Finite(Val(p.tax)) && Finite(Val(p.slippageBps))
    ensures var r := Apply(a, symbol, i.side, FillFor(p, i).fill); r.Some? && SoundAccount(r.value)
  {
    hide SoundAccount, FillFor, Finite, Val, Held, Apply;
    FillBounds(p, i);
    FillFinite(p, i);
    SoundCash(a);
    ApplySound(a, symbol, i.side, FillFor(p, i).fill);
  }

  lemma SoundCash(a: Account)
    requires SoundAccount(a)
    ensures a.cash >= 0.0
  {
    hide Finite;
  }

  /******* On rationals *******/

  ghost predicate SameAccount(a: RatAccount, spec: Account) {
    && Val(a.cash) == spec.cash && Val(a.fees) == spec.fees && Val(a.taxes) == spec.taxes && Val(a.slippage) == spec.slippage
    && Val(a.pnl) == spec.pnl && a.fills == spec.fills && a.lots.Keys == spec.lots.Keys
    && forall s :: s in a.lots ==> SameLots(a.lots[s], spec.lots[s])
  }

  function RatLotsOf(a: RatAccount, symbol: string): seq<RatLot> {
    if symbol in a.lots then a.lots[symbol] else []
  }

  method ApplyFill(a: RatAccount, symbol: string, side: Side, f: RatFill, ghost spec: Account) returns (r: Option<RatAccount>)
    requires SameAccount(a, spec)
    ensures r.Some? <==> Apply(spec, symbol, side, View(f)).Some?
    ensures r.Some? ==> SameAccount(r.value, Apply(spec, symbol, side, View(f)).value)
  {
    hide Val, SellFrom;
    if f.quantity <= 0 || Sign(f.fee) < 0 || Sign(f.tax) < 0 || Sign(f.slippage) < 0 {
      return None;
    }
    if side == Buy && (Sign(f.tax) != 0 || Sign(f.cashDelta) >= 0) {
      return None;
    }
    if side == Sell && Sign(f.cashDelta) < 0 {
      return None;
    }
    var cash := Add(a.cash, f.cashDelta);
    if Sign(cash) < 0 {
      return None;
    }
    var next := a.(cash := cash, fees := Add(a.fees, f.fee), taxes := Add(a.taxes, f.tax), slippage := Add(a.slippage, f.slippage),
      fills := a.fills + 1);
    var lots := RatLotsOf(a, symbol);
    assert SameLots(lots, LotsOf(spec, symbol));
    if side == Buy {
      var bought := RatLot(FromInt(f.quantity), Neg(f.cashDelta));
      return Some(next.(lots := a.lots[symbol := lots + [bought]]));
    }
    var sale := SellLots(lots, FromInt(f.quantity), LotsOf(spec, symbol));
    if sale.Err? {
      return None;
    }
    var pnl := Add(a.pnl, Sub(f.cashDelta, sale.value.1));
    r := Some(next.(pnl := pnl, lots := if sale.value.0 == [] then a.lots - {symbol} else a.lots[symbol := sale.value.0]));
  }

  /** PositionQuantity. */
  method PositionQuantity(a: RatAccount, symbol: string, ghost spec: Account) returns (quantity: Rat)
    requires SameAccount(a, spec)
    ensures Val(quantity) == Held(spec, symbol)
  {
    hide Val;
    var cost;
    quantity, cost := SumLots(RatLotsOf(a, symbol), LotsOf(spec, symbol));
  }
}
