/** An accepted paper log told from the log alone: what each account has taken in and
    given out, which purchases its lots are, and which bar each fill falls on
    (services/core/paper_accounting.go:395-470, 584-620).
  */
module PaperLog {
  import opened Exact
  import opened FifoOrder
  import opened OrderStore
  import opened PaperIntents
  import opened PaperFill
  import opened FillLaws
  import opened PaperAccount
  import opened PaperReplay
  import opened Dispatch
  import opened PaperLaws
  import A = ExecutionAuthority
  import Fifo

  /******* What the rows say *******/

  /** Cash the row brings in. */
  ghost function Flow(side: Side, row: Row): real {
    if side == Buy then -(Val(row.price) * row.quantity as real + Val(row.fee))
    else Val(row.price) * row.quantity as real - Val(row.fee) - Val(row.tax)
  }

  predicate Concerns(env: Env, row: Row, account: string) {
    row.orderId in env.orders && env.orders[row.orderId].paper.account == account
  }

  datatype Totals = Totals(cash: real, fees: real, taxes: real, slippage: real, fills: nat)

  /** Sums over the rows of an account. */
  ghost function TotalsOf(env: Env, rows: seq<Row>, account: string): Totals
    requires account in env.sessions
  {
    if rows == [] then Totals(Val(env.sessions[account].startingCash), 0.0, 0.0, 0.0, 0)
    else
      var before, row := TotalsOf(env, rows[..|rows| - 1], account), rows[|rows| - 1];
      if !Concerns(env, row, account) then before
      else
        Totals(before.cash + Flow(env.orders[row.orderId].paper.side, row), before.fees + Val(row.fee), before.taxes + Val(row.tax),
          before.slippage + Val(row.slippage), before.fills + 1)
  }

  predicate Trades(env: Env, row: Row, account: string, symbol: string, side: Side) {
    Concerns(env, row, account) && env.orders[row.orderId].paper.symbol == symbol && env.orders[row.orderId].paper.side == side
  }

  /** What an account bought of a symbol, in log order, and how much of it it sold. */
  ghost function BoughtBy(env: Env, rows: seq<Row>, account: string, symbol: string): seq<Purchase> {
    if rows == [] then []
    else
      var before, row := BoughtBy(env, rows[..|rows| - 1], account, symbol), rows[|rows| - 1];
      if Trades(env, row, account, symbol, Buy) then before + [Purchase(row.quantity as real, -Flow(Buy, row))] else before
  }

  ghost function SoldBy(env: Env, rows: seq<Row>, account: string, symbol: string): real {
    if rows == [] then 0.0
    else
      var before, row := SoldBy(env, rows[..|rows| - 1], account, symbol), rows[|rows| - 1];
      if Trades(env, row, account, symbol, Sell) then before + row.quantity as real else before
  }

  /******* What the books hold *******/

  ghost predicate AccountTotals(a: Account, t: Totals) {
    a.cash == t.cash && a.fees == t.fees && a.taxes == t.taxes && a.slippage == t.slippage && a.fills == t.fills
  }

  /** The fill behind an accepted row has the row's amounts. */
  lemma RowAmounts(env: Env, b: Books, row: Row)
    requires Step(env, b, row).Some?
    ensures Due(env, b, row.orderId).Filled? && row.orderId in env.orders
    ensures var f := Due(env, b, row.orderId).fill.1;
      && f.quantity == row.quantity > 0 && f.fee == Val(row.fee) && f.tax == Val(row.tax) && f.slippage == Val(row.slippage)
      && f.cashDelta == Flow(env.orders[row.orderId].paper.side, row)
  {
    hide FillFor, Due, Val, Book, Provenanced;
    DueFacts(env, b, row.orderId);
    var o := env.orders[row.orderId].paper;
    var (bar, f) := Due(env, b, row.orderId).fill;
    var policy, ask := env.sessions[o.account].policy, AskFor(b, row.orderId, o, bar);
    FillAmounts(policy, ask);
    FillBounds(policy, ask);
    hide AskFor;
  }

  /** An accepted row books its fill to its account and leaves the others alone. */
  lemma RowBooks(env: Env, b: Books, row: Row)
    requires Step(env, b, row).Some?
    ensures Due(env, b, row.orderId).Filled? && row.orderId in env.orders
    ensures var o, f := env.orders[row.orderId].paper, Due(env, b, row.orderId).fill.1;
      && o.account in b.accounts && Apply(b.accounts[o.account], o.symbol, o.side, f).Some?
      && Step(env, b, row).value.accounts == b.accounts[o.account := Apply(b.accounts[o.account], o.symbol, o.side, f).value]
  {
    hide Due, Apply, Step;
    StepBooks(env, b, row);
  }

  /** Cash, fees, taxes and slippage of every account are the sums over its rows. */
  lemma {:induction false} AccountsAddUp(env: Env, rows: seq<Row>, account: string)
    requires Replay(env, rows).Some? && account in env.sessions
    ensures var accounts := Replay(env, rows).value.accounts;
      account in accounts && AccountTotals(accounts[account], TotalsOf(env, rows, account))
  {
    hide Step, Due, Flow, Val;
    if rows != [] {
      var n, row := |rows| - 1, rows[|rows| - 1];
      AccountsAddUp(env, rows[..n], account);
      var b := Replay(env, rows[..n]).value;
      RowBooks(env, b, row);
      RowAmounts(env, b, row);
      var o, f := env.orders[row.orderId].paper, Due(env, b, row.orderId).fill.1;
      ApplyTotals(b.accounts[o.account], o.symbol, o.side, f);
      hide Apply;
    }
  }

  lemma ApplyTotals(a: Account, symbol: string, side: Side, f: Fill)
    requires Apply(a, symbol, side, f).Some?
    ensures var r := Apply(a, symbol, side, f).value;
      && r.cash == a.cash + f.cashDelta && r.fees == a.fees + f.fee && r.taxes == a.taxes + f.tax
      && r.slippage == a.slippage + f.slippage && r.fills == a.fills + 1
  {
    hide Fifo.SellFrom;
  }

  /******* First in, first out *******/

  lemma ApplyLots(a: Account, symbol: string, side: Side, f: Fill, other: string)
    requires Apply(a, symbol, side, f).Some?
    ensures var after := Apply(a, symbol, side, f).value;
      && (other != symbol ==> LotsOf(after, other) == LotsOf(a, other))
      && (side == Buy ==> LotsOf(after, symbol) == LotsOf(a, symbol) + [Fifo.Bought(f.quantity as real, -f.cashDelta)])
      && (side == Sell ==>
        && Fifo.SellFrom(LotsOf(a, symbol), f.quantity as real, 0.0).Some?
        && LotsOf(after, symbol) == Fifo.SellFrom(LotsOf(a, symbol), f.quantity as real, 0.0).value.lots)
  {
    hide Fifo.SellFrom;
  }

  lemma FillOrder(a: Account, symbol: string, side: Side, f: Fill, purchases: seq<Purchase>, sold: real, k: nat) returns (after: nat)
    requires Apply(a, symbol, side, f).Some? && f.quantity > 0 && Stocked(LotsOf(a, symbol))
    requires FirstInFirstOut(LotsOf(a, symbol), purchases, sold, k)
    ensures var lots := LotsOf(Apply(a, symbol, side, f).value, symbol);
      if side == Buy then FirstInFirstOut(lots, purchases + [Purchase(f.quantity as real, -f.cashDelta)], sold, after)
      else FirstInFirstOut(lots, purchases, sold + f.quantity as real, after)
  {
    hide Fifo.SellFrom, FirstInFirstOut, Stocked, Apply, LotsOf;
    ApplyLots(a, symbol, side, f, symbol);
    var lots, quantity := LotsOf(a, symbol), f.quantity as real;
    after := k;
    if side == Buy {
      BuyLast(lots, purchases, sold, k, quantity, -f.cashDelta);
    } else {
      var j := SellFront(lots, quantity, 0.0);
      SellOrder(lots, purchases, sold, k, Fifo.SellFrom(lots, quantity, 0.0).value.lots, quantity, j);
      after := k + j;
    }
  }

  lemma StockedLots(a: Account, symbol: string)
    requires SoundAccount(a)
    ensures Stocked(LotsOf(a, symbol))
  {
    hide Finite, Fifo.NearExact;
  }

  /** In every accepted log the open lots of an account are its last purchases of the
      symbol, whole but for the first, and exactly the units sold are gone from the
      earlier ones and that first. */
  lemma {:induction false} OldestPaperFirst(env: Env, rows: seq<Row>, account: string, symbol: string) returns (k: nat)
    requires ValidEnv(env) && Replay(env, rows).Some? && account in env.sessions
    ensures var accounts := Replay(env, rows).value.accounts;
      account in accounts
      && FirstInFirstOut(LotsOf(accounts[account], symbol), BoughtBy(env, rows, account, symbol), SoldBy(env, rows, account, symbol), k)
  {
    hide Step, Due, Flow, Val, ValidEnv, FirstInFirstOut, LotsOf, Apply, SoundAccount, Stocked;
    if rows == [] {
      NothingBought();
      EmptyLots(env, account, symbol);
      k := 0;
    } else {
      var n, row := |rows| - 1, rows[|rows| - 1];
      k := OldestPaperFirst(env, rows[..n], account, symbol);
      PaperConservation(env, rows[..n]);
      var b := Replay(env, rows[..n]).value;
      StockedLots(b.accounts[account], symbol);
      RowBooks(env, b, row);
      RowAmounts(env, b, row);
      var o, f := env.orders[row.orderId].paper, Due(env, b, row.orderId).fill.1;
      if o.account == account {
        ApplyLots(b.accounts[account], o.symbol, o.side, f, symbol);
        if o.symbol == symbol {
          k := FillOrder(b.accounts[account], symbol, o.side, f, BoughtBy(env, rows[..n], account, symbol),
            SoldBy(env, rows[..n], account, symbol), k);
        }
      }
    }
  }

  lemma EmptyLots(env: Env, account: string, symbol: string)
    requires account in env.sessions
    ensures account in Start(env).accounts && LotsOf(Start(env).accounts[account], symbol) == []
  {
    hide Val;
  }

  /******* The bars of a series *******/

  /** How many bars of the series there are. */
  function SeriesCount(bars: seq<Bar>, series: string): nat {
    if bars == [] then 0
    else SeriesCount(bars[..|bars| - 1], series) + if bars[|bars| - 1].series == series then 1 else 0
  }

  /** The bar is of the signal's series, after the signal's cutoff, and at least
      `delay - 1` bars of the series come between. */
  predicate Eligible(bars: seq<Bar>, o: Order, delay: int, k: nat) {
    o.cutoff <= k < |bars| && bars[k].series == o.series && SeriesCount(bars[o.cutoff..k], o.series) >= delay - 1
  }

  lemma {:induction false} SeriesLength(bars: seq<Bar>, series: string)
    ensures |InSeries(bars, series)| == SeriesCount(bars, series)
  {
    if bars != [] {
      SeriesLength(bars[..|bars| - 1], series);
    }
  }

  /** A bar of the series stands in the list after as many bars of the series as come
      before it. */
  lemma {:induction false} PlaceOf(bars: seq<Bar>, series: string, m: nat)
    requires m < |bars| && bars[m].series == series
    ensures SeriesCount(bars[..m], series) < |InSeries(bars, series)| && InSeries(bars, series)[SeriesCount(bars[..m], series)] == bars[m]
  {
    var n := |bars| - 1;
    if m < n {
      PlaceOf(bars[..n], series, m);
      assert bars[..n][..m] == bars[..m];
    } else {
      SeriesLength(bars[..n], series);
    }
  }

  lemma {:induction false} BarAt(bars: seq<Bar>, series: string, j: nat) returns (m: nat)
    requires j < |InSeries(bars, series)|
    ensures m < |bars| && bars[m].series == series && SeriesCount(bars[..m], series) == j && InSeries(bars, series)[j] == bars[m]
  {
    var n := |bars| - 1;
    if j < |InSeries(bars[..n], series)| {
      m := BarAt(bars[..n], series, j);
      assert bars[..n][..m] == bars[..m];
    } else {
      SeriesLength(bars[..n], series);
      m := n;
    }
  }

  lemma {:induction false} CountGrows(bars: seq<Bar>, series: string, m: nat, n: nat)
    requires m <= n <= |bars|
    ensures SeriesCount(bars[..m], series) <= SeriesCount(bars[..n], series)
    ensures m < n && bars[m].series == series ==> SeriesCount(bars[..m], series) < SeriesCount(bars[..n], series)
  {
    if m < n {
      CountGrows(bars, series, m, n - 1);
      assert bars[..n][..n - 1] == bars[..n - 1];
    }
  }

  lemma EligiblePlace(bars: seq<Bar>, o: Order, delay: int, k: nat)
    requires delay > 0 && Eligible(bars, o, delay, k)
    ensures FillBars(bars, o, delay).Some?
    ensures var j := SeriesCount(bars[o.cutoff..k], o.series) - (delay - 1);
      0 <= j < |FillBars(bars, o, delay).value| && FillBars(bars, o, delay).value[j] == bars[k]
  {
    var later := bars[o.cutoff..];
    assert later[..k - o.cutoff] == bars[o.cutoff..k];
    PlaceOf(later, o.series, k - o.cutoff);
    hide InSeries, SeriesCount;
  }

  lemma PlaceEligible(bars: seq<Bar>, o: Order, delay: int, j: nat) returns (k: nat)
    requires FillBars(bars, o, delay).Some? && j < |FillBars(bars, o, delay).value|
    ensures delay > 0 && Eligible(bars, o, delay, k) && FillBars(bars, o, delay).value[j] == bars[k]
    ensures SeriesCount(bars[o.cutoff..k], o.series) - (delay - 1) == j
  {
    if o.cutoff <= |bars| {
      var later := bars[o.cutoff..];
      var m := BarAt(later, o.series, j + delay - 1);
      k := o.cutoff + m;
      assert later[..m] == bars[o.cutoff..k];
      hide InSeries, SeriesCount;
    } else {
      NoBars(o.series);
    }
  }

  lemma NoBars(series: string)
    ensures InSeries([], series) == []
  {}

  /******* Whose turn it is *******/

  /** The order filled on the bar before. */
  predicate UsedBefore(rows: seq<Row>, id: string, barId: string) {
    exists i :: 0 <= i < |rows| && rows[i].orderId == id && rows[i].barId == barId
  }

  /** What the policy is asked, told from the rows so far. */
  ghost function AskAt(env: Env, rows: seq<Row>, id: string, bar: Bar): Ask
    requires Known(env, id)
  {
    var o := env.orders[id].paper;
    Ask(o.side, Val(bar.open), Val(bar.volume), o.quantity - FilledOf(rows, id), TotalsOf(env, rows, o.account).cash,
      UnitsOf(BoughtBy(env, rows, o.account, o.symbol)) - SoldBy(env, rows, o.account, o.symbol),
      TakenFrom(env, rows, (o.account, o.symbol, bar.id)))
  }

  predicate Known(env: Env, id: string) {
    id in env.orders && env.orders[id].paper.account in env.sessions
  }

  ghost function OutcomeAt(env: Env, rows: seq<Row>, id: string, bar: Bar): Outcome<Fill>
    requires Known(env, id)
  {
    FillFor(env.sessions[env.orders[id].paper.account].policy, AskAt(env, rows, id, bar))
  }

  /** Bar k is the first eligible one the order has not used that gives a fill. */
  ghost predicate InTurn(env: Env, rows: seq<Row>, id: string, k: nat)
    requires Known(env, id)
  {
    var o, delay := env.orders[id], env.sessions[env.orders[id].paper.account].delay;
    && delay > 0 && Eligible(env.bars, o, delay, k)
    && !UsedBefore(rows, id, env.bars[k].id) && OutcomeAt(env, rows, id, env.bars[k]).Filled?
    && forall m: nat :: m < k && Eligible(env.bars, o, delay, m) ==> PassedOver(env, rows, id, env.bars[m])
  }

  ghost predicate PassedOver(env: Env, rows: seq<Row>, id: string, bar: Bar)
    requires Known(env, id)
  {
    UsedBefore(rows, id, bar.id) || OutcomeAt(env, rows, id, bar).NoFill?
  }

  lemma {:induction false} UsedIs(env: Env, rows: seq<Row>, id: string, barId: string)
    requires Replay(env, rows).Some?
    ensures (id, barId) in Replay(env, rows).value.used <==> UsedBefore(rows, id, barId)
  {
    hide Step, WithinBar;
    if rows != [] {
      var n := |rows| - 1;
      UsedIs(env, rows[..n], id, barId);
      StepEffect(env, Replay(env, rows[..n]).value, rows[n]);
      if UsedBefore(rows[..n], id, barId) {
        var i :| 0 <= i < n && rows[..n][i].orderId == id && rows[..n][i].barId == barId;
        assert rows[i] == rows[..n][i];
      }
      if i :| 0 <= i < |rows| && rows[i].orderId == id && rows[i].barId == barId {
        assert i < n ==> rows[..n][i] == rows[i];
      }
    }
  }

  /** The books ask what the rows say. */
  lemma AskIs(env: Env, rows: seq<Row>, id: string, bar: Bar)
    requires ValidEnv(env) && Replay(env, rows).Some? && Known(env, id)
    ensures env.orders[id].paper.account in Replay(env, rows).value.accounts
    ensures AskFor(Replay(env, rows).value, id, env.orders[id].paper, bar) == AskAt(env, rows, id, bar)
  {
    hide Replay, Val, ValidEnv, FirstInFirstOut, TakenFrom, FilledOf, UnitsOf, BoughtBy, SoldBy, TotalsOf, LotsOf, UsedBefore;
    var o := env.orders[id].paper;
    AccountsAddUp(env, rows, o.account);
    ReplayKeepsBooks(env, rows);
    var k := OldestPaperFirst(env, rows, o.account, o.symbol);
    UnitsLeft(LotsOf(Replay(env, rows).value.accounts[o.account], o.symbol), BoughtBy(env, rows, o.account, o.symbol),
      SoldBy(env, rows, o.account, o.symbol), k);
  }

  ghost predicate Passed(p: Policy, b: Books, id: string, o: PaperOrder, bar: Bar)
    requires o.account in b.accounts
  {
    (id, bar.id) in b.used || FillFor(p, AskFor(b, id, o, bar)).NoFill?
  }

  lemma {:induction false} PickTells(p: Policy, b: Books, id: string, o: PaperOrder, bars: seq<Bar>) returns (j: nat)
    requires o.account in b.accounts && Pick(p, b, id, o, bars).Filled?
    ensures j < |bars| && (id, bars[j].id) !in b.used && forall i :: 0 <= i < j ==> Passed(p, b, id, o, bars[i])
    ensures FillFor(p, AskFor(b, id, o, bars[j])).Filled?
    ensures Pick(p, b, id, o, bars).fill == (bars[j], FillFor(p, AskFor(b, id, o, bars[j])).fill)
  {
    hide FillFor, AskFor;
    if Passed(p, b, id, o, bars[0]) {
      j := PickTells(p, b, id, o, bars[1..]);
      j := j + 1;
      forall i | 0 <= i < j
        ensures Passed(p, b, id, o, bars[i])
      {
        if i > 0 {
          assert bars[1..][i - 1] == bars[i];
        }
      }
    } else {
      j := 0;
    }
  }

  lemma {:induction false} PickIs(p: Policy, b: Books, id: string, o: PaperOrder, bars: seq<Bar>, j: nat)
    requires o.account in b.accounts && j < |bars| && (id, bars[j].id) !in b.used
    requires FillFor(p, AskFor(b, id, o, bars[j])).Filled? && forall i :: 0 <= i < j ==> Passed(p, b, id, o, bars[i])
    ensures Pick(p, b, id, o, bars) == Filled((bars[j], FillFor(p, AskFor(b, id, o, bars[j])).fill))
  {
    hide FillFor, AskFor;
    if j > 0 {
      assert Passed(p, b, id, o, bars[0]);
      forall i | 0 <= i < j - 1
        ensures Passed(p, b, id, o, bars[1..][i])
      {
        assert bars[1..][i] == bars[i + 1];
      }
      PickIs(p, b, id, o, bars[1..], j - 1);
    }
  }

  /** The fill that is due falls on the bar in turn. */
  lemma DueInTurn(env: Env, rows: seq<Row>, id: string) returns (k: nat)
    requires ValidEnv(env) && Replay(env, rows).Some? && Due(env, Replay(env, rows).value, id).Filled?
    ensures Known(env, id) && InTurn(env, rows, id, k)
    ensures Due(env, Replay(env, rows).value, id).fill == (env.bars[k], OutcomeAt(env, rows, id, env.bars[k]).fill)
  {
    hide Replay, ValidEnv, Pick, FillBars, FillFor, AskFor, AskAt, UsedBefore, SeriesCount;
    var b, o := Replay(env, rows).value, env.orders[id];
    var session := env.sessions[o.paper.account];
    var bars := FillBars(env.bars, o, session.delay).value;
    var j := PickTells(session.policy, b, id, o.paper, bars);
    k := PlaceEligible(env.bars, o, session.delay, j);
    AskIs(env, rows, id, env.bars[k]);
    UsedIs(env, rows, id, env.bars[k].id);
    forall m: nat | m < k && Eligible(env.bars, o, session.delay, m)
      ensures PassedOver(env, rows, id, env.bars[m])
    {
      EarlierPlace(env.bars, o, session.delay, m, k);
      AskIs(env, rows, id, env.bars[m]);
      UsedIs(env, rows, id, env.bars[m].id);
    }
  }

  lemma CountBetween(bars: seq<Bar>, o: Order, m: nat, k: nat)
    requires o.cutoff <= m <= k <= |bars|
    ensures SeriesCount(bars[o.cutoff..m], o.series) <= SeriesCount(bars[o.cutoff..k], o.series)
    ensures m < k && bars[m].series == o.series ==> SeriesCount(bars[o.cutoff..m], o.series) < SeriesCount(bars[o.cutoff..k], o.series)
  {
    hide SeriesCount;
    var later := bars[o.cutoff..];
    assert later[..m - o.cutoff] == bars[o.cutoff..m] && later[..k - o.cutoff] == bars[o.cutoff..k];
    CountGrows(later, o.series, m - o.cutoff, k - o.cutoff);
  }

  /** An earlier eligible bar stands earlier among the candidates. */
  lemma EarlierPlace(bars: seq<Bar>, o: Order, delay: int, m: nat, k: nat)
    requires delay > 0 && m < k && Eligible(bars, o, delay, m) && Eligible(bars, o, delay, k)
    ensures FillBars(bars, o, delay).Some?
    ensures var i, j := SeriesCount(bars[o.cutoff..m], o.series) - (delay - 1), SeriesCount(bars[o.cutoff..k], o.series) - (delay - 1);
      0 <= i < j < |FillBars(bars, o, delay).value| && FillBars(bars, o, delay).value[i] == bars[m]
  {
    hide FillBars, SeriesCount;
    EligiblePlace(bars, o, delay, m);
    EligiblePlace(bars, o, delay, k);
    CountBetween(bars, o, m, k);
  }

  lemma InTurnDue(env: Env, rows: seq<Row>, id: string, k: nat)
    requires ValidEnv(env) && Replay(env, rows).Some? && Known(env, id) && InTurn(env, rows, id, k)
    ensures Due(env, Replay(env, rows).value, id) == Filled((env.bars[k], OutcomeAt(env, rows, id, env.bars[k]).fill))
  {
    hide Replay, ValidEnv, Pick, FillBars, FillFor, AskFor, AskAt, UsedBefore, SeriesCount;
    var b, o := Replay(env, rows).value, env.orders[id];
    var session := env.sessions[o.paper.account];
    EligiblePlace(env.bars, o, session.delay, k);
    var bars := FillBars(env.bars, o, session.delay).value;
    var j := SeriesCount(env.bars[o.cutoff..k], o.series) - (session.delay - 1);
    AskIs(env, rows, id, env.bars[k]);
    UsedIs(env, rows, id, env.bars[k].id);
    forall i | 0 <= i < j
      ensures Passed(session.policy, b, id, o.paper, bars[i])
    {
      var m := PlaceEligible(env.bars, o, session.delay, i);
      PlaceIsEarlier(env.bars, o, session.delay, m, k);
      AskIs(env, rows, id, env.bars[m]);
      UsedIs(env, rows, id, env.bars[m].id);
      assert PassedOver(env, rows, id, env.bars[m]);
    }
    PickIs(session.policy, b, id, o.paper, bars, j);
  }

  lemma PlaceIsEarlier(bars: seq<Bar>, o: Order, delay: int, m: nat, k: nat)
    requires Eligible(bars, o, delay, m) && Eligible(bars, o, delay, k)
    requires SeriesCount(bars[o.cutoff..m], o.series) < SeriesCount(bars[o.cutoff..k], o.series)
    ensures m < k
  {
    hide SeriesCount;
    if k <= m {
      CountBetween(bars, o, k, m);
    }
  }

  /******* Accepted logs *******/

  /** The row is the fill of bar k, whose turn it is after the rows before. */
  ghost predicate FillsBar(env: Env, before: seq<Row>, row: Row, k: nat) {
    && Known(env, row.orderId) && InTurn(env, before, row.orderId, k) && Provenanced(env, row)
    && Matches(row, env.bars[k], OutcomeAt(env, before, row.orderId, env.bars[k]).fill)
  }

  ghost predicate DueRow(env: Env, before: seq<Row>, row: Row) {
    exists k: nat :: FillsBar(env, before, row, k)
  }

  lemma RowAccepted(env: Env, before: seq<Row>, row: Row)
    requires ValidEnv(env) && Replay(env, before).Some?
    ensures Step(env, Replay(env, before).value, row).Some? <==> DueRow(env, before, row)
  {
    hide Replay, ValidEnv, Due, InTurn, Matches, Provenanced, Balanced, Book, OutcomeAt, Step;
    var b := Replay(env, before).value;
    PaperConservation(env, before);
    StepAccepts(env, b, row);
    if Due(env, b, row.orderId).Filled? {
      var k := DueInTurn(env, before, row.orderId);
      assert Step(env, b, row).Some? ==> FillsBar(env, before, row, k);
    }
    if k: nat :| FillsBar(env, before, row, k) {
      InTurnDue(env, before, row.orderId, k);
    }
  }

  /** A log is accepted exactly when every row is the fill of the bar whose turn it is:
      the first of the order's series after its signal's cutoff and delay that the order
      has not used and that gives a fill. */
  lemma {:induction false} AcceptedExactly(env: Env, rows: seq<Row>)
    requires ValidEnv(env)
    ensures Replay(env, rows).Some? <==> forall i :: 0 <= i < |rows| ==> DueRow(env, rows[..i], rows[i])
  {
    hide ValidEnv, DueRow, Step;
    if rows != [] {
      var n := |rows| - 1;
      AcceptedExactly(env, rows[..n]);
      assert forall i :: 0 <= i < n ==> rows[..n][..i] == rows[..i] && rows[..n][i] == rows[i];
      if Replay(env, rows[..n]).Some? {
        RowAccepted(env, rows[..n], rows[n]);
      }
    }
  }

  /** A stored lease of the account, granted before the row was recorded and still
      running then. */
  predicate LeaseCovers(r: A.Record, account: string, row: Row) {
    && r.eventId == row.leaseId && r.account == account && r.armed && r.reason.LeaseAcquired? && r.token == row.token > 0
    && r.lease.Some? && r.lease.value.owner != "" && r.recordedAt <= row.recordedAt && row.recordedAt < r.lease.value.expiresAt
  }

  /** Every row of an accepted log names its order's evidence and such a lease. */
  lemma FilledInLease(env: Env, rows: seq<Row>, i: nat)
    requires Replay(env, rows).Some? && i < |rows|
    ensures rows[i].orderId in env.orders
    ensures var o := env.orders[rows[i].orderId];
      && rows[i].evidence.authorizationId == o.evidence.authorizationId && rows[i].evidence.sessionId == o.evidence.sessionId
      && rows[i].evidence.signalId == o.evidence.signalId
      && exists r :: r in env.authority && LeaseCovers(r, o.paper.account, rows[i])
  {
    hide Replay;
    FilledUnderLease(env, rows, i);
    var r := FindAuthority(env.authority, rows[i].leaseId).value;
    assert LeaseCovers(r, env.orders[rows[i].orderId].paper.account, rows[i]);
    hide FindAuthority;
  }
}
