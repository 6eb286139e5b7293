/** Conservation over paper replays, the bounded replay, and the replay as a method. */
module PaperLaws {
  import opened Results
  import opened Exact
  import opened Sums
  import opened FifoLaws
  import opened OrderStore
  import opened PaperIntents
  import opened PaperFill
  import opened PaperAccount
  import opened PaperReplay
  import opened Dispatch
  import A = ExecutionAuthority
  import Fifo

  /******* Conservation *******/

  ghost predicate FinitePolicy(p: Policy) {
    Finite(Val(p.fee)) && Finite(Val(p.tax)) && Finite(Val(p.slippageBps))
  }

  /** Texts parsed as decimals are finite; a session starts with no debt. */
  ghost predicate ValidEnv(env: Env) {
    && (forall a :: a in env.sessions ==>
      Val(env.sessions[a].startingCash) >= 0.0 && Finite(Val(env.sessions[a].startingCash)) && FinitePolicy(env.sessions[a].policy))
    && (forall bar :: bar in env.bars ==> Finite(Val(bar.open)))
  }

  /** Every session has its account, sound, and worth its starting cash. */
  ghost predicate Balanced(env: Env, accounts: map<string, Account>) {
    accounts.Keys == env.sessions.Keys
    && forall a :: a in accounts ==> SoundAccount(accounts[a]) && Equity(accounts[a]) == Val(env.sessions[a].startingCash)
  }

  lemma StartBalanced(env: Env)
    requires ValidEnv(env)
    ensures Balanced(env, Start(env).accounts)
  {
    hide Finite, Val;
    FiniteInt(0);
    forall a | a in env.sessions
      ensures Equity(NewAccount(Val(env.sessions[a].startingCash))) == Val(env.sessions[a].startingCash)
    {
      assert OpenValues(NewAccount(Val(env.sessions[a].startingCash))) == map[];
    }
  }

  /** A due fill can always be booked: nothing but a wrong row is ever refused. */
  lemma DueIsBookable(env: Env, b: Books, id: string)
    requires ValidEnv(env) && Balanced(env, b.accounts) && Due(env, b, id).Filled?
    ensures id in env.orders && env.orders[id].paper.account in b.accounts
    ensures var (bar, f) := Due(env, b, id).fill;
      var booked := Book(b, id, env.orders[id].paper, bar, f);
      booked.Some? && Balanced(env, booked.value.accounts)
  {
    hide Due, FillFor, Apply, Finite, Val, SoundAccount, Equity, Fifo.Times;
    DueFacts(env, b, id);
    var (bar, f) := Due(env, b, id).fill;
    var o := env.orders[id].paper;
    CalculatedApplies(b.accounts[o.account], o.symbol, env.sessions[o.account].policy, AskFor(b, id, o, bar));
    ApplyConserves(b.accounts[o.account], o.symbol, o.side, f);
  }

  /** A row is accepted exactly when it is the fill that is due, with its provenance. */
  lemma StepAccepts(env: Env, b: Books, row: Row)
    requires ValidEnv(env) && Balanced(env, b.accounts)
    ensures Step(env, b, row).Some? <==>
      (Due(env, b, row.orderId).Filled? && Provenanced(env, row)
        && Matches(row, Due(env, b, row.orderId).fill.0, Due(env, b, row.orderId).fill.1))
    ensures Step(env, b, row).Some? ==> Balanced(env, Step(env, b, row).value.accounts)
  {
    hide Due, Matches, Provenanced, Book, Balanced, ValidEnv;
    if Due(env, b, row.orderId).Filled? {
      DueIsBookable(env, b, row.orderId);
    }
  }

  /** Conservation: over every accepted log, in every account, cash plus the cost of open
      lots minus realised PnL is the starting cash; cash never goes negative and every
      amount stays a finite decimal. */
  lemma {:induction false} PaperConservation(env: Env, rows: seq<Row>)
    requires ValidEnv(env) && Replay(env, rows).Some?
    ensures Balanced(env, Replay(env, rows).value.accounts)
  {
    hide Step, Balanced, ValidEnv;
    if rows == [] {
      StartBalanced(env);
    } else {
      PaperConservation(env, rows[..|rows| - 1]);
      StepAccepts(env, Replay(env, rows[..|rows| - 1]).value, rows[|rows| - 1]);
    }
  }

  /******* The bounded replay *******/

  /** A cutoff keeps the first `kept` fills, and of those the ones whose bar has closed
      by `asOf`. */
  datatype Cutoff = Cutoff(kept: nat, asOf: int)

  ghost function BoundedStep(b: Books, bounded: map<string, Account>, id: string, o: PaperOrder, bar: Bar, f: Fill, keep: bool)
    : Option<map<string, Account>>
  {
    if !keep then Some(bounded)
    else if o.account !in bounded then None
    else
      var a :- Apply(bounded[o.account], o.symbol, o.side, f);
      Some(bounded[o.account := a])
  }

  ghost predicate Keeps(c: Cutoff, index: nat, bar: Bar) {
    index < c.kept && bar.closeAt <= c.asOf
  }

  /** The bounded accounts, kept beside the full replay. */
  ghost function Bounded(env: Env, rows: seq<Row>, c: Cutoff): Option<map<string, Account>>
    requires Replay(env, rows).Some?
  {
    if rows == [] then Some(Start(env).accounts)
    else
      var n := |rows| - 1;
      var before :- Bounded(env, rows[..n], c);
      var b, row := Replay(env, rows[..n]).value, rows[n];
      var (bar, f) := Due(env, b, row.orderId).fill;
      BoundedStep(b, before, row.orderId, env.orders[row.orderId].paper, bar, f, Keeps(c, n, bar))
  }

  /** The bar a row was filled on. */
  ghost function BarOf(env: Env, rows: seq<Row>, i: nat): Bar
    requires i < |rows| && Replay(env, rows[..i]).Some? && Due(env, Replay(env, rows[..i]).value, rows[i].orderId).Filled?
  {
    Due(env, Replay(env, rows[..i]).value, rows[i].orderId).fill.0
  }

  lemma {:induction false} PrefixReplays(env: Env, rows: seq<Row>, i: nat)
    requires Replay(env, rows).Some? && i <= |rows|
    ensures Replay(env, rows[..i]).Some?
    ensures i < |rows| ==> Due(env, Replay(env, rows[..i]).value, rows[i].orderId).Filled?
  {
    hide Due, Book, Matches;
    var n := |rows| - 1;
    if i < n {
      PrefixReplays(env, rows[..n], i);
      assert rows[..n][..i] == rows[..i] && rows[..n][i] == rows[i];
    } else if i == |rows| {
      assert rows[..i] == rows;
    }
  }

  ghost predicate AllClosed(env: Env, rows: seq<Row>, c: Cutoff)
    requires Replay(env, rows).Some?
  {
    forall i :: 0 <= i < c.kept && i < |rows| ==> ClosedAt(env, rows, c, i)
  }

  ghost predicate ClosedAt(env: Env, rows: seq<Row>, c: Cutoff, i: nat)
    requires Replay(env, rows).Some? && i < |rows|
  {
    PrefixReplays(env, rows, i);
    BarOf(env, rows, i).closeAt <= c.asOf
  }

  /** Fills booked in all accounts together. */
  ghost function BookedFills(accounts: map<string, Account>): real {
    Total(FillCounts(accounts))
  }

  ghost function FillCounts(accounts: map<string, Account>): map<string, real> {
    map a | a in accounts :: accounts[a].fills as real
  }

  lemma OneMoreBooked(accounts: map<string, Account>, account: string, a: Account)
    requires account in accounts && a.fills == accounts[account].fills + 1
    ensures BookedFills(accounts[account := a]) == BookedFills(accounts) + 1.0
  {
    TotalUpdate(FillCounts(accounts), account, a.fills as real);
    assert FillCounts(accounts[account := a]) == FillCounts(accounts)[account := a.fills as real];
  }

  lemma ApplyCounts(a: Account, symbol: string, side: Side, f: Fill)
    requires Apply(a, symbol, side, f).Some?
    ensures Apply(a, symbol, side, f).value.fills == a.fills + 1
  {
    hide Fifo.SellFrom;
  }

  lemma StepBooks(env: Env, b: Books, row: Row)
    requires Step(env, b, row).Some?
    ensures Due(env, b, row.orderId).Filled? && row.orderId in env.orders
    ensures var (bar, f) := Due(env, b, row.orderId).fill;
      var o := env.orders[row.orderId].paper;
      && o.account in b.accounts && Apply(b.accounts[o.account], o.symbol, o.side, f).Some?
      && Step(env, b, row).value.accounts == b.accounts[o.account := Apply(b.accounts[o.account], o.symbol, o.side, f).value]
  {
    DueFacts(env, b, row.orderId);
    hide Due, Apply, Matches;
  }

  /** The full replay books one fill per row. */
  lemma {:induction false} ReplayBooks(env: Env, rows: seq<Row>)
    requires Replay(env, rows).Some?
    ensures BookedFills(Replay(env, rows).value.accounts) == BookedFills(Start(env).accounts) + |rows| as real
  {
    hide Step, BookedFills, Due, Apply;
    if rows != [] {
      var n, row := |rows| - 1, rows[|rows| - 1];
      ReplayBooks(env, rows[..n]);
      var b := Replay(env, rows[..n]).value;
      StepBooks(env, b, row);
      var (bar, f) := Due(env, b, row.orderId).fill;
      var o := env.orders[row.orderId].paper;
      ApplyCounts(b.accounts[o.account], o.symbol, o.side, f);
      OneMoreBooked(b.accounts, o.account, Apply(b.accounts[o.account], o.symbol, o.side, f).value);
    }
  }

  ghost function KeptRows(rows: seq<Row>, c: Cutoff): nat {
    if c.kept < |rows| then c.kept else |rows|
  }

  lemma FewerClosed(env: Env, rows: seq<Row>, c: Cutoff)
    requires rows != [] && Replay(env, rows).Some?
    ensures var n := |rows| - 1;
      && Replay(env, rows[..n]).Some? && Due(env, Replay(env, rows[..n]).value, rows[n].orderId).Filled?
      && (AllClosed(env, rows, c) <==> AllClosed(env, rows[..n], c) && (n < c.kept ==> BarOf(env, rows, n).closeAt <= c.asOf))
  {
    hide Replay, Due;
    var n := |rows| - 1;
    PrefixReplays(env, rows, n);
    forall i | 0 <= i < n
      ensures Replay(env, rows[..n]).Some? && ClosedAt(env, rows[..n], c, i) == ClosedAt(env, rows, c, i)
    {
      assert rows[..n][..i] == rows[..i] && rows[..n][i] == rows[i];
    }
    assert n < c.kept && AllClosed(env, rows, c) ==> ClosedAt(env, rows, c, n);
  }

  /** Bounded accounts hold one fill per kept row whose bar has closed: as many as the
      truncated replay exactly when all kept bars have, and then they are its accounts. */
  lemma {:induction false} BoundedBooks(env: Env, rows: seq<Row>, c: Cutoff)
    requires Replay(env, rows).Some? && Bounded(env, rows, c).Some?
    ensures Replay(env, rows[..KeptRows(rows, c)]).Some?
    ensures var full := BookedFills(Start(env).accounts) + KeptRows(rows, c) as real;
      && BookedFills(Bounded(env, rows, c).value) <= full
      && (BookedFills(Bounded(env, rows, c).value) == full <==> AllClosed(env, rows, c))
    ensures AllClosed(env, rows, c) ==> Bounded(env, rows, c).value == Replay(env, rows[..KeptRows(rows, c)]).value.accounts
  {
    hide BookedFills, Due, Apply, AllClosed, Step;
    PrefixReplays(env, rows, KeptRows(rows, c));
    if rows != [] {
      FewerClosed(env, rows, c);
      BoundedBooks(env, rows[..|rows| - 1], c);
      BoundedRow(env, rows, c);
    } else {
      NothingOpen(env, c);
    }
  }

  lemma NothingOpen(env: Env, c: Cutoff)
    ensures Replay(env, []).Some? && AllClosed(env, [], c)
  {}

  /** One row more in the bounded replay. */
  lemma BoundedRow(env: Env, rows: seq<Row>, c: Cutoff)
    requires rows != [] && Replay(env, rows).Some? && Bounded(env, rows, c).Some?
    requires var n := |rows| - 1;
      && Replay(env, rows[..n]).Some? && Due(env, Replay(env, rows[..n]).value, rows[n].orderId).Filled?
      && Bounded(env, rows[..n], c).Some?
    ensures var n := |rows| - 1;
      var before, after := Bounded(env, rows[..n], c).value, Bounded(env, rows, c).value;
      && (n >= c.kept ==> after == before && rows[..KeptRows(rows, c)] == rows[..n][..KeptRows(rows[..n], c)])
      && (n < c.kept ==> rows[..KeptRows(rows, c)] == rows && rows[..n][..KeptRows(rows[..n], c)] == rows[..n])
      && (n < c.kept && BarOf(env, rows, n).closeAt > c.asOf ==> after == before)
      && (n < c.kept && BarOf(env, rows, n).closeAt <= c.asOf ==>
        && BookedFills(after) == BookedFills(before) + 1.0
        && (before == Replay(env, rows[..n]).value.accounts ==> after == Replay(env, rows).value.accounts))
  {
    hide BookedFills, Due, Apply;
    var n := |rows| - 1;
    var b := Replay(env, rows[..n]).value;
    StepBooks(env, b, rows[n]);
    var (bar, f) := Due(env, b, rows[n].orderId).fill;
    var o := env.orders[rows[n].orderId].paper;
    var before := Bounded(env, rows[..n], c).value;
    if Keeps(c, n, bar) {
      ApplyCounts(before[o.account], o.symbol, o.side, f);
      OneMoreBooked(before, o.account, Apply(before[o.account], o.symbol, o.side, f).value);
    }
    hide Step;
  }

  /** When the bar of every kept fill has closed, no bounded booking is refused. */
  lemma {:induction false} ClosedBooks(env: Env, rows: seq<Row>, c: Cutoff)
    requires Replay(env, rows).Some? && AllClosed(env, rows, c)
    ensures Bounded(env, rows, c).Some?
  {
    hide Due, Apply, AllClosed, Step, BookedFills;
    if rows != [] {
      var n := |rows| - 1;
      FewerClosed(env, rows, c);
      ClosedBooks(env, rows[..n], c);
      BoundedBooks(env, rows[..n], c);
      StepBooks(env, Replay(env, rows[..n]).value, rows[n]);
      if n < c.kept {
        assert rows[..n][..KeptRows(rows[..n], c)] == rows[..n];
      }
    }
  }

  /** The bounded replay succeeds and is the full replay of the truncated log exactly
      when the bar of every kept fill closes by the cutoff's time. */
  lemma BoundedIsTruncated(env: Env, rows: seq<Row>, c: Cutoff)
    requires Replay(env, rows).Some?
    ensures var truncated := rows[..KeptRows(rows, c)];
      && Replay(env, truncated).Some?
      && (AllClosed(env, rows, c) <==>
        Bounded(env, rows, c).Some? && Bounded(env, rows, c).value == Replay(env, truncated).value.accounts)
  {
    hide BookedFills, AllClosed, Replay, Bounded;
    PrefixReplays(env, rows, KeptRows(rows, c));
    if AllClosed(env, rows, c) {
      ClosedBooks(env, rows, c);
    }
    if Bounded(env, rows, c).Some? {
      BoundedBooks(env, rows, c);
      ReplayBooks(env, rows[..KeptRows(rows, c)]);
    }
  }

  /******* A bar that closes too late *******/

  /** One share bought at 10 out of 100, on the only bar, which closes at 100. */
  const LATE_BAR := Bar("bar", "series", FromInt(10), FromInt(5), 0, 100)
  const FREE := Policy(FromInt(0), FromInt(0), FromInt(0), FromInt(1))
  const LATE_ORDER := PaperOrder("account", "005930", Buy, 1, 1)
  const EVIDENCE := Evidence("authorization", "session", "signal")
  const LEASE := A.LeaseRecord("account", "owner", 2, "lease", 0)
  const LATE_ENV :=
    Env([LATE_BAR], map["account" := Session(FromInt(100), FREE, 1)], map["order" := Order(LATE_ORDER, "series", 0, EVIDENCE)], [LEASE])
  const LATE_ROW := Row("order", "bar", 0, 1, FromInt(10), FromInt(10), FromInt(0), FromInt(0), FromInt(0), EVIDENCE, "lease", 2, 1)

  /** The log is accepted; a cutoff at 50 keeps its row but not its fill, so the bounded
      replay is not that of the truncated log. */
  lemma LateBarDiffers()
    ensures Replay(LATE_ENV, [LATE_ROW]).Some?
    ensures var c := Cutoff(1, 50);
      && !AllClosed(LATE_ENV, [LATE_ROW], c) && KeptRows([LATE_ROW], c) == 1
      && Bounded(LATE_ENV, [LATE_ROW], c) == Some(Start(LATE_ENV).accounts)
      && Bounded(LATE_ENV, [LATE_ROW], c).value != Replay(LATE_ENV, [LATE_ROW]).value.accounts
  {
    var rows, c := [LATE_ROW], Cutoff(1, 50);
    assert rows[..0] == [] && rows[..1] == rows;
    LateFill();
    LateStep();
    hide Due, Step, Apply, FillFor;
    assert Replay(LATE_ENV, rows).Some?;
    assert ClosedAt(LATE_ENV, rows, c, 0) <==> LATE_BAR.closeAt <= 50;
    BoundedIsTruncated(LATE_ENV, rows, c);
  }

  lemma LateFill()
    ensures FillFor(FREE, Ask(Buy, 10.0, 5.0, 1, 100.0, 0.0, 0)) == Filled(Fill(1, 10.0, 10.0, 10.0, 0.0, 0.0, 0.0, -10.0))
  {
    hide Val;
    assert (100.0 - 0.0) / 10.0 == 10.0;
  }

  lemma LateStep()
    requires FillFor(FREE, Ask(Buy, 10.0, 5.0, 1, 100.0, 0.0, 0)) == Filled(Fill(1, 10.0, 10.0, 10.0, 0.0, 0.0, 0.0, -10.0))
    ensures var b := Start(LATE_ENV);
      && Due(LATE_ENV, b, "order") == Filled((LATE_BAR, Fill(1, 10.0, 10.0, 10.0, 0.0, 0.0, 0.0, -10.0)))
      && Step(LATE_ENV, b, LATE_ROW).Some?
  {
    hide Val, FillFor;
    var b, f := Start(LATE_ENV), Fill(1, 10.0, 10.0, 10.0, 0.0, 0.0, 0.0, -10.0);
    assert b.accounts["account"] == NewAccount(100.0);
    NoLots();
    assert AskFor(b, "order", LATE_ORDER, LATE_BAR) == Ask(Buy, 10.0, 5.0, 1, 100.0, 0.0, 0);
    assert LATE_ENV.bars[0..] == [LATE_BAR] && [LATE_BAR][..0] == [];
    assert InSeries([LATE_BAR], "series") == [LATE_BAR];
    assert [LATE_BAR][0..] == [LATE_BAR];
    assert Pick(FREE, b, "order", LATE_ORDER, [LATE_BAR]) == Filled((LATE_BAR, f));
    assert FindAuthority([LEASE], "lease") == Some(LEASE);
    assert Provenanced(LATE_ENV, LATE_ROW) && Matches(LATE_ROW, LATE_BAR, f);
    assert Apply(b.accounts["account"], "005930", Buy, f).Some?;
  }

  /******* The replay as it runs *******/

  ghost predicate SameAccounts(m: map<string, RatAccount>, spec: map<string, Account>) {
    m.Keys == spec.Keys && forall a :: a in m ==> SameAccount(m[a], spec[a])
  }

  function CountOf<K>(m: map<K, int>, k: K): (n: int)
    ensures n == Count(m, k)
  {
    if k in m then m[k] else 0
  }

  /** NewAccount for every session. */
  method OpenAccounts(env: Env) returns (accounts: map<string, RatAccount>)
    ensures SameAccounts(accounts, Start(env).accounts)
  {
    hide Val;
    accounts := map a | a in env.sessions ::
      RatAccount(env.sessions[a].startingCash, FromInt(0), FromInt(0), FromInt(0), FromInt(0), map[], 0);
  }

  /** The candidate loop: the first unused bar on which something fills. */
  method PickFill(p: Policy, id: string, o: PaperOrder, a: RatAccount, filled: map<string, int>, used: set<(string, string)>,
                  consumed: map<BarKey, int>, bars: seq<Bar>, ghost b: Books) returns (r: Outcome<(Bar, RatFill)>)
    requires o.account in b.accounts && SameAccount(a, b.accounts[o.account])
    requires filled == b.filled && used == b.used && consumed == b.consumed
    ensures match r
      case Refused => Pick(p, b, id, o, bars) == Refused
      case NoFill => Pick(p, b, id, o, bars) == NoFill
      case Filled(x) => Pick(p, b, id, o, bars) == Filled((x.0, View(x.1)))
  {
    hide Val, FillFor, Held;
    var remaining := o.quantity - CountOf(filled, id);
    var position := PositionQuantity(a, o.symbol, b.accounts[o.account]);
    for i := 0 to |bars|
      invariant Pick(p, b, id, o, bars) == Pick(p, b, id, o, bars[i..])
    {
      assert bars[i..][1..] == bars[i + 1..];
      if (id, bars[i].id) !in used {
        var input := Input(o.side, bars[i].open, bars[i].volume, remaining, a.cash, position, CountOf(consumed, KeyFor(o, bars[i])));
        var outcome := CalculateFill(p, input);
        assert AskOf(input) == AskFor(b, id, o, bars[i]);
        match outcome {
          case Refused => return Refused;
          case NoFill =>
          case Filled(f) => return Filled((bars[i], f));
        }
      }
    }
    r := NoFill;
  }

  function RowAgrees(row: Row, bar: Bar, f: RatFill): (b: bool)
    ensures b <==> Matches(row, bar, View(f))
  {
    hide Val;
    && row.barId == bar.id && row.occurredAt == bar.openAt && row.quantity == f.quantity && Cmp(row.reference, f.reference) == 0
    && Cmp(row.price, f.price) == 0 && Cmp(row.fee, f.fee) == 0 && Cmp(row.tax, f.tax) == 0 && Cmp(row.slippage, f.slippage) == 0
  }

  /** The maps of the loop. */
  datatype Progress = Progress(accounts: map<string, RatAccount>, filled: map<string, int>, used: set<(string, string)>,
                               consumed: map<BarKey, int>)

  ghost predicate SameProgress(p: Progress, b: Books) {
    SameAccounts(p.accounts, b.accounts) && p.filled == b.filled && p.used == b.used && p.consumed == b.consumed
  }

  /** What the policy makes of the next fill of an order. */
  method DueFill(env: Env, p: Progress, id: string, ghost b: Books) returns (r: Outcome<(Bar, RatFill)>)
    requires SameProgress(p, b)
    ensures match r
      case Refused => Due(env, b, id) == Refused
      case NoFill => Due(env, b, id) == NoFill
      case Filled(x) => Due(env, b, id) == Filled((x.0, View(x.1)))
  {
    hide Pick, FillBars, SameAccount, View;
    if id !in env.orders || env.orders[id].paper.account !in env.sessions || env.orders[id].paper.account !in p.accounts {
      return Refused;
    }
    var order := env.orders[id];
    var o, session := order.paper, env.sessions[order.paper.account];
    var bars := FillBars(env.bars, order, session.delay);
    if bars.None? {
      return Refused;
    }
    r := PickFill(session.policy, id, o, p.accounts[o.account], p.filled, p.used, p.consumed, bars.value, b);
  }

  /** The loop body for the full replay. */
  method ReplayRow(env: Env, p: Progress, row: Row, ghost b: Books) returns (next: Option<(Progress, Bar, RatFill)>)
    requires SameProgress(p, b)
    ensures next.Some? <==> Step(env, b, row).Some?
    ensures next.Some? ==> SameProgress(next.value.0, Step(env, b, row).value)
    ensures next.Some? ==> Due(env, b, row.orderId) == Filled((next.value.1, View(next.value.2)))
  {
    hide Due, Apply, SameAccount, View, Matches, Provenanced;
    var picked := DueFill(env, p, row.orderId, b);
    if !picked.Filled? || !Provenanced(env, row) || !RowAgrees(row, picked.fill.0, picked.fill.1) {
      return None;
    }
    DueFacts(env, b, row.orderId);
    var bar, fill, o := picked.fill.0, picked.fill.1, env.orders[row.orderId].paper;
    FillQuantity(fill);
    var booked := ApplyFill(p.accounts[o.account], o.symbol, o.side, fill, b.accounts[o.account]);
    if booked.None? {
      return None;
    }
    next := Some((Progress(p.accounts[o.account := booked.value],
      p.filled[row.orderId := CountOf(p.filled, row.orderId) + fill.quantity], p.used + {(row.orderId, bar.id)},
      p.consumed[KeyFor(o, bar) := CountOf(p.consumed, KeyFor(o, bar)) + fill.quantity]), bar, fill));
  }

  lemma FillQuantity(f: RatFill)
    ensures View(f).quantity == f.quantity
  {}

  /** The loop body for the bounded replay. */
  method KeepRow(o: PaperOrder, bounded: map<string, RatAccount>, id: string, bar: Bar, fill: RatFill, keep: bool, ghost b: Books,
                 ghost spec: map<string, Account>) returns (next: Option<map<string, RatAccount>>)
    requires SameAccounts(bounded, spec)
    ensures next.Some? <==> BoundedStep(b, spec, id, o, bar, View(fill), keep).Some?
    ensures next.Some? ==> SameAccounts(next.value, BoundedStep(b, spec, id, o, bar, View(fill), keep).value)
  {
    hide Apply, SameAccount, View;
    if !keep {
      return Some(bounded);
    }
    if o.account !in bounded {
      return None;
    }
    var kept := ApplyFill(bounded[o.account], o.symbol, o.side, fill, spec[o.account]);
    next := if kept.None? then None else Some(bounded[o.account := kept.value]);
  }

  function PaperOrders(env: Env): map<string, PaperOrder> {
    map id | id in env.orders :: env.orders[id].paper
  }

  /** replayPaperAccountingStateWithCutoff: the check of targets and orders, then one pass
      that rebuilds the accounts, and with a cutoff the bounded accounts beside them. */
  method ReplayPaper(env: Env, log: seq<LogRow>, rows: seq<Row>, c: Cutoff)
    returns (ok: bool, accounts: map<string, RatAccount>, bounded: map<string, RatAccount>)
    requires forall id :: id in env.orders ==> env.orders[id].paper.quantity > 0
    ensures ok <==> Validated(PaperOrders(env), log, true).Some? && Replay(env, rows).Some? && Bounded(env, rows, c).Some?
    ensures ok ==> SameAccounts(accounts, Replay(env, rows).value.accounts) && SameAccounts(bounded, Bounded(env, rows, c).value)
  {
    hide Step, Due, BoundedStep, SameAccounts, View;
    accounts := OpenAccounts(env);
    var p := Progress(accounts, map[], {}, map[]);
    bounded, ok := accounts, false;
    var deltas := ValidateDeltas(PaperOrders(env), log);
    if deltas.Err? {
      return;
    }
    for n := 0 to |rows|
      invariant Replay(env, rows[..n]).Some? && Bounded(env, rows[..n], c).Some?
      invariant SameProgress(p, Replay(env, rows[..n]).value) && SameAccounts(bounded, Bounded(env, rows[..n], c).value)
    {
      ghost var b, before := Replay(env, rows[..n]).value, Bounded(env, rows[..n], c).value;
      assert rows[..n + 1][..n] == rows[..n] && rows[..n + 1][n] == rows[n];
      var next := ReplayRow(env, p, rows[n], b);
      if next.None? {
        ReplayStops(env, rows, n + 1);
        return;
      }
      DueFacts(env, b, rows[n].orderId);
      var bar, fill := next.value.1, next.value.2;
      var kept := KeepRow(env.orders[rows[n].orderId].paper, bounded, rows[n].orderId, bar, fill, n < c.kept && bar.closeAt <= c.asOf, b, before);
      if kept.None? {
        BoundedStops(env, rows, n + 1, c);
        return;
      }
      p, bounded := next.value.0, kept.value;
    }
    assert rows[..|rows|] == rows;
    accounts, ok := p.accounts, true;
  }

  lemma {:induction false} ReplayStops(env: Env, rows: seq<Row>, n: nat)
    requires n <= |rows| && Replay(env, rows[..n]).None?
    ensures Replay(env, rows).None?
    decreases |rows| - n
  {
    hide Step;
    if n == |rows| {
      assert rows[..n] == rows;
    } else {
      assert rows[..n + 1][..n] == rows[..n];
      ReplayStops(env, rows, n + 1);
    }
  }

  lemma {:induction false} BoundedStops(env: Env, rows: seq<Row>, n: nat, c: Cutoff)
    requires n <= |rows| && Replay(env, rows[..n]).Some? && Bounded(env, rows[..n], c).None?
    ensures Replay(env, rows).Some? ==> Bounded(env, rows, c).None?
    decreases |rows| - n
  {
    hide Step, Due;
    if n == |rows| {
      assert rows[..n] == rows;
    } else if Replay(env, rows).Some? {
      PrefixReplays(env, rows, n + 1);
      assert rows[..n + 1][..n] == rows[..n];
      BoundedStops(env, rows, n + 1, c);
    }
  }
}
