/** Replaying the fills of capitalized paper accounts against bars, capacity and cash:
    replayPaperAccountingStateWithCutoff and paperFillBars
    (services/core/paper_accounting.go:301-501, 584-620).

    What a fill must be bound to, the order's session, signal and authorization, is
    given with the order; how those records are proved is not part of this model.
  */
module PaperReplay {
  import opened Results
  import opened Exact
  import opened Fifo
  import opened PaperIntents
  import opened PaperFill
  import opened PaperAccount
  import opened Dispatch
  import A = ExecutionAuthority

  /** One market observation; its sequence is its position. */
  datatype Bar = Bar(id: string, series: string, open: Rat, volume: Rat, openAt: int, closeAt: int)

  datatype Session = Session(startingCash: Rat, policy: Policy, delay: int)

  /** The records a fill of an order names. */
  datatype Evidence = Evidence(authorizationId: string, sessionId: string, signalId: string)

  /** A capitalized order with the series and cutoff of its signal. */
  datatype Order = Order(paper: PaperOrder, series: string, cutoff: nat, evidence: Evidence)

  datatype Env = Env(bars: seq<Bar>, sessions: map<string, Session>, orders: map<string, Order>, authority: seq<A.Record>)

  /** A stored FILL_RECORDED event; `leaseId` and `token` name the lease it was made
      under. */
  datatype Row = Row(orderId: string, barId: string, occurredAt: int, quantity: int, reference: Rat, price: Rat, fee: Rat, tax: Rat, slippage: Rat,
                     evidence: Evidence, leaseId: string, token: int, recordedAt: int)

  /** Account, symbol and bar. */
  type BarKey = (string, string, string)

  datatype Books = Books(accounts: map<string, Account>, filled: map<string, int>, used: set<(string, string)>, consumed: map<BarKey, int>)

  /******* The bars an order may fill on *******/

  function InSeries(bars: seq<Bar>, series: string): seq<Bar> {
    if bars == [] then []
    else
      var last := bars[|bars| - 1];
      InSeries(bars[..|bars| - 1], series) + if last.series == series then [last] else []
  }

  /** paperFillBars: observations of the signal's series after its cutoff, the first
      `delay - 1` of them skipped. */
  function FillBars(bars: seq<Bar>, o: Order, delay: int): Option<seq<Bar>> {
    if delay <= 0 then None
    else
      var later := InSeries(if o.cutoff <= |bars| then bars[o.cutoff..] else [], o.series);
      Some(if delay - 1 <= |later| then later[delay - 1..] else [])
  }

  /******* One fill *******/

  ghost function Count<K>(m: map<K, int>, k: K): int {
    if k in m then m[k] else 0
  }

  function KeyFor(o: PaperOrder, bar: Bar): BarKey {
    (o.account, o.symbol, bar.id)
  }

  ghost function AskFor(b: Books, id: string, o: PaperOrder, bar: Bar): Ask
    requires o.account in b.accounts
  {
    var a := b.accounts[o.account];
    Ask(o.side, Val(bar.open), Val(bar.volume), o.quantity - Count(b.filled, id), a.cash, Held(a, o.symbol), Count(b.consumed, KeyFor(o, bar)))
  }

  /** The first bar the order has not used on which the policy fills something. */
  ghost function Pick(p: Policy, b: Books, id: string, o: PaperOrder, bars: seq<Bar>): Outcome<(Bar, Fill)>
    requires o.account in b.accounts
  {
    if bars == [] then NoFill
    else if (id, bars[0].id) in b.used then Pick(p, b, id, o, bars[1..])
    else
      match FillFor(p, AskFor(b, id, o, bars[0]))
      case Refused => Refused
      case NoFill => Pick(p, b, id, o, bars[1..])
      case Filled(f) => Filled((bars[0], f))
  }

  /** What the next fill of an order must be, whatever the log says. */
  ghost function Due(env: Env, b: Books, id: string): Outcome<(Bar, Fill)> {
    if id !in env.orders then Refused
    else
      var o := env.orders[id];
      if o.paper.account !in env.sessions || o.paper.account !in b.accounts then Refused
      else
        var session := env.sessions[o.paper.account];
        match FillBars(env.bars, o, session.delay)
        case None => Refused
        case Some(bars) => Pick(session.policy, b, id, o.paper, bars)
  }

  ghost predicate Matches(row: Row, bar: Bar, f: Fill) {
    && row.barId == bar.id && row.occurredAt == bar.openAt && row.quantity == f.quantity
    && Val(row.reference) == f.reference && Val(row.price) == f.price && Val(row.fee) == f.fee
    && Val(row.tax) == f.tax && Val(row.slippage) == f.slippage
  }

  /** validatePaperFillAuthority: the row was recorded during the lease it names. */
  predicate UnderLease(authority: seq<A.Record>, account: string, row: Row) {
    var r := FindAuthority(authority, row.leaseId);
    && r.Some? && r.value.account == account && r.value.armed && r.value.lease.Some? && r.value.lease.value.owner != ""
    && r.value.reason == A.LeaseAcquired && r.value.token == row.token && row.token > 0
    && r.value.recordedAt <= row.recordedAt < r.value.lease.value.expiresAt
  }

  /** The row names its order's evidence and a lease of its account. */
  predicate Provenanced(env: Env, row: Row) {
    && row.orderId in env.orders && row.evidence == env.orders[row.orderId].evidence
    && UnderLease(env.authority, env.orders[row.orderId].paper.account, row)
  }

  ghost function Book(b: Books, id: string, o: PaperOrder, bar: Bar, f: Fill): Option<Books>
    requires o.account in b.accounts
  {
    var a :- Apply(b.accounts[o.account], o.symbol, o.side, f);
    Some(Books(b.accounts[o.account := a], b.filled[id := Count(b.filled, id) + f.quantity], b.used + {(id, bar.id)},
      b.consumed[KeyFor(o, bar) := Count(b.consumed, KeyFor(o, bar)) + f.quantity]))
  }

  ghost function Step(env: Env, b: Books, row: Row): Option<Books> {
    match Due(env, b, row.orderId)
    case Refused => None
    case NoFill => None
    case Filled(due) =>
      if Provenanced(env, row) && Matches(row, due.0, due.1) then Book(b, row.orderId, env.orders[row.orderId].paper, due.0, due.1) else None
  }

  ghost function Start(env: Env): Books {
    Books(map a | a in env.sessions :: NewAccount(Val(env.sessions[a].startingCash)), map[], {}, map[])
  }

  /** The whole replay: every stored fill is recomputed and must agree. */
  ghost function Replay(env: Env, rows: seq<Row>): Option<Books> {
    if rows == [] then Some(Start(env))
    else
      var b :- Replay(env, rows[..|rows| - 1]);
      Step(env, b, rows[|rows| - 1])
  }

  /** Every fill of an accepted log was recorded during a lease of its account. */
  lemma {:induction false} FilledUnderLease(env: Env, rows: seq<Row>, i: nat)
    requires Replay(env, rows).Some? && i < |rows|
    ensures Provenanced(env, rows[i])
  {
    hide Due, Provenanced, Matches, Book;
    if i < |rows| - 1 {
      FilledUnderLease(env, rows[..|rows| - 1], i);
    }
  }

  /******* Determinism *******/

  ghost predicate SameRow(a: Row, b: Row) {
    && a.orderId == b.orderId && a.barId == b.barId && a.occurredAt == b.occurredAt && a.quantity == b.quantity
    && Val(a.reference) == Val(b.reference) && Val(a.price) == Val(b.price) && Val(a.fee) == Val(b.fee)
    && Val(a.tax) == Val(b.tax) && Val(a.slippage) == Val(b.slippage) && a.evidence == b.evidence
  }

  /** The fills are determined by the bars and the sequence of order ids: two accepted
      logs that fill the same orders in the same sequence are the same log, but for the
      leases their rows were recorded under. */
  lemma {:induction false} FillsAreDetermined(env: Env, rows: seq<Row>, others: seq<Row>)
    requires |rows| == |others| && forall i :: 0 <= i < |rows| ==> rows[i].orderId == others[i].orderId
    requires Replay(env, rows).Some? && Replay(env, others).Some?
    ensures Replay(env, rows) == Replay(env, others) && forall i :: 0 <= i < |rows| ==> SameRow(rows[i], others[i])
  {
    hide Step, SameRow;
    if rows != [] {
      var n := |rows| - 1;
      assert forall i :: 0 <= i < n ==> rows[..n][i].orderId == others[..n][i].orderId;
      FillsAreDetermined(env, rows[..n], others[..n]);
      StepDetermined(env, Replay(env, rows[..n]).value, rows[n], others[n]);
      forall i | 0 <= i < |rows|
        ensures SameRow(rows[i], others[i])
      {
        if i < n {
          assert SameRow(rows[..n][i], others[..n][i]);
        }
      }
    }
  }

  lemma StepDetermined(env: Env, b: Books, row: Row, other: Row)
    requires row.orderId == other.orderId && Step(env, b, row).Some? && Step(env, b, other).Some?
    ensures Step(env, b, row) == Step(env, b, other) && SameRow(row, other)
  {
    hide Due, Val, Book;
  }

  /******* Appended bars *******/

  lemma {:induction false} SeriesGrows(bars: seq<Bar>, more: seq<Bar>, series: string)
    ensures InSeries(bars, series) <= InSeries(bars + more, series)
  {
    if more == [] {
      assert bars + more == bars;
    } else {
      var n := |more| - 1;
      SeriesGrows(bars, more[..n], series);
      assert (bars + more)[..|bars + more| - 1] == bars + more[..n];
    }
  }

  lemma FillBarsGrow(bars: seq<Bar>, more: seq<Bar>, o: Order, delay: int)
    requires FillBars(bars, o, delay).Some?
    ensures FillBars(bars + more, o, delay).Some? && FillBars(bars, o, delay).value <= FillBars(bars + more, o, delay).value
  {
    var before := if o.cutoff <= |bars| then bars[o.cutoff..] else [];
    if o.cutoff <= |bars| {
      assert (bars + more)[o.cutoff..] == before + more;
      SeriesGrows(before, more, o.series);
    } else {
      assert InSeries(before, o.series) == [];
    }
  }

  lemma {:induction false} PickGrows(p: Policy, b: Books, id: string, o: PaperOrder, bars: seq<Bar>, longer: seq<Bar>)
    requires o.account in b.accounts && bars <= longer && Pick(p, b, id, o, bars).Filled?
    ensures Pick(p, b, id, o, longer) == Pick(p, b, id, o, bars)
  {
    hide FillFor, AskFor;
    if bars != [] {
      assert bars[1..] <= longer[1..];
      if (id, bars[0].id) in b.used || FillFor(p, AskFor(b, id, o, bars[0])).NoFill? {
        PickGrows(p, b, id, o, bars[1..], longer[1..]);
      }
    }
  }

  /** An accepted log stays accepted, with the same accounts, when bars are appended. */
  lemma {:induction false} StableUnderNewBars(env: Env, more: seq<Bar>, rows: seq<Row>)
    requires Replay(env, rows).Some?
    ensures Replay(env.(bars := env.bars + more), rows) == Replay(env, rows)
  {
    if rows != [] {
      StableUnderNewBars(env, more, rows[..|rows| - 1]);
      DueGrows(env, more, Replay(env, rows[..|rows| - 1]).value, rows[|rows| - 1].orderId);
    }
    hide Due, Book, Matches;
  }

  lemma DueGrows(env: Env, more: seq<Bar>, b: Books, id: string)
    requires Due(env, b, id).Filled?
    ensures Due(env.(bars := env.bars + more), b, id) == Due(env, b, id)
  {
    var o := env.orders[id];
    var delay := env.sessions[o.paper.account].delay;
    FillBarsGrow(env.bars, more, o, delay);
    PickGrows(env.sessions[o.paper.account].policy, b, id, o.paper, FillBars(env.bars, o, delay).value,
      FillBars(env.bars + more, o, delay).value);
    hide Pick, FillBars;
  }

  /******* Bars and capacity *******/

  lemma {:induction false} SeriesMembers(bars: seq<Bar>, series: string)
    ensures forall bar :: bar in InSeries(bars, series) ==> bar in bars
  {
    if bars != [] {
      SeriesMembers(bars[..|bars| - 1], series);
    }
  }

  /** What a due fill is: on a stored bar, not used by the order before, within what is
      left of order and bar. */
  lemma {:induction false} PickFacts(p: Policy, b: Books, id: string, o: PaperOrder, bars: seq<Bar>)
    requires o.account in b.accounts && Pick(p, b, id, o, bars).Filled?
    ensures var (bar, f) := Pick(p, b, id, o, bars).fill;
      bar in bars && (id, bar.id) !in b.used && FillFor(p, AskFor(b, id, o, bar)) == Filled(f)
  {
    hide FillFor, AskFor;
    if (id, bars[0].id) in b.used || FillFor(p, AskFor(b, id, o, bars[0])).NoFill? {
      PickFacts(p, b, id, o, bars[1..]);
    }
  }

  lemma DueFacts(env: Env, b: Books, id: string)
    requires Due(env, b, id).Filled?
    ensures var (bar, f) := Due(env, b, id).fill;
      && id in env.orders && env.orders[id].paper.account in env.sessions && env.orders[id].paper.account in b.accounts
      && bar in env.bars && (id, bar.id) !in b.used
      && FillFor(env.sessions[env.orders[id].paper.account].policy, AskFor(b, id, env.orders[id].paper, bar)) == Filled(f)
  {
    hide Pick, FillFor, AskFor, InSeries;
    var o := env.orders[id];
    var session := env.sessions[o.paper.account];
    var bars := FillBars(env.bars, o, session.delay).value;
    PickFacts(session.policy, b, id, o.paper, bars);
    FillBarsMembers(env.bars, o, session.delay);
    hide FillBars;
  }

  lemma FillBarsMembers(bars: seq<Bar>, o: Order, delay: int)
    requires FillBars(bars, o, delay).Some?
    ensures forall bar :: bar in FillBars(bars, o, delay).value ==> bar in bars
  {
    var later := if o.cutoff <= |bars| then bars[o.cutoff..] else [];
    SeriesMembers(later, o.series);
    hide InSeries;
    forall bar | bar in FillBars(bars, o, delay).value
      ensures bar in bars
    {
      assert bar in InSeries(later, o.series);
      assert bar in later;
    }
  }

  ghost predicate DistinctBars(bars: seq<Bar>) {
    forall a, b :: a in bars && b in bars && a.id == b.id ==> a == b
  }

  /** Quantity taken from a bar by an account's orders for a symbol. */
  ghost function TakenFrom(env: Env, rows: seq<Row>, key: BarKey): int {
    if rows == [] then 0
    else
      var row := rows[|rows| - 1];
      TakenFrom(env, rows[..|rows| - 1], key)
      + if row.orderId in env.orders && (env.orders[row.orderId].paper.account, env.orders[row.orderId].paper.symbol, row.barId) == key
        then row.quantity else 0
  }

  ghost function FilledOf(rows: seq<Row>, id: string): int {
    if rows == [] then 0
    else FilledOf(rows[..|rows| - 1], id) + if rows[|rows| - 1].orderId == id then rows[|rows| - 1].quantity else 0
  }

  /** What the maps of the loop hold. */
  ghost predicate Bookkept(env: Env, rows: seq<Row>, b: Books) {
    && (forall key :: Count(b.consumed, key) == TakenFrom(env, rows, key))
    && (forall id :: Count(b.filled, id) == FilledOf(rows, id))
    && (forall i :: 0 <= i < |rows| ==> (rows[i].orderId, rows[i].barId) in b.used)
  }

  /** The bar a row names exists, opened when the row says, and is not overdrawn. */
  ghost predicate WithinBar(env: Env, row: Row, account: string, taken: int)
    requires account in env.sessions
  {
    exists bar :: bar in env.bars && bar.id == row.barId && bar.openAt == row.occurredAt && NotOverdrawn(env, bar, account, taken)
  }

  ghost predicate NotOverdrawn(env: Env, bar: Bar, account: string, taken: int)
    requires account in env.sessions
  {
    taken <= Capacity(Val(bar.volume), Val(env.sessions[account].policy.participation))
  }

  lemma StepEffect(env: Env, b: Books, row: Row)
    requires Step(env, b, row).Some?
    ensures var after := Step(env, b, row).value;
      && row.orderId in env.orders && env.orders[row.orderId].paper.account in env.sessions
      && (var o := env.orders[row.orderId].paper;
         var key := (o.account, o.symbol, row.barId);
         && (row.orderId, row.barId) !in b.used && after.used == b.used + {(row.orderId, row.barId)}
         && after.consumed == b.consumed[key := Count(b.consumed, key) + row.quantity]
         && after.filled == b.filled[row.orderId := Count(b.filled, row.orderId) + row.quantity]
         && 0 < row.quantity <= o.quantity - Count(b.filled, row.orderId)
         && WithinBar(env, row, o.account, Count(after.consumed, key)))
  {
    hide FillFor, Due, Apply, Capacity, Val, Times;
    DueFacts(env, b, row.orderId);
    var (bar, f) := Due(env, b, row.orderId).fill;
    var o := env.orders[row.orderId].paper;
    FillBounds(env.sessions[o.account].policy, AskFor(b, row.orderId, o, bar));
    assert bar in env.bars;
    assert NotOverdrawn(env, bar, o.account, Count(b.consumed, KeyFor(o, bar)) + f.quantity);
  }

  lemma {:induction false} ReplayKeepsBooks(env: Env, rows: seq<Row>)
    requires Replay(env, rows).Some?
    ensures Bookkept(env, rows, Replay(env, rows).value)
  {
    hide Step, WithinBar;
    if rows != [] {
      var n, row := |rows| - 1, rows[|rows| - 1];
      ReplayKeepsBooks(env, rows[..n]);
      var b, after := Replay(env, rows[..n]).value, Replay(env, rows).value;
      StepEffect(env, b, row);
      forall key
        ensures Count(after.consumed, key) == TakenFrom(env, rows, key)
      {
        assert Count(b.consumed, key) == TakenFrom(env, rows[..n], key);
      }
      forall i | 0 <= i < |rows|
        ensures (rows[i].orderId, rows[i].barId) in after.used
      {
        if i < n {
          assert rows[..n][i] == rows[i];
        }
      }
      hide TakenFrom;
      forall id
        ensures Count(after.filled, id) == FilledOf(rows, id)
      {
        assert Count(b.filled, id) == FilledOf(rows[..n], id);
      }
    }
  }

  /** No order uses a bar twice. */
  lemma {:induction false} NoBarTwice(env: Env, rows: seq<Row>, i: nat, j: nat)
    requires Replay(env, rows).Some? && i < j < |rows| && rows[i].orderId == rows[j].orderId
    ensures rows[i].barId != rows[j].barId
  {
    hide Step;
    var n := |rows| - 1;
    if j < n {
      NoBarTwice(env, rows[..n], i, j);
    } else {
      ReplayKeepsBooks(env, rows[..n]);
      StepEffect(env, Replay(env, rows[..n]).value, rows[n]);
      assert rows[..n][i] == rows[i];
    }
  }

  /** No account takes more of a bar for a symbol than its share of the bar's volume, and
      no order is filled beyond its quantity. */
  lemma {:induction false} CapacityHeld(env: Env, rows: seq<Row>, bar: Bar, account: string, symbol: string)
    requires Replay(env, rows).Some? && DistinctBars(env.bars) && bar in env.bars && account in env.sessions
    ensures TakenFrom(env, rows, (account, symbol, bar.id)) == 0
      || TakenFrom(env, rows, (account, symbol, bar.id)) <= Capacity(Val(bar.volume), Val(env.sessions[account].policy.participation))
  {
    hide Step, Capacity;
    if rows != [] {
      var n, row := |rows| - 1, rows[|rows| - 1];
      CapacityHeld(env, rows[..n], bar, account, symbol);
      ReplayKeepsBooks(env, rows[..n]);
      StepEffect(env, Replay(env, rows[..n]).value, row);
    }
  }

  lemma {:induction false} OrdersNotOverfilled(env: Env, rows: seq<Row>, id: string)
    requires Replay(env, rows).Some?
    ensures FilledOf(rows, id) == 0 || (id in env.orders && FilledOf(rows, id) <= env.orders[id].paper.quantity)
  {
    hide Step;
    if rows != [] {
      var n := |rows| - 1;
      OrdersNotOverfilled(env, rows[..n], id);
      ReplayKeepsBooks(env, rows[..n]);
      StepEffect(env, Replay(env, rows[..n]).value, rows[n]);
    }
  }
}
