/** Which rows the target check of paper accounts takes next, told from the rows before
    (services/core/paper_accounting.go:503-582).
  */
module PaperTargets {
  import opened OrderStore
  import opened PaperIntents

  /** What the fills of an account and symbol add up to. */
  function Position(orders: map<string, PaperOrder>, rows: seq<LogRow>, account: string, symbol: string): int {
    if rows == [] then 0
    else
      var before, row := Position(orders, rows[..|rows| - 1], account, symbol), rows[|rows| - 1];
      if row.kind.FillRow? && row.orderId in orders && orders[row.orderId].account == account && orders[row.orderId].symbol == symbol
      then if orders[row.orderId].side == Buy then before + row.kind.quantity else before - row.kind.quantity
      else before
  }

  /** What the fills of an order add up to. */
  function FilledOf(rows: seq<LogRow>, id: string): int {
    if rows == [] then 0
    else
      var row := rows[|rows| - 1];
      FilledOf(rows[..|rows| - 1], id) + if row.kind.FillRow? && row.orderId == id then row.kind.quantity else 0
  }

  predicate Announced(rows: seq<LogRow>, id: string) {
    exists i :: 0 <= i < |rows| && rows[i].kind.IntentRow? && rows[i].orderId == id
  }

  /** An order of the account and symbol is announced and not yet filled. */
  predicate Open(orders: map<string, PaperOrder>, rows: seq<LogRow>, id: string, account: string, symbol: string) {
    && Announced(rows, id) && id in orders && orders[id].account == account && orders[id].symbol == symbol
    && FilledOf(rows, id) < orders[id].quantity
  }

  predicate NoneOpen(orders: map<string, PaperOrder>, rows: seq<LogRow>, account: string, symbol: string) {
    forall id :: id in orders ==> !Open(orders, rows, id, account, symbol)
  }

  /** An order may be announced when no other one is open for its account and symbol and
      it makes up the difference to its target; a fill may follow its announcement, within
      the order and without selling more than is held. */
  predicate MayFollow(orders: map<string, PaperOrder>, rows: seq<LogRow>, row: LogRow) {
    row.orderId in orders
    && (var o := orders[row.orderId];
        var held := Position(orders, rows, o.account, o.symbol);
        match row.kind
        case OtherRow => true
        case IntentRow =>
          && NoneOpen(orders, rows, o.account, o.symbol) && o.quantity > 0
          && o.target == (if o.side == Buy then held + o.quantity else held - o.quantity)
        case FillRow(quantity) =>
          && Announced(rows, row.orderId) && FilledOf(rows, row.orderId) + quantity <= o.quantity
          && (o.side == Sell ==> held >= quantity))
  }

  /** The maps of the loop say what the rows say. */
  ghost predicate Says(orders: map<string, PaperOrder>, rows: seq<LogRow>, s: Deltas) {
    && (forall account, symbol :: PositionAt(s, (account, symbol)) == Position(orders, rows, account, symbol))
    && (forall id :: id in s.filled <==> Announced(rows, id)) && (forall id :: id in s.filled ==> s.filled[id] == FilledOf(rows, id))
    && (forall id :: id !in s.filled ==> FilledOf(rows, id) == 0)
  }

  lemma AnnouncedNext(rows: seq<LogRow>, row: LogRow, id: string)
    ensures Announced(rows + [row], id) <==> Announced(rows, id) || (row.kind.IntentRow? && row.orderId == id)
  {
    if i :| 0 <= i < |rows| && rows[i].kind.IntentRow? && rows[i].orderId == id {
      assert (rows + [row])[i] == rows[i];
    }
    assert (rows + [row])[|rows|] == row;
  }

  lemma SumsNext(orders: map<string, PaperOrder>, rows: seq<LogRow>, row: LogRow, id: string, account: string, symbol: string)
    ensures FilledOf(rows + [row], id) == FilledOf(rows, id) + if row.kind.FillRow? && row.orderId == id then row.kind.quantity else 0
    ensures Position(orders, rows + [row], account, symbol) == Position(orders, rows, account, symbol)
      + if row.kind.FillRow? && row.orderId in orders && KeyOf(orders[row.orderId]) == (account, symbol)
        then Signed(orders[row.orderId].side, row.kind.quantity) else 0
  {
    assert (rows + [row])[..|rows|] == rows;
  }

  lemma SaysNext(orders: map<string, PaperOrder>, rows: seq<LogRow>, row: LogRow, s: Deltas)
    requires Says(orders, rows, s) && RowStep(orders, s, row, true).Some? && (row.kind.IntentRow? ==> row.orderId !in s.filled)
    ensures Says(orders, rows + [row], RowStep(orders, s, row, true).value)
  {
    var after := RowStep(orders, s, row, true).value;
    forall account, symbol
      ensures PositionAt(after, (account, symbol)) == Position(orders, rows + [row], account, symbol)
    {
      SumsNext(orders, rows, row, "", account, symbol);
    }
    forall id
      ensures id in after.filled <==> Announced(rows + [row], id)
      ensures FilledOf(rows + [row], id) == if id in after.filled then after.filled[id] else 0
    {
      AnnouncedNext(rows, row, id);
      SumsNext(orders, rows, row, id, "", "");
    }
    hide Announced, FilledOf, Position;
  }

  /** The active orders are the open ones. */
  lemma ActiveIsOpen(orders: map<string, PaperOrder>, rows: seq<LogRow>, s: Deltas, account: string, symbol: string)
    requires Says(orders, rows, s) && Tracks(orders, s)
    ensures (account, symbol) in s.active <==> !NoneOpen(orders, rows, account, symbol)
  {
    hide Announced, FilledOf, Position;
    if (account, symbol) in s.active {
      var id := s.active[(account, symbol)];
      assert ActiveAt(orders, s, (account, symbol), id);
      assert Open(orders, rows, id, account, symbol);
    }
    if id :| id in orders && Open(orders, rows, id, account, symbol) {
      assert Unfinished(orders, s, id);
    }
  }

  lemma StepTold(orders: map<string, PaperOrder>, rows: seq<LogRow>, row: LogRow, s: Deltas)
    requires Says(orders, rows, s) && Tracks(orders, s)
    ensures RowStep(orders, s, row, true).Some? <==> MayFollow(orders, rows, row)
  {
    if row.orderId in orders {
      ActiveIsOpen(orders, rows, s, orders[row.orderId].account, orders[row.orderId].symbol);
    }
    hide Announced, FilledOf, Position, NoneOpen, Tracks;
  }

  lemma {:induction false} RowsSay(orders: map<string, PaperOrder>, rows: seq<LogRow>)
    requires FreshIntents(rows) && Validated(orders, rows, true).Some?
    ensures Says(orders, rows, Validated(orders, rows, true).value)
  {
    hide RowStep, Says, Position, FilledOf;
    if rows == [] {
      NothingSaid(orders);
    } else {
      var n := |rows| - 1;
      FewerRows(rows, n);
      RowsSay(orders, rows[..n]);
      assert rows == rows[..n] + [rows[n]];
      if rows[n].kind.IntentRow? && rows[n].orderId in Validated(orders, rows[..n], true).value.filled {
        FilledAreAnnounced(orders, rows[..n], true, rows[n].orderId);
      }
      SaysNext(orders, rows[..n], rows[n], Validated(orders, rows[..n], true).value);
    }
  }

  lemma NothingSaid(orders: map<string, PaperOrder>)
    ensures Says(orders, [], PaperIntents.START)
  {}

  /** A log is accepted exactly when each of its rows may follow those before it. */
  lemma {:induction false} AcceptedExactly(orders: map<string, PaperOrder>, rows: seq<LogRow>)
    requires FreshIntents(rows)
    ensures Validated(orders, rows, true).Some? <==> forall i :: 0 <= i < |rows| ==> MayFollow(orders, rows[..i], rows[i])
  {
    hide MayFollow, RowStep, FreshIntents;
    if rows != [] {
      var n := |rows| - 1;
      FewerRows(rows, n);
      AcceptedExactly(orders, rows[..n]);
      assert forall i :: 0 <= i < n ==> rows[..n][..i] == rows[..i] && rows[..n][i] == rows[i];
      if Validated(orders, rows[..n], true).Some? {
        RowsSay(orders, rows[..n]);
        ValidatedTracks(orders, rows[..n], true);
        StepTold(orders, rows[..n], rows[n], Validated(orders, rows[..n], true).value);
      }
    }
  }
}
