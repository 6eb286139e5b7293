/** Targets, orders and fills of capitalized paper accounts: validatePaperIntentDeltas
    (services/core/paper_accounting.go:503-582).
  */
module PaperIntents {
  import opened Results
  import opened OrderStore

  /** A capitalized order; its target is the position its signal asks for. */
  datatype PaperOrder = PaperOrder(account: string, symbol: string, side: Side, quantity: int, target: int)

  datatype RowKind = IntentRow | FillRow(quantity: int) | OtherRow

  /** One row of the paper orders' event log. */
  datatype LogRow = LogRow(orderId: string, kind: RowKind)

  type Key = (string, string)

  datatype Deltas = Deltas(positions: map<Key, int>, active: map<Key, string>, filled: map<string, int>)

  const START: Deltas := Deltas(map[], map[], map[])

  function KeyOf(o: PaperOrder): Key {
    (o.account, o.symbol)
  }

  function PositionAt(s: Deltas, key: Key): int {
    if key in s.positions then s.positions[key] else 0
  }

  function Signed(side: Side, quantity: int): int {
    if side == Buy then quantity else -quantity
  }

  function IntentStep(s: Deltas, id: string, o: PaperOrder): Option<Deltas> {
    var key := KeyOf(o);
    if key in s.active || o.target - PositionAt(s, key) != Signed(o.side, o.quantity) || o.quantity <= 0 then None
    else Some(s.(positions := s.positions[key := PositionAt(s, key)], active := s.active[key := id], filled := s.filled[id := 0]))
  }

  /** A fill; `oversold` says whether the oversell check is made. */
  function FillStep(s: Deltas, id: string, o: PaperOrder, quantity: int, oversold: bool): Option<Deltas> {
    var key, position := KeyOf(o), PositionAt(s, KeyOf(o)) + Signed(o.side, quantity);
    if id !in s.filled || (oversold && o.side == Sell && position < 0) || s.filled[id] + quantity > o.quantity then None
    else
      var filled := s.filled[id] + quantity;
      Some(Deltas(s.positions[key := position], if filled == o.quantity then s.active - {key} else s.active, s.filled[id := filled]))
  }

  function RowStep(orders: map<string, PaperOrder>, s: Deltas, row: LogRow, oversold: bool): Option<Deltas> {
    if row.orderId !in orders then None
    else
      match row.kind
      case IntentRow => IntentStep(s, row.orderId, orders[row.orderId])
      case FillRow(quantity) => FillStep(s, row.orderId, orders[row.orderId], quantity, oversold)
      case OtherRow => Some(s)
  }

  function Validated(orders: map<string, PaperOrder>, rows: seq<LogRow>, oversold: bool): Option<Deltas> {
    if rows == [] then Some(START)
    else
      var s :- Validated(orders, rows[..|rows| - 1], oversold);
      RowStep(orders, s, rows[|rows| - 1], oversold)
  }

  /** validatePaperIntentDeltas: the loop over its maps. */
  method ValidateDeltas(orders: map<string, PaperOrder>, rows: seq<LogRow>) returns (r: Result<Deltas>)
    requires forall id :: id in orders ==> orders[id].quantity > 0
    ensures r.Ok? <==> Validated(orders, rows, true).Some?
    ensures r.Ok? ==> r.value == Validated(orders, rows, true).value
  {
    hide IntentStep, FillStep;
    var positions: map<Key, int>, active: map<Key, string>, filled: map<string, int> := map[], map[], map[];
    for i := 0 to |rows|
      invariant Validated(orders, rows[..i], true) == Some(Deltas(positions, active, filled))
    {
      var row := rows[i];
      assert rows[..i + 1][..i] == rows[..i];
      if row.orderId !in orders {
        Stops(orders, rows, i + 1);
        return Err("no rows in result set");
      }
      var error := "";
      match row.kind {
        case OtherRow =>
        case IntentRow => error, positions, active, filled := RecordTarget(positions, active, filled, row.orderId, orders[row.orderId]);
        case FillRow(quantity) =>
          error, positions, active, filled := RecordFill(positions, active, filled, row.orderId, orders[row.orderId], quantity);
      }
      if error != "" {
        Stops(orders, rows, i + 1);
        return Err(error);
      }
    }
    assert rows[..|rows|] == rows;
    r := Ok(Deltas(positions, active, filled));
  }

  /** The loop's branch for an intent; a non-empty error refuses the log. */
  method RecordTarget(positions: map<Key, int>, active: map<Key, string>, filled: map<string, int>, id: string, o: PaperOrder)
    returns (error: string, p: map<Key, int>, a: map<Key, string>, f: map<string, int>)
    requires o.quantity > 0
    ensures var next := IntentStep(Deltas(positions, active, filled), id, o);
      (error == "" <==> next.Some?) && (next.Some? ==> next.value == Deltas(p, a, f))
  {
    error, p, a, f := "", positions, active, filled;
    var key := KeyOf(o);
    var position := if key in positions then positions[key] else 0;
    if key in active {
      error := "capitalized paper intents cross an active order";
      return;
    }
    var delta := o.target - position;
    if delta == 0 || (if delta < 0 then -delta else delta) != o.quantity || (delta > 0) != (o.side == Buy) {
      error := "capitalized paper intent target delta is invalid";
      return;
    }
    p, a, f := positions[key := position], active[key := id], filled[id := 0];
  }

  /** The loop's branch for a fill. */
  method RecordFill(positions: map<Key, int>, active: map<Key, string>, filled: map<string, int>, id: string, o: PaperOrder, quantity: int)
    returns (error: string, p: map<Key, int>, a: map<Key, string>, f: map<string, int>)
    ensures var next := FillStep(Deltas(positions, active, filled), id, o, quantity, true);
      (error == "" <==> next.Some?) && (next.Some? ==> next.value == Deltas(p, a, f))
  {
    error, p, a, f := "", positions, active, filled;
    var key := KeyOf(o);
    var position := (if key in positions then positions[key] else 0) + Signed(o.side, quantity);
    if id !in filled {
      error := "fill without an intent";
      return;
    }
    if o.side == Sell && position < 0 {
      error := "capitalized paper SELL oversold holdings";
      return;
    }
    var total := filled[id] + quantity;
    if total > o.quantity {
      error := "capitalized paper fill exceeds its order";
      return;
    }
    p, f := positions[key := position], filled[id := total];
    if total == o.quantity {
      a := active - {key};
    }
  }

  lemma {:induction false} Stops(orders: map<string, PaperOrder>, rows: seq<LogRow>, n: nat)
    requires n <= |rows| && Validated(orders, rows[..n], true).None?
    ensures Validated(orders, rows, true).None?
    decreases |rows| - n
  {
    hide RowStep;
    if n == |rows| {
      assert rows[..n] == rows;
    } else {
      assert rows[..n + 1][..n] == rows[..n];
      Stops(orders, rows, n + 1);
    }
  }

  /******* What an accepted log looks like *******/

  /** Each order announced once, before its fills; fills are positive. */
  predicate FreshIntents(rows: seq<LogRow>) {
    && (forall i, j :: 0 <= i < j < |rows| && rows[i].kind == IntentRow && rows[j].kind == IntentRow ==> rows[i].orderId != rows[j].orderId)
    && (forall i :: 0 <= i < |rows| && rows[i].kind.FillRow? ==> rows[i].kind.quantity > 0)
  }

  /** An order whose fills do not yet add up to its quantity. */
  predicate Unfinished(orders: map<string, PaperOrder>, s: Deltas, id: string) {
    id in s.filled && id in orders && s.filled[id] < orders[id].quantity
  }

  /** The position lies the unfilled rest short of the target. */
  predicate OnCourse(orders: map<string, PaperOrder>, s: Deltas, id: string)
    requires id in orders && id in s.filled
  {
    PositionAt(s, KeyOf(orders[id])) == orders[id].target - Signed(orders[id].side, orders[id].quantity - s.filled[id])
  }

  ghost predicate FilledWithin(orders: map<string, PaperOrder>, s: Deltas) {
    forall id :: id in s.filled ==> id in orders && 0 <= s.filled[id] <= orders[id].quantity
  }

  ghost predicate UnfinishedActive(orders: map<string, PaperOrder>, s: Deltas) {
    forall id :: Unfinished(orders, s, id) ==> KeyOf(orders[id]) in s.active && s.active[KeyOf(orders[id])] == id
  }

  predicate ActiveAt(orders: map<string, PaperOrder>, s: Deltas, key: Key, id: string) {
    Unfinished(orders, s, id) && KeyOf(orders[id]) == key && OnCourse(orders, s, id)
  }

  /** The bookkeeping says what it should: every unfinished order is the active one of its
      account and symbol, and the position is on its way to that order's target. */
  ghost predicate Tracks(orders: map<string, PaperOrder>, s: Deltas) {
    FilledWithin(orders, s) && UnfinishedActive(orders, s) && forall key :: key in s.active ==> ActiveAt(orders, s, key, s.active[key])
  }

  lemma IntentTracks(orders: map<string, PaperOrder>, s: Deltas, id: string)
    requires Tracks(orders, s) && id in orders && id !in s.filled && IntentStep(s, id, orders[id]).Some?
    ensures Tracks(orders, IntentStep(s, id, orders[id]).value)
  {
    var after := IntentStep(s, id, orders[id]).value;
    forall key | key in after.active
      ensures ActiveAt(orders, after, key, after.active[key])
    {
      if key in s.active {
        assert ActiveAt(orders, s, key, s.active[key]);
      }
    }
    forall other | Unfinished(orders, after, other)
      ensures KeyOf(orders[other]) in after.active && after.active[KeyOf(orders[other])] == other
    {
      assert other == id || Unfinished(orders, s, other);
    }
  }

  /** A fill of an unfinished order moves the position by its quantity towards the
      target; the order leaves when it is there. */
  lemma FillTracks(orders: map<string, PaperOrder>, s: Deltas, id: string, quantity: int, oversold: bool)
    requires Tracks(orders, s) && id in orders && quantity > 0 && FillStep(s, id, orders[id], quantity, oversold).Some?
    ensures Tracks(orders, FillStep(s, id, orders[id], quantity, oversold).value)
    ensures Unfinished(orders, s, id) && OnCourse(orders, FillStep(s, id, orders[id], quantity, oversold).value, id)
  {
    var after := FillStep(s, id, orders[id], quantity, oversold).value;
    assert Unfinished(orders, s, id);
    assert ActiveAt(orders, s, KeyOf(orders[id]), id);
    forall key | key in after.active
      ensures ActiveAt(orders, after, key, after.active[key])
    {
      assert ActiveAt(orders, s, key, s.active[key]);
    }
    forall other | Unfinished(orders, after, other)
      ensures KeyOf(orders[other]) in after.active && after.active[KeyOf(orders[other])] == other
    {
      assert other == id || Unfinished(orders, s, other);
    }
  }

  lemma StepTracks(orders: map<string, PaperOrder>, s: Deltas, row: LogRow, oversold: bool)
    requires Tracks(orders, s) && RowStep(orders, s, row, oversold).Some?
    requires row.kind == IntentRow ==> row.orderId !in s.filled
    requires row.kind.FillRow? ==> row.kind.quantity > 0
    ensures Tracks(orders, RowStep(orders, s, row, oversold).value)
  {
    hide Tracks, IntentStep, FillStep;
    match row.kind {
      case IntentRow => IntentTracks(orders, s, row.orderId);
      case FillRow(quantity) => FillTracks(orders, s, row.orderId, quantity, oversold);
      case OtherRow =>
    }
  }

  /** Orders are filled in only after they are announced. */
  lemma {:induction false} FilledAreAnnounced(orders: map<string, PaperOrder>, rows: seq<LogRow>, oversold: bool, id: string)
    requires Validated(orders, rows, oversold).Some? && id in Validated(orders, rows, oversold).value.filled
    ensures exists i :: 0 <= i < |rows| && rows[i].kind == IntentRow && rows[i].orderId == id
  {
    if rows != [] {
      var n := |rows| - 1;
      if id in Validated(orders, rows[..n], oversold).value.filled {
        FilledAreAnnounced(orders, rows[..n], oversold, id);
        var i :| 0 <= i < n && rows[..n][i].kind == IntentRow && rows[..n][i].orderId == id;
        assert rows[i].orderId == id;
      } else {
        assert rows[n].kind == IntentRow && rows[n].orderId == id;
      }
    }
  }

  lemma FewerRows(rows: seq<LogRow>, n: nat)
    requires FreshIntents(rows) && n <= |rows|
    ensures FreshIntents(rows[..n])
  {}

  lemma {:induction false} ValidatedTracks(orders: map<string, PaperOrder>, rows: seq<LogRow>, oversold: bool)
    requires FreshIntents(rows) && Validated(orders, rows, oversold).Some?
    ensures Tracks(orders, Validated(orders, rows, oversold).value)
  {
    hide Tracks, RowStep;
    if rows == [] {
      NothingTracks(orders);
    } else {
      var n := |rows| - 1;
      FewerRows(rows, n);
      ValidatedTracks(orders, rows[..n], oversold);
      if rows[n].kind == IntentRow && rows[n].orderId in Validated(orders, rows[..n], oversold).value.filled {
        FilledAreAnnounced(orders, rows[..n], oversold, rows[n].orderId);
      }
      StepTracks(orders, Validated(orders, rows[..n], oversold).value, rows[n], oversold);
    }
  }

  lemma NothingTracks(orders: map<string, PaperOrder>)
    ensures Tracks(orders, START)
  {}

  /** In every accepted log an account has at most one unfinished order per symbol, and
      its position is short of that order's target by exactly what is left to fill. */
  lemma OneUnfinished(orders: map<string, PaperOrder>, rows: seq<LogRow>, a: string, b: string)
    requires FreshIntents(rows) && Validated(orders, rows, true).Some?
    ensures var s := Validated(orders, rows, true).value;
      Unfinished(orders, s, a) ==>
        (OnCourse(orders, s, a) && (Unfinished(orders, s, b) && KeyOf(orders[b]) == KeyOf(orders[a]) ==> a == b))
  {
    ValidatedTracks(orders, rows, true);
    var s := Validated(orders, rows, true).value;
    if Unfinished(orders, s, a) {
      assert ActiveAt(orders, s, KeyOf(orders[a]), a);
    }
    hide Validated;
  }

  /** Each fill moves the position strictly towards the target and never past it; the
      fill that completes the order puts the position on the target. */
  lemma FillsApproachTarget(orders: map<string, PaperOrder>, rows: seq<LogRow>, id: string, quantity: int)
    requires FreshIntents(rows) && quantity > 0 && id in orders
    requires Validated(orders, rows, true).Some? && Validated(orders, rows + [LogRow(id, FillRow(quantity))], true).Some?
    ensures var o := orders[id];
      var before := PositionAt(Validated(orders, rows, true).value, KeyOf(o));
      var s := Validated(orders, rows + [LogRow(id, FillRow(quantity))], true).value;
      var after := PositionAt(s, KeyOf(o));
      && (if o.side == Buy then before < after <= o.target else o.target <= after < before)
      && id in s.filled && (after == o.target <==> s.filled[id] == o.quantity)
  {
    hide Tracks;
    ValidatedTracks(orders, rows, true);
    var s := Validated(orders, rows, true).value;
    assert (rows + [LogRow(id, FillRow(quantity))])[..|rows|] == rows;
    FillTracks(orders, s, id, quantity, true);
    hide Validated;
  }

  /******* The oversell check *******/

  predicate TargetsNonNegative(orders: map<string, PaperOrder>) {
    forall id :: id in orders ==> orders[id].target >= 0
  }

  /** With non-negative targets and fills that stay within their orders, the oversell
      check never refuses a row: leaving it out would accept exactly the same logs. */
  lemma {:induction false} OversellNeverFires(orders: map<string, PaperOrder>, rows: seq<LogRow>)
    requires FreshIntents(rows) && TargetsNonNegative(orders)
    ensures Validated(orders, rows, true) == Validated(orders, rows, false)
  {
    hide RowStep, Tracks;
    if rows != [] {
      var n := |rows| - 1;
      FewerRows(rows, n);
      OversellNeverFires(orders, rows[..n]);
      if Validated(orders, rows[..n], false).Some? {
        ValidatedTracks(orders, rows[..n], false);
        NoOversell(orders, Validated(orders, rows[..n], false).value, rows[n]);
      }
    }
  }

  lemma NoOversell(orders: map<string, PaperOrder>, s: Deltas, row: LogRow)
    requires Tracks(orders, s) && TargetsNonNegative(orders) && (row.kind.FillRow? ==> row.kind.quantity > 0)
    ensures RowStep(orders, s, row, true) == RowStep(orders, s, row, false)
  {
    hide Tracks;
    if row.kind.FillRow? && RowStep(orders, s, row, false).Some? {
      FillTracks(orders, s, row.orderId, row.kind.quantity, false);
      assert OnCourse(orders, RowStep(orders, s, row, false).value, row.orderId);
    }
  }
}
