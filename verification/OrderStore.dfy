/** The order tables and their one append path: services/core/order_state.go, with the
    table guards of migrations/017_paper_execution_authorizations.sql.

    Prices are the values of their canonical decimal texts. The paper authorization
    tables are not modelled: whether they let a paper event in is an argument.
  */
module OrderStore {
  import opened Results
  import opened OrderDomain
  import A = ExecutionAuthority

  datatype Mode = Synthetic | Paper | CapitalizedPaper
  datatype Side = Buy | Sell

  datatype Intent = Intent(clientOrderId: string, mode: Mode, account: string, symbol: string, side: Side, quantity: int, price: real)

  /** What authorizes a risk approval, a dispatch or a capitalized paper fill. */
  datatype Ticket = NoTicket | ReservationTicket(id: string, token: int) | PaperTicket(id: string)

  /** One row of order_events; its sequence is its position. */
  datatype Entry = Entry(eventId: string, orderId: string, reconciled: bool, change: Change, ticket: Ticket)

  datatype Reservation = Reservation(
    id: string, orderId: string, account: string, authorityId: string, token: int,
    quantity: int, price: real, notional: real, riskId: string, dispatchId: string, reservedAt: int)

  datatype Db = Db(orders: map<string, Intent>, events: seq<Entry>, authority: seq<A.Record>, reservations: seq<Reservation>)

  /******* Checks *******/

  /** validateOrderIntent: a limit order with a positive price, or a capitalized paper
      market order with none. */
  predicate ValidIntent(i: Intent) {
    i.clientOrderId != "" && i.account != "" && i.quantity > 0
    && if i.mode == CapitalizedPaper then i.price == 0.0 else i.price > 0.0
  }

  /** validateOrderEvent. */
  predicate ValidEntry(e: Entry) {
    && e.eventId != "" && e.orderId != ""
    && match e.change
       case RiskApproved => TicketShape(e)
       case SubmitDispatched => TicketShape(e)
       case SubmitAcknowledged(ref) => ref != "" && e.ticket.NoTicket?
       case FillRecorded(ref, execution, quantity, price, _) =>
         ref != "" && execution != "" && quantity > 0 && price > 0.0 && !e.ticket.ReservationTicket? && (e.ticket.PaperTicket? ==> !e.reconciled)
       case _ => e.ticket.NoTicket?
  }

  predicate TicketShape(e: Entry) {
    match e.ticket
    case NoTicket => true
    case ReservationTicket(id, token) => id != "" && token > 0 && !e.reconciled
    case PaperTicket(id) => id != "" && !e.reconciled
  }

  /******* Reading one order *******/

  function HistoryOf(events: seq<Entry>, orderId: string): seq<Change> {
    if events == [] then []
    else
      var e := events[|events| - 1];
      HistoryOf(events[..|events| - 1], orderId) + if e.orderId == orderId then [e.change] else []
  }

  predicate EntriesValid(events: seq<Entry>, orderId: string) {
    forall e :: e in events && e.orderId == orderId ==> ValidEntry(e)
  }

  /** loadOrderStateFrom. */
  function StateOf(orders: map<string, Intent>, events: seq<Entry>, orderId: string): Option<State> {
    if orderId !in orders || !ValidIntent(orders[orderId]) || HistoryOf(events, orderId) == [] || !EntriesValid(events, orderId) then None
    else Replay(orders[orderId].quantity, HistoryOf(events, orderId))
  }

  /** The loop of loadOrderStateFrom. */
  method LoadState(orders: map<string, Intent>, events: seq<Entry>, orderId: string) returns (r: Option<State>)
    ensures r == StateOf(orders, events, orderId)
  {
    hide ValidEntry, Transition, ValidIntent;
    if orderId !in orders || !ValidIntent(orders[orderId]) {
      return None;
    }
    var state, count := NewState(orders[orderId].quantity), 0;
    for i := 0 to |events|
      invariant Replay(orders[orderId].quantity, HistoryOf(events[..i], orderId)) == Some(state)
      invariant count == |HistoryOf(events[..i], orderId)| && EntriesValid(events[..i], orderId)
    {
      var e := events[i];
      assert events[..i + 1] == events[..i] + [e];
      HistoryGrows(events[..i], e, orderId);
      if e.orderId == orderId {
        ReplayGrows(orders[orderId].quantity, HistoryOf(events[..i], orderId), e.change);
        if !ValidEntry(e) {
          return None;
        }
        var next := Transition(state, e.change);
        if next.None? {
          ReplayStops(orders[orderId].quantity, events, i + 1, orderId);
          return None;
        }
        state, count := next.value, count + 1;
      } else {
        assert HistoryOf(events[..i], orderId) + [] == HistoryOf(events[..i], orderId);
      }
    }
    assert events[..|events|] == events;
    r := if count == 0 then None else Some(state);
  }

  lemma HistoryGrows(events: seq<Entry>, e: Entry, orderId: string)
    ensures HistoryOf(events + [e], orderId) == HistoryOf(events, orderId) + if e.orderId == orderId then [e.change] else []
  {
    assert (events + [e])[..|events|] == events;
  }

  lemma ReplayGrows(quantity: int, history: seq<Change>, c: Change)
    ensures Replay(quantity, history + [c]) ==
      if Replay(quantity, history).None? then None else Transition(Replay(quantity, history).value, c)
  {
    assert (history + [c])[..|history|] == history;
    hide Transition;
  }

  lemma {:induction false} ReplayStops(quantity: int, events: seq<Entry>, n: nat, orderId: string)
    requires n <= |events| && Replay(quantity, HistoryOf(events[..n], orderId)).None?
    ensures Replay(quantity, HistoryOf(events, orderId)).None?
    decreases |events| - n
  {
    hide Transition;
    if n == |events| {
      assert events[..n] == events;
    } else {
      HistoryGrows(events[..n], events[n], orderId);
      assert events[..n + 1] == events[..n] + [events[n]];
      ReplayGrows(quantity, HistoryOf(events[..n], orderId), events[n].change);
      assert HistoryOf(events[..n], orderId) + [] == HistoryOf(events[..n], orderId);
      ReplayStops(quantity, events, n + 1, orderId);
    }
  }

  /** accountHasUnresolvedOrder answers no: every order of the account loads, and none
      waits for the outcome of a command. */
  predicate Clear(db: Db, account: string) {
    forall o :: o in db.orders && db.orders[o].account == account ==>
      StateOf(db.orders, db.events, o).Some? && StateOf(db.orders, db.events, o).value.pending == Nothing
  }

  predicate Waits(db: Db, orderId: string) {
    var s := StateOf(db.orders, db.events, orderId);
    s.Some? && s.value.pending != Nothing
  }

  /** accountHasUnresolvedOrder; `None` when some order does not load. */
  method HasUnresolved(db: Db, account: string) returns (r: Option<bool>)
    ensures r == Some(false) <==> Clear(db, account)
    ensures r == Some(true) ==> exists o :: o in db.orders && db.orders[o].account == account && Waits(db, o)
  {
    hide StateOf;
    var ids := set o | o in db.orders && db.orders[o].account == account;
    while ids != {}
      invariant ids <= set o | o in db.orders && db.orders[o].account == account
      invariant forall o :: o in db.orders && db.orders[o].account == account && o !in ids ==>
        StateOf(db.orders, db.events, o).Some? && StateOf(db.orders, db.events, o).value.pending == Nothing
      decreases ids
    {
      var o :| o in ids;
      var state := LoadState(db.orders, db.events, o);
      if state.None? {
        return None;
      }
      if state.value.pending != Nothing {
        return Some(true);
      }
      ids := ids - {o};
    }
    r := Some(false);
  }

  /******* Recording an intent *******/

  /** PRIMARY KEY (mode, account_ref, client_order_id); two paper schemas share a mode. */
  predicate SameRequestKey(a: Intent, b: Intent) {
    (a.mode == Synthetic <==> b.mode == Synthetic) && a.account == b.account && a.clientOrderId == b.clientOrderId
  }

  function PriorOrder(orders: map<string, Intent>, intent: Intent): set<string> {
    set o | o in orders && SameRequestKey(orders[o], intent)
  }

  /** recordOrderIntentTx. */
  function RecordIntent(db: Db, intent: Intent, orderId: string, eventId: string): Option<Db> {
    if !ValidIntent(intent) then None
    else if PriorOrder(db.orders, intent) != {} then
      if forall o :: o in PriorOrder(db.orders, intent) ==> db.orders[o] == intent && StateOf(db.orders, db.events, o).Some?
      then Some(db) else None
    else if intent.mode == Paper || orderId in db.orders || orderId == "" || eventId == "" || exists e :: e in db.events && e.eventId == eventId
    then None
    else Some(db.(orders := db.orders[orderId := intent], events := db.events + [Entry(eventId, orderId, false, IntentRecorded, NoTicket)]))
  }

  /******* Appending an event *******/

  predicate SameExecution(a: Entry, b: Entry) {
    a == b.(eventId := a.eventId)
  }

  function RefOf(c: Change): string {
    match c
    case SubmitAcknowledged(ref) => ref
    case FillRecorded(ref, _, _, _, _) => ref
    case _ => ""
  }

  function ExecutionOf(c: Change): string {
    if c.FillRecorded? then c.execution else ""
  }

  function FindEvent(events: seq<Entry>, eventId: string): (r: Option<Entry>)
    ensures r.Some? ==> r.value in events && r.value.eventId == eventId
    ensures r.None? ==> forall e :: e in events ==> e.eventId != eventId
  {
    if events == [] then None
    else if events[|events| - 1].eventId == eventId then Some(events[|events| - 1])
    else FindEvent(events[..|events| - 1], eventId)
  }

  function FindExecution(events: seq<Entry>, execution: string): (r: Option<Entry>)
    ensures r.Some? ==> r.value in events && ExecutionOf(r.value.change) == execution
    ensures r.None? ==> forall e :: e in events ==> ExecutionOf(e.change) != execution
  {
    if events == [] then None
    else if ExecutionOf(events[|events| - 1].change) == execution then Some(events[|events| - 1])
    else FindExecution(events[..|events| - 1], execution)
  }

  /** The triggers on order_events. `paperAllowed` is what the paper tables say. */
  predicate GuardAllows(db: Db, e: Entry, paperAllowed: bool)
    requires e.orderId in db.orders
  {
    var mode := db.orders[e.orderId].mode;
    match e.change
    case RiskApproved => if mode == Synthetic then Reserved(db, e) else mode == CapitalizedPaper && e.ticket.PaperTicket? && paperAllowed
    case SubmitDispatched => if mode == Synthetic then Reserved(db, e) else mode == CapitalizedPaper && e.ticket.PaperTicket? && paperAllowed
    case FillRecorded(_, _, _, _, _) =>
      if mode == CapitalizedPaper then e.ticket.PaperTicket? && paperAllowed else e.ticket.NoTicket?
    case _ => e.ticket.NoTicket?
  }

  /** A reservation made out for exactly this event. */
  predicate Reserved(db: Db, e: Entry) {
    exists r :: r in db.reservations && ReservedBy(r, e)
  }

  predicate ReservedBy(r: Reservation, e: Entry) {
    && e.ticket == ReservationTicket(r.id, r.token) && r.orderId == e.orderId
    && e.eventId == (if e.change.RiskApproved? then r.riskId else r.dispatchId)
  }

  /** appendOrderEventTxMode: the database after, and the state it answers with. */
  function Append(db: Db, e: Entry, paperFill: bool, paperAllowed: bool): Option<(Db, State)> {
    var prior, execution := FindEvent(db.events, e.eventId), FindExecution(db.events, ExecutionOf(e.change));
    if e.change.FillRecorded? && (e.orderId !in db.orders || paperFill != (db.orders[e.orderId].mode == CapitalizedPaper)) then None
    else if prior.Some? then
      if prior.value != e then None
      else var s :- StateOf(db.orders, db.events, e.orderId); Some((db, s))
    else if ExecutionOf(e.change) != "" && execution.Some? then
      if !SameExecution(execution.value, e) then None
      else var s :- StateOf(db.orders, db.events, execution.value.orderId); Some((db, s))
    else AppendNew(db, e, paperAllowed)
  }

  predicate RefFree(events: seq<Entry>, e: Entry) {
    RefOf(e.change) != "" ==> forall p :: p in events && RefOf(p.change) == RefOf(e.change) ==> p.orderId == e.orderId
  }

  function AppendNew(db: Db, e: Entry, paperAllowed: bool): Option<(Db, State)> {
    var state :- StateOf(db.orders, db.events, e.orderId);
    if e.change.SubmitDispatched? && !Clear(db, db.orders[e.orderId].account) then None
    else if !RefFree(db.events, e) then None
    else
      var next :- Transition(state, e.change);
      if !GuardAllows(db, e, paperAllowed) then None
      else Some((db.(events := db.events + [e]), next))
  }

  /******* Laws of the append path *******/

  /** Every order loads and every event belongs to one. */
  ghost predicate Base(db: Db) {
    && (forall o :: o in db.orders ==> o != "" && ValidIntent(db.orders[o]) && StateOf(db.orders, db.events, o).Some?)
    && (forall e :: e in db.events ==> ValidEntry(e) && e.orderId in db.orders)
    && (forall i, j :: 0 <= i < j < |db.events| ==> db.events[i].eventId != db.events[j].eventId)
    && UniqueExecutions(db.events)
  }

  /** UNIQUE(provider_execution_ref). */
  ghost predicate UniqueExecutions(events: seq<Entry>) {
    forall i, j :: 0 <= i < j < |events| && ExecutionOf(events[i].change) != "" ==>
      ExecutionOf(events[i].change) != ExecutionOf(events[j].change)
  }

  ghost function At(db: Db, o: string): State
    requires Base(db) && o in db.orders
  {
    StateOf(db.orders, db.events, o).value
  }

  lemma StateConsistent(db: Db, o: string)
    requires Base(db) && o in db.orders
    ensures Consistent(At(db, o)) && At(db, o).quantity == db.orders[o].quantity
    ensures At(db, o).filled == FillSum(HistoryOf(db.events, o))
  {
    FillsAddUp(db.orders[o].quantity, HistoryOf(db.events, o));
    hide Replay, HistoryOf, Consistent, ValidEntry;
  }

  /** What appending one new valid entry does to each order's state. */
  lemma StatesAfter(orders: map<string, Intent>, events: seq<Entry>, e: Entry, o: string)
    requires ValidEntry(e)
    ensures o != e.orderId ==> StateOf(orders, events + [e], o) == StateOf(orders, events, o)
    ensures o == e.orderId && StateOf(orders, events, o).Some? ==>
      StateOf(orders, events + [e], o) == Transition(StateOf(orders, events, o).value, e.change)
  {
    hide ValidEntry, Transition, ValidIntent;
    HistoryGrows(events, e, o);
    if o == e.orderId {
      if o in orders {
        ReplayGrows(orders[o].quantity, HistoryOf(events, o), e.change);
      }
    } else {
      assert HistoryOf(events, o) + [] == HistoryOf(events, o);
    }
    EntriesGrow(events, e, o);
  }

  lemma EntriesGrow(events: seq<Entry>, e: Entry, o: string)
    requires ValidEntry(e)
    ensures EntriesValid(events + [e], o) <==> EntriesValid(events, o)
  {
    forall x | x in events
      ensures x in events + [e]
    {}
    hide ValidEntry;
  }

  /** A successful append either changes nothing or adds exactly the new event, moving
      its own order by one transition and no other order at all. */
  lemma AppendEffect(db: Db, e: Entry, paperFill: bool, paperAllowed: bool)
    requires Base(db) && ValidEntry(e) && Append(db, e, paperFill, paperAllowed).Some?
    ensures var (after, s) := Append(db, e, paperFill, paperAllowed).value;
      && Base(after) && after.orders == db.orders && after.authority == db.authority && after.reservations == db.reservations
      && (after == db || (after.events == db.events + [e] && e.orderId in db.orders
          && Transition(At(db, e.orderId), e.change) == Some(s)
          && FindEvent(db.events, e.eventId).None? && GuardAllows(db, e, paperAllowed)
          && (e.change.SubmitDispatched? ==> Clear(db, db.orders[e.orderId].account))))
      && (forall o :: o in db.orders ==> At(after, o) == if after != db && o == e.orderId then s else At(db, o))
  {
    hide StateOf, Transition, ValidEntry, ValidIntent, GuardAllows, Clear, RefFree;
    var (after, s) := Append(db, e, paperFill, paperAllowed).value;
    if after != db {
      StateKnown(db.orders, db.events, e.orderId);
      forall o | o in db.orders
        ensures StateOf(after.orders, after.events, o) == if o == e.orderId then Some(s) else StateOf(db.orders, db.events, o)
      {
        StatesAfter(db.orders, db.events, e, o);
      }
      NewEventBase(db, after, e);
    }
  }

  lemma StateKnown(orders: map<string, Intent>, events: seq<Entry>, o: string)
    ensures StateOf(orders, events, o).Some? ==> o in orders && ValidIntent(orders[o])
  {}

  lemma NewEventBase(db: Db, after: Db, e: Entry)
    requires Base(db) && ValidEntry(e) && e.orderId in db.orders && FindEvent(db.events, e.eventId).None?
    requires after == db.(events := db.events + [e])
    requires ExecutionOf(e.change) != "" ==> FindExecution(db.events, ExecutionOf(e.change)).None?
    requires forall o :: o in db.orders ==> StateOf(after.orders, after.events, o).Some?
    ensures Base(after)
  {
    hide StateOf, ValidEntry, ValidIntent;
  }
}
