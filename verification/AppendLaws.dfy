/** What recording an intent and appending an event answer, told from the tables
    (services/core/order_state.go).
  */
module AppendLaws {
  import opened Results
  import opened OrderDomain
  import opened OrderStore
  import opened OrderInvariants
  import opened OrderHistory

  /******* Events *******/

  /** The fill's mode fits the way it is appended. */
  predicate FillMode(db: Db, e: Entry, paperFill: bool) {
    e.change.FillRecorded? ==> e.orderId in db.orders && (db.orders[e.orderId].mode == CapitalizedPaper <==> paperFill)
  }

  predicate SameId(p: Entry, e: Entry) {
    p.eventId == e.eventId
  }

  /** Another event recorded the same execution of the broker. */
  predicate SameFill(p: Entry, e: Entry) {
    p.change.FillRecorded? && e.change.FillRecorded? && p.change.execution == e.change.execution
  }

  /** The reference e brings is not another order's. */
  predicate RefIsOwn(events: seq<Entry>, e: Entry) {
    Shown(e.change).Some? ==> forall p :: p in events && Shown(p.change) == Shown(e.change) ==> p.orderId == e.orderId
  }

  /** Risk approvals and dispatches of synthetic orders name their reservation, those of
      capitalized paper orders and their fills a paper ticket the paper tables allow;
      nothing else names either. */
  predicate Ticketed(db: Db, e: Entry, paperAllowed: bool)
    requires e.orderId in db.orders
  {
    var mode := db.orders[e.orderId].mode;
    if mode == CapitalizedPaper && (e.change.RiskApproved? || e.change.SubmitDispatched? || e.change.FillRecorded?) then
      e.ticket.PaperTicket? && paperAllowed
    else if e.change.RiskApproved? || e.change.SubmitDispatched? then
      mode == Synthetic && exists r :: r in db.reservations && MadeFor(r, e)
    else e.ticket.NoTicket?
  }

  predicate MadeFor(r: Reservation, e: Entry) {
    && e.ticket == ReservationTicket(r.id, r.token) && e.orderId == r.orderId
    && (e.change.RiskApproved? ==> e.eventId == r.riskId) && (!e.change.RiskApproved? ==> e.eventId == r.dispatchId)
  }

  lemma TicketedIs(db: Db, e: Entry, paperAllowed: bool)
    requires e.orderId in db.orders
    ensures GuardAllows(db, e, paperAllowed) <==> Ticketed(db, e, paperAllowed)
  {
    if r :| r in db.reservations && MadeFor(r, e) {
      assert e.change.RiskApproved? || e.change.SubmitDispatched? ==> ReservedBy(r, e);
    }
    if r :| r in db.reservations && ReservedBy(r, e) {
      assert MadeFor(r, e);
    }
    hide ReservedBy, MadeFor;
  }

  /** A new event is taken when the order's history allows it, its reference is its own,
      its ticket is in order, and for a dispatch no order of the account waits. */
  predicate Takes(db: Db, e: Entry, paperAllowed: bool) {
    && e.orderId in db.orders && May(db.orders[e.orderId].quantity, HistoryOf(db.events, e.orderId), e.change)
    && RefIsOwn(db.events, e) && Ticketed(db, e, paperAllowed)
    && (e.change.SubmitDispatched? ==> NoneWaits(db, db.orders[e.orderId].account))
  }

  predicate NoneWaits(db: Db, account: string) {
    forall o :: o in db.orders && db.orders[o].account == account ==> PendingTold(HistoryOf(db.events, o)) == Nothing
  }

  lemma StateTold(db: Db, o: string)
    requires Base(db) && o in db.orders
    ensures var h := HistoryOf(db.events, o); Coherent(db.orders[o].quantity, h) && Tells(db.orders[o].quantity, h, At(db, o))
  {
    hide Transition, ValidEntry, HistoryOf, May, Replay, Tells, Coherent;
    HistoryTells(db.orders[o].quantity, HistoryOf(db.events, o));
  }

  lemma NoneWaitsIs(db: Db, account: string)
    requires Base(db)
    ensures Clear(db, account) <==> NoneWaits(db, account)
  {
    hide StateOf, Base, Coherent, HistoryOf;
    forall o | o in db.orders
      ensures StateOf(db.orders, db.events, o) == Some(At(db, o)) && At(db, o).pending == PendingTold(HistoryOf(db.events, o))
    {
      StateIsAt(db, o);
      StateTold(db, o);
    }
    hide PendingTold, At;
  }

  lemma RefIsOwnIs(db: Db, e: Entry)
    requires Base(db) && ValidEntry(e)
    ensures RefFree(db.events, e) <==> RefIsOwn(db.events, e)
  {
    hide StateOf, ValidIntent;
    forall p | p in db.events + [e]
      ensures RefOf(p.change) == if Shown(p.change).Some? then Shown(p.change).value else ""
      ensures Shown(p.change).Some? ==> Shown(p.change).value != ""
    {
      assert ValidEntry(p);
    }
    assert e in db.events + [e];
    assert forall p :: p in db.events ==> p in db.events + [e];
  }

  lemma NewEvent(db: Db, e: Entry, paperAllowed: bool)
    requires Base(db) && ValidEntry(e)
    ensures AppendNew(db, e, paperAllowed).Some? <==> Takes(db, e, paperAllowed)
    ensures Takes(db, e, paperAllowed) ==> AppendNew(db, e, paperAllowed).value.0 == db.(events := db.events + [e])
  {
    hide StateOf, ValidEntry, Clear, RefFree, GuardAllows, Transition, Tells, Coherent, HistoryOf, May, RefIsOwn, Ticketed, NoneWaits;
    StateKnown(db.orders, db.events, e.orderId);
    RefIsOwnIs(db, e);
    if e.orderId in db.orders {
      StateIsAt(db, e.orderId);
      StateTold(db, e.orderId);
      QuantityPositive(db, e.orderId);
      NextAllowed(db.orders[e.orderId].quantity, HistoryOf(db.events, e.orderId), At(db, e.orderId), e.change);
      TicketedIs(db, e, paperAllowed);
      NoneWaitsIs(db, db.orders[e.orderId].account);
    }
    hide Base, At;
  }

  lemma QuantityPositive(db: Db, o: string)
    requires Base(db) && o in db.orders
    ensures db.orders[o].quantity > 0
  {
    hide StateOf, ValidEntry;
  }

  /** An event whose id is stored is answered only when it is the stored event; one whose
      execution is stored, only when it differs from that in the id alone; and a new one is
      taken exactly when it may be. Only a new one changes anything, by itself at the end. */
  lemma AppendExactly(db: Db, e: Entry, paperFill: bool, paperAllowed: bool)
    requires Base(db) && ValidEntry(e)
    ensures var r := Append(db, e, paperFill, paperAllowed);
      var known, filled := exists p :: p in db.events && SameId(p, e), exists p :: p in db.events && SameFill(p, e);
      && (!FillMode(db, e, paperFill) ==> r.None?)
      && (FillMode(db, e, paperFill) && known ==> (r.Some? <==> e in db.events) && (r.Some? ==> r.value.0 == db))
      && (FillMode(db, e, paperFill) && !known && filled ==>
        (r.Some? <==> exists p :: p in db.events && p.(eventId := e.eventId) == e) && (r.Some? ==> r.value.0 == db))
      && (FillMode(db, e, paperFill) && !known && !filled ==>
        (r.Some? <==> Takes(db, e, paperAllowed)) && (r.Some? ==> r.value.0 == db.(events := db.events + [e])))
  {
    hide *;
    NewEvent(db, e, paperAllowed);
    KnownIs(db, e);
    FilledIs(db, e);
    StoredLoads(db);
    AppendCases(db, e, paperFill, paperAllowed);
  }

  /** The three ways an append goes. */
  lemma AppendCases(db: Db, e: Entry, paperFill: bool, paperAllowed: bool)
    requires forall p :: p in db.events ==> StateOf(db.orders, db.events, p.orderId).Some?
    ensures var r, prior, execution := Append(db, e, paperFill, paperAllowed), FindEvent(db.events, e.eventId),
        FindExecution(db.events, ExecutionOf(e.change));
      && (!FillMode(db, e, paperFill) ==> r.None?)
      && (FillMode(db, e, paperFill) && prior.Some? ==> (r.Some? <==> prior == Some(e)) && (r.Some? ==> r.value.0 == db))
      && (FillMode(db, e, paperFill) && prior.None? && ExecutionOf(e.change) != "" && execution.Some? ==>
        (r.Some? <==> SameExecution(execution.value, e)) && (r.Some? ==> r.value.0 == db))
      && (FillMode(db, e, paperFill) && prior.None? && !(ExecutionOf(e.change) != "" && execution.Some?) ==>
        r == AppendNew(db, e, paperAllowed))
  {
    hide StateOf, AppendNew, FindEvent, FindExecution, SameExecution, ExecutionOf;
  }

  lemma StoredLoads(db: Db)
    requires Base(db)
    ensures forall p :: p in db.events ==> StateOf(db.orders, db.events, p.orderId).Some?
  {
    hide StateOf;
  }

  lemma KnownIs(db: Db, e: Entry)
    requires Base(db)
    ensures FindEvent(db.events, e.eventId).Some? <==> exists p :: p in db.events && SameId(p, e)
    ensures FindEvent(db.events, e.eventId) == Some(e) <==> e in db.events
  {
    hide StateOf, ValidEntry, ValidIntent;
    if e in db.events {
      var i :| 0 <= i < |db.events| && db.events[i] == e;
      var found := FindEvent(db.events, e.eventId).value;
      var j :| 0 <= j < |db.events| && db.events[j] == found;
    }
    hide FindEvent;
  }

  lemma SameFillIs(p: Entry, e: Entry)
    requires ValidEntry(p) && ValidEntry(e)
    ensures SameFill(p, e) <==> ExecutionOf(e.change) != "" && ExecutionOf(p.change) == ExecutionOf(e.change)
  {}

  lemma OneExecution(events: seq<Entry>, p: Entry, q: Entry)
    requires UniqueExecutions(events) && p in events && q in events
    requires ExecutionOf(p.change) != "" && ExecutionOf(p.change) == ExecutionOf(q.change)
    ensures p == q
  {
    hide ExecutionOf;
    var i :| 0 <= i < |events| && events[i] == p;
    var j :| 0 <= j < |events| && events[j] == q;
  }

  lemma EventsSound(db: Db)
    requires Base(db)
    ensures UniqueExecutions(db.events) && forall p :: p in db.events ==> ValidEntry(p)
  {
    hide StateOf, ValidEntry, UniqueExecutions;
  }

  /** A stored execution is the only one of its kind. */
  lemma FilledIs(db: Db, e: Entry)
    requires Base(db) && ValidEntry(e)
    ensures var found := FindExecution(db.events, ExecutionOf(e.change));
      && (ExecutionOf(e.change) != "" && found.Some? <==> exists p :: p in db.events && SameFill(p, e))
      && (ExecutionOf(e.change) != "" && found.Some? ==>
        (SameExecution(found.value, e) <==> exists p :: p in db.events && p.(eventId := e.eventId) == e))
  {
    EventsSound(db);
    hide Base, ValidEntry, UniqueExecutions, ExecutionOf, SameFill;
    var found := FindExecution(db.events, ExecutionOf(e.change));
    forall p | p in db.events
      ensures SameFill(p, e) <==> ExecutionOf(e.change) != "" && ExecutionOf(p.change) == ExecutionOf(e.change)
    {
      SameFillIs(p, e);
    }
    if ExecutionOf(e.change) != "" && found.Some? {
      if p :| p in db.events && p.(eventId := e.eventId) == e {
        assert p.change == e.change;
        OneExecution(db.events, p, found.value);
      }
    }
    hide FindExecution;
  }

  /******* Intents *******/

  /** The same client request of an account, synthetic or paper. */
  predicate SameRequest(a: Intent, b: Intent) {
    a.clientOrderId == b.clientOrderId && a.account == b.account && (a.mode.Synthetic? <==> b.mode.Synthetic?)
  }

  predicate Asked(db: Db, intent: Intent) {
    exists o :: o in db.orders && SameRequest(db.orders[o], intent)
  }

  predicate AskedAlike(db: Db, intent: Intent) {
    forall o :: o in db.orders && SameRequest(db.orders[o], intent) ==> db.orders[o] == intent
  }

  /** A repeated request is answered only if it is the same in every field; a new one, not
      of the retired paper mode, is recorded under new identifiers as an order and its
      first event. */
  lemma RecordExactly(db: Db, intent: Intent, orderId: string, eventId: string)
    requires Base(db)
    ensures var r := RecordIntent(db, intent, orderId, eventId);
      var unused := orderId != "" && orderId !in db.orders && eventId != "" && forall e :: e in db.events ==> e.eventId != eventId;
      && (!ValidIntent(intent) ==> r.None?)
      && (ValidIntent(intent) && Asked(db, intent) ==> r == if AskedAlike(db, intent) then Some(db) else None)
      && (ValidIntent(intent) && !Asked(db, intent) ==>
        r == if intent.mode != Paper && unused
             then Some(db.(orders := db.orders[orderId := intent],
               events := db.events + [Entry(eventId, orderId, false, IntentRecorded, NoTicket)]))
             else None)
  {
    hide StateOf, ValidIntent;
    forall o | o in db.orders
      ensures o in PriorOrder(db.orders, intent) <==> SameRequest(db.orders[o], intent)
    {}
    OrdersLoad(db);
    hide Base;
  }

  lemma OrdersLoad(db: Db)
    requires Base(db)
    ensures forall o :: o in db.orders ==> StateOf(db.orders, db.events, o).Some?
  {
    hide StateOf, ValidIntent, ValidEntry;
  }

  /******* What the tables hold *******/

  /** In every loaded table: orders are for something and priced as their mode asks; fills
      are of positive size and price, under a reference and an execution of their own, and
      add up to no more than the order. */
  lemma StoredSound(db: Db)
    requires Base(db)
    ensures forall o :: o in db.orders ==>
      && db.orders[o].quantity > 0 && db.orders[o].clientOrderId != "" && db.orders[o].account != ""
      && (if db.orders[o].mode == CapitalizedPaper then db.orders[o].price == 0.0 else db.orders[o].price > 0.0)
      && FillSum(HistoryOf(db.events, o)) <= db.orders[o].quantity
    ensures forall e :: e in db.events ==> e.eventId != "" && e.orderId in db.orders && (e.change.FillRecorded? ==> SoundFill(e.change))
    ensures forall p, e :: p in db.events && e in db.events && SameFill(p, e) ==> p == e
  {
    hide StateOf, HistoryOf, FillSum;
    forall o | o in db.orders
      ensures FillSum(HistoryOf(db.events, o)) <= db.orders[o].quantity
    {
      StateConsistent(db, o);
    }
    forall p, e | p in db.events && e in db.events && SameFill(p, e)
      ensures p == e
    {
      EventsSound(db);
      SameFillIs(p, e);
      OneExecution(db.events, p, e);
    }
    hide UniqueExecutions, At;
  }

  predicate SoundFill(c: Change)
    requires c.FillRecorded?
  {
    c.ref != "" && c.execution != "" && c.quantity > 0 && c.price > 0.0
  }
}
