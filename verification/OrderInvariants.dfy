/** What every run of the order and authority writers keeps. */
module OrderInvariants {
  import opened Results
  import opened OrderDomain
  import opened OrderStore
  import opened Dispatch
  import A = ExecutionAuthority

  /******* The invariant *******/

  ghost predicate UniqueReservations(reservations: seq<Reservation>) {
    forall i, j :: 0 <= i < j < |reservations| ==>
      && reservations[i].id != reservations[j].id && reservations[i].orderId != reservations[j].orderId
      && reservations[i].riskId != reservations[j].riskId && reservations[i].dispatchId != reservations[j].dispatchId
  }

  ghost predicate ReservationsProven(db: Db) {
    forall r :: r in db.reservations ==> Proven(db, r)
  }

  /** At most one order of an account waits for the outcome of a submit. */
  ghost predicate OnePending(db: Db)
    requires Base(db)
  {
    forall o, p :: o in db.orders && p in db.orders && Rivals(db, o, p) ==> o == p
  }

  ghost predicate Rivals(db: Db, o: string, p: string)
    requires Base(db) && o in db.orders && p in db.orders
  {
    db.orders[o].account == db.orders[p].account && At(db, o).pending == Submit && At(db, p).pending == Submit
  }

  ghost predicate WithinLimit(db: Db) {
    forall account :: Taken(db, db.reservations, account) <= MAX_ACCOUNT_NOTIONAL
  }

  /** A synthetic order is never dispatched without a reservation. */
  ghost predicate DispatchReserved(db: Db)
    requires Base(db)
  {
    forall o :: o in db.orders && db.orders[o].mode == Synthetic && Dispatched(At(db, o)) ==>
      FindReservation(db.reservations, o).Some?
  }

  ghost predicate Good(db: Db) {
    && Base(db) && A.AllAccepted(db.authority) && A.UniqueRecords(db.authority)
    && UniqueReservations(db.reservations) && ReservationsProven(db)
    && OnePending(db) && WithinLimit(db) && DispatchReserved(db)
  }

  /******* Dispatched orders only calm down *******/

  /** The tables grow, dispatched orders stay dispatched, and none of them becomes
      active again. */
  ghost predicate Calmer(db: Db, after: Db) {
    && Base(db) && Base(after) && db.events <= after.events && db.authority <= after.authority && db.reservations <= after.reservations
    && (forall o :: o in db.orders ==> o in after.orders && after.orders[o] == db.orders[o])
    && (forall o :: o in db.orders && Dispatched(At(db, o)) ==>
      Dispatched(At(after, o)) && (Active(At(after, o)) ==> Active(At(db, o))))
  }

  lemma CalmerTransitive(a: Db, b: Db, c: Db)
    requires Calmer(a, b) && Calmer(b, c)
    ensures Calmer(a, c)
  {
    hide StateOf, Dispatched, Active, Base;
  }

  lemma AppendCalms(db: Db, e: Entry, paperFill: bool, paperAllowed: bool)
    requires Base(db) && ValidEntry(e) && Append(db, e, paperFill, paperAllowed).Some?
    ensures Calmer(db, Append(db, e, paperFill, paperAllowed).value.0)
  {
    hide StateOf, Append, Transition, Dispatched, Active, Base, GuardAllows, Clear, ValidEntry, FindEvent, Consistent;
    AppendEffect(db, e, paperFill, paperAllowed);
    var (after, s) := Append(db, e, paperFill, paperAllowed).value;
    forall o | o in db.orders && Dispatched(At(db, o))
      ensures Dispatched(At(after, o)) && (Active(At(after, o)) ==> Active(At(db, o)))
    {
      StateConsistent(db, o);
      if after != db && o == e.orderId {
        DispatchedStays(At(db, o), e.change);
      }
    }
  }

  /******* Reservations stay proven *******/

  lemma {:induction false} PositionStable(events: seq<Entry>, later: seq<Entry>, eventId: string)
    requires events <= later && Position(events, eventId).Some?
    requires forall i, j :: 0 <= i < j < |later| ==> later[i].eventId != later[j].eventId
    ensures Position(later, eventId) == Position(events, eventId)
    decreases |later|
  {
    var n := |later| - 1;
    if |events| <= n {
      var p := Position(events, eventId).value;
      assert later[p] == events[p];
      assert later[n].eventId != eventId;
      PositionStable(events, later[..n], eventId);
    } else {
      assert later == events;
    }
  }

  lemma AuthorityStable(events: seq<A.Record>, later: seq<A.Record>, eventId: string)
    requires events <= later && A.UniqueRecords(later) && FindAuthority(events, eventId).Some?
    ensures FindAuthority(later, eventId) == FindAuthority(events, eventId)
  {
    var found := FindAuthority(events, eventId).value;
    var i :| 0 <= i < |events| && events[i] == found;
    var again := FindAuthority(later, eventId);
    assert later[i] == found && later[i] in later;
    var j :| 0 <= j < |later| && later[j] == again.value;
  }

  /** The proof of a reservation is stable under everything the writers do later. */
  lemma ProvenSurvives(db: Db, after: Db, r: Reservation)
    requires Calmer(db, after) && Proven(db, r) && A.AllAccepted(after.authority) && A.UniqueRecords(after.authority)
    ensures Proven(after, r)
  {
    hide StateOf, Dispatched, Active, MatchesIntent, RiskEntry, DispatchEntry;
    PositionStable(db.events, after.events, r.riskId);
    PositionStable(db.events, after.events, r.dispatchId);
    AuthorityStable(db.authority, after.authority, r.authorityId);
  }

  lemma AllSurvive(db: Db, after: Db)
    requires Calmer(db, after) && ReservationsProven(db) && A.AllAccepted(after.authority) && A.UniqueRecords(after.authority)
    ensures forall r :: r in db.reservations ==> Proven(after, r)
  {
    forall r | r in db.reservations
      ensures Proven(after, r)
    {
      ProvenSurvives(db, after, r);
    }
    hide Proven, Calmer;
  }

  /** Nothing but a new reservation can raise what an account has taken. */
  lemma {:induction false} TakenFalls(db: Db, after: Db, reservations: seq<Reservation>, account: string)
    requires Calmer(db, after) && forall r :: r in reservations ==> Proven(db, r)
    ensures Taken(after, reservations, account) <= Taken(db, reservations, account)
  {
    hide Proven, Calmer, Share;
    if reservations != [] {
      var last := reservations[|reservations| - 1];
      assert last in reservations;
      TakenFalls(db, after, reservations[..|reservations| - 1], account);
      ShareFalls(db, after, last, account);
    }
  }

  lemma ShareFalls(db: Db, after: Db, r: Reservation, account: string)
    requires Calmer(db, after) && Proven(db, r)
    ensures 0.0 <= Share(after, r, account) <= Share(db, r, account)
  {
    hide StateOf, Dispatched, Active, AdjacentPair, ValidIntent;
    PositiveNotional(db.orders[r.orderId]);
    hide Notional;
  }

  lemma PositiveNotional(i: Intent)
    ensures WithinPolicy(i) ==> Notional(i) > 0.0
  {
    if WithinPolicy(i) {
      PositiveProduct(i.quantity as real, i.price);
    }
  }

  lemma PositiveProduct(x: real, y: real)
    requires x > 0.0 && y > 0.0
    ensures x * y > 0.0
  {}

  /******* Each writer keeps the invariant *******/

  lemma AppendKeeps(db: Db, e: Entry, paperFill: bool, paperAllowed: bool)
    requires Good(db) && ValidEntry(e) && Append(db, e, paperFill, paperAllowed).Some?
    ensures Good(Append(db, e, paperFill, paperAllowed).value.0)
  {
    hide Append, Proven, Taken, StateOf, Base, Calmer;
    var (after, s) := Append(db, e, paperFill, paperAllowed).value;
    AppendCalms(db, e, paperFill, paperAllowed);
    AppendEffect(db, e, paperFill, paperAllowed);
    CalmerBase(db, after);
    AllSurvive(db, after);
    AppendKeepsPending(db, e, after, s);
    AppendKeepsReserved(db, e, after, s, paperAllowed);
    forall account
      ensures Taken(after, after.reservations, account) <= MAX_ACCOUNT_NOTIONAL
    {
      TakenFalls(db, after, db.reservations, account);
    }
  }

  lemma CalmerBase(db: Db, after: Db)
    requires Calmer(db, after)
    ensures Base(db) && Base(after)
  {}

  /** The effect of an append on the orders' states. */
  ghost predicate Moved(db: Db, after: Db, e: Entry, s: State) {
    && Base(db) && Base(after) && after.orders == db.orders
    && (after != db ==> e.orderId in db.orders)
    && (after != db ==> Transition(At(db, e.orderId), e.change) == Some(s))
    && (after != db && e.change.SubmitDispatched? ==> Clear(db, db.orders[e.orderId].account))
    && (forall o :: o in db.orders ==> At(after, o) == if after != db && o == e.orderId then s else At(db, o))
  }

  lemma AppendKeepsPending(db: Db, e: Entry, after: Db, s: State)
    requires Moved(db, after, e, s) && OnePending(db)
    ensures OnePending(after)
  {
    hide StateOf, Transition, Base;
    if after != db {
      StateConsistent(db, e.orderId);
      if s.pending == Submit {
        PendingSubmitIsDispatch(At(db, e.orderId), e.change);
      }
    }
  }

  lemma AppendKeepsReserved(db: Db, e: Entry, after: Db, s: State, paperAllowed: bool)
    requires Moved(db, after, e, s) && DispatchReserved(db) && after.reservations == db.reservations
    requires after != db ==> GuardAllows(db, e, paperAllowed)
    ensures DispatchReserved(after)
  {
    hide StateOf, Transition, Base, FindReservation;
    if after != db && Dispatched(s) && !Dispatched(At(db, e.orderId)) {
      BecomesDispatched(At(db, e.orderId), e.change);
      if db.orders[e.orderId].mode == Synthetic {
        var r :| r in db.reservations && ReservedBy(r, e);
        ReservationFound(db.reservations, r);
      }
    }
  }

  lemma BecomesDispatched(s: State, c: Change)
    requires Transition(s, c).Some? && Dispatched(Transition(s, c).value) && !Dispatched(s)
    ensures c.SubmitDispatched?
  {}

  lemma ReservationFound(reservations: seq<Reservation>, r: Reservation)
    requires r in reservations
    ensures FindReservation(reservations, r.orderId).Some?
  {}

  /** Appending authority records changes nothing about orders. */
  lemma AuthorityKeeps(db: Db, authority: seq<A.Record>)
    requires Good(db) && db.authority <= authority && A.AllAccepted(authority) && A.UniqueRecords(authority)
    ensures Good(db.(authority := authority))
  {
    hide Proven, Taken, StateOf, Base;
    var after := db.(authority := authority);
    SameOrders(db, after);
    AllSurvive(db, after);
    forall account
      ensures Taken(after, after.reservations, account) <= MAX_ACCOUNT_NOTIONAL
    {
      TakenFalls(db, after, db.reservations, account);
    }
  }

  lemma SameOrders(db: Db, after: Db)
    requires Base(db) && after.orders == db.orders && after.events == db.events
    requires db.authority <= after.authority && db.reservations <= after.reservations
    ensures Calmer(db, after) && (forall o :: o in db.orders ==> At(after, o) == At(db, o))
    ensures OnePending(db) ==> OnePending(after)
  {
    hide StateOf;
    assert Base(after);
  }

  /** Recording an intent adds an order that has only been recorded. */
  lemma IntentEffect(db: Db, intent: Intent, orderId: string, eventId: string)
    requires Base(db) && RecordIntent(db, intent, orderId, eventId).Some? && RecordIntent(db, intent, orderId, eventId).value != db
    ensures var after := RecordIntent(db, intent, orderId, eventId).value;
      && Base(after) && orderId !in db.orders && after.orders == db.orders[orderId := intent] && db.events <= after.events
      && after.authority == db.authority && after.reservations == db.reservations
      && At(after, orderId).status == Recorded && At(after, orderId).pending == Nothing
      && (forall o :: o in db.orders ==> At(after, o) == At(db, o))
  {
    hide StateOf, ValidIntent, ValidEntry, PriorOrder;
    var after := RecordIntent(db, intent, orderId, eventId).value;
    var e := Entry(eventId, orderId, false, IntentRecorded, NoTicket);
    EntryOfIntent(e);
    forall o | o in db.orders
      ensures StateOf(after.orders, after.events, o) == StateOf(db.orders, db.events, o)
    {
      OtherOrders(db.orders, orderId, intent, after.events, o);
      StatesAfter(db.orders, db.events, e, o);
    }
    FirstState(after.orders, db.events, e);
  }

  lemma EntryOfIntent(e: Entry)
    requires e.eventId != "" && e.orderId != "" && e.change == IntentRecorded && e.ticket == NoTicket
    ensures ValidEntry(e)
  {}

  lemma OtherOrders(orders: map<string, Intent>, orderId: string, intent: Intent, events: seq<Entry>, o: string)
    requires o != orderId
    ensures StateOf(orders[orderId := intent], events, o) == StateOf(orders, events, o)
  {}

  lemma {:induction false} NoHistory(events: seq<Entry>, orderId: string)
    requires forall e :: e in events ==> e.orderId != orderId
    ensures HistoryOf(events, orderId) == []
  {
    if events != [] {
      NoHistory(events[..|events| - 1], orderId);
      assert events[|events| - 1] in events;
    }
  }

  lemma FirstState(orders: map<string, Intent>, events: seq<Entry>, e: Entry)
    requires e.orderId in orders && ValidIntent(orders[e.orderId]) && ValidEntry(e) && e.change == IntentRecorded
    requires forall x :: x in events ==> x.orderId != e.orderId
    ensures StateOf(orders, events + [e], e.orderId) == Some(State(Recorded, orders[e.orderId].quantity, 0, None, Nothing))
  {
    hide ValidEntry;
    NoHistory(events, e.orderId);
    HistoryGrows(events, e, e.orderId);
    ReplayGrows(orders[e.orderId].quantity, [], IntentRecorded);
    assert [] + [e.change] == [IntentRecorded];
    forall x | x in events + [e] && x.orderId == e.orderId
      ensures ValidEntry(x)
    {
      assert x in events || x == e;
    }
  }

  lemma IntentKeeps(db: Db, intent: Intent, orderId: string, eventId: string)
    requires Good(db) && RecordIntent(db, intent, orderId, eventId).Some?
    ensures Good(RecordIntent(db, intent, orderId, eventId).value)
  {
    hide Proven, Taken, StateOf, Base, RecordIntent;
    var after := RecordIntent(db, intent, orderId, eventId).value;
    if after != db {
      IntentEffect(db, intent, orderId, eventId);
      assert Calmer(db, after);
      AllSurvive(db, after);
      forall account
        ensures Taken(after, after.reservations, account) <= MAX_ACCOUNT_NOTIONAL
      {
        TakenFalls(db, after, db.reservations, account);
      }
    }
  }

  /******* Authorization *******/

  /** What a call that dispatches has done: one new reservation for an order that had
      none, and its two events, one right after the other, at the end of the log. */
  ghost predicate Dispatches(db: Db, orderId: string, r: Reservation, after: Db) {
    && orderId in db.orders && r.orderId == orderId && FindReservation(db.reservations, orderId).None?
    && after == db.(reservations := db.reservations + [r], events := db.events + [RiskEntry(r), DispatchEntry(r)])
  }

  lemma PairEffect(db: Db, r: Reservation)
    requires Base(db) && r.orderId in db.orders && At(db, r.orderId).status == Recorded && AuthorizedPair(db, r).Some?
    ensures var (after, s, sent) := AuthorizedPair(db, r).value;
      && sent && after == db.(events := db.events + [RiskEntry(r), DispatchEntry(r)]) && Base(after) && Calmer(db, after)
      && At(after, r.orderId) == s && s.status == SubmitUnknown
      && (forall o :: o in db.orders && o != r.orderId ==> At(after, o) == At(db, o))
  {
    hide StateOf, Append, Transition, Base, Calmer, GuardAllows, Clear;
    var risk, dispatch := RiskEntry(r), DispatchEntry(r);
    var ready := Append(db, risk, false, false).value;
    AppendEffect(db, risk, false, false);
    AppendCalms(db, risk, false, false);
    if ready.0 == db {
      SameAnswer(db, risk);
    }
    AppendEffect(ready.0, dispatch, false, false);
    AppendCalms(ready.0, dispatch, false, false);
    var after := AuthorizedPair(db, r).value.0;
    if after == ready.0 {
      SameAnswer(ready.0, dispatch);
    }
    CalmerTransitive(db, ready.0, after);
    assert (db.events + [risk]) + [dispatch] == db.events + [risk, dispatch];
  }

  /** An append that adds nothing answers with the order's state as it was. */
  lemma SameAnswer(db: Db, e: Entry)
    requires !e.change.FillRecorded? && Append(db, e, false, false).Some? && Append(db, e, false, false).value.0 == db
    ensures StateOf(db.orders, db.events, e.orderId) == Some(Append(db, e, false, false).value.1)
  {
    hide StateOf, Transition, GuardAllows, Clear, RefFree;
    assert db.events + [e] != db.events;
  }

  /** What Reserve has checked. */
  lemma ReserveFacts(db: Db, orderId: string, token: int, caller: Caller)
    requires Reserve(db, orderId, token, caller).Some?
    ensures var r := Reserve(db, orderId, token, caller).value;
      && orderId in db.orders && r.orderId == orderId && MatchesIntent(r, db.orders[orderId])
      && StateOf(db.orders, db.events, orderId).Some? && StateOf(db.orders, db.events, orderId).value.status == Recorded
      && Clear(db, r.account) && Taken(db, db.reservations, r.account) + r.notional <= MAX_ACCOUNT_NOTIONAL
      && ReservationInsertable(db, r)
      && A.Accepted(A.LogOf(db.authority, r.account))
      && r.authorityId == A.AuthorityOf(A.LogOf(db.authority, r.account)).eventId && r.token == token
      && A.Owned(A.AuthorityOf(A.LogOf(db.authority, r.account)), caller.owner, token, caller.now)
  {
    StateKnown(db.orders, db.events, orderId);
    hide StateOf, Clear, AllProven, Taken, ReservationInsertable, ValidIntent, WithinPolicy, Notional, A.LogOf, A.Accepted, A.AuthorityOf, A.Owned;
  }

  lemma LogMember(events: seq<A.Record>, account: string)
    ensures forall r :: r in A.LogOf(events, account) <==> r in events && r.account == account
  {}

  /** The record an owned lease comes from is a lease record of that account. */
  lemma LeaseRecord(events: seq<A.Record>, account: string, owner: string, token: int, now: int)
    requires A.Accepted(A.LogOf(events, account)) && A.UniqueRecords(events)
    requires A.Owned(A.AuthorityOf(A.LogOf(events, account)), owner, token, now)
    ensures var found := FindAuthority(events, A.AuthorityOf(A.LogOf(events, account)).eventId);
      && found.Some? && found.value.account == account && found.value.token == token
      && found.value.reason == A.LeaseAcquired && found.value.lease.Some?
  {
    var log := A.LogOf(events, account);
    LogMember(events, account);
    var last := log[|log| - 1];
    A.AcceptedFollows(log, |log| - 1);
    assert last in log;
    var i :| 0 <= i < |events| && events[i] == last;
    var found := FindAuthority(events, last.eventId);
    assert events[i] in events;
    var j :| 0 <= j < |events| && events[j] == found.value;
    hide A.LogOf, A.Accepted;
  }

  lemma NewReservationProven(db: Db, after: Db, r: Reservation, s: State)
    requires Base(after) && r.orderId in after.orders && MatchesIntent(r, after.orders[r.orderId])
    requires A.Accepted(A.LogOf(after.authority, r.account))
    requires var found := FindAuthority(after.authority, r.authorityId);
      && found.Some? && found.value.account == r.account && found.value.token == r.token
      && found.value.reason == A.LeaseAcquired && found.value.lease.Some?
    requires after.events == db.events + [RiskEntry(r), DispatchEntry(r)]
    requires StateOf(after.orders, after.events, r.orderId) == Some(s) && Dispatched(s)
    ensures Proven(after, r)
  {
    hide StateOf, MatchesIntent, A.LogOf, A.Accepted;
    NewPair(db.events, after.events, r);
  }

  lemma NewPair(events: seq<Entry>, after: seq<Entry>, r: Reservation)
    requires after == events + [RiskEntry(r), DispatchEntry(r)]
    requires forall i, j :: 0 <= i < j < |after| ==> after[i].eventId != after[j].eventId
    ensures AdjacentPair(after, r)
  {
    hide Position;
    var n := |events|;
    assert after[n] == RiskEntry(r) && after[n + 1] == DispatchEntry(r);
    assert after[n] in after && after[n + 1] in after;
    var p, q := Position(after, r.riskId), Position(after, r.dispatchId);
    assert after[p.value].eventId == after[n].eventId && after[q.value].eventId == after[n + 1].eventId;
  }

  /** A call that dispatches writes exactly one reservation and the two adjacent events
      it stands for. */
  lemma AuthorizeDispatches(db: Db, orderId: string, token: int, caller: Caller)
    requires Good(db) && Authorize(db, orderId, token, caller).Some? && Authorize(db, orderId, token, caller).value.2
    ensures Reserve(db, orderId, token, caller).Some?
    ensures var r := Reserve(db, orderId, token, caller).value;
      Dispatches(db, orderId, r, Authorize(db, orderId, token, caller).value.0)
  {
    hide Reserve, AuthorizedPair, StateOf, Proven, A.UniqueRecords, WithinLimit, A.AllAccepted;
    ReserveFacts(db, orderId, token, caller);
    var r := Reserve(db, orderId, token, caller).value;
    var reserved := db.(reservations := db.reservations + [r]);
    SameOrders(db, reserved);
    CalmerBase(db, reserved);
    PairEffect(reserved, r);
  }

  lemma AuthorizeKeeps(db: Db, orderId: string, token: int, caller: Caller)
    requires Good(db) && Authorize(db, orderId, token, caller).Some?
    ensures Good(Authorize(db, orderId, token, caller).value.0)
  {
    hide *;
    if Authorize(db, orderId, token, caller).value.2 {
      AuthorizeDispatches(db, orderId, token, caller);
      ReserveFacts(db, orderId, token, caller);
      AuthorizeIs(db, orderId, token, caller);
      DispatchKeeps(db, token, caller, Reserve(db, orderId, token, caller).value, Authorize(db, orderId, token, caller).value.0);
    } else {
      AuthorizeAgain(db, orderId, token, caller);
    }
  }

  lemma AuthorizeIs(db: Db, orderId: string, token: int, caller: Caller)
    requires Authorize(db, orderId, token, caller).Some? && Authorize(db, orderId, token, caller).value.2
    requires Reserve(db, orderId, token, caller).Some?
    ensures var r := Reserve(db, orderId, token, caller).value;
      AuthorizedPair(db.(reservations := db.reservations + [r]), r) == Authorize(db, orderId, token, caller)
  {
    hide Reserve, AuthorizedPair, StateOf, Proven, FindReservation, AuthorityProven;
  }

  lemma DispatchKeeps(db: Db, token: int, caller: Caller, r: Reservation, after: Db)
    requires Good(db) && r.orderId in db.orders && MatchesIntent(r, db.orders[r.orderId])
    requires StateOf(db.orders, db.events, r.orderId).Some? && StateOf(db.orders, db.events, r.orderId).value.status == Recorded
    requires Clear(db, r.account) && Taken(db, db.reservations, r.account) + r.notional <= MAX_ACCOUNT_NOTIONAL
    requires ReservationInsertable(db, r) && A.Accepted(A.LogOf(db.authority, r.account)) && r.token == token
    requires r.authorityId == A.AuthorityOf(A.LogOf(db.authority, r.account)).eventId
    requires A.Owned(A.AuthorityOf(A.LogOf(db.authority, r.account)), caller.owner, token, caller.now)
    requires var result := AuthorizedPair(db.(reservations := db.reservations + [r]), r); result.Some? && result.value.0 == after
    ensures Good(after)
  {
    hide StateOf, AuthorizedPair, Proven, WithinPolicy, ValidIntent, Notional, Taken, Base, Calmer, A.LogOf, A.Accepted, A.AuthorityOf, A.Owned, A.AllAccepted,
      A.UniqueRecords, FindReservation, FindAuthority, ReservationInsertable;
    var reserved := db.(reservations := db.reservations + [r]);
    SameOrders(db, reserved);
    CalmerBase(db, reserved);
    PairEffect(reserved, r);
    CalmerTransitive(db, reserved, after);
    AllSurvive(db, after);
    LeaseRecord(db.authority, r.account, caller.owner, token, caller.now);
    StateIsAt(after, r.orderId);
    NewReservationProven(db, after, r, At(after, r.orderId));
    UniqueGrows(db, r);
    LimitHolds(db, after, r);
    PendingHolds(db, after, r);
    ReservedHolds(db, after, r);
  }

  lemma StateIsAt(db: Db, o: string)
    requires Base(db) && o in db.orders
    ensures StateOf(db.orders, db.events, o) == Some(At(db, o))
  {
    hide StateOf;
  }

  lemma UniqueGrows(db: Db, r: Reservation)
    requires UniqueReservations(db.reservations) && ReservationInsertable(db, r)
    ensures UniqueReservations(db.reservations + [r])
  {
    hide FindAuthority;
    forall i | 0 <= i < |db.reservations|
      ensures db.reservations[i] in db.reservations
    {}
  }

  lemma LimitHolds(db: Db, after: Db, r: Reservation)
    requires Calmer(db, after) && ReservationsProven(db) && WithinLimit(db) && after.reservations == db.reservations + [r]
    requires r.orderId in db.orders && MatchesIntent(r, db.orders[r.orderId])
    requires Taken(db, db.reservations, r.account) + r.notional <= MAX_ACCOUNT_NOTIONAL
    ensures WithinLimit(after)
  {
    hide Calmer, Proven, StateOf;
    forall account
      ensures Taken(after, after.reservations, account) <= MAX_ACCOUNT_NOTIONAL
    {
      TakenFalls(db, after, db.reservations, account);
      TakenLast(after, db.reservations, r, account);
      NotionalPositive(r, db.orders[r.orderId]);
      hide Taken;
    }
  }

  lemma TakenLast(db: Db, reservations: seq<Reservation>, r: Reservation, account: string)
    ensures Taken(db, reservations + [r], account) == Taken(db, reservations, account) + Share(db, r, account)
  {
    assert (reservations + [r])[..|reservations|] == reservations;
    hide Share;
  }

  lemma NotionalPositive(r: Reservation, i: Intent)
    requires MatchesIntent(r, i)
    ensures r.notional > 0.0
  {
    PositiveNotional(i);
    hide Notional, ValidIntent;
  }

  lemma PendingHolds(db: Db, after: Db, r: Reservation)
    requires Base(db) && Base(after) && after.orders == db.orders && r.orderId in db.orders && r.account == db.orders[r.orderId].account
    requires OnePending(db) && Clear(db, r.account) && forall o :: o in db.orders && o != r.orderId ==> At(after, o) == At(db, o)
    ensures OnePending(after)
  {
    hide Base, StateOf;
  }

  lemma ReservedHolds(db: Db, after: Db, r: Reservation)
    requires Base(db) && Base(after) && after.orders == db.orders && after.reservations == db.reservations + [r]
    requires DispatchReserved(db) && forall o :: o in db.orders && o != r.orderId ==> At(after, o) == At(db, o)
    ensures DispatchReserved(after)
  {
    hide Base, StateOf, FindReservation;
    forall o | o in after.orders && after.orders[o].mode == Synthetic && Dispatched(At(after, o))
      ensures FindReservation(after.reservations, o).Some?
    {
      if o == r.orderId {
        assert r in after.reservations;
        ReservationFound(after.reservations, r);
      } else {
        var found := FindReservation(db.reservations, o).value;
        assert found in after.reservations;
        ReservationFound(after.reservations, found);
      }
    }
  }

  /** A call that dispatches leaves its order waiting for the broker's answer. */
  lemma AuthorizedWaits(db: Db, orderId: string, token: int, caller: Caller)
    requires Good(db) && Authorize(db, orderId, token, caller).Some? && Authorize(db, orderId, token, caller).value.2
    ensures var (after, s, sent) := Authorize(db, orderId, token, caller).value;
      && orderId != "" && Base(after) && orderId in after.orders
      && At(after, orderId) == s && s.status == SubmitUnknown && s.pending == Submit
  {
    hide Reserve, StateOf, Proven, A.UniqueRecords, WithinLimit, A.AllAccepted, Append, Base;
    ReserveFacts(db, orderId, token, caller);
    var r := Reserve(db, orderId, token, caller).value;
    var reserved := db.(reservations := db.reservations + [r]);
    SameOrders(db, reserved);
    CalmerBase(db, reserved);
    PairEffect(reserved, r);
  }

  /** A repeated call answers from the stored reservation and writes nothing. */
  lemma AuthorizeAgain(db: Db, orderId: string, token: int, caller: Caller)
    requires Authorize(db, orderId, token, caller).Some? && !Authorize(db, orderId, token, caller).value.2
    ensures Authorize(db, orderId, token, caller).value.0 == db && FindReservation(db.reservations, orderId).Some?
  {
    hide Reserve, Append, StateOf, Proven, FindReservation, Position, AuthorityProven;
  }
}
