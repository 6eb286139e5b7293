/** The order and authority writers as methods over the tables they share, and the
    submit protocol as one process runs it.
  */
module OrderService {
  import opened Results
  import opened OrderDomain
  import opened OrderStore
  import opened Dispatch
  import opened OrderInvariants
  import opened SubmitProtocol
  import A = ExecutionAuthority

  /** What the broker answers to the one external call. */
  datatype Outcome = Accepted(ref: string) | Refused | Unknown

  function AnswerEntry(orderId: string, outcome: Outcome, eventId: string): Entry
    requires !outcome.Unknown?
  {
    Entry(eventId, orderId, true, if outcome.Refused? then SubmitRejected else SubmitAcknowledged(outcome.ref), NoTicket)
  }

  /** What the broker's answer does to the tables; an unknown outcome does nothing. */
  function Answered(db: Db, orderId: string, outcome: Outcome, eventId: string): (Db, Option<State>) {
    if outcome.Unknown? || !ValidEntry(AnswerEntry(orderId, outcome, eventId)) then (db, None)
    else
      match Append(db, AnswerEntry(orderId, outcome, eventId), false, false)
      case None => (db, None)
      case Some((after, s)) => (after, Some(s))
  }

  /** The whole submission: the tables after, the answer, and whether the broker was called. */
  function Submission(db: Db, orderId: string, token: int, caller: Caller, preflightOk: bool, outcome: Outcome, eventId: string)
    : (Db, Option<State>, bool)
  {
    if orderId !in db.orders || db.orders[orderId].mode != Synthetic || token <= 0 || !preflightOk then (db, None, false)
    else
      match Dispatch.Authorize(db, orderId, token, caller)
      case None => (db, None, false)
      case Some((after, s, dispatched)) =>
        if !dispatched then (after, None, false)
        else
          var (final, answer) := Answered(after, orderId, outcome, eventId);
          (final, answer, true)
  }

  /** An answer the log can take: a refusal, or a reference that no other order has. */
  ghost predicate Answerable(db: Db, orderId: string, outcome: Outcome)
    requires Base(db) && orderId in db.orders
  {
    match outcome
    case Unknown => false
    case Refused => true
    case Accepted(ref) =>
      && ref != "" && Bind(At(db, orderId), ref).Some?
      && forall p :: p in db.events && RefOf(p.change) == ref ==> p.orderId == orderId
  }

  /** The state a recorded answer leaves. */
  predicate Decided(s: State, outcome: Outcome) {
    && s.pending == Nothing
    && match outcome
       case Unknown => false
       case Refused => s.status == Rejected
       case Accepted(ref) => s.status == OrderDomain.Open && s.ref == Some(ref)
  }

  lemma StillPending(db: Db, orderId: string)
    requires Base(db) && orderId in db.orders && At(db, orderId).pending == Submit
    ensures !Clear(db, db.orders[orderId].account)
  {
    hide StateOf;
  }

  /** With a new event id the append path has only its own conditions to check. */
  lemma NewAnswer(db: Db, e: Entry)
    requires Base(db) && e.orderId in db.orders && FindEvent(db.events, e.eventId).None? && e.ticket.NoTicket?
    requires e.change.SubmitAcknowledged? || e.change.SubmitRejected?
    ensures Append(db, e, false, false).Some? <==> RefFree(db.events, e) && Transition(At(db, e.orderId), e.change).Some?
    ensures Append(db, e, false, false).Some? ==>
      Append(db, e, false, false).value == (db.(events := db.events + [e]), Transition(At(db, e.orderId), e.change).value)
  {
    hide StateOf, Transition, RefFree, FindEvent, Clear;
    StateIsAt(db, e.orderId);
  }

  lemma GrownEvents(db: Db, after: Db, e: Entry)
    requires after == db.(events := db.events + [e])
    ensures after != db
  {
    assert |after.events| == |db.events| + 1;
  }

  /** After a dispatch the answer is recorded exactly when it can be: an order accepted is
      open under the broker's reference, one refused is rejected, and in every other case
      its submit stays pending, which keeps the account from dispatching again. */
  lemma OutcomeDecides(db: Db, orderId: string, outcome: Outcome, eventId: string)
    requires Base(db) && orderId in db.orders && orderId != "" && eventId != "" && FindEvent(db.events, eventId).None?
    requires At(db, orderId).status == SubmitUnknown && At(db, orderId).pending == Submit
    ensures var (after, answer) := Answered(db, orderId, outcome, eventId);
      && (answer.Some? <==> Answerable(db, orderId, outcome))
      && Base(after) && orderId in after.orders
      && (answer.Some? ==> At(after, orderId) == answer.value && Decided(answer.value, outcome))
      && (answer.None? ==> after == db && !Clear(after, db.orders[orderId].account))
  {
    hide StateOf, Base, Clear, Append, FindEvent, Transition, RefFree, Answerable, Decided, ValidEntry, GuardAllows, At;
    StillPending(db, orderId);
    if !outcome.Unknown? {
      var e := AnswerEntry(orderId, outcome, eventId);
      AnswerValid(db, orderId, outcome, eventId);
      if ValidEntry(e) {
        NewAnswer(db, e);
        if Append(db, e, false, false).Some? {
          AppendEffect(db, e, false, false);
          GrownEvents(db, Append(db, e, false, false).value.0, e);
        }
      }
    } else {
      UnknownDecides(db, orderId);
    }
  }

  lemma UnknownDecides(db: Db, orderId: string)
    requires Base(db) && orderId in db.orders
    ensures !Answerable(db, orderId, Unknown)
  {
    hide Base;
  }

  /** The entry's own conditions are those of an answerable outcome. */
  lemma AnswerValid(db: Db, orderId: string, outcome: Outcome, eventId: string)
    requires Base(db) && orderId in db.orders && orderId != "" && eventId != "" && !outcome.Unknown?
    requires At(db, orderId).status == SubmitUnknown && At(db, orderId).pending == Submit
    ensures var e := AnswerEntry(orderId, outcome, eventId);
      var next := Transition(At(db, orderId), e.change);
      && (Answerable(db, orderId, outcome) <==> ValidEntry(e) && RefFree(db.events, e) && next.Some?)
      && (next.Some? ==> Decided(next.value, outcome))
  {
    hide Base, StateOf, Bind;
    BindIs(At(db, orderId), if outcome.Accepted? then outcome.ref else "");
  }

  lemma BindIs(s: State, ref: string)
    ensures Bind(s, ref).Some? ==> Bind(s, ref).value == s.(ref := Some(ref))
  {}

  /** One submission by a process that does not crash: if the broker was called, its
      answer is in the log exactly when the log can take it, as an open or a rejected
      order; otherwise the order still waits and its account cannot dispatch again. */
  lemma SubmissionDecides(db: Db, orderId: string, token: int, caller: Caller, preflightOk: bool, outcome: Outcome, eventId: string)
    requires Good(db) && eventId != "" && Submission(db, orderId, token, caller, preflightOk, outcome, eventId).2
    requires FindEvent(Dispatch.Authorize(db, orderId, token, caller).value.0.events, eventId).None?
    ensures var (after, answer, _) := Submission(db, orderId, token, caller, preflightOk, outcome, eventId);
      var dispatched := Dispatch.Authorize(db, orderId, token, caller).value.0;
      && Base(dispatched) && orderId in dispatched.orders && Base(after) && orderId in after.orders
      && (answer.Some? <==> Answerable(dispatched, orderId, outcome))
      && (answer.Some? ==> At(after, orderId) == answer.value && Decided(answer.value, outcome))
      && (answer.None? ==> after == dispatched && !Clear(after, after.orders[orderId].account))
  {
    hide Good, Base, Dispatch.Authorize, Answered, Answerable, Decided, Clear, At, FindEvent;
    AuthorizedWaits(db, orderId, token, caller);
    OutcomeDecides(Dispatch.Authorize(db, orderId, token, caller).value.0, orderId, outcome, eventId);
  }

  class OrderBook {
    var orders: map<string, Intent>
    var events: seq<Entry>
    var authority: seq<A.Record>
    var reservations: seq<Reservation>
    /** Orders handed to the broker by this process. */
    var sent: seq<string>

    function Tables(): Db
      reads this
    {
      Db(orders, events, authority, reservations)
    }

    constructor ()
      ensures Tables() == EMPTY_DB && Good(Tables()) && sent == []
    {
      orders, events, authority, reservations, sent := map[], [], [], [], [];
      new;
      EmptyIsGood();
      hide Good;
    }

    /** appendOrderEventTxMode: every check before the one insert. */
    method AppendEvent(e: Entry, paperFill: bool, paperAllowed: bool) returns (r: Option<State>)
      modifies this`events
      ensures var result := Append(old(Tables()), e, paperFill, paperAllowed);
        && r == (if result.Some? then Some(result.value.1) else None)
        && Tables() == (if result.Some? then result.value.0 else old(Tables()))
    {
      hide StateOf, Transition, GuardAllows, Clear, RefFree;
      if e.change.FillRecorded? && (e.orderId !in orders || paperFill != (orders[e.orderId].mode == CapitalizedPaper)) {
        return None;
      }
      var prior := FindEvent(events, e.eventId);
      if prior.Some? {
        if prior.value != e {
          return None;
        }
        r := LoadState(orders, events, e.orderId);
        return;
      }
      var execution := FindExecution(events, ExecutionOf(e.change));
      if ExecutionOf(e.change) != "" && execution.Some? {
        if !SameExecution(execution.value, e) {
          return None;
        }
        r := LoadState(orders, events, execution.value.orderId);
        return;
      }
      var state := LoadState(orders, events, e.orderId);
      if state.None? {
        return None;
      }
      StateKnown(orders, events, e.orderId);
      if e.change.SubmitDispatched? {
        var blocked := HasUnresolved(Tables(), orders[e.orderId].account);
        if blocked != Some(false) {
          return None;
        }
      }
      if !RefFree(events, e) {
        return None;
      }
      var next := Transition(state.value, e.change);
      if next.None? || !GuardAllows(Tables(), e, paperAllowed) {
        return None;
      }
      events := events + [e];
      r := next;
    }

    /** setSyntheticExecutionArmed. */
    method SetArmed(account: string, armed: bool, eventId: string, now: int) returns (ok: bool)
      modifies this`authority
      ensures var result := A.SetArmed(old(authority), account, armed, eventId, now);
        ok == result.Some? && authority == (if ok then result.value else old(authority))
    {
      hide A.Accepted, A.LogOf, A.AuthorityOf, A.Insertable;
      var current := A.LoadAuthority(authority, account);
      if current.None? {
        return false;
      }
      if current.value.armed == armed {
        return true;
      }
      var record := A.Record(eventId, account, armed, None, current.value.token + 1, if armed then A.ManualArm else A.ManualHalt, "", now);
      ok := A.Insertable(authority, record);
      if ok {
        authority := authority + [record];
      }
    }

    /** acquireSyntheticExecutionLease. */
    method AcquireLease(account: string, owner: string, eventId: string, now: int) returns (ok: bool)
      modifies this`authority
      ensures var result := A.Acquire(old(authority), account, owner, eventId, now);
        ok == result.Some? && authority == (if ok then result.value else old(authority))
    {
      hide A.Accepted, A.LogOf, A.AuthorityOf, A.Insertable;
      var current := A.LoadAuthority(authority, account);
      if current.None? || !current.value.armed {
        return false;
      }
      var lease := current.value.lease;
      if lease.Some? && now < lease.value.expiresAt {
        return lease.value.owner == owner;
      }
      var record := A.LeaseRecord(account, owner, current.value.token + 1, eventId, now);
      ok := A.Insertable(authority, record);
      if ok {
        authority := authority + [record];
      }
    }

    /** authorizeSyntheticDispatchOnce; every table is put back when a step fails. */
    method Authorize(orderId: string, token: int, caller: Caller) returns (r: Option<(State, bool)>)
      modifies this`events, this`reservations
      ensures var result := Dispatch.Authorize(old(Tables()), orderId, token, caller);
        && r == (if result.Some? then Some((result.value.1, result.value.2)) else None)
        && Tables() == (if result.Some? then result.value.0 else old(Tables()))
    {
      hide StateOf, Proven, Reserve, Append, Position, FindReservation, AuthorityProven, ValidEntry;
      if orderId == "" || token <= 0 || !AuthorityProven(authority) {
        return None;
      }
      var found := FindReservation(reservations, orderId);
      if found.Some? {
        if !Proven(Tables(), found.value) {
          return None;
        }
        var state := LoadState(orders, events, orderId);
        return if state.Some? then Some((state.value, false)) else None;
      }
      var reserved := CheckAndReserve(orderId, token, caller);
      if reserved.None? {
        return None;
      }
      var reservation := reserved.value;
      var before, pair := events, [RiskEntry(reservation), DispatchEntry(reservation)];
      reservations := reservations + [reservation];
      var ready := AppendEvent(pair[0], false, false);
      if ready.Some? && ValidEntry(pair[0]) && ValidEntry(pair[1]) && ready.value.status == Ready {
        var sentState := AppendEvent(pair[1], false, false);
        var p, q := Position(events, reservation.riskId), Position(events, reservation.dispatchId);
        if sentState.Some? && sentState.value.status == SubmitUnknown && sentState.value.pending == Submit
           && p.Some? && q.Some? && q.value == p.value + 1 {
          return Some((sentState.value, true));
        }
      }
      events, reservations := before, reservations[..|reservations| - 1];
      r := None;
    }

    /** The checks that come before the reservation is written. */
    method CheckAndReserve(orderId: string, token: int, caller: Caller) returns (r: Option<Reservation>)
      ensures r == Reserve(Tables(), orderId, token, caller)
    {
      hide StateOf, Clear, AllProven, Taken, ReservationInsertable, WithinPolicy, A.Accepted, A.LogOf, A.AuthorityOf, A.Owned, Notional;
      var state := LoadState(orders, events, orderId);
      if state.None? {
        return None;
      }
      StateKnown(orders, events, orderId);
      var intent := orders[orderId];
      if state.value.status != Recorded || state.value.pending != Nothing || !WithinPolicy(intent) {
        return None;
      }
      var a := A.LoadAuthority(authority, intent.account);
      if a.None? || !A.Owned(a.value, caller.owner, token, caller.now) {
        return None;
      }
      var blocked := HasUnresolved(Tables(), intent.account);
      if blocked != Some(false) {
        return None;
      }
      var active := ActiveReserved(Tables(), intent.account);
      if active.None? || active.value + Notional(intent) > MAX_ACCOUNT_NOTIONAL {
        return None;
      }
      var reservation := ReservationFor(orderId, intent, a.value.eventId, token, caller);
      r := if ReservationInsertable(Tables(), reservation) then Some(reservation) else None;
    }

    /** submitAuthorizedLimitOrder by one process that does not crash: the external call is
        made only after a dispatch of its own has been committed. */
    method SubmitLimitOrder(orderId: string, token: int, caller: Caller, preflightOk: bool, outcome: Outcome, eventId: string)
      returns (answer: Option<State>)
      requires Good(Tables())
      modifies this
      ensures var r := Submission(old(Tables()), orderId, token, caller, preflightOk, outcome, eventId);
        Tables() == r.0 && answer == r.1 && sent == if r.2 then old(sent) + [orderId] else old(sent)
      ensures Good(Tables()) && old(reservations) <= reservations
      ensures sent != old(sent) ==> !Committed(old(Tables()), orderId) && Committed(Tables(), orderId)
      ensures Committed(old(Tables()), orderId) ==> Tables() == old(Tables())
    {
      hide Good, Committed, Dispatch.Authorize, Append, Reserve, ValidEntry, Base;
      if orderId !in orders || orders[orderId].mode != Synthetic || token <= 0 || !preflightOk {
        return None;
      }
      ghost var before := Tables();
      var authorized := Authorize(orderId, token, caller);
      if authorized.None? {
        return None;
      }
      AuthorizeKeeps(before, orderId, token, caller);
      AuthorizeReservations(before, orderId, token, caller);
      if !authorized.value.1 {
        AuthorizeAgain(before, orderId, token, caller);
        return None;
      }
      AuthorizeDispatches(before, orderId, token, caller);
      NotCommitted(before, orderId);
      NowCommitted(Tables(), Reserve(before, orderId, token, caller).value);
      sent := sent + [orderId];
      ghost var dispatched := Tables();
      match outcome {
        case Unknown => return None;
        case _ =>
      }
      var e := AnswerEntry(orderId, outcome, eventId);
      if !ValidEntry(e) {
        return None;
      }
      answer := AppendEvent(e, false, false);
      AnswerKeeps(dispatched, e, orderId);
    }
  }

  lemma AnswerKeeps(db: Db, e: Entry, orderId: string)
    requires Good(db) && ValidEntry(e) && Committed(db, orderId)
    ensures var r := Append(db, e, false, false);
      r.Some? ==> Good(r.value.0) && r.value.0.reservations == db.reservations && Committed(r.value.0, orderId)
  {
    hide Good, Committed, Append, ValidEntry, Base;
    if Append(db, e, false, false).Some? {
      GoodAuthority(db);
      AppendKeeps(db, e, false, false);
      AppendEffect(db, e, false, false);
      CommittedStays(db, Append(db, e, false, false).value.0, orderId);
    }
  }
}
