/** The money limits of synthetic execution, in units and prices: what a reservation holds
    (services/core/execution_authority.go:330-400) and when a dispatch is authorized
    (181-267).
  */
module AccountLimit {
  import opened Results
  import opened Sums
  import opened OrderDomain
  import opened OrderStore
  import opened Dispatch
  import opened OrderInvariants

  /******* What may be lost *******/

  /** Sent to the broker, or about to be, and not known to be over. */
  ghost predicate AtRisk(db: Db, o: string)
    requires Base(db) && o in db.orders
  {
    var s := At(db, o);
    || s.pending != Nothing || s.status == SubmitUnknown || s.status == OrderDomain.Open || s.status == PartiallyFilled
    || s.status == CancelUnknown
  }

  /** Quantity times price of every synthetic order of the account at risk. */
  ghost function Values(db: Db, account: string): map<string, real>
    requires Base(db)
  {
    map o | o in db.orders && db.orders[o].account == account && db.orders[o].mode == Synthetic && AtRisk(db, o) ::
      db.orders[o].quantity as real * db.orders[o].price
  }

  /** The shares of the first n reservations, by order. */
  ghost function Shares(db: Db, reservations: seq<Reservation>, account: string): map<string, real> {
    if reservations == [] then map[]
    else
      var r := reservations[|reservations| - 1];
      var before := Shares(db, reservations[..|reservations| - 1], account);
      if r.account == account && StateOf(db.orders, db.events, r.orderId).Some? && Active(StateOf(db.orders, db.events, r.orderId).value)
      then before[r.orderId := r.notional] else before
  }

  lemma {:induction false} SharesAre(db: Db, reservations: seq<Reservation>, account: string)
    requires UniqueReservations(reservations)
    ensures forall o :: o in Shares(db, reservations, account) ==> exists r :: r in reservations && r.orderId == o
    ensures Total(Shares(db, reservations, account)) == Taken(db, reservations, account)
  {
    hide StateOf, Active, Total;
    if reservations == [] {
      NothingShared(Shares(db, [], account));
    } else {
      var n, r := |reservations| - 1, reservations[|reservations| - 1];
      var before := Shares(db, reservations[..n], account);
      SharesAre(db, reservations[..n], account);
      assert r.orderId !in before;
      TotalUpdate(before, r.orderId, r.notional);
    }
  }

  lemma NothingShared(m: map<string, real>)
    requires m == map[]
    ensures Total(m) == 0.0
  {}

  lemma {:induction false} ShareOf(db: Db, reservations: seq<Reservation>, account: string, r: Reservation)
    requires UniqueReservations(reservations) && r in reservations && r.account == account
    requires StateOf(db.orders, db.events, r.orderId).Some? && Active(StateOf(db.orders, db.events, r.orderId).value)
    ensures r.orderId in Shares(db, reservations, account) && Shares(db, reservations, account)[r.orderId] == r.notional
  {
    hide StateOf, Active;
    var n := |reservations| - 1;
    if reservations[n] != r {
      assert r in reservations[..n];
      ShareOf(db, reservations[..n], account, r);
      var i :| 0 <= i < n && reservations[i] == r;
      assert reservations[i].orderId != reservations[n].orderId;
    }
  }

  /** A part of a map of non-negative amounts adds up to no more than the map. */
  lemma {:induction false} PartTotal(part: map<string, real>, whole: map<string, real>)
    requires forall k :: k in part ==> k in whole && whole[k] == part[k]
    requires forall k :: k in whole ==> whole[k] >= 0.0
    ensures Total(part) <= Total(whole)
    decreases |whole|
  {
    if k :| k in whole {
      TotalRemove(whole, k);
      assert (whole - {k}).Keys == whole.Keys - {k};
      if k in part {
        TotalRemove(part, k);
        PartTotal(part - {k}, whole - {k});
      } else {
        PartTotal(part, whole - {k});
      }
    } else {
      assert part == map[] && whole == map[];
    }
  }

  /** What a proven reservation says of its order. */
  lemma ReservationSays(db: Db, r: Reservation)
    requires Base(db) && Proven(db, r)
    ensures r.orderId in db.orders
    ensures var i := db.orders[r.orderId];
      && r.account == i.account && r.quantity == i.quantity && r.price == i.price && 1 <= i.quantity <= 10 && i.price > 0.0
      && r.notional == i.quantity as real * i.price && 0.0 < r.notional <= 1000000.0
  {
    hide StateOf, AdjacentPair, A.Accepted, A.LogOf, Base;
    Worth(db.orders[r.orderId].quantity as real, db.orders[r.orderId].price);
  }

  lemma Worth(quantity: real, price: real)
    requires quantity > 0.0 && price > 0.0
    ensures quantity * price > 0.0
  {}

  lemma SharesPositive(db: Db, reservations: seq<Reservation>, account: string)
    requires Base(db) && forall r :: r in reservations ==> Proven(db, r)
    ensures forall o :: o in Shares(db, reservations, account) ==> Shares(db, reservations, account)[o] >= 0.0
  {
    hide StateOf, Active, Proven, Base;
    if reservations != [] {
      SharesPositive(db, reservations[..|reservations| - 1], account);
      ReservationSays(db, reservations[|reservations| - 1]);
    }
  }

  /** A synthetic order at risk holds the share its quantity times its price asks for. */
  lemma RiskIsShared(db: Db, account: string, o: string)
    requires Good(db) && o in db.orders && db.orders[o].account == account && db.orders[o].mode == Synthetic && AtRisk(db, o)
    ensures o in Shares(db, db.reservations, account)
    ensures Shares(db, db.reservations, account)[o] == db.orders[o].quantity as real * db.orders[o].price
  {
    hide StateOf, Base, Proven, WithinLimit, OnePending, Shares;
    StateConsistent(db, o);
    StateIsAt(db, o);
    var r := FindReservation(db.reservations, o).value;
    ReservationSays(db, r);
    ShareOf(db, db.reservations, account, r);
  }

  /** In every state the writers can reach, each reservation holds its order's quantity
      times its price, at most a million, for at most ten units; and the synthetic orders
      of an account that may still be executed are worth at most a million together. */
  lemma MoneyAtRisk(db: Db, account: string)
    requires Good(db)
    ensures forall r :: r in db.reservations ==>
      && r.orderId in db.orders && r.account == db.orders[r.orderId].account
      && r.quantity == db.orders[r.orderId].quantity && r.price == db.orders[r.orderId].price
      && 1 <= r.quantity <= 10 && r.notional == r.quantity as real * r.price <= 1000000.0
    ensures Total(Values(db, account)) <= 1000000.0
  {
    hide StateOf, Base, Proven, Shares, Total, Active;
    forall r | r in db.reservations
      ensures r.orderId in db.orders && r.account == db.orders[r.orderId].account
      ensures r.quantity == db.orders[r.orderId].quantity && r.price == db.orders[r.orderId].price
      ensures 1 <= r.quantity <= 10 && r.notional == r.quantity as real * r.price <= 1000000.0
    {
      ReservationSays(db, r);
    }
    SharesAre(db, db.reservations, account);
    SharesPositive(db, db.reservations, account);
    forall o | o in Values(db, account)
      ensures o in Shares(db, db.reservations, account) && Shares(db, db.reservations, account)[o] == Values(db, account)[o]
    {
      RiskIsShared(db, account, o);
    }
    PartTotal(Values(db, account), Shares(db, db.reservations, account));
  }

  /******* When a dispatch is authorized *******/

  /** Quantity times price of the account's reserved orders at risk. */
  ghost function ReservedValues(db: Db, account: string): map<string, real>
    requires Base(db)
  {
    map o | o in db.orders && db.orders[o].account == account && AtRisk(db, o) && (exists r :: r in db.reservations && r.orderId == o) ::
      db.orders[o].quantity as real * db.orders[o].price
  }

  lemma {:induction false} SharedIsReserved(db: Db, reservations: seq<Reservation>, account: string, o: string)
    requires o in Shares(db, reservations, account)
    ensures StateOf(db.orders, db.events, o).Some? && Active(StateOf(db.orders, db.events, o).value)
    ensures exists r :: r in reservations && r.orderId == o && r.account == account && Shares(db, reservations, account)[o] == r.notional
  {
    hide StateOf, Active;
    var n, r := |reservations| - 1, reservations[|reservations| - 1];
    if r.orderId == o && r.account == account && StateOf(db.orders, db.events, o).Some? && Active(StateOf(db.orders, db.events, o).value) {
      assert r in reservations;
    } else {
      SharedIsReserved(db, reservations[..n], account, o);
      var p :| p in reservations[..n] && p.orderId == o && p.account == account && Shares(db, reservations[..n], account)[o] == p.notional;
      assert p in reservations;
    }
  }

  /** The running total of the reservations is what their orders are worth. */
  lemma TakenIsWorth(db: Db, account: string)
    requires Good(db)
    ensures Taken(db, db.reservations, account) == Total(ReservedValues(db, account))
  {
    hide StateOf, Base, Proven, Shares, Total, WithinLimit, OnePending, Taken;
    SharesAre(db, db.reservations, account);
    var shares, values := Shares(db, db.reservations, account), ReservedValues(db, account);
    forall o | o in shares
      ensures o in values && values[o] == shares[o]
    {
      SharedIsReserved(db, db.reservations, account, o);
      var r :| r in db.reservations && r.orderId == o && r.account == account && shares[o] == r.notional;
      ReservationSays(db, r);
      StateIsAt(db, o);
    }
    forall o | o in values
      ensures o in shares
    {
      var r :| r in db.reservations && r.orderId == o;
      ReservationSays(db, r);
      StateIsAt(db, o);
      ShareOf(db, db.reservations, account, r);
    }
    assert shares == values;
  }

  /** The newest record of the account's log is a lease of this owner and token that
      has not run out. */
  ghost predicate Leased(db: Db, account: string, token: int, caller: Caller) {
    var log := A.LogOf(db.authority, account);
    && log != [] && token == |log|
    && (var r := log[|log| - 1]; r.armed && r.lease.Some? && r.lease.value.owner == caller.owner && caller.now < r.lease.value.expiresAt)
  }

  /** The three identifiers are new and distinct. */
  ghost predicate NewIds(db: Db, caller: Caller) {
    && caller.reservationId != "" && caller.riskId != "" && caller.dispatchId != "" && caller.riskId != caller.dispatchId
    && (forall r :: r in db.reservations ==> r.id != caller.reservationId && r.riskId != caller.riskId && r.dispatchId != caller.dispatchId)
    && (forall e :: e in db.events ==> e.eventId != caller.riskId && e.eventId != caller.dispatchId)
  }

  /** The order is a small synthetic buy of one of the two stocks. */
  predicate SmallBuy(i: Intent) {
    && i.mode == Synthetic && i.side == OrderStore.Buy && (i.symbol == "005930" || i.symbol == "000660")
    && 1 <= i.quantity <= 10 && i.price > 0.0 && i.quantity as real * i.price <= 1000000.0
  }

  ghost predicate MayDispatch(db: Db, orderId: string, token: int, caller: Caller)
    requires Base(db)
  {
    && orderId in db.orders && SmallBuy(db.orders[orderId]) && At(db, orderId).status == Recorded
    && (forall r :: r in db.reservations ==> r.orderId != orderId)
    && Leased(db, db.orders[orderId].account, token, caller) && NewIds(db, caller)
    && (forall o :: o in db.orders && db.orders[o].account == db.orders[orderId].account ==> At(db, o).pending == Nothing)
    && Total(ReservedValues(db, db.orders[orderId].account)) + db.orders[orderId].quantity as real * db.orders[orderId].price <= 1000000.0
  }

  /** What a reservation is made of. */
  lemma ReserveGives(db: Db, orderId: string, token: int, caller: Caller)
    requires Reserve(db, orderId, token, caller).Some?
    ensures var r := Reserve(db, orderId, token, caller).value;
      && r.id == caller.reservationId && r.riskId == caller.riskId && r.dispatchId == caller.dispatchId
      && r.token == token && r.orderId == orderId
  {
    hide StateOf, A.Load, A.Owned, Clear, AllProven, Taken, Notional, WithinPolicy, ReservationInsertable;
  }

  /** Both sides of the checks before the reservation. */
  lemma ReserveExactly(db: Db, orderId: string, token: int, caller: Caller)
    requires Good(db) && FindReservation(db.reservations, orderId).None?
    ensures Reserve(db, orderId, token, caller).Some? <==>
      && orderId in db.orders && At(db, orderId).status == Recorded && WithinPolicy(db.orders[orderId])
      && Leased(db, db.orders[orderId].account, token, caller) && Clear(db, db.orders[orderId].account)
      && Taken(db, db.reservations, db.orders[orderId].account) + Notional(db.orders[orderId]) <= MAX_ACCOUNT_NOTIONAL
      && ReservationsFree(db, caller)
    ensures Reserve(db, orderId, token, caller).Some? ==>
      Reserve(db, orderId, token, caller).value.id == caller.reservationId
      && Reserve(db, orderId, token, caller).value.riskId == caller.riskId
      && Reserve(db, orderId, token, caller).value.dispatchId == caller.dispatchId
      && Reserve(db, orderId, token, caller).value.token == token && Reserve(db, orderId, token, caller).value.orderId == orderId
  {
    hide StateOf, Base, Proven, Taken, WithinLimit, OnePending, Clear, A.LogOf, A.Accepted, WithinPolicy, FindAuthority, Notional, A.Owned;
    StateKnown(db.orders, db.events, orderId);
    if orderId in db.orders {
      StateIsAt(db, orderId);
      StateConsistent(db, orderId);
      var account := db.orders[orderId].account;
      NewestOwned(db.authority, account, token, caller);
      LeaseStored(db.authority, account);
    }
    if Reserve(db, orderId, token, caller).Some? {
      ReserveGives(db, orderId, token, caller);
    }
  }

  ghost predicate ReservationsFree(db: Db, caller: Caller) {
    && caller.reservationId != "" && caller.riskId != "" && caller.dispatchId != ""
    && (forall r :: r in db.reservations ==> r.id != caller.reservationId && r.riskId != caller.riskId && r.dispatchId != caller.dispatchId)
  }

  lemma NewestOwned(authority: seq<A.Record>, account: string, token: int, caller: Caller)
    requires A.Accepted(A.LogOf(authority, account))
    ensures var log := A.LogOf(authority, account);
      A.Owned(A.AuthorityOf(log), caller.owner, token, caller.now) <==>
        log != [] && token == |log| && log[|log| - 1].armed && log[|log| - 1].lease.Some?
        && log[|log| - 1].lease.value.owner == caller.owner && caller.now < log[|log| - 1].lease.value.expiresAt
  {
    var log := A.LogOf(authority, account);
    if log != [] {
      A.TokenIsPosition(log, |log| - 1);
    }
    hide A.Accepted, A.LogOf;
  }

  /** The newest record of a log can be found by its id. */
  lemma LeaseStored(authority: seq<A.Record>, account: string)
    ensures A.LogOf(authority, account) != [] ==> FindAuthority(authority, A.AuthorityOf(A.LogOf(authority, account)).eventId).Some?
  {
    var log := A.LogOf(authority, account);
    if log != [] {
      LogIsStored(authority, account, log[|log| - 1]);
    }
    hide A.LogOf;
  }

  lemma {:induction false} LogIsStored(authority: seq<A.Record>, account: string, r: A.Record)
    requires r in A.LogOf(authority, account)
    ensures r in authority
  {
    var n := |authority| - 1;
    if authority[n] != r {
      assert r in A.LogOf(authority[..n], account);
      LogIsStored(authority[..n], account, r);
    }
  }

  /** One of the two authorized events appended: new, in turn, and reserved for. */
  lemma PairStep(db: Db, r: Reservation, e: Entry)
    requires Base(db) && e.orderId in db.orders && ValidEntry(e) && ReservedBy(r, e) && r in db.reservations
    requires e.change.RiskApproved? || e.change.SubmitDispatched?
    requires Transition(At(db, e.orderId), e.change).Some? && Clear(db, db.orders[e.orderId].account)
    ensures var a := Append(db, e, false, false);
      && (a.Some? && a.value.1 == Transition(At(db, e.orderId), e.change).value <==>
        (db.orders[e.orderId].mode == Synthetic && forall p :: p in db.events ==> p.eventId != e.eventId))
      && (a.Some? && a.value.1 == Transition(At(db, e.orderId), e.change).value ==>
        a.value.0 == db.(events := db.events + [e]) && Base(a.value.0) && At(a.value.0, e.orderId) == a.value.1)
  {
    hide StateOf, Transition, Clear, ValidEntry, Base, FindExecution;
    StateIsAt(db, e.orderId);
    MovesOn(At(db, e.orderId), e.change);
    if Append(db, e, false, false).Some? {
      AppendEffect(db, e, false, false);
    }
  }

  /** An approval or a dispatch changes the state. */
  lemma MovesOn(s: State, c: Change)
    requires (c.RiskApproved? || c.SubmitDispatched?) && Transition(s, c).Some?
    ensures Transition(s, c).value != s
  {}

  lemma ClearAfter(db: Db, after: Db, e: Entry)
    requires Base(db) && Base(after) && after == db.(events := db.events + [e]) && e.orderId in db.orders && ValidEntry(e)
    requires Clear(db, db.orders[e.orderId].account) && At(after, e.orderId).pending == Nothing
    ensures Clear(after, db.orders[e.orderId].account)
  {
    hide StateOf, Base, ValidEntry;
    forall o | o in after.orders && after.orders[o].account == db.orders[e.orderId].account
      ensures StateOf(after.orders, after.events, o).Some? && StateOf(after.orders, after.events, o).value.pending == Nothing
    {
      StateIsAt(after, o);
      if o != e.orderId {
        StatesAfter(db.orders, db.events, e, o);
      }
    }
  }

  /** The two appends go through exactly for a synthetic order and two new identifiers. */
  lemma PairExactly(db: Db, r: Reservation)
    requires Base(db) && r in db.reservations && r.orderId in db.orders && r.orderId != ""
    requires r.id != "" && r.riskId != "" && r.dispatchId != "" && r.token > 0
    requires At(db, r.orderId) == State(Recorded, At(db, r.orderId).quantity, At(db, r.orderId).filled, At(db, r.orderId).ref, Nothing)
    requires Clear(db, db.orders[r.orderId].account)
    ensures AuthorizedPair(db, r).Some? <==>
      && db.orders[r.orderId].mode == Synthetic && r.riskId != r.dispatchId
      && forall p :: p in db.events ==> p.eventId != r.riskId && p.eventId != r.dispatchId
  {
    hide StateOf, Base, Clear, Append, Position;
    var risk, dispatch := RiskEntry(r), DispatchEntry(r);
    PairStep(db, r, risk);
    var a := Append(db, risk, false, false);
    if a.Some? {
      var ready := a.value.0;
      var s := At(db, r.orderId).(status := Ready);
      AppendState(db, risk);
      if a.value.1.status == Ready {
        assert a.value.1 == s;
        ClearAfter(db, ready, risk);
        PairStep(ready, r, dispatch);
        AppendState(ready, dispatch);
        if Append(ready, dispatch, false, false).Some? && Append(ready, dispatch, false, false).value.1.status == SubmitUnknown {
          assert Append(ready, dispatch, false, false).value.0.events == db.events + [risk] + [dispatch];
          if forall p :: p in ready.events ==> p.eventId != r.dispatchId {
            AdjacentAtEnd(db.events, risk, dispatch);
          }
        }
        assert risk in ready.events && ready.events == db.events + [risk];
      }
    }
  }

  /** Whatever an append answers is the order's state, moved or not. */
  lemma AppendState(db: Db, e: Entry)
    requires Base(db) && ValidEntry(e) && e.orderId in db.orders && (e.change.RiskApproved? || e.change.SubmitDispatched?)
    ensures var a := Append(db, e, false, false);
      a.Some? ==> (Transition(At(db, e.orderId), e.change) == Some(a.value.1) || a.value.1 == At(db, e.orderId))
  {
    hide StateOf, Transition, Clear, Base, RefFree, GuardAllows;
    StateIsAt(db, e.orderId);
  }

  lemma AdjacentAtEnd(events: seq<Entry>, risk: Entry, dispatch: Entry)
    requires risk.eventId != dispatch.eventId && forall p :: p in events ==> p.eventId != risk.eventId && p.eventId != dispatch.eventId
    ensures var all := events + [risk] + [dispatch];
      Position(all, risk.eventId) == Some(|events|) && Position(all, dispatch.eventId) == Some(|events| + 1)
  {
    var all := events + [risk] + [dispatch];
    assert all[..|all| - 1] == events + [risk];
    assert all[|all| - 1] == dispatch && (events + [risk])[|events|] == risk;
  }

  /** A call dispatches exactly when the order is a recorded small synthetic buy without a
      reservation, the caller holds the newest running lease of its account, no order of
      the account waits, the identifiers are new, and what the account has at risk leaves
      room for it under a million. */
  lemma DispatchExactly(db: Db, orderId: string, token: int, caller: Caller)
    requires Good(db)
    ensures Authorize(db, orderId, token, caller).Some? && Authorize(db, orderId, token, caller).value.2 <==>
      MayDispatch(db, orderId, token, caller)
  {
    hide StateOf, Base, Proven, Taken, WithinLimit, OnePending, Clear, Reserve, AuthorizedPair, Total, ReservedValues, Leased, At, AtRisk;
    if orderId in db.orders && FindReservation(db.reservations, orderId).None? {
      ReserveExactly(db, orderId, token, caller);
      TakenIsWorth(db, db.orders[orderId].account);
      ClearSays(db, db.orders[orderId].account);
      BaseId(db, orderId);
      LeaseToken(db, db.orders[orderId].account, token, caller);
      if Reserve(db, orderId, token, caller).Some? {
        ReservedPair(db, orderId, token, caller);
      }
    } else if Authorize(db, orderId, token, caller).Some? && Authorize(db, orderId, token, caller).value.2 {
      ReserveFacts(db, orderId, token, caller);
    }
  }

  lemma BaseId(db: Db, o: string)
    requires Base(db) && o in db.orders
    ensures o != ""
  {}

  lemma LeaseToken(db: Db, account: string, token: int, caller: Caller)
    ensures Leased(db, account, token, caller) ==> token > 0
  {}

  lemma ClearSays(db: Db, account: string)
    requires Base(db)
    ensures Clear(db, account) <==> forall o :: o in db.orders && db.orders[o].account == account ==> At(db, o).pending == Nothing
  {
    hide StateOf, Base;
    forall o | o in db.orders
      ensures StateOf(db.orders, db.events, o) == Some(At(db, o))
    {
      StateIsAt(db, o);
    }
  }

  /** The appends of a reservation that could be made. */
  lemma ReservedPair(db: Db, orderId: string, token: int, caller: Caller)
    requires Good(db) && Reserve(db, orderId, token, caller).Some? && token > 0 && orderId != ""
    requires FindReservation(db.reservations, orderId).None?
    ensures var r := Reserve(db, orderId, token, caller).value;
      var reserved := db.(reservations := db.reservations + [r]);
      && orderId in db.orders && (AuthorizedPair(reserved, r).Some? ==> AuthorizedPair(reserved, r).value.2)
      && (AuthorizedPair(reserved, r).Some? <==>
        && db.orders[orderId].mode == Synthetic && caller.riskId != caller.dispatchId
        && forall p :: p in db.events ==> p.eventId != caller.riskId && p.eventId != caller.dispatchId)
  {
    hide StateOf, Base, Proven, Taken, WithinLimit, OnePending, Clear, Reserve, AuthorizedPair;
    ReserveExactly(db, orderId, token, caller);
    var r := Reserve(db, orderId, token, caller).value;
    var reserved := db.(reservations := db.reservations + [r]);
    PairDispatches(reserved, r);
    SameOrders(db, reserved);
    CalmerBase(db, reserved);
    StateConsistent(db, orderId);
    SameClear(db, reserved, db.orders[orderId].account);
    assert r == reserved.reservations[|db.reservations|];
    PairExactly(reserved, r);
  }

  lemma PairDispatches(db: Db, r: Reservation)
    ensures AuthorizedPair(db, r).Some? ==> AuthorizedPair(db, r).value.2
  {
    hide Append, Position;
  }

  lemma SameClear(db: Db, after: Db, account: string)
    requires after.orders == db.orders && after.events == db.events
    ensures Clear(after, account) == Clear(db, account)
  {
    hide StateOf;
  }
}
