/** Authorizing one external submission: authorizeSyntheticDispatchOnceTx and the proofs
    it rests on (services/core/execution_authority.go:181-267, 330-445).
  */
module Dispatch {
  import opened Results
  import opened OrderDomain
  import opened OrderStore
  import A = ExecutionAuthority

  const MAX_ORDER_QUANTITY := 10
  const MAX_ORDER_NOTIONAL: real := 1_000_000.0
  const MAX_ACCOUNT_NOTIONAL: real := 1_000_000.0

  function Notional(i: Intent): real {
    i.quantity as real * i.price
  }

  /** validateSyntheticBuyPolicy. */
  predicate WithinPolicy(i: Intent) {
    && i.mode != CapitalizedPaper && i.side == Buy && (i.symbol == "005930" || i.symbol == "000660")
    && 0 < i.quantity <= MAX_ORDER_QUANTITY && i.price > 0.0 && Notional(i) <= MAX_ORDER_NOTIONAL
  }

  function FindReservation(reservations: seq<Reservation>, orderId: string): (r: Option<Reservation>)
    ensures r.Some? ==> r.value in reservations && r.value.orderId == orderId
    ensures r.None? ==> forall x :: x in reservations ==> x.orderId != orderId
  {
    if reservations == [] then None
    else if reservations[|reservations| - 1].orderId == orderId then Some(reservations[|reservations| - 1])
    else FindReservation(reservations[..|reservations| - 1], orderId)
  }

  function FindAuthority(events: seq<A.Record>, eventId: string): (r: Option<A.Record>)
    ensures r.Some? ==> r.value in events && r.value.eventId == eventId
    ensures r.None? ==> forall x :: x in events ==> x.eventId != eventId
  {
    if events == [] then None
    else if events[|events| - 1].eventId == eventId then Some(events[|events| - 1])
    else FindAuthority(events[..|events| - 1], eventId)
  }

  /** Where an event stands in order_events. */
  function Position(events: seq<Entry>, eventId: string): (p: Option<nat>)
    ensures p.Some? ==> p.value < |events| && events[p.value].eventId == eventId
    ensures p.None? ==> forall e :: e in events ==> e.eventId != eventId
  {
    if events == [] then None
    else if events[|events| - 1].eventId == eventId then Some(|events| - 1)
    else Position(events[..|events| - 1], eventId)
  }

  function RiskEntry(r: Reservation): Entry {
    Entry(r.riskId, r.orderId, false, RiskApproved, ReservationTicket(r.id, r.token))
  }

  function DispatchEntry(r: Reservation): Entry {
    Entry(r.dispatchId, r.orderId, false, SubmitDispatched, ReservationTicket(r.id, r.token))
  }

  /** The two authorized events stand one right after the other. */
  predicate AdjacentPair(events: seq<Entry>, r: Reservation) {
    var p, q := Position(events, r.riskId), Position(events, r.dispatchId);
    && p.Some? && q.Some? && q.value == p.value + 1
    && events[p.value] == RiskEntry(r) && events[q.value] == DispatchEntry(r)
  }

  /** validateAuthorizedReservation accepts. */
  predicate Proven(db: Db, r: Reservation) {
    var authority, s := FindAuthority(db.authority, r.authorityId), StateOf(db.orders, db.events, r.orderId);
    && r.orderId in db.orders && MatchesIntent(r, db.orders[r.orderId])
    && authority.Some? && authority.value.account == r.account && authority.value.token == r.token
    && authority.value.reason == A.LeaseAcquired && authority.value.lease.Some?
    && A.Accepted(A.LogOf(db.authority, r.account))
    && AdjacentPair(db.events, r)
    && s.Some? && Dispatched(s.value)
  }

  predicate MatchesIntent(r: Reservation, i: Intent) {
    ValidIntent(i) && WithinPolicy(i) && r.account == i.account && r.quantity == i.quantity && r.price == i.price && r.notional == Notional(i)
  }

  /** The part of an account's limit one reservation takes up. */
  function Share(db: Db, r: Reservation, account: string): real {
    var s := StateOf(db.orders, db.events, r.orderId);
    if r.account == account && s.Some? && Active(s.value) then r.notional else 0.0
  }

  function Taken(db: Db, reservations: seq<Reservation>, account: string): real {
    if reservations == [] then 0.0
    else Taken(db, reservations[..|reservations| - 1], account) + Share(db, reservations[|reservations| - 1], account)
  }

  predicate AllProven(db: Db, account: string) {
    forall r :: r in db.reservations && r.account == account ==> Proven(db, r)
  }

  /** activeReservedNotional: the validating loop over an account's reservations. */
  method ActiveReserved(db: Db, account: string) returns (total: Option<real>)
    ensures total == if AllProven(db, account) then Some(Taken(db, db.reservations, account)) else None
  {
    hide Proven, StateOf;
    var sum := 0.0;
    for i := 0 to |db.reservations|
      invariant sum == Taken(db, db.reservations[..i], account)
      invariant forall r :: r in db.reservations[..i] && r.account == account ==> Proven(db, r)
    {
      var r := db.reservations[i];
      assert db.reservations[..i + 1][..i] == db.reservations[..i];
      if r.account == account {
        if !Proven(db, r) {
          return None;
        }
        ProvenState(db, r);
        var state := LoadState(db.orders, db.events, r.orderId);
        if Active(state.value) {
          sum := sum + r.notional;
        }
      }
    }
    assert db.reservations[..|db.reservations|] == db.reservations;
    total := Some(sum);
  }

  lemma ProvenState(db: Db, r: Reservation)
    requires Proven(db, r)
    ensures StateOf(db.orders, db.events, r.orderId).Some?
  {
    hide StateOf, MatchesIntent, AdjacentPair;
  }

  /** The caller's process and the identifiers it generates. */
  datatype Caller = Caller(owner: string, now: int, reservationId: string, riskId: string, dispatchId: string)

  /** UNIQUE columns of risk_reservations and its link to the authority row. */
  predicate ReservationInsertable(db: Db, r: Reservation) {
    && r.id != "" && r.riskId != "" && r.dispatchId != "" && FindAuthority(db.authority, r.authorityId).Some?
    && forall x :: x in db.reservations ==>
      x.id != r.id && x.orderId != r.orderId && x.riskId != r.riskId && x.dispatchId != r.dispatchId
  }

  function ReservationFor(orderId: string, i: Intent, authorityId: string, token: int, caller: Caller): Reservation {
    Reservation(caller.reservationId, orderId, i.account, authorityId, token, i.quantity, i.price, Notional(i),
      caller.riskId, caller.dispatchId, caller.now)
  }

  predicate AuthorityProven(events: seq<A.Record>) {
    forall r :: r in events ==> A.Accepted(A.LogOf(events, r.account))
  }

  /** authorizeSyntheticDispatchOnce: the database after, the order's state and whether
      this call is the one that dispatched. */
  function Authorize(db: Db, orderId: string, token: int, caller: Caller): Option<(Db, State, bool)> {
    var found := FindReservation(db.reservations, orderId);
    if orderId == "" || token <= 0 || !AuthorityProven(db.authority) then None
    else if found.Some? then
      if Proven(db, found.value) then var s :- StateOf(db.orders, db.events, orderId); Some((db, s, false)) else None
    else
      var reservation :- Reserve(db, orderId, token, caller);
      AuthorizedPair(db.(reservations := db.reservations + [reservation]), reservation)
  }

  /** Everything checked before the reservation is written. */
  function Reserve(db: Db, orderId: string, token: int, caller: Caller): Option<Reservation> {
    var state :- StateOf(db.orders, db.events, orderId);
    var i := db.orders[orderId];
    var a := A.Load(db.authority, i.account);
    if state.status != Recorded || state.pending != Nothing || !WithinPolicy(i) then None
    else if a.None? || !A.Owned(a.value, caller.owner, token, caller.now) then None
    else if !Clear(db, i.account) || !AllProven(db, i.account) then None
    else if Taken(db, db.reservations, i.account) + Notional(i) > MAX_ACCOUNT_NOTIONAL then None
    else
      var r := ReservationFor(orderId, i, a.value.eventId, token, caller);
      if ReservationInsertable(db, r) then Some(r) else None
  }

  /** The two appends; any surprise rolls the whole transaction back. */
  function AuthorizedPair(db: Db, r: Reservation): Option<(Db, State, bool)> {
    var ready :- Append(db, RiskEntry(r), false, false);
    if !ValidEntry(RiskEntry(r)) || !ValidEntry(DispatchEntry(r)) || ready.1.status != Ready then None
    else
      var sent :- Append(ready.0, DispatchEntry(r), false, false);
      var p, q := Position(sent.0.events, r.riskId), Position(sent.0.events, r.dispatchId);
      if sent.1.status != SubmitUnknown || sent.1.pending != Submit || p.None? || q.None? || q.value != p.value + 1 then None
      else Some((sent.0, sent.1, true))
  }
}
