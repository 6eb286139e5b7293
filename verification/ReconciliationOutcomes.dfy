/** Which of its answers a reconciliation gives, told from the order, its reservation and
    what the broker reports (services/core/kiwoom_order_reconciliation.go).
  */
module ReconciliationOutcomes {
  import opened Results
  import opened OrderDomain
  import opened OrderStore
  import opened Dispatch
  import opened OrderInvariants
  import opened OrderHistory
  import opened Reconciliation

  /** The order was reserved for dispatch no later than the broker was asked. */
  predicate SentBefore(db: Db, orderId: string, r: Reservation, l: Lookup) {
    && r in db.reservations && r.orderId == orderId && r.reservedAt <= l.observedAt
    && orderId in db.orders && db.orders[orderId].mode == Synthetic && db.orders[orderId].account == l.account
  }

  /** The broker shows the order as it was placed. */
  predicate SameOrder(o: Observation, i: Intent) {
    o.symbol == i.symbol && o.side == i.side && o.quantity == i.quantity && o.price == i.price
  }

  lemma DispatchTimeIs(db: Db, orderId: string)
    requires Good(db)
    ensures DispatchTime(db, orderId).Some? <==> exists r :: r in db.reservations && r.orderId == orderId
    ensures forall r :: r in db.reservations && r.orderId == orderId ==> DispatchTime(db, orderId) == Some(r.reservedAt)
  {
    hide Base, StateOf, WithinLimit, OnePending, MatchesIntent;
    if r :| r in db.reservations && r.orderId == orderId {
      assert Proven(db, r);
      forall p | p in db.reservations && p.orderId == orderId
        ensures p == r
      {
        var i :| 0 <= i < |db.reservations| && db.reservations[i] == p;
        var j :| 0 <= j < |db.reservations| && db.reservations[j] == r;
      }
    }
  }

  lemma MatchIs(orders: seq<Observation>, o: Observation)
    requires o in orders && forall i, j :: 0 <= i < j < |orders| ==> orders[i].ref != orders[j].ref
    ensures Match(orders, o.ref) == Some(o)
  {
    var found := Match(orders, o.ref).value;
    var i :| 0 <= i < |orders| && orders[i] == found;
    var j :| 0 <= j < |orders| && orders[j] == o;
    hide Match;
  }

  /** A loaded order has a reference exactly when the broker has acknowledged or filled it,
      and then it is neither waiting nor rejected. */
  lemma RefTells(db: Db, orderId: string)
    requires Base(db) && orderId in db.orders
    ensures At(db, orderId).ref.Some? <==> At(db, orderId).status in {Open, PartiallyFilled, Filled, CancelUnknown, OrderDomain.Canceled}
    ensures At(db, orderId).pending == Submit <==> At(db, orderId).status == SubmitUnknown
  {
    hide Transition, ValidEntry, HistoryOf, May, Replay;
    HistoryTells(db.orders[orderId].quantity, HistoryOf(db.events, orderId));
    hide Working, OrderHistory.Refused, HasCanceled, Canceling, OnlyRef, FillSum;
  }

  /** Before the observations are looked at: what turns a lookup down and what cannot be
      told yet. */
  lemma BeforeMatching(db: Db, orderId: string, l: Lookup)
    requires Good(db) && orderId in db.orders
    ensures var answer, sent := Reconcile(db, orderId, l), exists r :: SentBefore(db, orderId, r, l);
      && (!sent ==> answer.None?)
      && (sent && !l.complete ==> answer == Some(Answer(Incomplete, db, At(db, orderId))))
      && (sent && l.complete && At(db, orderId).pending == Submit ==> answer == Some(Answer(Uncorrelated, db, At(db, orderId))))
      && (sent && l.complete && At(db, orderId).pending != Submit && At(db, orderId).ref.None? ==> answer.None?)
  {
    hide StateOf, AppendAll, DispatchTime, Agrees, Match, Good, Base, At, Reconcile, SentBefore;
    GoodBase(db);
    StateIsAt(db, orderId);
    RefTells(db, orderId);
    SentIs(db, orderId, l);
    EarlyAnswers(db, orderId, l, At(db, orderId));
  }

  /** Dispatched in time, and by whom the lookup is for. */
  predicate InTime(db: Db, orderId: string, l: Lookup)
    requires orderId in db.orders
  {
    var at := DispatchTime(db, orderId);
    at.Some? && at.value <= l.observedAt && db.orders[orderId].mode == Synthetic && db.orders[orderId].account == l.account
  }

  lemma SentIs(db: Db, orderId: string, l: Lookup)
    requires Good(db) && orderId in db.orders
    ensures (exists r :: SentBefore(db, orderId, r, l)) <==> InTime(db, orderId, l)
  {
    hide Good, DispatchTime;
    DispatchTimeIs(db, orderId);
    if InTime(db, orderId, l) {
      var r :| r in db.reservations && r.orderId == orderId;
      assert SentBefore(db, orderId, r, l);
    }
  }

  lemma EarlyAnswers(db: Db, orderId: string, l: Lookup, s: State)
    requires orderId in db.orders && StateOf(db.orders, db.events, orderId) == Some(s)
    requires s.ref.Some? ==> s.status in {Open, PartiallyFilled, Filled, CancelUnknown, OrderDomain.Canceled}
    requires s.pending == Submit <==> s.status == SubmitUnknown
    ensures var answer := Reconcile(db, orderId, l);
      && (!InTime(db, orderId, l) ==> answer.None?)
      && (InTime(db, orderId, l) && !l.complete ==> answer == Some(Answer(Incomplete, db, s)))
      && (InTime(db, orderId, l) && l.complete && s.pending == Submit ==> answer == Some(Answer(Uncorrelated, db, s)))
      && (InTime(db, orderId, l) && l.complete && s.pending != Submit && s.ref.None? ==> answer.None?)
      && (InTime(db, orderId, l) && l.complete && s.ref.Some? ==> answer == Looked(db, orderId, l, s, Match(l.orders, s.ref.value)))
  {
    hide StateOf, AppendAll, DispatchTime, Agrees, Match, FillEntries, InOrder;
  }

  /** The answer once it is known which observation, if any, carries the reference. */
  function Looked(db: Db, orderId: string, l: Lookup, s: State, found: Option<Observation>): Option<Answer>
    requires orderId in db.orders && InTime(db, orderId, l)
  {
    match found
    case None => Some(Answer(NotFound, db, s))
    case Some(o) =>
      if !Agrees(o, db.orders[orderId], DispatchTime(db, orderId).value, l.observedAt) then None
      else if !o.complete then Some(Answer(Incomplete, db, s))
      else
        var r :- AppendAll(db, s, FillEntries(orderId, o.ref, InOrder(o.executions)));
        Some(Answer(Matched, r.0, r.1))
  }

  lemma GoodBase(db: Db)
    requires Good(db)
    ensures Base(db)
  {
    hide Base;
  }

  /** Once the order has a reference: not found when no observation carries it; refused
      when the observation is of another order or submitted before the dispatch; incomplete
      when the observation is; and otherwise its executions are appended, all or none. */
  lemma OnMatching(db: Db, orderId: string, l: Lookup, r: Reservation)
    requires Good(db) && ValidLookup(l) && SentBefore(db, orderId, r, l) && l.complete && At(db, orderId).ref.Some?
    ensures var answer, ref, s := Reconcile(db, orderId, l), At(db, orderId).ref.value, At(db, orderId);
      && ((forall o :: o in l.orders ==> o.ref != ref) ==> answer == Some(Answer(NotFound, db, s)))
      && (forall o :: o in l.orders && o.ref == ref ==>
        && (!SameOrder(o, db.orders[orderId]) || o.submittedAt < r.reservedAt ==> answer.None?)
        && (SameOrder(o, db.orders[orderId]) && r.reservedAt <= o.submittedAt && !o.complete ==> answer == Some(Answer(Incomplete, db, s)))
        && (SameOrder(o, db.orders[orderId]) && r.reservedAt <= o.submittedAt && o.complete ==>
          var appended := AppendAll(db, s, FillEntries(orderId, ref, InOrder(o.executions)));
          answer == if appended.Some? then Some(Answer(Matched, appended.value.0, appended.value.1)) else None))
  {
    hide StateOf, AppendAll, DispatchTime, FillEntries, Good, Base, At, Reconcile, InOrder;
    GoodBase(db);
    StateIsAt(db, orderId);
    RefTells(db, orderId);
    DispatchTimeIs(db, orderId);
    EarlyAnswers(db, orderId, l, At(db, orderId));
    var ref := At(db, orderId).ref.value;
    forall o | o in l.orders && o.ref == ref
      ensures Match(l.orders, ref) == Some(o) && o.submittedAt <= l.observedAt
    {
      MatchIs(l.orders, o);
      assert ValidObservation(l, o);
    }
    hide Match, ValidLookup;
  }

  /******* What a lookup may say *******/

  /** One execution: a positive part of the order at a positive price, between the order's
      submission and the lookup. */
  predicate SoundExecution(l: Lookup, o: Observation, x: Execution) {
    x.ref != "" && x.quantity > 0 && x.price > 0.0 && o.submittedAt <= x.occurredAt && x.occurredAt <= l.observedAt
  }

  /** One order, whose executions and remainder do not exceed it, and make it up when it is
      complete. */
  predicate SoundObservation(l: Lookup, o: Observation) {
    && o.ref != "" && o.symbol != "" && o.quantity > 0 && o.remaining >= 0 && o.price > 0.0 && o.submittedAt <= l.observedAt
    && (forall i :: 0 <= i < |o.executions| ==> SoundExecution(l, o, o.executions[i]))
    && Executed(o.executions) + o.remaining <= o.quantity
    && (o.complete ==> Executed(o.executions) + o.remaining == o.quantity)
  }

  /** No reference of an order is used twice, nor one of an execution, in any order. */
  ghost predicate OwnRefs(orders: seq<Observation>) {
    && (forall i, j :: 0 <= i < j < |orders| ==> orders[i].ref != orders[j].ref)
    && (forall i, j, a, b ::
      0 <= i <= j < |orders| && 0 <= a < |orders[i].executions| && 0 <= b < |orders[j].executions| && (i < j || a < b) ==>
      orders[i].executions[a].ref != orders[j].executions[b].ref)
  }

  function Offset(orders: seq<Observation>, i: nat): nat
    requires i <= |orders|
  {
    |AllExecutions(orders[..i])|
  }

  /** Where an execution stands in the whole list. */
  lemma {:induction false} ExecutionAt(orders: seq<Observation>, i: nat, a: nat)
    requires i < |orders| && a < |orders[i].executions|
    ensures Offset(orders, i) + a < |AllExecutions(orders)| && AllExecutions(orders)[Offset(orders, i) + a] == orders[i].executions[a]
  {
    var n := |orders| - 1;
    if i < n {
      ExecutionAt(orders[..n], i, a);
      assert orders[..n][..i] == orders[..i];
    }
  }

  lemma {:induction false} ExecutionFrom(orders: seq<Observation>, k: nat) returns (i: nat, a: nat)
    requires k < |AllExecutions(orders)|
    ensures i < |orders| && a < |orders[i].executions| && k == Offset(orders, i) + a
  {
    var n := |orders| - 1;
    if k < |AllExecutions(orders[..n])| {
      i, a := ExecutionFrom(orders[..n], k);
      assert orders[..n][..i] == orders[..i];
    } else {
      i, a := n, k - |AllExecutions(orders[..n])|;
    }
  }

  lemma {:induction false} OffsetsGrow(orders: seq<Observation>, i: nat, j: nat)
    requires i < j <= |orders|
    ensures Offset(orders, i) + |orders[i].executions| <= Offset(orders, j)
  {
    assert orders[..j][..j - 1] == orders[..j - 1];
    if i < j - 1 {
      OffsetsGrow(orders, i, j - 1);
    }
  }

  lemma PairOfOrders(orders: seq<Observation>, i: nat, j: nat, a: nat, b: nat)
    requires i <= j < |orders| && a < |orders[i].executions| && b < |orders[j].executions| && (i < j || a < b)
    ensures Offset(orders, i) + a < Offset(orders, j) + b < |AllExecutions(orders)|
    ensures AllExecutions(orders)[Offset(orders, i) + a] == orders[i].executions[a]
    ensures AllExecutions(orders)[Offset(orders, j) + b] == orders[j].executions[b]
  {
    hide AllExecutions, Offset;
    ExecutionAt(orders, i, a);
    ExecutionAt(orders, j, b);
    if i < j {
      OffsetsGrow(orders, i, j);
    }
  }

  lemma PairOfPlaces(orders: seq<Observation>, k: nat, m: nat) returns (i: nat, j: nat, a: nat, b: nat)
    requires k < m < |AllExecutions(orders)|
    ensures i <= j < |orders| && a < |orders[i].executions| && b < |orders[j].executions| && (i < j || a < b)
    ensures AllExecutions(orders)[k] == orders[i].executions[a] && AllExecutions(orders)[m] == orders[j].executions[b]
  {
    hide AllExecutions, Offset;
    i, a := ExecutionFrom(orders, k);
    j, b := ExecutionFrom(orders, m);
    ExecutionAt(orders, i, a);
    ExecutionAt(orders, j, b);
    if j < i {
      OffsetsGrow(orders, j, i);
    }
  }

  lemma OwnRefsAre(orders: seq<Observation>)
    requires forall i, j :: 0 <= i < j < |orders| ==> orders[i].ref != orders[j].ref
    ensures DistinctRefs(AllExecutions(orders)) <==> OwnRefs(orders)
  {
    hide AllExecutions;
    var all := AllExecutions(orders);
    if DistinctRefs(all) {
      forall i, j, a, b | 0 <= i <= j < |orders| && 0 <= a < |orders[i].executions| && 0 <= b < |orders[j].executions| && (i < j || a < b)
        ensures orders[i].executions[a].ref != orders[j].executions[b].ref
      {
        PairOfOrders(orders, i, j, a, b);
      }
    }
    if OwnRefs(orders) {
      forall k, m | 0 <= k < m < |all|
        ensures all[k].ref != all[m].ref
      {
        var i, j, a, b := PairOfPlaces(orders, k, m);
      }
    }
  }

  /** The validating loops accept exactly the lookups for an account whose observations are
      sound and whose references are their own. */
  lemma LookupExactly(l: Lookup)
    ensures ValidLookup(l) <==>
      l.account != "" && (forall i :: 0 <= i < |l.orders| ==> SoundObservation(l, l.orders[i])) && OwnRefs(l.orders)
  {
    forall o
      ensures ValidObservation(l, o) <==> SoundObservation(l, o)
    {
      assert forall x :: x in o.executions ==> (ValidExecution(l, o, x) <==> SoundExecution(l, o, x));
      hide Executed;
    }
    hide ValidObservation, SoundObservation;
    if forall i, j :: 0 <= i < j < |l.orders| ==> l.orders[i].ref != l.orders[j].ref {
      OwnRefsAre(l.orders);
    }
    hide OwnRefs, DistinctRefs;
    if OwnRefs(l.orders) {
      RefsOwn(l.orders);
    }
  }

  lemma RefsOwn(orders: seq<Observation>)
    requires OwnRefs(orders)
    ensures forall i, j :: 0 <= i < j < |orders| ==> orders[i].ref != orders[j].ref
  {}
}
