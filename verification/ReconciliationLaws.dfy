/** What reconciliation leaves in the order log. */
module ReconciliationLaws {
  import opened Results
  import opened UtcText
  import opened OrderDomain
  import opened OrderStore
  import opened Dispatch
  import opened OrderInvariants
  import opened Reconciliation

  /******* Appending the fills *******/

  /** The log holds this execution as a fill of the order. */
  ghost predicate Holds(events: seq<Entry>, orderId: string, ref: string, x: Execution) {
    exists e :: e in events && e.change == FillRecorded(ref, x.ref, x.quantity, x.price, x.occurredAt) && e.orderId == orderId
  }

  ghost predicate HoldsAll(events: seq<Entry>, orderId: string, ref: string, xs: seq<Execution>) {
    forall x :: x in xs ==> Holds(events, orderId, ref, x)
  }

  /** Every new event is one of the fills asked for. */
  ghost predicate OnlyAdds(db: Db, after: Db, orderId: string, ref: string, xs: seq<Execution>) {
    && after.orders == db.orders && after.reservations == db.reservations && after.authority == db.authority && db.events <= after.events
    && forall k :: |db.events| <= k < |after.events| ==> IsFill(after.events[k], orderId, ref, xs)
  }

  ghost predicate IsFill(e: Entry, orderId: string, ref: string, xs: seq<Execution>) {
    exists x :: x in xs && e == FillEntry(orderId, ref, x)
  }

  lemma IsFillOf(e: Entry, orderId: string, ref: string, xs: seq<Execution>, ys: seq<Execution>)
    requires IsFill(e, orderId, ref, xs) && forall x :: x in xs ==> x in ys
    ensures IsFill(e, orderId, ref, ys)
  {
    var x :| x in xs && e == FillEntry(orderId, ref, x);
    assert x in ys;
    hide FillEntry;
  }

  lemma FillIsValid(orderId: string, ref: string, x: Execution)
    requires orderId != "" && ref != "" && x.ref != "" && x.quantity > 0 && x.price > 0.0
    ensures ValidEntry(FillEntry(orderId, ref, x))
  {
    assert |FillId(orderId, x.ref)| >= |"[\"fill\","|;
    hide FillId;
  }

  /** One fill appended, now or earlier, is held by the log. */
  lemma AppendHolds(db: Db, orderId: string, ref: string, x: Execution)
    requires Base(db) && orderId != "" && ref != "" && x.ref != "" && x.quantity > 0 && x.price > 0.0
    requires Append(db, FillEntry(orderId, ref, x), false, false).Some?
    ensures var (after, s) := Append(db, FillEntry(orderId, ref, x), false, false).value;
      && Base(after) && Holds(after.events, orderId, ref, x) && OnlyAdds(db, after, orderId, ref, [x])
      && orderId in db.orders && At(after, orderId) == s
  {
    var e := FillEntry(orderId, ref, x);
    FillIsValid(orderId, ref, x);
    AppendEffect(db, e, false, false);
    hide StateOf, ValidEntry, Transition, GuardAllows, Clear, Base, FillEntry;
    var (after, s) := Append(db, e, false, false).value;
    if after == db {
      AlreadyHeld(db, orderId, ref, x);
    } else {
      assert after.events == db.events + [e] && e in after.events;
      FillEntryIs(orderId, ref, x);
    }
  }

  lemma FillEntryIs(orderId: string, ref: string, x: Execution)
    ensures var e := FillEntry(orderId, ref, x);
      e.orderId == orderId && e.change == FillRecorded(ref, x.ref, x.quantity, x.price, x.occurredAt)
  {}

  lemma AlreadyHeld(db: Db, orderId: string, ref: string, x: Execution)
    requires Base(db) && x.ref != ""
    requires var r := Append(db, FillEntry(orderId, ref, x), false, false); r.Some? && r.value.0 == db
    ensures Holds(db.events, orderId, ref, x) && orderId in db.orders
    ensures Append(db, FillEntry(orderId, ref, x), false, false).value.1 == At(db, orderId)
  {
    hide StateOf, Transition, GuardAllows, Clear, RefFree, FillId, ValidEntry;
    var e := FillEntry(orderId, ref, x);
    var prior, execution := FindEvent(db.events, e.eventId), FindExecution(db.events, x.ref);
    assert db.events + [e] != db.events;
    if prior.Some? {
      assert prior.value == e;
    } else {
      assert execution.Some? && SameExecution(execution.value, e);
    }
  }

  lemma {:induction false} AppendAllHolds(db: Db, state: State, orderId: string, ref: string, xs: seq<Execution>)
    requires Base(db) && orderId in db.orders && orderId != "" && ref != "" && At(db, orderId) == state
    requires forall x :: x in xs ==> x.ref != "" && x.quantity > 0 && x.price > 0.0
    requires AppendAll(db, state, FillEntries(orderId, ref, xs)).Some?
    ensures var (after, s) := AppendAll(db, state, FillEntries(orderId, ref, xs)).value;
      && Base(after) && OnlyAdds(db, after, orderId, ref, xs) && HoldsAll(after.events, orderId, ref, xs) && At(after, orderId) == s
  {
    hide Append, Base, StateOf, Holds, FillEntry;
    if xs != [] {
      var n := |xs| - 1;
      var entries := FillEntries(orderId, ref, xs);
      assert entries[..n] == FillEntries(orderId, ref, xs[..n]);
      AppendAllHolds(db, state, orderId, ref, xs[..n]);
      var before := AppendAll(db, state, entries[..n]).value.0;
      AppendHolds(before, orderId, ref, xs[n]);
      var after := Append(before, entries[n], false, false).value.0;
      AddsCompose(db, before, after, orderId, ref, xs);
      forall x | x in xs[..n]
        ensures Holds(after.events, orderId, ref, x)
      {
        HoldsLater(before.events, after.events, orderId, ref, x);
      }
    }
  }

  lemma HoldsLater(events: seq<Entry>, later: seq<Entry>, orderId: string, ref: string, x: Execution)
    requires Holds(events, orderId, ref, x) && events <= later
    ensures Holds(later, orderId, ref, x)
  {
    var e :| e in events && e.change == FillRecorded(ref, x.ref, x.quantity, x.price, x.occurredAt) && e.orderId == orderId;
    assert e in later;
  }

  lemma AddsCompose(db: Db, before: Db, after: Db, orderId: string, ref: string, xs: seq<Execution>)
    requires xs != [] && OnlyAdds(db, before, orderId, ref, xs[..|xs| - 1]) && OnlyAdds(before, after, orderId, ref, [xs[|xs| - 1]])
    ensures OnlyAdds(db, after, orderId, ref, xs)
  {
    hide IsFill;
    forall k | |db.events| <= k < |after.events|
      ensures IsFill(after.events[k], orderId, ref, xs)
    {
      if k < |before.events| {
        assert before.events[k] == after.events[k];
        IsFillOf(after.events[k], orderId, ref, xs[..|xs| - 1], xs);
      } else {
        IsFillOf(after.events[k], orderId, ref, [xs[|xs| - 1]], xs);
      }
    }
  }

  /******* Reconciling again *******/

  /** The append path knows this fill already. */
  ghost predicate Settled(events: seq<Entry>, e: Entry) {
    var prior, execution := FindEvent(events, e.eventId), FindExecution(events, ExecutionOf(e.change));
    prior == Some(e) || (prior.None? && execution.Some? && SameExecution(execution.value, e))
  }

  lemma SettledAppend(db: Db, orderId: string, ref: string, x: Execution)
    requires Base(db) && orderId in db.orders && x.ref != "" && db.orders[orderId].mode != CapitalizedPaper
    requires Settled(db.events, FillEntry(orderId, ref, x))
    ensures Append(db, FillEntry(orderId, ref, x), false, false) == Some((db, At(db, orderId)))
  {
    hide StateOf, Append, Base, Settled, FillId;
    StateIsAt(db, orderId);
    KnownAppend(db, FillEntry(orderId, ref, x), At(db, orderId));
  }

  lemma KnownAppend(db: Db, e: Entry, s: State)
    requires e.change.FillRecorded? && ExecutionOf(e.change) != "" && Settled(db.events, e)
    requires e.orderId in db.orders && db.orders[e.orderId].mode != CapitalizedPaper
    requires StateOf(db.orders, db.events, e.orderId) == Some(s)
    ensures Append(db, e, false, false) == Some((db, s))
  {
    hide StateOf, AppendNew, FindEvent, FindExecution;
    if FindEvent(db.events, e.eventId).None? {
      assert FindExecution(db.events, ExecutionOf(e.change)).value.orderId == e.orderId;
    }
  }

  lemma AppendSettles(db: Db, orderId: string, ref: string, x: Execution)
    requires x.ref != "" && Append(db, FillEntry(orderId, ref, x), false, false).Some?
    ensures Settled(Append(db, FillEntry(orderId, ref, x), false, false).value.0.events, FillEntry(orderId, ref, x))
  {
    hide StateOf, Transition, GuardAllows, Clear, RefFree, FillId;
    var e := FillEntry(orderId, ref, x);
    assert (db.events + [e])[|db.events|] == e;
    assert FindEvent(db.events + [e], e.eventId) == Some(e);
  }

  lemma SettledStays(db: Db, orderId: string, ref: string, x: Execution, y: Execution)
    requires x.ref != y.ref && Settled(db.events, FillEntry(orderId, ref, x))
    requires Append(db, FillEntry(orderId, ref, y), false, false).Some?
    ensures Settled(Append(db, FillEntry(orderId, ref, y), false, false).value.0.events, FillEntry(orderId, ref, x))
  {
    hide StateOf, Transition, GuardAllows, Clear, RefFree, FillId;
    if FillId(orderId, x.ref) == FillId(orderId, y.ref) {
      FillIdInjective(orderId, x.ref, orderId, y.ref);
    }
    var e := FillEntry(orderId, ref, y);
    assert (db.events + [e])[..|db.events|] == db.events;
  }

  lemma {:induction false} AllSettle(db: Db, state: State, orderId: string, ref: string, xs: seq<Execution>)
    requires DistinctRefs(xs) && (forall x :: x in xs ==> x.ref != "")
    requires AppendAll(db, state, FillEntries(orderId, ref, xs)).Some?
    ensures forall x :: x in xs ==>
      Settled(AppendAll(db, state, FillEntries(orderId, ref, xs)).value.0.events, FillEntry(orderId, ref, x))
  {
    hide Append, FillEntry, Settled;
    if xs != [] {
      var n := |xs| - 1;
      var entries := FillEntries(orderId, ref, xs);
      assert entries[..n] == FillEntries(orderId, ref, xs[..n]);
      AllSettle(db, state, orderId, ref, xs[..n]);
      var before := AppendAll(db, state, entries[..n]).value.0;
      AppendSettles(before, orderId, ref, xs[n]);
      forall x | x in xs[..n]
        ensures Settled(Append(before, entries[n], false, false).value.0.events, FillEntry(orderId, ref, x))
      {
        var i :| 0 <= i < n && xs[i] == x;
        SettledStays(before, orderId, ref, x, xs[n]);
      }
      assert xs == xs[..n] + [xs[n]];
    }
  }

  lemma {:induction false} SettledAgain(db: Db, orderId: string, ref: string, xs: seq<Execution>)
    requires Base(db) && orderId in db.orders && db.orders[orderId].mode != CapitalizedPaper
    requires forall x :: x in xs ==> x.ref != "" && Settled(db.events, FillEntry(orderId, ref, x))
    ensures AppendAll(db, At(db, orderId), FillEntries(orderId, ref, xs)) == Some((db, At(db, orderId)))
  {
    hide Append, FillEntry, Settled, Base, StateOf;
    if xs != [] {
      var n := |xs| - 1;
      var entries := FillEntries(orderId, ref, xs);
      assert entries[..n] == FillEntries(orderId, ref, xs[..n]);
      SettledAgain(db, orderId, ref, xs[..n]);
      assert xs[n] in xs;
      SettledAppend(db, orderId, ref, xs[n]);
    }
  }

  /******* Distinct references *******/

  lemma {:induction false} PlaceDistinct(x: Execution, xs: seq<Execution>)
    requires DistinctRefs(xs) && forall y :: y in xs ==> y.ref != x.ref
    ensures DistinctRefs(Place(x, xs))
  {
    if xs != [] && !Earlier(x, xs[0]) {
      PlaceDistinct(x, xs[1..]);
      var rest := Place(x, xs[1..]);
      forall i | 0 <= i < |rest|
        ensures rest[i].ref != xs[0].ref
      {
        assert rest[i] in multiset(rest);
        assert rest[i] in xs[1..] || rest[i] == x;
        if rest[i] in xs[1..] {
          var j :| 1 <= j < |xs| && xs[j] == rest[i];
        }
      }
    }
    hide Earlier;
  }

  lemma {:induction false} InOrderDistinct(xs: seq<Execution>)
    requires DistinctRefs(xs)
    ensures DistinctRefs(InOrder(xs))
  {
    if xs != [] {
      var n := |xs| - 1;
      InOrderDistinct(xs[..n]);
      SameMembers(xs[..n]);
      PlaceDistinct(xs[n], InOrder(xs[..n]));
    }
    hide Place, Earlier;
  }

  lemma SameMembers(xs: seq<Execution>)
    ensures forall x :: x in InOrder(xs) <==> x in xs
  {
    forall x
      ensures x in InOrder(xs) <==> x in xs
    {
      assert x in multiset(InOrder(xs)) <==> x in multiset(xs);
    }
  }

  /******* The order the fills are appended in *******/

  ghost predicate TimeOrdered(xs: seq<Execution>) {
    forall i, j :: 0 <= i < j < |xs| ==> Earlier(xs[i], xs[j])
  }

  lemma EarlierChain(a: Execution, b: Execution, c: Execution)
    requires Earlier(a, b) && Earlier(b, c)
    ensures Earlier(a, c)
  {
    if LexLess(a.ref, b.ref) && LexLess(b.ref, c.ref) {
      LexTransitive(a.ref, b.ref, c.ref);
    }
  }

  lemma {:induction false} PlaceOrdered(x: Execution, xs: seq<Execution>)
    requires TimeOrdered(xs) && forall y :: y in xs ==> y.ref != x.ref
    ensures TimeOrdered(Place(x, xs))
  {
    if xs != [] {
      if Earlier(x, xs[0]) {
        forall i | 0 < i < |xs|
          ensures Earlier(x, xs[i])
        {
          EarlierChain(x, xs[0], xs[i]);
        }
      } else {
        LexTotal(x.ref, xs[0].ref);
        assert Earlier(xs[0], x);
        PlaceOrdered(x, xs[1..]);
        var rest := Place(x, xs[1..]);
        forall i | 0 <= i < |rest|
          ensures Earlier(xs[0], rest[i])
        {
          assert rest[i] in multiset(rest);
          assert rest[i] in xs[1..] || rest[i] == x;
        }
      }
    }
    hide LexLess;
  }

  /** Fills are appended by time, then by reference. */
  lemma {:induction false} InOrderSorted(xs: seq<Execution>)
    requires DistinctRefs(xs)
    ensures TimeOrdered(InOrder(xs))
  {
    if xs != [] {
      var n := |xs| - 1;
      InOrderSorted(xs[..n]);
      SameMembers(xs[..n]);
      PlaceOrdered(xs[n], InOrder(xs[..n]));
    }
    hide Place, Earlier;
  }

  lemma FirstsAgree(xs: seq<Execution>, ys: seq<Execution>)
    requires TimeOrdered(xs) && TimeOrdered(ys) && multiset(xs) == multiset(ys) && xs != [] && ys != []
    ensures xs[0] == ys[0]
  {
    hide Earlier;
    assert xs[0] in multiset(ys) && ys[0] in multiset(xs);
    var i :| 0 <= i < |ys| && ys[i] == xs[0];
    var j :| 0 <= j < |xs| && xs[j] == ys[0];
    NotEarlierSelf(xs[0], ys[0]);
  }

  lemma {:induction false} OrderedUnique(xs: seq<Execution>, ys: seq<Execution>)
    requires TimeOrdered(xs) && TimeOrdered(ys) && multiset(xs) == multiset(ys)
    ensures xs == ys
  {
    hide Earlier;
    assert |multiset(xs)| == |multiset(ys)|;
    if xs != [] {
      FirstsAgree(xs, ys);
      TailOrdered(xs);
      TailOrdered(ys);
      OrderedUnique(xs[1..], ys[1..]);
    }
  }

  lemma TailOrdered(xs: seq<Execution>)
    requires xs != [] && TimeOrdered(xs)
    ensures TimeOrdered(xs[1..]) && xs == [xs[0]] + xs[1..] && multiset(xs[1..]) == multiset(xs) - multiset{xs[0]}
  {
    hide Earlier;
    assert xs == [xs[0]] + xs[1..];
  }

  lemma NotEarlierSelf(a: Execution, b: Execution)
    ensures !(Earlier(a, b) && Earlier(b, a))
  {
    LexIrreflexive(a.ref);
    if Earlier(a, b) && Earlier(b, a) {
      EarlierChain(a, b, a);
    }
  }

  /** The order the broker lists an order's executions in does not matter: the events
      asked for are the same. */
  lemma ListingOrderIgnored(orderId: string, ref: string, xs: seq<Execution>, ys: seq<Execution>)
    requires DistinctRefs(xs) && DistinctRefs(ys) && multiset(xs) == multiset(ys)
    ensures FillEntries(orderId, ref, InOrder(xs)) == FillEntries(orderId, ref, InOrder(ys))
  {
    InOrderSorted(xs);
    InOrderSorted(ys);
    OrderedUnique(InOrder(xs), InOrder(ys));
    hide InOrder, FillEntries;
  }

  lemma {:induction false} OneOrderDistinct(orders: seq<Observation>, o: Observation)
    requires DistinctRefs(AllExecutions(orders)) && o in orders
    ensures DistinctRefs(o.executions)
  {
    var n := |orders| - 1;
    var front := AllExecutions(orders[..n]);
    var all := AllExecutions(orders);
    assert all == front + orders[n].executions;
    if o == orders[n] {
      forall i, j | 0 <= i < j < |o.executions|
        ensures o.executions[i].ref != o.executions[j].ref
      {
        assert all[|front| + i] == o.executions[i] && all[|front| + j] == o.executions[j];
      }
    } else {
      assert all[..|front|] == front;
      assert forall i :: 0 <= i < |front| ==> all[i] == front[i];
      OneOrderDistinct(orders[..n], o);
    }
  }

  /** The order matched and what its observation promises. */
  lemma MatchFacts(db: Db, orderId: string, l: Lookup)
    requires Base(db) && ValidLookup(l) && Reconcile(db, orderId, l).Some? && Reconcile(db, orderId, l).value.outcome == Matched
    ensures orderId in db.orders && orderId != "" && db.orders[orderId].mode == Synthetic && At(db, orderId).ref.Some?
    ensures DispatchTime(db, orderId).Some? && At(db, orderId).status in {Open, PartiallyFilled, Filled, CancelUnknown, Canceled}
    ensures var found := Match(l.orders, At(db, orderId).ref.value);
      && found.Some? && found.value.ref == At(db, orderId).ref.value && found.value.ref != "" && found.value.complete
      && found.value.quantity == db.orders[orderId].quantity
      && DistinctRefs(found.value.executions) && Executed(found.value.executions) + found.value.remaining == found.value.quantity
      && (forall x :: x in found.value.executions ==> x.ref != "" && x.quantity > 0 && x.price > 0.0)
      && (var r := AppendAll(db, At(db, orderId), FillEntries(orderId, found.value.ref, InOrder(found.value.executions)));
        r.Some? && Reconcile(db, orderId, l).value == Answer(Matched, r.value.0, r.value.1))
  {
    StateKnown(db.orders, db.events, orderId);
    hide StateOf, AppendAll, FillEntries, DispatchTime, ValidIntent, ValidEntry, AllExecutions, DistinctRefs;
    var o := Match(l.orders, At(db, orderId).ref.value).value;
    assert ValidObservation(l, o);
    OneOrderDistinct(l.orders, o);
  }

  /******* The main results *******/

  /** Only a match writes: every other answer leaves the database as it was. */
  lemma OnlyMatchWrites(db: Db, orderId: string, l: Lookup)
    requires Reconcile(db, orderId, l).Some? && Reconcile(db, orderId, l).value.outcome != Matched
    ensures Reconcile(db, orderId, l).value.db == db
    ensures !l.complete ==> Reconcile(db, orderId, l).value.outcome == Incomplete
    ensures l.complete && AwaitsSubmit(db, orderId) ==> Reconcile(db, orderId, l).value.outcome == Uncorrelated
  {
    hide StateOf, AppendAll, DispatchTime, Agrees, FillEntries;
  }

  predicate AwaitsSubmit(db: Db, orderId: string) {
    var s := StateOf(db.orders, db.events, orderId);
    s.Some? && s.value.status == SubmitUnknown && s.value.pending == Submit
  }

  /** What a match does to the log: it adds only fills the lookup lists, and holds all of
      them afterwards. */
  lemma MatchEffect(db: Db, orderId: string, l: Lookup)
    requires Base(db) && ValidLookup(l) && Reconcile(db, orderId, l).Some? && Reconcile(db, orderId, l).value.outcome == Matched
    ensures var o := Match(l.orders, At(db, orderId).ref.value).value;
      var answer := Reconcile(db, orderId, l).value;
      && Base(answer.db) && orderId in answer.db.orders && At(answer.db, orderId) == answer.state
      && OnlyAdds(db, answer.db, orderId, o.ref, o.executions) && HoldsAll(answer.db.events, orderId, o.ref, o.executions)
      && (forall x :: x in o.executions ==> Settled(answer.db.events, FillEntry(orderId, o.ref, x)))
  {
    hide Reconcile, StateOf, AppendAll, FillEntry, FillEntries, Settled, Holds, ValidLookup, Base, DistinctRefs;
    MatchFacts(db, orderId, l);
    var o := Match(l.orders, At(db, orderId).ref.value).value;
    var xs := InOrder(o.executions);
    SameMembers(o.executions);
    InOrderDistinct(o.executions);
    StateIsAt(db, orderId);
    AppendAllHolds(db, At(db, orderId), orderId, o.ref, xs);
    AllSettle(db, At(db, orderId), orderId, o.ref, xs);
    OnlyAddsMembers(db, Reconcile(db, orderId, l).value.db, orderId, o.ref, xs, o.executions);
  }

  lemma OnlyAddsMembers(db: Db, after: Db, orderId: string, ref: string, xs: seq<Execution>, ys: seq<Execution>)
    requires OnlyAdds(db, after, orderId, ref, xs) && forall x :: x in xs ==> x in ys
    ensures OnlyAdds(db, after, orderId, ref, ys)
  {
    hide IsFill;
    forall k | |db.events| <= k < |after.events|
      ensures IsFill(after.events[k], orderId, ref, ys)
    {
      IsFillOf(after.events[k], orderId, ref, xs, ys);
    }
  }

  /** Reconciling the same lookup again leaves the log unchanged and answers the same. */
  lemma ReconcilingAgain(db: Db, orderId: string, l: Lookup)
    requires Base(db) && ValidLookup(l) && Reconcile(db, orderId, l).Some?
    ensures var answer := Reconcile(db, orderId, l).value;
      Reconcile(answer.db, orderId, l) == Some(answer)
  {
    if Reconcile(db, orderId, l).value.outcome == Matched {
      MatchedAgain(db, orderId, l);
    } else {
      OnlyMatchWrites(db, orderId, l);
    }
    hide Reconcile, Base, ValidLookup;
  }

  /** After a match the order has the reference it had, and a status reconciliation
      accepts. */
  lemma MatchedAgain(db: Db, orderId: string, l: Lookup)
    requires Base(db) && ValidLookup(l) && Reconcile(db, orderId, l).Some? && Reconcile(db, orderId, l).value.outcome == Matched
    ensures var answer := Reconcile(db, orderId, l).value; Reconcile(answer.db, orderId, l) == Some(answer)
  {
    hide StateOf, AppendAll, FillEntry, FillEntries, Settled, Holds, ValidLookup, Base, DistinctRefs, DispatchTime, Reconcile, Match, IsFill,
      InOrder;
    MatchFacts(db, orderId, l);
    MatchEffect(db, orderId, l);
    var answer := Reconcile(db, orderId, l).value;
    var o := Match(l.orders, At(db, orderId).ref.value).value;
    StateIsAt(db, orderId);
    StateIsAt(answer.db, orderId);
    SameDispatchTime(db, answer.db, orderId, o.ref, o.executions);
    SameMembers(o.executions);
    AfterFills(db, orderId, InOrder(o.executions), o.ref);
    SettledAgain(answer.db, orderId, o.ref, InOrder(o.executions));
    Retrace(db, answer.db, orderId, l);
  }

  lemma Retrace(db: Db, after: Db, orderId: string, l: Lookup)
    requires Reconcile(db, orderId, l).Some? && Reconcile(db, orderId, l).value.outcome == Matched
    requires StateOf(db.orders, db.events, orderId).Some? && StateOf(after.orders, after.events, orderId).Some?
    requires after.orders == db.orders && orderId in db.orders && DispatchTime(after, orderId) == DispatchTime(db, orderId)
    requires var s, t := StateOf(db.orders, db.events, orderId).value, StateOf(after.orders, after.events, orderId).value;
      && t.ref == s.ref && t.status in {Open, PartiallyFilled, Filled, CancelUnknown, Canceled}
      && s.ref.Some? && Match(l.orders, s.ref.value).Some?
      && (var o := Match(l.orders, s.ref.value).value;
        AppendAll(after, t, FillEntries(orderId, o.ref, InOrder(o.executions))) == Some((after, t)))
    ensures Reconcile(after, orderId, l) == Some(Answer(Matched, after, StateOf(after.orders, after.events, orderId).value))
  {
    hide StateOf, AppendAll, FillEntries, DispatchTime, Agrees, Match, InOrder;
  }

  lemma SameDispatchTime(db: Db, after: Db, orderId: string, ref: string, xs: seq<Execution>)
    requires Base(after) && OnlyAdds(db, after, orderId, ref, xs)
    requires DispatchTime(db, orderId).Some?
    ensures DispatchTime(after, orderId) == DispatchTime(db, orderId)
  {
    hide IsFill, FindReservation, Position, StateOf;
    var r := FindReservation(db.reservations, orderId).value;
    PositionStable(db.events, after.events, r.dispatchId);
  }

  lemma {:induction false} AfterFills(db: Db, orderId: string, xs: seq<Execution>, ref: string)
    requires Base(db) && orderId in db.orders && orderId != "" && ref != ""
    requires At(db, orderId).ref == Some(ref) && At(db, orderId).status in {Open, PartiallyFilled, Filled, CancelUnknown, Canceled}
    requires forall x :: x in xs ==> x.ref != "" && x.quantity > 0 && x.price > 0.0
    requires AppendAll(db, At(db, orderId), FillEntries(orderId, ref, xs)).Some?
    ensures var s := AppendAll(db, At(db, orderId), FillEntries(orderId, ref, xs)).value.1;
      s.ref == Some(ref) && s.status in {Open, PartiallyFilled, Filled, CancelUnknown, Canceled}
  {
    hide Append, FillEntry, Base, StateOf;
    if xs != [] {
      var n := |xs| - 1;
      var entries := FillEntries(orderId, ref, xs);
      assert entries[..n] == FillEntries(orderId, ref, xs[..n]);
      AfterFills(db, orderId, xs[..n], ref);
      AppendAllHolds(db, At(db, orderId), orderId, ref, xs[..n]);
      var before := AppendAll(db, At(db, orderId), entries[..n]).value.0;
      FillEntryIs(orderId, ref, xs[n]);
      FillIsValid(orderId, ref, xs[n]);
      AppendEffect(before, entries[n], false, false);
      AppendHolds(before, orderId, ref, xs[n]);
      FillKeepsStatus(At(before, orderId), entries[n].change, ref);
    }
  }

  lemma FillKeepsStatus(s: State, c: Change, ref: string)
    requires s.ref == Some(ref) && s.status in {Open, PartiallyFilled, Filled, CancelUnknown, Canceled} && c.FillRecorded?
    ensures Transition(s, c).Some? ==> Transition(s, c).value.ref == Some(ref)
    ensures Transition(s, c).Some? ==> Transition(s, c).value.status in {Open, PartiallyFilled, Filled, CancelUnknown, Canceled}
  {}

  /******* Filled quantities *******/

  ghost predicate Listed(e: Entry, xs: seq<Execution>) {
    exists x :: x in xs && ExecutionOf(e.change) == x.ref
  }

  /** Quantity filled for the order by executions the lookup does not list. */
  ghost function Outside(events: seq<Entry>, orderId: string, xs: seq<Execution>): int {
    if events == [] then 0
    else
      var e := events[|events| - 1];
      Outside(events[..|events| - 1], orderId, xs)
      + if e.orderId == orderId && e.change.FillRecorded? && !Listed(e, xs) then FillOf(e.change) else 0
  }

  lemma {:induction false} NothingListed(events: seq<Entry>, orderId: string)
    ensures Outside(events, orderId, []) == FillSum(HistoryOf(events, orderId))
  {
    hide HistoryOf, FillSum;
    if events == [] {
      NoFills(orderId);
    } else {
      NothingListed(events[..|events| - 1], orderId);
      FillSumStep(events, orderId);
    }
  }

  /** Listing one more execution moves exactly its fill inside. */
  lemma {:induction false} ListOneMore(events: seq<Entry>, orderId: string, ref: string, xs: seq<Execution>, x: Execution)
    requires UniqueExecutions(events) && x.ref != "" && forall y :: y in xs ==> y.ref != x.ref
    requires Holds(events, orderId, ref, x) || forall e :: e in events ==> ExecutionOf(e.change) != x.ref
    ensures Outside(events, orderId, xs + [x]) == Outside(events, orderId, xs) -
      if Holds(events, orderId, ref, x) then x.quantity else 0
  {
    if events != [] {
      var n, e := |events| - 1, events[|events| - 1];
      assert e in events && events == events[..n] + [e];
      ListedMore(e, xs, x);
      if ExecutionOf(e.change) == x.ref {
        OnlyLast(events, x.ref);
        HeldBy(events, orderId, ref, x, e);
        assert !Holds(events[..n], orderId, ref, x);
      } else {
        HeldBefore(events, orderId, ref, x);
      }
      ListOneMore(events[..n], orderId, ref, xs, x);
    }
    hide Listed;
  }

  lemma ListedMore(e: Entry, xs: seq<Execution>, x: Execution)
    ensures Listed(e, xs + [x]) <==> Listed(e, xs) || ExecutionOf(e.change) == x.ref
    ensures ExecutionOf(e.change) == x.ref && (forall y :: y in xs ==> y.ref != x.ref) ==> !Listed(e, xs)
  {
    assert x in xs + [x];
    if Listed(e, xs) {
      var y :| y in xs && ExecutionOf(e.change) == y.ref;
      assert y in xs + [x];
    }
  }

  lemma OnlyLast(events: seq<Entry>, execution: string)
    requires events != [] && UniqueExecutions(events) && execution != "" && ExecutionOf(events[|events| - 1].change) == execution
    ensures forall e :: e in events[..|events| - 1] ==> ExecutionOf(e.change) != execution
  {
    forall e | e in events[..|events| - 1]
      ensures ExecutionOf(e.change) != execution
    {
      var i :| 0 <= i < |events| - 1 && events[i] == e;
    }
  }

  lemma HeldBy(events: seq<Entry>, orderId: string, ref: string, x: Execution, e: Entry)
    requires events != [] && e == events[|events| - 1] && ExecutionOf(e.change) == x.ref && Holds(events, orderId, ref, x) && x.ref != ""
    requires forall p :: p in events[..|events| - 1] ==> ExecutionOf(p.change) != x.ref
    ensures e.orderId == orderId && e.change == FillRecorded(ref, x.ref, x.quantity, x.price, x.occurredAt)
  {
    var held :| held in events && held.change == FillRecorded(ref, x.ref, x.quantity, x.price, x.occurredAt) && held.orderId == orderId;
    assert events == events[..|events| - 1] + [e];
  }

  lemma HeldBefore(events: seq<Entry>, orderId: string, ref: string, x: Execution)
    requires events != [] && ExecutionOf(events[|events| - 1].change) != x.ref
    ensures Holds(events, orderId, ref, x) <==> Holds(events[..|events| - 1], orderId, ref, x)
  {
    var n := |events| - 1;
    assert events == events[..n] + [events[n]];
    if Holds(events, orderId, ref, x) {
      var held :| held in events && held.change == FillRecorded(ref, x.ref, x.quantity, x.price, x.occurredAt) && held.orderId == orderId;
      assert held in events[..n];
    }
    if Holds(events[..n], orderId, ref, x) {
      HoldsLater(events[..n], events, orderId, ref, x);
    }
  }

  /** The order's fills are the lookup's executions and whatever lies outside it. */
  lemma {:induction false} FillsSplit(events: seq<Entry>, orderId: string, ref: string, xs: seq<Execution>)
    requires UniqueExecutions(events) && DistinctRefs(xs) && HoldsAll(events, orderId, ref, xs) && forall x :: x in xs ==> x.ref != ""
    ensures FillSum(HistoryOf(events, orderId)) == Executed(xs) + Outside(events, orderId, xs)
  {
    hide Holds, Outside, UniqueExecutions;
    if xs == [] {
      NothingListed(events, orderId);
    } else {
      var n, x := |xs| - 1, xs[|xs| - 1];
      assert xs == xs[..n] + [x] && x in xs;
      FillsSplit(events, orderId, ref, xs[..n]);
      ListOneMore(events, orderId, ref, xs[..n], x);
    }
  }

  /** Some execution of the order is in the log and not in the lookup. */
  ghost predicate Forgotten(events: seq<Entry>, orderId: string, xs: seq<Execution>) {
    exists e :: e in events && e.orderId == orderId && e.change.FillRecorded? && !Listed(e, xs)
  }

  lemma {:induction false} OutsideIsForgotten(events: seq<Entry>, orderId: string, xs: seq<Execution>)
    requires forall e :: e in events && e.change.FillRecorded? ==> e.change.quantity > 0
    ensures Outside(events, orderId, xs) >= 0 && (Outside(events, orderId, xs) > 0 <==> Forgotten(events, orderId, xs))
  {
    hide Listed;
    if events != [] {
      var n, e := |events| - 1, events[|events| - 1];
      assert events == events[..n] + [e] && e in events;
      OutsideIsForgotten(events[..n], orderId, xs);
      if Forgotten(events[..n], orderId, xs) {
        var f :| f in events[..n] && f.orderId == orderId && f.change.FillRecorded? && !Listed(f, xs);
        assert f in events;
      }
      if Forgotten(events, orderId, xs) && !Forgotten(events[..n], orderId, xs) {
        var f :| f in events && f.orderId == orderId && f.change.FillRecorded? && !Listed(f, xs);
        assert f == e;
      }
    }
  }

  lemma AddedIsListed(db: Db, after: Db, orderId: string, ref: string, xs: seq<Execution>, k: nat)
    requires OnlyAdds(db, after, orderId, ref, xs) && |db.events| <= k < |after.events|
    ensures Listed(after.events[k], xs)
  {
    assert IsFill(after.events[k], orderId, ref, xs);
    var x :| x in xs && after.events[k] == FillEntry(orderId, ref, x);
    hide FillId;
  }

  /** New fills are listed, so what is forgotten was there before. */
  lemma ForgottenBefore(db: Db, after: Db, orderId: string, ref: string, xs: seq<Execution>)
    requires OnlyAdds(db, after, orderId, ref, xs)
    ensures Forgotten(after.events, orderId, xs) <==> Forgotten(db.events, orderId, xs)
  {
    hide Listed, FillEntry;
    if Forgotten(db.events, orderId, xs) {
      var e :| e in db.events && e.orderId == orderId && e.change.FillRecorded? && !Listed(e, xs);
      assert e in after.events;
    }
    if Forgotten(after.events, orderId, xs) {
      var e :| e in after.events && e.orderId == orderId && e.change.FillRecorded? && !Listed(e, xs);
      var k :| 0 <= k < |after.events| && after.events[k] == e;
      if k >= |db.events| {
        AddedIsListed(db, after, orderId, ref, xs, k);
      }
      assert db.events[k] == e;
    }
  }

  /** After a match the log holds every execution of the lookup, and the filled quantity
      is the broker's `quantity - remaining` exactly when every earlier execution of the
      order is in the lookup; otherwise it is more. */
  lemma MatchedQuantity(db: Db, orderId: string, l: Lookup)
    requires Base(db) && ValidLookup(l) && Reconcile(db, orderId, l).Some? && Reconcile(db, orderId, l).value.outcome == Matched
    ensures var o, answer := Match(l.orders, At(db, orderId).ref.value).value, Reconcile(db, orderId, l).value;
      && HoldsAll(answer.db.events, orderId, o.ref, o.executions)
      && answer.state.filled >= o.quantity - o.remaining
      && (answer.state.filled == o.quantity - o.remaining <==> !Forgotten(db.events, orderId, o.executions))
  {
    hide StateOf, AppendAll, FillEntry, FillEntries, Settled, Holds, ValidLookup, DistinctRefs, DispatchTime, Reconcile, Match, Forgotten,
      UniqueExecutions, OnlyAdds;
    MatchFacts(db, orderId, l);
    MatchEffect(db, orderId, l);
    var answer := Reconcile(db, orderId, l).value;
    var o := Match(l.orders, At(db, orderId).ref.value).value;
    StateConsistent(answer.db, orderId);
    FillsSplit(answer.db.events, orderId, o.ref, o.executions);
    FillQuantities(answer.db);
    OutsideIsForgotten(answer.db.events, orderId, o.executions);
    ForgottenBefore(db, answer.db, orderId, o.ref, o.executions);
  }

  lemma FillQuantities(db: Db)
    requires Base(db)
    ensures forall e :: e in db.events && e.change.FillRecorded? ==> e.change.quantity > 0
  {
    hide StateOf;
  }

  /** A complete observation that lists one new execution of an open order is accepted,
      whatever was filled before: the fill is added, and the filled quantity is the
      broker's `quantity - remaining` exactly when nothing was filled before. */
  lemma ForgottenExecution(db: Db, orderId: string, l: Lookup, o: Observation, x: Execution)
    requires Base(db) && ValidLookup(l) && l.complete && orderId in db.orders
    requires db.orders[orderId].mode == Synthetic && db.orders[orderId].account == l.account
    requires var t := DispatchTime(db, orderId);
      t.Some? && t.value <= l.observedAt && Agrees(o, db.orders[orderId], t.value, l.observedAt)
    requires var s := At(db, orderId);
      s.status in {Open, PartiallyFilled} && s.ref == Some(o.ref) && s.filled + x.quantity <= s.quantity
    requires Match(l.orders, o.ref) == Some(o) && o.complete && o.executions == [x]
    requires FindEvent(db.events, FillId(orderId, x.ref)).None?
    requires forall e :: e in db.events ==> ExecutionOf(e.change) != x.ref && (RefOf(e.change) == o.ref ==> e.orderId == orderId)
    ensures var answer := Reconcile(db, orderId, l);
      && answer.Some? && answer.value.outcome == Matched
      && answer.value.db == db.(events := db.events + [FillEntry(orderId, o.ref, x)])
      && answer.value.state.filled == At(db, orderId).filled + x.quantity
      && (answer.value.state.filled == o.quantity - o.remaining <==> At(db, orderId).filled == 0)
  {
    hide StateOf, ValidLookup, DispatchTime, Append, FillEntries, InOrder, Agrees, Base;
    StateIsAt(db, orderId);
    OneExecuted(l, o, x);
    assert FillEntries(orderId, o.ref, InOrder([x])) == [FillEntry(orderId, o.ref, x)] by {
      InOrderOne(x);
    }
    AppendAllOne(db, At(db, orderId), FillEntry(orderId, o.ref, x));
    NewFill(db, FillEntry(orderId, o.ref, x));
    StateConsistent(db, orderId);
  }

  lemma OneExecuted(l: Lookup, o: Observation, x: Execution)
    requires ValidLookup(l) && o in l.orders && o.complete && o.executions == [x]
    ensures x.quantity + o.remaining == o.quantity && x.quantity > 0 && x.ref != ""
  {
    assert ValidObservation(l, o) by {
      hide DistinctRefs, ValidObservation;
    }
    ObservedOne(l, o, x);
  }

  lemma ObservedOne(l: Lookup, o: Observation, x: Execution)
    requires ValidObservation(l, o) && o.complete && o.executions == [x]
    ensures x.quantity + o.remaining == o.quantity && x.quantity > 0 && x.ref != ""
  {
    assert x in o.executions;
    assert [x][..0] == [];
    assert Executed([x]) == x.quantity;
  }

  lemma InOrderOne(x: Execution)
    ensures InOrder([x]) == [x]
  {
    assert [x][..0] == [];
  }

  lemma AppendAllOne(db: Db, state: State, e: Entry)
    ensures AppendAll(db, state, [e]) == Append(db, e, false, false)
  {
    assert [e][..0] == [];
    hide Append;
  }

  /** A fill of an open order whose event, execution and reference are free is appended. */
  lemma NewFill(db: Db, e: Entry)
    requires Base(db) && e.orderId in db.orders && db.orders[e.orderId].mode != CapitalizedPaper && e.ticket.NoTicket?
    requires e.change.FillRecorded? && e.change.quantity > 0
    requires FindEvent(db.events, e.eventId).None?
    requires forall p :: p in db.events ==>
      ExecutionOf(p.change) != e.change.execution && (RefOf(p.change) == e.change.ref ==> p.orderId == e.orderId)
    requires var s := At(db, e.orderId);
      s.status in {Open, PartiallyFilled} && s.ref == Some(e.change.ref) && s.filled + e.change.quantity <= s.quantity
    ensures var s, r := At(db, e.orderId), Append(db, e, false, false);
      && r.Some? && r.value.0 == db.(events := db.events + [e]) && r.value.1.filled == s.filled + e.change.quantity
  {
    hide StateOf, FindEvent, FindExecution, Clear;
    StateIsAt(db, e.orderId);
    StateConsistent(db, e.orderId);
    NoExecution(db.events, e.change.execution);
  }

  lemma NoFills(orderId: string)
    ensures FillSum(HistoryOf([], orderId)) == 0
  {}

  lemma FillSumStep(events: seq<Entry>, orderId: string)
    requires events != []
    ensures var n, e := |events| - 1, events[|events| - 1];
      FillSum(HistoryOf(events, orderId)) == FillSum(HistoryOf(events[..n], orderId)) + if e.orderId == orderId then FillOf(e.change) else 0
  {
    var h, e := HistoryOf(events[..|events| - 1], orderId), events[|events| - 1];
    assert (h + [e.change])[..|h|] == h && h + [] == h;
  }

  lemma NoExecution(events: seq<Entry>, execution: string)
    requires forall p :: p in events ==> ExecutionOf(p.change) != execution
    ensures FindExecution(events, execution).None?
  {}
}
