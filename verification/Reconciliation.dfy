/** Reconciling one order with what the broker reports about it:
    services/core/kiwoom_order_reconciliation.go.

    Times are instants. Fields fixed by validation (exchange KRX, currency KRW, LIMIT)
    are left out of an observation.
  */
module Reconciliation {
  import opened Results
  import opened UtcText
  import opened OrderDomain
  import opened OrderStore
  import opened Dispatch

  datatype Execution = Execution(ref: string, quantity: int, price: real, occurredAt: int)

  datatype Observation = Observation(ref: string, symbol: string, side: Side, quantity: int, price: real, remaining: int,
                                     submittedAt: int, complete: bool, executions: seq<Execution>)

  datatype Lookup = Lookup(account: string, observedAt: int, complete: bool, orders: seq<Observation>)

  datatype Outcome = Matched | NotFound | Incomplete | Uncorrelated

  /******* Validating a lookup *******/

  predicate ValidExecution(l: Lookup, o: Observation, x: Execution) {
    x.ref != "" && o.submittedAt <= x.occurredAt <= l.observedAt && x.quantity > 0 && x.price > 0.0
  }

  function Executed(xs: seq<Execution>): int {
    if xs == [] then 0 else Executed(xs[..|xs| - 1]) + xs[|xs| - 1].quantity
  }

  predicate ValidObservation(l: Lookup, o: Observation) {
    && o.ref != "" && o.symbol != "" && o.quantity > 0 && o.remaining >= 0 && o.price > 0.0 && o.submittedAt <= l.observedAt
    && (forall x :: x in o.executions ==> ValidExecution(l, o, x))
    && Executed(o.executions) + o.remaining <= o.quantity
    && (o.complete ==> Executed(o.executions) + o.remaining == o.quantity)
  }

  /** All executions of a lookup, order by order. */
  function AllExecutions(orders: seq<Observation>): seq<Execution> {
    if orders == [] then [] else AllExecutions(orders[..|orders| - 1]) + orders[|orders| - 1].executions
  }

  ghost predicate DistinctRefs(xs: seq<Execution>) {
    forall i, j :: 0 <= i < j < |xs| ==> xs[i].ref != xs[j].ref
  }

  ghost predicate ValidLookup(l: Lookup) {
    && l.account != "" && (forall o :: o in l.orders ==> ValidObservation(l, o))
    && (forall i, j :: 0 <= i < j < |l.orders| ==> l.orders[i].ref != l.orders[j].ref)
    && DistinctRefs(AllExecutions(l.orders))
  }

  ghost function Refs(xs: seq<Execution>): set<string> {
    set i | 0 <= i < |xs| :: xs[i].ref
  }

  /** The inner loop: one order's executions, against the references seen so far. */
  method CheckExecutions(l: Lookup, o: Observation, seen: set<string>, ghost before: seq<Execution>)
    returns (ok: bool, seenNow: set<string>, total: int)
    requires seen == Refs(before) && DistinctRefs(before)
    ensures ok <==> (forall x :: x in o.executions ==> ValidExecution(l, o, x)) && DistinctRefs(before + o.executions)
    ensures ok ==> seenNow == Refs(before + o.executions) && total == Executed(o.executions)
  {
    hide ValidExecution;
    var xs := o.executions;
    ok, seenNow, total := true, seen, 0;
    assert before + xs[..0] == before;
    for i := 0 to |xs|
      invariant forall x :: x in xs[..i] ==> ValidExecution(l, o, x)
      invariant DistinctRefs(before + xs[..i]) && seenNow == Refs(before + xs[..i]) && total == Executed(xs[..i])
    {
      var known := before + xs[..i];
      assert before + xs[..i + 1] == known + [xs[i]] && xs[..i + 1][..i] == xs[..i];
      RefsGrow(known, xs[i]);
      if xs[i].ref in seenNow || !ValidExecution(l, o, xs[i]) {
        if xs[i].ref in seenNow {
          NotDistinct(known, xs[i], before + xs);
        }
        ok := false;
        return;
      }
      seenNow, total := seenNow + {xs[i].ref}, total + xs[i].quantity;
    }
    assert xs[..|xs|] == xs;
  }

  lemma RefsGrow(xs: seq<Execution>, x: Execution)
    ensures Refs(xs + [x]) == Refs(xs) + {x.ref}
    ensures DistinctRefs(xs) ==> (DistinctRefs(xs + [x]) <==> x.ref !in Refs(xs))
  {
    var all := xs + [x];
    assert all[|xs|] == x;
    forall i | 0 <= i < |xs|
      ensures xs[i].ref in Refs(all) && all[i] == xs[i]
    {
      assert all[i] == xs[i];
    }
    if x.ref in Refs(xs) {
      var i :| 0 <= i < |xs| && xs[i].ref == x.ref;
      assert all[i].ref == all[|xs|].ref;
    }
  }

  lemma NotDistinct(xs: seq<Execution>, x: Execution, all: seq<Execution>)
    requires x.ref in Refs(xs) && xs + [x] <= all
    ensures !DistinctRefs(all)
  {
    var i :| 0 <= i < |xs| && xs[i].ref == x.ref;
    assert (xs + [x])[i] == all[i] && (xs + [x])[|xs|] == all[|xs|];
  }

  /** validateKiwoomOrderLookup. */
  method ValidateLookup(l: Lookup) returns (ok: bool)
    ensures ok <==> ValidLookup(l)
  {
    hide ValidExecution, DistinctRefs, Refs;
    if l.account == "" {
      return false;
    }
    var seenOrders, seenExecutions: set<string> := {}, {};
    NoRefs();
    for i := 0 to |l.orders|
      invariant forall o :: o in l.orders[..i] ==> ValidObservation(l, o)
      invariant seenOrders == set j | 0 <= j < i :: l.orders[j].ref
      invariant forall j, k :: 0 <= j < k < i ==> l.orders[j].ref != l.orders[k].ref
      invariant DistinctRefs(AllExecutions(l.orders[..i])) && seenExecutions == Refs(AllExecutions(l.orders[..i]))
    {
      var o := l.orders[i];
      assert o in l.orders;
      assert l.orders[..i + 1][..i] == l.orders[..i];
      if o.ref in seenOrders {
        return false;
      }
      if o.ref == "" || o.symbol == "" || o.quantity <= 0 || o.remaining < 0 || o.price <= 0.0 || o.submittedAt > l.observedAt {
        return false;
      }
      var valid, seen, total := CheckExecutions(l, o, seenExecutions, AllExecutions(l.orders[..i]));
      if !valid {
        PrefixDistinct(l.orders, i + 1);
        return false;
      }
      if total + o.remaining > o.quantity || (o.complete && total + o.remaining != o.quantity) {
        return false;
      }
      seenOrders, seenExecutions := seenOrders + {o.ref}, seen;
    }
    assert l.orders[..|l.orders|] == l.orders;
    ok := true;
  }

  lemma NoRefs()
    ensures DistinctRefs([]) && Refs([]) == {}
  {}

  lemma {:induction false} PrefixDistinct(orders: seq<Observation>, n: nat)
    requires n <= |orders|
    ensures DistinctRefs(AllExecutions(orders)) ==> DistinctRefs(AllExecutions(orders[..n]))
  {
    if n < |orders| {
      var m := |orders| - 1;
      PrefixDistinct(orders[..m], n);
      assert orders[..m][..n] == orders[..n];
      var front := AllExecutions(orders[..m]);
      assert AllExecutions(orders)[..|front|] == front;
    } else {
      assert orders[..n] == orders;
    }
  }

  /******* The events a lookup asks for *******/

  predicate Earlier(a: Execution, b: Execution) {
    a.occurredAt < b.occurredAt || (a.occurredAt == b.occurredAt && LexLess(a.ref, b.ref))
  }

  function Place(x: Execution, xs: seq<Execution>): (r: seq<Execution>)
    ensures multiset(r) == multiset(xs) + multiset{x} && |r| == |xs| + 1
  {
    if xs == [] || Earlier(x, xs[0]) then [x] + xs
    else
      assert xs == [xs[0]] + xs[1..];
      [xs[0]] + Place(x, xs[1..])
  }

  /** By time, then by reference. */
  function InOrder(xs: seq<Execution>): (r: seq<Execution>)
    ensures multiset(r) == multiset(xs) && |r| == |xs|
  {
    if xs == [] then []
    else
      assert xs == xs[..|xs| - 1] + [xs[|xs| - 1]];
      Place(xs[|xs| - 1], InOrder(xs[..|xs| - 1]))
  }

  /** The body of a JSON string: identifiers hold no control characters. */
  function Escaped(s: string): string {
    if s == "" then ""
    else (if s[0] == '"' || s[0] == '\\' then ['\\', s[0]] else [s[0]]) + Escaped(s[1..])
  }

  /** A JSON string and what follows it. */
  function QuotedThen(s: string, rest: string): string {
    ['"'] + (Escaped(s) + (['"'] + rest))
  }

  /** reconciliationEventID, as the JSON array it digests. */
  function FillId(orderId: string, ref: string): string {
    "[\"fill\"," + QuotedThen(orderId, "," + QuotedThen(ref, "]"))
  }

  lemma {:induction false} EscapedEnds(a: string, b: string, x: string, y: string)
    requires Escaped(a) + (['"'] + x) == Escaped(b) + (['"'] + y)
    ensures a == b && x == y
  {
    var s, t := Escaped(a) + (['"'] + x), Escaped(b) + (['"'] + y);
    EscapedHead(a, x);
    EscapedHead(b, y);
    if a != "" && b != "" {
      assert a[0] == b[0];
      EscapedEnds(a[1..], b[1..], x, y);
      assert a == [a[0]] + a[1..] && b == [b[0]] + b[1..];
    } else if a == "" && b == "" {
      assert s[1..] == x && t[1..] == y;
    }
  }

  /** How the text of a string starts, and what follows its first character. */
  lemma EscapedHead(s: string, rest: string)
    ensures var text := Escaped(s) + (['"'] + rest);
      && (s == "" ==> text == ['"'] + rest)
      && (s != "" && (s[0] == '"' || s[0] == '\\') ==>
        |text| >= 2 && text[0] == '\\' && text[1] == s[0] && text[2..] == Escaped(s[1..]) + (['"'] + rest))
      && (s != "" && s[0] != '"' && s[0] != '\\' ==>
        text[0] == s[0] && text[1..] == Escaped(s[1..]) + (['"'] + rest))
  {
    if s == "" {
      assert "" + (['"'] + rest) == ['"'] + rest;
    } else {
      TwoParts(if s[0] == '"' || s[0] == '\\' then ['\\', s[0]] else [s[0]], Escaped(s[1..]), ['"'] + rest);
    }
  }

  lemma TwoParts(head: string, middle: string, rest: string)
    ensures var text := head + middle + rest; text[|head|..] == middle + rest && forall i :: 0 <= i < |head| ==> text[i] == head[i]
  {}

  lemma QuotedEnds(a: string, b: string, x: string, y: string)
    requires QuotedThen(a, x) == QuotedThen(b, y)
    ensures a == b && x == y
  {
    assert QuotedThen(a, x)[1..] == Escaped(a) + (['"'] + x) && QuotedThen(b, y)[1..] == Escaped(b) + (['"'] + y);
    EscapedEnds(a, b, x, y);
  }

  /** Different fills have different event identifiers. */
  lemma FillIdInjective(orderId: string, ref: string, otherId: string, otherRef: string)
    requires FillId(orderId, ref) == FillId(otherId, otherRef)
    ensures orderId == otherId && ref == otherRef
  {
    hide QuotedThen;
    var n := |"[\"fill\","|;
    var s, t := QuotedThen(orderId, "," + QuotedThen(ref, "]")), QuotedThen(otherId, "," + QuotedThen(otherRef, "]"));
    assert FillId(orderId, ref)[n..] == s && FillId(otherId, otherRef)[n..] == t;
    QuotedEnds(orderId, otherId, "," + QuotedThen(ref, "]"), "," + QuotedThen(otherRef, "]"));
    assert ("," + QuotedThen(ref, "]"))[1..] == QuotedThen(ref, "]");
    assert ("," + QuotedThen(otherRef, "]"))[1..] == QuotedThen(otherRef, "]");
    QuotedEnds(ref, otherRef, "]", "]");
  }

  function FillEntry(orderId: string, ref: string, x: Execution): Entry {
    Entry(FillId(orderId, x.ref), orderId, true, FillRecorded(ref, x.ref, x.quantity, x.price, x.occurredAt), NoTicket)
  }

  function FillEntries(orderId: string, ref: string, xs: seq<Execution>): (r: seq<Entry>)
    ensures |r| == |xs| && forall i :: 0 <= i < |r| ==> r[i] == FillEntry(orderId, ref, xs[i])
  {
    seq(|xs|, i requires 0 <= i < |xs| => FillEntry(orderId, ref, xs[i]))
  }

  /** The append loop; one refusal drops the whole transaction. */
  function AppendAll(db: Db, state: State, entries: seq<Entry>): Option<(Db, State)> {
    if entries == [] then Some((db, state))
    else
      var before :- AppendAll(db, state, entries[..|entries| - 1]);
      Append(before.0, entries[|entries| - 1], false, false)
  }

  function Match(orders: seq<Observation>, ref: string): (r: Option<Observation>)
    ensures r.Some? ==> r.value in orders && r.value.ref == ref
    ensures r.None? ==> forall o :: o in orders ==> o.ref != ref
  {
    if orders == [] then None
    else if orders[0].ref == ref then Some(orders[0]) else Match(orders[1..], ref)
  }

  /** The dispatch of a synthetic order is recorded at its reservation's time. */
  function DispatchTime(db: Db, orderId: string): Option<int> {
    var r :- FindReservation(db.reservations, orderId);
    if Position(db.events, r.dispatchId).Some? then Some(r.reservedAt) else None
  }

  predicate Agrees(o: Observation, i: Intent, dispatchedAt: int, observedAt: int) {
    && dispatchedAt <= o.submittedAt <= observedAt
    && o.symbol == i.symbol && o.side == i.side && i.mode != CapitalizedPaper && o.quantity == i.quantity && o.price == i.price
  }

  datatype Answer = Answer(outcome: Outcome, db: Db, state: State)

  /** reconcileKiwoomOrderLookup on a valid lookup. */
  function Reconcile(db: Db, orderId: string, l: Lookup): Option<Answer> {
    var state :- StateOf(db.orders, db.events, orderId);
    var i := db.orders[orderId];
    var dispatchedAt := DispatchTime(db, orderId);
    if i.mode != Synthetic || i.account != l.account || dispatchedAt.None? || l.observedAt < dispatchedAt.value then None
    else if !l.complete then Some(Answer(Incomplete, db, state))
    else if state.status == SubmitUnknown && state.pending == Submit then Some(Answer(Uncorrelated, db, state))
    else if state.ref.None? || state.status !in {Open, PartiallyFilled, Filled, CancelUnknown, Canceled} then None
    else
      match Match(l.orders, state.ref.value)
      case None => Some(Answer(NotFound, db, state))
      case Some(o) =>
        if !Agrees(o, i, dispatchedAt.value, l.observedAt) then None
        else if !o.complete then Some(Answer(Incomplete, db, state))
        else
          var r :- AppendAll(db, state, FillEntries(orderId, o.ref, InOrder(o.executions)));
          Some(Answer(Matched, r.0, r.1))
  }

  /** The same call as the service makes it: validation and the append loop. */
  method ReconcileLookup(db: Db, orderId: string, l: Lookup) returns (r: Option<Answer>)
    ensures r == if ValidLookup(l) then Reconcile(db, orderId, l) else None
  {
    hide StateOf, ValidLookup, Append, FillEntries, DispatchTime, Agrees;
    var valid := ValidateLookup(l);
    var loaded := LoadState(db.orders, db.events, orderId);
    if !valid || loaded.None? {
      return None;
    }
    StateKnown(db.orders, db.events, orderId);
    var state, i, dispatchedAt := loaded.value, db.orders[orderId], DispatchTime(db, orderId);
    if i.mode != Synthetic || i.account != l.account || dispatchedAt.None? || l.observedAt < dispatchedAt.value {
      return None;
    }
    if !l.complete {
      return Some(Answer(Incomplete, db, state));
    }
    if state.status == SubmitUnknown && state.pending == Submit {
      return Some(Answer(Uncorrelated, db, state));
    }
    if state.ref.None? || state.status !in {Open, PartiallyFilled, Filled, CancelUnknown, Canceled} {
      return None;
    }
    var found := Match(l.orders, state.ref.value);
    if found.None? {
      return Some(Answer(NotFound, db, state));
    }
    if !Agrees(found.value, i, dispatchedAt.value, l.observedAt) {
      return None;
    }
    if !found.value.complete {
      return Some(Answer(Incomplete, db, state));
    }
    var entries := FillEntries(orderId, found.value.ref, InOrder(found.value.executions));
    var after, now := db, state;
    for k := 0 to |entries|
      invariant AppendAll(db, state, entries[..k]) == Some((after, now))
    {
      assert entries[..k + 1][..k] == entries[..k];
      var next := Append(after, entries[k], false, false);
      if next.None? {
        AppendStops(db, state, entries, k + 1);
        return None;
      }
      after, now := next.value.0, next.value.1;
    }
    assert entries[..|entries|] == entries;
    r := Some(Answer(Matched, after, now));
  }

  lemma {:induction false} AppendStops(db: Db, state: State, entries: seq<Entry>, n: nat)
    requires n <= |entries| && AppendAll(db, state, entries[..n]).None?
    ensures AppendAll(db, state, entries).None?
    decreases |entries| - n
  {
    hide Append;
    if n == |entries| {
      assert entries[..n] == entries;
    } else {
      assert entries[..n + 1][..n] == entries[..n];
      AppendStops(db, state, entries, n + 1);
    }
  }
}
