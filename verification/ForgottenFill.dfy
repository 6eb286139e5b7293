/** A database the writers can reach and a lookup the service accepts after which more is
    filled than the broker says: an order of ten shares, four filled by an execution that
    the broker, reporting another four and six remaining, no longer lists.
  */
module ForgottenFill {
  import opened Results
  import opened OrderDomain
  import opened OrderStore
  import opened Dispatch
  import opened OrderInvariants
  import opened SubmitProtocol
  import opened Reconciliation
  import opened ReconciliationLaws
  import A = ExecutionAuthority

  const ORDER := "order"
  const INTENT := Intent("client", Synthetic, "account", "005930", OrderStore.Buy, 10, 1000.0)
  const CALLER := Caller("owner", 0, "reservation", "risk", "dispatch")
  const FIRST := Execution("first", 4, 1000.0, 2)
  const SECOND := Execution("second", 4, 1000.0, 3)

  const ACKNOWLEDGED := Entry("acknowledged", ORDER, true, SubmitAcknowledged("ref"), NoTicket)
  const FILLED := FillEntry(ORDER, "ref", FIRST)

  /** Armed, leased, recorded, dispatched, acknowledged, and filled once. */
  const COMMANDS: seq<Command> :=
    [Arm("account", true, "armed", 0), Acquire("account", "owner", "leased", 0), Command.Record(INTENT, ORDER, "intent"),
     AuthorizeOrder(ORDER, 2, CALLER), AppendEvent(ACKNOWLEDGED, false, false), AppendEvent(FILLED, false, false)]

  const OBSERVATION := Observation("ref", "005930", OrderStore.Buy, 10, 1000.0, 6, 1, true, [SECOND])
  const LOOKUP := Lookup("account", 5, true, [OBSERVATION])

  /******* The database after each step *******/

  const ARMED := A.Record("armed", "account", true, None, 1, A.ManualArm, "", 0)
  const LEASED := A.LeaseRecord("account", "owner", 2, "leased", 0)
  const RECORDED := Entry("intent", ORDER, false, IntentRecorded, NoTicket)
  const RESERVED := ReservationFor(ORDER, INTENT, "leased", 2, CALLER)

  const LEASED_DB := Db(map[], [], [ARMED, LEASED], [])
  const RECORDED_DB := Db(map[ORDER := INTENT], [RECORDED], [ARMED, LEASED], [])
  const RESERVED_DB := RECORDED_DB.(reservations := [RESERVED])

  ghost function With(db: Db, e: Entry): Db {
    db.(events := db.events + [e])
  }

  ghost function DispatchedDb(): Db {
    With(With(RESERVED_DB, RiskEntry(RESERVED)), DispatchEntry(RESERVED))
  }

  ghost function FilledDb(): Db {
    With(With(DispatchedDb(), ACKNOWLEDGED), FILLED)
  }

  lemma TwoRecords(a: A.Record, b: A.Record)
    requires a.account == b.account && A.Follows(a, None) && A.Follows(b, Some(a))
    ensures A.LogOf([a], a.account) == [a] && A.LogOf([a, b], a.account) == [a, b] && A.Accepted([a]) && A.Accepted([a, b])
  {
    hide A.Follows;
    assert [a] == [] + [a] && [a, b] == [a] + [b];
    A.LogGrows([], a, a.account);
    A.LogGrows([a], b, a.account);
    A.AcceptedGrows([], a);
    A.AcceptedGrows([a], b);
  }

  lemma Logs()
    ensures A.LogOf([ARMED], "account") == [ARMED] && A.LogOf([ARMED, LEASED], "account") == [ARMED, LEASED]
    ensures A.Accepted([ARMED]) && A.Accepted([ARMED, LEASED])
  {
    hide A.LogOf, A.Accepted;
    TwoRecords(ARMED, LEASED);
  }

  lemma ArmStep()
    ensures A.SetArmed([], "account", true, "armed", 0) == Some([ARMED])
  {
    assert [] + [ARMED] == [ARMED];
  }

  lemma AcquireStep()
    ensures A.Acquire([ARMED], "account", "owner", "leased", 0) == Some([ARMED, LEASED])
  {
    hide A.LogOf, A.Accepted;
    Logs();
    assert [ARMED] + [LEASED] == [ARMED, LEASED];
  }

  lemma LeaseSteps()
    ensures Next(Next(EMPTY_DB, Arm("account", true, "armed", 0)), Acquire("account", "owner", "leased", 0)) == LEASED_DB
  {
    hide A.SetArmed, A.Acquire;
    ArmStep();
    AcquireStep();
  }

  lemma RecordStep()
    ensures Next(LEASED_DB, Command.Record(INTENT, ORDER, "intent")) == RECORDED_DB
  {
    assert PriorOrder(LEASED_DB.orders, INTENT) == {};
    hide StateOf;
  }

  /** An event of the database's one order, new in every respect, is appended. */
  lemma Appends(db: Db, e: Entry)
    requires Base(db) && ValidEntry(e) && e.orderId in db.orders && db.orders[e.orderId].mode == Synthetic
    requires forall p :: p in db.events ==>
      p.orderId == e.orderId && p.eventId != e.eventId && (ExecutionOf(e.change) != "" ==> ExecutionOf(p.change) != ExecutionOf(e.change))
    requires Transition(At(db, e.orderId), e.change).Some? && GuardAllows(db, e, false)
    requires e.change.SubmitDispatched? ==> Clear(db, db.orders[e.orderId].account)
    ensures var next := Transition(At(db, e.orderId), e.change).value;
      Append(db, e, false, false) == Some((With(db, e), next)) && Base(With(db, e)) && At(With(db, e), e.orderId) == next
  {
    hide StateOf, Transition, GuardAllows, Clear, ValidEntry, Base;
    StateIsAt(db, e.orderId);
    if ExecutionOf(e.change) != "" {
      NoExecution(db.events, ExecutionOf(e.change));
    }
    assert Append(db, e, false, false) == Some((With(db, e), Transition(At(db, e.orderId), e.change).value));
    AppendEffect(db, e, false, false);
    assert |With(db, e).events| == |db.events| + 1;
  }

  lemma RecordedState()
    requires Base(RECORDED_DB)
    ensures At(RECORDED_DB, ORDER) == State(Recorded, 10, 0, None, Nothing)
    ensures Base(RESERVED_DB) && At(RESERVED_DB, ORDER) == At(RECORDED_DB, ORDER)
  {
    assert [RECORDED][..0] == [];
    assert HistoryOf([RECORDED], ORDER) == [IntentRecorded];
    assert [IntentRecorded][..0] == [];
  }

  /** The two appends of the dispatch. */
  lemma DispatchAppends()
    requires Base(RECORDED_DB)
    ensures AuthorizedPair(RESERVED_DB, RESERVED) == Some((DispatchedDb(), State(SubmitUnknown, 10, 0, None, Submit), true))
    ensures Base(DispatchedDb()) && At(DispatchedDb(), ORDER) == State(SubmitUnknown, 10, 0, None, Submit)
  {
    hide StateOf, Base, Append, AppendNew;
    RecordedState();
    var risk, dispatch := RiskEntry(RESERVED), DispatchEntry(RESERVED);
    assert ReservedBy(RESERVED, risk) && ReservedBy(RESERVED, dispatch);
    assert RESERVED in RESERVED_DB.reservations;
    Appends(RESERVED_DB, risk);
    var ready := With(RESERVED_DB, risk);
    OneOrderClear(ready);
    Appends(ready, dispatch);
    var events := DispatchedDb().events;
    assert events == [RECORDED, risk, dispatch];
    PositionsOf(events);
  }

  lemma OneOrderClear(db: Db)
    requires Base(db) && db.orders == map[ORDER := INTENT] && At(db, ORDER).pending == Nothing
    ensures Clear(db, "account")
  {
    hide StateOf, Base;
    StateIsAt(db, ORDER);
  }

  lemma PositionsOf(events: seq<Entry>)
    requires events == [RECORDED, RiskEntry(RESERVED), DispatchEntry(RESERVED)]
    ensures Position(events, "risk") == Some(1) && Position(events, "dispatch") == Some(2)
  {
    assert events[..2] == [RECORDED, RiskEntry(RESERVED)];
  }

  /** The account is armed and leased to the caller, who holds the newest token. */
  lemma LeaseHeld()
    ensures A.Load([ARMED, LEASED], "account") == Some(A.Authority(true, LEASED.lease, 2, "leased"))
    ensures AuthorityProven([ARMED, LEASED]) && FindAuthority([ARMED, LEASED], "leased") == Some(LEASED)
  {
    hide A.LogOf, A.Accepted;
    Logs();
    assert A.AuthorityOf([ARMED, LEASED]) == A.Authority(true, LEASED.lease, 2, "leased");
  }

  lemma ReserveStep()
    requires Base(RECORDED_DB)
    ensures Reserve(RECORDED_DB, ORDER, 2, CALLER) == Some(RESERVED)
  {
    hide StateOf, Base, A.Load, FindAuthority, Clear;
    RecordedState();
    StateIsAt(RECORDED_DB, ORDER);
    OneOrderClear(RECORDED_DB);
    LeaseHeld();
  }

  lemma DispatchStep()
    requires Base(RECORDED_DB)
    ensures Next(RECORDED_DB, AuthorizeOrder(ORDER, 2, CALLER)) == DispatchedDb()
  {
    hide StateOf, Base, AuthorizedPair, AuthorityProven, Reserve, DispatchedDb;
    LeaseHeld();
    ReserveStep();
    DispatchAppends();
    assert [] + [RESERVED] == [RESERVED];
    AuthorizeIs();
  }

  lemma AuthorizeIs()
    requires AuthorityProven([ARMED, LEASED]) && Reserve(RECORDED_DB, ORDER, 2, CALLER) == Some(RESERVED)
    ensures Authorize(RECORDED_DB, ORDER, 2, CALLER) == AuthorizedPair(RESERVED_DB, RESERVED)
  {
    hide StateOf, AuthorizedPair, AuthorityProven, Reserve;
    assert [] + [RESERVED] == [RESERVED];
  }

  lemma AcknowledgeStep()
    requires Base(RECORDED_DB)
    ensures var after := With(DispatchedDb(), ACKNOWLEDGED);
      && Next(DispatchedDb(), AppendEvent(ACKNOWLEDGED, false, false)) == after && Base(after)
      && At(after, ORDER) == State(OrderDomain.Open, 10, 0, Some("ref"), Nothing)
  {
    hide StateOf, Base, Append, Next;
    DispatchAppends();
    assert DispatchedDb().events == [RECORDED, RiskEntry(RESERVED), DispatchEntry(RESERVED)];
    Appends(DispatchedDb(), ACKNOWLEDGED);
    NextAppends(DispatchedDb(), ACKNOWLEDGED);
  }

  lemma FillStep()
    requires Base(RECORDED_DB)
    ensures Next(With(DispatchedDb(), ACKNOWLEDGED), AppendEvent(FILLED, false, false)) == FilledDb()
    ensures Base(FilledDb()) && At(FilledDb(), ORDER) == State(PartiallyFilled, 10, 4, Some("ref"), Nothing)
  {
    hide StateOf, Base, Append, FillId, Next;
    AcknowledgeStep();
    FillNamed();
    var before := With(DispatchedDb(), ACKNOWLEDGED);
    assert before.events == [RECORDED, RiskEntry(RESERVED), DispatchEntry(RESERVED), ACKNOWLEDGED];
    assert ValidEntry(FILLED);
    Appends(before, FILLED);
    NextAppends(before, FILLED);
  }

  lemma NextAppends(db: Db, e: Entry)
    requires ValidEntry(e) && Append(db, e, false, false).Some?
    ensures Next(db, AppendEvent(e, false, false)) == Append(db, e, false, false).value.0
  {
    hide Append, ValidEntry;
  }

  /** A fill's identifier is none of the others. */
  lemma FillNamed()
    ensures forall ref :: FillId(ORDER, ref) != "" && FillId(ORDER, ref)[0] == '['
  {
    hide QuotedThen;
  }

  /** The run reaches that database. */
  lemma RunReaches()
    ensures Good(FilledDb()) && Run(EMPTY_DB, COMMANDS) == FilledDb()
    ensures At(FilledDb(), ORDER) == State(PartiallyFilled, 10, 4, Some("ref"), Nothing)
  {
    hide Next, Good, Base;
    EmptyIsGood();
    RunsAreGood(EMPTY_DB, COMMANDS[..3]);
    RunOf(COMMANDS);
    LeaseSteps();
    RecordStep();
    GoodAuthority(RECORDED_DB);
    DispatchStep();
    AcknowledgeStep();
    FillStep();
    RunsAreGood(EMPTY_DB, COMMANDS);
  }

  lemma RunStep(c: seq<Command>, n: nat)
    requires n < |c|
    ensures Run(EMPTY_DB, c[..n + 1]) == Next(Run(EMPTY_DB, c[..n]), c[n])
  {
    hide Next;
    assert c[..n + 1][..n] == c[..n];
  }

  lemma RunOf(c: seq<Command>)
    requires |c| == 6
    ensures Run(EMPTY_DB, c[..3]) == Next(Next(Next(EMPTY_DB, c[0]), c[1]), c[2])
    ensures Run(EMPTY_DB, c) == Next(Next(Next(Run(EMPTY_DB, c[..3]), c[3]), c[4]), c[5])
  {
    hide Next, Run;
    assert c[..0] == [] && c[..6] == c;
    RunNothing();
    RunStep(c, 0);
    RunStep(c, 1);
    RunStep(c, 2);
    RunStep(c, 3);
    RunStep(c, 4);
    RunStep(c, 5);
  }

  lemma RunNothing()
    ensures Run(EMPTY_DB, []) == EMPTY_DB
  {}

  /******* The lookup *******/

  lemma LookupValid()
    ensures ValidLookup(LOOKUP)
  {
    assert [SECOND][..0] == [];
    assert Executed([SECOND]) == 4;
    assert [OBSERVATION][..0] == [];
    assert AllExecutions([OBSERVATION]) == [SECOND];
  }

  /** Reconciling the valid lookup with the reached database is accepted, and the order
      ends with eight filled where the broker says four. */
  lemma EightNotFour()
    ensures ValidLookup(LOOKUP)
    ensures var answer := Reconcile(Run(EMPTY_DB, COMMANDS), ORDER, LOOKUP);
      && answer.Some? && answer.value.outcome == Matched && answer.value.state.filled == 8
      && OBSERVATION.quantity - OBSERVATION.remaining == 4
  {
    hide Good, Base, Run, StateOf, Reconcile, FillId, ValidLookup, DispatchTime, At;
    RunReaches();
    LookupValid();
    GoodAuthority(FilledDb());
    DispatchFound();
    SecondIsNew();
    ForgottenExecution(FilledDb(), ORDER, LOOKUP, OBSERVATION, SECOND);
  }

  /** Nothing in the log is the second execution. */
  lemma SecondIsNew()
    ensures FindEvent(FilledDb().events, FillId(ORDER, "second")).None?
    ensures forall e :: e in FilledDb().events ==> ExecutionOf(e.change) != "second" && e.orderId == ORDER
  {
    hide FillId, FindEvent;
    FillNamed();
    var events := FilledDb().events;
    assert events == [RECORDED, RiskEntry(RESERVED), DispatchEntry(RESERVED), ACKNOWLEDGED, FILLED];
    NamesDiffer();
    assert forall e :: e in events ==> e.eventId != FillId(ORDER, "second");
  }

  lemma NamesDiffer()
    ensures FillId(ORDER, "first") != FillId(ORDER, "second")
  {
    hide FillId;
    if FillId(ORDER, "first") == FillId(ORDER, "second") {
      FillIdInjective(ORDER, "first", ORDER, "second");
    }
  }

  lemma DispatchFound()
    ensures DispatchTime(FilledDb(), ORDER) == Some(0)
  {
    hide FillId, Position;
    var events := FilledDb().events;
    assert events == [RECORDED, RiskEntry(RESERVED), DispatchEntry(RESERVED), ACKNOWLEDGED, FILLED];
    assert events[2].eventId == "dispatch" && events[2] in events;
  }
}
