/** Submitting an order to the broker: submitAuthorizedLimitOrder
    (services/core/kiwoom_order_transport.go:129-166) run by any number of processes over
    one database, with crashes between any two of its steps.
  */
module SubmitProtocol {
  import opened Results
  import opened OrderStore
  import opened Dispatch
  import opened OrderInvariants
  import A = ExecutionAuthority

  /******* The writers *******/

  datatype Command =
    | Record(intent: Intent, orderId: string, eventId: string)
    | AppendEvent(entry: Entry, paperFill: bool, paperAllowed: bool)
    | Arm(account: string, armed: bool, eventId: string, now: int)
    | Acquire(account: string, owner: string, eventId: string, now: int)
    | Renew(account: string, owner: string, token: int, eventId: string, now: int)
    | Halt(halts: seq<A.Halt>, policyEventId: string, now: int)
    | AuthorizeOrder(orderId: string, token: int, caller: Caller)

  function WithAuthority(db: Db, authority: Option<seq<A.Record>>): Db {
    if authority.Some? then db.(authority := authority.value) else db
  }

  /** One transaction; a refused one leaves the database alone. */
  function Next(db: Db, c: Command): Db {
    match c
    case Record(intent, orderId, eventId) =>
      var r := RecordIntent(db, intent, orderId, eventId);
      if r.Some? then r.value else db
    case AppendEvent(e, paperFill, paperAllowed) =>
      var r := Append(db, e, paperFill, paperAllowed);
      if ValidEntry(e) && r.Some? then r.value.0 else db
    case Arm(account, armed, eventId, now) => WithAuthority(db, A.SetArmed(db.authority, account, armed, eventId, now))
    case Acquire(account, owner, eventId, now) => WithAuthority(db, A.Acquire(db.authority, account, owner, eventId, now))
    case Renew(account, owner, token, eventId, now) => WithAuthority(db, A.Renew(db.authority, account, owner, token, eventId, now))
    case Halt(halts, policyEventId, now) => WithAuthority(db, A.HaltAll(db.authority, halts, policyEventId, now))
    case AuthorizeOrder(orderId, token, caller) =>
      var r := Authorize(db, orderId, token, caller);
      if r.Some? then r.value.0 else db
  }

  const EMPTY_DB: Db := Db(map[], [], [], [])

  lemma EmptyIsGood()
    ensures Good(EMPTY_DB)
  {
    assert forall account :: A.LogOf([], account) == [];
  }

  lemma AuthorityStep(db: Db, authority: Option<seq<A.Record>>)
    requires Good(db) && (authority.Some? ==> A.Extends(db.authority, authority.value))
    ensures Good(WithAuthority(db, authority)) && WithAuthority(db, authority).reservations == db.reservations
  {
    hide Good;
    if authority.Some? {
      AuthorityKeeps(db, authority.value);
    }
  }

  /** Every writer keeps the invariant and only ever adds reservations. */
  lemma NextKeeps(db: Db, c: Command)
    requires Good(db)
    ensures Good(Next(db, c)) && db.reservations <= Next(db, c).reservations
  {
    hide Good, Base, Append, RecordIntent, Authorize, ValidEntry, A.SetArmed, A.Acquire, A.Renew, A.HaltAll, A.AllAccepted, A.UniqueRecords,
      A.Extends;
    GoodAuthority(db);
    match c {
      case Record(intent, orderId, eventId) =>
        if RecordIntent(db, intent, orderId, eventId).Some? {
          IntentKeeps(db, intent, orderId, eventId);
          IntentReservations(db, intent, orderId, eventId);
        }
      case AppendEvent(e, paperFill, paperAllowed) =>
        if ValidEntry(e) && Append(db, e, paperFill, paperAllowed).Some? {
          AppendKeeps(db, e, paperFill, paperAllowed);
          AppendEffect(db, e, paperFill, paperAllowed);
        }
      case Arm(account, armed, eventId, now) =>
        A.ArmKeeps(db.authority, account, armed, eventId, now);
        AuthorityStep(db, A.SetArmed(db.authority, account, armed, eventId, now));
      case Acquire(account, owner, eventId, now) =>
        A.AcquireKeeps(db.authority, account, owner, eventId, now);
        AuthorityStep(db, A.Acquire(db.authority, account, owner, eventId, now));
      case Renew(account, owner, token, eventId, now) =>
        A.RenewKeeps(db.authority, account, owner, token, eventId, now);
        AuthorityStep(db, A.Renew(db.authority, account, owner, token, eventId, now));
      case Halt(halts, policyEventId, now) =>
        A.HaltAllKeeps(db.authority, halts, policyEventId, now);
        AuthorityStep(db, A.HaltAll(db.authority, halts, policyEventId, now));
      case AuthorizeOrder(orderId, token, caller) =>
        if Authorize(db, orderId, token, caller).Some? {
          AuthorizeKeeps(db, orderId, token, caller);
          AuthorizeReservations(db, orderId, token, caller);
        }
    }
  }

  lemma GoodAuthority(db: Db)
    requires Good(db)
    ensures Base(db) && A.AllAccepted(db.authority) && A.UniqueRecords(db.authority)
  {}

  lemma IntentReservations(db: Db, intent: Intent, orderId: string, eventId: string)
    requires RecordIntent(db, intent, orderId, eventId).Some?
    ensures RecordIntent(db, intent, orderId, eventId).value.reservations == db.reservations
  {
    hide StateOf;
  }

  lemma AuthorizeReservations(db: Db, orderId: string, token: int, caller: Caller)
    requires Good(db) && Authorize(db, orderId, token, caller).Some?
    ensures db.reservations <= Authorize(db, orderId, token, caller).value.0.reservations
  {
    hide Good, Authorize, Reserve;
    if Authorize(db, orderId, token, caller).value.2 {
      AuthorizeDispatches(db, orderId, token, caller);
    } else {
      AuthorizeAgain(db, orderId, token, caller);
    }
  }

  function Run(db: Db, commands: seq<Command>): Db {
    if commands == [] then db else Next(Run(db, commands[..|commands| - 1]), commands[|commands| - 1])
  }

  /** Over every run: every log is accepted, every reservation proves, an account has at
      most one pending submit and never more than the limit reserved. */
  lemma {:induction false} RunsAreGood(db: Db, commands: seq<Command>)
    requires Good(db)
    ensures Good(Run(db, commands)) && db.reservations <= Run(db, commands).reservations
  {
    hide Good, Next;
    if commands != [] {
      RunsAreGood(db, commands[..|commands| - 1]);
      NextKeeps(Run(db, commands[..|commands| - 1]), commands[|commands| - 1]);
    }
  }

  /** The limits, read off the invariant: each order has at most one reservation, whose
      two events are adjacent; active reservations stay within the account's limit; the
      check that sums them never fails; at most one order waits for a submit. */
  lemma Exposure(db: Db, account: string)
    requires Good(db)
    ensures AllProven(db, account) && Taken(db, db.reservations, account) <= MAX_ACCOUNT_NOTIONAL
    ensures forall r :: r in db.reservations ==> AdjacentPair(db.events, r) && r.notional <= MAX_ORDER_NOTIONAL
    ensures forall i, j :: 0 <= i < j < |db.reservations| ==> db.reservations[i].orderId != db.reservations[j].orderId
    ensures forall o, p :: o in db.orders && p in db.orders && o != p ==> !Rivals(db, o, p)
  {
    hide Taken, StateOf, AdjacentPair, Base;
    forall r | r in db.reservations
      ensures AdjacentPair(db.events, r) && r.notional <= MAX_ORDER_NOTIONAL
    {
      ProvenPair(db, r);
    }
  }

  lemma ProvenPair(db: Db, r: Reservation)
    requires Proven(db, r)
    ensures AdjacentPair(db.events, r) && r.notional <= MAX_ORDER_NOTIONAL
  {
    hide StateOf, AdjacentPair;
  }

  /******* Processes *******/

  /** Where a process stands in submitAuthorizedLimitOrder. */
  datatype Phase = Idle | Preflighted(orderId: string, token: int) | MustSend(orderId: string) | Sent(orderId: string)

  datatype System = System(db: Db, phases: map<nat, Phase>, sends: seq<string>)

  datatype Event =
    | Start(process: nat, orderId: string, token: int)
    | Dispatch(process: nat, caller: Caller)
    | Send(process: nat)
    | Answer(process: nat, entry: Option<Entry>)
    | Crash(process: nat)
    | Write(command: Command)

  function PhaseOf(s: System, process: nat): Phase {
    if process in s.phases then s.phases[process] else Idle
  }

  function Move(s: System, process: nat, phase: Phase): System {
    s.(phases := s.phases[process := phase])
  }

  /** One step of one process, or of another writer. A step that does not apply, like a
      failed check, leaves the process idle. */
  function Step(s: System, event: Event): System {
    match event
    case Start(p, orderId, token) =>
      // load the intent, check the mode and the port, preflight the credentials
      if PhaseOf(s, p) == Idle && orderId in s.db.orders && s.db.orders[orderId].mode == Synthetic && token > 0
      then Move(s, p, Preflighted(orderId, token)) else s
    case Dispatch(p, caller) =>
      // the durable step
      if !PhaseOf(s, p).Preflighted? then s
      else
        var r := Authorize(s.db, PhaseOf(s, p).orderId, PhaseOf(s, p).token, caller);
        if r.None? then Move(s, p, Idle)
        else Move(s.(db := r.value.0), p, if r.value.2 then MustSend(PhaseOf(s, p).orderId) else Idle)
    case Send(p) =>
      // the one external call
      if !PhaseOf(s, p).MustSend? then s
      else Move(s.(sends := s.sends + [PhaseOf(s, p).orderId]), p, Sent(PhaseOf(s, p).orderId))
    case Answer(p, entry) =>
      // acknowledged, rejected, or (None) outcome unknown
      if !PhaseOf(s, p).Sent? then s
      else if entry.None? || entry.value.orderId != PhaseOf(s, p).orderId then Move(s, p, Idle)
      else Move(s.(db := Next(s.db, AppendEvent(entry.value, false, false))), p, Idle)
    case Crash(p) => Move(s, p, Idle)
    case Write(command) => s.(db := Next(s.db, command))
  }

  function Execute(s: System, events: seq<Event>): System {
    if events == [] then s else Step(Execute(s, events[..|events| - 1]), events[|events| - 1])
  }

  /******* At most once *******/

  /** A proven reservation for the order: its risk approval and its dispatch are in the
      log. */
  ghost predicate Committed(db: Db, orderId: string) {
    exists r :: r in db.reservations && r.orderId == orderId && Proven(db, r)
  }

  ghost predicate Safe(s: System) {
    && Good(s.db)
    && (forall p :: p in s.phases && s.phases[p].MustSend? ==> Committed(s.db, s.phases[p].orderId) && s.phases[p].orderId !in s.sends)
    && (forall p, q :: p in s.phases && q in s.phases && p != q && s.phases[p].MustSend? && s.phases[q].MustSend? ==>
      s.phases[p].orderId != s.phases[q].orderId)
    && (forall o :: o in s.sends ==> Committed(s.db, o))
    && (forall i, j :: 0 <= i < j < |s.sends| ==> s.sends[i] != s.sends[j])
  }

  lemma CommittedStays(db: Db, after: Db, o: string)
    requires Committed(db, o) && Good(after) && db.reservations <= after.reservations
    ensures Committed(after, o)
  {
    hide Proven, Base, Taken;
    var r :| r in db.reservations && r.orderId == o && Proven(db, r);
    assert r in after.reservations;
    assert Proven(after, r);
  }

  /** Changing the database under the processes is safe. */
  lemma WriteSafe(s: System, after: Db)
    requires Safe(s) && Good(after) && s.db.reservations <= after.reservations
    ensures Safe(s.(db := after))
  {
    hide Good, Committed;
    forall o | Committed(s.db, o)
      ensures Committed(after, o)
    {
      CommittedStays(s.db, after, o);
    }
  }

  lemma MoveSafe(s: System, p: nat, phase: Phase)
    requires Safe(s) && !phase.MustSend?
    ensures Safe(Move(s, p, phase))
  {
    hide Good, Committed;
  }

  lemma NotCommitted(db: Db, o: string)
    requires FindReservation(db.reservations, o).None?
    ensures !Committed(db, o)
  {
    hide Proven, FindReservation;
  }

  lemma NowCommitted(db: Db, r: Reservation)
    requires Good(db) && r in db.reservations
    ensures Committed(db, r.orderId)
  {
    hide Proven, Base, Taken;
    assert Proven(db, r);
  }

  /** Only the call that writes the reservation may send. */
  lemma DispatchSafe(s: System, p: nat, caller: Caller)
    requires Safe(s)
    ensures Safe(Step(s, Dispatch(p, caller)))
  {
    hide Good, Committed, Authorize, Reserve;
    if PhaseOf(s, p).Preflighted? {
      var o, token := PhaseOf(s, p).orderId, PhaseOf(s, p).token;
      var r := Authorize(s.db, o, token, caller);
      if r.Some? {
        AuthorizeKeeps(s.db, o, token, caller);
        AuthorizeReservations(s.db, o, token, caller);
        WriteSafe(s, r.value.0);
        if r.value.2 {
          AuthorizeDispatches(s.db, o, token, caller);
          NotCommitted(s.db, o);
          var made := Reserve(s.db, o, token, caller).value;
          assert made in r.value.0.reservations;
          NowCommitted(r.value.0, made);
          MustSendSafe(s, r.value.0, p, o);
        } else {
          MoveSafe(s.(db := r.value.0), p, Idle);
        }
      } else {
        MoveSafe(s, p, Idle);
      }
    }
  }

  lemma MustSendSafe(s: System, after: Db, p: nat, o: string)
    requires Safe(s) && Safe(s.(db := after)) && !Committed(s.db, o) && Committed(after, o)
    ensures Safe(Move(s.(db := after), p, MustSend(o)))
  {
    hide Good, Committed;
  }

  lemma SendSafe(s: System, p: nat)
    requires Safe(s)
    ensures Safe(Step(s, Send(p)))
  {
    hide Good, Committed;
  }

  lemma StepSafe(s: System, event: Event)
    requires Safe(s)
    ensures Safe(Step(s, event))
  {
    hide Good, Committed, Next, Authorize;
    match event {
      case Start(p, orderId, token) => MoveSafe(s, p, Preflighted(orderId, token));
      case Dispatch(p, caller) => DispatchSafe(s, p, caller);
      case Send(p) => SendSafe(s, p);
      case Answer(p, entry) =>
        if entry.Some? {
          NextKeeps(s.db, AppendEvent(entry.value, false, false));
          WriteSafe(s, Next(s.db, AppendEvent(entry.value, false, false)));
          MoveSafe(s.(db := Next(s.db, AppendEvent(entry.value, false, false))), p, Idle);
        }
        MoveSafe(s, p, Idle);
      case Crash(p) => MoveSafe(s, p, Idle);
      case Write(command) =>
        NextKeeps(s.db, command);
        WriteSafe(s, Next(s.db, command));
    }
  }

  /** For any number of processes, retries, other writers and crashes between any two
      steps: no order is sent twice, and every order sent has a committed reservation
      with its adjacent dispatch event. */
  lemma {:induction false} SentAtMostOnce(db: Db, events: seq<Event>)
    requires Good(db)
    ensures var s := Execute(System(db, map[], []), events);
      && Safe(s)
      && (forall i, j :: 0 <= i < j < |s.sends| ==> s.sends[i] != s.sends[j])
      && (forall o :: o in s.sends ==> Committed(s.db, o))
  {
    hide Good, Step, Committed;
    if events != [] {
      SentAtMostOnce(db, events[..|events| - 1]);
      StepSafe(Execute(System(db, map[], []), events[..|events| - 1]), events[|events| - 1]);
    }
  }

  /** The reservation and the dispatch are already committed when the external call is
      made, and the order has not been sent before. */
  lemma CommittedBeforeSend(db: Db, events: seq<Event>, p: nat)
    requires Good(db)
    ensures var s := Execute(System(db, map[], []), events);
      PhaseOf(s, p).MustSend? ==>
        Committed(s.db, PhaseOf(s, p).orderId) && PhaseOf(s, p).orderId !in s.sends
        && Step(s, Send(p)).sends == s.sends + [PhaseOf(s, p).orderId] && Step(s, Send(p)).db == s.db
  {
    SentAtMostOnce(db, events);
    hide Good, Committed, Execute;
  }
}
