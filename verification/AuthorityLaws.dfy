/** What every writer of the authority log answers, told from the account's records
    (services/core/execution_authority.go, services/core/paper_local_heartbeat.go).
  */
module AuthorityLaws {
  import opened Results
  import opened ExecutionAuthority

  /******* Accepted logs *******/

  /** A lease is there exactly on a lease record, and runs past the record. */
  predicate LeaseFits(r: Record) {
    && (r.lease.Some? <==> r.reason.LeaseAcquired?)
    && (r.lease.Some? ==> r.lease.value.owner != "" && r.lease.value.expiresAt > r.recordedAt)
  }

  /** A record on its own: armed by an arming or a lease, disarmed by a halt. */
  predicate Stands(r: Record) {
    && r.eventId != "" && LeaseFits(r)
    && (r.armed <==> r.reason.ManualArm? || r.reason.LeaseAcquired?)
    && (r.policyEventId != "" <==> r.reason.AutomaticHalt?)
  }

  /** A record after another: arming only what is halted, leasing or halting only what is
      armed, and replacing a lease still running only by a longer one of its owner. */
  predicate Succeeds(r: Record, p: Record) {
    && (r.reason.ManualArm? <==> !p.armed)
    && (r.lease.Some? && p.lease.Some? && r.recordedAt < p.lease.value.expiresAt ==> LongerLease(r, p))
  }

  predicate LongerLease(r: Record, p: Record)
    requires r.lease.Some? && p.lease.Some?
  {
    && r.lease.value.owner == p.lease.value.owner && r.lease.value.expiresAt > p.lease.value.expiresAt
    && r.recordedAt >= p.recordedAt
  }

  /** The records of a log: numbered from one, the first an arming. */
  predicate WellFormed(log: seq<Record>) {
    && (forall i :: 0 <= i < |log| ==> log[i].token == i + 1 && Stands(log[i]))
    && (log != [] ==> log[0].reason.ManualArm?)
    && (forall i :: 0 < i < |log| ==> Succeeds(log[i], log[i - 1]))
  }

  lemma FollowsIs(r: Record, p: Record)
    ensures Follows(r, Some(p)) <==> r.token > 0 && r.token == p.token + 1 && Stands(r) && Succeeds(r, p)
  {}

  lemma FirstIs(r: Record)
    ensures Follows(r, None) <==> r.token == 1 && Stands(r) && r.reason.ManualArm?
  {}

  /** The validating loop accepts exactly the well-formed logs. */
  lemma {:induction false} AcceptedExactly(log: seq<Record>)
    ensures Accepted(log) <==> WellFormed(log)
  {
    hide Follows, Stands, Succeeds;
    if log != [] {
      var n := |log| - 1;
      AcceptedExactly(log[..n]);
      if n == 0 {
        FirstIs(log[0]);
        assert log[..0] == [];
      } else {
        FollowsIs(log[n], log[n - 1]);
        PrefixForms(log);
      }
    }
  }

  lemma PrefixForms(log: seq<Record>)
    requires |log| > 1
    ensures var n := |log| - 1;
      WellFormed(log) <==>
        && WellFormed(log[..n]) && log[n].token == log[n - 1].token + 1 && log[n].token > 0
        && Stands(log[n]) && Succeeds(log[n], log[n - 1])
  {
    hide Stands, Succeeds;
  }

  /******* The writers *******/

  /** Thirty seconds. */
  function Granted(owner: string, now: int): Lease {
    Lease(owner, now + 30_000_000_000)
  }

  predicate NewId(events: seq<Record>, eventId: string) {
    eventId != "" && forall e :: e in events ==> e.eventId != eventId
  }

  predicate ArmedNow(log: seq<Record>) {
    log != [] && log[|log| - 1].armed
  }

  /** The last record's lease has not run out. */
  predicate LeasedNow(log: seq<Record>, now: int) {
    log != [] && log[|log| - 1].lease.Some? && now < log[|log| - 1].lease.value.expiresAt
  }

  lemma {:induction false} InLog(events: seq<Record>, e: Record)
    ensures e in LogOf(events, e.account) <==> e in events
  {
    if events != [] {
      InLog(events[..|events| - 1], e);
    }
  }

  lemma LoadIs(events: seq<Record>, account: string)
    ensures var log, a := LogOf(events, account), Load(events, account);
      && (a.Some? <==> WellFormed(log))
      && (a.Some? ==>
        && a.value.token == |log| && (a.value.armed <==> ArmedNow(log))
        && (log != [] ==> a.value.lease == log[|log| - 1].lease) && (log == [] ==> a.value.lease.None?))
  {
    AcceptedExactly(LogOf(events, account));
    hide Accepted, LogOf, Stands, Succeeds;
  }

  /** Whatever stands after the last record of a sound log, its token is unused. */
  lemma TokenUnused(events: seq<Record>, account: string)
    requires WellFormed(LogOf(events, account))
    ensures forall e :: e in events && e.account == account ==> e.token != |LogOf(events, account)| + 1
  {
    hide LogOf, Stands, Succeeds;
    forall e | e in events && e.account == account
      ensures e.token != |LogOf(events, account)| + 1
    {
      InLog(events, e);
    }
  }

  lemma InsertIs(events: seq<Record>, r: Record)
    requires WellFormed(LogOf(events, r.account)) && r.token == |LogOf(events, r.account)| + 1
    ensures Insert(events, r) == if Basic(r) && NewId(events, r.eventId) then Some(events + [r]) else None
  {
    TokenUnused(events, r.account);
    hide LogOf, WellFormed;
  }

  /** Arming or halting by hand: nothing to do when it is so already, otherwise one record,
      unless the event id was used. */
  lemma ArmExactly(events: seq<Record>, account: string, armed: bool, eventId: string, now: int)
    ensures var log, r := LogOf(events, account), SetArmed(events, account, armed, eventId, now);
      && (!WellFormed(log) ==> r.None?)
      && (WellFormed(log) && ArmedNow(log) == armed ==> r == Some(events))
      && (WellFormed(log) && ArmedNow(log) != armed ==>
        r == if NewId(events, eventId)
             then Some(events + [Record(eventId, account, armed, None, |log| + 1, if armed then ManualArm else ManualHalt, "", now)])
             else None)
  {
    hide LogOf, WellFormed, Load;
    LoadIs(events, account);
    if WellFormed(LogOf(events, account)) {
      var reason := if armed then ManualArm else ManualHalt;
      InsertIs(events, Record(eventId, account, armed, None, |LogOf(events, account)| + 1, reason, "", now));
    }
    hide Insert;
  }

  /** Taking a lease: refused while halted or while another owner's lease runs, granted as
      it stands to the owner who has it, and otherwise, at expiry or later, granted anew
      for thirty seconds. */
  lemma AcquireExactly(events: seq<Record>, account: string, owner: string, eventId: string, now: int)
    ensures var log, r := LogOf(events, account), Acquire(events, account, owner, eventId, now);
      && (!WellFormed(log) || !ArmedNow(log) ==> r.None?)
      && (WellFormed(log) && ArmedNow(log) && LeasedNow(log, now) ==>
        r == if log[|log| - 1].lease.value.owner == owner then Some(events) else None)
      && (WellFormed(log) && ArmedNow(log) && !LeasedNow(log, now) ==>
        r == if owner != "" && NewId(events, eventId)
             then Some(events + [Record(eventId, account, true, Some(Granted(owner, now)), |log| + 1, LeaseAcquired, "", now)])
             else None)
  {
    hide LogOf, WellFormed, Load;
    LoadIs(events, account);
    if WellFormed(LogOf(events, account)) {
      InsertIs(events, Record(eventId, account, true, Some(Granted(owner, now)), |LogOf(events, account)| + 1, LeaseAcquired, "", now));
    }
    hide Insert;
  }

  /** A heartbeat: the owner of the newest record extends its running lease, under a clock
      that has not run back, to a later end. */
  predicate MayRenew(log: seq<Record>, owner: string, token: int, now: int) {
    && LeasedNow(log, now) && log[|log| - 1].lease.value.owner == owner && token == |log|
    && log[|log| - 1].recordedAt <= now && log[|log| - 1].lease.value.expiresAt < now + 30_000_000_000
  }

  lemma RenewExactly(events: seq<Record>, account: string, owner: string, token: int, eventId: string, now: int)
    ensures var log := LogOf(events, account);
      Renew(events, account, owner, token, eventId, now) ==
        if WellFormed(log) && MayRenew(log, owner, token, now) && NewId(events, eventId)
        then Some(events + [Record(eventId, account, true, Some(Granted(owner, now)), token + 1, LeaseAcquired, "", now)])
        else None
  {
    hide LogOf, Insert;
    var log, next := LogOf(events, account), Record(eventId, account, true, Some(Granted(owner, now)), token + 1, LeaseAcquired, "", now);
    AcceptedExactly(log);
    if WellFormed(log) && log != [] && token == |log| {
      InsertIs(events, next);
      FollowsIs(next, log[|log| - 1]);
    }
    hide Accepted, Follows;
  }

  /** The record that halts an account. */
  function HaltRecord(halt: Halt, token: int, policyEventId: string, now: int): Record {
    Record(halt.eventId, halt.account, false, None, token, if policyEventId == "" then ManualHalt else AutomaticHalt, policyEventId, now)
  }

  lemma HaltExactly(events: seq<Record>, halt: Halt, policyEventId: string, now: int)
    ensures var log := LogOf(events, halt.account);
      HaltOne(events, halt, policyEventId, now) ==
        if WellFormed(log) && ArmedNow(log) && NewId(events, halt.eventId)
        then Some(events + [HaltRecord(halt, |log| + 1, policyEventId, now)])
        else None
  {
    hide LogOf, WellFormed, Load;
    LoadIs(events, halt.account);
    if WellFormed(LogOf(events, halt.account)) {
      InsertIs(events, HaltRecord(halt, |LogOf(events, halt.account)| + 1, policyEventId, now));
    }
    hide Insert;
  }

  /** One record for each account listed. */
  function HaltRecords(events: seq<Record>, halts: seq<Halt>, policyEventId: string, now: int): (r: seq<Record>)
    ensures |r| == |halts|
    ensures forall i :: 0 <= i < |r| ==> r[i] == HaltRecord(halts[i], |LogOf(events, halts[i].account)| + 1, policyEventId, now)
  {
    seq(|halts|, i requires 0 <= i < |halts| => HaltRecord(halts[i], |LogOf(events, halts[i].account)| + 1, policyEventId, now))
  }

  /** Every account listed is armed and listed once, every event id is new. */
  predicate Haltable(events: seq<Record>, halts: seq<Halt>) {
    && (forall i :: 0 <= i < |halts| ==> HaltableAccount(events, halts[i]))
    && (forall i, j :: 0 <= i < j < |halts| ==> halts[i].account != halts[j].account && halts[i].eventId != halts[j].eventId)
  }

  predicate HaltableAccount(events: seq<Record>, halt: Halt) {
    WellFormed(LogOf(events, halt.account)) && ArmedNow(LogOf(events, halt.account)) && NewId(events, halt.eventId)
  }

  /** After the halts an account's log is what it was, or ends disarmed. */
  lemma {:induction false} HaltedLog(events: seq<Record>, halts: seq<Halt>, policyEventId: string, now: int, account: string)
    ensures var log := LogOf(events + HaltRecords(events, halts, policyEventId, now), account);
      && ((forall i :: 0 <= i < |halts| ==> halts[i].account != account) ==> log == LogOf(events, account))
      && ((exists i :: 0 <= i < |halts| && halts[i].account == account) ==> !ArmedNow(log))
  {
    hide LogOf;
    var all := HaltRecords(events, halts, policyEventId, now);
    if halts == [] {
      assert events + all == events;
    } else {
      var n := |halts| - 1;
      HaltedLog(events, halts[..n], policyEventId, now, account);
      var before := events + HaltRecords(events, halts[..n], policyEventId, now);
      assert events + all == before + [all[n]];
      LogGrows(before, all[n], account);
      assert forall i :: 0 <= i < n ==> halts[..n][i] == halts[i];
    }
  }

  lemma NewIds(events: seq<Record>, halts: seq<Halt>, policyEventId: string, now: int, eventId: string)
    ensures NewId(events + HaltRecords(events, halts, policyEventId, now), eventId) <==>
      NewId(events, eventId) && forall i :: 0 <= i < |halts| ==> halts[i].eventId != eventId
  {
    hide LogOf;
    var halted := HaltRecords(events, halts, policyEventId, now);
    forall i | 0 <= i < |halts|
      ensures halted[i] in events + halted
    {
      assert (events + halted)[|events| + i] == halted[i];
    }
  }

  lemma HaltableStep(events: seq<Record>, halts: seq<Halt>)
    requires halts != []
    ensures var n := |halts| - 1;
      Haltable(events, halts) <==> Haltable(events, halts[..n]) && HaltableAccount(events, halts[n]) && Unlisted(halts[..n], halts[n])
  {
    hide HaltableAccount;
    var n := |halts| - 1;
    assert forall i :: 0 <= i < n ==> halts[..n][i] == halts[i];
  }

  predicate Unlisted(halts: seq<Halt>, halt: Halt) {
    forall i :: 0 <= i < |halts| ==> halts[i].account != halt.account && halts[i].eventId != halt.eventId
  }

  /** One halt more after the others. */
  lemma HaltNext(events: seq<Record>, halts: seq<Halt>, halt: Halt, policyEventId: string, now: int)
    ensures var before := events + HaltRecords(events, halts, policyEventId, now);
      HaltOne(before, halt, policyEventId, now) ==
        if HaltableAccount(events, halt) && Unlisted(halts, halt)
        then Some(before + [HaltRecord(halt, |LogOf(events, halt.account)| + 1, policyEventId, now)])
        else None
  {
    hide LogOf, HaltOne, WellFormed, NewId, ArmedNow, HaltRecord;
    HaltExactly(events + HaltRecords(events, halts, policyEventId, now), halt, policyEventId, now);
    HaltedLog(events, halts, policyEventId, now, halt.account);
    NewIds(events, halts, policyEventId, now, halt.eventId);
  }

  /** Halting a list of accounts: all of them, with one record each, or none. */
  lemma {:induction false} HaltAllExactly(events: seq<Record>, halts: seq<Halt>, policyEventId: string, now: int)
    ensures HaltAll(events, halts, policyEventId, now) ==
      if Haltable(events, halts) then Some(events + HaltRecords(events, halts, policyEventId, now)) else None
  {
    hide HaltOne, HaltRecord, Haltable, HaltableAccount, Unlisted, LogOf;
    if halts == [] {
      NothingHalted(events, policyEventId, now);
    } else {
      var n := |halts| - 1;
      HaltAllExactly(events, halts[..n], policyEventId, now);
      HaltableStep(events, halts);
      HaltNext(events, halts[..n], halts[n], policyEventId, now);
      MoreRecords(events, halts, policyEventId, now);
    }
  }

  lemma NothingHalted(events: seq<Record>, policyEventId: string, now: int)
    ensures Haltable(events, []) && events + HaltRecords(events, [], policyEventId, now) == events
  {}

  lemma MoreRecords(events: seq<Record>, halts: seq<Halt>, policyEventId: string, now: int)
    requires halts != []
    ensures var n := |halts| - 1;
      events + HaltRecords(events, halts, policyEventId, now) ==
        (events + HaltRecords(events, halts[..n], policyEventId, now))
        + [HaltRecord(halts[n], |LogOf(events, halts[n].account)| + 1, policyEventId, now)]
  {
    hide LogOf, HaltRecord;
    var n := |halts| - 1;
    assert HaltRecords(events, halts, policyEventId, now) ==
      HaltRecords(events, halts[..n], policyEventId, now)
      + [HaltRecord(halts[n], |LogOf(events, halts[n].account)| + 1, policyEventId, now)];
  }
}
