/** Arming, halting and leasing execution: services/core/execution_authority.go and the
    lease heartbeat of services/core/paper_local_heartbeat.go.

    Times are instants; each writer reads its own clock, so `now` is any instant at
    every step.
  */
module ExecutionAuthority {
  import opened Results

  const LEASE_TTL := 30_000_000_000

  datatype Lease = Lease(owner: string, expiresAt: int)
  datatype Reason = ManualArm | ManualHalt | AutomaticHalt | LeaseAcquired

  datatype Record = Record(eventId: string, account: string, armed: bool, lease: Option<Lease>, token: int, reason: Reason,
                           policyEventId: string, recordedAt: int)

  /** ExecutionAuthorityState with the id of the record it comes from. */
  datatype Authority = Authority(armed: bool, lease: Option<Lease>, token: int, eventId: string)

  const NO_AUTHORITY: Authority := Authority(false, None, 0, "")

  /******* The validator *******/

  /** validateExecutionAuthorityRecordBasic. */
  predicate Basic(r: Record) {
    && r.eventId != "" && r.token > 0 && (!r.armed ==> r.lease.None?)
    && (r.lease.Some? ==> r.lease.value.owner != "" && r.recordedAt < r.lease.value.expiresAt)
    && (r.reason == AutomaticHalt <==> r.policyEventId != "")
  }

  /** A renewal that extends its own lease without the clock running back. */
  predicate Renews(r: Record, previous: Record)
    requires r.lease.Some? && previous.lease.Some?
  {
    && r.lease.value.owner == previous.lease.value.owner && r.recordedAt >= previous.recordedAt
    && r.lease.value.expiresAt > previous.lease.value.expiresAt
  }

  /** validateExecutionAuthorityRecord. */
  predicate Follows(r: Record, previous: Option<Record>) {
    Basic(r) && match previous
    case None => r.token == 1 && r.reason == ManualArm && r.armed && r.lease.None?
    case Some(p) =>
      r.token == p.token + 1 && match r.reason
      case ManualArm => !p.armed && r.armed && r.lease.None?
      case LeaseAcquired =>
        p.armed && r.armed && r.lease.Some?
        && (p.lease.Some? && r.recordedAt < p.lease.value.expiresAt ==> Renews(r, p))
      case _ => p.armed && !r.armed && r.lease.None?
  }

  function Last(log: seq<Record>): Option<Record> {
    if log == [] then None else Some(log[|log| - 1])
  }

  predicate Accepted(log: seq<Record>) {
    log == [] || (Accepted(log[..|log| - 1]) && Follows(log[|log| - 1], Last(log[..|log| - 1])))
  }

  function AuthorityOf(log: seq<Record>): Authority {
    if log == [] then NO_AUTHORITY
    else var r := log[|log| - 1]; Authority(r.armed, r.lease, r.token, r.eventId)
  }

  function LogOf(events: seq<Record>, account: string): (log: seq<Record>) {
    if events == [] then []
    else
      var r := events[|events| - 1];
      LogOf(events[..|events| - 1], account) + if r.account == account then [r] else []
  }

  /** loadExecutionAuthoritySnapshot: the validating loop over one account's records. */
  method LoadAuthority(events: seq<Record>, account: string) returns (a: Option<Authority>)
    ensures a == if Accepted(LogOf(events, account)) then Some(AuthorityOf(LogOf(events, account))) else None
  {
    hide Follows;
    var snapshot, previous := NO_AUTHORITY, None;
    for i := 0 to |events|
      invariant Accepted(LogOf(events[..i], account)) && previous == Last(LogOf(events[..i], account))
      invariant snapshot == AuthorityOf(LogOf(events[..i], account))
    {
      var r := events[i];
      LogGrows(events[..i], r, account);
      assert events[..i + 1] == events[..i] + [r];
      if r.account == account {
        AcceptedGrows(LogOf(events[..i], account), r);
        if !Follows(r, previous) {
          RejectedStays(events, i + 1, account);
          return None;
        }
        previous, snapshot := Some(r), Authority(r.armed, r.lease, r.token, r.eventId);
      } else {
        assert LogOf(events[..i], account) + [] == LogOf(events[..i], account);
      }
    }
    assert events[..|events|] == events;
    a := Some(snapshot);
  }

  lemma LogGrows(events: seq<Record>, r: Record, account: string)
    ensures LogOf(events + [r], account) == LogOf(events, account) + if r.account == account then [r] else []
  {
    assert (events + [r])[..|events|] == events;
  }

  lemma AcceptedGrows(log: seq<Record>, r: Record)
    ensures Accepted(log + [r]) <==> Accepted(log) && Follows(r, Last(log))
    ensures Last(log + [r]) == Some(r)
  {
    assert (log + [r])[..|log|] == log;
    hide Follows;
  }

  lemma {:induction false} RejectedStays(events: seq<Record>, n: nat, account: string)
    requires n <= |events| && !Accepted(LogOf(events[..n], account))
    ensures !Accepted(LogOf(events, account))
    decreases |events| - n
  {
    hide Follows;
    if n == |events| {
      assert events[..n] == events;
    } else {
      LogGrows(events[..n], events[n], account);
      assert events[..n + 1] == events[..n] + [events[n]];
      AcceptedGrows(LogOf(events[..n], account), events[n]);
      assert LogOf(events[..n], account) + [] == LogOf(events[..n], account);
      RejectedStays(events, n + 1, account);
    }
  }

  /******* The writers *******/

  /** INSERT: the basic check and UNIQUE(event_id), UNIQUE(account_ref, fencing_token). */
  predicate Insertable(events: seq<Record>, r: Record) {
    Basic(r) && forall e :: e in events ==> e.eventId != r.eventId && (e.account != r.account || e.token != r.token)
  }

  function Insert(events: seq<Record>, r: Record): Option<seq<Record>> {
    if Insertable(events, r) then Some(events + [r]) else None
  }

  /** The state an account's writers start from, or `None` when its log is rejected. */
  function Load(events: seq<Record>, account: string): Option<Authority> {
    if Accepted(LogOf(events, account)) then Some(AuthorityOf(LogOf(events, account))) else None
  }

  /** setSyntheticExecutionArmed. */
  function SetArmed(events: seq<Record>, account: string, armed: bool, eventId: string, now: int): Option<seq<Record>> {
    var current :- Load(events, account);
    if current.armed == armed then Some(events)
    else Insert(events, Record(eventId, account, armed, None, current.token + 1, if armed then ManualArm else ManualHalt, "", now))
  }

  function LeaseRecord(account: string, owner: string, token: int, eventId: string, now: int): Record {
    Record(eventId, account, true, Some(Lease(owner, now + LEASE_TTL)), token, LeaseAcquired, "", now)
  }

  /** acquireSyntheticExecutionLeaseTx. */
  function Acquire(events: seq<Record>, account: string, owner: string, eventId: string, now: int): Option<seq<Record>> {
    var current :- Load(events, account);
    if !current.armed then None
    else if current.lease.Some? && now < current.lease.value.expiresAt then
      if current.lease.value.owner == owner then Some(events) else None
    else Insert(events, LeaseRecord(account, owner, current.token + 1, eventId, now))
  }

  /** validateOwnedExecutionLease. */
  predicate Owned(a: Authority, owner: string, token: int, now: int) {
    a.armed && a.lease.Some? && a.lease.value.owner == owner && a.token == token && now < a.lease.value.expiresAt
  }

  /** heartbeatLocalPaperExecution, as far as this log goes. */
  function Renew(events: seq<Record>, account: string, owner: string, token: int, eventId: string, now: int): Option<seq<Record>> {
    var log := LogOf(events, account);
    if !Accepted(log) || log == [] || !Owned(AuthorityOf(log), owner, token, now) || now < log[|log| - 1].recordedAt then None
    else
      var next := LeaseRecord(account, owner, token + 1, eventId, now);
      if Follows(next, Last(log)) then Insert(events, next) else None
  }

  datatype Halt = Halt(account: string, eventId: string)

  /** haltSyntheticExecutionTx: halts every listed account in one transaction; an empty
      policy event id is a manual halt. */
  function HaltAll(events: seq<Record>, halts: seq<Halt>, policyEventId: string, now: int): Option<seq<Record>> {
    if halts == [] then Some(events)
    else
      var before :- HaltAll(events, halts[..|halts| - 1], policyEventId, now);
      HaltOne(before, halts[|halts| - 1], policyEventId, now)
  }

  function HaltOne(events: seq<Record>, halt: Halt, policyEventId: string, now: int): Option<seq<Record>> {
    var current :- Load(events, halt.account);
    if !current.armed then None
    else
      Insert(events, Record(halt.eventId, halt.account, false, None, current.token + 1,
        if policyEventId == "" then ManualHalt else AutomaticHalt, policyEventId, now))
  }

  /** The loop over captured accounts; nothing is kept when one of them fails. */
  method HaltAccounts(events: seq<Record>, halts: seq<Halt>, policyEventId: string, now: int) returns (r: Option<seq<Record>>)
    ensures r == HaltAll(events, halts, policyEventId, now)
  {
    hide HaltOne;
    var after := events;
    for i := 0 to |halts|
      invariant HaltAll(events, halts[..i], policyEventId, now) == Some(after)
    {
      assert halts[..i + 1][..i] == halts[..i];
      var next := HaltOne(after, halts[i], policyEventId, now);
      if next.None? {
        HaltStops(events, halts, i + 1, policyEventId, now);
        return None;
      }
      after := next.value;
    }
    assert halts[..|halts|] == halts;
    r := Some(after);
  }

  lemma {:induction false} HaltStops(events: seq<Record>, halts: seq<Halt>, n: nat, policyEventId: string, now: int)
    requires n <= |halts| && HaltAll(events, halts[..n], policyEventId, now).None?
    ensures HaltAll(events, halts, policyEventId, now).None?
    decreases |halts| - n
  {
    hide HaltOne;
    if n == |halts| {
      assert halts[..n] == halts;
    } else {
      assert halts[..n + 1][..n] == halts[..n];
      HaltStops(events, halts, n + 1, policyEventId, now);
    }
  }

  /******* What the validator accepts *******/

  /** In an accepted log the fencing token is the record's position. */
  lemma {:induction false} TokenIsPosition(log: seq<Record>, i: nat)
    requires Accepted(log) && i < |log|
    ensures log[i].token == i + 1
  {
    if |log| > 1 {
      TokenIsPosition(log[..|log| - 1], if i < |log| - 1 then i else i - 1);
    }
  }

  lemma {:induction false} AcceptedFollows(log: seq<Record>, i: nat)
    requires Accepted(log) && i < |log|
    ensures Follows(log[i], if i == 0 then None else Some(log[i - 1]))
    ensures Accepted(log[..i])
  {
    if i == |log| - 1 {
      assert log[..i] == log[..|log| - 1];
    } else {
      AcceptedFollows(log[..|log| - 1], i);
      assert log[..|log| - 1][..i] == log[..i];
    }
    hide Follows;
  }

  /** Record k ends the lease before it: by a halt, or for another owner once it had
      run out. */
  predicate HandsOver(log: seq<Record>, k: nat)
    requires 0 < k < |log|
  {
    !log[k].armed || (log[k - 1].lease.Some? && log[k].lease.Some? && log[k].lease.value.owner != log[k - 1].lease.value.owner
      && log[k].recordedAt >= log[k - 1].lease.value.expiresAt)
  }

  /** A different owner ever holds a later lease only across an intervening halt or an
      expiry: renewals alone never pass a lease on. */
  lemma {:induction false} Takeover(log: seq<Record>, i: nat, j: nat) returns (k: nat)
    requires Accepted(log) && i < j < |log| && log[i].lease.Some? && log[j].lease.Some?
    requires log[i].lease.value.owner != log[j].lease.value.owner
    ensures i < k <= j && HandsOver(log, k)
    decreases j - i
  {
    AcceptedFollows(log, i);
    AcceptedFollows(log, i + 1);
    if HandsOver(log, i + 1) {
      k := i + 1;
    } else {
      k := Takeover(log, i + 1, j);
    }
    hide Accepted;
  }

  /** Only the newest record's owner and token pass the ownership check. */
  lemma OwnedIsNewest(log: seq<Record>, owner: string, token: int, now: int)
    requires Accepted(log) && Owned(AuthorityOf(log), owner, token, now)
    ensures log != [] && token == |log| && log[|log| - 1].lease == Some(Lease(owner, log[|log| - 1].lease.value.expiresAt))
    ensures now < log[|log| - 1].lease.value.expiresAt
  {
    if log != [] {
      TokenIsPosition(log, |log| - 1);
    }
  }

  /** A token that has been superseded never passes again, for any owner at any time. */
  lemma FencedOut(log: seq<Record>, later: seq<Record>, token: int, owner: string, now: int)
    requires Accepted(later) && log < later && token <= |log|
    ensures !Owned(AuthorityOf(later), owner, token, now)
  {
    if Owned(AuthorityOf(later), owner, token, now) {
      OwnedIsNewest(later, owner, token, now);
    }
  }

  /******* What the writers produce *******/

  ghost predicate AllAccepted(events: seq<Record>) {
    forall account :: Accepted(LogOf(events, account))
  }

  /** The ids and (account, token) pairs stay unique. */
  ghost predicate UniqueRecords(events: seq<Record>) {
    forall i, j :: 0 <= i < j < |events| ==>
      events[i].eventId != events[j].eventId
      && (events[i].account != events[j].account || events[i].token != events[j].token)
  }

  /** A longer log the validator still accepts, its keys still unique. */
  ghost predicate Extends(events: seq<Record>, later: seq<Record>) {
    events <= later && AllAccepted(later) && UniqueRecords(later)
  }

  lemma AppendFollowing(events: seq<Record>, r: Record)
    requires AllAccepted(events) && UniqueRecords(events) && Insertable(events, r) && Follows(r, Last(LogOf(events, r.account)))
    ensures Extends(events, events + [r])
  {
    forall account
      ensures Accepted(LogOf(events + [r], account))
    {
      LogGrows(events, r, account);
      AcceptedGrows(LogOf(events, account), r);
      assert LogOf(events, account) + [] == LogOf(events, account);
    }
    hide Follows;
  }

  /** The three things a writer's record can be. */
  lemma WrittenFollows(log: seq<Record>, r: Record)
    requires Accepted(log) && Basic(r) && r.token == AuthorityOf(log).token + 1
    requires match r.reason
      case ManualArm => r.armed && r.lease.None? && !AuthorityOf(log).armed
      case LeaseAcquired =>
        var lease := AuthorityOf(log).lease;
        r.armed && r.lease.Some? && AuthorityOf(log).armed && !(lease.Some? && r.recordedAt < lease.value.expiresAt)
      case _ => !r.armed && AuthorityOf(log).armed
    ensures Follows(r, Last(log))
  {}

  /** Arm, halt, acquire and renew steps by any owner under any clock leave a log the
      validator accepts, for every account. */
  lemma ArmKeeps(events: seq<Record>, account: string, armed: bool, eventId: string, now: int)
    requires AllAccepted(events) && UniqueRecords(events)
    ensures var r := SetArmed(events, account, armed, eventId, now); r.Some? ==> Extends(events, r.value)
  {
    var log := LogOf(events, account);
    var r := SetArmed(events, account, armed, eventId, now);
    if r.Some? && r.value != events {
      var added := r.value[|events|];
      WrittenFollows(log, added);
      AppendFollowing(events, added);
    }
    hide LogOf, Follows;
  }

  lemma AcquireKeeps(events: seq<Record>, account: string, owner: string, eventId: string, now: int)
    requires AllAccepted(events) && UniqueRecords(events)
    ensures var r := Acquire(events, account, owner, eventId, now); r.Some? ==> Extends(events, r.value)
  {
    var log := LogOf(events, account);
    var r := Acquire(events, account, owner, eventId, now);
    if r.Some? && r.value != events {
      var added := r.value[|events|];
      WrittenFollows(log, added);
      AppendFollowing(events, added);
    }
    hide LogOf, Follows;
  }

  lemma RenewKeeps(events: seq<Record>, account: string, owner: string, token: int, eventId: string, now: int)
    requires AllAccepted(events) && UniqueRecords(events)
    ensures var r := Renew(events, account, owner, token, eventId, now); r.Some? ==> Extends(events, r.value)
  {
    hide LogOf, Follows, Accepted;
    var r := Renew(events, account, owner, token, eventId, now);
    if r.Some? {
      AppendFollowing(events, r.value[|events|]);
    }
  }

  lemma HaltOneKeeps(events: seq<Record>, halt: Halt, policyEventId: string, now: int)
    requires AllAccepted(events) && UniqueRecords(events)
    ensures var r := HaltOne(events, halt, policyEventId, now); r.Some? ==> Extends(events, r.value)
  {
    var r := HaltOne(events, halt, policyEventId, now);
    if r.Some? {
      var added := r.value[|events|];
      WrittenFollows(LogOf(events, halt.account), added);
      AppendFollowing(events, added);
    }
    hide LogOf, Follows;
  }

  lemma {:induction false} HaltAllKeeps(events: seq<Record>, halts: seq<Halt>, policyEventId: string, now: int)
    requires AllAccepted(events) && UniqueRecords(events)
    ensures var r := HaltAll(events, halts, policyEventId, now); r.Some? ==> Extends(events, r.value)
  {
    hide HaltOne, AllAccepted, UniqueRecords;
    if halts != [] {
      HaltAllKeeps(events, halts[..|halts| - 1], policyEventId, now);
      var before := HaltAll(events, halts[..|halts| - 1], policyEventId, now);
      if before.Some? {
        HaltOneKeeps(before.value, halts[|halts| - 1], policyEventId, now);
      }
    }
  }
}
