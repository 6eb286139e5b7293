/** The ledger database and its writers, each one atomic step of a serialised store:
    preview and apply (services/core/core.go:1214-1712) and the one-way replay-policy
    switch (services/core/ledger_replay_policy.go).

    Digests and fingerprints are the values they are taken of; clocks and generated
    identifiers are arguments.
  */
module LedgerDb {
  import opened Results
  import opened UtcText
  import opened LedgerTable
  import opened LedgerReplay
  import opened RowChecks
  import opened CashVoids
  import opened ImportRows

  /** A clock reading the store writes down. */
  type Clock = s: Stamp | ValidStamp(s) witness Stamp(1970, 1, 1, 0, 0, 0, 0)

  datatype Preview = Preview(revision: int, ids: seq<Id>, records: seq<Transaction>, rows: seq<PreviewRow>,
                             canApply: bool, expiresAt: int)

  datatype Request = Request(previewId: string, key: string)

  datatype Receipt = Receipt(receiptId: string, request: Request, before: int, after: int, applied: nat, skipped: nat,
                             receivedAt: int, recordedAt: string)

  datatype Transition = Transition(revision: int, recordedAt: string, events: seq<Row>, legacy: Snapshot,
                                   corrected: Snapshot, activatedAt: string)

  datatype Db = Db(events: seq<Row>, meta: Meta, previews: map<string, Preview>, receipts: map<string, Receipt>,
                   policy: Policy, legacyRevision: int, transition: Option<Transition>)

  /******* Preview *******/

  function CountRows(rows: seq<PreviewRow>, status: Status): nat {
    if rows == [] then 0
    else CountRows(rows[..|rows| - 1], status) + if rows[|rows| - 1].status == status then 1 else 0
  }

  function PreviewOf(db: Db, ids: seq<Id>, records: seq<Transaction>, expiresAt: int): Preview
    requires |ids| == |records|
  {
    var rows := ScanAll(db.events, ids, records).rows;
    Preview(db.meta.revision, ids, records, rows, CountRows(rows, Error) == 0 && CountRows(rows, Unresolved) == 0, expiresAt)
  }

  /** preview: classifies the file against the current ledger and stores the result. */
  function PreviewStep(db: Db, previewId: string, ids: seq<Id>, records: seq<Transaction>, expiresAt: int): (Db, Result<Preview>)
    requires |ids| == |records|
  {
    var p := PreviewOf(db, ids, records, expiresAt);
    if |records| > MAX_IMPORT_ROWS then (db, Err("too_many_rows"))
    else if !StoredVoidsOk(db.events, ids, records) then (db, Err("stored cash void failed validation"))
    else if previewId in db.previews then (db, Err("UNIQUE constraint failed: previews.preview_id"))
    else (db.(previews := db.previews[previewId := p]), Ok(p))
  }

  /******* Apply *******/

  /** The three UNIQUE constraints; an absent `corrects` is NULL and clashes with nothing. */
  predicate NoClash(stored: Transaction, t: Transaction) {
    && stored.eventId != t.eventId && SourceKey(stored) != SourceKey(t)
    && (t.corrects != "" ==> TargetKey(stored) != TargetKey(t))
  }

  /** The constraints and triggers an INSERT INTO events meets. */
  predicate InsertAllowed(policy: Policy, events: seq<Row>, t: Transaction) {
    && policy == Corrected
    && (forall e :: e in events ==> NoClash(e.tx, t))
    && TableCheck(t)
    && (t.kind.CashVoid? ==> GuardAllows(events, t))
  }

  /** The new rows of a preview appended one by one; `None` when one is refused. */
  function InsertNew(policy: Policy, events: seq<Row>, rows: seq<PreviewRow>, receiptId: Id, recordedAt: string): Option<seq<Row>> {
    if rows == [] then Some(events)
    else
      var soFar :- InsertNew(policy, events, rows[..|rows| - 1], receiptId, recordedAt);
      var row := rows[|rows| - 1];
      if row.status != New then Some(soFar)
      else if !InsertAllowed(policy, soFar, row.tx) then None
      else Some(soFar + [Row(|soFar| + 1, row.tx, receiptId, recordedAt)])
  }

  /** requireLedgerRevision: sequences 1..revision and nothing else. */
  predicate RevisionMatches(events: seq<Row>, revision: int) {
    |events| == revision && (events != [] ==> events[0].sequence == 1 && events[|events| - 1].sequence == revision)
  }

  /** snapshotFrom: the current replay, refused under the legacy policy. */
  ghost function CurrentSnapshot(db: Db): Option<Snapshot> {
    if db.policy != Corrected || !RevisionMatches(db.events, db.meta.revision) then None
    else SnapshotOf(Corrected, db.events, db.meta, -1)
  }

  function Stamped(db: Db, events: seq<Row>, recordedAt: string): Db {
    db.(events := events, meta := Meta(db.meta.revision + |events| - |db.events|, recordedAt))
  }

  function ReceiptFor(db: Db, request: Request, events: seq<Row>, receiptId: Id, receivedAt: int, recordedAt: string): Receipt
    requires request.previewId in db.previews && |events| >= |db.events|
  {
    Receipt(receiptId, request, db.meta.revision, db.meta.revision + |events| - |db.events|, |events| - |db.events|,
      CountRows(db.previews[request.previewId].rows, Duplicate), receivedAt, recordedAt)
  }

  /** The requests apply turns down before it writes anything. */
  function Refusal(db: Db, request: Request, receivedAt: int): Option<string> {
    if request.previewId !in db.previews then Some("preview_not_found")
    else
      var p := db.previews[request.previewId];
      if receivedAt >= p.expiresAt then Some("stale_preview")
      else if !p.canApply then Some("preview_has_errors")
      else if db.meta.revision != p.revision then Some("stale_preview")
      else None
  }

  /** apply. */
  ghost function ApplyStep(db: Db, request: Request, receiptId: Id, receivedAt: int, recorded: Clock): (Db, Result<Receipt>) {
    var recordedAt := Format(recorded);
    if request.previewId == "" || request.key == "" then (db, Err("required"))
    else if request.key in db.receipts then
      (db, if db.receipts[request.key].request == request then Ok(db.receipts[request.key]) else Err("idempotency_conflict"))
    else if Refusal(db, request, receivedAt).Some? then (db, Err(Refusal(db, request, receivedAt).value))
    else
      match InsertNew(db.policy, db.events, db.previews[request.previewId].rows, receiptId, recordedAt)
      case None => (db, Err("internal"))
      case Some(events) =>
        InsertAppends(db.policy, db.events, db.previews[request.previewId].rows, receiptId, recordedAt);
        var after, receipt := Stamped(db, events, recordedAt), ReceiptFor(db, request, events, receiptId, receivedAt, recordedAt);
        if CurrentSnapshot(after).None? then (db, Err("invalid_ledger"))
        else if exists k :: k in db.receipts && db.receipts[k].receiptId == receiptId then (db, Err("internal"))
        else (after.(receipts := db.receipts[request.key := receipt]), Ok(receipt))
  }

  lemma {:induction false} InsertAppends(policy: Policy, events: seq<Row>, rows: seq<PreviewRow>, receiptId: Id, recordedAt: string)
    ensures var r := InsertNew(policy, events, rows, receiptId, recordedAt);
      r.Some? ==> |events| <= |r.value| && r.value[..|events|] == events
  {
    if rows != [] {
      InsertAppends(policy, events, rows[..|rows| - 1], receiptId, recordedAt);
    }
    hide InsertAllowed;
  }

  /******* The replay-policy switch *******/

  datatype ReplayPreview = ReplayPreview(revision: int, events: seq<Row>, legacy: Snapshot, corrected: Snapshot)

  /** ledgerReplayAt: both replays through a revision, shown with the captured
      recorded_at. */
  ghost function ReplayAt(events: seq<Row>, meta: Meta, revision: int, recordedAt: string): Option<ReplayPreview> {
    var legacy :- SnapshotOf(Legacy, events, meta, revision);
    var corrected :- SnapshotOf(Corrected, events, meta, revision);
    if !CanonicalUtc(recordedAt) || !RevisionMatches(Through(events, revision), revision) then None
    else Some(ReplayPreview(revision, Through(events, revision), legacy.(recordedAt := recordedAt), corrected.(recordedAt := recordedAt)))
  }

  /** A transition row says what a replay of the frozen prefix says now. */
  ghost predicate TransitionProven(events: seq<Row>, meta: Meta, legacyRevision: int, t: Transition) {
    var preview := ReplayAt(events, meta, legacyRevision, t.recordedAt);
    && t.revision == legacyRevision && CanonicalUtc(t.recordedAt) && CanonicalUtc(t.activatedAt)
    && !StampLess(StampOf(t.activatedAt), StampOf(t.recordedAt))
    && preview.Some? && preview.value.events == t.events && preview.value.legacy == t.legacy && preview.value.corrected == t.corrected
  }

  /** proveLedgerReplayState succeeds. */
  ghost predicate ReplayStateProven(db: Db, archival: bool) {
    && 0 <= db.legacyRevision <= db.meta.revision && RevisionMatches(db.events, db.meta.revision)
    && if db.policy == Legacy then
         archival && db.legacyRevision != 0 && db.meta.revision == db.legacyRevision && db.transition.None?
       else if db.legacyRevision == 0 then db.transition.None?
       else db.transition.Some? && TransitionProven(db.events, db.meta, db.legacyRevision, db.transition.value)
  }

  /******* Checking stored events *******/

  /** validateStoredLedgerEvent: the row is what normalize makes of it. */
  predicate ValidStored(events: seq<Row>, row: Row) {
    && row.tx.eventId != "" && row.receiptId != "" && CanonicalUtc(row.recordedAt)
    && Normalize(row.tx.eventId, row.tx) == Normalized(row.tx, [])
    && (row.tx.kind.CashVoid? ==> ValidCashVoid(events, row.tx, false))
  }

  predicate EventsProven(events: seq<Row>, meta: Meta) {
    CanonicalUtc(meta.recordedAt) && Contiguous(events) && |events| == meta.revision
    && forall i :: 0 <= i < |events| ==> ValidStored(events, events[i])
  }

  /** proveLedgerEvents: the loop that reads the rows in sequence order. */
  method ProveLedgerEvents(events: seq<Row>, meta: Meta) returns (r: Result<(int, string)>)
    ensures r.Ok? <==> EventsProven(events, meta)
    ensures r.Ok? ==> r.value == (meta.revision, if events == [] then ZERO_TIME else events[|events| - 1].recordedAt)
  {
    hide ValidStored, CanonicalUtc;
    if !CanonicalUtc(meta.recordedAt) {
      return Err("ledger recorded_at is not canonical UTC");
    }
    var stored: seq<Row> := [];
    for i := 0 to |events|
      invariant stored == events[..i] && Contiguous(stored)
    {
      if events[i].sequence != |stored| + 1 {
        return Err("ledger event sequence is not contiguous");
      }
      stored := stored + [events[i]];
    }
    assert stored == events;
    if |stored| != meta.revision || (|stored| > 0 && stored[|stored| - 1].sequence != meta.revision) {
      return Err("ledger revision does not match append-only events");
    }
    for i := 0 to |stored|
      invariant forall j :: 0 <= j < i ==> ValidStored(events, events[j])
    {
      if !ValidStored(stored, stored[i]) {
        return Err("stored ledger event is not canonical");
      }
    }
    r := Ok((meta.revision, if |stored| == 0 then ZERO_TIME else stored[|stored| - 1].recordedAt));
  }

  /** prepareLedgerReplay. */
  ghost function Prepared(db: Db): Option<ReplayPreview> {
    if ReplayStateProven(db, true) && db.policy == Legacy && db.legacyRevision > 0 && EventsProven(db.events, db.meta)
       && db.meta.revision == db.legacyRevision
    then ReplayAt(db.events, db.meta, db.meta.revision, db.meta.recordedAt) else None
  }

  /** activateLedgerReplay, given the preview the caller approved. */
  ghost function ActivateStep(db: Db, revision: int, events: seq<Row>, corrected: Snapshot, now: Clock): (Db, Result<ReplayPreview>) {
    match Prepared(db)
    case None => (db, Err("ledger does not require a legacy replay transition"))
    case Some(p) =>
      if revision <= 0 || p.revision != revision || p.events != events || p.corrected != corrected then
        (db, Err("ledger replay preview changed; review a new preview before activation"))
      else if StampLess(now, StampOf(db.meta.recordedAt)) then (db, Err("ledger replay activation precedes the captured ledger"))
      else
        var t := Transition(p.revision, db.meta.recordedAt, p.events, p.legacy, p.corrected, Format(now));
        var after := db.(policy := Corrected, transition := Some(t));
        if ReplayStateProven(after, false) then (after, Ok(p)) else (db, Err("ledger replay transition proof mismatch"))
  }

  /******* Runs *******/

  datatype Command =
    | DoPreview(previewId: string, ids: seq<Id>, records: seq<Transaction>, expiresAt: int)
    | DoApply(request: Request, receiptId: Id, receivedAt: int, recorded: Clock)
    | DoActivate(revision: int, events: seq<Row>, corrected: Snapshot, now: Clock)

  ghost predicate Sensible(c: Command) {
    c.DoPreview? ==> |c.ids| == |c.records|
  }

  /** One writer's transaction. */
  ghost function Next(db: Db, c: Command): Db
    requires Sensible(c)
  {
    match c
    case DoPreview(id, ids, records, expiresAt) => PreviewStep(db, id, ids, records, expiresAt).0
    case DoApply(request, receiptId, receivedAt, recorded) => ApplyStep(db, request, receiptId, receivedAt, recorded).0
    case DoActivate(revision, events, corrected, now) => ActivateStep(db, revision, events, corrected, now).0
  }

  /** Any interleaving of writers. */
  ghost function Run(db: Db, commands: seq<Command>): Db
    requires forall c :: c in commands ==> Sensible(c)
  {
    if commands == [] then db else Next(Run(db, commands[..|commands| - 1]), commands[|commands| - 1])
  }
}
