/** What every run of the ledger's writers keeps. */
module LedgerInvariants {
  import opened Results
  import opened UtcText
  import opened LedgerTable
  import opened Fifo
  import opened FifoLaws
  import opened LedgerReplay
  import opened RowChecks
  import opened CashVoids
  import opened ImportRows
  import opened LedgerDb

  /******* The invariant *******/

  ghost predicate UniqueIds(events: seq<Row>) {
    forall i, j :: 0 <= i < j < |events| ==> events[i].tx.eventId != events[j].tx.eventId
  }

  /** A stored row but for its time: it fits, and a correction undoes an earlier row. */
  ghost predicate RowFits(before: seq<Row>, row: Row) {
    && row.tx.eventId != "" && row.receiptId != "" && CanonicalUtc(row.recordedAt)
    && Fits(row.tx) && row.tx.instrumentId == InstrumentOf(row.tx.symbol)
    && (row.tx.kind.CashVoid? ==> ValidCashVoid(before, row.tx, false))
  }

  ghost predicate TableFits(events: seq<Row>) {
    && Contiguous(events) && UniqueSources(events) && UniqueCorrections(events) && UniqueIds(events)
    && forall i :: 0 <= i < |events| ==> RowFits(events[..i], events[i])
  }

  ghost predicate PreviewOk(events: seq<Row>, p: Preview) {
    && 0 <= p.revision <= |events| && |p.ids| == |p.records|
    && p.rows == ScanAll(events[..p.revision], p.ids, p.records).rows
    && (p.canApply <==> CountRows(p.rows, Error) == 0 && CountRows(p.rows, Unresolved) == 0)
  }

  ghost predicate PreviewsOk(db: Db) {
    forall id :: id in db.previews ==> PreviewOk(db.events, db.previews[id])
  }

  ghost predicate PolicyOk(db: Db) {
    if db.policy == Legacy then db.legacyRevision == |db.events| > 0 && db.transition.None?
    else Replay(Ranked(Corrected, db.events)).Some? && ReplayStateProven(db, false)
  }

  ghost predicate Valid(db: Db) {
    && TableFits(db.events) && AllCanonical(db.events) && db.meta.revision == |db.events| && CanonicalUtc(db.meta.recordedAt)
    && PreviewsOk(db) && PolicyOk(db)
    && forall k :: k in db.receipts ==> db.receipts[k].request.key == k
  }

  /******* The ledger check passes *******/

  lemma FindExtends(events: seq<Row>, more: seq<Row>, account: string, source: string)
    requires events <= more && UniqueSources(more) && FindBySource(events, account, source).Some?
    ensures FindBySource(more, account, source) == FindBySource(events, account, source)
  {
    var found := FindBySource(events, account, source).value;
    var i :| 0 <= i < |events| && events[i] == found;
    FindUnique(more, i);
  }

  lemma VoidExtends(events: seq<Row>, more: seq<Row>, c: Transaction)
    requires events <= more && UniqueSources(more) && ValidCashVoid(events, c, false)
    ensures ValidCashVoid(more, c, false)
  {
    FindExtends(events, more, c.accountId, c.corrects);
    hide Reverses;
  }

  lemma FittingRowIsNormal(row: Row)
    requires CanonicalUtc(row.tx.occurredAt) && Fits(row.tx) && row.tx.instrumentId == InstrumentOf(row.tx.symbol)
    ensures Normalize(row.tx.eventId, row.tx) == Normalized(row.tx, [])
  {
    NormalizeAccepts(row.tx.eventId, row.tx);
    hide Normalize, Fits, InstrumentOf, ParseRfc3339, Format;
  }

  /** proveLedgerEvents accepts every table the writers leave behind. */
  lemma TableIsProven(events: seq<Row>, meta: Meta)
    requires TableFits(events) && AllCanonical(events) && |events| == meta.revision && CanonicalUtc(meta.recordedAt)
    ensures EventsProven(events, meta)
  {
    forall i | 0 <= i < |events|
      ensures ValidStored(events, events[i])
    {
      FittingRowIsNormal(events[i]);
      if events[i].tx.kind.CashVoid? {
        VoidExtends(events[..i], events, events[i].tx);
      }
    }
    hide ValidStored, Normalize, Fits, InstrumentOf, ValidCashVoid, CanonicalUtc;
  }

  /** A fitting table has the numbers of a checked one. */
  lemma TableIsChecked(events: seq<Row>)
    requires TableFits(events)
    ensures AllChecked(events) && ThreeLetters(events) && Distinct(events)
  {
    forall i | 0 <= i < |events|
      ensures Checked(events[i].tx)
    {
      FitsChecked(events[i].tx);
    }
    hide Fits, InstrumentOf, ValidCashVoid, CanonicalUtc, UniqueSources, UniqueCorrections, UniqueIds;
  }

  /******* Apply keeps the table *******/

  lemma ExtendsTable(events: seq<Row>, row: Row)
    requires TableFits(events) && row.sequence == |events| + 1 && RowFits(events, row)
    requires forall e :: e in events ==> NoClash(e.tx, row.tx)
    ensures TableFits(events + [row])
  {
    var after := events + [row];
    hide RowFits;
    forall i | 0 <= i < |after|
      ensures RowFits(after[..i], after[i])
    {
      assert after[..i] == if i < |events| then events[..i] else events;
    }
    forall i, j | 0 <= i < j < |after|
      ensures NoClash(after[i].tx, after[j].tx) || j < |events|
    {}
  }

  lemma NewRowFits(base: seq<Row>, events: seq<Row>, t: Transaction, receiptId: Id, recordedAt: string)
    requires base <= events && UniqueSources(events) && NewRowOk(base, t) && CanonicalUtc(recordedAt)
    ensures RowFits(events, Row(|events| + 1, t, receiptId, recordedAt))
  {
    if t.kind.CashVoid? {
      VoidExtends(base, events, t);
    }
    hide Fits, InstrumentOf, CanonicalUtc, UniqueSources, FindBySource, Reverses;
  }

  lemma {:induction false} InsertKeepsTable(policy: Policy, base: seq<Row>, rows: seq<PreviewRow>, receiptId: Id, recordedAt: string)
    requires TableFits(base) && CanonicalUtc(recordedAt)
    requires forall i :: 0 <= i < |rows| && rows[i].status == New ==> NewRowOk(base, rows[i].tx)
    ensures var r := InsertNew(policy, base, rows, receiptId, recordedAt); r.Some? ==> base <= r.value && TableFits(r.value)
  {
    hide NewRowOk, TableFits, RowFits, TableCheck, GuardAllows, CanonicalUtc, NoClash;
    if rows != [] {
      var n := |rows| - 1;
      InsertKeepsTable(policy, base, rows[..n], receiptId, recordedAt);
      var r := InsertNew(policy, base, rows[..n], receiptId, recordedAt);
      if r.Some? && rows[n].status == New && InsertAllowed(policy, r.value, rows[n].tx) {
        TableParts(r.value);
        NewRowFits(base, r.value, rows[n].tx, receiptId, recordedAt);
        ExtendsTable(r.value, Row(|r.value| + 1, rows[n].tx, receiptId, recordedAt));
      }
    }
  }

  lemma TableParts(events: seq<Row>)
    requires TableFits(events)
    ensures UniqueSources(events) && Contiguous(events)
  {}

  lemma TableContiguous(events: seq<Row>)
    requires TableFits(events)
    ensures Contiguous(events) && RevisionMatches(events, |events|) && Through(events, |events|) == events
  {
    ThroughIsPrefix(events, |events|);
  }

  /** The current snapshot exists exactly when the replay goes through. */
  lemma SnapshotIsReplay(db: Db)
    requires TableFits(db.events) && db.meta.revision == |db.events| && CanonicalUtc(db.meta.recordedAt) && db.policy == Corrected
    ensures CurrentSnapshot(db).Some? <==> Replay(Ranked(Corrected, db.events)).Some?
  {
    TableContiguous(db.events);
    TableIsChecked(db.events);
    RankedChecked(Corrected, db.events);
    CheckedSnapshot(Corrected, db.meta.revision, db.meta.recordedAt, Ranked(Corrected, db.events));
    hide TableFits, CanonicalUtc, Ranked, Replay, AllChecked, RowsSnapshot, Through;
  }

  lemma RankedChecked(policy: Policy, rows: seq<Row>)
    requires AllChecked(rows)
    ensures AllChecked(Ranked(policy, rows))
  {
    RankedMembers(policy, rows);
    forall i | 0 <= i < |Ranked(policy, rows)|
      ensures Checked(Ranked(policy, rows)[i].tx)
    {
      assert Ranked(policy, rows)[i] in rows;
    }
    hide Checked;
  }

  lemma RankedCanonical(policy: Policy, rows: seq<Row>)
    requires AllCanonical(Ranked(policy, rows))
    ensures AllCanonical(rows)
  {
    RankedMembers(policy, rows);
    forall i | 0 <= i < |rows|
      ensures CanonicalUtc(rows[i].tx.occurredAt)
    {
      assert rows[i] in Ranked(policy, rows);
    }
    hide CanonicalUtc;
  }

  /** A replay that goes through has met only canonical times. */
  lemma ReplayedCanonical(policy: Policy, events: seq<Row>)
    requires TableFits(events) && Replay(Ranked(policy, events)).Some?
    ensures AllCanonical(events)
  {
    TableIsChecked(events);
    RankedChecked(policy, events);
    ReplaySound(Ranked(policy, events));
    RankedCanonical(policy, events);
    hide *;
  }

  /******* The transition proof stays valid *******/

  lemma ReplayAtStable(events: seq<Row>, later: seq<Row>, meta: Meta, laterMeta: Meta, revision: nat, recordedAt: string)
    requires events <= later && TableFits(events) && TableFits(later)
    requires revision <= |events| && meta.revision == |events| && laterMeta.revision == |later|
    ensures ReplayAt(later, laterMeta, revision, recordedAt) == ReplayAt(events, meta, revision, recordedAt)
  {
    hide *;
    var more := later[|events|..];
    assert later == events + more;
    TableParts(events);
    TableParts(later);
    CutoffIsStable(Legacy, events, more, meta, laterMeta, revision);
    CutoffIsStable(Corrected, events, more, meta, laterMeta, revision);
    ThroughOfAppended(events, more, revision);
    SameReplayAt(events, later, meta, laterMeta, revision, recordedAt);
  }

  lemma SameReplayAt(events: seq<Row>, later: seq<Row>, meta: Meta, laterMeta: Meta, revision: nat, recordedAt: string)
    requires SnapshotOf(Legacy, events, meta, revision) == SnapshotOf(Legacy, later, laterMeta, revision)
    requires SnapshotOf(Corrected, events, meta, revision) == SnapshotOf(Corrected, later, laterMeta, revision)
    requires Through(events, revision) == Through(later, revision)
    ensures ReplayAt(later, laterMeta, revision, recordedAt) == ReplayAt(events, meta, revision, recordedAt)
  {
    hide SnapshotOf, Through, CanonicalUtc, RevisionMatches;
  }

  /** Appending events never breaks the proof of the replay state: a replay through the
      frozen revision sees only the frozen events. */
  lemma ProofSurvivesAppend(db: Db, later: Db)
    requires ReplayStateProven(db, false) && db.policy == Corrected
    requires later.policy == db.policy && later.legacyRevision == db.legacyRevision && later.transition == db.transition
    requires db.events <= later.events && TableFits(db.events) && TableFits(later.events)
    requires db.meta.revision == |db.events| && later.meta.revision == |later.events|
    ensures ReplayStateProven(later, false)
  {
    hide TableFits, TransitionProven, RevisionMatches, Through;
    TableContiguous(later.events);
    if db.legacyRevision > 0 {
      TransitionSurvives(db, later, db.transition.value);
    }
  }

  lemma TransitionSurvives(db: Db, later: Db, t: Transition)
    requires db.events <= later.events && TableFits(db.events) && TableFits(later.events)
    requires db.meta.revision == |db.events| && later.meta.revision == |later.events| && 0 <= db.legacyRevision <= |db.events|
    requires TransitionProven(db.events, db.meta, db.legacyRevision, t)
    ensures TransitionProven(later.events, later.meta, db.legacyRevision, t)
  {
    hide TableFits, ReplayAt, CanonicalUtc, StampLess;
    ReplayAtStable(db.events, later.events, db.meta, later.meta, db.legacyRevision, t.recordedAt);
  }

  /******* Every writer keeps the invariant *******/

  lemma PreviewsSurvive(db: Db, later: Db)
    requires PreviewsOk(db) && later.previews == db.previews && db.events <= later.events
    ensures PreviewsOk(later)
  {
    forall id | id in later.previews
      ensures PreviewOk(later.events, later.previews[id])
    {
      PreviewSurvives(db.events, later.events, db.previews[id]);
    }
    hide PreviewOk;
  }

  lemma PreviewSurvives(events: seq<Row>, later: seq<Row>, p: Preview)
    requires PreviewOk(events, p) && events <= later
    ensures PreviewOk(later, p)
  {
    hide ScanAll, CountRows;
    assert later[..p.revision] == events[..p.revision];
  }

  lemma OnlyPreviews(db: Db, after: Db)
    requires Valid(db) && after == db.(previews := after.previews) && PreviewsOk(after)
    ensures Valid(after)
  {
    hide TableFits, AllCanonical, CanonicalUtc, PreviewsOk, TransitionProven, Replay, Ranked, RevisionMatches;
  }

  lemma PreviewKeeps(db: Db, id: string, ids: seq<Id>, records: seq<Transaction>, expiresAt: int)
    requires Valid(db) && |ids| == |records|
    ensures Valid(PreviewStep(db, id, ids, records, expiresAt).0)
  {
    hide Valid, PreviewsOk, PreviewOk, StoredVoidsOk, ScanAll, CountRows;
    ValidRevision(db);
    var after := PreviewStep(db, id, ids, records, expiresAt).0;
    NewPreviewOk(db.events, db.meta.revision, PreviewOf(db, ids, records, expiresAt));
    PreviewsGrow(db, after, id, PreviewOf(db, ids, records, expiresAt));
    OnlyPreviews(db, after);
  }

  lemma NewPreviewOk(events: seq<Row>, revision: int, p: Preview)
    requires |p.ids| == |p.records| && revision == |events| == p.revision
    requires p.rows == ScanAll(events, p.ids, p.records).rows
    requires p.canApply <==> CountRows(p.rows, Error) == 0 && CountRows(p.rows, Unresolved) == 0
    ensures PreviewOk(events, p)
  {
    hide ScanAll, CountRows;
    assert events[..p.revision] == events;
  }

  lemma PreviewsGrow(db: Db, after: Db, id: string, p: Preview)
    requires PreviewsOk(db) && PreviewOk(db.events, p) && after.events == db.events
    requires after.previews == db.previews || after.previews == db.previews[id := p]
    ensures PreviewsOk(after)
  {
    hide PreviewOk;
  }

  /** The rows of a preview taken at the current revision fit the current table. */
  lemma PreviewFits(events: seq<Row>, p: Preview)
    requires PreviewOk(events, p) && p.revision == |events|
    ensures NewRowsOk(events, p.rows)
  {
    assert events[..p.revision] == events;
    ScanOk(events, p.ids, p.records);
    hide NewRowsOk, ScanAll, CountRows;
  }

  /** What an apply that commits has done. */
  lemma ApplyCommits(db: Db, request: Request, receiptId: Id, receivedAt: int, recorded: Clock)
    requires Valid(db) && request.key !in db.receipts && ApplyStep(db, request, receiptId, receivedAt, recorded).1.Ok?
    ensures var (after, r) := ApplyStep(db, request, receiptId, receivedAt, recorded);
      && Committed(db, request, receiptId, receivedAt, recorded, after)
      && db.events <= after.events && TableFits(after.events)
      && r.value.request == request && r.value.before == |db.events| && r.value.after == |after.events|
      && after == Stamped(db, after.events, Format(recorded)).(receipts := db.receipts[request.key := r.value])
  {
    hide Valid, ApplyStep, TableFits, Committed, Format, Stamped;
    CommitShape(db, request, receiptId, receivedAt, recorded);
    ValidRevision(db);
    var after := ApplyStep(db, request, receiptId, receivedAt, recorded).0;
    CommittedTable(db, request, receiptId, receivedAt, recorded, after);
  }

  lemma CommittedTable(db: Db, request: Request, receiptId: Id, receivedAt: int, recorded: Clock, after: Db)
    requires Committed(db, request, receiptId, receivedAt, recorded, after)
    requires db.meta.revision == |db.events| && TableFits(db.events) && PreviewsOk(db)
    ensures db.events <= after.events && TableFits(after.events)
  {
    hide TableFits, PreviewsOk, Format, InsertNew, CurrentSnapshot, CanonicalUtc, Stamped;
    SnapshotClock(db, after.events, Format(recorded));
    CommitTable(db, request, receiptId, recorded, after);
  }

  /** The current snapshot refuses a time whose text is not canonical. */
  lemma SnapshotClock(db: Db, events: seq<Row>, recordedAt: string)
    requires CurrentSnapshot(Stamped(db, events, recordedAt)).Some?
    ensures CanonicalUtc(recordedAt)
  {
    hide CanonicalUtc, RowsSnapshot, Ranked, Through;
    var after := Stamped(db, events, recordedAt);
    SnapshotNeeds(Corrected, after.meta.revision, recordedAt, Ranked(Corrected, Through(events, after.meta.revision)));
  }

  lemma ValidRevision(db: Db)
    requires Valid(db)
    ensures db.meta.revision == |db.events| && TableFits(db.events) && PreviewsOk(db)
  {}

  /** The tests a committing apply has passed. */
  ghost predicate Committed(db: Db, request: Request, receiptId: Id, receivedAt: int, recorded: Clock, after: Db) {
    && db.policy == Corrected && Refusal(db, request, receivedAt).None? && request.previewId in db.previews
    && InsertNew(Corrected, db.events, db.previews[request.previewId].rows, receiptId, Format(recorded)) == Some(after.events)
    && CurrentSnapshot(Stamped(db, after.events, Format(recorded))).Some?
  }

  lemma CommitShape(db: Db, request: Request, receiptId: Id, receivedAt: int, recorded: Clock)
    requires request.key !in db.receipts && ApplyStep(db, request, receiptId, receivedAt, recorded).1.Ok?
    ensures var (after, r) := ApplyStep(db, request, receiptId, receivedAt, recorded);
      && Committed(db, request, receiptId, receivedAt, recorded, after)
      && |db.events| <= |after.events|
      && r.value == ReceiptFor(db, request, after.events, receiptId, receivedAt, Format(recorded))
      && after == Stamped(db, after.events, Format(recorded)).(receipts := db.receipts[request.key := r.value])
  {
    InsertAppends(db.policy, db.events, db.previews[request.previewId].rows, receiptId, Format(recorded));
    SnapshotNeedsPolicy(db);
    hide InsertNew, Format, CountRows, SnapshotOf, RevisionMatches;
  }

  lemma SnapshotNeedsPolicy(db: Db)
    ensures CurrentSnapshot(db).Some? ==> db.policy == Corrected
  {
    hide SnapshotOf, RevisionMatches;
  }

  lemma CommitTable(db: Db, request: Request, receiptId: Id, recorded: Clock, after: Db)
    requires TableFits(db.events) && PreviewsOk(db) && request.previewId in db.previews && CanonicalUtc(Format(recorded))
    requires db.meta.revision == |db.events| == db.previews[request.previewId].revision
    requires InsertNew(Corrected, db.events, db.previews[request.previewId].rows, receiptId, Format(recorded)) == Some(after.events)
    ensures db.events <= after.events && TableFits(after.events)
  {
    hide TableFits, CanonicalUtc, InsertNew, NewRowOk, Format, PreviewOk;
    PreviewFits(db.events, db.previews[request.previewId]);
    InsertKeepsTable(Corrected, db.events, db.previews[request.previewId].rows, receiptId, Format(recorded));
  }

  /** apply keeps the invariant, whatever it answers. */
  lemma ApplyKeeps(db: Db, request: Request, receiptId: Id, receivedAt: int, recorded: Clock)
    requires Valid(db)
    ensures Valid(ApplyStep(db, request, receiptId, receivedAt, recorded).0)
  {
    var (after, r) := ApplyStep(db, request, receiptId, receivedAt, recorded);
    if request.key !in db.receipts && r.Ok? {
      ApplyCommits(db, request, receiptId, receivedAt, recorded);
      CommitKeeps(db, request, receiptId, receivedAt, recorded, after, r.value);
    } else {
      FailedApply(db, request, receiptId, receivedAt, recorded);
    }
    hide Valid, ApplyStep, Committed, TableFits;
  }

  /** An apply that fails, or repeats an earlier one, writes nothing. */
  lemma FailedApply(db: Db, request: Request, receiptId: Id, receivedAt: int, recorded: Clock)
    requires request.key in db.receipts || ApplyStep(db, request, receiptId, receivedAt, recorded).1.Err?
    ensures ApplyStep(db, request, receiptId, receivedAt, recorded).0 == db
  {
    hide InsertNew, Format, CountRows, CurrentSnapshot, Refusal, ReceiptFor, Stamped;
  }

  lemma CommitKeeps(db: Db, request: Request, receiptId: Id, receivedAt: int, recorded: Clock, after: Db, receipt: Receipt)
    requires Valid(db) && Committed(db, request, receiptId, receivedAt, recorded, after)
    requires db.events <= after.events && TableFits(after.events) && receipt.request == request
    requires after == Stamped(db, after.events, Format(recorded)).(receipts := db.receipts[request.key := receipt])
    ensures Valid(after)
  {
    hide TableFits, AllCanonical, CanonicalUtc, PreviewsOk, ReplayStateProven, Replay, Ranked, CurrentSnapshot, InsertNew, Refusal, Format;
    SnapshotClock(db, after.events, Format(recorded));
    ValidRevision(db);
    SnapshotIsReplay(Stamped(db, after.events, Format(recorded)));
    ReplayedCanonical(Corrected, after.events);
    PreviewsSurvive(db, after);
    ProofSurvivesAppend(db, after);
    ReceiptKeys(db, request.key, receipt);
  }

  lemma ReceiptKeys(db: Db, key: string, receipt: Receipt)
    requires Valid(db) && receipt.request.key == key
    ensures var receipts := db.receipts[key := receipt]; forall k :: k in receipts ==> receipts[k].request.key == k
  {
    hide TableFits, AllCanonical, CanonicalUtc, PreviewsOk, PolicyOk;
  }

  /** Switching policy keeps the invariant. */
  lemma ActivateKeeps(db: Db, revision: int, events: seq<Row>, corrected: Snapshot, now: Clock)
    requires Valid(db)
    ensures Valid(ActivateStep(db, revision, events, corrected, now).0)
  {
    var after := ActivateStep(db, revision, events, corrected, now).0;
    if after != db {
      ActivationReplays(db, revision, events, corrected, now);
      SameTable(db, after);
    }
    hide Valid, ActivateStep, TableFits, Replay, Ranked;
  }

  lemma SameTable(db: Db, after: Db)
    requires Valid(db) && after.policy == Corrected && after == db.(policy := after.policy, transition := after.transition)
    requires Replay(Ranked(Corrected, db.events)).Some? && ReplayStateProven(after, false)
    ensures Valid(after)
  {
    hide TableFits, AllCanonical, CanonicalUtc, PreviewOk, ReplayStateProven, Replay, Ranked;
  }

  lemma ActivationReplays(db: Db, revision: int, events: seq<Row>, corrected: Snapshot, now: Clock)
    requires Valid(db) && ActivateStep(db, revision, events, corrected, now).0 != db
    ensures var after := ActivateStep(db, revision, events, corrected, now).0;
      && db.policy == Legacy && after.policy == Corrected && after.transition.Some?
      && after == db.(policy := after.policy, transition := after.transition)
      && Replay(Ranked(Corrected, db.events)).Some? && ReplayStateProven(after, false)
  {
    ActivationShape(db, revision, events, corrected, now);
    ReplayAtReplays(db);
    hide Valid, ActivateStep, TableFits, Replay, Ranked, ReplayStateProven, ReplayAt;
  }

  lemma ActivationShape(db: Db, revision: int, events: seq<Row>, corrected: Snapshot, now: Clock)
    requires ActivateStep(db, revision, events, corrected, now).0 != db
    ensures var after := ActivateStep(db, revision, events, corrected, now).0;
      && db.policy == Legacy && after.policy == Corrected && after.transition.Some? && Prepared(db).Some?
      && after == db.(policy := after.policy, transition := after.transition)
      && ReplayStateProven(after, false)
      && ReplayAt(db.events, db.meta, db.meta.revision, db.meta.recordedAt).Some?
  {
    hide ReplayStateProven, ReplayAt, Format, StampLess, EventsProven;
  }

  lemma ReplayAtReplays(db: Db)
    requires Valid(db) && ReplayAt(db.events, db.meta, db.meta.revision, db.meta.recordedAt).Some?
    ensures Replay(Ranked(Corrected, db.events)).Some?
  {
    ValidRevision(db);
    TableContiguous(db.events);
    assert SnapshotOf(Corrected, db.events, db.meta, db.meta.revision).Some?;
    hide Valid, TableFits, Replay, Ranked, Through, RevisionMatches, CanonicalUtc, Renderable, RecordedAt;
  }

  /** Any interleaving of previews, applies and activations keeps the invariant. */
  lemma {:induction false} RunsAreValid(db: Db, commands: seq<Command>)
    requires Valid(db) && forall c :: c in commands ==> Sensible(c)
    ensures Valid(Run(db, commands))
  {
    hide Valid, PreviewStep, ApplyStep, ActivateStep;
    if commands != [] {
      var before, c := Run(db, commands[..|commands| - 1]), commands[|commands| - 1];
      assert c in commands;
      RunsAreValid(db, commands[..|commands| - 1]);
      match c {
        case DoPreview(id, ids, records, expiresAt) => PreviewKeeps(before, id, ids, records, expiresAt);
        case DoApply(request, receiptId, receivedAt, recorded) => ApplyKeeps(before, request, receiptId, receivedAt, recorded);
        case DoActivate(revision, events, corrected, now) => ActivateKeeps(before, revision, events, corrected, now);
      }
    }
  }
}
