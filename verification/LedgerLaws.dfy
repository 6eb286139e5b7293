/** Whole-run laws of the ledger: receipts, the frozen legacy policy, when an apply
    succeeds, and what cash corrections add up to.
  */
module LedgerLaws {
  import opened Results
  import opened DecimalText
  import opened UtcText
  import opened LedgerTable
  import opened Sums
  import opened Fifo
  import opened FifoLaws
  import opened LedgerReplay
  import opened RowChecks
  import opened CashVoids
  import opened ImportRows
  import opened LedgerDb
  import opened LedgerInvariants

  /******* Every committed ledger is sound *******/

  /** In every state the writers can reach the event check passes, the revision is the
      number of events, and under the corrected policy the ledger replays, never
      overselling. */
  lemma CommittedLedger(db: Db)
    requires Valid(db)
    ensures EventsProven(db.events, db.meta) && RevisionMatches(db.events, db.meta.revision)
    ensures UniqueSources(db.events) && UniqueCorrections(db.events)
    ensures db.policy == Corrected ==> CurrentSnapshot(db).Some?
  {
    TableIsProven(db.events, db.meta);
    TableContiguous(db.events);
    if db.policy == Corrected {
      SnapshotIsReplay(db);
    }
    hide Replay, Ranked, Through, ValidStored, AllCanonical, RowFits, CanonicalUtc, CurrentSnapshot, ReplayStateProven, PreviewOk;
  }

  /** The laws of the replay, read off any state the writers can reach: every balance is
      a finite decimal and every open lot sound, and per currency cash plus open cost
      minus realised PnL is the sum of the non-trade cash flows. */
  lemma CommittedMoney(db: Db, c: string)
    requires Valid(db) && db.policy == Corrected
    ensures Replay(Ranked(Corrected, db.events)).Some?
    ensures var book := Replay(Ranked(Corrected, db.events)).value;
      SoundBook(book) && Get(book.cash, c) + OpenCost(book, c) - Get(book.realized, c) == Sum(db.events, NonTrade(c))
  {
    hide Replay, Ranked, AllChecked, OpenCost, Sum, SoundBook, TableFits, AllCanonical, PreviewsOk, ReplayStateProven, CanonicalUtc;
    TableIsChecked(db.events);
    RankedChecked(Corrected, db.events);
    ReplaySound(Ranked(Corrected, db.events));
    Conservation(Ranked(Corrected, db.events), c);
    SumRanked(Corrected, db.events, NonTrade(c));
  }

  /******* One step forward *******/

  /** What any step may change: events are appended, receipts added, the policy switched
      once to corrected, and the transition written once. */
  ghost predicate Forward(db: Db, later: Db) {
    && db.events <= later.events && db.legacyRevision == later.legacyRevision
    && (forall k :: k in db.receipts ==> k in later.receipts && later.receipts[k] == db.receipts[k])
    && (forall id :: id in db.previews ==> id in later.previews && later.previews[id] == db.previews[id])
    && (db.policy == Corrected ==> later.policy == Corrected && later.transition == db.transition)
    && (later.policy == Legacy ==> SameLedger(db, later))
  }

  ghost predicate SameLedger(db: Db, later: Db) {
    later.events == db.events && later.meta == db.meta && later.receipts == db.receipts && later.transition == db.transition
  }

  lemma ForwardTransitive(a: Db, b: Db, c: Db)
    requires Forward(a, b) && Forward(b, c)
    ensures Forward(a, c)
  {}

  lemma ForwardApply(db: Db, request: Request, receiptId: Id, receivedAt: int, recorded: Clock)
    requires Valid(db)
    ensures Forward(db, ApplyStep(db, request, receiptId, receivedAt, recorded).0)
  {
    hide Valid, ApplyStep, Committed, TableFits, Format;
    var (after, r) := ApplyStep(db, request, receiptId, receivedAt, recorded);
    if request.key !in db.receipts && r.Ok? {
      ApplyCommits(db, request, receiptId, receivedAt, recorded);
      CommittedPolicy(db, request, receiptId, receivedAt, recorded, after);
    } else {
      FailedApply(db, request, receiptId, receivedAt, recorded);
    }
  }

  lemma CommittedPolicy(db: Db, request: Request, receiptId: Id, receivedAt: int, recorded: Clock, after: Db)
    requires Committed(db, request, receiptId, receivedAt, recorded, after)
    ensures db.policy == Corrected
  {}

  lemma ForwardActivate(db: Db, revision: int, events: seq<Row>, corrected: Snapshot, now: Clock)
    requires Valid(db)
    ensures Forward(db, ActivateStep(db, revision, events, corrected, now).0)
  {
    hide Valid, ActivateStep, Replay, Ranked, ReplayStateProven;
    if ActivateStep(db, revision, events, corrected, now).0 != db {
      ActivationReplays(db, revision, events, corrected, now);
    }
  }

  lemma ForwardPreview(db: Db, id: string, ids: seq<Id>, records: seq<Transaction>, expiresAt: int)
    requires |ids| == |records|
    ensures Forward(db, PreviewStep(db, id, ids, records, expiresAt).0)
  {
    hide PreviewOf, StoredVoidsOk;
  }

  lemma {:induction false} RunsGoForward(db: Db, commands: seq<Command>)
    requires Valid(db) && forall c :: c in commands ==> Sensible(c)
    ensures Forward(db, Run(db, commands))
  {
    hide Valid, PreviewStep, ApplyStep, ActivateStep, Forward;
    if commands == [] {
      ForwardSelf(db);
    } else {
      var front := commands[..|commands| - 1];
      var before, c := Run(db, front), commands[|commands| - 1];
      assert c in commands;
      RunsGoForward(db, front);
      RunsAreValid(db, front);
      match c {
        case DoPreview(id, ids, records, expiresAt) => ForwardPreview(before, id, ids, records, expiresAt);
        case DoApply(request, receiptId, receivedAt, recorded) => ForwardApply(before, request, receiptId, receivedAt, recorded);
        case DoActivate(revision, events, corrected, now) => ForwardActivate(before, revision, events, corrected, now);
      }
      ForwardTransitive(db, before, Run(db, commands));
    }
  }

  lemma ForwardSelf(db: Db)
    ensures Forward(db, db)
  {}

  /******* Retried requests *******/

  /** Once a request has been answered with a receipt, repeating it at any later time,
      with any clock and any new identifier, returns that same receipt and changes
      nothing; the key with another preview is refused. */
  lemma RetriesAreStable(db: Db, request: Request, receiptId: Id, receivedAt: int, recorded: Clock, commands: seq<Command>,
                         other: Request, newId: Id, newReceived: int, newRecorded: Clock)
    requires Valid(db) && forall c :: c in commands ==> Sensible(c)
    requires ApplyStep(db, request, receiptId, receivedAt, recorded).1.Ok?
    requires other.key == request.key && other.previewId != ""
    ensures var (after, r) := ApplyStep(db, request, receiptId, receivedAt, recorded);
      var later := Run(after, commands);
      ApplyStep(later, other, newId, newReceived, newRecorded) ==
        (later, if other == request then r else Err("idempotency_conflict"))
  {
    hide Valid, Committed, Run, TableFits;
    var (after, r) := ApplyStep(db, request, receiptId, receivedAt, recorded);
    ApplyKeeps(db, request, receiptId, receivedAt, recorded);
    RunsGoForward(after, commands);
    AnswerIsStored(db, request, receiptId, receivedAt, recorded);
    StoredAnswer(Run(after, commands), other, newId, newReceived, newRecorded);
    hide ApplyStep;
  }

  lemma AnswerIsStored(db: Db, request: Request, receiptId: Id, receivedAt: int, recorded: Clock)
    requires Valid(db) && ApplyStep(db, request, receiptId, receivedAt, recorded).1.Ok?
    ensures var (after, r) := ApplyStep(db, request, receiptId, receivedAt, recorded);
      && request.key != "" && request.key in after.receipts && after.receipts[request.key] == r.value && r.value.request == request
  {
    hide Valid, Committed, TableFits, InsertNew, Format, CurrentSnapshot, Refusal, Stamped, ReceiptFor;
    if request.key !in db.receipts {
      ApplyCommits(db, request, receiptId, receivedAt, recorded);
    }
  }

  lemma StoredAnswer(db: Db, request: Request, receiptId: Id, receivedAt: int, recorded: Clock)
    requires request.key in db.receipts && request.key != "" && request.previewId != ""
    ensures ApplyStep(db, request, receiptId, receivedAt, recorded) ==
      (db, if db.receipts[request.key].request == request then Ok(db.receipts[request.key]) else Err("idempotency_conflict"))
  {
    hide InsertNew, Format, CurrentSnapshot, Refusal, Stamped, ReceiptFor;
  }

  /******* The policy switch *******/

  /** While the legacy policy is in force nothing commits: no apply succeeds and the
      revision stays at the legacy revision. */
  lemma LegacyIsFrozen(db: Db, commands: seq<Command>, request: Request, receiptId: Id, receivedAt: int, recorded: Clock)
    requires Valid(db) && (forall c :: c in commands ==> Sensible(c)) && Run(db, commands).policy == Legacy
    ensures var later := Run(db, commands);
      && later.events == db.events && later.meta == db.meta && later.meta.revision == later.legacyRevision == db.legacyRevision
      && (request.key !in later.receipts ==> ApplyStep(later, request, receiptId, receivedAt, recorded).1.Err?)
  {
    hide Valid, ApplyStep, Run, TableFits, Committed, InsertNew;
    RunsGoForward(db, commands);
    RunsAreValid(db, commands);
    LegacyRevision(Run(db, commands));
    var later := Run(db, commands);
    if request.key !in later.receipts && ApplyStep(later, request, receiptId, receivedAt, recorded).1.Ok? {
      CommitShape(later, request, receiptId, receivedAt, recorded);
      CommittedPolicy(later, request, receiptId, receivedAt, recorded, ApplyStep(later, request, receiptId, receivedAt, recorded).0);
    }
  }

  lemma LegacyRevision(db: Db)
    requires Valid(db) && db.policy == Legacy
    ensures db.meta.revision == db.legacyRevision
  {
    hide TableFits, AllCanonical, CanonicalUtc, PreviewsOk;
  }

  /** After the one activation the stored transition is never rewritten and still
      proves, whatever is imported later. */
  lemma TransitionStaysProven(db: Db, commands: seq<Command>)
    requires Valid(db) && db.policy == Corrected && forall c :: c in commands ==> Sensible(c)
    ensures var later := Run(db, commands);
      && later.policy == Corrected && later.transition == db.transition
      && ReplayStateProven(later, false)
      && (later.transition.Some? ==>
        TransitionProven(later.events, later.meta, later.legacyRevision, later.transition.value)
        && ReplayAt(later.events, later.meta, later.legacyRevision, later.transition.value.recordedAt)
           == ReplayAt(db.events, db.meta, db.legacyRevision, db.transition.value.recordedAt))
  {
    hide Valid, Run, TransitionProven, TableFits, ReplayAt, RevisionMatches, ReplayStateProven;
    RunsGoForward(db, commands);
    RunsAreValid(db, commands);
    CorrectedProof(db);
    CorrectedProof(Run(db, commands));
    var later := Run(db, commands);
    if db.transition.Some? {
      ReplayAtStable(db.events, later.events, db.meta, later.meta, db.legacyRevision, db.transition.value.recordedAt);
    }
  }

  lemma CorrectedProof(db: Db)
    requires Valid(db) && db.policy == Corrected
    ensures ReplayStateProven(db, false) && TableFits(db.events) && db.meta.revision == |db.events|
    ensures db.transition.Some? <==> db.legacyRevision != 0
    ensures db.transition.Some? ==> 0 < db.legacyRevision <= |db.events|
    ensures db.transition.Some? ==> TransitionProven(db.events, db.meta, db.legacyRevision, db.transition.value)
  {
    hide TableFits, AllCanonical, CanonicalUtc, PreviewsOk, Replay, Ranked, TransitionProven, RevisionMatches;
  }

  /******* When an apply succeeds *******/

  /** Generated event ids are new and distinct. */
  ghost predicate IdsFresh(events: seq<Row>, rows: seq<PreviewRow>) {
    && (forall e, i :: e in events && 0 <= i < |rows| && rows[i].status == New ==> e.tx.eventId != rows[i].tx.eventId)
    && (forall i, j :: 0 <= i < j < |rows| && rows[i].status == New && rows[j].status == New ==>
      rows[i].tx.eventId != rows[j].tx.eventId)
  }

  ghost predicate NewCanonical(rows: seq<PreviewRow>) {
    forall i :: 0 <= i < |rows| && rows[i].status == New ==> CanonicalUtc(rows[i].tx.occurredAt)
  }

  /** Where the rows of an extended table come from. */
  lemma {:induction false} InsertMembers(policy: Policy, base: seq<Row>, rows: seq<PreviewRow>, receiptId: Id, recordedAt: string)
    requires InsertNew(policy, base, rows, receiptId, recordedAt).Some?
    ensures var after := InsertNew(policy, base, rows, receiptId, recordedAt).value;
      && base <= after
      && (forall e :: e in after ==> e in base || exists i :: 0 <= i < |rows| && rows[i].status == New && rows[i].tx == e.tx)
      && (forall i :: 0 <= i < |rows| && rows[i].status == New ==> exists e :: e in after && e.tx == rows[i].tx)
  {
    hide InsertAllowed;
    if rows != [] {
      var n := |rows| - 1;
      InsertMembers(policy, base, rows[..n], receiptId, recordedAt);
      var before := InsertNew(policy, base, rows[..n], receiptId, recordedAt).value;
      var after := InsertNew(policy, base, rows, receiptId, recordedAt).value;
      forall e | e in before
        ensures e in base || exists i :: 0 <= i < |rows| && rows[i].status == New && rows[i].tx == e.tx
      {
        if e !in base {
          var i :| 0 <= i < n && rows[..n][i].status == New && rows[..n][i].tx == e.tx;
          assert rows[i].tx == e.tx;
        }
      }
      if rows[n].status == New {
        assert after == before + [after[|before|]] && after[|before|].tx == rows[n].tx;
      }
      forall i | 0 <= i < |rows| && rows[i].status == New
        ensures exists e :: e in after && e.tx == rows[i].tx
      {
        if i < n {
          assert rows[..n][i] == rows[i];
          var e :| e in before && e.tx == rows[i].tx;
          assert e in after;
        } else {
          assert after[|before|] in after;
        }
      }
    }
  }

  /** A new row never clashes with the rows before it in the file. */
  lemma NewRowsNoClash(base: seq<Row>, rows: seq<PreviewRow>, i: nat, j: nat)
    requires NewRowsOk(base, rows) && IdsFresh(base, rows) && i < j < |rows| && rows[i].status == New && rows[j].status == New
    ensures NoClash(rows[i].tx, rows[j].tx)
  {
    hide FindBySource, ValidCashVoid, KindFits, ParseDecimal, InstrumentOf;
    assert NewRowOk(base, rows[i].tx) && NewRowOk(base, rows[j].tx);
    if rows[j].tx.corrects != "" {
      assert ClaimsTarget(rows[j]);
      if rows[i].tx.corrects != "" {
        assert ClaimsTarget(rows[i]);
      }
    }
  }

  lemma StoredNoClash(base: seq<Row>, e: Row, t: Transaction)
    requires e in base && NewRowOk(base, t) && e.tx.eventId != t.eventId
    ensures NoClash(e.tx, t)
  {
    hide FindBySource, Reverses, KindFits, ParseDecimal, InstrumentOf;
    if t.corrects != "" {
      assert ValidCashVoid(base, t, true);
    }
  }

  lemma GuardPasses(base: seq<Row>, events: seq<Row>, t: Transaction)
    requires base <= events && TableFits(events) && AllCanonical(events) && NewRowOk(base, t) && CanonicalUtc(t.occurredAt)
    requires t.kind.CashVoid?
    ensures GuardAllows(events, t)
  {
    TableAmounts(events);
    TableParts(events);
    VoidExtends(base, events, t);
    VoidAmount(t);
    hide TableFits, FindBySource, Reverses, CanonicalUtc, Fits, InstrumentOf, ParseDecimal;
    GuardAgrees(events, t);
  }

  lemma VoidAmount(t: Transaction)
    requires Fits(t) && t.kind.CashVoid?
    ensures ParseDecimal(t.amount).Some? && t.amount != "0"
  {
    FitsKind(t);
    AmountTexts(t.amount);
    hide Fits, ParseDecimal, AmountIs;
  }

  lemma TableAmounts(events: seq<Row>)
    requires TableFits(events) && AllCanonical(events)
    ensures forall e :: e in events ==> CanonicalUtc(e.tx.occurredAt) && ParseDecimal(e.tx.amount).Some?
  {
    forall e | e in events
      ensures CanonicalUtc(e.tx.occurredAt) && ParseDecimal(e.tx.amount).Some?
    {
      var i :| 0 <= i < |events| && events[i] == e;
      assert RowFits(events[..i], events[i]);
    }
    hide CanonicalUtc, ParseDecimal, KindFits, InstrumentOf, ValidCashVoid;
  }

  lemma NewRowAllowed(base: seq<Row>, rows: seq<PreviewRow>, n: nat, events: seq<Row>)
    requires NewRowsOk(base, rows) && IdsFresh(base, rows) && NewCanonical(rows) && n < |rows| && rows[n].status == New
    requires base <= events && TableFits(events) && AllCanonical(events)
    requires forall e :: e in events ==> e in base || exists i :: 0 <= i < n && rows[i].status == New && rows[i].tx == e.tx
    ensures InsertAllowed(Corrected, events, rows[n].tx)
  {
    hide TableFits, AllCanonical, TableCheck, GuardAllows, NewRowOk, CanonicalUtc, NoClash;
    assert NewRowOk(base, rows[n].tx);
    forall e | e in events
      ensures NoClash(e.tx, rows[n].tx)
    {
      if e in base {
        StoredNoClash(base, e, rows[n].tx);
      } else {
        var i :| 0 <= i < n && rows[i].status == New && rows[i].tx == e.tx;
        NewRowsNoClash(base, rows, i, n);
      }
    }
    NewRowTable(base, rows[n].tx);
    if rows[n].tx.kind.CashVoid? {
      GuardPasses(base, events, rows[n].tx);
    }
  }

  lemma NewRowTable(base: seq<Row>, t: Transaction)
    requires NewRowOk(base, t)
    ensures TableCheck(t)
  {
    FitsTable(t);
    hide TableCheck, Fits, InstrumentOf;
  }

  /** No constraint or trigger ever refuses the rows of a preview that is still
      current. */
  lemma {:induction false} FreshRowsInsert(base: seq<Row>, rows: seq<PreviewRow>, receiptId: Id, recordedAt: string)
    requires TableFits(base) && AllCanonical(base) && CanonicalUtc(recordedAt)
    requires NewRowsOk(base, rows) && IdsFresh(base, rows) && NewCanonical(rows)
    ensures var r := InsertNew(Corrected, base, rows, receiptId, recordedAt);
      r.Some? && base <= r.value && TableFits(r.value) && AllCanonical(r.value)
  {
    hide *;
    if rows == [] {
      NothingInserted(Corrected, base, receiptId, recordedAt);
    } else {
      var n := |rows| - 1;
      FewerRows(base, rows, n);
      FreshRowsInsert(base, rows[..n], receiptId, recordedAt);
      OneMoreRow(base, rows, receiptId, recordedAt);
    }
  }

  lemma OneMoreRow(base: seq<Row>, rows: seq<PreviewRow>, receiptId: Id, recordedAt: string)
    requires TableFits(base) && CanonicalUtc(recordedAt) && rows != []
    requires NewRowsOk(base, rows) && IdsFresh(base, rows) && NewCanonical(rows)
    requires var r := InsertNew(Corrected, base, rows[..|rows| - 1], receiptId, recordedAt);
      r.Some? && base <= r.value && TableFits(r.value) && AllCanonical(r.value)
    ensures var r := InsertNew(Corrected, base, rows, receiptId, recordedAt);
      r.Some? && base <= r.value && TableFits(r.value) && AllCanonical(r.value)
  {
    hide *;
    var n := |rows| - 1;
    var before := InsertNew(Corrected, base, rows[..n], receiptId, recordedAt).value;
    NewRowsParts(base, rows);
    CanonicalPart(rows, n);
    if rows[n].status == New {
      EarlierMembers(Corrected, base, rows, n, receiptId, recordedAt);
      NewRowAllowed(base, rows, n, before);
    }
    InsertLast(Corrected, base, rows, receiptId, recordedAt);
    InsertKeepsTable(Corrected, base, rows, receiptId, recordedAt);
    LastCanonical(before, InsertNew(Corrected, base, rows, receiptId, recordedAt).value, rows[n]);
  }

  lemma CanonicalPart(rows: seq<PreviewRow>, n: nat)
    requires NewCanonical(rows) && n < |rows|
    ensures rows[n].status == New ==> CanonicalUtc(rows[n].tx.occurredAt)
  {
    hide CanonicalUtc;
  }

  lemma EarlierMembers(policy: Policy, base: seq<Row>, rows: seq<PreviewRow>, n: nat, receiptId: Id, recordedAt: string)
    requires n <= |rows| && InsertNew(policy, base, rows[..n], receiptId, recordedAt).Some?
    ensures forall e :: e in InsertNew(policy, base, rows[..n], receiptId, recordedAt).value ==>
      e in base || exists i :: 0 <= i < n && rows[i].status == New && rows[i].tx == e.tx
  {
    hide InsertNew;
    InsertMembers(policy, base, rows[..n], receiptId, recordedAt);
    forall e | e in InsertNew(policy, base, rows[..n], receiptId, recordedAt).value
      ensures e in base || exists i :: 0 <= i < n && rows[i].status == New && rows[i].tx == e.tx
    {
      if e !in base {
        var i :| 0 <= i < n && rows[..n][i].status == New && rows[..n][i].tx == e.tx;
        assert rows[i].tx == e.tx;
      }
    }
  }

  lemma NothingInserted(policy: Policy, base: seq<Row>, receiptId: Id, recordedAt: string)
    ensures InsertNew(policy, base, [], receiptId, recordedAt) == Some(base)
  {}

  lemma FewerRows(base: seq<Row>, rows: seq<PreviewRow>, n: nat)
    requires n <= |rows| && NewRowsOk(base, rows) && IdsFresh(base, rows) && NewCanonical(rows)
    ensures NewRowsOk(base, rows[..n]) && IdsFresh(base, rows[..n]) && NewCanonical(rows[..n])
  {
    hide NewRowOk, CanonicalUtc;
  }

  lemma InsertLast(policy: Policy, base: seq<Row>, rows: seq<PreviewRow>, receiptId: Id, recordedAt: string)
    requires rows != [] && InsertNew(policy, base, rows[..|rows| - 1], receiptId, recordedAt).Some?
    ensures var row := rows[|rows| - 1];
      var before := InsertNew(policy, base, rows[..|rows| - 1], receiptId, recordedAt).value;
      InsertNew(policy, base, rows, receiptId, recordedAt) ==
        if row.status != New then Some(before)
        else if InsertAllowed(policy, before, row.tx) then Some(before + [Row(|before| + 1, row.tx, receiptId, recordedAt)])
        else None
  {
    hide InsertAllowed;
  }

  lemma LastCanonical(before: seq<Row>, after: seq<Row>, row: PreviewRow)
    requires AllCanonical(before) && (row.status == New ==> CanonicalUtc(row.tx.occurredAt))
    requires after == before || (row.status == New && |after| == |before| + 1 && before <= after && after[|before|].tx == row.tx)
    ensures AllCanonical(after)
  {
    hide CanonicalUtc;
  }

  /** Optimistic concurrency: with a preview still current and new identifiers, apply
      succeeds exactly when the clock's year has four digits, the new rows' times are
      canonical and the ledger they make replays. Nothing else can go wrong. */
  lemma FreshPreviewApplies(db: Db, request: Request, receiptId: Id, receivedAt: int, recorded: Clock)
    requires Valid(db) && db.policy == Corrected && request.previewId != "" && request.key != "" && request.key !in db.receipts
    requires Refusal(db, request, receivedAt).None? && IdsFresh(db.events, db.previews[request.previewId].rows)
    requires forall k :: k in db.receipts ==> db.receipts[k].receiptId != receiptId
    ensures var rows := db.previews[request.previewId].rows;
      var inserted := InsertNew(Corrected, db.events, rows, receiptId, Format(recorded));
      && (FourDigitYear(recorded) && NewCanonical(rows) ==> inserted.Some?)
      && (ApplyStep(db, request, receiptId, receivedAt, recorded).1.Ok? <==>
        (FourDigitYear(recorded) && NewCanonical(rows) && Replay(Ranked(Corrected, inserted.value)).Some?))
  {
    hide TableFits, AllCanonical, CanonicalUtc, PreviewsOk, ReplayStateProven, Replay, Ranked, NewCanonical, Format, InsertNew,
      CurrentSnapshot, PreviewOk, NewRowsOk, IdsFresh, FourDigitYear, Stamped;
    var p := db.previews[request.previewId];
    CanonicalIsFormat(recorded);
    ValidRevision(db);
    CurrentPreview(db, request, receivedAt);
    PreviewFits(db.events, p);
    var inserted := InsertNew(Corrected, db.events, p.rows, receiptId, Format(recorded));
    if FourDigitYear(recorded) {
      FreshRowsReplay(db, p.rows, receiptId, Format(recorded));
    } else if inserted.Some? && CurrentSnapshot(Stamped(db, inserted.value, Format(recorded))).Some? {
      SnapshotClock(db, inserted.value, Format(recorded));
    }
    ApplyOutcome(db, request, receiptId, receivedAt, recorded);
    hide ApplyStep, Stamped, Refusal;
  }

  lemma FreshRowsReplay(db: Db, rows: seq<PreviewRow>, receiptId: Id, recordedAt: string)
    requires TableFits(db.events) && AllCanonical(db.events) && db.meta.revision == |db.events| && db.policy == Corrected
    requires NewRowsOk(db.events, rows) && IdsFresh(db.events, rows) && CanonicalUtc(recordedAt)
    ensures var inserted := InsertNew(Corrected, db.events, rows, receiptId, recordedAt);
      && (NewCanonical(rows) ==> inserted.Some?)
      && (inserted.Some? && CurrentSnapshot(Stamped(db, inserted.value, recordedAt)).Some? <==>
        (NewCanonical(rows) && Replay(Ranked(Corrected, inserted.value)).Some?))
  {
    hide TableFits, AllCanonical, CanonicalUtc, Replay, Ranked, NewCanonical, InsertNew, CurrentSnapshot, NewRowsOk, IdsFresh;
    var inserted := InsertNew(Corrected, db.events, rows, receiptId, recordedAt);
    if NewCanonical(rows) {
      FreshRowsInsert(db.events, rows, receiptId, recordedAt);
    }
    if inserted.Some? {
      NewRowsParts(db.events, rows);
      InsertKeepsTable(Corrected, db.events, rows, receiptId, recordedAt);
      InsertAppends(Corrected, db.events, rows, receiptId, recordedAt);
      SnapshotIsReplay(Stamped(db, inserted.value, recordedAt));
      if Replay(Ranked(Corrected, inserted.value)).Some? {
        ReplayedCanonical(Corrected, inserted.value);
        InsertedCanonical(Corrected, db.events, rows, receiptId, recordedAt);
      }
    }
  }

  lemma CurrentPreview(db: Db, request: Request, receivedAt: int)
    requires Refusal(db, request, receivedAt).None? && PreviewsOk(db)
    ensures request.previewId in db.previews
    ensures var p := db.previews[request.previewId]; PreviewOk(db.events, p) && p.revision == db.meta.revision
  {
    hide PreviewOk;
  }

  lemma NewRowsParts(base: seq<Row>, rows: seq<PreviewRow>)
    requires NewRowsOk(base, rows)
    ensures forall i :: 0 <= i < |rows| && rows[i].status == New ==> NewRowOk(base, rows[i].tx)
  {
    hide NewRowOk;
  }

  lemma InsertedCanonical(policy: Policy, base: seq<Row>, rows: seq<PreviewRow>, receiptId: Id, recordedAt: string)
    requires InsertNew(policy, base, rows, receiptId, recordedAt).Some?
    requires AllCanonical(InsertNew(policy, base, rows, receiptId, recordedAt).value)
    ensures NewCanonical(rows)
  {
    InsertMembers(policy, base, rows, receiptId, recordedAt);
    hide CanonicalUtc, InsertNew;
  }

  lemma ApplyOutcome(db: Db, request: Request, receiptId: Id, receivedAt: int, recorded: Clock)
    requires request.previewId != "" && request.key != "" && request.key !in db.receipts && Refusal(db, request, receivedAt).None?
    requires forall k :: k in db.receipts ==> db.receipts[k].receiptId != receiptId
    ensures var inserted := InsertNew(db.policy, db.events, db.previews[request.previewId].rows, receiptId, Format(recorded));
      ApplyStep(db, request, receiptId, receivedAt, recorded).1.Ok? <==>
        inserted.Some? && CurrentSnapshot(Stamped(db, inserted.value, Format(recorded))).Some?
  {
    hide InsertNew, CurrentSnapshot, Format, Stamped, ReceiptFor;
  }
}
