/** What applying an import answers and leaves behind (services/core/core.go:1614-1712),
    and when the replay policy is switched (services/core/ledger_replay_policy.go).
  */
module ApplyLaws {
  import opened Results
  import opened UtcText
  import opened LedgerTable
  import opened FifoLaws
  import opened ImportRows
  import opened LedgerReplay
  import opened LedgerDb
  import opened LedgerInvariants

  /******* The rows a preview adds *******/

  /** The transactions of the new rows, in file order. */
  function NewOf(rows: seq<PreviewRow>): seq<Transaction> {
    if rows == [] then []
    else NewOf(rows[..|rows| - 1]) + if rows[|rows| - 1].status.New? then [rows[|rows| - 1].tx] else []
  }

  /** Stored one after another behind the events there are. */
  function Stored(before: nat, txs: seq<Transaction>, receiptId: string, recordedAt: string): (r: seq<Row>)
    ensures |r| == |txs|
    ensures forall i :: 0 <= i < |r| ==> r[i] == Row(before + i + 1, txs[i], receiptId, recordedAt)
  {
    seq(|txs|, i requires 0 <= i < |txs| => Row(before + i + 1, txs[i], receiptId, recordedAt))
  }

  lemma {:induction false} InsertedRows(policy: Policy, events: seq<Row>, rows: seq<PreviewRow>, receiptId: Id, recordedAt: string)
    requires InsertNew(policy, events, rows, receiptId, recordedAt).Some?
    ensures InsertNew(policy, events, rows, receiptId, recordedAt).value == events + Stored(|events|, NewOf(rows), receiptId, recordedAt)
  {
    hide InsertAllowed;
    if rows == [] {
      assert events + Stored(|events|, [], receiptId, recordedAt) == events;
    } else {
      var n := |rows| - 1;
      InsertedRows(policy, events, rows[..n], receiptId, recordedAt);
      if rows[n].status.New? {
        assert Stored(|events|, NewOf(rows), receiptId, recordedAt) ==
          Stored(|events|, NewOf(rows[..n]), receiptId, recordedAt)
          + [Row(|events| + |NewOf(rows[..n])| + 1, rows[n].tx, receiptId, recordedAt)];
      }
    }
  }

  /** Nothing in the preview stands in the way. */
  predicate Clean(rows: seq<PreviewRow>) {
    forall i :: 0 <= i < |rows| ==> rows[i].status.New? || rows[i].status.Duplicate?
  }

  lemma {:induction false} CleanCounts(rows: seq<PreviewRow>)
    ensures Clean(rows) <==> CountRows(rows, Error) == 0 && CountRows(rows, Unresolved) == 0
    ensures Clean(rows) ==> CountRows(rows, Duplicate) == CountOthers(rows)
  {
    if rows != [] {
      var n := |rows| - 1;
      CleanCounts(rows[..n]);
      assert forall i :: 0 <= i < n ==> rows[..n][i] == rows[i];
    }
  }

  /******* Answers *******/

  /** What a request with a key of its own is turned down for: the first of these that
      holds. */
  lemma RefusedExactly(db: Db, request: Request, receiptId: Id, receivedAt: int, recorded: Clock)
    requires Valid(db) && request.previewId != "" && request.key != "" && request.key !in db.receipts
    ensures var found := request.previewId in db.previews;
      var answer := ApplyStep(db, request, receiptId, receivedAt, recorded);
      && (!found ==> answer == (db, Err("preview_not_found")))
      && (found && db.previews[request.previewId].expiresAt <= receivedAt ==> answer == (db, Err("stale_preview")))
      && (found && receivedAt < db.previews[request.previewId].expiresAt && !Clean(db.previews[request.previewId].rows) ==>
        answer == (db, Err("preview_has_errors")))
      && (found && receivedAt < db.previews[request.previewId].expiresAt && Clean(db.previews[request.previewId].rows)
          && db.previews[request.previewId].revision != |db.events| ==>
        answer == (db, Err("stale_preview")))
      && (found && receivedAt < db.previews[request.previewId].expiresAt && Clean(db.previews[request.previewId].rows)
          && db.previews[request.previewId].revision == |db.events| ==>
        Refusal(db, request, receivedAt).None?)
  {
    hide TableFits, AllCanonical, PolicyOk, InsertNew, CurrentSnapshot, Format, Stamped, ReceiptFor, ScanAll, CanonicalUtc;
    if request.previewId in db.previews {
      CleanCounts(db.previews[request.previewId].rows);
    }
    hide Clean, CountRows;
  }

  /** A request that carries no preview or no key is refused as such. */
  lemma RequiredFields(db: Db, request: Request, receiptId: Id, receivedAt: int, recorded: Clock)
    requires request.previewId == "" || request.key == ""
    ensures ApplyStep(db, request, receiptId, receivedAt, recorded) == (db, Err("required"))
  {}

  /** The preview was current, unexpired and clean. */
  predicate Current(db: Db, request: Request, receivedAt: int) {
    && request.previewId != "" && request.key != "" && request.previewId in db.previews
    && receivedAt < db.previews[request.previewId].expiresAt && Clean(db.previews[request.previewId].rows)
    && db.previews[request.previewId].revision == |db.events|
  }

  lemma AppliedIsCurrent(db: Db, request: Request, receiptId: Id, receivedAt: int, recorded: Clock)
    requires Valid(db) && request.key !in db.receipts && ApplyStep(db, request, receiptId, receivedAt, recorded).1.Ok?
    ensures Current(db, request, receivedAt)
  {
    hide Valid, ApplyStep, Clean;
    NamedRequest(db, request, receiptId, receivedAt, recorded);
    RefusedExactly(db, request, receiptId, receivedAt, recorded);
  }

  /** What the committed database and its receipt are, given the rows added. */
  lemma CommitIs(db: Db, request: Request, receiptId: Id, receivedAt: int, at: string, added: nat, events: seq<Row>)
    requires request.previewId in db.previews && db.meta.revision == |db.events| && |events| == |db.events| + added
    requires CountRows(db.previews[request.previewId].rows, Duplicate) == CountOthers(db.previews[request.previewId].rows)
    ensures ReceiptFor(db, request, events, receiptId, receivedAt, at) ==
      Receipt(receiptId, request, |db.events|, |events|, added, CountOthers(db.previews[request.previewId].rows), receivedAt, at)
    ensures Stamped(db, events, at) == db.(events := events, meta := Meta(|events|, at))
  {
    hide CountRows, CountOthers;
  }

  /** The ledger with the preview's new rows behind it, and the receipt. */
  predicate Adds(db: Db, request: Request, receiptId: Id, receivedAt: int, at: string, after: Db, answer: Result<Receipt>) {
    request.previewId in db.previews
    && (var rows := db.previews[request.previewId].rows;
        var added := NewOf(rows);
        && answer == Ok(Receipt(receiptId, request, |db.events|, |db.events| + |added|, |added|, CountOthers(rows), receivedAt, at))
        && after == db.(events := db.events + Stored(|db.events|, added, receiptId, at), meta := Meta(|db.events| + |added|, at),
          receipts := db.receipts[request.key := answer.value]))
  }

  function CountOthers(rows: seq<PreviewRow>): nat {
    NewAreRows(rows);
    |rows| - |NewOf(rows)|
  }

  lemma {:induction false} NewAreRows(rows: seq<PreviewRow>)
    ensures |NewOf(rows)| <= |rows|
  {
    if rows != [] {
      NewAreRows(rows[..|rows| - 1]);
    }
  }

  /** A commit: the preview was current; the ledger grows by its new rows, in file order
      and numbered on, all under one receipt and one clock reading; the receipt counts
      them and the duplicates; nothing else changes. */
  lemma AppliedExactly(db: Db, request: Request, receiptId: Id, receivedAt: int, recorded: Clock)
    requires Valid(db) && request.key !in db.receipts && ApplyStep(db, request, receiptId, receivedAt, recorded).1.Ok?
    ensures Current(db, request, receivedAt)
    ensures var (after, answer) := ApplyStep(db, request, receiptId, receivedAt, recorded);
      Adds(db, request, receiptId, receivedAt, Format(recorded), after, answer)
  {
    hide *;
    AppliedIsCurrent(db, request, receiptId, receivedAt, recorded);
    CurrentFound(db, request, receivedAt);
    CommitShape(db, request, receiptId, receivedAt, recorded);
    ValidRevision(db);
    var rows, after := db.previews[request.previewId].rows, ApplyStep(db, request, receiptId, receivedAt, recorded).0;
    CleanCounts(rows);
    CommittedRows(db, request, receiptId, receivedAt, recorded, after);
    CommitIs(db, request, receiptId, receivedAt, Format(recorded), |NewOf(rows)|, after.events);
    AddsIs(db, request, receiptId, receivedAt, Format(recorded), after, ApplyStep(db, request, receiptId, receivedAt, recorded).1);
  }

  lemma AddsIs(db: Db, request: Request, receiptId: Id, receivedAt: int, at: string, after: Db, answer: Result<Receipt>)
    requires request.previewId in db.previews && answer.Ok?
    requires var rows := db.previews[request.previewId].rows;
      var events, added := after.events, |NewOf(rows)|;
      && events == db.events + Stored(|db.events|, NewOf(rows), receiptId, at) && |events| == |db.events| + added
      && answer.value == Receipt(receiptId, request, |db.events|, |events|, added, CountOthers(rows), receivedAt, at)
      && after == db.(events := events, meta := Meta(|events|, at), receipts := db.receipts[request.key := answer.value])
    ensures Adds(db, request, receiptId, receivedAt, at, after, answer)
  {
    hide NewOf, CountOthers;
  }

  lemma CurrentFound(db: Db, request: Request, receivedAt: int)
    requires Current(db, request, receivedAt)
    ensures request.previewId in db.previews && Clean(db.previews[request.previewId].rows)
  {
    hide Clean;
  }

  lemma CommittedRows(db: Db, request: Request, receiptId: Id, receivedAt: int, recorded: Clock, after: Db)
    requires Committed(db, request, receiptId, receivedAt, recorded, after)
    ensures request.previewId in db.previews
    ensures var added := NewOf(db.previews[request.previewId].rows);
      after.events == db.events + Stored(|db.events|, added, receiptId, Format(recorded)) && |after.events| == |db.events| + |added|
  {
    hide InsertNew, Format, CurrentSnapshot, Stamped, Refusal, NewOf;
    InsertedRows(Corrected, db.events, db.previews[request.previewId].rows, receiptId, Format(recorded));
  }

  lemma NamedRequest(db: Db, request: Request, receiptId: Id, receivedAt: int, recorded: Clock)
    requires ApplyStep(db, request, receiptId, receivedAt, recorded).1.Ok?
    ensures request.previewId != "" && request.key != ""
  {
    hide InsertNew, Format, CurrentSnapshot, Refusal, Stamped, ReceiptFor;
  }

  /******* The one switch *******/

  /** What is shown for approval: the whole ledger replayed both ways, under the time it
      was recorded at. */
  lemma ShownForApproval(db: Db)
    requires Valid(db) && Prepared(db).Some?
    ensures var n := |db.events|;
      var legacy, corrected := SnapshotOf(Legacy, db.events, db.meta, n), SnapshotOf(Corrected, db.events, db.meta, n);
      && db.policy == Legacy && legacy.Some? && corrected.Some?
      && Prepared(db).value == ReplayPreview(|db.events|, db.events, legacy.value.(recordedAt := db.meta.recordedAt),
        corrected.value.(recordedAt := db.meta.recordedAt))
  {
    ValidRevision(db);
    TableContiguous(db.events);
    ThroughIsPrefix(db.events, |db.events|);
    assert db.events[..|db.events|] == db.events;
    hide Valid, TableFits, SnapshotOf, ReplayStateProven, EventsProven, CanonicalUtc, Through;
  }

  /** The transition row an activation writes. */
  ghost function Switch(p: ReplayPreview, recordedAt: string, now: Clock): Transition {
    Transition(p.revision, recordedAt, p.events, p.legacy, p.corrected, Format(now))
  }

  lemma PreparedIs(db: Db)
    requires Prepared(db).Some?
    ensures db.policy == Legacy && db.legacyRevision == db.meta.revision > 0 && RevisionMatches(db.events, db.meta.revision)
    ensures ReplayAt(db.events, db.meta, db.legacyRevision, db.meta.recordedAt) == Prepared(db)
  {
    hide ReplayAt, EventsProven, RevisionMatches, TransitionProven;
  }

  lemma ShownRevision(events: seq<Row>, meta: Meta, revision: int, recordedAt: string)
    requires ReplayAt(events, meta, revision, recordedAt).Some?
    ensures ReplayAt(events, meta, revision, recordedAt).value.revision == revision
  {
    hide SnapshotOf, CanonicalUtc, RevisionMatches, Through;
  }

  /** A row made of what a replay shows proves exactly when its times are in order. */
  lemma SwitchRow(events: seq<Row>, meta: Meta, revision: int, recordedAt: string, now: Clock)
    requires ReplayAt(events, meta, revision, recordedAt).Some? && CanonicalUtc(recordedAt)
    ensures var t := Switch(ReplayAt(events, meta, revision, recordedAt).value, recordedAt, now);
      TransitionProven(events, meta, revision, t) <==> FourDigitYear(now) && !StampLess(now, StampOf(recordedAt))
  {
    hide ReplayAt, CanonicalUtc, StampOf, Format, FourDigitYear, StampLess;
    ShownRevision(events, meta, revision, recordedAt);
    CanonicalIsFormat(now);
  }

  lemma SwitchProves(db: Db, now: Clock)
    requires Prepared(db).Some? && CanonicalUtc(db.meta.recordedAt) && !StampLess(now, StampOf(db.meta.recordedAt))
    ensures var after := db.(policy := Corrected, transition := Some(Switch(Prepared(db).value, db.meta.recordedAt, now)));
      ReplayStateProven(after, false) <==> FourDigitYear(now)
  {
    hide Prepared, CanonicalUtc, StampOf, FourDigitYear, RevisionMatches, StampLess, ReplayAt, TransitionProven, Switch;
    PreparedIs(db);
    SwitchRow(db.events, db.meta, db.legacyRevision, db.meta.recordedAt, now);
  }

  /** The switch happens exactly when what was approved is what a replay shows now, not
      before the ledger's own time and in a year of four digits; it writes one transition
      row and touches no event. */
  lemma ActivatedExactly(db: Db, revision: int, events: seq<Row>, corrected: Snapshot, now: Clock)
    requires Valid(db)
    ensures CanonicalUtc(db.meta.recordedAt)
    ensures var (after, answer) := ActivateStep(db, revision, events, corrected, now);
      var p := Prepared(db);
      && (answer.Ok? <==>
        p.Some? && revision == |db.events| && events == db.events && corrected == p.value.corrected
        && !StampLess(now, StampOf(db.meta.recordedAt)) && FourDigitYear(now))
      && (answer.Ok? ==> after == db.(policy := Corrected, transition := Some(Switch(p.value, db.meta.recordedAt, now))))
      && (answer.Err? ==> after == db)
  {
    ValidRevision(db);
    ValidClock(db);
    if Prepared(db).Some? {
      ShownForApproval(db);
      if !StampLess(now, StampOf(db.meta.recordedAt)) {
        SwitchProves(db, now);
      }
      LegacyRows(db);
    }
    hide Valid, Prepared, SnapshotOf, ReplayStateProven, CanonicalUtc, StampOf, Format, FourDigitYear, StampLess;
  }

  lemma ValidClock(db: Db)
    requires Valid(db)
    ensures CanonicalUtc(db.meta.recordedAt)
  {
    hide TableFits, AllCanonical, CanonicalUtc, PreviewsOk, PolicyOk;
  }

  lemma LegacyRows(db: Db)
    requires Valid(db) && Prepared(db).Some?
    ensures |db.events| > 0
  {
    hide TableFits, AllCanonical, CanonicalUtc, PreviewsOk, ReplayStateProven, EventsProven, ReplayAt;
  }
}
