/** The writers as methods over the database they share: each one is a transaction
    that either commits its whole effect or leaves every table alone.
  */
module LedgerService {
  import opened Results
  import opened UtcText
  import opened LedgerTable
  import opened Fifo
  import opened FifoLaws
  import opened LedgerReplay
  import opened ImportRows
  import opened LedgerDb
  import opened LedgerInvariants

  const EMPTY_DB: Db := Db([], Meta(0, ZERO_TIME), map[], map[], Corrected, 0, None)

  lemma ZeroTimeIsCanonical()
    ensures CanonicalUtc(ZERO_TIME)
  {
    var s := Stamp(1970, 1, 1, 0, 0, 0, 0);
    ZeroTimeText(s);
    CanonicalIsFormat(s);
    hide *;
  }

  lemma ZeroTimeText(s: Stamp)
    requires s == Stamp(1970, 1, 1, 0, 0, 0, 0)
    ensures Format(s) == ZERO_TIME
  {
    TwoDigits(1, "19", 9);
    TwoDigits(7, "70", 0);
    NewYearText(s, "19", "70");
    hide *;
    JoinedZeroTime();
    FormatIsStripped(s);
  }

  lemma JoinedZeroTime()
    ensures "19" + "70" + "-01-01T00:00:00" + "Z" == ZERO_TIME
  {
    assert "19" + "70" == "1970";
    assert "1970" + "-01-01T00:00:00" == "1970-01-01T00:00:00";
  }

  /** A new database is valid. */
  lemma EmptyIsValid()
    ensures Valid(EMPTY_DB)
  {
    ZeroTimeIsCanonical();
    hide CanonicalUtc, ReplayAt;
    assert Ranked(Corrected, []) == [];
  }

  /** So is an old ledger as the migration leaves it: frozen under the legacy policy. */
  lemma MigratedIsValid(events: seq<Row>, meta: Meta)
    requires TableFits(events) && AllCanonical(events) && events != [] && meta.revision == |events| && CanonicalUtc(meta.recordedAt)
    ensures Valid(Db(events, meta, map[], map[], Legacy, |events|, None))
  {
    hide TableFits, AllCanonical, CanonicalUtc, Replay, Ranked, ReplayStateProven;
  }

  method ShowReplayAt(events: seq<Row>, meta: Meta, revision: nat, recordedAt: string) returns (r: Result<ReplayPreview>)
    ensures r.Ok? <==> ReplayAt(events, meta, revision, recordedAt).Some?
    ensures r.Ok? ==> r.value == ReplayAt(events, meta, revision, recordedAt).value
  {
    hide SnapshotOf, CanonicalUtc, Through, RevisionMatches;
    var legacy := SnapshotFromPolicy(Legacy, events, meta, revision);
    if legacy.Err? {
      return Err("legacy ledger replay: " + legacy.message);
    }
    var corrected := SnapshotFromPolicy(Corrected, events, meta, revision);
    if corrected.Err? {
      return Err("corrected ledger replay: " + corrected.message);
    }
    if !CanonicalUtc(recordedAt) {
      return Err("captured ledger recorded_at is not canonical UTC");
    }
    var prefix := Through(events, revision);
    if !RevisionMatches(prefix, revision) {
      return Err("ledger replay prefix sequence is not contiguous");
    }
    r := Ok(ReplayPreview(revision, prefix, legacy.value.(recordedAt := recordedAt), corrected.value.(recordedAt := recordedAt)));
  }

  /** proveLedgerReplayState. */
  method ProveReplayState(db: Db, archival: bool) returns (ok: bool)
    ensures ok <==> ReplayStateProven(db, archival)
  {
    hide ReplayAt, CanonicalUtc, RevisionMatches, StampLess;
    if !(0 <= db.legacyRevision <= db.meta.revision) || !RevisionMatches(db.events, db.meta.revision) {
      return false;
    }
    if db.policy == Legacy {
      return archival && db.legacyRevision != 0 && db.meta.revision == db.legacyRevision && db.transition.None?;
    }
    if db.legacyRevision == 0 {
      return db.transition.None?;
    }
    if db.transition.None? {
      return false;
    }
    var t := db.transition.value;
    if t.revision != db.legacyRevision || !CanonicalUtc(t.recordedAt) || !CanonicalUtc(t.activatedAt)
       || StampLess(StampOf(t.activatedAt), StampOf(t.recordedAt)) {
      return false;
    }
    var preview := ShowReplayAt(db.events, db.meta, db.legacyRevision, t.recordedAt);
    ok := preview.Ok? && preview.value.events == t.events && preview.value.legacy == t.legacy && preview.value.corrected == t.corrected;
  }

  /** prepareLedgerReplay. */
  method Prepare(db: Db) returns (r: Result<ReplayPreview>)
    ensures r.Ok? <==> Prepared(db).Some?
    ensures r.Ok? ==> r.value == Prepared(db).value
  {
    hide ReplayAt, ReplayStateProven, EventsProven;
    var proven := ProveReplayState(db, true);
    if !proven || db.policy != Legacy || db.legacyRevision <= 0 {
      return Err("ledger does not require a legacy replay transition");
    }
    var events := ProveLedgerEvents(db.events, db.meta);
    if events.Err? {
      return Err(events.message);
    }
    if events.value.0 != db.legacyRevision {
      return Err("legacy replay preparation changed the ledger revision");
    }
    r := ShowReplayAt(db.events, db.meta, db.meta.revision, db.meta.recordedAt);
  }

  class Store {
    var events: seq<Row>
    var meta: Meta
    var previews: map<string, Preview>
    var receipts: map<string, Receipt>
    var policy: Policy
    var legacyRevision: int
    var transition: Option<Transition>

    function State(): Db
      reads this
    {
      Db(events, meta, previews, receipts, policy, legacyRevision, transition)
    }

    constructor ()
      ensures State() == EMPTY_DB && Valid(State())
    {
      events, meta, previews, receipts := [], Meta(0, ZERO_TIME), map[], map[];
      policy, legacyRevision, transition := Corrected, 0, None;
      new;
      EmptyIsValid();
      hide Valid;
    }

    method StorePreview(previewId: string, ids: seq<Id>, records: seq<Transaction>, expiresAt: int) returns (r: Result<Preview>)
      requires |ids| == |records|
      modifies this
      ensures State() == PreviewStep(old(State()), previewId, ids, records, expiresAt).0
      ensures r.Ok? <==> PreviewStep(old(State()), previewId, ids, records, expiresAt).1.Ok?
      ensures r.Ok? ==> r == PreviewStep(old(State()), previewId, ids, records, expiresAt).1
    {
      hide ScanAll, StoredVoidsOk;
      var rows := ParseCsv(events, ids, records);
      if rows.Err? {
        return Err(rows.message);
      }
      if previewId in previews {
        return Err("UNIQUE constraint failed: previews.preview_id");
      }
      var errors, unresolved := 0, 0;
      for i := 0 to |rows.value|
        invariant errors == CountRows(rows.value[..i], Error) && unresolved == CountRows(rows.value[..i], Unresolved)
      {
        assert rows.value[..i + 1][..i] == rows.value[..i];
        match rows.value[i].status {
          case Error => errors := errors + 1;
          case Unresolved => unresolved := unresolved + 1;
          case _ =>
        }
      }
      assert rows.value[..|rows.value|] == rows.value;
      var p := Preview(meta.revision, ids, records, rows.value, errors == 0 && unresolved == 0, expiresAt);
      previews := previews[previewId := p];
      r := Ok(p);
    }

    /** The INSERT loop of apply, on a copy that is dropped when an insert is refused. */
    method InsertRows(rows: seq<PreviewRow>, receiptId: Id, recordedAt: string) returns (r: Option<seq<Row>>)
      ensures r == InsertNew(policy, events, rows, receiptId, recordedAt)
    {
      hide InsertAllowed;
      var stored := events;
      for i := 0 to |rows|
        invariant InsertNew(policy, events, rows[..i], receiptId, recordedAt) == Some(stored)
      {
        assert rows[..i + 1][..i] == rows[..i];
        if rows[i].status == New {
          if !InsertAllowed(policy, stored, rows[i].tx) {
            InsertStops(policy, events, rows, i + 1, receiptId, recordedAt);
            return None;
          }
          stored := stored + [Row(|stored| + 1, rows[i].tx, receiptId, recordedAt)];
        }
      }
      assert rows[..|rows|] == rows;
      r := Some(stored);
    }

    /** apply: everything is checked on the new tables before any field is assigned. */
    method Apply(request: Request, receiptId: Id, receivedAt: int, recorded: Clock) returns (r: Result<Receipt>)
      modifies this
      ensures State() == ApplyStep(old(State()), request, receiptId, receivedAt, recorded).0
      ensures r == ApplyStep(old(State()), request, receiptId, receivedAt, recorded).1
    {
      hide InsertNew, CountRows, SnapshotOf, Format, RevisionMatches, ReceiptFor;
      if request.previewId == "" || request.key == "" {
        return Err("required");
      }
      if request.key in receipts {
        return if receipts[request.key].request == request then Ok(receipts[request.key]) else Err("idempotency_conflict");
      }
      var refusal := Refusal(State(), request, receivedAt);
      if refusal.Some? {
        return Err(refusal.value);
      }
      var recordedAt := Format(recorded);
      var inserted := InsertRows(previews[request.previewId].rows, receiptId, recordedAt);
      if inserted.None? {
        return Err("internal");
      }
      InsertAppends(policy, events, previews[request.previewId].rows, receiptId, recordedAt);
      var after := Stamped(State(), inserted.value, recordedAt);
      var receipt := ReceiptFor(State(), request, inserted.value, receiptId, receivedAt, recordedAt);
      var verified := Verify(after);
      if !verified {
        return Err("invalid_ledger");
      }
      if exists k :: k in receipts && receipts[k].receiptId == receiptId {
        return Err("internal");
      }
      events, meta, receipts := inserted.value, after.meta, receipts[request.key := receipt];
      r := Ok(receipt);
    }

    /** activateLedgerReplay. */
    method Activate(revision: int, prefix: seq<Row>, corrected: Snapshot, now: Clock) returns (r: Result<ReplayPreview>)
      modifies this
      ensures State() == ActivateStep(old(State()), revision, prefix, corrected, now).0
      ensures r.Ok? <==> ActivateStep(old(State()), revision, prefix, corrected, now).1.Ok?
      ensures r.Ok? ==> r == ActivateStep(old(State()), revision, prefix, corrected, now).1
    {
      hide ReplayStateProven, ReplayAt, EventsProven, Format, StampLess, Prepared, CanonicalUtc;
      var preview := Prepare(State());
      if preview.Err? {
        return Err(preview.message);
      }
      PreparedIsCanonical(State());
      var p := preview.value;
      if revision <= 0 || p.revision != revision || p.events != prefix || p.corrected != corrected {
        return Err("ledger replay preview changed; review a new preview before activation");
      }
      if StampLess(now, StampOf(meta.recordedAt)) {
        return Err("ledger replay activation precedes the captured ledger");
      }
      var t := Transition(p.revision, meta.recordedAt, p.events, p.legacy, p.corrected, Format(now));
      var proven := ProveReplayState(State().(policy := Corrected, transition := Some(t)), false);
      if !proven {
        return Err("ledger replay transition proof mismatch");
      }
      policy, transition := Corrected, Some(t);
      r := Ok(p);
    }
  }

  lemma PreparedIsCanonical(db: Db)
    requires Prepared(db).Some?
    ensures CanonicalUtc(db.meta.recordedAt)
  {
    hide ReplayStateProven, ReplayAt, ValidStored, CanonicalUtc;
  }

  /** snapshotFrom, for its error only. */
  method Verify(db: Db) returns (ok: bool)
    ensures ok <==> CurrentSnapshot(db).Some?
  {
    hide SnapshotOf, RevisionMatches;
    if db.policy != Corrected || !RevisionMatches(db.events, db.meta.revision) {
      return false;
    }
    var snapshot := SnapshotFromPolicy(Corrected, db.events, db.meta, -1);
    ok := snapshot.Ok?;
  }

  lemma {:induction false} InsertStops(policy: Policy, events: seq<Row>, rows: seq<PreviewRow>, n: nat, receiptId: Id, recordedAt: string)
    requires n <= |rows| && InsertNew(policy, events, rows[..n], receiptId, recordedAt).None?
    ensures InsertNew(policy, events, rows, receiptId, recordedAt).None?
    decreases |rows| - n
  {
    hide InsertAllowed;
    if n == |rows| {
      assert rows[..n] == rows;
    } else {
      assert rows[..n + 1][..n] == rows[..n];
      InsertStops(policy, events, rows, n + 1, receiptId, recordedAt);
    }
  }
}
