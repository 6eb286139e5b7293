/** Reading an import against the ledger: parseCSV (services/core/core.go:1272-1376),
    on records already split into columns.
  */
module ImportRows {
  import opened Results
  import opened UtcText
  import opened LedgerTable
  import opened RowChecks
  import opened CashVoids

  datatype Status = New | Duplicate | Error | Unresolved
  datatype PreviewRow = PreviewRow(status: Status, tx: Transaction, errors: seq<FieldError>)

  /** Generated identifiers carry a prefix, so they are never empty. */
  type Id = s: string | s != "" witness "x"

  type Key = (string, string)

  const MAX_IMPORT_ROWS := 10000

  function SourceKey(t: Transaction): Key {
    (t.accountId, t.sourceEventId)
  }

  function TargetKey(t: Transaction): Key {
    (t.accountId, t.corrects)
  }

  predicate SameTransaction(a: Transaction, b: Transaction) {
    a == b.(eventId := a.eventId)
  }

  /** The one account and the one instrument known to the service. */
  predicate Resolved(t: Transaction) {
    t.accountId == "account-main" && (t.symbol == "" || t.symbol == "AAPL")
  }

  function Conflict(t: Transaction): PreviewRow {
    PreviewRow(Error, t, [FieldError("source_event_conflict", "source_event_id")])
  }

  function BadCorrection(t: Transaction): PreviewRow {
    PreviewRow(Error, t, [FieldError("invalid_correction", "corrects_source_event_id")])
  }

  /** A row whose source id an earlier one already used. */
  function Repeat(prior: Transaction, t: Transaction): PreviewRow {
    if SameTransaction(t, prior) then PreviewRow(Duplicate, prior, []) else Conflict(t)
  }

  /** A row with a source id of its own. */
  function Fresh(events: seq<Row>, targets: set<Key>, t: Transaction): PreviewRow {
    if t.kind.CashVoid? && (!ValidCashVoid(events, t, true) || TargetKey(t) in targets) then BadCorrection(t)
    else PreviewRow(New, t, [])
  }

  /** Rows so far, the rows later ones are compared with, and corrections claimed. */
  datatype RowScan = RowScan(rows: seq<PreviewRow>, seen: map<Key, Transaction>, targets: set<Key>)

  const START: RowScan := RowScan([], map[], {})

  function Classify(events: seq<Row>, scan: RowScan, t: Transaction): PreviewRow {
    var stored := FindBySource(events, t.accountId, t.sourceEventId);
    if !Resolved(t) then PreviewRow(Unresolved, t, [])
    else if SourceKey(t) in scan.seen then Repeat(scan.seen[SourceKey(t)], t)
    else if stored.Some? then Repeat(stored.value.tx, t)
    else Fresh(events, scan.targets, t)
  }

  function RowOf(events: seq<Row>, scan: RowScan, eventId: Id, record: Transaction): PreviewRow {
    var n := Normalize(eventId, record);
    if n.errors != [] then PreviewRow(Error, n.tx, n.errors) else Classify(events, scan, n.tx)
  }

  function Extend(scan: RowScan, row: PreviewRow): RowScan {
    RowScan(scan.rows + [row],
      if row.status in {New, Duplicate} then scan.seen[SourceKey(row.tx) := row.tx] else scan.seen,
      if row.status == New && row.tx.kind.CashVoid? then scan.targets + {TargetKey(row.tx)} else scan.targets)
  }

  /** The classification of a whole file. */
  function ScanAll(events: seq<Row>, ids: seq<Id>, records: seq<Transaction>): (scan: RowScan)
    requires |ids| == |records|
    ensures |scan.rows| == |records|
  {
    if records == [] then START
    else
      var n := |records| - 1;
      var scan := ScanAll(events, ids[..n], records[..n]);
      Extend(scan, RowOf(events, scan, ids[n], records[n]))
  }

  /** A stored correction named again in the file must still pass its check. */
  predicate StoredVoidOk(events: seq<Row>, row: PreviewRow) {
    row.status == Duplicate && row.tx.kind.CashVoid? ==> ValidCashVoid(events, row.tx, false)
  }

  /** parseCSV: the row-by-row loop with its `seen` maps. */
  method ParseCsv(events: seq<Row>, ids: seq<Id>, records: seq<Transaction>) returns (r: Result<seq<PreviewRow>>)
    requires |ids| == |records|
    ensures |records| > MAX_IMPORT_ROWS ==> r == Err("too_many_rows")
    ensures r.Ok? ==> r.value == ScanAll(events, ids, records).rows
    ensures r.Err? <==> (|records| > MAX_IMPORT_ROWS || !StoredVoidsOk(events, ids, records))
  {
    hide Normalize, ValidCashVoid, RowOf, FindBySource, StoredRepeat, TargetKey;
    if |records| > MAX_IMPORT_ROWS {
      return Err("too_many_rows");
    }
    var rows, seen: map<Key, Transaction>, targets: set<Key> := [], map[], {};
    for i := 0 to |records|
      invariant RowScan(rows, seen, targets) == ScanAll(events, ids[..i], records[..i])
      invariant forall j :: 0 <= j < i && StoredRepeat(events, ids, records, j) ==> StoredVoidOk(events, rows[j])
    {
      ScanNext(events, ids, records, i);
      ScanPrefix(events, ids, records, i + 1);
      var row := RowOf(events, RowScan(rows, seen, targets), ids[i], records[i]);
      RowRepeats(events, ids, records, i);
      if row.status == Duplicate && SourceKey(row.tx) !in seen && !StoredVoidOk(events, row) {
        return Err("stored cash void failed validation");
      }
      rows := rows + [row];
      if row.status == New || row.status == Duplicate {
        seen := seen[SourceKey(row.tx) := row.tx];
      }
      if row.status == New && row.tx.kind.CashVoid? {
        targets := targets + {TargetKey(row.tx)};
      }
    }
    assert ids[..|records|] == ids && records[..|records|] == records;
    r := Ok(rows);
  }

  lemma RowRepeats(events: seq<Row>, ids: seq<Id>, records: seq<Transaction>, i: nat)
    requires |ids| == |records| && i < |records|
    ensures var scan := ScanAll(events, ids[..i], records[..i]);
      var row := RowOf(events, scan, ids[i], records[i]);
      && (row.status == Duplicate && SourceKey(row.tx) !in scan.seen ==> StoredRepeat(events, ids, records, i))
      && (StoredRepeat(events, ids, records, i) ==> (row.status == Duplicate ==> SourceKey(row.tx) !in scan.seen))
  {
    hide Normalize, ScanAll, Resolved, FindBySource, Fresh;
    var scan := ScanAll(events, ids[..i], records[..i]);
    var n := Normalize(ids[i], records[i]);
    if n.errors == [] {
      var stored := FindBySource(events, n.tx.accountId, n.tx.sourceEventId);
      FreshIsNew(events, scan.targets, n.tx);
      if stored.Some? {
        RepeatKey(stored.value.tx, n.tx);
      }
      if SourceKey(n.tx) in scan.seen {
        RepeatKey(scan.seen[SourceKey(n.tx)], n.tx);
      }
    }
  }

  lemma FreshIsNew(events: seq<Row>, targets: set<Key>, t: Transaction)
    ensures Fresh(events, targets, t).status != Duplicate && Fresh(events, targets, t).status != Unresolved
    ensures Fresh(events, targets, t).tx == t
  {
    hide ValidCashVoid;
  }

  lemma RepeatKey(prior: Transaction, t: Transaction)
    ensures var row := Repeat(prior, t);
      && row.status in {Duplicate, Error} && SourceKey(row.tx) == SourceKey(t)
      && (row.status == Duplicate ==> row.tx == prior && SameTransaction(t, prior))
  {}

  /** Record i repeats a stored event the file has not named before. */
  predicate StoredRepeat(events: seq<Row>, ids: seq<Id>, records: seq<Transaction>, i: nat)
    requires |ids| == |records| && i < |records|
  {
    var t := Normalize(ids[i], records[i]).tx;
    Normalize(ids[i], records[i]).errors == [] && Resolved(t) && SourceKey(t) !in ScanAll(events, ids[..i], records[..i]).seen
    && FindBySource(events, t.accountId, t.sourceEventId).Some?
  }

  predicate StoredVoidsOk(events: seq<Row>, ids: seq<Id>, records: seq<Transaction>)
    requires |ids| == |records|
  {
    forall i :: 0 <= i < |records| && StoredRepeat(events, ids, records, i) ==>
      StoredVoidOk(events, ScanAll(events, ids, records).rows[i])
  }

  lemma ScanNext(events: seq<Row>, ids: seq<Id>, records: seq<Transaction>, i: nat)
    requires |ids| == |records| && i < |records|
    ensures var scan := ScanAll(events, ids[..i], records[..i]);
      ScanAll(events, ids[..i + 1], records[..i + 1]) == Extend(scan, RowOf(events, scan, ids[i], records[i]))
  {
    assert ids[..i + 1][..i] == ids[..i] && records[..i + 1][..i] == records[..i];
    hide Extend, RowOf;
  }

  /** Rows already classified do not change as the file is read on. */
  lemma {:induction false} ScanPrefix(events: seq<Row>, ids: seq<Id>, records: seq<Transaction>, i: nat)
    requires |ids| == |records| && i <= |records|
    ensures ScanAll(events, ids[..i], records[..i]).rows == ScanAll(events, ids, records).rows[..i]
  {
    hide RowOf;
    if i < |records| {
      var n := |records| - 1;
      ScanPrefix(events, ids[..n], records[..n], i);
      assert ids[..n][..i] == ids[..i] && records[..n][..i] == records[..i];
    } else {
      assert ids[..i] == ids && records[..i] == records;
    }
  }

  /******* What a classification promises *******/

  /** A new row fits, is not stored, and corrects only what it may. */
  predicate NewRowOk(events: seq<Row>, t: Transaction) {
    && t.eventId != "" && Fits(t) && t.instrumentId == InstrumentOf(t.symbol)
    && FindBySource(events, t.accountId, t.sourceEventId).None?
    && (t.kind.CashVoid? ==> ValidCashVoid(events, t, true))
  }

  /** The new rows fit, are pairwise distinct and claim distinct corrections. */
  ghost predicate NewRowsOk(events: seq<Row>, rows: seq<PreviewRow>) {
    && (forall i :: 0 <= i < |rows| && rows[i].status == New ==> NewRowOk(events, rows[i].tx))
    && (forall i, j :: 0 <= i < j < |rows| && rows[i].status == New && rows[j].status == New ==>
      SourceKey(rows[i].tx) != SourceKey(rows[j].tx))
    && (forall i, j :: 0 <= i < j < |rows| && ClaimsTarget(rows[i]) && ClaimsTarget(rows[j]) ==>
      TargetKey(rows[i].tx) != TargetKey(rows[j].tx))
  }

  predicate ClaimsTarget(row: PreviewRow) {
    row.status == New && row.tx.kind.CashVoid?
  }

  ghost predicate Remembered(scan: RowScan) {
    forall i :: 0 <= i < |scan.rows| ==>
      (scan.rows[i].status == New ==> SourceKey(scan.rows[i].tx) in scan.seen)
      && (ClaimsTarget(scan.rows[i]) ==> TargetKey(scan.rows[i].tx) in scan.targets)
  }

  lemma {:induction false} ScanOk(events: seq<Row>, ids: seq<Id>, records: seq<Transaction>)
    requires |ids| == |records|
    ensures NewRowsOk(events, ScanAll(events, ids, records).rows) && Remembered(ScanAll(events, ids, records))
  {
    if records != [] {
      var n := |records| - 1;
      var scan := ScanAll(events, ids[..n], records[..n]);
      ScanOk(events, ids[..n], records[..n]);
      NewRowFacts(events, scan, ids[n], records[n]);
      ExtendOk(events, scan, RowOf(events, scan, ids[n], records[n]));
    }
    hide RowOf, NewRowsOk, Remembered, Extend, NewRowOk;
  }

  lemma ClassifiedNew(events: seq<Row>, scan: RowScan, t: Transaction)
    ensures Classify(events, scan, t).status == New ==>
      && Classify(events, scan, t).tx == t && SourceKey(t) !in scan.seen
      && FindBySource(events, t.accountId, t.sourceEventId).None?
      && (t.kind.CashVoid? ==> ValidCashVoid(events, t, true) && TargetKey(t) !in scan.targets)
  {
    hide Resolved, FindBySource, ValidCashVoid, SameTransaction;
  }

  lemma NormalizedFits(eventId: Id, record: Transaction)
    requires Normalize(eventId, record).errors == []
    ensures var t := Normalize(eventId, record).tx; t.eventId != "" && Fits(t) && t.instrumentId == InstrumentOf(t.symbol)
  {
    hide Normalize, Fits, InstrumentOf, ParseUtc, TimeText;
    NormalizeAccepts(eventId, record);
    SameFits(Normalize(eventId, record).tx, record);
  }

  lemma NewRowFacts(events: seq<Row>, scan: RowScan, eventId: Id, record: Transaction)
    ensures var row := RowOf(events, scan, eventId, record); row.status == New ==>
      && NewRowOk(events, row.tx) && SourceKey(row.tx) !in scan.seen
      && (row.tx.kind.CashVoid? ==> TargetKey(row.tx) !in scan.targets)
  {
    hide Normalize, Classify, Fits, InstrumentOf, ValidCashVoid, FindBySource;
    var n := Normalize(eventId, record);
    if n.errors == [] {
      NormalizedFits(eventId, record);
      ClassifiedNew(events, scan, n.tx);
    }
  }

  lemma ExtendOk(events: seq<Row>, scan: RowScan, row: PreviewRow)
    requires NewRowsOk(events, scan.rows) && Remembered(scan)
    requires row.status == New ==> NewRowOk(events, row.tx) && SourceKey(row.tx) !in scan.seen
    requires ClaimsTarget(row) ==> TargetKey(row.tx) !in scan.targets
    ensures NewRowsOk(events, Extend(scan, row).rows) && Remembered(Extend(scan, row))
  {
    hide NewRowOk;
  }
}
