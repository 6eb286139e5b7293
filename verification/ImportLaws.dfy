/** What an import makes of each row, told from the stored events and the rows before it
    (services/core/core.go:1302-1375, 1386-1421).
  */
module ImportLaws {
  import opened Exact
  import opened DecimalText
  import opened UtcText
  import opened LedgerTable
  import opened FifoLaws
  import opened RowChecks
  import opened CashVoids
  import opened ImportRows

  /** Equal in everything but the event id. */
  predicate SameData(a: Transaction, b: Transaction) {
    && a.sourceEventId == b.sourceEventId && a.accountId == b.accountId && a.kind == b.kind && a.occurredAt == b.occurredAt
    && a.instrumentId == b.instrumentId && a.symbol == b.symbol && a.quantity == b.quantity && a.price == b.price
    && a.fee == b.fee && a.currency == b.currency && a.amount == b.amount
    && a.counterCurrency == b.counterCurrency && a.counterAmount == b.counterAmount && a.corrects == b.corrects
  }

  predicate StoredAs(events: seq<Row>, p: Transaction) {
    exists i :: 0 <= i < |events| && events[i].tx == p
  }

  /** An earlier row of the file was new, or a duplicate, as this transaction. */
  predicate ReadAs(earlier: seq<PreviewRow>, p: Transaction) {
    exists j :: 0 <= j < |earlier| && earlier[j].tx == p && (earlier[j].status.New? || earlier[j].status.Duplicate?)
  }

  /** A transaction that already has the source id, in the table or in the file. */
  predicate Prior(events: seq<Row>, earlier: seq<PreviewRow>, p: Transaction, t: Transaction) {
    p.accountId == t.accountId && p.sourceEventId == t.sourceEventId && (StoredAs(events, p) || ReadAs(earlier, p))
  }

  ghost predicate Known(events: seq<Row>, earlier: seq<PreviewRow>, t: Transaction) {
    exists p :: Prior(events, earlier, p, t)
  }

  /** An earlier new row of the file corrects the same event. */
  predicate ClaimedBefore(earlier: seq<PreviewRow>, t: Transaction) {
    exists j :: 0 <= j < |earlier| && Claims(earlier[j], t)
  }

  predicate Claims(row: PreviewRow, t: Transaction) {
    row.status.New? && row.tx.kind.CashVoid? && row.tx.accountId == t.accountId && row.tx.corrects == t.corrects
  }

  /** The correction undoes a stored event that nothing has corrected yet. */
  ghost predicate MayCorrect(events: seq<Row>, earlier: seq<PreviewRow>, t: Transaction) {
    && (exists i :: 0 <= i < |events| && Undoes(events[i].tx, t))
    && (forall i :: 0 <= i < |events| ==> events[i].tx.accountId != t.accountId || events[i].tx.corrects != t.corrects)
    && !ClaimedBefore(earlier, t)
  }

  /** A cash event of the account, named by the correction, of the opposite amount in the
      same currency, and not after it. */
  ghost predicate Undoes(target: Transaction, t: Transaction) {
    && target.accountId == t.accountId && target.sourceEventId == t.corrects
    && (target.kind.Deposit? || target.kind.Withdrawal? || target.kind.Dividend? || target.kind.Fee? || target.kind.Tax?)
    && target.currency == t.currency && ParseDecimal(target.amount).Some? && ParseDecimal(t.amount).Some?
    && Num(target.amount) + Num(t.amount) == 0.0
    && ParseUtc(target.occurredAt).Some? && ParseUtc(t.occurredAt).Some?
    && !StampLess(ParseUtc(t.occurredAt).value, ParseUtc(target.occurredAt).value)
  }

  lemma UndoesIs(target: Transaction, t: Transaction)
    ensures Undoes(target, t) <==> target.accountId == t.accountId && target.sourceEventId == t.corrects && Reverses(target, t)
  {
    hide ParseDecimal, ParseUtc, StampLess, Val;
  }

  /** Everything an import answers about one row, with t the row normalized. */
  ghost predicate Answer(events: seq<Row>, earlier: seq<PreviewRow>, n: Normalized, row: PreviewRow) {
    var t := n.tx;
    if n.errors != [] then row == PreviewRow(Error, t, n.errors)
    else if t.accountId != "account-main" || (t.symbol != "" && t.symbol != "AAPL") then row == PreviewRow(Unresolved, t, [])
    else if Known(events, earlier, t) then
      forall p :: Prior(events, earlier, p, t) ==>
        row == if SameData(p, t) then PreviewRow(Duplicate, p, [])
               else PreviewRow(Error, t, [FieldError("source_event_conflict", "source_event_id")])
    else if t.kind.CashVoid? && !MayCorrect(events, earlier, t) then
      row == PreviewRow(Error, t, [FieldError("invalid_correction", "corrects_source_event_id")])
    else row == PreviewRow(New, t, [])
  }

  /******* The maps of the loop *******/

  /** What `seen` and `seenCorrectionTargets` hold. */
  ghost predicate Tracks(events: seq<Row>, scan: RowScan) {
    && (forall p :: ReadAs(scan.rows, p) ==> SeenAs(scan, p))
    && (forall k :: k in scan.seen ==> SourceKey(scan.seen[k]) == k && ReadAs(scan.rows, scan.seen[k]))
    && (forall p :: StoredAs(events, p) && SourceKey(p) in scan.seen ==> SeenAs(scan, p))
    && (forall t :: TargetKey(t) in scan.targets <==> ClaimedBefore(scan.rows, t))
  }

  predicate SeenAs(scan: RowScan, p: Transaction) {
    SourceKey(p) in scan.seen && scan.seen[SourceKey(p)] == p
  }

  lemma StoredIs(events: seq<Row>, p: Transaction)
    requires UniqueSources(events) && StoredAs(events, p)
    ensures FindBySource(events, p.accountId, p.sourceEventId).Some? && FindBySource(events, p.accountId, p.sourceEventId).value.tx == p
  {
    var i :| 0 <= i < |events| && events[i].tx == p;
    FindUnique(events, i);
    hide FindBySource, UniqueSources;
  }

  lemma FoundIsStored(events: seq<Row>, account: string, source: string)
    requires FindBySource(events, account, source).Some?
    ensures StoredAs(events, FindBySource(events, account, source).value.tx)
  {
    var found := FindBySource(events, account, source).value;
    var i :| 0 <= i < |events| && events[i] == found;
    hide FindBySource;
  }

  /** The prior the loop compares a row with is the only one there is. */
  lemma OnePrior(events: seq<Row>, scan: RowScan, t: Transaction, p: Transaction)
    requires UniqueSources(events) && Tracks(events, scan) && Prior(events, scan.rows, p, t)
    ensures SourceKey(t) in scan.seen ==> scan.seen[SourceKey(t)] == p
    ensures SourceKey(t) !in scan.seen ==>
      var stored := FindBySource(events, t.accountId, t.sourceEventId); stored.Some? && stored.value.tx == p
  {
    hide FindBySource, UniqueSources, StoredAs, ReadAs;
    if StoredAs(events, p) {
      StoredIs(events, p);
    }
  }

  lemma KnownIs(events: seq<Row>, scan: RowScan, t: Transaction)
    requires UniqueSources(events) && Tracks(events, scan)
    ensures Known(events, scan.rows, t) <==> SourceKey(t) in scan.seen || FindBySource(events, t.accountId, t.sourceEventId).Some?
  {
    hide FindBySource, UniqueSources, StoredAs, ReadAs;
    if p :| Prior(events, scan.rows, p, t) {
      OnePrior(events, scan, t, p);
    }
    if SourceKey(t) in scan.seen {
      assert Prior(events, scan.rows, scan.seen[SourceKey(t)], t);
    } else if FindBySource(events, t.accountId, t.sourceEventId).Some? {
      FoundIsStored(events, t.accountId, t.sourceEventId);
      FoundKey(events, t.accountId, t.sourceEventId);
      assert Prior(events, scan.rows, FindBySource(events, t.accountId, t.sourceEventId).value.tx, t);
    }
  }

  lemma FoundKey(events: seq<Row>, account: string, source: string)
    requires FindBySource(events, account, source).Some?
    ensures var p := FindBySource(events, account, source).value.tx; p.accountId == account && p.sourceEventId == source
  {}

  lemma SameIs(a: Transaction, b: Transaction)
    ensures SameTransaction(a, b) <==> SameData(b, a)
  {}

  lemma MayCorrectIs(events: seq<Row>, scan: RowScan, t: Transaction)
    requires UniqueSources(events) && Tracks(events, scan)
    ensures MayCorrect(events, scan.rows, t) <==> ValidCashVoid(events, t, true) && TargetKey(t) !in scan.targets
  {
    hide UniqueSources, Reverses, Undoes, ReadAs, StoredAs, ClaimedBefore, SeenAs;
    var found := FindBySource(events, t.accountId, t.corrects);
    if i :| 0 <= i < |events| && Undoes(events[i].tx, t) {
      UndoesIs(events[i].tx, t);
      FindUnique(events, i);
    }
    if found.Some? && Reverses(found.value.tx, t) {
      var i :| 0 <= i < |events| && events[i] == found.value;
      UndoesIs(events[i].tx, t);
    }
    hide FindBySource;
  }

  /** One row against the rows before it. */
  lemma RowAnswers(events: seq<Row>, scan: RowScan, id: Id, record: Transaction)
    requires UniqueSources(events) && Tracks(events, scan)
    ensures Answer(events, scan.rows, Normalize(id, record), RowOf(events, scan, id, record))
  {
    hide Normalize, FindBySource, UniqueSources, ValidCashVoid, MayCorrect, Known, Prior, Tracks, SameData, SameTransaction;
    var n := Normalize(id, record);
    if n.errors == [] {
      var t := n.tx;
      KnownIs(events, scan, t);
      MayCorrectIs(events, scan, t);
      forall p | Prior(events, scan.rows, p, t)
        ensures SourceKey(t) in scan.seen ==> scan.seen[SourceKey(t)] == p
        ensures SourceKey(t) !in scan.seen ==>
          var stored := FindBySource(events, t.accountId, t.sourceEventId); stored.Some? && stored.value.tx == p
        ensures SameTransaction(t, p) <==> SameData(p, t)
      {
        OnePrior(events, scan, t, p);
        SameIs(t, p);
      }
      hide TargetKey, SourceKey;
    }
  }

  /** A remembered row is what its key is remembered as, before and after. */
  lemma Remembered(events: seq<Row>, scan: RowScan, n: Normalized, row: PreviewRow)
    requires UniqueSources(events) && Tracks(events, scan) && Answer(events, scan.rows, n, row)
    requires row.status.New? || row.status.Duplicate?
    ensures SourceKey(row.tx) in scan.seen ==> scan.seen[SourceKey(row.tx)] == row.tx
    ensures forall p :: StoredAs(events, p) && SourceKey(p) == SourceKey(row.tx) ==> p == row.tx
  {
    hide UniqueSources, MayCorrect, Tracks, StoredAs, ReadAs, SameData, FindBySource;
    var t := n.tx;
    KnownIs(events, scan, t);
    if p :| Prior(events, scan.rows, p, t) {
      OnePrior(events, scan, t, p);
    }
    forall p | StoredAs(events, p) && SourceKey(p) == SourceKey(row.tx)
      ensures p == row.tx
    {
      assert Prior(events, scan.rows, p, t);
      OnePrior(events, scan, t, p);
    }
  }

  lemma ReadNext(rows: seq<PreviewRow>, row: PreviewRow, p: Transaction)
    ensures ReadAs(rows + [row], p) <==> ReadAs(rows, p) || (p == row.tx && (row.status.New? || row.status.Duplicate?))
  {
    if j :| 0 <= j < |rows| && rows[j].tx == p && (rows[j].status.New? || rows[j].status.Duplicate?) {
      assert (rows + [row])[j] == rows[j];
    }
    assert (rows + [row])[|rows|] == row;
  }

  lemma ClaimedNext(rows: seq<PreviewRow>, row: PreviewRow, t: Transaction)
    ensures ClaimedBefore(rows + [row], t) <==>
      ClaimedBefore(rows, t) || (row.status.New? && row.tx.kind.CashVoid? && TargetKey(row.tx) == TargetKey(t))
  {
    if j :| 0 <= j < |rows| && Claims(rows[j], t) {
      assert (rows + [row])[j] == rows[j];
    }
    assert (rows + [row])[|rows|] == row;
  }

  lemma ExtendTracks(events: seq<Row>, scan: RowScan, n: Normalized, row: PreviewRow)
    requires UniqueSources(events) && Tracks(events, scan) && Answer(events, scan.rows, n, row)
    ensures Tracks(events, Extend(scan, row))
  {
    hide UniqueSources, Answer, StoredAs, ReadAs, ClaimedBefore;
    var next := Extend(scan, row);
    if row.status.New? || row.status.Duplicate? {
      Remembered(events, scan, n, row);
    }
    hide SourceKey, TargetKey;
    forall p
      ensures ReadAs(next.rows, p) <==> ReadAs(scan.rows, p) || (p == row.tx && (row.status.New? || row.status.Duplicate?))
    {
      ReadNext(scan.rows, row, p);
    }
    forall t
      ensures ClaimedBefore(next.rows, t) <==>
        ClaimedBefore(scan.rows, t) || (row.status.New? && row.tx.kind.CashVoid? && TargetKey(row.tx) == TargetKey(t))
    {
      ClaimedNext(scan.rows, row, t);
    }
  }

  lemma {:induction false} ScanTracks(events: seq<Row>, ids: seq<Id>, records: seq<Transaction>)
    requires |ids| == |records| && UniqueSources(events)
    ensures Tracks(events, ScanAll(events, ids, records))
  {
    hide UniqueSources, Answer, RowOf, Extend, Normalize;
    if records != [] {
      hide Tracks;
      var n := |records| - 1;
      ScanTracks(events, ids[..n], records[..n]);
      var scan := ScanAll(events, ids[..n], records[..n]);
      RowAnswers(events, scan, ids[n], records[n]);
      ExtendTracks(events, scan, Normalize(ids[n], records[n]), RowOf(events, scan, ids[n], records[n]));
    }
  }

  /** Every row of a file: an error exactly when it does not normalize; unresolved exactly
      when its account or symbol is unknown; a duplicate exactly when its source id was
      used for the same data, and a conflict when for other data; a bad correction exactly
      when it may not correct; and new otherwise. */
  lemma RowExactly(events: seq<Row>, ids: seq<Id>, records: seq<Transaction>, i: nat)
    requires |ids| == |records| && i < |records| && UniqueSources(events)
    ensures var rows, n := ScanAll(events, ids, records).rows, Normalize(ids[i], records[i]);
      && (n.errors == [] <==> ParseUtc(records[i].occurredAt).Some? && Fits(records[i]))
      && Answer(events, rows[..i], n, rows[i])
  {
    hide UniqueSources, Answer, RowOf, Normalize, Fits, ScanAll, Tracks, ParseUtc;
    NormalizeAccepts(ids[i], records[i]);
    ScanTracks(events, ids[..i], records[..i]);
    ScanNext(events, ids, records, i);
    ScanPrefix(events, ids, records, i);
    ScanPrefix(events, ids, records, i + 1);
    RowAnswers(events, ScanAll(events, ids[..i], records[..i]), ids[i], records[i]);
    assert ScanAll(events, ids, records).rows[..i + 1][i] == ScanAll(events, ids, records).rows[i];
  }

  /** A row that reuses a source id is a duplicate exactly when it repeats the data, and
      otherwise an error, whatever else it says. */
  lemma DuplicateOrConflict(events: seq<Row>, ids: seq<Id>, records: seq<Transaction>, i: nat, p: Transaction)
    requires |ids| == |records| && i < |records| && UniqueSources(events)
    requires var t := Normalize(ids[i], records[i]).tx;
      && Normalize(ids[i], records[i]).errors == [] && t.accountId == "account-main" && (t.symbol == "" || t.symbol == "AAPL")
      && Prior(events, ScanAll(events, ids, records).rows[..i], p, t)
    ensures var t, row := Normalize(ids[i], records[i]).tx, ScanAll(events, ids, records).rows[i];
      && (row.status.Duplicate? <==> SameData(p, t))
      && (row.status.Duplicate? ==> row.tx == p)
      && (!SameData(p, t) ==> row.status.Error? && row.errors == [FieldError("source_event_conflict", "source_event_id")])
  {
    hide UniqueSources, Normalize, ScanAll, Prior, SameData, MayCorrect;
    RowExactly(events, ids, records, i);
    assert Known(events, ScanAll(events, ids, records).rows[..i], Normalize(ids[i], records[i]).tx);
  }
}
