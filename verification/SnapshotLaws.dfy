/** What a ledger snapshot shows, read back from its texts
    (services/core/core.go:1731-1903).
  */
module SnapshotLaws {
  import opened Results
  import opened Exact
  import opened DecimalText
  import opened UtcText
  import opened LedgerTable
  import opened Sums
  import opened Fifo
  import opened FifoLaws
  import opened FifoOrder
  import opened LedgerReplay

  /******* Texts and their values *******/

  ghost predicate Reads(text: string, x: real) {
    ParseDecimal(text).Some? && Num(text) == x
  }

  lemma DecimalReads(x: real)
    requires Finite(x)
    ensures Reads(DecimalOf(x), x)
  {
    var k := ScaleOf(x);
    var m :| x == Dec(m, k);
    var r := Ratio(m, Pow10(k));
    FormatIsDecimalOf(r);
    ParseOfFormat(r);
    hide FormatDecimal, ParseDecimal, Finite, DecimalOf;
  }

  /** The value of a text in a map, zero when there is none. */
  ghost function Shown(texts: map<string, string>, c: string): real {
    if c in texts then Num(texts[c]) else 0.0
  }

  lemma TextsRead(m: map<string, real>, c: string)
    requires AllFinite(m)
    ensures Shown(TextsOf(m), c) == Get(m, c) && (c in TextsOf(m) ==> Reads(TextsOf(m)[c], Get(m, c)))
  {
    if c in m {
      DecimalReads(m[c]);
    }
    hide Finite, DecimalOf, Num;
  }

  /******* Money *******/

  ghost function HoldingCosts(s: Snapshot, c: string): map<string, real> {
    map k | k in s.holdings && s.holdings[k].currency == c :: Num(s.holdings[k].costBasis)
  }

  lemma SnapshotBook(policy: Policy, revision: int, recordedAt: string, rows: seq<Row>)
    requires RowsSnapshot(policy, revision, recordedAt, rows).Some?
    ensures Replay(rows).Some? && Renderable(Replay(rows).value)
    ensures RowsSnapshot(policy, revision, recordedAt, rows).value == Rendered(policy, revision, recordedAt, rows, Replay(rows).value)
  {
    hide Replay, CanonicalUtc, Renderable, Rendered;
  }

  /** The cash shown for a currency is the sum of its cash flows, and shown exactly when
      some event names the currency. */
  lemma CashShown(policy: Policy, revision: int, recordedAt: string, rows: seq<Row>, c: string)
    requires RowsSnapshot(policy, revision, recordedAt, rows).Some?
    ensures var s := RowsSnapshot(policy, revision, recordedAt, rows).value;
      (c in s.cash <==> c in Currencies(rows)) && (c in s.cash ==> Reads(s.cash[c], Sum(rows, Cash(c))))
  {
    SnapshotBook(policy, revision, recordedAt, rows);
    CashIsSum(rows, c);
    TextsRead(Replay(rows).value.cash, c);
    hide Replay, RowsSnapshot, Sum, Currencies, Reads, TextsOf, Clock, HoldingsOf, EventIds, ReceiptIds;
    TextKeys(Replay(rows).value.cash);
  }

  lemma TextKeys(m: map<string, real>)
    requires AllFinite(m)
    ensures TextsOf(m).Keys == m.Keys
  {
    hide Finite, DecimalOf;
  }

  lemma {:induction false} NoUnitsNoCost(lots: seq<Lot>)
    requires SoundLots(lots)
    ensures LotUnits(lots) == 0.0 <==> lots == []
    ensures LotUnits(lots) == 0.0 ==> LotCost(lots) == 0.0
  {
    UnitsNonNegative(lots);
    NoLots();
  }

  /** Positions not shown hold nothing: the costs shown add up to the cost of all lots. */
  lemma CostsShown(book: Book, holdings: map<string, Holding>, c: string)
    requires SoundBook(book) && AllHeldFinite(book.positions) && holdings == HoldingsOf(book.positions)
    ensures Total(map k | k in holdings && holdings[k].currency == c :: Num(holdings[k].costBasis)) == OpenCost(book, c)
  {
    hide Finite, LotUnits, LotCost, Total, DecimalOf, Num, SoundLots;
    var shown := map k | k in holdings && holdings[k].currency == c :: Num(holdings[k].costBasis);
    var all := OpenCosts(book, c);
    forall k | k in all
      ensures k !in shown ==> all[k] == 0.0
      ensures k in shown ==> shown[k] == all[k]
    {
      NoUnitsNoCost(book.positions[k].lots);
      if k in shown {
        DecimalReads(LotCost(book.positions[k].lots));
      }
    }
    ZerosDropped(shown, all);
  }

  /** Leaving out zeros does not change a total. */
  lemma {:induction false} ZerosDropped(part: map<string, real>, whole: map<string, real>)
    requires forall k :: k in part ==> k in whole && whole[k] == part[k]
    requires forall k :: k in whole && k !in part ==> whole[k] == 0.0
    ensures Total(part) == Total(whole)
    decreases |whole|
  {
    if k :| k in whole {
      TotalRemove(whole, k);
      assert (whole - {k}).Keys == whole.Keys - {k};
      if k in part {
        TotalRemove(part, k);
        ZerosDropped(part - {k}, whole - {k});
      } else {
        ZerosDropped(part, whole - {k});
      }
    } else {
      assert part == map[] && whole == map[];
    }
  }

  /** The texts of a snapshot balance: cash plus the cost of the holdings less realised
      PnL is what came in from outside. */
  lemma SnapshotBalances(policy: Policy, revision: int, recordedAt: string, rows: seq<Row>, c: string)
    requires AllChecked(rows) && RowsSnapshot(policy, revision, recordedAt, rows).Some?
    ensures var s := RowsSnapshot(policy, revision, recordedAt, rows).value;
      Shown(s.cash, c) + Total(HoldingCosts(s, c)) - Shown(s.realized, c) == Sum(rows, NonTrade(c))
  {
    SnapshotBook(policy, revision, recordedAt, rows);
    ReplaySound(rows);
    Conservation(rows, c);
    var book := Replay(rows).value;
    TextsRead(book.cash, c);
    TextsRead(book.realized, c);
    hide Replay, RowsSnapshot, Sum, Reads, TextsOf, Clock, EventIds, ReceiptIds, HoldingsOf, Total, OpenCost, AllChecked, SoundBook, Shown,
      AllCanonical;
    CostsShown(book, HoldingsOf(book.positions), c);
  }

  /******* Holdings *******/

  /** Units bought and not sold, counted in today's units. */
  ghost function Left(rows: seq<Row>, key: string): real {
    UnitsOf(Purchases(rows, key)) - FifoOrder.Sold(rows, key)
  }

  /** A position is shown exactly when units are left, with that quantity; its cost is what
      its lots cost. */
  lemma HoldingShown(policy: Policy, revision: int, recordedAt: string, rows: seq<Row>, key: string)
    requires AllChecked(rows) && RowsSnapshot(policy, revision, recordedAt, rows).Some?
    ensures var s := RowsSnapshot(policy, revision, recordedAt, rows).value;
      && Left(rows, key) >= 0.0 && (key in s.holdings <==> Left(rows, key) > 0.0)
      && (key in s.holdings ==> Reads(s.holdings[key].quantity, Left(rows, key)))
  {
    hide RowsSnapshot, Rendered, Replay, AllChecked, LotsAt, FirstInFirstOut, Purchases, FifoOrder.Sold, UnitsOf, SoundBook, Reads,
      Clock, TextsOf;
    SnapshotBook(policy, revision, recordedAt, rows);
    ReplaySound(rows);
    var k := OldestSoldFirst(rows, key);
    var book := Replay(rows).value;
    UnitsLeft(LotsAt(book, key), Purchases(rows, key), FifoOrder.Sold(rows, key), k);
    HeldShown(book, key);
    RenderedHoldings(policy, revision, recordedAt, rows, book);
  }

  lemma RenderedHoldings(policy: Policy, revision: int, recordedAt: string, rows: seq<Row>, book: Book)
    requires Renderable(book)
    ensures Rendered(policy, revision, recordedAt, rows, book).holdings == HoldingsOf(book.positions)
  {
    hide HoldingsOf, TextsOf, Clock, EventIds, ReceiptIds, AllFinite, AllHeldFinite;
  }

  lemma HeldShown(book: Book, key: string)
    requires SoundBook(book) && AllHeldFinite(book.positions)
    ensures var holdings, units := HoldingsOf(book.positions), LotUnits(LotsAt(book, key));
      && units >= 0.0 && (key in holdings <==> units > 0.0)
      && (key in holdings ==> Reads(holdings[key].quantity, units))
  {
    hide Finite, DecimalOf, Reads, SoundLots;
    NoLots();
    UnitsNonNegative(LotsAt(book, key));
    if key in HoldingsOf(book.positions) {
      DecimalReads(LotUnits(book.positions[key].lots));
    }
    hide LotUnits, LotCost;
  }

  /** The trade that opened a position. */
  predicate OpenedBy(rows: seq<Row>, key: string, i: nat) {
    i < |rows| && Touches(rows[i].tx, key) && forall j :: 0 <= j < i ==> !Touches(rows[j].tx, key)
  }

  predicate Names(t: Transaction, instrumentId: string, symbol: string, currency: string) {
    t.instrumentId == instrumentId && t.symbol == symbol && t.currency == currency
  }

  /** A position is labelled by its first trade. */
  ghost predicate Labelled(rows: seq<Row>, key: string, instrumentId: string, symbol: string, currency: string) {
    exists i: nat :: OpenedBy(rows, key, i) && Names(rows[i].tx, instrumentId, symbol, currency)
  }

  ghost predicate AllLabelled(rows: seq<Row>, book: Book) {
    && (forall key :: key in book.positions ==>
      Labelled(rows, key, book.positions[key].instrumentId, book.positions[key].symbol, book.positions[key].currency))
    && (forall i :: 0 <= i < |rows| && IsTrade(rows[i].tx.kind) ==>
      PositionKey(rows[i].tx.instrumentId, rows[i].tx.currency) in book.positions)
  }

  lemma {:induction false} LabelsOf(rows: seq<Row>)
    requires Replay(rows).Some?
    ensures AllLabelled(rows, Replay(rows).value)
  {
    hide Step, Replay, PositionKey;
    if rows == [] {
      EmptyReplay();
    } else {
      LastStep(rows);
      LabelsOf(rows[..|rows| - 1]);
      NextLabels(rows, Replay(rows[..|rows| - 1]).value);
    }
  }

  lemma PositionsNext(book: Book, t: Transaction)
    requires Step(book, t).Some?
    ensures var after, key := Step(book, t).value, PositionKey(t.instrumentId, t.currency);
      && after.positions.Keys == book.positions.Keys + (if IsTrade(t.kind) then {key} else {})
      && (forall k :: k in book.positions ==> after.positions[k] == book.positions[k].(lots := after.positions[k].lots))
      && (IsTrade(t.kind) && key !in book.positions ==>
        after.positions[key] == Position(t.instrumentId, t.symbol, t.currency, after.positions[key].lots))
  {
    hide Number, PositionKey, CanonicalUtc, SellFrom, SplitLots, Plus, BuyCost;
  }

  lemma LabelStays(rows: seq<Row>, key: string, instrumentId: string, symbol: string, currency: string)
    requires rows != [] && Labelled(rows[..|rows| - 1], key, instrumentId, symbol, currency)
    ensures Labelled(rows, key, instrumentId, symbol, currency)
  {
    hide Touches;
    var front := rows[..|rows| - 1];
    var i: nat :| OpenedBy(front, key, i) && Names(front[i].tx, instrumentId, symbol, currency);
    assert forall j :: 0 <= j <= i ==> front[j] == rows[j];
    assert OpenedBy(rows, key, i);
  }

  /** A trade of a position not met before opens it. */
  lemma LabelStarts(rows: seq<Row>, book: Book)
    requires rows != [] && AllLabelled(rows[..|rows| - 1], book) && IsTrade(rows[|rows| - 1].tx.kind)
    requires PositionKey(rows[|rows| - 1].tx.instrumentId, rows[|rows| - 1].tx.currency) !in book.positions
    ensures var t := rows[|rows| - 1].tx; Labelled(rows, PositionKey(t.instrumentId, t.currency), t.instrumentId, t.symbol, t.currency)
  {
    hide PositionKey, Labelled, IsTrade;
    var n, t := |rows| - 1, rows[|rows| - 1].tx;
    var key := PositionKey(t.instrumentId, t.currency);
    assert forall j :: 0 <= j < n ==> rows[..n][j] == rows[j];
    assert OpenedBy(rows, key, n);
    OpenerLabels(rows, key, n);
  }

  lemma OpenerLabels(rows: seq<Row>, key: string, i: nat)
    requires OpenedBy(rows, key, i)
    ensures Labelled(rows, key, rows[i].tx.instrumentId, rows[i].tx.symbol, rows[i].tx.currency)
  {
    hide Touches;
  }

  lemma NextLabels(rows: seq<Row>, book: Book)
    requires rows != [] && AllLabelled(rows[..|rows| - 1], book) && Step(book, rows[|rows| - 1].tx).Some?
    ensures AllLabelled(rows, Step(book, rows[|rows| - 1].tx).value)
  {
    hide Step, PositionKey, Labelled, IsTrade;
    var n, t := |rows| - 1, rows[|rows| - 1].tx;
    PositionsNext(book, t);
    var after := Step(book, t).value;
    forall key | key in after.positions
      ensures Labelled(rows, key, after.positions[key].instrumentId, after.positions[key].symbol, after.positions[key].currency)
    {
      if key in book.positions {
        LabelStays(rows, key, book.positions[key].instrumentId, book.positions[key].symbol, book.positions[key].currency);
      } else {
        LabelStarts(rows, book);
      }
    }
    assert forall i :: 0 <= i < n ==> rows[..n][i] == rows[i];
  }

  /** A holding carries the names of the trade that opened its position. */
  lemma HoldingLabelled(policy: Policy, revision: int, recordedAt: string, rows: seq<Row>, key: string)
    requires RowsSnapshot(policy, revision, recordedAt, rows).Some?
    requires key in RowsSnapshot(policy, revision, recordedAt, rows).value.holdings
    ensures var h := RowsSnapshot(policy, revision, recordedAt, rows).value.holdings[key];
      Labelled(rows, key, h.instrumentId, h.symbol, h.currency)
  {
    SnapshotBook(policy, revision, recordedAt, rows);
    LabelsOf(rows);
    RenderedHoldings(policy, revision, recordedAt, rows, Replay(rows).value);
    hide RowsSnapshot, Rendered, Replay, Labelled, Renderable, PositionKey, LotUnits, LotCost, DecimalOf, HeldFinite;
  }

  /******* Lists and times *******/

  /** Each receipt once, in the order they are first met. */
  ghost predicate FirstMet(ids: seq<string>, rows: seq<Row>) {
    && (forall i, j :: 0 <= i < j < |ids| ==> ids[i] != ids[j])
    && (forall i :: 0 <= i < |rows| ==> rows[i].receiptId in ids)
    && (forall i :: 0 <= i < |ids| ==> Met(ids[..i], rows, ids[i]))
  }

  /** Some row brings in the receipt, and all rows before it carry earlier receipts. */
  ghost predicate Met(earlier: seq<string>, rows: seq<Row>, id: string) {
    exists k :: 0 <= k < |rows| && rows[k].receiptId == id && AllAmong(earlier, rows[..k])
  }

  predicate AllAmong(ids: seq<string>, rows: seq<Row>) {
    forall j :: 0 <= j < |rows| ==> rows[j].receiptId in ids
  }

  lemma MetLater(earlier: seq<string>, rows: seq<Row>, id: string, n: nat)
    requires n <= |rows| && Met(earlier, rows[..n], id)
    ensures Met(earlier, rows, id)
  {
    hide AllAmong;
    var k :| 0 <= k < n && rows[..n][k].receiptId == id && AllAmong(earlier, rows[..n][..k]);
    assert rows[..n][..k] == rows[..k] && rows[..n][k] == rows[k];
  }

  lemma SameReceipts(ids: seq<string>, rows: seq<Row>)
    requires rows != [] && FirstMet(ids, rows[..|rows| - 1]) && rows[|rows| - 1].receiptId in ids
    ensures FirstMet(ids, rows)
  {
    hide Met;
    var n := |rows| - 1;
    assert forall j :: 0 <= j < n ==> rows[..n][j] == rows[j];
    forall i | 0 <= i < |ids|
      ensures Met(ids[..i], rows, ids[i])
    {
      MetLater(ids[..i], rows, ids[i], n);
    }
  }

  lemma NewReceipt(ids: seq<string>, rows: seq<Row>)
    requires rows != [] && FirstMet(ids, rows[..|rows| - 1]) && rows[|rows| - 1].receiptId !in ids
    ensures FirstMet(ids + [rows[|rows| - 1].receiptId], rows)
  {
    hide Met;
    var n := |rows| - 1;
    var id := rows[n].receiptId;
    var all := ids + [id];
    assert forall j :: 0 <= j < n ==> rows[..n][j] == rows[j];
    assert all[|ids|] == id;
    forall i | 0 <= i < |all|
      ensures Met(all[..i], rows, all[i])
    {
      if i < |ids| {
        assert all[..i] == ids[..i];
        MetLater(ids[..i], rows, ids[i], n);
      } else {
        assert all[..i] == ids;
        MetNow(ids, rows, id);
      }
    }
  }

  lemma MetNow(ids: seq<string>, rows: seq<Row>, id: string)
    requires rows != [] && id == rows[|rows| - 1].receiptId && forall i :: 0 <= i < |rows| - 1 ==> rows[i].receiptId in ids
    ensures Met(ids, rows, id)
  {
    assert AllAmong(ids, rows[..|rows| - 1]);
  }

  lemma {:induction false} ReceiptsFirstMet(rows: seq<Row>)
    ensures FirstMet(ReceiptIds(rows), rows)
  {
    if rows != [] {
      hide FirstMet;
      var n := |rows| - 1;
      ReceiptsFirstMet(rows[..n]);
      if rows[n].receiptId in ReceiptIds(rows[..n]) {
        SameReceipts(ReceiptIds(rows[..n]), rows);
      } else {
        NewReceipt(ReceiptIds(rows[..n]), rows);
      }
    }
  }

  predicate NotAbove(rows: seq<Row>, asOf: string) {
    forall i :: 0 <= i < |rows| ==> !LexLess(asOf, rows[i].tx.occurredAt)
  }

  lemma NotAboveNext(rows: seq<Row>, before: string, asOf: string)
    requires rows != [] && NotAbove(rows[..|rows| - 1], before) && (before == asOf || LexLess(before, asOf))
    requires !LexLess(asOf, rows[|rows| - 1].tx.occurredAt)
    ensures NotAbove(rows, asOf)
  {
    hide LexLess;
    var n := |rows| - 1;
    forall i | 0 <= i < n
      ensures !LexLess(asOf, rows[i].tx.occurredAt)
    {
      assert rows[..n][i] == rows[i];
      if before != asOf {
        LexAbove(before, asOf, rows[i].tx.occurredAt);
      }
    }
  }

  /** The time shown: of the last row for the corrected policy; for the legacy policy the
      greatest text, and at least zeroTime. */
  lemma {:induction false} ClockIs(policy: Policy, rows: seq<Row>)
    ensures var asOf := Clock(policy, rows);
      && (asOf == ZERO_TIME || exists i :: 0 <= i < |rows| && rows[i].tx.occurredAt == asOf)
      && (policy == Corrected && rows != [] ==> asOf == rows[|rows| - 1].tx.occurredAt)
      && (policy == Legacy ==> !LexLess(asOf, ZERO_TIME) && NotAbove(rows, asOf))
  {
    hide LexLess, NotAbove;
    LexIrreflexive(ZERO_TIME);
    if rows == [] {
      NothingAbove(ZERO_TIME);
    } else {
      var n := |rows| - 1;
      ClockIs(policy, rows[..n]);
      assert forall i :: 0 <= i < n ==> rows[..n][i] == rows[i];
      var before, time := Clock(policy, rows[..n]), rows[n].tx.occurredAt;
      LexIrreflexive(time);
      if policy == Legacy {
        NotAboveNext(rows, before, Clock(policy, rows));
        if LexLess(before, time) {
          LexAbove(before, time, ZERO_TIME);
        }
      }
    }
  }

  lemma NothingAbove(asOf: string)
    ensures NotAbove([], asOf)
  {}

  /** What is not above a text is not above a greater one. */
  lemma LexAbove(a: string, b: string, c: string)
    requires LexLess(a, b) && !LexLess(a, c)
    ensures !LexLess(b, c)
  {
    if LexLess(b, c) {
      LexTransitive(a, b, c);
    }
    hide LexLess;
  }

  lemma RowsLists(policy: Policy, revision: int, recordedAt: string, rows: seq<Row>)
    requires RowsSnapshot(policy, revision, recordedAt, rows).Some?
    ensures var s := RowsSnapshot(policy, revision, recordedAt, rows).value;
      && s.revision == revision && s.policy == policy && s.recordedAt == recordedAt && s.asOf == Clock(policy, rows)
      && |s.eventIds| == |rows| && (forall i :: 0 <= i < |rows| ==> s.eventIds[i] == rows[i].tx.eventId)
      && FirstMet(s.receiptIds, rows)
  {
    hide Replay, CanonicalUtc, Renderable, FirstMet, Clock, TextsOf, HoldingsOf;
    ReceiptsFirstMet(rows);
  }

  /** The snapshot of a ledger through a revision (negative: all of it): its rows are the
      first ones stored, in reading order, under the time the last of them was recorded
      at; its lists and its clock are theirs. */
  lemma SnapshotLists(policy: Policy, events: seq<Row>, meta: Meta, through: int)
    requires Contiguous(events) && meta.revision == |events| && SnapshotOf(policy, events, meta, through).Some?
    ensures through <= |events|
    ensures var s := SnapshotOf(policy, events, meta, through).value;
      var n := if through < 0 then |events| else through;
      var rows := Ranked(policy, events[..n]);
      && RowsSnapshot(policy, n, s.recordedAt, rows) == Some(s) && |rows| == n
      && s.revision == n && s.policy == policy && s.asOf == Clock(policy, rows)
      && s.recordedAt == (if through < 0 then meta.recordedAt else if n == 0 then ZERO_TIME else events[n - 1].recordedAt)
      && |s.eventIds| == n && (forall i :: 0 <= i < n ==> s.eventIds[i] == rows[i].tx.eventId)
      && FirstMet(s.receiptIds, rows)
  {
    hide RowsSnapshot, Ranked, FirstMet, Clock, RecordedAt, Through, Contiguous;
    var n := if through < 0 then |events| else through;
    ThroughIsPrefix(events, n);
    assert events[..|events|] == events;
    if through >= 0 {
      RecordedAtIs(events, n);
    }
    var recordedAt := if through < 0 then meta.recordedAt else if n == 0 then ZERO_TIME else events[n - 1].recordedAt;
    RowsLists(policy, n, recordedAt, Ranked(policy, events[..n]));
    RankedContents(policy, events[..n]);
    assert |multiset(Ranked(policy, events[..n]))| == n;
  }
}
