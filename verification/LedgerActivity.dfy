/** Ledger activity pages: ledgerActivities (services/core/ledger_activity.go:171-270).

    A page lists stored rows; the public view of a row is a projection of it. Cursors
    are passed in the clear.
  */
module LedgerActivity {
  import opened Results
  import opened Exact
  import opened UtcText
  import opened LedgerTable
  import opened FifoLaws
  import opened CashVoids
  import opened LedgerDb
  import opened LedgerInvariants
  import opened LedgerService
  import opened LedgerLaws

  datatype Cursor = Cursor(revision: int, recordedAt: string, occurredAt: string, sequence: int)
  datatype Page = Page(revision: int, recordedAt: string, items: seq<Row>, next: Option<Cursor>)

  /******* The query *******/

  /** rtrim(occurred_at,'Z') < rtrim(?,'Z') OR (occurred_at = ? AND sequence < ?) */
  predicate Older(row: Row, c: Cursor) {
    LexLess(RTrimZ(row.tx.occurredAt), RTrimZ(c.occurredAt)) || (row.tx.occurredAt == c.occurredAt && row.sequence < c.sequence)
  }

  function Select(rows: seq<Row>, cursor: Option<Cursor>): seq<Row> {
    if cursor.None? || rows == [] then rows
    else
      var last := rows[|rows| - 1];
      Select(rows[..|rows| - 1], cursor) + if Older(last, cursor.value) then [last] else []
  }

  function Reverse(rows: seq<Row>): (r: seq<Row>)
    ensures |r| == |rows| && forall i :: 0 <= i < |r| ==> r[i] == rows[|rows| - 1 - i]
  {
    seq(|rows|, i requires 0 <= i < |rows| => rows[|rows| - 1 - i])
  }

  /** WHERE sequence <= revision [AND older than the cursor] ORDER BY time DESC, sequence DESC. */
  function Descending(events: seq<Row>, revision: int, cursor: Option<Cursor>): seq<Row> {
    Reverse(Ranked(Corrected, Select(Through(events, revision), cursor)))
  }

  function RowAt(events: seq<Row>, sequence: int): (r: Option<Row>)
    ensures r.Some? ==> r.value in events && r.value.sequence == sequence
  {
    if events == [] then None
    else if events[|events| - 1].sequence == sequence then Some(events[|events| - 1])
    else RowAt(events[..|events| - 1], sequence)
  }

  /** The cursor still names rows of this ledger. */
  predicate CursorMatches(events: seq<Row>, revision: int, c: Cursor) {
    var bound, last := RowAt(events, c.revision), RowAt(events, c.sequence);
    && c.revision <= revision
    && bound.Some? && bound.value.recordedAt == c.recordedAt
    && last.Some? && last.value.tx.occurredAt == c.occurredAt
  }

  function LastRecordedAt(events: seq<Row>): string {
    if events == [] then ZERO_TIME else events[|events| - 1].recordedAt
  }

  /** One page: at most `limit` of the rows left, and a cursor to go on with if more are. */
  function PageOf(revision: int, recordedAt: string, rows: seq<Row>, limit: nat): Page
    requires limit >= 1
  {
    if |rows| > limit then
      Page(revision, recordedAt, rows[..limit],
        Some(Cursor(revision, recordedAt, rows[limit - 1].tx.occurredAt, rows[limit - 1].sequence)))
    else Page(revision, recordedAt, rows, None)
  }

  function PageAt(events: seq<Row>, limit: nat, cursor: Option<Cursor>): Option<Page>
    requires limit >= 1
  {
    match cursor
    case None => Some(PageOf(|events|, LastRecordedAt(events), Descending(events, |events|, None), limit))
    case Some(c) =>
      if !CursorMatches(events, |events|, c) then None
      else Some(PageOf(c.revision, c.recordedAt, Descending(events, c.revision, cursor), limit))
  }

  /** ledgerActivities on a ledger its own proofs accept. */
  method LedgerActivities(db: Db, limit: nat, cursor: Option<Cursor>) returns (r: Result<Page>)
    requires Valid(db) && db.policy == Corrected && limit >= 1
    ensures r.Ok? <==> PageAt(db.events, limit, cursor).Some?
    ensures r.Ok? ==> r.value == PageAt(db.events, limit, cursor).value
  {
    hide Valid, ReplayStateProven, CurrentSnapshot, EventsProven, Descending, RowAt, TableFits, PageOf, UniqueSources,
      UniqueCorrections, TransitionProven, RevisionMatches;
    CommittedLedger(db);
    CorrectedProof(db);
    var state := ProveReplayState(db, false);
    if !state {
      return Err("ledger replay state");
    }
    var snapshot := Verify(db);
    if !snapshot {
      return Err("snapshot");
    }
    var proven := ProveLedgerEvents(db.events, db.meta);
    if proven.Err? {
      return Err("ledger events");
    }
    var revision, recordedAt := proven.value.0, proven.value.1;
    if cursor.Some? {
      var c := cursor.value;
      var bound, last := RowAt(db.events, c.revision), RowAt(db.events, c.sequence);
      if c.revision > revision || bound.None? || last.None? || c.recordedAt != bound.value.recordedAt
         || c.occurredAt != last.value.tx.occurredAt {
        return Err("invalid ledger activity cursor");
      }
      revision, recordedAt := c.revision, bound.value.recordedAt;
    }
    var page := BuildPage(revision, recordedAt, Descending(db.events, revision, cursor), limit);
    r := Ok(page);
  }

  /** The rows of LIMIT limit + 1 cut back to a page. */
  method BuildPage(revision: int, recordedAt: string, rows: seq<Row>, limit: nat) returns (page: Page)
    requires limit >= 1
    ensures page == PageOf(revision, recordedAt, rows, limit)
  {
    var items: seq<Row> := [];
    for i := 0 to if |rows| < limit + 1 then |rows| else limit + 1
      invariant items == rows[..i]
    {
      items := items + [rows[i]];
    }
    var next := None;
    if |items| > limit {
      var last := items[limit - 1];
      next := Some(Cursor(revision, recordedAt, last.tx.occurredAt, last.sequence));
      items := items[..limit];
    }
    page := Page(revision, recordedAt, items, next);
  }

  /******* A page is a slice of the whole listing *******/

  lemma {:induction false} SortedSameMembers(a: seq<Row>, b: seq<Row>)
    requires Sorted(Corrected, a) && Sorted(Corrected, b) && forall row :: row in a <==> row in b
    ensures a == b
  {
    hide Before;
    EmptyTogether(a, b);
    if a != [] {
      SameFirst(a, b);
      forall row
        ensures row in a[1..] <==> row in b[1..]
      {
        NotAgain(a, row);
        NotAgain(b, row);
      }
      SortedSameMembers(a[1..], b[1..]);
      assert a == [a[0]] + a[1..] && b == [b[0]] + b[1..];
    }
  }

  lemma EmptyTogether(a: seq<Row>, b: seq<Row>)
    requires forall row :: row in a <==> row in b
    ensures a == [] <==> b == []
  {
    if a != [] {
      assert a[0] in a;
    }
    if b != [] {
      assert b[0] in b;
    }
  }

  lemma SameFirst(a: seq<Row>, b: seq<Row>)
    requires Sorted(Corrected, a) && Sorted(Corrected, b) && a != [] && b != [] && forall row :: row in a <==> row in b
    ensures a[0] == b[0]
  {
    hide Before;
    assert a[0] in a && b[0] in b;
    var i :| 0 <= i < |b| && b[i] == a[0];
    var j :| 0 <= j < |a| && a[j] == b[0];
    if i > 0 && j > 0 {
      NotBothBefore(a[0], b[0]);
    }
  }

  lemma NotBothBefore(a: Row, b: Row)
    ensures !(Before(Corrected, a, b) && Before(Corrected, b, a))
  {
    LexTotal(SortKey(Corrected, a), SortKey(Corrected, b));
  }

  /** The first row of a sorted list is not met again. */
  lemma NotAgain(a: seq<Row>, row: Row)
    requires Sorted(Corrected, a) && a != []
    ensures row in a[1..] <==> row in a && row != a[0]
  {
    hide Before;
    if a[0] in a[1..] {
      var i :| 0 < i < |a| && a[i] == a[0];
      NotBothBefore(a[0], a[i]);
    }
    assert a == [a[0]] + a[1..];
  }

  /** The cursor's test is the sort order itself: canonical texts without their Z are
      equal only when the texts are. */
  lemma OlderIsBefore(row: Row, last: Row, c: Cursor)
    requires CanonicalUtc(row.tx.occurredAt) && CanonicalUtc(last.tx.occurredAt)
    requires c.occurredAt == last.tx.occurredAt && c.sequence == last.sequence
    ensures Older(row, c) <==> Before(Corrected, row, last)
  {
    TrimmedTextsSortByTime(row.tx.occurredAt, last.tx.occurredAt);
    hide CanonicalUtc, LexLess, RTrimZ;
  }

  lemma {:induction false} SelectMembers(rows: seq<Row>, cursor: Option<Cursor>)
    ensures forall row :: row in Select(rows, cursor) <==> row in rows && (cursor.None? || Older(row, cursor.value))
    ensures Distinct(rows) ==> Distinct(Select(rows, cursor))
  {
    hide Older;
    if cursor.Some? && rows != [] {
      SelectMembers(rows[..|rows| - 1], cursor);
      assert rows == rows[..|rows| - 1] + [rows[|rows| - 1]];
      if Distinct(rows) {
        var front, last := Select(rows[..|rows| - 1], cursor), rows[|rows| - 1];
        forall i | 0 <= i < |front|
          ensures front[i].sequence != last.sequence
        {
          assert front[i] in front;
        }
      }
    }
  }

  /** A page after the row at position m of the ascending listing is what stands
      before that row. */
  lemma SelectIsPrefix(rows: seq<Row>, m: nat, c: Cursor)
    requires Distinct(rows) && AllCanonical(rows) && m < |Ranked(Corrected, rows)|
    requires var last := Ranked(Corrected, rows)[m]; c.occurredAt == last.tx.occurredAt && c.sequence == last.sequence
    ensures Ranked(Corrected, Select(rows, Some(c))) == Ranked(Corrected, rows)[..m]
  {
    hide Ranked, Before, Older, CanonicalUtc, Select;
    var ranked, chosen := Ranked(Corrected, rows), Select(rows, Some(c));
    RankedIsOrdering(Corrected, rows);
    RankedMembers(Corrected, rows);
    SelectMembers(rows, Some(c));
    RankedIsOrdering(Corrected, chosen);
    RankedMembers(Corrected, chosen);
    forall row
      ensures row in Ranked(Corrected, chosen) <==> row in ranked[..m]
    {
      if row in rows {
        InCanonical(rows, row);
        InCanonical(rows, ranked[m]);
        OlderIsBefore(row, ranked[m], c);
        BeforePosition(ranked, row, m);
      }
    }
    SortedSameMembers(Ranked(Corrected, chosen), ranked[..m]);
  }

  lemma InCanonical(rows: seq<Row>, row: Row)
    requires AllCanonical(rows) && row in rows
    ensures CanonicalUtc(row.tx.occurredAt)
  {
    hide CanonicalUtc;
  }

  lemma BeforePosition(ranked: seq<Row>, row: Row, m: nat)
    requires Sorted(Corrected, ranked) && row in ranked && m < |ranked|
    ensures Before(Corrected, row, ranked[m]) <==> row in ranked[..m]
  {
    hide Before;
    var i :| 0 <= i < |ranked| && ranked[i] == row;
    if i >= m && row in ranked[..m] {
      var j :| 0 <= j < m && ranked[j] == row;
      NotBothBefore(row, ranked[j]);
    }
    if i >= m {
      NotBothBefore(row, ranked[m]);
    }
  }

  /** Everything up to a revision, newest first. */
  function Listing(events: seq<Row>): seq<Row> {
    Reverse(Ranked(Corrected, events))
  }

  /** The cursor a page leaves behind after k rows of a listing. */
  function CursorAfter(events: seq<Row>, k: nat): Cursor
    requires 0 < k <= |Listing(events)|
  {
    Cursor(|events|, LastRecordedAt(events), Listing(events)[k - 1].tx.occurredAt, Listing(events)[k - 1].sequence)
  }

  /** The page at position k of a listing, whatever has been appended since. */
  function Slice(events: seq<Row>, k: nat, limit: nat): Page
    requires limit >= 1 && k <= |Listing(events)|
  {
    var n := |Listing(events)|;
    Page(|events|, LastRecordedAt(events), Listing(events)[k..Min(k + limit, n)],
      if k + limit < n then Some(CursorAfter(events, k + limit)) else None)
  }

  lemma ListingLength(events: seq<Row>)
    requires TableFits(events)
    ensures |Listing(events)| == |events| && Distinct(events) && forall row :: row in Listing(events) <==> row in events
  {
    hide TableFits, Ranked;
    TableIsChecked(events);
    RankedIsOrdering(Corrected, events);
    RankedMembers(Corrected, events);
    var ranked := Ranked(Corrected, events);
    forall row
      ensures row in Listing(events) <==> row in ranked
    {
      if row in ranked {
        var i :| 0 <= i < |ranked| && ranked[i] == row;
        assert Listing(events)[|ranked| - 1 - i] == row;
      }
    }
  }

  lemma FirstPage(events: seq<Row>, limit: nat)
    requires TableFits(events) && limit >= 1
    ensures PageAt(events, limit, None) == Some(Slice(events, 0, limit))
  {
    hide TableFits, Ranked, Through;
    TableContiguous(events);
    ListingLength(events);
    var all := Listing(events);
    assert Descending(events, |events|, None) == all;
    assert all[0..|all|] == all && all[0..Min(limit, |all|)] == all[..Min(limit, |all|)];
  }

  /** The page a cursor asks for is the slice that follows, even after appends. */
  lemma NextPage(events: seq<Row>, later: seq<Row>, k: nat, limit: nat)
    requires TableFits(events) && AllCanonical(events) && TableFits(later) && events <= later && limit >= 1
    requires 0 < k <= |Listing(events)|
    ensures PageAt(later, limit, Some(CursorAfter(events, k))) == Some(Slice(events, k, limit))
  {
    hide TableFits, Ranked, Through, AllCanonical;
    ListingLength(events);
    var c := CursorAfter(events, k);
    CursorStillMatches(events, later, k);
    RestOfListing(events, later, k);
    SliceOfRest(events, k, limit);
    hide *;
    PageAtCursor(later, limit, c);
  }

  lemma PageAtCursor(events: seq<Row>, limit: nat, c: Cursor)
    requires limit >= 1 && CursorMatches(events, |events|, c)
    ensures PageAt(events, limit, Some(c)) == Some(PageOf(c.revision, c.recordedAt, Descending(events, c.revision, Some(c)), limit))
  {
    hide Descending, CursorMatches, PageOf;
  }

  lemma RestOfListing(events: seq<Row>, later: seq<Row>, k: nat)
    requires TableFits(events) && AllCanonical(events) && TableFits(later) && events <= later
    requires 0 < k <= |Listing(events)|
    ensures Descending(later, |events|, Some(CursorAfter(events, k))) == Listing(events)[k..]
  {
    hide TableFits, Ranked, Through, AllCanonical, Select;
    TableParts(events);
    TableParts(later);
    TableIsChecked(events);
    assert later == events + later[|events|..];
    ThroughOfAppended(events, later[|events|..], |events|);
    assert events[..|events|] == events;
    var ranked, c := Ranked(Corrected, events), CursorAfter(events, k);
    var m := |ranked| - k;
    SelectIsPrefix(events, m, c);
    assert Reverse(ranked[..m]) == Listing(events)[k..];
  }

  lemma CursorStillMatches(events: seq<Row>, later: seq<Row>, k: nat)
    requires TableFits(events) && TableFits(later) && events <= later && 0 < k <= |Listing(events)|
    ensures CursorMatches(later, |later|, CursorAfter(events, k)) && CursorAfter(events, k).recordedAt == LastRecordedAt(events)
  {
    hide TableFits, Listing;
    TableParts(later);
    ListingLength(events);
    var row := Listing(events)[k - 1];
    assert row in Listing(events);
    var i :| 0 <= i < |events| && events[i] == row;
    RowAtIs(later, i);
    RowAtIs(later, |events| - 1);
  }

  lemma {:induction false} RowAtIs(events: seq<Row>, i: nat)
    requires Contiguous(events) && i < |events|
    ensures RowAt(events, i + 1) == Some(events[i]) && events[i].sequence == i + 1
  {
    if i < |events| - 1 {
      RowAtIs(events[..|events| - 1], i);
    }
  }

  lemma SliceOfRest(events: seq<Row>, k: nat, limit: nat)
    requires 0 < k <= |Listing(events)| && limit >= 1
    ensures PageOf(|events|, LastRecordedAt(events), Listing(events)[k..], limit) == Slice(events, k, limit)
  {
    var all := Listing(events);
    hide Listing, LastRecordedAt;
    assert |all| - k > limit ==> all[k..][..limit] == all[k..k + limit];
    assert all[k..] == all[k..|all|];
  }

  /******* Following the cursors *******/

  /** What a reader who follows next_cursor has been shown, given the table at each
      request and the limit asked for. */
  function Walk(tables: seq<seq<Row>>, limits: seq<nat>, cursor: Option<Cursor>): (shown: Option<seq<Row>>)
    requires |tables| == |limits| && forall i :: 0 <= i < |limits| ==> limits[i] >= 1
    decreases |tables|
  {
    if tables == [] then Some([])
    else
      var page :- PageAt(tables[0], limits[0], cursor);
      if page.next.None? then Some(page.items)
      else
        var rest :- Walk(tables[1..], limits[1..], page.next);
        Some(page.items + rest)
  }

  function LimitTotal(limits: seq<nat>): nat {
    if limits == [] then 0 else limits[0] + LimitTotal(limits[1..])
  }

  /** The tables a reader can meet: each a ledger that extends the first page's. */
  ghost predicate Extensions(events: seq<Row>, tables: seq<seq<Row>>) {
    forall i :: 0 <= i < |tables| ==> events <= tables[i] && TableFits(tables[i])
  }

  lemma {:induction false} WalkFrom(events: seq<Row>, k: nat, tables: seq<seq<Row>>, limits: seq<nat>)
    requires TableFits(events) && AllCanonical(events) && Extensions(events, tables) && 0 < k <= |Listing(events)|
    requires |tables| == |limits| && forall i :: 0 <= i < |limits| ==> limits[i] >= 1
    ensures Walk(tables, limits, Some(CursorAfter(events, k))) == Some(Listing(events)[k..Min(k + LimitTotal(limits), |Listing(events)|)])
    decreases |tables|
  {
    hide TableFits, AllCanonical, Listing, PageAt, Extensions;
    var all := Listing(events);
    if tables == [] {
      assert all[k..k] == [];
    } else {
      FewerExtensions(events, tables);
      NextPage(events, tables[0], k, limits[0]);
      if k + limits[0] < |all| {
        WalkFrom(events, k + limits[0], tables[1..], limits[1..]);
        var j := Min(k + LimitTotal(limits), |all|);
        assert all[k..k + limits[0]] + all[k + limits[0]..j] == all[k..j];
      }
    }
  }

  lemma SlicesJoin(all: seq<Row>, i: nat, j: nat, k: nat)
    requires i <= j <= k <= |all|
    ensures all[i..j] + all[j..k] == all[i..k] && all[0..k] == all[..k]
  {}

  /** Following next_cursor from the first page, with any limits and with events
      appended between the pages, shows the ledger of the first page: its rows newest
      first, each exactly once, as far as the limits reach. */
  lemma PagesListLedger(events: seq<Row>, tables: seq<seq<Row>>, limits: seq<nat>)
    requires TableFits(events) && AllCanonical(events) && Extensions(events, tables) && tables != [] && tables[0] == events
    requires |tables| == |limits| && forall i :: 0 <= i < |limits| ==> limits[i] >= 1
    ensures |Listing(events)| == |events| && Sorted(Corrected, Ranked(Corrected, events))
    ensures forall row :: row in Listing(events) <==> row in events
    ensures Walk(tables, limits, None) == Some(Listing(events)[..Min(LimitTotal(limits), |events|)])
  {
    hide *;
    ListingLength(events);
    RankedIsOrdering(Corrected, events);
    WalkAll(events, tables, limits);
  }

  lemma WalkAll(events: seq<Row>, tables: seq<seq<Row>>, limits: seq<nat>)
    requires TableFits(events) && AllCanonical(events) && Extensions(events, tables) && tables != [] && tables[0] == events
    requires |tables| == |limits| && forall i :: 0 <= i < |limits| ==> limits[i] >= 1
    ensures Walk(tables, limits, None) == Some(Listing(events)[..Min(LimitTotal(limits), |Listing(events)|)])
  {
    hide TableFits, AllCanonical, Listing, PageAt, Extensions;
    FirstPage(events, limits[0]);
    FewerExtensions(events, tables);
    var all := Listing(events);
    if limits[0] < |all| {
      WalkFrom(events, limits[0], tables[1..], limits[1..]);
      SlicesJoin(all, 0, limits[0], Min(LimitTotal(limits), |all|));
    } else {
      assert all[0..|all|] == all[..|all|];
    }
  }

  lemma FewerExtensions(events: seq<Row>, tables: seq<seq<Row>>)
    requires Extensions(events, tables) && tables != []
    ensures Extensions(events, tables[1..]) && events <= tables[0] && TableFits(tables[0])
  {
    hide TableFits;
  }

  /** The listing runs strictly backwards in (time, sequence). */
  lemma ListingByTime(events: seq<Row>, i: nat, j: nat)
    requires TableFits(events) && AllCanonical(events) && i < j < |Listing(events)|
    ensures var a, b := Listing(events)[i], Listing(events)[j];
      && CanonicalUtc(a.tx.occurredAt) && CanonicalUtc(b.tx.occurredAt)
      && (TimeOf(b.tx.occurredAt) < TimeOf(a.tx.occurredAt)
        || (TimeOf(b.tx.occurredAt) == TimeOf(a.tx.occurredAt) && b.sequence < a.sequence))
  {
    hide TableFits, AllCanonical, CanonicalUtc, Ranked, LexLess, RTrimZ, TimeOf;
    ListingLength(events);
    RankedIsOrdering(Corrected, events);
    var a, b := Listing(events)[i], Listing(events)[j];
    assert a in Listing(events) && b in Listing(events);
    InCanonical(events, a);
    InCanonical(events, b);
    TrimmedTextsSortByTime(b.tx.occurredAt, a.tx.occurredAt);
  }

  /******* Any cursor *******/

  /** The cursor names a revision by its time and a row by its own. */
  predicate Names(events: seq<Row>, c: Cursor) {
    && 1 <= c.revision <= |events| && events[c.revision - 1].recordedAt == c.recordedAt
    && 1 <= c.sequence <= |events| && events[c.sequence - 1].tx.occurredAt == c.occurredAt
  }

  /** The page holds rows of the revision older than the cursor, newest first, and leaves
      out only rows older still, which a next cursor then stands for. */
  ghost predicate ListsOlder(events: seq<Row>, c: Cursor, limit: nat, page: Page)
    requires 0 <= c.revision <= |events|
  {
    && page.revision == c.revision && page.recordedAt == c.recordedAt && |page.items| <= limit
    && (forall row :: row in page.items ==> row in events[..c.revision] && Older(row, c))
    && (forall i, j :: 0 <= i < j < |page.items| ==> Before(Corrected, page.items[j], page.items[i]))
    && (forall row :: row in events[..c.revision] && Older(row, c) && row !in page.items ==> LeftOut(page, row))
    && (page.next.Some? ==> |page.items| == limit && GoesOnFrom(page))
  }

  /** The next cursor stands on the last row of the page. */
  predicate GoesOnFrom(page: Page)
    requires page.next.Some?
  {
    && page.items != []
    && (var last := page.items[|page.items| - 1];
        page.next.value == Cursor(page.revision, page.recordedAt, last.tx.occurredAt, last.sequence))
  }

  ghost predicate LeftOut(page: Page, row: Row) {
    page.next.Some? && forall i :: 0 <= i < |page.items| ==> Before(Corrected, row, page.items[i])
  }

  lemma {:induction false} NoRowAt(events: seq<Row>, sequence: int)
    requires Contiguous(events)
    ensures RowAt(events, sequence) == if 1 <= sequence <= |events| then Some(events[sequence - 1]) else None
  {
    if events != [] {
      NoRowAt(events[..|events| - 1], sequence);
    }
  }

  /** A page is served exactly for the cursors that name something, and lists what is
      older. */
  lemma CursorExactly(events: seq<Row>, limit: nat, c: Cursor)
    requires TableFits(events) && limit >= 1
    ensures PageAt(events, limit, Some(c)).Some? <==> Names(events, c)
    ensures Names(events, c) ==> ListsOlder(events, c, limit, PageAt(events, limit, Some(c)).value)
  {
    hide TableFits, Descending, RowAt, ListsOlder, PageOf;
    TableParts(events);
    NoRowAt(events, c.revision);
    NoRowAt(events, c.sequence);
    if Names(events, c) {
      PageLists(events, limit, c);
    }
  }

  lemma PageLists(events: seq<Row>, limit: nat, c: Cursor)
    requires TableFits(events) && limit >= 1 && 0 <= c.revision <= |events|
    ensures ListsOlder(events, c, limit, PageOf(c.revision, c.recordedAt, Descending(events, c.revision, Some(c)), limit))
  {
    hide TableFits, Older, Before;
    OlderListing(events, c);
    var rows := Descending(events, c.revision, Some(c));
    var page := PageOf(c.revision, c.recordedAt, rows, limit);
    hide Descending, PageOf;
    assert page.items == rows[..Min(limit, |rows|)] && (page.next.Some? <==> |rows| > limit) by { PageItems(c, rows, limit); }
    forall row | row in rows && row !in page.items
      ensures LeftOut(page, row)
    {
      var i :| 0 <= i < |rows| && rows[i] == row;
      InPrefix(rows, |page.items|, i);
    }
    PageItems(c, rows, limit);
  }

  lemma InPrefix(rows: seq<Row>, n: nat, i: nat)
    requires i < |rows| && n <= |rows|
    ensures i < n ==> rows[i] in rows[..n]
  {
    if i < n {
      assert rows[..n][i] == rows[i];
    }
  }

  lemma PageItems(c: Cursor, rows: seq<Row>, limit: nat)
    requires limit >= 1
    ensures var page := PageOf(c.revision, c.recordedAt, rows, limit);
      && page.revision == c.revision && page.recordedAt == c.recordedAt && page.items == rows[..Min(limit, |rows|)]
      && (page.next.Some? <==> |rows| > limit) && (page.next.Some? ==> GoesOnFrom(page))
  {
    assert rows[..|rows|] == rows;
  }

  /** The listing behind a cursor: exactly the older rows of its revision, newest first. */
  lemma OlderListing(events: seq<Row>, c: Cursor)
    requires TableFits(events) && 0 <= c.revision <= |events|
    ensures var rows := Descending(events, c.revision, Some(c));
      && (forall row :: row in rows <==> row in events[..c.revision] && Older(row, c))
      && (forall i, j :: 0 <= i < j < |rows| ==> Before(Corrected, rows[j], rows[i]))
  {
    hide TableFits, Older, Before, Ranked, Through, Select;
    TableParts(events);
    TableIsChecked(events);
    ThroughIsPrefix(events, c.revision);
    var base := events[..c.revision];
    SelectMembers(base, Some(c));
    var chosen := Select(base, Some(c));
    RankedIsOrdering(Corrected, chosen);
    RankedMembers(Corrected, chosen);
    var ranked, rows := Ranked(Corrected, chosen), Descending(events, c.revision, Some(c));
    forall row
      ensures row in rows <==> row in ranked
    {
      if row in ranked {
        var i :| 0 <= i < |ranked| && ranked[i] == row;
        assert rows[|ranked| - 1 - i] == row;
      }
    }
  }
}
