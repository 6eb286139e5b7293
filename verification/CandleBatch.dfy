/** Reading candles page by page: readPages and kiwoomPagination
    (services/core/kiwoom.go:361-386, 618-635) with the merge of readCandleBatch
    (services/core/kiwoom_market_data.go:145-219).

    The provider is the sequence of its responses, one per request. A candle's time is
    its instant (UtcText.Instant), which its text sorts like (BarTextsSortByTime).
  */
module CandleBatch {
  import opened Results
  import opened UtcText

  const MAX_PAGES := 32
  const MAX_ROWS := 500

  /** Go's zero time, which stands for no row read yet. */
  const ZERO_INSTANT := 366 * 24 * 60 * 60 * 1_000_000_000

  datatype Prices = Prices(open: string, high: string, low: string, close: string, volume: string)
  datatype Candle = Candle(at: int, prices: Prices)

  /** A row that normalizes to a candle, or one that does not. */
  datatype ProviderRow = Invalid | Normal(candle: Candle)

  /** A failed request or unusable body, or rows with their pagination headers. */
  datatype Response = Failed | Page(rows: seq<ProviderRow>, continuation: string, nextKey: string)

  /** kiwoomPagination: whether to go on, and with which cursor. */
  function Pagination(continuation: string, cursor: string): (r: Option<(bool, string)>)
    ensures r.Some? && r.value.0 ==> r.value.1 == cursor && 0 < |cursor| <= 50
  {
    if continuation == "" || continuation == "N" then if cursor != "" then None else Some((false, ""))
    else if continuation == "Y" then
      if cursor == "" || |cursor| > 50 || '\r' in cursor || '\n' in cursor then None else Some((true, cursor))
    else None
  }

  /******* One page *******/

  datatype Batch = Batch(bars: seq<Candle>, seen: map<int, Prices>, previous: int)

  const START: Batch := Batch([], map[], ZERO_INSTANT)

  function AddRow(s: Batch, row: ProviderRow): Option<Batch> {
    match row
    case Invalid => None
    case Normal(c) =>
      if s.previous != ZERO_INSTANT && c.at > s.previous then None
      else if c.at in s.seen then if s.seen[c.at] == c.prices then Some(s.(previous := c.at)) else None
      else Some(Batch(s.bars + [c], s.seen[c.at := c.prices], c.at))
  }

  function AddRows(s: Batch, rows: seq<ProviderRow>): Option<Batch> {
    if rows == [] then Some(s)
    else
      var before :- AddRows(s, rows[..|rows| - 1]);
      AddRow(before, rows[|rows| - 1])
  }

  /******* The cursor walk *******/

  /** What a successful walk has read. */
  datatype Walk = Walk(scan: Batch, pages: nat, cursors: seq<string>)

  /** readPages from page n on; `None` is any of its errors. */
  function ReadFrom(responses: seq<Response>, n: nat, s: Batch, cursors: seq<string>): Option<Walk>
    decreases |responses| - n
  {
    if n >= MAX_PAGES || n >= |responses| || responses[n].Failed? then None
    else
      var page := responses[n];
      var paging :- Pagination(page.continuation, page.nextKey);
      var after :- AddRows(s, page.rows);
      if |s.bars| >= MAX_ROWS || !paging.0 then Some(Walk(after, n + 1, cursors))
      else if n + 1 == MAX_PAGES || paging.1 in cursors then None
      else ReadFrom(responses, n + 1, after, cursors + [paging.1])
  }

  /** The oldest first, at most the newest 500: sort.Slice and the cut. */
  function Place(c: Candle, sorted: seq<Candle>): (r: seq<Candle>)
    ensures multiset(r) == multiset(sorted) + multiset{c} && |r| == |sorted| + 1
  {
    if sorted == [] || c.at <= sorted[0].at then [c] + sorted
    else
      assert sorted == [sorted[0]] + sorted[1..];
      [sorted[0]] + Place(c, sorted[1..])
  }

  function SortByTime(bars: seq<Candle>): (r: seq<Candle>)
    ensures multiset(r) == multiset(bars) && |r| == |bars|
  {
    if bars == [] then []
    else
      assert bars == bars[..|bars| - 1] + [bars[|bars| - 1]];
      Place(bars[|bars| - 1], SortByTime(bars[..|bars| - 1]))
  }

  function Newest(bars: seq<Candle>): (r: seq<Candle>) {
    var sorted := SortByTime(bars);
    if |sorted| > MAX_ROWS then sorted[|sorted| - MAX_ROWS..] else sorted
  }

  /** readCandleBatch: the loops over pages and rows, updating the batch as they go. */
  method ReadCandles(responses: seq<Response>) returns (r: Result<seq<Candle>>)
    ensures r.Ok? <==> ReadFrom(responses, 0, START, []).Some? && ReadFrom(responses, 0, START, []).value.scan.bars != []
    ensures r.Ok? ==> r.value == Newest(ReadFrom(responses, 0, START, []).value.scan.bars)
  {
    hide AddRow, Newest, Pagination;
    var bars: seq<Candle>, seen: map<int, Prices>, previous := [], map[], ZERO_INSTANT;
    var cursors: seq<string> := [];
    ghost var walk := ReadFrom(responses, 0, START, []);
    var n, reading := 0, true;
    while reading
      invariant 0 <= n <= MAX_PAGES
      invariant reading ==> walk == ReadFrom(responses, n, Batch(bars, seen, previous), cursors)
      invariant !reading ==> walk == Some(Walk(Batch(bars, seen, previous), n, cursors))
      decreases MAX_PAGES - n, reading
    {
      if n == MAX_PAGES || n >= |responses| || responses[n].Failed? {
        return Err("read failed");
      }
      var page, stop := responses[n], |bars| >= MAX_ROWS;
      ghost var before := Batch(bars, seen, previous);
      var paging := Pagination(page.continuation, page.nextKey);
      if paging.None? {
        return Err("invalid_pagination");
      }
      for i := 0 to |page.rows|
        invariant AddRows(before, page.rows[..i]) == Some(Batch(bars, seen, previous))
      {
        assert page.rows[..i + 1][..i] == page.rows[..i];
        var error;
        error, bars, seen, previous := MergeRow(bars, seen, previous, page.rows[i]);
        if error != "" {
          RowsStop(before, page.rows, i + 1);
          return Err(error);
        }
      }
      assert page.rows[..|page.rows|] == page.rows;
      n := n + 1;
      if stop || !paging.value.0 {
        reading := false;
      } else if n == MAX_PAGES {
        return Err("pagination_limit");
      } else if paging.value.1 in cursors {
        return Err("repeated_cursor");
      } else {
        cursors := cursors + [paging.value.1];
      }
    }
    if |bars| == 0 {
      return Err("market data not found");
    }
    r := Ok(Newest(bars));
  }

  /** The row loop's body. */
  method MergeRow(bars: seq<Candle>, seen: map<int, Prices>, previous: int, row: ProviderRow)
    returns (error: string, b: seq<Candle>, s: map<int, Prices>, p: int)
    ensures var next := AddRow(Batch(bars, seen, previous), row);
      (error == "" <==> next.Some?) && (next.Some? ==> next.value == Batch(b, s, p))
  {
    error, b, s, p := "", bars, seen, previous;
    match row {
      case Invalid => error := "invalid_candle";
      case Normal(c) =>
        if previous != ZERO_INSTANT && c.at > previous {
          error := "invalid_candle_order";
        } else if c.at in seen {
          p := c.at;
          if seen[c.at] != c.prices {
            error := "conflicting_candle";
          }
        } else {
          b, s, p := bars + [c], seen[c.at := c.prices], c.at;
        }
    }
  }

  lemma {:induction false} RowsStop(s: Batch, rows: seq<ProviderRow>, n: nat)
    requires n <= |rows| && AddRows(s, rows[..n]).None?
    ensures AddRows(s, rows).None?
    decreases |rows| - n
  {
    hide AddRow;
    if n == |rows| {
      assert rows[..n] == rows;
    } else {
      assert rows[..n + 1][..n] == rows[..n];
      RowsStop(s, rows, n + 1);
    }
  }

  /******* What a read returns *******/

  /** All rows of the first n pages. */
  ghost function RowsOf(responses: seq<Response>, n: nat): seq<ProviderRow>
    requires n <= |responses|
  {
    if n == 0 then [] else RowsOf(responses, n - 1) + if responses[n - 1].Page? then responses[n - 1].rows else []
  }

  ghost predicate Descending(bars: seq<Candle>) {
    forall i, j :: 0 <= i < j < |bars| ==> bars[i].at > bars[j].at
  }

  ghost predicate Indexed(s: Batch) {
    (forall c :: c in s.bars ==> c.at in s.seen && s.seen[c.at] == c.prices)
    && forall at :: at in s.seen ==> Candle(at, s.seen[at]) in s.bars
  }

  ghost predicate SameCandles(s: Batch, rows: seq<ProviderRow>) {
    (forall c :: c in s.bars ==> Normal(c) in rows) && forall row :: row in rows ==> row.Normal? && row.candle in s.bars
  }

  /** Unless some candle has Go's zero time, the candles were met newest first. */
  ghost predicate NewestFirst(s: Batch) {
    (forall c :: c in s.bars ==> c.at != ZERO_INSTANT) ==>
      Descending(s.bars) && (s.bars != [] ==> s.previous != ZERO_INSTANT) && forall c :: c in s.bars ==> c.at >= s.previous
  }

  /** The batch holds exactly the distinct candles of the rows. */
  ghost predicate Merged(s: Batch, rows: seq<ProviderRow>) {
    DistinctTimes(s.bars) && Indexed(s) && SameCandles(s, rows) && NewestFirst(s)
  }

  lemma AddRowMerges(s: Batch, rows: seq<ProviderRow>, row: ProviderRow)
    requires Merged(s, rows) && AddRow(s, row).Some?
    ensures Merged(AddRow(s, row).value, rows + [row])
  {
    hide SameCandles, DistinctTimes, NewestFirst;
    if row.candle.at in s.seen {
      assert Candle(row.candle.at, s.seen[row.candle.at]) == row.candle;
      RepeatedRow(s, rows, row.candle);
      RepeatedFirst(s, row.candle);
    } else {
      NewRow(s, rows, row.candle);
    }
  }

  lemma RepeatedRow(s: Batch, rows: seq<ProviderRow>, c: Candle)
    requires SameCandles(s, rows) && c in s.bars
    ensures SameCandles(s.(previous := c.at), rows + [Normal(c)])
  {}

  lemma RepeatedFirst(s: Batch, c: Candle)
    requires NewestFirst(s) && c in s.bars && (s.previous != ZERO_INSTANT ==> c.at <= s.previous)
    ensures NewestFirst(s.(previous := c.at))
  {}

  lemma NewRow(s: Batch, rows: seq<ProviderRow>, c: Candle)
    requires Merged(s, rows) && c.at !in s.seen && (s.previous != ZERO_INSTANT ==> c.at <= s.previous)
    ensures Merged(Batch(s.bars + [c], s.seen[c.at := c.prices], c.at), rows + [Normal(c)])
  {
    hide SameCandles;
    NewDistinct(s, c);
    NewFirst(s, c);
    NewIndexed(s, c);
    NewSame(s, rows, c);
  }

  lemma NewDistinct(s: Batch, c: Candle)
    requires DistinctTimes(s.bars) && Indexed(s) && c.at !in s.seen
    ensures DistinctTimes(s.bars + [c])
  {
    forall i | 0 <= i < |s.bars|
      ensures s.bars[i].at != c.at
    {
      assert s.bars[i] in s.bars;
    }
  }

  lemma NewFirst(s: Batch, c: Candle)
    requires NewestFirst(s) && Indexed(s) && c.at !in s.seen && (s.previous != ZERO_INSTANT ==> c.at <= s.previous)
    ensures NewestFirst(Batch(s.bars + [c], s.seen[c.at := c.prices], c.at))
  {
    var bars := s.bars + [c];
    if forall x :: x in bars ==> x.at != ZERO_INSTANT {
      assert bars[|s.bars|] == c;
      forall i | 0 <= i < |s.bars|
        ensures s.bars[i].at > c.at
      {
        assert s.bars[i] in s.bars && bars[i] == s.bars[i];
      }
    }
  }

  lemma NewIndexed(s: Batch, c: Candle)
    requires Indexed(s) && c.at !in s.seen
    ensures Indexed(Batch(s.bars + [c], s.seen[c.at := c.prices], c.at))
  {
    assert (s.bars + [c])[|s.bars|] == c;
    forall x | x in s.bars
      ensures x in s.bars + [c]
    {}
  }

  lemma NewSame(s: Batch, rows: seq<ProviderRow>, c: Candle)
    requires SameCandles(s, rows)
    ensures SameCandles(Batch(s.bars + [c], s.seen[c.at := c.prices], c.at), rows + [Normal(c)])
  {
    assert (s.bars + [c])[|s.bars|] == c && (rows + [Normal(c)])[|rows|] == Normal(c);
    forall x | x in s.bars
      ensures x in s.bars + [c]
    {}
    forall r | r in rows
      ensures r in rows + [Normal(c)]
    {}
  }

  lemma {:induction false} AddRowsMerge(s: Batch, before: seq<ProviderRow>, rows: seq<ProviderRow>)
    requires Merged(s, before) && AddRows(s, rows).Some?
    ensures Merged(AddRows(s, rows).value, before + rows)
  {
    hide Merged, AddRow;
    if rows == [] {
      assert before + rows == before;
    } else {
      var n := |rows| - 1;
      AddRowsMerge(s, before, rows[..n]);
      AddRowMerges(AddRows(s, rows[..n]).value, before + rows[..n], rows[n]);
      assert before + rows[..n] + [rows[n]] == before + rows;
    }
  }

  ghost predicate DistinctTexts(texts: seq<string>) {
    forall i, j :: 0 <= i < j < |texts| ==> texts[i] != texts[j]
  }

  /** Over the walk: one cursor per page after the first, none followed twice, at most 32
      pages, and the merge of all their rows. */
  lemma {:induction false} WalkFacts(responses: seq<Response>, n: nat, s: Batch, cursors: seq<string>)
    requires n <= |responses| && Merged(s, RowsOf(responses, n)) && DistinctTexts(cursors) && |cursors| == n
    requires ReadFrom(responses, n, s, cursors).Some?
    ensures var w := ReadFrom(responses, n, s, cursors).value;
      && n < w.pages <= MAX_PAGES && w.pages <= |responses| && |w.cursors| == w.pages - 1 && DistinctTexts(w.cursors)
      && Merged(w.scan, RowsOf(responses, w.pages))
    decreases |responses| - n
  {
    hide Merged, Pagination, AddRows;
    var page := responses[n];
    AddRowsMerge(s, RowsOf(responses, n), page.rows);
    var paging := Pagination(page.continuation, page.nextKey).value;
    if !(|s.bars| >= MAX_ROWS || !paging.0) {
      WalkFacts(responses, n + 1, AddRows(s, page.rows).value, cursors + [paging.1]);
    }
  }

  ghost predicate Ascending(bars: seq<Candle>) {
    forall i, j :: 0 <= i < j < |bars| ==> bars[i].at < bars[j].at
  }

  ghost predicate DistinctTimes(bars: seq<Candle>) {
    forall i, j :: 0 <= i < j < |bars| ==> bars[i].at != bars[j].at
  }

  lemma {:induction false} PlaceAscending(c: Candle, sorted: seq<Candle>)
    requires Ascending(sorted) && forall x :: x in sorted ==> x.at != c.at
    ensures Ascending(Place(c, sorted))
  {
    if sorted != [] && c.at > sorted[0].at {
      PlaceAscending(c, sorted[1..]);
      var rest := Place(c, sorted[1..]);
      forall i | 0 <= i < |rest|
        ensures sorted[0].at < rest[i].at
      {
        assert rest[i] in multiset(rest);
        if rest[i] != c {
          assert rest[i] in sorted[1..];
        }
      }
    }
  }

  lemma SortMembers(bars: seq<Candle>)
    ensures forall c :: c in SortByTime(bars) <==> c in bars
  {
    forall c
      ensures c in SortByTime(bars) <==> c in bars
    {
      assert c in multiset(SortByTime(bars)) <==> c in multiset(bars);
    }
  }

  lemma {:induction false} SortAscending(bars: seq<Candle>)
    requires DistinctTimes(bars)
    ensures Ascending(SortByTime(bars))
  {
    if bars != [] {
      var n := |bars| - 1;
      SortAscending(bars[..n]);
      SortMembers(bars[..n]);
      forall x | x in SortByTime(bars[..n])
        ensures x.at != bars[n].at
      {
        var i :| 0 <= i < n && bars[i] == x;
      }
      PlaceAscending(bars[n], SortByTime(bars[..n]));
    }
    hide Place;
  }

  /** The distinct times among rows: how many different candles they hold. */
  ghost function Times(rows: seq<ProviderRow>): set<int> {
    set i | 0 <= i < |rows| && rows[i].Normal? :: rows[i].candle.at
  }

  lemma {:induction false} CountTimes(bars: seq<Candle>)
    requires DistinctTimes(bars)
    ensures |set i | 0 <= i < |bars| :: bars[i].at| == |bars|
  {
    if bars != [] {
      var n := |bars| - 1;
      CountTimes(bars[..n]);
      var before := set i | 0 <= i < n :: bars[i].at;
      assert before == set i | 0 <= i < |bars[..n]| :: bars[..n][i].at;
      assert (set i | 0 <= i < |bars| :: bars[i].at) == before + {bars[n].at};
    }
  }

  /** A successful read returns a strictly ascending, duplicate-free series: the newest
      min(500, n) of the n distinct candles on the pages read, after at most 32 pages
      with no cursor followed twice. */
  lemma NewestDistinct(responses: seq<Response>)
    requires ReadFrom(responses, 0, START, []).Some?
    ensures var w := ReadFrom(responses, 0, START, []).value;
      && 1 <= w.pages <= MAX_PAGES && w.pages <= |responses| && |w.cursors| == w.pages - 1 && DistinctTexts(w.cursors)
      && (var rows, result := RowsOf(responses, w.pages), Newest(w.scan.bars);
        && Ascending(result)
        && |result| == (if |Times(rows)| < MAX_ROWS then |Times(rows)| else MAX_ROWS)
        && (forall c :: c in result ==> Normal(c) in rows)
        && (forall row :: row in rows ==> row.Normal? && (row.candle in result || OlderThanAll(row.candle, result))))
  {
    hide ReadFrom, SortByTime;
    WalkFacts(responses, 0, START, []);
    var w := ReadFrom(responses, 0, START, []).value;
    var rows, bars := RowsOf(responses, w.pages), w.scan.bars;
    SortAscending(bars);
    SortMembers(bars);
    TimesOfMerged(w.scan, rows);
    NewestIsTail(bars);
    forall row | row in rows
      ensures row.Normal? && (row.candle in Newest(bars) || OlderThanAll(row.candle, Newest(bars)))
    {
      assert row.candle in SortByTime(bars);
    }
    hide Newest, RowsOf;
  }

  lemma TimesOfMerged(s: Batch, rows: seq<ProviderRow>)
    requires Merged(s, rows)
    ensures |Times(rows)| == |s.bars|
  {
    CountTimes(s.bars);
    var ats := set i | 0 <= i < |s.bars| :: s.bars[i].at;
    forall at | at in Times(rows)
      ensures at in ats
    {
      var i :| 0 <= i < |rows| && rows[i].Normal? && rows[i].candle.at == at;
      assert rows[i] in rows && rows[i].candle in s.bars;
      var j :| 0 <= j < |s.bars| && s.bars[j] == rows[i].candle;
    }
    forall at | at in ats
      ensures at in Times(rows)
    {
      var j :| 0 <= j < |s.bars| && s.bars[j].at == at;
      assert s.bars[j] in s.bars && Normal(s.bars[j]) in rows;
      var i :| 0 <= i < |rows| && rows[i] == Normal(s.bars[j]);
    }
    assert Times(rows) == ats;
  }

  ghost predicate OlderThanAll(c: Candle, bars: seq<Candle>) {
    forall x :: x in bars ==> c.at < x.at
  }

  /** The cut keeps the end of the sorted list; everything dropped is older. */
  lemma NewestIsTail(bars: seq<Candle>)
    requires Ascending(SortByTime(bars))
    ensures Ascending(Newest(bars)) && |Newest(bars)| == (if |bars| < MAX_ROWS then |bars| else MAX_ROWS)
    ensures forall c :: c in Newest(bars) ==> c in SortByTime(bars)
    ensures forall x :: x in SortByTime(bars) ==> x in Newest(bars) || OlderThanAll(x, Newest(bars))
  {
    hide SortByTime, OlderThanAll;
    var sorted := SortByTime(bars);
    var cut := if |sorted| > MAX_ROWS then |sorted| - MAX_ROWS else 0;
    assert Newest(bars) == sorted[cut..];
    forall x | x in sorted
      ensures x in sorted[cut..] || OlderThanAll(x, sorted[cut..])
    {
      var i :| 0 <= i < |sorted| && sorted[i] == x;
      TailOrOlder(sorted, cut, i);
    }
  }

  lemma TailOrOlder(sorted: seq<Candle>, cut: nat, i: nat)
    requires Ascending(sorted) && cut <= |sorted| && i < |sorted|
    ensures sorted[i] in sorted[cut..] || OlderThanAll(sorted[i], sorted[cut..])
  {
    if i < cut {
      forall c | c in sorted[cut..]
        ensures sorted[i].at < c.at
      {
        var j :| cut <= j < |sorted| && sorted[j] == c;
      }
    } else {
      assert sorted[cut..][i - cut] == sorted[i];
    }
  }

  /******* Times and their texts *******/

  lemma ZeroInstantIs()
    ensures Instant(Stamp(1, 1, 1, 0, 0, 0, 0)) == ZERO_INSTANT
  {}

  /** Times of whole seconds have texts of one length, so sorting the texts as they are
      sorts the times. */
  lemma BarTextsSortByTime(s: Stamp, t: Stamp)
    requires ValidStamp(s) && FourDigitYear(s) && s.nano == 0 && ValidStamp(t) && FourDigitYear(t) && t.nano == 0
    ensures LexLess(Format(s), Format(t)) <==> Instant(s) < Instant(t)
    ensures Format(s) == Format(t) <==> Instant(s) == Instant(t)
  {
    hide Format, CanonicalUtc, Instant, RTrimZ, LexLess;
    CanonicalIsFormat(s);
    CanonicalIsFormat(t);
    TrimmedTextsSortByTime(Format(s), Format(t));
    WholeSecondText(s);
    WholeSecondText(t);
    SameLengthLess(RTrimZ(Format(s)), RTrimZ(Format(t)), "Z");
    assert TimeOf(Format(s)) == Instant(s) && TimeOf(Format(t)) == Instant(t);
  }

  /** Nineteen characters and a Z. */
  lemma WholeSecondText(s: Stamp)
    requires ValidStamp(s) && FourDigitYear(s) && s.nano == 0
    ensures Format(s) == RTrimZ(Format(s)) + "Z" && |RTrimZ(Format(s))| == 19
  {
    hide RTrimZ, YearText;
    RTrimOfFormat(s);
    FourDigits(s.year);
  }

  /** A common ending does not change the order of texts of one length. */
  lemma {:induction false} SameLengthLess(a: string, b: string, z: string)
    requires |a| == |b|
    ensures LexLess(a + z, b + z) <==> LexLess(a, b)
  {
    if a == "" {
      assert a + z == z && b + z == z;
      LexIrreflexive(z);
    } else {
      assert (a + z)[1..] == a[1..] + z && (b + z)[1..] == b[1..] + z;
      SameLengthLess(a[1..], b[1..], z);
    }
  }
}
