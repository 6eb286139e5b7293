/** Which provider answers make a candle read succeed, and on which page it stops
    (services/core/kiwoom.go:361-386, 618-635, services/core/kiwoom_market_data.go:145-219).
  */
module CandleLaws {
  import opened Results
  import opened CandleBatch

  /******* Rows *******/

  /** Rows that normalize, never later than the row before (unless that one has Go's zero
      time), and agreeing wherever they share a time. */
  predicate RowsFit(rows: seq<ProviderRow>) {
    && (forall i :: 0 <= i < |rows| ==> rows[i].Normal?)
    && (forall i :: 0 < i < |rows| ==> NotLater(rows[i - 1].candle, rows[i].candle))
    && (forall i, j :: 0 <= i < j < |rows| && rows[i].candle.at == rows[j].candle.at ==> rows[i].candle.prices == rows[j].candle.prices)
  }

  predicate NotLater(before: Candle, c: Candle) {
    c.at <= before.at || before.at == ZERO_INSTANT
  }

  function LastTime(rows: seq<ProviderRow>): int {
    if rows != [] && rows[|rows| - 1].Normal? then rows[|rows| - 1].candle.at else ZERO_INSTANT
  }

  lemma RowFits(s: Batch, rows: seq<ProviderRow>, row: ProviderRow)
    requires Merged(s, rows) && RowsFit(rows) && s.previous == LastTime(rows)
    ensures AddRow(s, row).Some? <==> RowsFit(rows + [row])
    ensures AddRow(s, row).Some? ==> AddRow(s, row).value.previous == LastTime(rows + [row])
  {
    hide DistinctTimes, NewestFirst;
    var all := rows + [row];
    assert forall i :: 0 <= i < |rows| ==> all[i] == rows[i];
    assert all[|rows|] == row;
    if row.Normal? {
      if row.candle.at in s.seen {
        var c := Candle(row.candle.at, s.seen[row.candle.at]);
        assert Normal(c) in rows;
        var i :| 0 <= i < |rows| && rows[i] == Normal(c);
        assert RowsFit(all) ==> all[i].candle.prices == all[|rows|].candle.prices;
        forall i | 0 <= i < |rows| && rows[i].candle.at == row.candle.at
          ensures rows[i].candle.prices == c.prices
        {
          assert rows[i] in rows;
        }
      } else {
        forall i | 0 <= i < |rows|
          ensures rows[i].candle.at != row.candle.at
        {
          assert rows[i] in rows && rows[i].candle in s.bars;
        }
      }
    }
  }

  lemma FitPrefix(rows: seq<ProviderRow>, n: nat)
    requires n <= |rows| && RowsFit(rows)
    ensures RowsFit(rows[..n])
  {}

  lemma EmptyMerged()
    ensures Merged(START, []) && RowsFit([])
  {}

  /** The merge loop takes exactly the rows that fit. */
  lemma {:induction false} RowsExactly(rows: seq<ProviderRow>)
    ensures AddRows(START, rows).Some? <==> RowsFit(rows)
    ensures RowsFit(rows) ==> Merged(AddRows(START, rows).value, rows) && AddRows(START, rows).value.previous == LastTime(rows)
  {
    hide Merged, RowsFit, AddRow;
    if rows == [] {
      EmptyMerged();
    } else {
      var n := |rows| - 1;
      RowsExactly(rows[..n]);
      assert rows == rows[..n] + [rows[n]];
      if RowsFit(rows[..n]) {
        var s := AddRows(START, rows[..n]).value;
        RowFits(s, rows[..n], rows[n]);
        if AddRow(s, rows[n]).Some? {
          AddRowMerges(s, rows[..n], rows[n]);
        }
      } else if RowsFit(rows) {
        FitPrefix(rows, n);
      }
    }
  }

  /** Reading on is reading everything. */
  lemma {:induction false} RowsAfter(a: seq<ProviderRow>, b: seq<ProviderRow>)
    requires AddRows(START, a).Some?
    ensures AddRows(START, a + b) == AddRows(AddRows(START, a).value, b)
  {
    hide AddRow;
    if b == [] {
      assert a + b == a;
    } else {
      var n := |b| - 1;
      RowsAfter(a, b[..n]);
      assert (a + b)[..|a + b| - 1] == a + b[..n];
    }
  }

  /******* Pages *******/

  /** There is a next page, under a usable key. */
  predicate GoesOn(r: Response) {
    r.Page? && r.continuation == "Y" && 0 < |r.nextKey| <= 50 && '\r' !in r.nextKey && '\n' !in r.nextKey
  }

  predicate Ends(r: Response) {
    r.Page? && (r.continuation == "" || r.continuation == "N") && r.nextKey == ""
  }

  /** Different times read on the first n pages. */
  ghost function TimesRead(responses: seq<Response>, n: nat): nat
    requires n <= |responses|
  {
    |CandleBatch.Times(RowsOf(responses, n))|
  }

  /** The first n pages all lead on: each under a key of its own, and none of them found
      500 times read before it. */
  ghost predicate LeadsOn(responses: seq<Response>, n: nat)
    requires n <= |responses|
  {
    && (forall m :: 0 <= m < n ==> GoesOn(responses[m]) && TimesRead(responses, m) < 500)
    && (forall i, j :: 0 <= i < j < n ==> responses[i].nextKey != responses[j].nextKey)
  }

  /** Page n ends the read: it says so, or 500 times were read before it. */
  ghost predicate Stops(responses: seq<Response>, n: nat)
    requires 0 < n <= |responses|
  {
    Ends(responses[n - 1]) || (GoesOn(responses[n - 1]) && TimesRead(responses, n - 1) >= 500)
  }

  /** The read stops on page n, having read rows that fit. */
  ghost predicate Readable(responses: seq<Response>, n: nat) {
    && 0 < n <= |responses| && n <= 32 && LeadsOn(responses, n - 1) && Stops(responses, n) && RowsFit(RowsOf(responses, n))
  }

  lemma PagingIs(r: Response)
    requires r.Page?
    ensures var p := Pagination(r.continuation, r.nextKey);
      && (p.Some? <==> GoesOn(r) || Ends(r)) && !(GoesOn(r) && Ends(r))
      && (GoesOn(r) ==> p == Some((true, r.nextKey))) && (Ends(r) ==> p == Some((false, "")))
  {}

  /** Where the walk stands before page n. */
  ghost predicate StandsAt(responses: seq<Response>, n: nat, s: Batch, cursors: seq<string>)
  {
    && n <= |responses| && n <= 32 && LeadsOn(responses, n)
    && RowsFit(RowsOf(responses, n)) && AddRows(START, RowsOf(responses, n)) == Some(s)
    && |cursors| == n && forall i :: 0 <= i < n ==> responses[i].Page? && cursors[i] == responses[i].nextKey
  }

  lemma CountIs(responses: seq<Response>, n: nat, s: Batch, cursors: seq<string>)
    requires StandsAt(responses, n, s, cursors)
    ensures |s.bars| == TimesRead(responses, n)
  {
    RowsExactly(RowsOf(responses, n));
    TimesOfMerged(s, RowsOf(responses, n));
    hide Merged, RowsFit, LeadsOn, AddRows;
  }

  lemma PageRows(responses: seq<Response>, n: nat, s: Batch, cursors: seq<string>)
    requires StandsAt(responses, n, s, cursors) && n < |responses| && responses[n].Page?
    ensures AddRows(START, RowsOf(responses, n + 1)) == AddRows(s, responses[n].rows)
    ensures AddRows(s, responses[n].rows).Some? <==> RowsFit(RowsOf(responses, n + 1))
  {
    RowsAfter(RowsOf(responses, n), responses[n].rows);
    RowsExactly(RowsOf(responses, n + 1));
    hide Merged, RowsFit, LeadsOn, AddRows;
  }

  lemma StandsNext(responses: seq<Response>, n: nat, s: Batch, cursors: seq<string>)
    requires StandsAt(responses, n, s, cursors) && n < |responses| && n + 1 < 32 && GoesOn(responses[n]) && |s.bars| < 500
    requires AddRows(s, responses[n].rows).Some? && responses[n].nextKey !in cursors
    ensures StandsAt(responses, n + 1, AddRows(s, responses[n].rows).value, cursors + [responses[n].nextKey])
  {
    hide RowsFit, AddRows, RowsOf, GoesOn, LeadsOn, TimesRead;
    CountIs(responses, n, s, cursors);
    GoesOnIsPage(responses[n]);
    PageRows(responses, n, s, cursors);
    LeadsNext(responses, n, cursors);
  }

  lemma LeadsNext(responses: seq<Response>, n: nat, cursors: seq<string>)
    requires n < |responses| && LeadsOn(responses, n) && GoesOn(responses[n]) && TimesRead(responses, n) < 500
    requires |cursors| == n && forall i :: 0 <= i < n ==> responses[i].Page? && cursors[i] == responses[i].nextKey
    requires responses[n].nextKey !in cursors
    ensures LeadsOn(responses, n + 1)
  {
    hide TimesRead, GoesOn;
    assert responses[n].Page? by { GoesOnIsPage(responses[n]); }
    forall i | 0 <= i < n
      ensures responses[i].nextKey != responses[n].nextKey
    {
      assert cursors[i] in cursors;
    }
  }

  lemma GoesOnIsPage(r: Response)
    requires GoesOn(r)
    ensures r.Page?
  {}

  /** From page n on: a read that succeeds stops on a readable page, and a readable page
      is where it stops. */
  lemma {:induction false} ReadOn(responses: seq<Response>, n: nat, s: Batch, cursors: seq<string>)
    requires StandsAt(responses, n, s, cursors)
    ensures var w := ReadFrom(responses, n, s, cursors);
      && (w.Some? ==> n < w.value.pages && Readable(responses, w.value.pages))
      && (forall k: nat :: n < k && Readable(responses, k) ==> w.Some? && w.value.pages == k)
    decreases |responses| - n
  {
    hide RowsFit, AddRows, RowsOf, Pagination, LeadsOn, TimesRead, GoesOn, Ends;
    forall k: nat | n < k && Readable(responses, k)
      ensures ReadFrom(responses, n, s, cursors).Some? && ReadFrom(responses, n, s, cursors).value.pages == k
    {
      ReadableReads(responses, n, s, cursors, k);
    }
    var w := ReadFrom(responses, n, s, cursors);
    if w.Some? {
      var page := responses[n];
      PagingIs(page);
      CountIs(responses, n, s, cursors);
      PageRows(responses, n, s, cursors);
      if GoesOn(page) && |s.bars| < 500 {
        StandsNext(responses, n, s, cursors);
        ReadOn(responses, n + 1, AddRows(s, page.rows).value, cursors + [page.nextKey]);
      }
    }
  }

  lemma {:induction false} ReadableReads(responses: seq<Response>, n: nat, s: Batch, cursors: seq<string>, k: nat)
    requires StandsAt(responses, n, s, cursors) && n < k && Readable(responses, k)
    ensures ReadFrom(responses, n, s, cursors).Some? && ReadFrom(responses, n, s, cursors).value.pages == k
    decreases |responses| - n
  {
    hide RowsFit, AddRows, RowsOf, Pagination, TimesRead, GoesOn, Ends;
    var page := responses[n];
    PagePage(responses, n, k);
    PagingIs(page);
    CountIs(responses, n, s, cursors);
    PageRows(responses, n, s, cursors);
    EarlierFit(responses, n + 1, k);
    if n + 1 < k {
      assert GoesOn(page) && TimesRead(responses, n) < 500;
      assert page.nextKey !in cursors;
      StandsNext(responses, n, s, cursors);
      ReadableReads(responses, n + 1, AddRows(s, page.rows).value, cursors + [page.nextKey], k);
    }
  }

  lemma PagePage(responses: seq<Response>, n: nat, k: nat)
    requires n < k && Readable(responses, k)
    ensures responses[n].Page?
  {
    hide RowsFit, RowsOf, TimesRead;
  }

  lemma {:induction false} EarlierFit(responses: seq<Response>, n: nat, k: nat)
    requires n <= k <= |responses| && RowsFit(RowsOf(responses, k))
    ensures RowsFit(RowsOf(responses, n))
    decreases k
  {
    if n < k {
      FitPrefix(RowsOf(responses, k), |RowsOf(responses, k - 1)|);
      assert RowsOf(responses, k)[..|RowsOf(responses, k - 1)|] == RowsOf(responses, k - 1);
      EarlierFit(responses, n, k - 1);
    }
    hide RowsFit;
  }

  /** A read succeeds exactly when some page is readable, and stops on it; no other page
      is then readable. */
  lemma ReadExactly(responses: seq<Response>)
    ensures var w := ReadFrom(responses, 0, START, []);
      && (w.Some? ==> Readable(responses, w.value.pages))
      && (forall n: nat :: Readable(responses, n) ==> w.Some? && w.value.pages == n)
  {
    EmptyMerged();
    assert StandsAt(responses, 0, START, []);
    ReadOn(responses, 0, START, []);
    hide StandsAt, RowsFit, LeadsOn, Stops, RowsOf, ReadFrom;
    forall n: nat | Readable(responses, n)
      ensures 0 < n
    {}
  }
}
