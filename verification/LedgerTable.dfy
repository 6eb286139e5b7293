/** The append-only `events` table and the two orders its replay reads it in:
    services/core/core.go:1731-1770.
  */
module LedgerTable {
  import opened UtcText

  datatype Kind = Deposit | Withdrawal | Dividend | Fee | Tax | CashVoid | FxExchange | Split | Buy | Sell
                | Unsupported(text: string)

  /** The columns a CSV row provides; absent texts are empty. */
  datatype Transaction = Transaction(
    eventId: string, sourceEventId: string, accountId: string, kind: Kind, occurredAt: string,
    instrumentId: string, symbol: string, quantity: string, price: string, fee: string,
    currency: string, amount: string, counterCurrency: string, counterAmount: string, corrects: string)

  datatype Row = Row(sequence: nat, tx: Transaction, receiptId: string, recordedAt: string)

  /** Legacy: raw text order. Corrected: rtrim(occurred_at,'Z'). */
  datatype Policy = Legacy | Corrected

  const ZERO_TIME := "1970-01-01T00:00:00Z"

  /** SQLite numbers the rows of a table nothing is deleted from 1, 2, 3, ... */
  predicate Contiguous(events: seq<Row>) {
    forall i :: 0 <= i < |events| ==> events[i].sequence == i + 1
  }

  /** WHERE sequence <= revision. */
  function Through(events: seq<Row>, revision: int): (rows: seq<Row>) {
    if events == [] then []
    else
      var last := events[|events| - 1];
      Through(events[..|events| - 1], revision) + if last.sequence <= revision then [last] else []
  }

  lemma {:induction false} ThroughIsPrefix(events: seq<Row>, revision: nat)
    requires Contiguous(events)
    ensures Through(events, revision) == events[..if revision < |events| then revision else |events|]
  {
    if events != [] {
      ThroughIsPrefix(events[..|events| - 1], revision);
      assert events == events[..|events| - 1] + [events[|events| - 1]];
    }
  }

  /** Rows appended later never show below an old revision. */
  lemma ThroughOfAppended(events: seq<Row>, more: seq<Row>, revision: nat)
    requires Contiguous(events) && Contiguous(events + more) && revision <= |events|
    ensures Through(events + more, revision) == Through(events, revision) == events[..revision]
  {
    ThroughIsPrefix(events, revision);
    ThroughIsPrefix(events + more, revision);
    assert (events + more)[..revision] == events[..revision];
  }

  /******* ORDER BY *******/

  function SortKey(policy: Policy, row: Row): string {
    if policy == Legacy then row.tx.occurredAt else RTrimZ(row.tx.occurredAt)
  }

  predicate Before(policy: Policy, a: Row, b: Row) {
    LexLess(SortKey(policy, a), SortKey(policy, b)) || (SortKey(policy, a) == SortKey(policy, b) && a.sequence < b.sequence)
  }

  function Insert(policy: Policy, row: Row, rows: seq<Row>): (r: seq<Row>) {
    if rows == [] || Before(policy, row, rows[0]) then [row] + rows else [rows[0]] + Insert(policy, row, rows[1..])
  }

  /** The rows in the order of the query: ORDER BY key, sequence. */
  function Ranked(policy: Policy, rows: seq<Row>): (r: seq<Row>) {
    if rows == [] then [] else Insert(policy, rows[|rows| - 1], Ranked(policy, rows[..|rows| - 1]))
  }

  ghost predicate Sorted(policy: Policy, rows: seq<Row>) {
    forall i, j :: 0 <= i < j < |rows| ==> Before(policy, rows[i], rows[j])
  }

  ghost predicate Distinct(rows: seq<Row>) {
    forall i, j :: 0 <= i < j < |rows| ==> rows[i].sequence != rows[j].sequence
  }

  lemma BeforeTotal(policy: Policy, a: Row, b: Row)
    requires a.sequence != b.sequence
    ensures Before(policy, a, b) <==> !Before(policy, b, a)
  {
    LexTotal(SortKey(policy, a), SortKey(policy, b));
  }

  lemma BeforeTransitive(policy: Policy, a: Row, b: Row, c: Row)
    requires Before(policy, a, b) && Before(policy, b, c)
    ensures Before(policy, a, c)
  {
    var x, y, z := SortKey(policy, a), SortKey(policy, b), SortKey(policy, c);
    if LexLess(x, y) && LexLess(y, z) {
      LexTransitive(x, y, z);
    }
  }

  lemma {:induction false} InsertContents(policy: Policy, row: Row, rows: seq<Row>)
    ensures multiset(Insert(policy, row, rows)) == multiset(rows) + multiset{row}
    ensures |Insert(policy, row, rows)| == |rows| + 1
  {
    if rows != [] {
      assert rows == [rows[0]] + rows[1..];
      if !Before(policy, row, rows[0]) {
        InsertContents(policy, row, rows[1..]);
      }
    }
  }

  lemma {:induction false} InsertSorted(policy: Policy, row: Row, rows: seq<Row>)
    requires Sorted(policy, rows)
    requires forall i :: 0 <= i < |rows| ==> rows[i].sequence != row.sequence
    ensures Sorted(policy, Insert(policy, row, rows))
  {
    if rows != [] {
      if Before(policy, row, rows[0]) {
        forall i | 0 < i < |rows|
          ensures Before(policy, row, rows[i])
        {
          BeforeTransitive(policy, row, rows[0], rows[i]);
        }
      } else {
        BeforeTotal(policy, row, rows[0]);
        InsertSorted(policy, row, rows[1..]);
        InsertContents(policy, row, rows[1..]);
        var rest := Insert(policy, row, rows[1..]);
        forall i | 0 <= i < |rest|
          ensures Before(policy, rows[0], rest[i])
        {
          assert rest[i] in multiset(rest);
          assert rest[i] in rows[1..] || rest[i] == row;
        }
      }
    }
  }

  /** The query returns every selected row once, in key order. */
  lemma {:induction false} RankedIsOrdering(policy: Policy, rows: seq<Row>)
    requires Distinct(rows)
    ensures Sorted(policy, Ranked(policy, rows)) && multiset(Ranked(policy, rows)) == multiset(rows)
    ensures |Ranked(policy, rows)| == |rows|
  {
    if rows != [] {
      var front, last := rows[..|rows| - 1], rows[|rows| - 1];
      assert rows == front + [last];
      RankedIsOrdering(policy, front);
      InsertContents(policy, last, Ranked(policy, front));
      forall i | 0 <= i < |Ranked(policy, front)|
        ensures Ranked(policy, front)[i].sequence != last.sequence
      {
        assert Ranked(policy, front)[i] in multiset(front);
      }
      InsertSorted(policy, last, Ranked(policy, front));
    }
  }

  /** The two orders rank every pair of rows alike. */
  ghost predicate RankAlike(rows: seq<Row>) {
    forall a, b :: a in rows && b in rows ==> (Before(Legacy, a, b) <==> Before(Corrected, a, b))
  }

  lemma {:induction false} InsertAlike(row: Row, rows: seq<Row>)
    requires forall b :: b in rows ==> (Before(Legacy, row, b) <==> Before(Corrected, row, b))
    ensures Insert(Legacy, row, rows) == Insert(Corrected, row, rows)
  {
    if rows != [] {
      InsertAlike(row, rows[1..]);
    }
  }

  lemma {:induction false} RankedAlike(rows: seq<Row>)
    requires RankAlike(rows)
    ensures Ranked(Legacy, rows) == Ranked(Corrected, rows)
  {
    if rows != [] {
      RankedAlike(rows[..|rows| - 1]);
      RankedContents(Legacy, rows[..|rows| - 1]);
      forall b | b in Ranked(Legacy, rows[..|rows| - 1])
        ensures b in rows
      {
        assert b in multiset(rows[..|rows| - 1]);
      }
      InsertAlike(rows[|rows| - 1], Ranked(Legacy, rows[..|rows| - 1]));
    }
  }

  lemma {:induction false} RankedContents(policy: Policy, rows: seq<Row>)
    ensures multiset(Ranked(policy, rows)) == multiset(rows)
  {
    if rows != [] {
      assert rows == rows[..|rows| - 1] + [rows[|rows| - 1]];
      RankedContents(policy, rows[..|rows| - 1]);
      InsertContents(policy, rows[|rows| - 1], Ranked(policy, rows[..|rows| - 1]));
    }
  }
}
