/** What cash corrections add up to: a corrected event and its correction cancel, and
    a ledger without either replays to the same balances.
  */
module CashCorrections {
  import opened UtcText
  import opened LedgerTable
  import opened Sums
  import opened Fifo
  import opened FifoLaws
  import opened RowChecks
  import opened CashVoids
  import opened LedgerInvariants

  predicate Corrects(c: Row, row: Row) {
    c.tx.kind.CashVoid? && c.tx.accountId == row.tx.accountId && c.tx.corrects == row.tx.sourceEventId
  }

  predicate Voided(events: seq<Row>, row: Row) {
    exists c :: c in events && Corrects(c, row)
  }

  predicate Kept(events: seq<Row>, row: Row) {
    !row.tx.kind.CashVoid? && !Voided(events, row)
  }

  /** The rows that are neither corrections nor corrected. */
  function KeptOf(rows: seq<Row>, events: seq<Row>): seq<Row> {
    if rows == [] then []
    else
      var last := rows[|rows| - 1];
      KeptOf(rows[..|rows| - 1], events) + if Kept(events, last) then [last] else []
  }

  /******* Corrections cancel *******/

  /** Each correction has one target, an earlier cash event with the opposite amount;
      no event is corrected twice. */
  lemma CorrectionTarget(events: seq<Row>, j: nat) returns (i: nat)
    requires TableFits(events) && j < |events| && events[j].tx.kind.CashVoid?
    ensures i < j && Corrects(events[j], events[i]) && Reverses(events[i].tx, events[j].tx)
    ensures forall k :: 0 <= k < |events| && Corrects(events[j], events[k]) ==> k == i
    ensures forall k :: 0 <= k < |events| && Corrects(events[k], events[i]) ==> k == j
  {
    hide Reverses, Fits, InstrumentOf, CanonicalUtc;
    assert RowFits(events[..j], events[j]);
    CorrectsSomething(events[j].tx);
    var target := FindBySource(events[..j], events[j].tx.accountId, events[j].tx.corrects).value;
    i :| 0 <= i < j && events[i] == target;
  }

  lemma CorrectsSomething(t: Transaction)
    requires Fits(t) && t.kind.CashVoid?
    ensures t.corrects != ""
  {
    FitsKind(t);
    hide Fits, AmountIs;
  }

  lemma ReversedIsNoVoid(t: Transaction, c: Transaction)
    requires Reverses(t, c)
    ensures !t.kind.CashVoid?
  {
    hide *;
    EligibleTarget(t, c);
    EligibleNoVoid(t.kind);
  }

  lemma EligibleTarget(t: Transaction, c: Transaction)
    requires Reverses(t, c)
    ensures Eligible(t.kind)
  {}

  lemma EligibleNoVoid(kind: Kind)
    requires Eligible(kind)
    ensures !kind.CashVoid? && CashOnly(kind)
  {}

  /** One correction more takes exactly its target out of the kept rows. */
  lemma {:induction false} KeptDrops(rows: seq<Row>, events: seq<Row>, c: Row, i: nat, flow: Flow)
    requires c.tx.kind.CashVoid?
    requires forall k :: 0 <= k < |rows| && Corrects(c, rows[k]) ==> k == i
    requires i < |rows| ==> Corrects(c, rows[i]) && Kept(events, rows[i])
    ensures Sum(KeptOf(rows, events + [c]), flow) ==
      Sum(KeptOf(rows, events), flow) - if i < |rows| then FlowOf(flow, rows[i].tx) else 0.0
  {
    hide FlowOf, Corrects;
    if rows != [] {
      var n := |rows| - 1;
      KeptDrops(rows[..n], events, c, i, flow);
      OneMoreCorrection(events, c, rows[n]);
      SumLast(KeptOf(rows[..n], events), rows[n], flow);
      SumLast(KeptOf(rows[..n], events + [c]), rows[n], flow);
      hide Kept, Sum;
    }
  }

  lemma OneMoreCorrection(events: seq<Row>, c: Row, row: Row)
    requires c.tx.kind.CashVoid?
    ensures Kept(events + [c], row) <==> Kept(events, row) && !Corrects(c, row)
  {
    hide Corrects;
    assert c in events + [c];
  }

  lemma SumLast(rows: seq<Row>, row: Row, flow: Flow)
    ensures Sum(rows + [row], flow) == Sum(rows, flow) + FlowOf(flow, row.tx) && Sum(rows + [], flow) == Sum(rows, flow)
  {
    assert (rows + [row])[..|rows|] == rows && rows + [] == rows;
    hide FlowOf;
  }

  /** A later event that is no correction changes nothing about the rows before. */
  lemma {:induction false} KeptIgnores(rows: seq<Row>, events: seq<Row>, row: Row)
    requires !row.tx.kind.CashVoid?
    ensures KeptOf(rows, events + [row]) == KeptOf(rows, events)
  {
    if rows != [] {
      KeptIgnores(rows[..|rows| - 1], events, row);
    }
  }

  lemma FewerRowsFit(events: seq<Row>)
    requires TableFits(events) && events != []
    ensures TableFits(events[..|events| - 1])
  {
    FewerUnique(events, |events| - 1);
    FewerFit(events, |events| - 1);
    hide RowFits, Contiguous, UniqueSources, UniqueCorrections, UniqueIds;
  }

  lemma FewerUnique(events: seq<Row>, n: nat)
    requires TableFits(events) && n <= |events|
    ensures Contiguous(events[..n]) && UniqueSources(events[..n]) && UniqueCorrections(events[..n]) && UniqueIds(events[..n])
  {
    hide RowFits;
  }

  lemma FewerFit(events: seq<Row>, n: nat)
    requires TableFits(events) && n <= |events|
    ensures var front := events[..n]; forall i :: 0 <= i < |front| ==> RowFits(front[..i], front[i])
  {
    hide RowFits, Contiguous, UniqueSources, UniqueCorrections, UniqueIds;
    var front := events[..n];
    forall i | 0 <= i < |front|
      ensures RowFits(front[..i], front[i])
    {
      assert front[..i] == events[..i];
    }
  }

  /** Cash flows add up to those of the kept rows alone. */
  lemma {:induction false} CorrectionsCancel(events: seq<Row>, c: string)
    requires TableFits(events)
    ensures Sum(events, Cash(c)) == Sum(KeptOf(events, events), Cash(c))
  {
    hide TableFits, FlowOf, Kept, Sum;
    if events != [] {
      var n := |events| - 1;
      var front, last := events[..n], events[n];
      assert events == front + [last];
      FewerRowsFit(events);
      CorrectionsCancel(front, c);
      SumLast(front, last, Cash(c));
      SumLast(KeptOf(front, events), last, Cash(c));
      if last.tx.kind.CashVoid? {
        VoidStep(events, c);
      } else {
        KeptIgnores(front, front, last);
        NewestNotVoided(events);
      }
    }
  }

  lemma VoidStep(events: seq<Row>, c: string)
    requires TableFits(events) && events != [] && events[|events| - 1].tx.kind.CashVoid?
    ensures var n := |events| - 1;
      && Sum(KeptOf(events[..n], events), Cash(c)) == Sum(KeptOf(events[..n], events[..n]), Cash(c)) + FlowOf(Cash(c), events[n].tx)
      && !Kept(events, events[n])
  {
    hide TableFits, Sum, Reverses, Corrects, KeptOf;
    var n := |events| - 1;
    var i := CorrectionTarget(events, n);
    ReversedIsNoVoid(events[i].tx, events[n].tx);
    ReversalCancels(events[i].tx, events[n].tx, c);
    TargetKept(events, n, i);
    assert events == events[..n] + [events[n]];
    KeptDrops(events[..n], events[..n], events[n], i, Cash(c));
  }

  lemma TargetKept(events: seq<Row>, n: nat, i: nat)
    requires i < n < |events| && !events[i].tx.kind.CashVoid?
    requires forall k :: 0 <= k < |events| && Corrects(events[k], events[i]) ==> k == n
    ensures Kept(events[..n], events[i])
  {
    hide Corrects;
    forall v | v in events[..n]
      ensures !Corrects(v, events[i])
    {
      var k :| 0 <= k < n && events[k] == v;
    }
  }

  lemma NewestNotVoided(events: seq<Row>)
    requires TableFits(events) && events != [] && !events[|events| - 1].tx.kind.CashVoid?
    ensures Kept(events, events[|events| - 1])
  {
    var n := |events| - 1;
    hide TableFits, Reverses, Corrects;
    if Voided(events, events[n]) {
      var v :| v in events && Corrects(v, events[n]);
      var j :| 0 <= j < |events| && events[j] == v;
      CorrectsIsVoid(v, events[n]);
      var i := CorrectionTarget(events, j);
    }
  }

  lemma CorrectsIsVoid(c: Row, row: Row)
    requires Corrects(c, row)
    ensures c.tx.kind.CashVoid?
  {}

  /******* Replaying without corrections *******/

  lemma {:induction false} KeptConcat(a: seq<Row>, b: seq<Row>, events: seq<Row>)
    ensures KeptOf(a + b, events) == KeptOf(a, events) + KeptOf(b, events)
  {
    if b == [] {
      assert a + b == a;
    } else {
      KeptConcat(a, b[..|b| - 1], events);
      assert (a + b)[..|a + b| - 1] == a + b[..|b| - 1];
    }
    hide Kept;
  }

  lemma KeptFirst(rows: seq<Row>, events: seq<Row>)
    requires rows != []
    ensures KeptOf(rows, events) == (if Kept(events, rows[0]) then [rows[0]] else []) + KeptOf(rows[1..], events)
  {
    assert rows == [rows[0]] + rows[1..];
    KeptConcat([rows[0]], rows[1..], events);
    KeptOne(rows[0], events);
    hide Kept, KeptOf;
  }

  lemma KeptOne(row: Row, events: seq<Row>)
    ensures KeptOf([row], events) == if Kept(events, row) then [row] else []
  {
    assert [row][..0] == [];
    hide Kept;
  }

  /** Dropping rows first and ranking them afterwards is ranking and then dropping. */
  lemma {:induction false} KeptInsert(policy: Policy, row: Row, rows: seq<Row>, events: seq<Row>)
    requires Sorted(policy, rows)
    ensures Kept(events, row) ==> KeptOf(Insert(policy, row, rows), events) == Insert(policy, row, KeptOf(rows, events))
    ensures !Kept(events, row) ==> KeptOf(Insert(policy, row, rows), events) == KeptOf(rows, events)
  {
    hide Kept, Before, KeptOf;
    KeptFirst(Insert(policy, row, rows), events);
    if rows == [] {
      KeptOne(row, events);
      NoneKept(events);
      assert [row][1..] == [];
      assert [row] + [] == [row];
    } else if Before(policy, row, rows[0]) {
      assert ([row] + rows)[1..] == rows;
      BeforeKept(policy, row, rows, events);
      assert [] + KeptOf(rows, events) == KeptOf(rows, events);
    } else {
      assert ([rows[0]] + Insert(policy, row, rows[1..]))[1..] == Insert(policy, row, rows[1..]);
      KeptInsert(policy, row, rows[1..], events);
      KeptFirst(rows, events);
      var k := KeptOf(rows[1..], events);
      assert ([rows[0]] + k)[1..] == k && [] + k == k;
      assert [] + Insert(policy, row, k) == Insert(policy, row, k);
    }
  }

  lemma NoneKept(events: seq<Row>)
    ensures KeptOf([], events) == []
  {}

  lemma {:induction false} BeforeKept(policy: Policy, row: Row, rows: seq<Row>, events: seq<Row>)
    requires Sorted(policy, rows) && (rows == [] || Before(policy, row, rows[0]))
    ensures Insert(policy, row, KeptOf(rows, events)) == [row] + KeptOf(rows, events)
  {
    hide Kept, Before, KeptOf;
    if rows == [] {
      NoneKept(events);
      assert [row] + [] == [row];
    } else {
      KeptFirst(rows, events);
      var k := KeptOf(rows[1..], events);
      if Kept(events, rows[0]) {
        assert ([rows[0]] + k)[0] == rows[0];
      } else {
        assert [] + k == k;
        if |rows| > 1 {
          BeforeTransitive(policy, row, rows[0], rows[1]);
        }
        BeforeKept(policy, row, rows[1..], events);
      }
    }
  }

  lemma {:induction false} KeptRanked(policy: Policy, rows: seq<Row>, events: seq<Row>)
    requires Distinct(rows)
    ensures KeptOf(Ranked(policy, rows), events) == Ranked(policy, KeptOf(rows, events))
  {
    if rows != [] {
      var front, last := rows[..|rows| - 1], rows[|rows| - 1];
      KeptRanked(policy, front, events);
      RankedIsOrdering(policy, front);
      KeptInsert(policy, last, Ranked(policy, front), events);
      var k := KeptOf(front, events);
      assert (k + [last])[..|k|] == k;
      assert k + [] == k;
    }
    hide Kept, Before, Insert, Sorted;
  }

  /** Rows that only move cash can be left out of a replay: the lots and the realised
      PnL do not notice. */
  lemma {:induction false} CashOnlyDrops(rows: seq<Row>, events: seq<Row>)
    requires Replay(rows).Some? && forall i :: 0 <= i < |rows| ==> Kept(events, rows[i]) || CashOnly(rows[i].tx.kind)
    ensures var kept := Replay(KeptOf(rows, events));
      kept.Some? && kept.value.positions == Replay(rows).value.positions && kept.value.realized == Replay(rows).value.realized
  {
    hide Step, Kept, CashOnly;
    if rows != [] {
      var front, last := rows[..|rows| - 1], rows[|rows| - 1];
      CashOnlyDrops(front, events);
      var k := KeptOf(front, events);
      StepIgnoresCash(Replay(front).value, Replay(k).value, last.tx);
      assert (k + [last])[..|k|] == k;
      assert k + [] == k;
    }
  }

  lemma StepIgnoresCash(a: Book, b: Book, t: Transaction)
    requires a.positions == b.positions && a.realized == b.realized && Step(a, t).Some?
    ensures Step(b, t).Some? && Step(b, t).value.positions == Step(a, t).value.positions
    ensures Step(b, t).value.realized == Step(a, t).value.realized
    ensures CashOnly(t.kind) ==> Step(a, t).value.positions == b.positions && Step(a, t).value.realized == b.realized
  {
    hide CanonicalUtc, TradeStep, Number;
    if IsTrade(t.kind) {
      var amount := Number(t.amount).value;
      TradeIgnoresCash(a.(cash := Plus(a.cash, t.currency, amount)), b.(cash := Plus(b.cash, t.currency, amount)), t, amount);
    }
  }

  lemma TradeIgnoresCash(a: Book, b: Book, t: Transaction, amount: real)
    requires a.positions == b.positions && a.realized == b.realized && TradeStep(a, t, amount).Some?
    ensures TradeStep(b, t, amount).Some?
    ensures TradeStep(b, t, amount).value.positions == TradeStep(a, t, amount).value.positions
    ensures TradeStep(b, t, amount).value.realized == TradeStep(a, t, amount).value.realized
  {
    hide SellFrom, Number, BuyCost, SplitLots, Plus;
  }

  lemma DroppedIsCash(events: seq<Row>, row: Row)
    requires TableFits(events) && row in events && !Kept(events, row)
    ensures CashOnly(row.tx.kind)
  {
    hide TableFits, Reverses, Corrects;
    if !row.tx.kind.CashVoid? {
      var v :| v in events && Corrects(v, row);
      var j :| 0 <= j < |events| && events[j] == v;
      var k :| 0 <= k < |events| && events[k] == row;
      CorrectsIsVoid(v, row);
      var i := CorrectionTarget(events, j);
      EligibleTarget(row.tx, v.tx);
      EligibleNoVoid(row.tx.kind);
    }
  }

  /** In every ledger, the ledger with each correction and its target removed replays to
      the same cash, the same lots and the same realised PnL. */
  lemma CorrectionsLeaveNoTrace(events: seq<Row>, policy: Policy, c: string)
    requires TableFits(events) && Replay(Ranked(policy, events)).Some?
    ensures var book, kept := Replay(Ranked(policy, events)).value, Replay(Ranked(policy, KeptOf(events, events)));
      && kept.Some? && kept.value.positions == book.positions && kept.value.realized == book.realized
      && Get(kept.value.cash, c) == Get(book.cash, c)
  {
    hide TableFits, Replay, Ranked, Kept, KeptOf, FlowOf;
    var ranked := Ranked(policy, events);
    TableIsChecked(events);
    KeptRanked(policy, events, events);
    RankedMembers(policy, events);
    forall i | 0 <= i < |ranked|
      ensures Kept(events, ranked[i]) || CashOnly(ranked[i].tx.kind)
    {
      assert ranked[i] in events;
      if !Kept(events, ranked[i]) {
        DroppedIsCash(events, ranked[i]);
      }
    }
    CashOnlyDrops(ranked, events);
    CorrectionsCancel(events, c);
    CashIsSum(ranked, c);
    CashIsSum(Ranked(policy, KeptOf(events, events)), c);
    SumRanked(policy, events, Cash(c));
    SumRanked(policy, KeptOf(events, events), Cash(c));
  }
}
