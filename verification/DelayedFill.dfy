/** A literal log: a signal that saw two bars, a delay of two, and an order that fills on
    the second bar of its series after them.
  */
module DelayedFill {
  import opened Results
  import opened Exact
  import opened OrderStore
  import opened PaperFill
  import opened PaperReplay
  import opened PaperLaws
  import opened PaperLog
  import opened Dispatch

  /** Five units traded at 10. */
  function MinuteBar(id: string, series: string): Bar {
    Bar(id, series, FromInt(10), FromInt(5), 0, 100)
  }

  const BARS := [MinuteBar("first", "series"), MinuteBar("second", "series"), MinuteBar("third", "series"), MinuteBar("alien", "other"),
                 MinuteBar("fifth", "series")]
  const DELAYED_ORDER := Order(LATE_ORDER, "series", 2, EVIDENCE)
  const DELAYED_ENV := Env(BARS, map["account" := Session(FromInt(100), FREE, 2)], map["order" := DELAYED_ORDER], [LEASE])

  function RowOn(barId: string): Row {
    LATE_ROW.(barId := barId)
  }

  /** Only the fifth bar is eligible: the first two were seen, the third is skipped, the
      fourth is of another series. */
  lemma OnlyFifth(k: nat)
    ensures Eligible(BARS, DELAYED_ORDER, 2, k) <==> k == 4
  {
    if k == 2 {
      assert BARS[2..2] == [];
    } else if k == 4 {
      var between := BARS[2..4];
      assert between == [BARS[2], BARS[3]] && between[..1] == [BARS[2]] && between[..1][..0] == [];
    }
  }

  lemma DelayedValid()
    ensures ValidEnv(DELAYED_ENV)
  {
    hide Val;
    FiniteInt(100);
    FiniteInt(10);
    FiniteInt(0);
  }

  lemma DelayedOutcome()
    ensures Known(DELAYED_ENV, "order")
    ensures OutcomeAt(DELAYED_ENV, [], "order", BARS[4]) == Filled(Fill(1, 10.0, 10.0, 10.0, 0.0, 0.0, 0.0, -10.0))
  {
    hide Val, FillFor;
    LateFill();
    assert AskAt(DELAYED_ENV, [], "order", BARS[4]) == Ask(Buy, 10.0, 5.0, 1, 100.0, 0.0, 0);
  }

  /** The order fills on the fifth bar, and a first row on any other is refused. */
  lemma FillsOnFifth(row: Row)
    ensures Replay(DELAYED_ENV, [RowOn("fifth")]).Some?
    ensures Replay(DELAYED_ENV, [row]).Some? ==> row.barId == "fifth"
  {
    hide ValidEnv, OutcomeAt, Eligible, Val, Provenanced;
    DelayedValid();
    DelayedOutcome();
    assert [row][..0] == [] && [RowOn("fifth")][..0] == [];
    assert Provenanced(DELAYED_ENV, RowOn("fifth")) by { DelayedLease(); }
    OnlyFifth(4);
    forall m: nat
      ensures Eligible(BARS, DELAYED_ORDER, 2, m) <==> m == 4
    {
      OnlyFifth(m);
    }
    assert FillsBar(DELAYED_ENV, [], RowOn("fifth"), 4);
    AcceptedExactly(DELAYED_ENV, [RowOn("fifth")]);
    AcceptedExactly(DELAYED_ENV, [row]);
    if Replay(DELAYED_ENV, [row]).Some? {
      assert DueRow(DELAYED_ENV, [row][..0], [row][0]);
      var k: nat :| FillsBar(DELAYED_ENV, [], row, k);
    }
  }

  lemma DelayedLease()
    ensures Provenanced(DELAYED_ENV, RowOn("fifth"))
  {
    assert FindAuthority([LEASE], "lease") == Some(LEASE);
  }
}
