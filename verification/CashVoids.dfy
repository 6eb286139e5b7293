/** Cash corrections: validateCashVoid (services/core/core.go:1395-1421) and the table's
    own guard on text (migrations/022_ledger_replay_policy.sql:46-58).
  */
module CashVoids {
  import opened Results
  import opened Exact
  import opened DecimalText
  import opened UtcText
  import opened LedgerTable
  import opened FifoLaws
  import opened RowChecks

  /******* Looking up an event *******/

  /** loadTransactionBySource. */
  function FindBySource(events: seq<Row>, account: string, source: string): (r: Option<Row>)
    ensures r.Some? ==> r.value in events && r.value.tx.accountId == account && r.value.tx.sourceEventId == source
    ensures r.None? ==> forall e :: e in events ==> e.tx.accountId != account || e.tx.sourceEventId != source
  {
    if events == [] then None
    else
      var last := events[|events| - 1];
      if last.tx.accountId == account && last.tx.sourceEventId == source then Some(last)
      else FindBySource(events[..|events| - 1], account, source)
  }

  /** UNIQUE(account_id, source_event_id). */
  ghost predicate UniqueSources(events: seq<Row>) {
    forall i, j :: 0 <= i < j < |events| ==>
      events[i].tx.accountId != events[j].tx.accountId || events[i].tx.sourceEventId != events[j].tx.sourceEventId
  }

  /** UNIQUE(account_id, corrects_source_event_id), absent texts being NULL. */
  ghost predicate UniqueCorrections(events: seq<Row>) {
    forall i, j :: 0 <= i < j < |events| && events[i].tx.corrects != "" ==>
      events[i].tx.accountId != events[j].tx.accountId || events[i].tx.corrects != events[j].tx.corrects
  }

  lemma FindUnique(events: seq<Row>, i: nat)
    requires UniqueSources(events) && i < |events|
    ensures FindBySource(events, events[i].tx.accountId, events[i].tx.sourceEventId) == Some(events[i])
  {
    var found := FindBySource(events, events[i].tx.accountId, events[i].tx.sourceEventId);
    assert events[i] in events;
  }

  /******* The two checks *******/

  predicate Eligible(kind: Kind) {
    kind.Deposit? || kind.Withdrawal? || kind.Dividend? || kind.Fee? || kind.Tax?
  }

  /** The correction undoes this target: same currency, opposite amount, not earlier. */
  predicate Reverses(target: Transaction, c: Transaction) {
    && Eligible(target.kind) && target.currency == c.currency
    && ParseUtc(target.occurredAt).Some? && ParseUtc(c.occurredAt).Some?
    && !StampLess(ParseUtc(c.occurredAt).value, ParseUtc(target.occurredAt).value)
    && ParseDecimal(target.amount).Some? && ParseDecimal(c.amount).Some?
    && Sign(Add(ParseDecimal(target.amount).value, ParseDecimal(c.amount).value)) == 0
  }

  predicate Unused(events: seq<Row>, c: Transaction) {
    forall e :: e in events ==> e.tx.accountId != c.accountId || e.tx.corrects != c.corrects
  }

  predicate ValidCashVoid(events: seq<Row>, c: Transaction, requireUnused: bool) {
    var target := FindBySource(events, c.accountId, c.corrects);
    target.Some? && Reverses(target.value.tx, c) && (requireUnused ==> Unused(events, c))
  }

  function NegatedText(amount: string): string {
    if Dashed(amount) then amount[1..] else "-" + amount
  }

  predicate ReversesInText(target: Transaction, c: Transaction) {
    && Eligible(target.kind) && target.currency == c.currency
    && !LexLess(RTrimZ(c.occurredAt), RTrimZ(target.occurredAt))
    && c.amount == NegatedText(target.amount)
  }

  /** The trigger events_cash_void_guard lets the row in. */
  predicate GuardAllows(events: seq<Row>, c: Transaction) {
    exists e :: e in events && e.tx.accountId == c.accountId && e.tx.sourceEventId == c.corrects && ReversesInText(e.tx, c)
  }

  /******* They agree *******/

  lemma JoinNegated(m: int, integer: string, fraction: string)
    requires m != 0 && CanonicalInteger(integer)
    ensures Join(-m, integer, fraction) == NegatedText(Join(m, integer, fraction))
  {
    assert IsDigit(integer[0]) && Body(integer, fraction)[0] == integer[0];
    if m < 0 {
      assert ("-" + Body(integer, fraction))[1..] == Body(integer, fraction);
      assert "" + Body(integer, fraction) == Body(integer, fraction);
    } else {
      assert "" + Body(integer, fraction) == Body(integer, fraction);
    }
  }

  lemma NegatedDigits(m: int)
    ensures Abs(-m) == Abs(m)
  {}

  /** The text of minus a non-zero decimal is its text with the dash put on or off. */
  lemma NegatedTextParses(raw: string)
    requires ParseDecimal(raw).Some? && raw != "0"
    ensures ParseDecimal(NegatedText(raw)).Some?
    ensures Val(ParseDecimal(NegatedText(raw)).value) == -Val(ParseDecimal(raw).value)
  {
    SignInText(raw);
    hide *;
    var m, integer, fraction := ParsedShape(raw);
    SignOfParsed(raw, m, integer, fraction);
    NegatedDigits(m);
    JoinNegated(m, integer, fraction);
    ParseOfParts(-m, integer, fraction);
    NegatedRatio(m, |fraction|);
  }

  lemma NegatedRatio(m: int, k: nat)
    ensures Val(Ratio(-m, Pow10(k))) == -Val(Ratio(m, Pow10(k)))
  {
    ValUnique(Ratio(-m, Pow10(k)), -Val(Ratio(m, Pow10(k))));
  }

  /** Two canonical decimals cancel exactly when their texts are opposite. */
  lemma CancelInText(a: string, b: string)
    requires ParseDecimal(a).Some? && ParseDecimal(b).Some? && b != "0"
    ensures Sign(Add(ParseDecimal(a).value, ParseDecimal(b).value)) == 0 <==> b == NegatedText(a)
  {
    SignInText(a);
    SignInText(b);
    hide *;
    var x, y := ParseDecimal(a).value, ParseDecimal(b).value;
    assert Sign(y) != 0;
    if a == "0" {
      assert Sign(x) == 0 && Val(x) == 0.0;
      ZeroNegated(a);
    } else {
      NegatedTextParses(a);
      var z := ParseDecimal(NegatedText(a)).value;
      if Val(x) + Val(y) == 0.0 {
        FormatOfParse(b);
        FormatOfParse(NegatedText(a));
        FormatOfValue(y, z);
      }
    }
  }

  lemma ZeroNegated(a: string)
    requires a == "0"
    ensures NegatedText(a) == "-0"
  {}

  lemma TimeInText(a: string, b: string)
    requires CanonicalUtc(a) && CanonicalUtc(b)
    ensures ParseUtc(a).Some? && ParseUtc(b).Some?
    ensures StampLess(ParseUtc(a).value, ParseUtc(b).value) <==> LexLess(RTrimZ(a), RTrimZ(b))
  {
    TrimmedTextsSortByTime(a, b);
    InstantOrder(ParseUtc(a).value, ParseUtc(b).value);
    hide Format, RTrimZ, LexLess, StampLess, Instant;
  }

  /** The exact check and the check on text agree for stored rows. */
  lemma ReversesAgree(target: Transaction, c: Transaction)
    requires CanonicalUtc(target.occurredAt) && CanonicalUtc(c.occurredAt)
    requires ParseDecimal(target.amount).Some? && ParseDecimal(c.amount).Some? && c.amount != "0"
    ensures Reverses(target, c) <==> ReversesInText(target, c)
  {
    TimeInText(c.occurredAt, target.occurredAt);
    CancelInText(target.amount, c.amount);
    hide ParseDecimal, CanonicalUtc, ParseUtc, StampLess, LexLess, RTrimZ, NegatedText, Sign, Add, Val;
  }

  /** A correction validateCashVoid accepts is one the table's guard lets in, and the
      other way round. */
  lemma GuardAgrees(events: seq<Row>, c: Transaction)
    requires UniqueSources(events) && CanonicalUtc(c.occurredAt) && ParseDecimal(c.amount).Some? && c.amount != "0"
    requires forall e :: e in events ==> CanonicalUtc(e.tx.occurredAt) && ParseDecimal(e.tx.amount).Some?
    ensures ValidCashVoid(events, c, false) <==> GuardAllows(events, c)
  {
    hide ParseDecimal, CanonicalUtc, Reverses, ReversesInText, FindBySource;
    var found := FindBySource(events, c.accountId, c.corrects);
    if found.Some? {
      ReversesAgree(found.value.tx, c);
    }
    if e :| e in events && e.tx.accountId == c.accountId && e.tx.sourceEventId == c.corrects {
      var i :| 0 <= i < |events| && events[i] == e;
      FindUnique(events, i);
    }
  }

  /** What a valid correction does to the balances: it cancels its target. */
  lemma ReversalCancels(target: Transaction, c: Transaction, currency: string)
    requires Reverses(target, c) && c.kind.CashVoid?
    ensures CashFlow(c, currency) == -CashFlow(target, currency)
  {
    hide ParseDecimal, Val, ParseUtc, StampLess;
  }
}
