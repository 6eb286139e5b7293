/** What one import row must look like: normalize, unresolved, sameTransaction and
    validateCashVoid (services/core/core.go:1378-1603), against the checks the
    `events` table makes for itself (migrations/009_fx_exchange.sql and
    migrations/022_ledger_replay_policy.sql).

    A row arrives as named columns; text case is folded for ASCII letters only.
  */
module RowChecks {
  import opened Results
  import opened Exact
  import opened DecimalText
  import opened UtcText
  import opened LedgerTable
  import opened Fifo
  import opened FifoLaws

  datatype FieldError = FieldError(code: string, field: string)
  datatype Normalized = Normalized(tx: Transaction, errors: seq<FieldError>)

  function Unless(ok: bool, code: string, field: string): (errors: seq<FieldError>)
    ensures errors == [] <==> ok
  {
    if ok then [] else [FieldError(code, field)]
  }

  predicate IsCurrency(s: string) {
    |s| == 3 && forall i :: 0 <= i < 3 ==> 'A' <= s[i] <= 'Z'
  }

  function Lower(s: string): string {
    seq(|s|, i requires 0 <= i < |s| => if 'A' <= s[i] <= 'Z' then (s[i] as int + 32) as char else s[i])
  }

  function InstrumentIdFor(symbol: string): string {
    "instrument_" + Lower(symbol)
  }

  predicate PositiveDecimal(raw: string) {
    var v := ParseDecimal(raw);
    v.Some? && Sign(v.value) > 0
  }

  predicate NonNegativeDecimal(raw: string) {
    var v := ParseDecimal(raw);
    v.Some? && Sign(v.value) >= 0
  }

  /** The amount, when it parses, has the sign wanted. */
  predicate AmountIs(raw: string, signs: set<int>) {
    var v := ParseDecimal(raw);
    v.Some? ==> Sign(v.value) in signs
  }

  predicate NoTradeFields(t: Transaction) {
    t.symbol == "" && t.quantity == "" && t.price == "" && t.fee == ""
  }

  function WithoutTradeFields(t: Transaction): Transaction {
    t.(symbol := "", quantity := "", price := "", fee := "")
  }

  function InstrumentOf(symbol: string): string {
    if symbol == "" then "" else InstrumentIdFor(symbol)
  }

  /** amount equals the signed cash impact of the trade, fee included. */
  predicate AmountMatches(t: Transaction) {
    var quantity, price, fee, amount := ParseDecimal(t.quantity), ParseDecimal(t.price), ParseDecimal(t.fee), ParseDecimal(t.amount);
    PositiveDecimal(t.quantity) && PositiveDecimal(t.price) && NonNegativeDecimal(t.fee) && amount.Some? ==>
      var value := Mul(quantity.value, price.value);
      Cmp(if t.kind.Buy? then Neg(Add(value, fee.value)) else Sub(value, fee.value), amount.value) == 0
  }

  function CounterErrors(t: Transaction): seq<FieldError> {
    (if t.counterCurrency == "" then [FieldError("required", "counter_currency")]
     else Unless(IsCurrency(t.counterCurrency) && t.counterCurrency != t.currency, "invalid_currency", "counter_currency"))
    + (if t.counterAmount == "" then [FieldError("required", "counter_amount")]
       else if ParseDecimal(t.counterAmount).None? then [FieldError("invalid_decimal", "counter_amount")]
       else Unless(PositiveDecimal(t.counterAmount), "invalid_amount", "counter_amount"))
  }

  function KindErrors(t: Transaction): seq<FieldError> {
    match t.kind
    case Deposit => Unless(NoTradeFields(t), "invalid_fields", "symbol") + Unless(AmountIs(t.amount, {1}), "invalid_amount", "amount")
    case Withdrawal => Unless(NoTradeFields(t), "invalid_fields", "symbol") + Unless(AmountIs(t.amount, {-1}), "invalid_amount", "amount")
    case Fee => Unless(NoTradeFields(t), "invalid_fields", "symbol") + Unless(AmountIs(t.amount, {-1}), "invalid_amount", "amount")
    case Tax => Unless(NoTradeFields(t), "invalid_fields", "symbol") + Unless(AmountIs(t.amount, {-1}), "invalid_amount", "amount")
    case Dividend =>
      Unless(t.symbol != "", "required", "symbol")
      + Unless(t.quantity == "" && t.price == "" && t.fee == "", "invalid_fields", "quantity")
      + Unless(AmountIs(t.amount, {1}), "invalid_amount", "amount")
    case Split =>
      Unless(t.symbol != "", "required", "symbol") + Unless(PositiveDecimal(t.quantity), "invalid_decimal", "quantity")
      + Unless(t.price == "" && t.fee == "", "invalid_fields", "price") + Unless(AmountIs(t.amount, {0}), "invalid_amount", "amount")
    case CashVoid =>
      Unless(NoTradeFields(t), "invalid_fields", "symbol") + Unless(t.corrects != "", "required", "corrects_source_event_id")
      + Unless(AmountIs(t.amount, {-1, 1}), "invalid_amount", "amount")
    case FxExchange =>
      Unless(NoTradeFields(t), "invalid_fields", "symbol") + Unless(AmountIs(t.amount, {-1}), "invalid_amount", "amount")
      + CounterErrors(t)
    case Unsupported(_) => [FieldError("invalid_type", "type")]
    case _ =>
      Unless(t.symbol != "", "required", "symbol") + Unless(PositiveDecimal(t.quantity), "invalid_decimal", "quantity")
      + Unless(PositiveDecimal(t.price), "invalid_decimal", "price") + Unless(NonNegativeDecimal(t.fee), "invalid_decimal", "fee")
      + Unless(AmountMatches(t), "amount_mismatch", "amount")
  }

  /** The fields the kind has no use for are blanked. */
  function Cleaned(t: Transaction): Transaction {
    match t.kind
    case Dividend => t.(instrumentId := InstrumentOf(t.symbol), quantity := "", price := "", fee := "")
    case Split => t.(instrumentId := InstrumentOf(t.symbol), price := "", fee := "")
    case Buy => t.(instrumentId := InstrumentOf(t.symbol))
    case Sell => t.(instrumentId := InstrumentOf(t.symbol))
    case Unsupported(_) => t
    case _ => WithoutTradeFields(t)
  }

  function CommonErrors(t: Transaction, timed: bool): seq<FieldError> {
    Unless(t.sourceEventId != "", "required", "source_event_id") + Unless(t.accountId != "", "required", "account_id")
    + Unless(timed, "invalid_datetime", "occurred_at") + Unless(IsCurrency(t.currency), "invalid_currency", "currency")
    + Unless(ParseDecimal(t.amount).Some?, "invalid_decimal", "amount")
    + Unless(t.kind.CashVoid? || t.corrects == "", "invalid_fields", "corrects_source_event_id")
    + Unless(t.kind.FxExchange? || (t.counterCurrency == "" && t.counterAmount == ""), "invalid_fields", "counter_currency")
  }

  /** The text a row's time becomes. */
  function TimeText(raw: string): string {
    var time := ParseUtc(raw);
    if time.Some? then Format(time.value) else raw
  }

  function Normalize(eventId: string, raw: Transaction): (n: Normalized) {
    var t := raw.(eventId := eventId, instrumentId := "", occurredAt := TimeText(raw.occurredAt));
    Normalized(Cleaned(t), CommonErrors(t, ParseUtc(raw.occurredAt).Some?) + KindErrors(t))
  }

  /******* What an accepted row satisfies *******/

  /** No error for the kind, said as one condition. */
  predicate KindFits(t: Transaction) {
    match t.kind
    case Deposit => NoTradeFields(t) && AmountIs(t.amount, {1})
    case Dividend => t.symbol != "" && t.quantity == "" && t.price == "" && t.fee == "" && AmountIs(t.amount, {1})
    case Split => t.symbol != "" && PositiveDecimal(t.quantity) && t.price == "" && t.fee == "" && AmountIs(t.amount, {0})
    case CashVoid => NoTradeFields(t) && t.corrects != "" && AmountIs(t.amount, {-1, 1})
    case FxExchange => NoTradeFields(t) && AmountIs(t.amount, {-1}) && CounterFits(t)
    case Unsupported(_) => false
    case Buy => TradeFits(t)
    case Sell => TradeFits(t)
    case _ => NoTradeFields(t) && AmountIs(t.amount, {-1})
  }

  predicate TradeFits(t: Transaction) {
    && t.symbol != "" && PositiveDecimal(t.quantity) && PositiveDecimal(t.price) && NonNegativeDecimal(t.fee)
    && AmountMatches(t)
  }

  predicate CounterFits(t: Transaction) {
    && t.counterCurrency != "" && IsCurrency(t.counterCurrency) && t.counterCurrency != t.currency
    && t.counterAmount != "" && PositiveDecimal(t.counterAmount)
  }

  lemma KindErrorsEmpty(t: Transaction)
    ensures KindErrors(t) == [] <==> KindFits(t)
  {
    hide CounterErrors, CounterFits, AmountMatches, AmountIs, PositiveDecimal, NonNegativeDecimal, Unless, NoTradeFields;
    CounterErrorsEmpty(t);
  }

  lemma CounterErrorsEmpty(t: Transaction)
    ensures CounterErrors(t) == [] <==> CounterFits(t)
  {
    hide ParseDecimal, Sign, IsCurrency, Unless;
  }

  /** Every condition normalize checks, said of one transaction. */
  predicate Fits(t: Transaction) {
    && t.sourceEventId != "" && t.accountId != "" && IsCurrency(t.currency) && ParseDecimal(t.amount).Some?
    && (t.kind.CashVoid? || t.corrects == "") && (t.kind.FxExchange? || (t.counterCurrency == "" && t.counterAmount == ""))
    && KindFits(t)
  }

  lemma CommonFits(t: Transaction, timed: bool)
    ensures CommonErrors(t, timed) + KindErrors(t) == [] <==> timed && Fits(t)
  {
    KindErrorsEmpty(t);
    hide KindErrors, KindFits, IsCurrency, ParseDecimal;
  }

  /** The columns normalize checks besides the time. */
  predicate SameColumns(s: Transaction, t: Transaction) {
    && s.sourceEventId == t.sourceEventId && s.accountId == t.accountId && s.kind == t.kind && s.symbol == t.symbol
    && s.quantity == t.quantity && s.price == t.price && s.fee == t.fee && s.currency == t.currency && s.amount == t.amount
    && s.counterCurrency == t.counterCurrency && s.counterAmount == t.counterAmount && s.corrects == t.corrects
  }

  lemma SameFits(s: Transaction, t: Transaction)
    requires SameColumns(s, t)
    ensures Fits(s) == Fits(t)
  {
    SameCounter(s, t);
    hide ParseDecimal, IsCurrency, AmountIs, PositiveDecimal, NonNegativeDecimal, AmountMatches, CounterFits;
  }

  lemma SameCounter(s: Transaction, t: Transaction)
    requires SameColumns(s, t)
    ensures CounterFits(s) == CounterFits(t) && AmountMatches(s) == AmountMatches(t)
  {
    hide ParseDecimal, IsCurrency, PositiveDecimal, NonNegativeDecimal;
  }

  /** Nothing an accepted row carries is blanked. */
  lemma CleanKeeps(t: Transaction)
    requires KindFits(t) && t.instrumentId == ""
    ensures Cleaned(t) == t.(instrumentId := InstrumentOf(t.symbol))
  {
    hide AmountIs, PositiveDecimal, NonNegativeDecimal, AmountMatches, CounterFits, InstrumentIdFor;
  }

  lemma FitsKind(t: Transaction)
    requires Fits(t)
    ensures KindFits(t) && ParseDecimal(t.amount).Some? && IsCurrency(t.currency)
    ensures (t.kind.CashVoid? || t.corrects == "") && (t.kind.FxExchange? || (t.counterCurrency == "" && t.counterAmount == ""))
  {
    hide KindFits, ParseDecimal, IsCurrency;
  }

  /** normalize accepts exactly the fitting rows with a parseable time, and changes
      nothing but the event id, the time text and the instrument id. */
  lemma NormalizeAccepts(eventId: string, raw: Transaction)
    ensures Normalize(eventId, raw).errors == [] <==> ParseUtc(raw.occurredAt).Some? && Fits(raw)
    ensures Normalize(eventId, raw).errors == [] ==>
      Normalize(eventId, raw).tx ==
        raw.(eventId := eventId, occurredAt := TimeText(raw.occurredAt), instrumentId := InstrumentOf(raw.symbol))
  {
    var t := raw.(eventId := eventId, instrumentId := "", occurredAt := TimeText(raw.occurredAt));
    CommonFits(t, ParseUtc(raw.occurredAt).Some?);
    SameFits(t, raw);
    if Fits(t) {
      FitsKind(t);
      CleanKeeps(t);
    }
    hide Fits, KindErrors, KindFits, Cleaned, CommonErrors, TimeText, InstrumentOf;
  }

  /** Normalizing an accepted row again gives it back exactly when its time is
      canonical: when the year, moved to UTC, still has four digits. */
  lemma NormalizeAgain(eventId: string, raw: Transaction)
    requires Normalize(eventId, raw).errors == []
    ensures var t := Normalize(eventId, raw).tx;
      && ParseUtc(raw.occurredAt).Some?
      && (CanonicalUtc(t.occurredAt) <==> FourDigitYear(ParseUtc(raw.occurredAt).value))
      && (Normalize(eventId, t) == Normalized(t, []) <==> CanonicalUtc(t.occurredAt))
  {
    NormalizeAccepts(eventId, raw);
    var t := Normalize(eventId, raw).tx;
    NormalizeAccepts(eventId, t);
    SameFits(t, raw);
    CanonicalIsFormat(ParseUtc(raw.occurredAt).value);
    hide Fits, Normalize, Format, InstrumentOf, ParseRfc3339, FourDigitYear;
  }

  /** A local time in year 0000 that falls in the year before, in UTC: the preview
      calls the row new, and its stored text is not canonical. */
  lemma YearZeroIsLost(eventId: string, raw: Transaction)
    requires raw.occurredAt == "0000-01-01T00:00:00+01:00" && Fits(raw)
    ensures var n := Normalize(eventId, raw); n.errors == [] && !CanonicalUtc(n.tx.occurredAt)
  {
    YearZeroParses();
    NormalizeAccepts(eventId, raw);
    NormalizeAgain(eventId, raw);
    hide Normalize, Fits;
  }

  lemma YearZeroParses()
    ensures ParseUtc("0000-01-01T00:00:00+01:00") == Some(Stamp(-1, 12, 31, 23, 0, 0, 0))
  {
    var raw := "0000-01-01T00:00:00+01:00";
    var stamp := Stamp(0, 1, 1, 0, 0, 0, 0);
    ZoneOneHour();
    TwoDigits(0, "00", 0);
    NewYearText(stamp, "00", "00");
    YearText0000(stamp);
    ParseOfZoned(stamp, "+01:00");
    ZonedUtc(stamp, raw);
    hide *;
  }

  lemma YearText0000(s: Stamp)
    requires ValidStamp(s) && Stripped(s) == "00" + "00" + "-01-01T00:00:00"
    ensures Stripped(s) + "+01:00" == "0000-01-01T00:00:00+01:00"
  {
    assert "00" + "00" == "0000";
    assert "0000" + "-01-01T00:00:00" == "0000-01-01T00:00:00";
  }

  lemma ZonedUtc(stamp: Stamp, raw: string)
    requires stamp == Stamp(0, 1, 1, 0, 0, 0, 0) && ParseRfc3339(raw) == Some(Local(stamp, 60))
    ensures ParseUtc(raw) == Some(Stamp(-1, 12, 31, 23, 0, 0, 0))
  {
    hide ParseRfc3339;
  }

  lemma ZoneOneHour()
    ensures ParseZone("+01:00") == Some(60)
  {
    TwoDigits(0, "01", 1);
    TwoDigits(0, "00", 0);
    assert "+01:00"[1..3] == "01" && "+01:00"[4..] == "00";
    hide DigitsVal;
  }

  /** An accepted row has the numbers the replay counts on. */
  lemma FitsChecked(t: Transaction)
    requires Fits(t)
    ensures Checked(t)
  {
    FitsKind(t);
    hide *;
    KindNumbers(t);
    CheckedIs(t);
  }

  lemma KindNumbers(t: Transaction)
    requires KindFits(t) && ParseDecimal(t.amount).Some?
    ensures t.kind.Buy? || t.kind.Sell? ==> TradeChecked(t)
    ensures t.kind.Buy? ==> Num(t.amount) == -BuyCost(Num(t.quantity), Num(t.price), Num(t.fee))
    ensures t.kind.Sell? ==> Num(t.amount) == Times(Num(t.quantity), Num(t.price)) - Num(t.fee)
    ensures t.kind.Split? ==> Positive(t.quantity) && Num(t.amount) == 0.0
    ensures t.kind.FxExchange? ==> Positive(t.counterAmount)
    ensures !t.kind.Unsupported?
  {
    match t.kind {
      case Buy => TradeAmount(t);
      case Sell => TradeAmount(t);
      case Split =>
        ZeroAmount(t.amount);
        PositiveNumber(t.quantity);
      case FxExchange => PositiveNumber(t.counterAmount);
      case _ =>
    }
    hide ParseDecimal, Val, BuyCost, Times, AmountMatches, NonNegativeDecimal, AmountIs, PositiveDecimal, Positive, TradeChecked, Num;
  }

  lemma CheckedIs(t: Transaction)
    requires IsCurrency(t.currency) && ParseDecimal(t.amount).Some?
    requires t.kind.Buy? || t.kind.Sell? ==> TradeChecked(t)
    requires t.kind.Buy? ==> Num(t.amount) == -BuyCost(Num(t.quantity), Num(t.price), Num(t.fee))
    requires t.kind.Split? ==> Positive(t.quantity) && Num(t.amount) == 0.0
    requires t.kind.FxExchange? ==> Positive(t.counterAmount)
    requires !t.kind.Unsupported?
    ensures Checked(t)
  {
    hide ParseDecimal, Val, BuyCost, TradeChecked, Num;
  }

  lemma ZeroAmount(raw: string)
    requires AmountIs(raw, {0}) && ParseDecimal(raw).Some?
    ensures Num(raw) == 0.0
  {
    hide ParseDecimal, Val, Sign;
  }

  lemma PositiveNumber(raw: string)
    requires PositiveDecimal(raw)
    ensures Positive(raw)
  {
    hide ParseDecimal, Val, Sign;
  }

  lemma TradeAmount(t: Transaction)
    requires TradeFits(t) && ParseDecimal(t.amount).Some?
    ensures TradeChecked(t)
    ensures t.kind.Buy? ==> Num(t.amount) == -BuyCost(Num(t.quantity), Num(t.price), Num(t.fee))
    ensures !t.kind.Buy? ==> Num(t.amount) == Times(Num(t.quantity), Num(t.price)) - Num(t.fee)
  {
    hide ParseDecimal, Val;
  }

  /******* The table's own checks *******/

  /** GLOB '-*'. */
  predicate Dashed(s: string) {
    s != "" && s[0] == '-'
  }

  /** The CHECK clause of `events`, where NULL stands for an absent text. */
  predicate TableCheck(t: Transaction) {
    var noTrade := t.instrumentId == "" && NoTradeFields(t);
    var noCounter := t.counterCurrency == "" && t.counterAmount == "";
    match t.kind
    case Deposit => noTrade && noCounter && t.corrects == "" && t.amount != "0" && !Dashed(t.amount)
    case Withdrawal => noTrade && noCounter && t.corrects == "" && Dashed(t.amount)
    case Fee => noTrade && noCounter && t.corrects == "" && Dashed(t.amount)
    case Tax => noTrade && noCounter && t.corrects == "" && Dashed(t.amount)
    case Dividend =>
      noCounter && t.corrects == "" && t.instrumentId != "" && t.symbol != "" && t.quantity == "" && t.price == "" && t.fee == ""
      && t.amount != "0" && !Dashed(t.amount)
    case Split =>
      noCounter && t.corrects == "" && t.instrumentId != "" && t.symbol != "" && t.quantity != "" && t.price == "" && t.fee == ""
      && t.quantity != "0" && !Dashed(t.quantity) && t.amount == "0"
    case CashVoid => noCounter && t.corrects != "" && noTrade && t.amount != "0"
    case FxExchange =>
      t.corrects == "" && noTrade && IsCurrency(t.currency) && t.amount != "0" && t.amount != "-0" && Dashed(t.amount)
      && IsCurrency(t.counterCurrency) && t.counterCurrency != t.currency
      && t.counterAmount != "" && t.counterAmount != "0" && !Dashed(t.counterAmount)
    case Unsupported(_) => false
    case _ =>
      noCounter && t.corrects == "" && t.instrumentId != "" && t.symbol != ""
      && t.quantity != "" && t.price != "" && t.fee != ""
  }

  /** In canonical decimal text a sign is a dash and zero is "0". */
  lemma SignInText(raw: string)
    requires ParseDecimal(raw).Some?
    ensures raw != "" && raw != "-0"
    ensures Sign(ParseDecimal(raw).value) < 0 <==> Dashed(raw)
    ensures Sign(ParseDecimal(raw).value) == 0 <==> raw == "0"
  {
    hide ParseDecimal, Sign;
    var m, integer, fraction := ParsedShape(raw);
    SignOfParsed(raw, m, integer, fraction);
    ZeroText(raw, m, integer, fraction);
    hide *;
  }

  lemma SignOfParsed(raw: string, m: int, integer: string, fraction: string)
    requires CanonicalInteger(integer) && raw == Join(m, integer, fraction)
    requires ParseDecimal(raw) == Some(Ratio(m, Pow10(|fraction|)))
    ensures raw != "" && (Sign(ParseDecimal(raw).value) < 0 <==> m < 0) && (Sign(ParseDecimal(raw).value) == 0 <==> m == 0)
    ensures m < 0 <==> Dashed(raw)
  {
    SignValue(ParseDecimal(raw).value);
    hide ParseDecimal;
  }

  lemma ZeroText(raw: string, m: int, integer: string, fraction: string)
    requires CanonicalInteger(integer) && (fraction == "" || CanonicalFraction(fraction)) && raw == Join(m, integer, fraction)
    requires AllDigits(integer + fraction) && DigitsVal(integer + fraction) == Abs(m)
    ensures (m == 0 <==> raw == "0") && raw != "-0"
  {
    ZeroDigits();
    if fraction != "" {
      LastDigit(integer + fraction);
      assert (integer + fraction)[|integer + fraction| - 1] == fraction[|fraction| - 1];
      assert m != 0;
      PointedLength(raw, m, integer, fraction);
    } else {
      assert integer + fraction == integer;
      LeadingDigit(integer);
      assert IsDigit(integer[0]);
      if m < 0 {
        assert raw[1..] == integer && raw[0] == '-';
        assert "-0"[1..] == "0" && "0"[0] == '0';
      } else {
        assert raw == integer;
        assert "-0"[0] == '-';
      }
    }
    hide DigitsVal, Pow10;
  }

  lemma PointedLength(raw: string, m: int, integer: string, fraction: string)
    requires integer != "" && fraction != "" && raw == Join(m, integer, fraction)
    ensures |raw| >= 3
  {}

  /** Two independent checks agree: no row normalize accepts is refused by the table. */
  lemma FitsTable(t: Transaction)
    requires Fits(t) && t.instrumentId == InstrumentOf(t.symbol)
    ensures TableCheck(t)
  {
    FitsKind(t);
    TradeTexts(t);
    AmountTexts(t.amount);
    assert t.symbol != "" <==> t.instrumentId != "";
    hide Fits, ParseDecimal, AmountIs, AmountMatches, IsCurrency, InstrumentOf, Dashed, PositiveDecimal, NonNegativeDecimal;
    if t.kind.Buy? || t.kind.Sell? || t.kind.Split? {
      TradeTable(t);
    } else {
      CashTable(t);
    }
    hide *;
  }

  lemma TradeTable(t: Transaction)
    requires KindFits(t) && (t.kind.Buy? || t.kind.Sell? || t.kind.Split?) && t.corrects == ""
    requires t.symbol != "" <==> t.instrumentId != ""
    requires t.counterCurrency == "" && t.counterAmount == ""
    requires t.kind.Split? ==> t.amount == "0"
    requires PositiveDecimal(t.quantity) ==> t.quantity != "" && t.quantity != "0" && !Dashed(t.quantity)
    requires PositiveDecimal(t.price) ==> t.price != ""
    requires NonNegativeDecimal(t.fee) ==> t.fee != ""
    ensures TableCheck(t)
  {
    hide AmountIs, AmountMatches, Dashed, PositiveDecimal, NonNegativeDecimal, ParseDecimal;
  }

  lemma CashTable(t: Transaction)
    requires KindFits(t) && !(t.kind.Buy? || t.kind.Sell? || t.kind.Split?) && IsCurrency(t.currency)
    requires t.symbol != "" <==> t.instrumentId != ""
    requires t.kind.CashVoid? || t.corrects == ""
    requires t.kind.FxExchange? || (t.counterCurrency == "" && t.counterAmount == "")
    requires t.amount != "-0"
    requires AmountIs(t.amount, {1}) ==> t.amount != "0" && !Dashed(t.amount)
    requires AmountIs(t.amount, {-1}) ==> t.amount != "0" && Dashed(t.amount)
    requires AmountIs(t.amount, {-1, 1}) ==> t.amount != "0"
    requires PositiveDecimal(t.counterAmount) ==> t.counterAmount != "0" && !Dashed(t.counterAmount)
    ensures TableCheck(t)
  {
    hide AmountIs, AmountMatches, IsCurrency, Dashed, PositiveDecimal, NonNegativeDecimal, ParseDecimal;
  }

  lemma AmountTexts(raw: string)
    requires ParseDecimal(raw).Some?
    ensures raw != "-0"
    ensures AmountIs(raw, {1}) ==> raw != "0" && !Dashed(raw)
    ensures AmountIs(raw, {-1}) ==> raw != "0" && Dashed(raw)
    ensures AmountIs(raw, {0}) ==> raw == "0"
    ensures AmountIs(raw, {-1, 1}) ==> raw != "0"
  {
    SignInText(raw);
    hide ParseDecimal, Sign, Dashed;
  }

  lemma TradeTexts(t: Transaction)
    ensures PositiveDecimal(t.quantity) ==> t.quantity != "" && t.quantity != "0" && !Dashed(t.quantity)
    ensures PositiveDecimal(t.price) ==> t.price != ""
    ensures NonNegativeDecimal(t.fee) ==> t.fee != ""
    ensures PositiveDecimal(t.counterAmount) ==> t.counterAmount != "0" && !Dashed(t.counterAmount)
  {
    if PositiveDecimal(t.quantity) {
      SignInText(t.quantity);
    }
    if PositiveDecimal(t.price) {
      SignInText(t.price);
    }
    if NonNegativeDecimal(t.fee) {
      SignInText(t.fee);
    }
    if PositiveDecimal(t.counterAmount) {
      SignInText(t.counterAmount);
    }
    hide ParseDecimal, Sign;
  }
}
