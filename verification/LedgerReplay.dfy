/** snapshotFromPolicy as it runs (services/core/core.go:1731-1903): maps of exact
    rationals updated event by event, proved to compute the book of module `Fifo`.

    The original lists cash, holdings and realised PnL sorted by key; here they are
    maps from that key.
  */
module LedgerReplay {
  import opened Results
  import opened Exact
  import opened DecimalText
  import opened UtcText
  import opened LedgerTable
  import opened Sums
  import opened Fifo
  import opened FifoLaws

  datatype RatLot = RatLot(quantity: Rat, cost: Rat)
  datatype RatPosition = RatPosition(instrumentId: string, symbol: string, currency: string, lots: seq<RatLot>)
  datatype RatBook = RatBook(cash: map<string, Rat>, realized: map<string, Rat>, positions: map<string, RatPosition>)

  datatype Holding = Holding(instrumentId: string, symbol: string, quantity: string, costBasis: string, currency: string)

  datatype Snapshot = Snapshot(
    revision: int, policy: Policy, asOf: string, recordedAt: string,
    cash: map<string, string>, holdings: map<string, Holding>, realized: map<string, string>,
    eventIds: seq<string>, receiptIds: seq<string>)

  /** The ledger_meta row. */
  datatype Meta = Meta(revision: int, recordedAt: string)

  /******* Same values *******/

  ghost predicate SameValues(m: map<string, Rat>, spec: map<string, real>) {
    m.Keys == spec.Keys && forall k :: k in m ==> Val(m[k]) == spec[k]
  }

  ghost predicate SameLots(lots: seq<RatLot>, spec: seq<Lot>) {
    |lots| == |spec| && forall i :: 0 <= i < |lots| ==> Val(lots[i].quantity) == spec[i].quantity && Val(lots[i].cost) == spec[i].cost
  }

  ghost predicate SamePosition(p: RatPosition, spec: Position) {
    p.instrumentId == spec.instrumentId && p.symbol == spec.symbol && p.currency == spec.currency && SameLots(p.lots, spec.lots)
  }

  ghost predicate SamePositions(m: map<string, RatPosition>, spec: map<string, Position>) {
    m.Keys == spec.Keys && forall k :: k in m ==> SamePosition(m[k], spec[k])
  }

  ghost predicate SameBook(b: RatBook, spec: Book) {
    SameValues(b.cash, spec.cash) && SameValues(b.realized, spec.realized) && SamePositions(b.positions, spec.positions)
  }

  /******* The loops *******/

  /** addRat. */
  method AddRat(values: map<string, Rat>, key: string, value: Rat, ghost spec: map<string, real>)
    returns (r: map<string, Rat>)
    requires SameValues(values, spec)
    ensures SameValues(r, Plus(spec, key, Val(value)))
  {
    hide Val;
    r := values[key := Add(if key in values then values[key] else FromInt(0), value)];
  }

  /** The SELL loop: stops for every input, and leaves what `SellFrom` says. */
  method SellLots(lots0: seq<RatLot>, quantity: Rat, ghost spec0: seq<Lot>) returns (r: Result<(seq<RatLot>, Rat)>)
    requires SameLots(lots0, spec0)
    ensures r.Ok? <==> SellFrom(spec0, Val(quantity), 0.0).Some?
    ensures r.Ok? ==> var sale := SellFrom(spec0, Val(quantity), 0.0).value;
      SameLots(r.value.0, sale.lots) && Val(r.value.1) == sale.charged
  {
    hide Allocation, FIFOAllocation, Val, Sign, Cmp;
    var lots, remaining, charged := lots0, quantity, FromInt(0);
    ghost var spec := spec0;
    while Sign(remaining) > 0 && |lots| > 0
      invariant SameLots(lots, spec)
      invariant SellFrom(spec0, Val(quantity), 0.0) == SellFrom(spec, Val(remaining), Val(charged))
      decreases |lots|, if Val(remaining) > 0.0 then 1 else 0
    {
      var current := lots[0];
      var take := if Cmp(remaining, current.quantity) > 0 then current.quantity else remaining;
      var allocation := FIFOAllocation(current.cost, take, current.quantity);
      if allocation.Err? {
        return Err("SELL cost allocation: " + allocation.message);
      }
      ghost var cut := Cut(spec[0], Val(take), Val(allocation.value));
      charged := Add(charged, allocation.value);
      current := RatLot(Sub(current.quantity, take), Sub(current.cost, allocation.value));
      remaining := Sub(remaining, take);
      if Sign(current.quantity) == 0 {
        lots, spec := lots[1..], spec[1..];
      } else {
        lots, spec := lots[0 := current], [cut] + spec[1..];
      }
    }
    if Sign(remaining) != 0 {
      return Err("SELL exceeds available FIFO quantity");
    }
    r := Ok((lots, charged));
  }

  /** The SPLIT loop over the open lots, in place. */
  method MultiplyLots(lots0: seq<RatLot>, factor: Rat, ghost spec: seq<Lot>) returns (lots: seq<RatLot>)
    requires SameLots(lots0, spec)
    ensures SameLots(lots, SplitLots(spec, Val(factor)))
  {
    hide Val;
    lots := lots0;
    for i := 0 to |lots|
      invariant |lots| == |lots0|
      invariant forall j :: i <= j < |lots| ==> lots[j] == lots0[j]
      invariant forall j :: 0 <= j < i ==>
        Val(lots[j].quantity) == Times(spec[j].quantity, Val(factor)) && Val(lots[j].cost) == spec[j].cost
    {
      lots := lots[i := lots[i].(quantity := Mul(lots[i].quantity, factor))];
    }
  }

  lemma CostValue(quantity: Rat, price: Rat, fee: Rat)
    ensures Val(Add(Mul(quantity, price), fee)) == BuyCost(Val(quantity), Val(price), Val(fee))
  {
    hide Val;
  }

  /** positions[key], or a new empty position. */
  function OpenedRat(b: RatBook, t: Transaction): RatPosition {
    var key := PositionKey(t.instrumentId, t.currency);
    if key in b.positions then b.positions[key] else RatPosition(t.instrumentId, t.symbol, t.currency, [])
  }

  function Placed(b: RatBook, t: Transaction, lots: seq<RatLot>): RatBook {
    b.(positions := b.positions[PositionKey(t.instrumentId, t.currency) := OpenedRat(b, t).(lots := lots)])
  }

  lemma OpenedSame(b: RatBook, t: Transaction, spec: Book)
    requires SameBook(b, spec)
    ensures SamePosition(OpenedRat(b, t), Opened(spec, t))
  {
    hide PositionKey, Val;
  }

  lemma PlacedSame(b: RatBook, t: Transaction, lots: seq<RatLot>, spec: Book, specLots: seq<Lot>)
    requires SameBook(b, spec) && SameLots(lots, specLots)
    ensures SameBook(Placed(b, t, lots), WithLots(spec, t, specLots))
  {
    OpenedSame(b, t, spec);
    hide PositionKey, Val, OpenedRat, Opened, SameValues, SameLots;
  }

  method Trade(b: RatBook, t: Transaction, amount: Rat, ghost spec: Book) returns (r: Result<RatBook>)
    requires SameBook(b, spec)
    ensures r.Ok? <==> TradeStep(spec, t, Val(amount)).Some?
    ensures r.Ok? ==> SameBook(r.value, TradeStep(spec, t, Val(amount)).value)
  {
    hide Val, ParseDecimal, SellFrom, SplitLots, BuyCost, Plus, Opened, OpenedRat, WithLots, Placed, SameValues, SamePositions;
    OpenedSame(b, t, spec);
    var quantity := ParseDecimal(t.quantity);
    if quantity.None? {
      return Err("quantity is not a canonical decimal");
    }
    var p := OpenedRat(b, t);
    ghost var lots := Opened(spec, t).lots;
    if t.kind.Split? {
      if |p.lots| == 0 {
        return Err("SPLIT has no open holding");
      }
      var multiplied := MultiplyLots(p.lots, quantity.value, lots);
      PlacedSame(b, t, multiplied, spec, SplitLots(lots, Val(quantity.value)));
      return Ok(Placed(b, t, multiplied));
    }
    var price := ParseDecimal(t.price);
    if price.None? {
      return Err("price is not a canonical decimal");
    }
    var fee := ParseDecimal(t.fee);
    if fee.None? {
      return Err("fee is not a canonical decimal");
    }
    if t.kind.Buy? {
      var cost := Add(Mul(quantity.value, price.value), fee.value);
      CostValue(quantity.value, price.value, fee.value);
      PlacedSame(b, t, p.lots + [RatLot(quantity.value, cost)], spec, lots + [Bought(Val(quantity.value), Val(cost))]);
      return Ok(Placed(b, t, p.lots + [RatLot(quantity.value, cost)]));
    }
    var sale := SellLots(p.lots, quantity.value, lots);
    if sale.Err? {
      return Err(sale.message);
    }
    PlacedSame(b, t, sale.value.0, spec, SellFrom(lots, Val(quantity.value), 0.0).value.lots);
    var realized := AddRat(b.realized, t.currency, Sub(amount, sale.value.1), spec.realized);
    r := Ok(Placed(b, t, sale.value.0).(realized := realized));
    SameRealized(b, t, sale.value.0, spec, SellFrom(lots, Val(quantity.value), 0.0).value.lots);
  }

  lemma SameRealized(b: RatBook, t: Transaction, lots: seq<RatLot>, spec: Book, specLots: seq<Lot>)
    ensures Placed(b, t, lots).cash == b.cash && WithLots(spec, t, specLots).cash == spec.cash
  {}

  method Post(b: RatBook, t: Transaction, ghost spec: Book) returns (r: Result<RatBook>)
    requires SameBook(b, spec)
    ensures r.Ok? <==> Step(spec, t).Some?
    ensures r.Ok? ==> SameBook(r.value, Step(spec, t).value)
  {
    hide Val, ParseDecimal, CanonicalUtc, TradeStep;
    var amount := ParseDecimal(t.amount);
    if amount.None? {
      return Err("amount is not a canonical decimal");
    }
    var cash := AddRat(b.cash, t.currency, amount.value, spec.cash);
    ghost var noted := spec.(cash := Plus(spec.cash, t.currency, Val(amount.value)));
    if !CanonicalUtc(t.occurredAt) {
      return Err("ledger occurred_at is not canonical UTC");
    }
    if t.kind.FxExchange? {
      var counter := ParseDecimal(t.counterAmount);
      if counter.None? {
        return Err("counter amount is not a canonical decimal");
      }
      cash := AddRat(cash, t.counterCurrency, counter.value, noted.cash);
      return Ok(b.(cash := cash));
    }
    if CashOnly(t.kind) {
      return Ok(b.(cash := cash));
    }
    r := Trade(b.(cash := cash), t, amount.value, noted);
  }

  /** The loop over the query's rows computes the book of the specification. */
  method ReplayRows(rows: seq<Row>) returns (r: Result<RatBook>)
    ensures r.Ok? <==> Replay(rows).Some?
    ensures r.Ok? ==> SameBook(r.value, Replay(rows).value)
  {
    hide Step, Val;
    var b := RatBook(map[], map[], map[]);
    for i := 0 to |rows|
      invariant Replay(rows[..i]).Some? && SameBook(b, Replay(rows[..i]).value)
    {
      assert rows[..i + 1][..i] == rows[..i];
      var posted := Post(b, rows[i].tx, Replay(rows[..i]).value);
      if posted.Err? {
        ReplayFails(rows, i + 1);
        return Err(posted.message);
      }
      b := posted.value;
    }
    assert rows[..|rows|] == rows;
    r := Ok(b);
  }

  lemma {:induction false} ReplayFails(rows: seq<Row>, n: nat)
    requires n <= |rows| && Replay(rows[..n]).None?
    ensures Replay(rows).None?
    decreases |rows| - n
  {
    if n == |rows| {
      assert rows[..n] == rows;
    } else {
      assert rows[..n + 1][..n] == rows[..n];
      ReplayFails(rows, n + 1);
    }
  }

  /******* Rendering *******/

  /** The canonical text of a finite decimal. */
  ghost function DecimalOf(x: real): string
    requires Finite(x)
  {
    var m :| x == Dec(m, ScaleOf(x));
    Text(m, ScaleOf(x))
  }

  lemma FormatIsDecimalOf(r: Rat)
    requires Finite(Val(r))
    ensures FormatDecimal(r) == Some(DecimalOf(Val(r)))
  {
    var k := ScaleOf(Val(r));
    var m :| Val(r) == Dec(m, k) && DecimalOf(Val(r)) == Text(m, k);
    DecInjective(Mantissa(r, k), m, k);
    hide Text, Pow10;
  }

  ghost function TextsOf(m: map<string, real>): map<string, string>
    requires AllFinite(m)
  {
    map k | k in m :: DecimalOf(m[k])
  }

  /** formatDecimal over a map; fails exactly when some value is not a finite decimal. */
  method FormatAll(values: map<string, Rat>, ghost spec: map<string, real>) returns (r: Result<map<string, string>>)
    requires SameValues(values, spec)
    ensures r.Ok? <==> AllFinite(spec)
    ensures r.Ok? ==> r.value == TextsOf(spec)
  {
    hide Val, Finite, FormatDecimal, DecimalOf;
    var keys, texts: map<string, string> := values.Keys, map[];
    while keys != {}
      invariant keys <= values.Keys && texts.Keys == values.Keys - keys
      invariant forall k :: k in texts ==> Finite(spec[k]) && texts[k] == DecimalOf(spec[k])
      decreases keys
    {
      var k :| k in keys;
      var text := FormatDecimal(values[k]);
      if text.None? {
        return Err("value does not have a finite decimal representation");
      }
      FormatIsDecimalOf(values[k]);
      texts, keys := texts[k := text.value], keys - {k};
    }
    r := Ok(texts);
  }

  ghost predicate HeldFinite(p: Position) {
    LotUnits(p.lots) != 0.0 ==> Finite(LotUnits(p.lots)) && Finite(LotCost(p.lots))
  }

  ghost function HoldingOf(p: Position): Holding
    requires LotUnits(p.lots) != 0.0 && HeldFinite(p)
  {
    Holding(p.instrumentId, p.symbol, DecimalOf(LotUnits(p.lots)), DecimalOf(LotCost(p.lots)), p.currency)
  }

  ghost predicate AllHeldFinite(positions: map<string, Position>) {
    forall k :: k in positions ==> HeldFinite(positions[k])
  }

  /** Positions whose lots add up to nothing are not listed. */
  ghost function HoldingsOf(positions: map<string, Position>): map<string, Holding>
    requires AllHeldFinite(positions)
  {
    map k | k in positions && LotUnits(positions[k].lots) != 0.0 :: HoldingOf(positions[k])
  }

  method SumLots(lots: seq<RatLot>, ghost spec: seq<Lot>) returns (quantity: Rat, cost: Rat)
    requires SameLots(lots, spec)
    ensures Val(quantity) == LotUnits(spec) && Val(cost) == LotCost(spec)
  {
    hide Val;
    quantity, cost := FromInt(0), FromInt(0);
    for i := 0 to |lots|
      invariant Val(quantity) + LotUnits(spec[i..]) == LotUnits(spec)
      invariant Val(cost) + LotCost(spec[i..]) == LotCost(spec)
    {
      assert spec[i..][1..] == spec[i + 1..];
      quantity, cost := Add(quantity, lots[i].quantity), Add(cost, lots[i].cost);
    }
    NoLots();
  }

  method FormatHoldings(positions: map<string, RatPosition>, ghost spec: map<string, Position>)
    returns (r: Result<map<string, Holding>>)
    requires SamePositions(positions, spec)
    ensures r.Ok? <==> AllHeldFinite(spec)
    ensures r.Ok? ==> r.value == HoldingsOf(spec)
  {
    hide Val, Finite, FormatDecimal, DecimalOf, LotUnits, LotCost, Sign;
    var keys, holdings: map<string, Holding> := positions.Keys, map[];
    while keys != {}
      invariant keys <= positions.Keys
      invariant forall k :: k in positions && k !in keys ==> HeldFinite(spec[k])
      invariant holdings.Keys == set k | k in positions && k !in keys && LotUnits(spec[k].lots) != 0.0
      invariant forall k :: k in holdings ==> HeldFinite(spec[k]) && holdings[k] == HoldingOf(spec[k])
      decreases keys
    {
      var k :| k in keys;
      var p := positions[k];
      assert SamePosition(p, spec[k]);
      var quantity, cost := SumLots(p.lots, spec[k].lots);
      if Sign(quantity) != 0 {
        var quantityText, costText := FormatDecimal(quantity), FormatDecimal(cost);
        if quantityText.None? || costText.None? {
          assert !HeldFinite(spec[k]);
          return Err("value does not have a finite decimal representation");
        }
        FormatIsDecimalOf(quantity);
        FormatIsDecimalOf(cost);
        holdings := holdings[k := Holding(p.instrumentId, p.symbol, quantityText.value, costText.value, p.currency)];
      }
      keys := keys - {k};
    }
    r := Ok(holdings);
  }

  ghost predicate Renderable(book: Book) {
    AllFinite(book.cash) && AllFinite(book.realized) && AllHeldFinite(book.positions)
  }

  ghost function Rendered(policy: Policy, revision: int, recordedAt: string, rows: seq<Row>, book: Book): Snapshot
    requires Renderable(book)
  {
    Snapshot(revision, policy, Clock(policy, rows), recordedAt, TextsOf(book.cash), HoldingsOf(book.positions),
      TextsOf(book.realized), EventIds(rows), ReceiptIds(rows))
  }

  /** recorded_at of the row with this sequence, zeroTime for revision 0. */
  function RecordedAt(events: seq<Row>, revision: int): (r: Option<string>) {
    if revision <= 0 then Some(ZERO_TIME)
    else if events == [] then None
    else if events[|events| - 1].sequence == revision then Some(events[|events| - 1].recordedAt)
    else RecordedAt(events[..|events| - 1], revision)
  }

  /** snapshotFromPolicy; a negative `through` means no cutoff. */
  ghost function SnapshotOf(policy: Policy, events: seq<Row>, meta: Meta, through: int): Option<Snapshot> {
    if through < 0 then RowsSnapshot(policy, meta.revision, meta.recordedAt, Ranked(policy, Through(events, meta.revision)))
    else if through > meta.revision then None
    else
      var recordedAt :- RecordedAt(events, through);
      RowsSnapshot(policy, through, recordedAt, Ranked(policy, Through(events, through)))
  }

  ghost function RowsSnapshot(policy: Policy, revision: int, recordedAt: string, rows: seq<Row>): Option<Snapshot> {
    var book :- Replay(rows);
    if CanonicalUtc(recordedAt) && Renderable(book) then Some(Rendered(policy, revision, recordedAt, rows, book)) else None
  }

  method SnapshotFromPolicy(policy: Policy, events: seq<Row>, meta: Meta, through: int) returns (r: Result<Snapshot>)
    ensures r.Ok? <==> SnapshotOf(policy, events, meta, through).Some?
    ensures r.Ok? ==> r.value == SnapshotOf(policy, events, meta, through).value
  {
    hide RecordedAt, Ranked, Through, Replay, CanonicalUtc, RowsSnapshot;
    var revision, recordedAt := meta.revision, meta.recordedAt;
    if through >= 0 {
      if through > revision {
        return Err("ledger replay cutoff exceeds current revision");
      }
      revision := through;
      var found := RecordedAt(events, revision);
      if found.None? {
        return Err("no rows in result set");
      }
      recordedAt := found.value;
    }
    var rows := Ranked(policy, Through(events, revision));
    SnapshotNeeds(policy, revision, recordedAt, rows);
    if !CanonicalUtc(recordedAt) {
      return Err("ledger recorded_at is not canonical UTC");
    }
    var book := ReplayRows(rows);
    if book.Err? {
      return Err(book.message);
    }
    r := Render(policy, revision, recordedAt, rows, book.value);
  }

  lemma SnapshotNeeds(policy: Policy, revision: int, recordedAt: string, rows: seq<Row>)
    ensures RowsSnapshot(policy, revision, recordedAt, rows).Some? ==> CanonicalUtc(recordedAt) && Replay(rows).Some?
  {
    hide Replay, CanonicalUtc, Renderable;
  }

  method Render(policy: Policy, revision: int, recordedAt: string, rows: seq<Row>, book: RatBook) returns (r: Result<Snapshot>)
    requires Replay(rows).Some? && SameBook(book, Replay(rows).value) && CanonicalUtc(recordedAt)
    ensures r.Ok? <==> RowsSnapshot(policy, revision, recordedAt, rows).Some?
    ensures r.Ok? ==> r.value == RowsSnapshot(policy, revision, recordedAt, rows).value
  {
    hide Replay, CanonicalUtc, AllFinite, AllHeldFinite;
    ghost var spec := Replay(rows).value;
    var cash := FormatAll(book.cash, spec.cash);
    if cash.Err? {
      return Err(cash.message);
    }
    var holdings := FormatHoldings(book.positions, spec.positions);
    if holdings.Err? {
      return Err(holdings.message);
    }
    var realized := FormatAll(book.realized, spec.realized);
    if realized.Err? {
      return Err(realized.message);
    }
    r := Ok(Snapshot(revision, policy, Clock(policy, rows), recordedAt, cash.value, holdings.value, realized.value,
      EventIds(rows), ReceiptIds(rows)));
  }

  /******* Laws of snapshots *******/

  lemma {:induction false} SoundTotals(lots: seq<Lot>)
    requires SoundLots(lots)
    ensures Finite(LotUnits(lots)) && Finite(LotCost(lots))
  {
    if lots == [] {
      FiniteInt(0);
      NoLots();
    } else {
      assert SoundLot(lots[0]);
      SoundTotals(lots[1..]);
      FiniteSum(lots[0].quantity, LotUnits(lots[1..]));
      FiniteSum(lots[0].cost, LotCost(lots[1..]));
    }
    hide Finite;
  }

  /** A ledger of checked events that replays can always be shown: every balance,
      quantity and cost has a finite decimal text. */
  lemma CheckedSnapshot(policy: Policy, revision: int, recordedAt: string, rows: seq<Row>)
    requires AllChecked(rows) && CanonicalUtc(recordedAt)
    ensures RowsSnapshot(policy, revision, recordedAt, rows).Some? <==> Replay(rows).Some?
  {
    if Replay(rows).Some? {
      ReplaySound(rows);
      var book := Replay(rows).value;
      forall k | k in book.positions
        ensures HeldFinite(book.positions[k])
      {
        SoundTotals(book.positions[k].lots);
      }
    }
    hide Replay, Checked, CanonicalUtc, Finite, SoundLots;
  }

  /** A replay through revision k depends only on the first k events: later rows and
      later metadata change nothing. */
  lemma CutoffIsStable(policy: Policy, events: seq<Row>, more: seq<Row>, meta: Meta, later: Meta, k: nat)
    requires Contiguous(events) && Contiguous(events + more) && k <= |events|
    requires k <= meta.revision && k <= later.revision
    ensures SnapshotOf(policy, events + more, later, k) == SnapshotOf(policy, events, meta, k)
  {
    ThroughOfAppended(events, more, k);
    RecordedAtIs(events, k);
    RecordedAtIs(events + more, k);
    hide RowsSnapshot, Ranked, RecordedAt, Through;
  }

  lemma {:induction false} RecordedAtIs(events: seq<Row>, k: nat)
    requires Contiguous(events) && k <= |events|
    ensures RecordedAt(events, k) == Some(if k == 0 then ZERO_TIME else events[k - 1].recordedAt)
  {
    if 0 < k < |events| {
      RecordedAtIs(events[..|events| - 1], k);
    }
  }

  /** When the two orders rank a ledger's events alike either both snapshots exist or
      neither does, and then they differ only in their policy label and, exactly when the last event's text is below zeroTime, in
      as_of. */
  lemma AlikeSnapshots(events: seq<Row>, meta: Meta)
    requires Contiguous(events) && meta.revision == |events| && RankAlike(events)
    ensures SnapshotOf(Corrected, events, meta, -1).Some? <==> SnapshotOf(Legacy, events, meta, -1).Some?
    ensures SnapshotOf(Legacy, events, meta, -1).Some? ==>
      var legacy, corrected := SnapshotOf(Legacy, events, meta, -1).value, SnapshotOf(Corrected, events, meta, -1).value;
      && corrected.(policy := Legacy, asOf := legacy.asOf) == legacy
      && (corrected.asOf == legacy.asOf <==> events == [] || !LexLess(LastTime(Ranked(Legacy, events)), ZERO_TIME))
  {
    hide Through, RankAlike, Ranked, RowsSnapshot, LexLess, Clock;
    ThroughIsPrefix(events, meta.revision);
    assert Through(events, meta.revision) == events;
    AlikeOrdersAgree(events);
    SameRowsSnapshot(meta.revision, meta.recordedAt, Ranked(Legacy, events));
  }

  lemma SameRowsSnapshot(revision: int, recordedAt: string, rows: seq<Row>)
    ensures RowsSnapshot(Corrected, revision, recordedAt, rows).Some? <==> RowsSnapshot(Legacy, revision, recordedAt, rows).Some?
    ensures RowsSnapshot(Legacy, revision, recordedAt, rows).Some? ==>
      var legacy, corrected := RowsSnapshot(Legacy, revision, recordedAt, rows).value,
                               RowsSnapshot(Corrected, revision, recordedAt, rows).value;
      && corrected.(policy := Legacy, asOf := legacy.asOf) == legacy
      && legacy.asOf == Clock(Legacy, rows) && corrected.asOf == Clock(Corrected, rows)
  {
    hide Replay, CanonicalUtc, TextsOf, HoldingsOf, Renderable, Clock;
  }

  /** The exception is real: one deposit in 1969. */
  lemma BeforeEpochDiffers(row: Row, meta: Meta)
    requires row.sequence == 1 && row.tx.occurredAt == "1969-12-31T00:00:00Z"
    ensures Contiguous([row]) && RankAlike([row])
    ensures Clock(Legacy, Ranked(Legacy, [row])) != Clock(Corrected, Ranked(Corrected, [row]))
  {
    var rows := [row];
    assert rows[..0] == [];
    LexAt(row.tx.occurredAt, ZERO_TIME, 2);
    LexIrreflexive(SortKey(Legacy, row));
    LexIrreflexive(SortKey(Corrected, row));
    assert Ranked(Legacy, rows) == rows && Ranked(Corrected, rows) == rows;
    assert row.tx.occurredAt[2] == '6' && ZERO_TIME[2] == '7';
  }
}
