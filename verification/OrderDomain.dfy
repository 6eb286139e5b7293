/** The life of one order: services/core/internal/orderdomain/order.go.

    Quantities are positive canonical integers in the original's texts; here they are
    the integers themselves.
  */
module OrderDomain {
  import opened Results

  datatype Status = Unrecorded | Recorded | Ready | RiskRejected | SubmitUnknown | Open | PartiallyFilled
                  | CancelUnknown | Rejected | Filled | Canceled
  datatype Pending = Nothing | Submit | Cancel

  datatype Change =
    | IntentRecorded | RiskApproved | RiskRefused
    | SubmitDispatched | SubmitAcknowledged(ref: string) | SubmitRejected
    | FillRecorded(ref: string, execution: string, quantity: int, price: real, occurredAt: int)
    | CancelDispatched | CancelAcknowledged | CancelRejected

  datatype State = State(status: Status, quantity: int, filled: int, ref: Option<string>, pending: Pending)

  function NewState(quantity: int): State {
    State(Unrecorded, quantity, 0, None, Nothing)
  }

  /** bindProviderOrderRef: the first reference sticks. */
  function Bind(s: State, ref: string): Option<State> {
    if s.ref.None? then Some(s.(ref := Some(ref)))
    else if s.ref.value == ref then Some(s) else None
  }

  function Fill(s: State, quantity: int): Option<State> {
    if s.filled + quantity > s.quantity then None
    else
      var filled := s.filled + quantity;
      Some(s.(filled := filled, pending := if s.pending == Submit then Nothing else s.pending,
        status := if filled == s.quantity then Filled
                  else if s.status in {CancelUnknown, Canceled} then s.status else PartiallyFilled))
  }

  /** orderdomain.Transition. */
  function Transition(s: State, c: Change): Option<State> {
    match c
    case IntentRecorded => if s.status == Unrecorded then Some(s.(status := Recorded)) else None
    case RiskApproved => if s.status == Recorded then Some(s.(status := Ready)) else None
    case RiskRefused => if s.status == Recorded then Some(s.(status := RiskRejected)) else None
    case SubmitDispatched =>
      if s.status == Ready && s.pending == Nothing then Some(s.(status := SubmitUnknown, pending := Submit)) else None
    case SubmitAcknowledged(ref) =>
      if s.status == SubmitUnknown && s.pending == Submit then
        var bound :- Bind(s, ref);
        Some(bound.(status := Open, pending := Nothing))
      else None
    case SubmitRejected =>
      if s.status == SubmitUnknown && s.pending == Submit then Some(s.(status := Rejected, pending := Nothing)) else None
    case FillRecorded(ref, _, quantity, _, _) =>
      if s.status !in {SubmitUnknown, Open, PartiallyFilled, CancelUnknown, Canceled} || s.quantity <= 0 || s.filled < 0 || quantity <= 0
      then None
      else
        var bound :- Bind(s, ref);
        Fill(bound, quantity)
    case CancelDispatched =>
      if s.status in {Open, PartiallyFilled} && s.pending == Nothing then Some(s.(status := CancelUnknown, pending := Cancel)) else None
    case CancelAcknowledged =>
      if s.pending == Cancel && s.status in {CancelUnknown, Filled} then
        Some(s.(pending := Nothing, status := if s.filled == s.quantity then Filled else Canceled))
      else None
    case CancelRejected =>
      if s.pending == Cancel && s.status in {CancelUnknown, Filled} then
        Some(s.(pending := Nothing, status := if s.filled == s.quantity then Filled else if s.filled == 0 then Open else PartiallyFilled))
      else None
  }

  /** The state after a history, or `None` when some step is refused. */
  function Replay(quantity: int, history: seq<Change>): Option<State> {
    if history == [] then Some(NewState(quantity))
    else
      var s :- Replay(quantity, history[..|history| - 1]);
      Transition(s, history[|history| - 1])
  }

  /******* Laws *******/

  /** How status, pending command and filled quantity hang together. */
  predicate Consistent(s: State) {
    && s.quantity > 0 && 0 <= s.filled <= s.quantity
    && (s.status == SubmitUnknown <==> s.pending == Submit)
    && (s.status == CancelUnknown ==> s.pending == Cancel)
    && (s.pending == Cancel ==> s.status in {CancelUnknown, Filled})
    && (s.status == Filled <==> s.filled == s.quantity)
    && (s.filled > 0 ==> s.ref.Some? && s.status in {PartiallyFilled, CancelUnknown, Filled, Canceled})
    && (s.status == PartiallyFilled ==> s.filled > 0)
  }

  lemma TransitionConsistent(s: State, c: Change)
    requires Consistent(s)
    ensures Transition(s, c).Some? ==> Consistent(Transition(s, c).value) && Transition(s, c).value.quantity == s.quantity
  {}

  function FillOf(c: Change): int {
    if c.FillRecorded? then c.quantity else 0
  }

  function FillSum(history: seq<Change>): int {
    if history == [] then 0 else FillSum(history[..|history| - 1]) + FillOf(history[|history| - 1])
  }

  /** Whatever the history, the filled quantity is the sum of its fills and never
      exceeds the order. */
  lemma {:induction false} FillsAddUp(quantity: int, history: seq<Change>)
    requires quantity > 0 && Replay(quantity, history).Some?
    ensures var s := Replay(quantity, history).value;
      Consistent(s) && s.quantity == quantity && s.filled == FillSum(history) <= quantity
  {
    if history != [] {
      FillsAddUp(quantity, history[..|history| - 1]);
      var s, c := Replay(quantity, history[..|history| - 1]).value, history[|history| - 1];
      TransitionConsistent(s, c);
    }
  }

  /** reservationIsActive (execution_authority.go:390-400). */
  predicate Active(s: State) {
    s.pending != Nothing || s.status in {SubmitUnknown, Open, PartiallyFilled, CancelUnknown}
  }

  /** The order has been dispatched at some time. */
  predicate Dispatched(s: State) {
    s.status in {SubmitUnknown, Open, PartiallyFilled, CancelUnknown, Rejected, Filled, Canceled}
  }

  /** A dispatched order stays dispatched; once it holds no reservation it never holds
      one again, even though late fills may still arrive. */
  lemma DispatchedStays(s: State, c: Change)
    requires Consistent(s) && Dispatched(s) && Transition(s, c).Some?
    ensures Dispatched(Transition(s, c).value)
    ensures !Active(s) ==> !Active(Transition(s, c).value)
  {}

  /** Only a dispatch gives an order a pending submit, and only an order never
      dispatched before. */
  lemma PendingSubmitIsDispatch(s: State, c: Change)
    requires Consistent(s) && Transition(s, c).Some? && Transition(s, c).value.pending == Submit
    ensures c.SubmitDispatched? && s.status == Ready && s.pending == Nothing && !Dispatched(s)
  {}
}
