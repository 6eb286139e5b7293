/** An order's state told from its history: which events may come next, and what status,
    pending command, filled quantity and reference they add up to
    (services/core/internal/orderdomain/order.go:58-191).
  */
module OrderHistory {
  import opened Results
  import opened OrderDomain

  /******* What a history holds *******/

  /** The broker's reference in an acknowledgement or a fill. */
  function Shown(c: Change): Option<string> {
    match c
    case SubmitAcknowledged(ref) => Some(ref)
    case FillRecorded(ref, _, _, _, _) => Some(ref)
    case _ => None
  }

  /** The broker has acknowledged or filled the order. */
  predicate Working(h: seq<Change>) {
    exists i :: 0 <= i < |h| && Shown(h[i]).Some?
  }

  predicate Refused(h: seq<Change>) {
    exists i :: 0 <= i < |h| && h[i].SubmitRejected?
  }

  predicate HasCanceled(h: seq<Change>) {
    exists i :: 0 <= i < |h| && h[i].CancelAcknowledged?
  }

  predicate Unanswered(h: seq<Change>, i: int) {
    0 <= i < |h| && h[i].CancelDispatched? && forall j :: i < j < |h| ==> !h[j].CancelAcknowledged? && !h[j].CancelRejected?
  }

  /** A cancel was sent and not answered since. */
  predicate Canceling(h: seq<Change>) {
    exists i :: 0 <= i < |h| && Unanswered(h, i)
  }

  predicate OnlyRef(h: seq<Change>, ref: string) {
    forall i :: 0 <= i < |h| && Shown(h[i]).Some? ==> Shown(h[i]).value == ref
  }

  /******* What may come next *******/

  /** Intent, risk decision, dispatch; then one answer or fills under one reference, never
      more than ordered; and cancels while something is left, one at a time. */
  predicate May(quantity: int, h: seq<Change>, c: Change) {
    match c
    case IntentRecorded => |h| == 0
    case RiskApproved => |h| == 1
    case RiskRefused => |h| == 1
    case SubmitDispatched => |h| == 2 && h[1].RiskApproved?
    case SubmitAcknowledged(_) => |h| >= 3 && !Working(h) && !Refused(h)
    case SubmitRejected => |h| >= 3 && !Working(h) && !Refused(h)
    case FillRecorded(ref, _, n, _, _) => |h| >= 3 && !Refused(h) && OnlyRef(h, ref) && n > 0 && FillSum(h) + n <= quantity
    case CancelDispatched => |h| >= 3 && Working(h) && !Canceling(h) && !HasCanceled(h) && FillSum(h) < quantity
    case CancelAcknowledged => Canceling(h)
    case CancelRejected => Canceling(h)
  }

  function StatusTold(quantity: int, h: seq<Change>): Status {
    if |h| == 0 then Unrecorded
    else if |h| == 1 then Recorded
    else if |h| == 2 then if h[1].RiskApproved? then Ready else RiskRejected
    else if Refused(h) then Rejected
    else if !Working(h) then SubmitUnknown
    else if FillSum(h) == quantity then Filled
    else if Canceling(h) then CancelUnknown
    else if HasCanceled(h) then OrderDomain.Canceled
    else if FillSum(h) > 0 then PartiallyFilled
    else Open
  }

  function PendingTold(h: seq<Change>): Pending {
    if Canceling(h) then Cancel
    else if |h| >= 3 && !Working(h) && !Refused(h) then Submit
    else Nothing
  }

  /** The state says what the history says. */
  predicate Tells(quantity: int, h: seq<Change>, s: State) {
    && s.quantity == quantity && s.filled == FillSum(h) && s.status == StatusTold(quantity, h) && s.pending == PendingTold(h)
    && (s.ref.Some? <==> Working(h)) && (s.ref.Some? ==> OnlyRef(h, s.ref.value))
  }

  /******* One event more *******/

  lemma ShownNext(h: seq<Change>, c: Change)
    ensures Working(h + [c]) <==> Working(h) || Shown(c).Some?
    ensures Refused(h + [c]) <==> Refused(h) || c.SubmitRejected?
    ensures HasCanceled(h + [c]) <==> HasCanceled(h) || c.CancelAcknowledged?
    ensures FillSum(h + [c]) == FillSum(h) + FillOf(c)
  {
    var next := h + [c];
    assert next[|h|] == c && next[..|h|] == h;
    if i :| 0 <= i < |h| && Shown(h[i]).Some? {
      assert next[i] == h[i];
    }
    if i :| 0 <= i < |h| && h[i].SubmitRejected? {
      assert next[i] == h[i];
    }
    if i :| 0 <= i < |h| && h[i].CancelAcknowledged? {
      assert next[i] == h[i];
    }
  }

  lemma CancelingNext(h: seq<Change>, c: Change)
    ensures Canceling(h + [c]) <==> c.CancelDispatched? || (Canceling(h) && !c.CancelAcknowledged? && !c.CancelRejected?)
  {
    var next := h + [c];
    if c.CancelDispatched? {
      assert Unanswered(next, |h|);
    }
    if i :| 0 <= i && Unanswered(h, i) {
      assert !c.CancelAcknowledged? && !c.CancelRejected? ==> Unanswered(next, i);
    }
    if i :| 0 <= i && Unanswered(next, i) {
      assert i < |h| ==> next[|h|] == c && forall j :: i < j < |h| ==> next[j] == h[j];
      assert i < |h| ==> Unanswered(h, i);
    }
  }

  lemma OnlyRefNext(h: seq<Change>, c: Change, ref: string)
    ensures OnlyRef(h + [c], ref) <==> OnlyRef(h, ref) && (Shown(c).Some? ==> Shown(c).value == ref)
  {
    var next := h + [c];
    assert next[|h|] == c && forall i :: 0 <= i < |h| ==> next[i] == h[i];
  }

  /** How the facts of an accepted history hang together. */
  predicate Coherent(quantity: int, h: seq<Change>) {
    && (|h| < 3 ==> !Working(h) && !Refused(h)) && (Refused(h) ==> !Working(h))
    && (!Working(h) ==> FillSum(h) == 0 && !Canceling(h) && !HasCanceled(h))
    && (HasCanceled(h) ==> !Canceling(h)) && 0 <= FillSum(h) <= quantity
  }

  lemma NextAllowed(quantity: int, h: seq<Change>, s: State, c: Change)
    requires quantity > 0 && Coherent(quantity, h) && Tells(quantity, h, s)
    ensures Transition(s, c).Some? <==> May(quantity, h, c)
  {
    RefsKnown(h, s.ref, c);
    hide Working, Refused, HasCanceled, Canceling, OnlyRef, FillSum;
  }

  lemma NextCoherent(quantity: int, h: seq<Change>, c: Change)
    requires quantity > 0 && Coherent(quantity, h) && May(quantity, h, c)
    ensures Coherent(quantity, h + [c])
  {
    ShownNext(h, c);
    CancelingNext(h, c);
    hide Working, Refused, HasCanceled, Canceling, OnlyRef, FillSum;
  }

  lemma NextRef(quantity: int, h: seq<Change>, s: State, c: Change)
    requires Tells(quantity, h, s) && Transition(s, c).Some?
    ensures var ref := Transition(s, c).value.ref; (ref.Some? <==> Working(h + [c])) && (ref.Some? ==> OnlyRef(h + [c], ref.value))
  {
    ShownNext(h, c);
    var ref := if s.ref.Some? then s.ref.value else if Shown(c).Some? then Shown(c).value else "";
    OnlyRefNext(h, c, ref);
    RefsKnown(h, s.ref, c);
    hide Working, Refused, HasCanceled, Canceling, OnlyRef, FillSum, StatusTold, PendingTold;
  }

  lemma NextTells(quantity: int, h: seq<Change>, s: State, c: Change)
    requires quantity > 0 && Coherent(quantity, h) && Tells(quantity, h, s) && Transition(s, c).Some?
    ensures Tells(quantity, h + [c], Transition(s, c).value)
  {
    hide Working, Refused, HasCanceled, Canceling, OnlyRef, FillSum;
    NextRef(quantity, h, s, c);
    NextStatus(quantity, h, s, c);
    hide Coherent, Transition, StatusTold, PendingTold;
  }

  lemma NextStatus(quantity: int, h: seq<Change>, s: State, c: Change)
    requires quantity > 0 && Coherent(quantity, h) && Tells(quantity, h, s) && Transition(s, c).Some?
    ensures var next := Transition(s, c).value;
      && next.quantity == quantity && next.filled == FillSum(h + [c])
      && next.status == StatusTold(quantity, h + [c]) && next.pending == PendingTold(h + [c])
  {
    hide Working, Refused, HasCanceled, Canceling, OnlyRef, FillSum;
    ShownNext(h, c);
    CancelingNext(h, c);
    NextIndex(h, c);
  }

  lemma NextIndex(h: seq<Change>, c: Change)
    ensures |h| >= 2 ==> (h + [c])[1] == h[1]
    ensures |h| == 1 ==> (h + [c])[1] == c
  {}

  /** Two references cannot both be the only one. */
  lemma RefsKnown(h: seq<Change>, ref: Option<string>, c: Change)
    requires (ref.Some? <==> Working(h)) && (ref.Some? ==> OnlyRef(h, ref.value))
    ensures Shown(c).Some? ==> (OnlyRef(h, Shown(c).value) <==> ref.None? || ref == Shown(c))
  {
    if ref.Some? {
      var i :| 0 <= i < |h| && Shown(h[i]).Some?;
    }
  }

  /** A history is accepted exactly when each of its events may follow those before it,
      and its state is then what the events tell. */
  lemma {:induction false} HistoryTells(quantity: int, h: seq<Change>)
    requires quantity > 0
    ensures Replay(quantity, h).Some? <==> forall i :: 0 <= i < |h| ==> May(quantity, h[..i], h[i])
    ensures Replay(quantity, h).Some? ==> Coherent(quantity, h) && Tells(quantity, h, Replay(quantity, h).value)
  {
    hide Transition, May, Coherent, Tells;
    if h == [] {
      NothingTold(quantity);
    } else {
      var n := |h| - 1;
      HistoryTells(quantity, h[..n]);
      assert h == h[..n] + [h[n]];
      assert forall i :: 0 <= i < n ==> h[..n][..i] == h[..i] && h[..n][i] == h[i];
      if Replay(quantity, h[..n]).Some? {
        NextAllowed(quantity, h[..n], Replay(quantity, h[..n]).value, h[n]);
        if Transition(Replay(quantity, h[..n]).value, h[n]).Some? {
          NextTells(quantity, h[..n], Replay(quantity, h[..n]).value, h[n]);
          NextCoherent(quantity, h[..n], h[n]);
        }
      }
    }
  }

  lemma NothingTold(quantity: int)
    requires quantity > 0
    ensures Coherent(quantity, []) && Tells(quantity, [], NewState(quantity))
  {}
}
