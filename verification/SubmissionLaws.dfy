/** The submission as one call against the protocol its steps belong to
    (services/core/kiwoom_order_transport.go:129-166).
  */
module SubmissionLaws {
  import opened Results
  import opened OrderStore
  import opened OrderInvariants
  import opened AccountLimit
  import P = SubmitProtocol
  import S = OrderService
  import Dispatch

  /** The steps of a process that is not interrupted: load and preflight, the durable
      dispatch, the external call, the broker's answer. */
  function Steps(p: nat, orderId: string, token: int, caller: Dispatch.Caller, outcome: S.Outcome, eventId: string): seq<P.Event> {
    [P.Event.Start(p, orderId, token), P.Event.Dispatch(p, caller), P.Event.Send(p),
     P.Event.Answer(p, if outcome.Unknown? then None else Some(S.AnswerEntry(orderId, outcome, eventId)))]
  }

  lemma FourSteps(s: P.System, a: P.Event, b: P.Event, c: P.Event, d: P.Event)
    ensures P.Execute(s, [a, b, c, d]) == P.Step(P.Step(P.Step(P.Step(s, a), b), c), d)
  {
    hide P.Step;
    assert [a, b, c, d][..3] == [a, b, c] && [a, b, c][..2] == [a, b] && [a, b][..1] == [a] && [a][..0] == [];
    assert P.Execute(s, [a]) == P.Step(s, a);
    assert P.Execute(s, [a, b]) == P.Step(P.Step(s, a), b);
    assert P.Execute(s, [a, b, c]) == P.Step(P.Step(P.Step(s, a), b), c);
  }

  lemma AnswerIs(db: Db, orderId: string, outcome: S.Outcome, eventId: string)
    requires !outcome.Unknown?
    ensures P.Next(db, P.AppendEvent(S.AnswerEntry(orderId, outcome, eventId), false, false)) == S.Answered(db, orderId, outcome, eventId).0
  {
    hide Append, ValidEntry;
  }

  /** Taken alone, the protocol's steps do what one submission does: the same tables, and
      the broker called in the same cases. */
  lemma OneProcessSubmits(db: Db, p: nat, orderId: string, token: int, caller: Dispatch.Caller, outcome: S.Outcome, eventId: string)
    ensures var s := P.Execute(P.System(db, map[], []), Steps(p, orderId, token, caller, outcome, eventId));
      var (after, _, called) := S.Submission(db, orderId, token, caller, true, outcome, eventId);
      s.db == after && s.sends == if called then [orderId] else []
  {
    hide Dispatch.Authorize, Append, P.Next, S.Answered, S.AnswerEntry;
    var e := Steps(p, orderId, token, caller, outcome, eventId);
    FourSteps(P.System(db, map[], []), e[0], e[1], e[2], e[3]);
    if orderId in db.orders && db.orders[orderId].mode == Synthetic && token > 0 {
      var r := Dispatch.Authorize(db, orderId, token, caller);
      if r.Some? && r.value.2 {
        AnswerOrder(orderId, outcome, eventId);
        if outcome.Unknown? {
          NotAnswered(r.value.0, orderId, eventId);
        } else {
          AnswerIs(r.value.0, orderId, outcome, eventId);
        }
        assert [] + [orderId] == [orderId];
      }
    }
  }

  lemma AnswerOrder(orderId: string, outcome: S.Outcome, eventId: string)
    ensures !outcome.Unknown? ==> S.AnswerEntry(orderId, outcome, eventId).orderId == orderId
  {}

  lemma NotAnswered(db: Db, orderId: string, eventId: string)
    ensures S.Answered(db, orderId, S.Outcome.Unknown, eventId).0 == db
  {}

  /** The broker is called exactly when the preflight passed and the dispatch was
      authorized by this very call. */
  lemma CalledExactly(db: Db, orderId: string, token: int, caller: Dispatch.Caller, preflightOk: bool, outcome: S.Outcome, eventId: string)
    requires Good(db)
    ensures S.Submission(db, orderId, token, caller, preflightOk, outcome, eventId).2 <==>
      preflightOk && MayDispatch(db, orderId, token, caller)
  {
    DispatchExactly(db, orderId, token, caller);
    MaySays(db, orderId, token, caller);
    hide Good, Dispatch.Authorize, MayDispatch, S.Answered;
  }

  lemma MaySays(db: Db, orderId: string, token: int, caller: Dispatch.Caller)
    requires Good(db)
    ensures MayDispatch(db, orderId, token, caller) ==> orderId in db.orders && db.orders[orderId].mode == Synthetic && token > 0
  {
    if orderId in db.orders {
      LeaseToken(db, db.orders[orderId].account, token, caller);
    }
    hide Good, Leased, NewIds, ReservedValues, At;
  }
}
