/** What the engine answers, and what its answers mean: one reply a request, passed exactly when admitted. */
module RiskReplies {
  import opened RiskModel
  import opened RiskLedger

  function OrderReplies(out: seq<Output>): seq<Order> {
    if out == [] then []
    else (if out[0].OrderReply? then [out[0].order] else []) + OrderReplies(out[1..])
  }

  function ActionReplies(out: seq<Output>): seq<Action> {
    if out == [] then []
    else (if out[0].ActionReply? then [out[0].action] else []) + ActionReplies(out[1..])
  }

  lemma RepliesOf(x: Output, y: Output)
    ensures OrderReplies([x]) == (if x.OrderReply? then [x.order] else [])
    ensures ActionReplies([x]) == (if x.ActionReply? then [x.action] else [])
    ensures OrderReplies([x, y]) == OrderReplies([x]) + OrderReplies([y])
    ensures ActionReplies([x, y]) == ActionReplies([x]) + ActionReplies([y])
  {
    assert [x][1..] == [] && [x, y][1..] == [y];
  }

  predicate Asked(e: Event) { e.OrderEvent? && e.order.riskStatus == PREPARE_CHECKED }

  predicate CancelAsked(e: Event) { e.ActionEvent? && e.action.riskStatus == PREPARE_CHECKED }

  /** What a run's event number `i` sends to the response queue. */
  function Answers(s: Settings, events: seq<Event>, i: nat): seq<Output>
    requires AllWide(events) && i < |events|
  {
    Step(Run(s, events[..i]), s, events[i]).1
  }

  /** A reply repeats its order but for the risk status and the error. */
  predicate RepliesTo(reply: Order, o: Order) {
    reply.(riskStatus := o.riskStatus, errorId := o.errorId) == o
  }

  /** In every run each order to be checked gets exactly one reply. It says passed if and only if the order is
      admitted; otherwise it says not passed, names an error, and a risk event precedes it. */
  lemma EveryOrderIsAnswered(s: Settings, events: seq<Event>, i: nat)
    requires AllWide(events) && i < |events| && Asked(events[i])
    ensures var b, e, out := Run(s, events[..i]), events[i], Answers(s, events, i);
      && |OrderReplies(out)| == 1 && ActionReplies(out) == []
      && var reply := OrderReplies(out)[0];
      && RepliesTo(reply, e.order) && reply.riskStatus in {CHECKED_PASS, CHECKED_NOPASS}
      && (reply.riskStatus == CHECKED_PASS <==> Admitted(b, s, e))
      && (reply.riskStatus == CHECKED_PASS ==> out == [OrderReply(reply)] && reply.errorId == e.order.errorId)
      && (reply.riskStatus == CHECKED_NOPASS ==>
            out == [RiskEvent(e.order.account), OrderReply(reply)] && reply.errorId != 0)
  {
    var b, e, out := Run(s, events[..i]), events[i], Answers(s, events, i);
    RepliesOf(out[0], out[|out| - 1]);
    hide Run, FlowStep, Reserve, CapacityError, Locked, SelfMatches, OrderReplies, ActionReplies;
  }

  /** Orders not to be checked get no answer, except the opening check, which gets its own; neither changes
      the books. */
  lemma OtherOrdersChangeNothing(s: Settings, events: seq<Event>, i: nat)
    requires AllWide(events) && i < |events| && events[i].OrderEvent? && !Asked(events[i])
    ensures var b, o := Run(s, events[..i]), events[i].order;
      && Step(b, s, events[i]).0 == b
      && Answers(s, events, i) == if o.riskStatus == CHECK_INIT then [OrderReply(o.(errorId := -1))] else []
  {
    hide Run;
  }

  /** An order replied passed holds its reservation from then on; one replied not passed changes nothing that
      is held. */
  lemma PassedIsHeld(s: Settings, events: seq<Event>, i: nat)
    requires AllWide(events) && i < |events| && Asked(events[i]) && events[i].order.token != 0
    ensures AllWide(events[..i + 1]) && |OrderReplies(Answers(s, events, i))| == 1
    ensures var o, before, after := events[i].order, LiveHolds(s, events[..i]), LiveHolds(s, events[..i + 1]);
      var key := TokenKey(o.account, o.token);
      if OrderReplies(Answers(s, events, i))[0].riskStatus == CHECKED_PASS
      then key !in Run(s, events[..i]).ledger.reservations && after == before[key := HoldOf(o)]
      else after == before && Run(s, events[..i + 1]).ledger == Run(s, events[..i]).ledger
  {
    EveryOrderIsAnswered(s, events, i);
    var front, e := events[..i], events[i];
    assert events[..i + 1] == front + [e];
    RunSnoc(s, front, e);
    LiveHoldsSnoc(s, front, e);
    LedgerAfter(Run(s, front), s, e);
    hide Run, LiveHolds, Answers, OrderReplies, FlowStep, Reserve, TokenKey, HoldOf;
  }

  lemma LedgerAfter(b: Books, s: Settings, e: Event)
    requires Wide(e) && Asked(e)
    ensures Admitted(b, s, e) && e.order.token != 0 ==>
        TokenKey(e.order.account, e.order.token) !in b.ledger.reservations
    ensures !Admitted(b, s, e) ==> Step(b, s, e).0.ledger == b.ledger
  {
    hide FlowStep, Reserve, Locked, SelfMatches, TokenKey;
  }

  // ---------------------------------------------------------------- cancels

  /** The checks of a cancel, by themselves. */
  predicate CancelAdmitted(b: Books, s: Settings, e: Event)
    requires CancelAsked(e)
  {
    FlowStep(b.flow, e.action.account, e.now, s.limits.flowLimit).1
    && (e.action.orderRef in b.pending.orders ==>
          var r := b.pending.orders[e.action.orderRef];
          && At(b.pending.tickerCancels, PairKey(r.account, r.ticker), 0) < s.limits.tickerCancelLimit
          && At(b.pending.orderCancels, e.action.orderRef, 0) < s.limits.orderCancelLimit)
  }

  /** The error of a cancel that is not admitted: the flow limit, the ticker's counter or the order's. */
  function CancelCode(b: Books, s: Settings, e: Event): int
    requires CancelAsked(e)
  {
    if !FlowStep(b.flow, e.action.account, e.now, s.limits.flowLimit).1 then 1
    else if e.action.orderRef in b.pending.orders
      && var r := b.pending.orders[e.action.orderRef];
         At(b.pending.tickerCancels, PairKey(r.account, r.ticker), 0) >= s.limits.tickerCancelLimit
    then 6
    else 7
  }

  /** In every run each cancel to be checked gets exactly one reply: passed if and only if the flow limit allows
      it and, for a pending order, both cancel counters are below their limits. */
  lemma EveryCancelIsAnswered(s: Settings, events: seq<Event>, i: nat)
    requires AllWide(events) && i < |events| && CancelAsked(events[i])
    ensures var b, e, out := Run(s, events[..i]), events[i], Answers(s, events, i);
      && |ActionReplies(out)| == 1 && OrderReplies(out) == []
      && var reply := ActionReplies(out)[0];
      && reply.(riskStatus := e.action.riskStatus, errorId := e.action.errorId) == e.action
      && reply.riskStatus in {CHECKED_PASS, CHECKED_NOPASS}
      && (reply.riskStatus == CHECKED_PASS <==> CancelAdmitted(b, s, e))
      && (reply.riskStatus == CHECKED_PASS ==> out == [ActionReply(reply)] && reply.errorId == e.action.errorId)
      && (reply.riskStatus == CHECKED_NOPASS ==>
            out == [RiskEvent(e.action.account), ActionReply(reply)] && reply.errorId == CancelCode(b, s, e))
      && Step(b, s, e).0.ledger == b.ledger
  {
    var b, e, out := Run(s, events[..i]), events[i], Answers(s, events, i);
    RepliesOf(out[0], out[|out| - 1]);
    hide Run, FlowStep, PairKey, OrderReplies, ActionReplies;
  }
}
