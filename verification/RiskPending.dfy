/** Pending orders, their per-ticker lists, and the cancel counters. */
module RiskPending {
  import opened Numbers
  import opened Wrappers
  import opened RiskModel

  // ---------------------------------------------------------------- which orders are pending

  predicate Reports(e: Event, orderRef: string) { e.ReportEvent? && e.report.orderRef == orderRef }

  /** The latest report of an order. */
  function Latest(events: seq<Event>, orderRef: string): Option<Report> {
    if events == [] then None
    else if Reports(events[|events| - 1], orderRef) then Some(events[|events| - 1].report)
    else Latest(events[..|events| - 1], orderRef)
  }

  /** The pending orders change by reports only. */
  lemma OrdersChange(b: Books, s: Settings, e: Event)
    requires Wide(e)
    ensures var p, p' := b.pending, Step(b, s, e).0.pending;
      if e.ReportEvent?
      then p'.orders == TrackOrder(p, e.report).orders && p'.byTicker == TrackOrder(p, e.report).byTicker
      else p'.orders == p.orders && p'.byTicker == p.byTicker
  {
  }

  /** An order is pending if and only if its latest report is live. */
  lemma {:induction false} PendingIffLatestIsLive(s: Settings, events: seq<Event>, orderRef: string)
    requires AllWide(events)
    ensures orderRef in Run(s, events).pending.orders
            <==> Latest(events, orderRef).Some? && Live(Latest(events, orderRef).value.status)
    decreases |events|
  {
    if events != [] {
      var front := events[..|events| - 1];
      PendingIffLatestIsLive(s, front, orderRef);
      OrdersChange(Run(s, front), s, events[|events| - 1]);
      hide Step;
    }
  }

  // ---------------------------------------------------------------- the two indexes

  ghost predicate DistinctRefs(list: seq<Report>) {
    forall i, j :: 0 <= i < j < |list| ==> list[i].orderRef != list[j].orderRef
  }

  ghost predicate Listed(p: Pending) {
    forall ref :: ref in p.orders
        ==> p.orders[ref].orderRef == ref && p.orders[ref] in At(p.byTicker, p.orders[ref].ticker, [])
  }

  ghost predicate ListsHold(p: Pending) {
    forall t, r :: r in At(p.byTicker, t, []) ==> r.ticker == t && r.orderRef in p.orders && p.orders[r.orderRef] == r
  }

  ghost predicate ListsDistinct(p: Pending) {
    forall t :: DistinctRefs(At(p.byTicker, t, []))
  }

  /** Each pending order stands exactly once in exactly one list, its ticker's, and nothing else does. */
  ghost predicate Agrees(p: Pending) {
    Listed(p) && ListsHold(p) && ListsDistinct(p)
  }

  predicate EndsUnderItsTicker(p: Pending, r: Report) {
    !Live(r.status) && r.orderRef in p.orders ==> p.orders[r.orderRef].ticker == r.ticker
  }

  lemma {:induction false} WithoutRefDistinct(list: seq<Report>, orderRef: string)
    requires DistinctRefs(list)
    ensures DistinctRefs(WithoutRef(list, orderRef))
    decreases |list|
  {
    if list != [] {
      var front, last := list[..|list| - 1], list[|list| - 1];
      WithoutRefDistinct(front, orderRef);
      var kept := WithoutRef(front, orderRef);
      forall x | x in kept ensures x.orderRef != last.orderRef {
        var i :| 0 <= i < |front| && front[i] == x;
        assert list[i] == x;
      }
    }
  }

  lemma AppendDistinct(list: seq<Report>, r: Report)
    requires DistinctRefs(list) && forall x :: x in list ==> x.orderRef != r.orderRef
    ensures DistinctRefs(list + [r])
  {
  }

  lemma AddingAgrees(p: Pending, r: Report)
    requires Agrees(p) && Live(r.status)
    ensures Agrees(TrackOrder(p, r))
  {
    if r.orderRef !in p.orders {
      var list := At(p.byTicker, r.ticker, []);
      hide DistinctRefs, Live;
      AppendDistinct(list, r);
      var p' := TrackOrder(p, r);
      forall t, x | x in At(p'.byTicker, t, [])
          ensures x.ticker == t && x.orderRef in p'.orders && p'.orders[x.orderRef] == x {
        if x in At(p.byTicker, t, []) {}
      }
    }
  }

  lemma RemovingLists(p: Pending, r: Report)
    requires Agrees(p) && !Live(r.status)
    ensures Listed(TrackOrder(p, r)) && ListsDistinct(TrackOrder(p, r))
  {
    WithoutRefDistinct(At(p.byTicker, r.ticker, []), r.orderRef);
    hide DistinctRefs, Live;
    var p' := TrackOrder(p, r);
    forall t ensures DistinctRefs(At(p'.byTicker, t, [])) {
      assert DistinctRefs(At(p.byTicker, t, []));
    }
  }

  lemma RemovingHoldsIff(p: Pending, r: Report)
    requires Agrees(p) && !Live(r.status)
    ensures ListsHold(TrackOrder(p, r)) <==> EndsUnderItsTicker(p, r)
  {
    hide ListsDistinct;
    var p' := TrackOrder(p, r);
    if r.orderRef in p.orders && p.orders[r.orderRef].ticker != r.ticker {
      var x := p.orders[r.orderRef];
      assert x in At(p'.byTicker, x.ticker, []);
    } else {
      forall t, x | x in At(p'.byTicker, t, [])
          ensures x.ticker == t && x.orderRef in p'.orders && p'.orders[x.orderRef] == x {
        assert x in At(p.byTicker, t, []);
      }
    }
  }

  /** A report keeps the two indexes in agreement if and only if an order ends under the ticker it was pending under. */
  lemma TrackKeepsIff(p: Pending, r: Report)
    requires Agrees(p)
    ensures Agrees(TrackOrder(p, r)) <==> EndsUnderItsTicker(p, r)
  {
    if Live(r.status) {
      AddingAgrees(p, r);
    } else {
      RemovingLists(p, r);
      RemovingHoldsIff(p, r);
    }
    hide Listed, ListsHold, ListsDistinct, TrackOrder;
  }

  /** An order that goes live under one ticker and ends under another: it stays in the first ticker's list. */
  lemma WrongTickerBreaksIndexes(s: Settings, live: Report, ended: Report)
    requires Int32(live.token) && Int32(ended.token) && Live(live.status) && !Live(ended.status)
    requires live.orderRef == ended.orderRef && live.ticker != ended.ticker
    ensures var events := [ReportEvent(live), ReportEvent(ended)];
      && AllWide(events)
      && var p := Run(s, events).pending;
      !Agrees(p) && live.orderRef !in p.orders && live in At(p.byTicker, live.ticker, [])
  {
    var start, end := ReportEvent(live), ReportEvent(ended);
    RunSnoc(s, [], start);
    RunSnoc(s, [start], end);
    assert [] + [start] == [start] && [start] + [end] == [start, end];
    var p := Run(s, [start, end]).pending;
    assert live in At(p.byTicker, live.ticker, []);
  }

  /** All reports of one order name one ticker. */
  ghost predicate OneTicker(events: seq<Event>) {
    forall i, j :: 0 <= i < |events| && 0 <= j < |events| && events[i].ReportEvent?
                   && Reports(events[j], events[i].report.orderRef)
                   ==> events[i].report.ticker == events[j].report.ticker
  }

  ghost predicate FromEvents(p: Pending, events: seq<Event>) {
    forall ref :: ref in p.orders ==> ReportEvent(p.orders[ref]) in events
  }

  /** In every run with one ticker an order, the indexes agree. */
  lemma {:induction false} EveryRunAgrees(s: Settings, events: seq<Event>)
    requires AllWide(events) && OneTicker(events)
    ensures Agrees(Run(s, events).pending) && FromEvents(Run(s, events).pending, events)
    decreases |events|
  {
    if events != [] {
      var front, e := events[..|events| - 1], events[|events| - 1];
      EveryRunAgrees(s, front);
      StepAgrees(s, front, e, events);
    }
  }

  lemma StepAgrees(s: Settings, front: seq<Event>, e: Event, events: seq<Event>)
    requires AllWide(events) && OneTicker(events) && events != [] && events[..|events| - 1] == front
        && events[|events| - 1] == e
    requires Agrees(Run(s, front).pending) && FromEvents(Run(s, front).pending, front)
    ensures Agrees(Run(s, events).pending) && FromEvents(Run(s, events).pending, events)
  {
    var b := Run(s, front);
    OrdersChange(b, s, e);
    var p' := Run(s, events).pending;
    assert p' == Step(b, s, e).0.pending;
    hide Step, Run;
    assert e in events && forall x :: x in front ==> x in events;
    if e.ReportEvent? {
      TrackKeepsIff(b.pending, e.report);
      var r := e.report;
      if r.orderRef in b.pending.orders {
        var x := b.pending.orders[r.orderRef];
        assert x.orderRef == r.orderRef;
        var i :| 0 <= i < |front| && front[i] == ReportEvent(x);
        assert events[i] == front[i];
      }
      SameIndexes(TrackOrder(b.pending, r), p');
    } else {
      SameIndexes(b.pending, p');
    }
  }

  lemma SameIndexes(p: Pending, q: Pending)
    requires p.orders == q.orders && p.byTicker == q.byTicker
    ensures Agrees(p) <==> Agrees(q)
  {
  }

  /** An admitted order could trade against no pending order of its ticker. */
  lemma AdmittedCrossesNothing(s: Settings, events: seq<Event>, e: Event, orderRef: string)
    requires AllWide(events) && OneTicker(events) && Wide(e) && Admitted(Run(s, events), s, e)
    requires orderRef in Run(s, events).pending.orders
        && Run(s, events).pending.orders[orderRef].ticker == e.order.ticker
    ensures !Crosses(e.order, Run(s, events).pending.orders[orderRef])
  {
    EveryRunAgrees(s, events);
    hide Run, Crosses, FlowStep, CapacityError;
  }

  // ---------------------------------------------------------------- cancels

  /** A cancel request of this order that the whole check lets through. */
  predicate CancelPasses(b: Books, s: Settings, e: Event, orderRef: string) {
    e.ActionEvent? && e.action.orderRef == orderRef && e.action.riskStatus == PREPARE_CHECKED
    && ActionStep(b, s, e.action, e.now).1 == [ActionReply(e.action.(riskStatus := CHECKED_PASS))]
  }

  /** The cancels passed while the order has been pending. */
  function PassedCancels(s: Settings, events: seq<Event>, orderRef: string): (n: nat)
    requires AllWide(events)
  {
    if events == [] then 0
    else
      var front, e := events[..|events| - 1], events[|events| - 1];
      if Reports(e, orderRef) && !Live(e.report.status) then 0
      else if orderRef in Run(s, front).pending.orders && CancelPasses(Run(s, front), s, e, orderRef)
      then PassedCancels(s, front, orderRef) + 1
      else PassedCancels(s, front, orderRef)
  }

  ghost predicate CountersFit(p: Pending, limit: int, orderRef: string, passed: nat) {
    && (orderRef in p.orderCancels ==> orderRef in p.orders)
    && At(p.orderCancels, orderRef, 0) >= 0
    && passed == (if At(p.orderCancels, orderRef, 0) <= Cap(limit) then At(p.orderCancels, orderRef, 0) else Cap(limit))
  }

  lemma CancelFits(b: Books, s: Settings, e: Event, orderRef: string, passed: nat)
    requires e.ActionEvent? && CountersFit(b.pending, s.limits.orderCancelLimit, orderRef, passed)
    ensures CountersFit(Step(b, s, e).0.pending, s.limits.orderCancelLimit, orderRef,
      if orderRef in b.pending.orders && CancelPasses(b, s, e, orderRef) then passed + 1 else passed)
  {
  }

  lemma OrderFits(b: Books, s: Settings, e: Event)
    requires Wide(e) && !e.ActionEvent? && !e.ReportEvent?
    ensures Step(b, s, e).0.pending == b.pending
  {
  }

  lemma ReportFits(b: Books, s: Settings, e: Event, orderRef: string, passed: nat)
    requires Wide(e) && e.ReportEvent? && CountersFit(b.pending, s.limits.orderCancelLimit, orderRef, passed)
    ensures CountersFit(Step(b, s, e).0.pending, s.limits.orderCancelLimit, orderRef,
      if Reports(e, orderRef) && !Live(e.report.status) then 0 else passed)
  {
  }

  lemma {:induction false} EveryRunCountersFit(s: Settings, events: seq<Event>, orderRef: string)
    requires AllWide(events)
    ensures CountersFit(Run(s, events).pending, s.limits.orderCancelLimit, orderRef, PassedCancels(s, events, orderRef))
    decreases |events|
  {
    if events != [] {
      var front, e := events[..|events| - 1], events[|events| - 1];
      EveryRunCountersFit(s, front, orderRef);
      var b := Run(s, front);
      if e.ActionEvent? {
        CancelFits(b, s, e, orderRef, PassedCancels(s, front, orderRef));
      } else if e.ReportEvent? {
        ReportFits(b, s, e, orderRef, PassedCancels(s, front, orderRef));
      } else {
        OrderFits(b, s, e);
      }
      hide Step, CountersFit;
    }
  }

  /** Cancel counters exist for pending orders only, and no more cancels of an order pass while it is
      pending than the limit allows. */
  lemma CancelsAreLimited(s: Settings, events: seq<Event>, orderRef: string)
    requires AllWide(events)
    ensures orderRef in Run(s, events).pending.orderCancels ==> orderRef in Run(s, events).pending.orders
    ensures PassedCancels(s, events, orderRef) <= Cap(s.limits.orderCancelLimit)
  {
    EveryRunCountersFit(s, events, orderRef);
    hide Run, PassedCancels;
  }

  /** The limit orders of one account and ticker that ended cancelled. */
  function CancelReports(events: seq<Event>, key: string): nat {
    if events == [] then 0
    else
      var e := events[|events| - 1];
      CancelReports(events[..|events| - 1], key)
      + if e.ReportEvent? && CountsAsCancelled(e.report) && PairKey(e.report.account, e.report.ticker) == key
        then 1 else 0
  }

  lemma CounterChanges(b: Books, s: Settings, e: Event, key: string)
    requires Wide(e)
    ensures At(Step(b, s, e).0.pending.tickerCancels, key, 0) == At(b.pending.tickerCancels, key, 0)
      + if e.ReportEvent? && CountsAsCancelled(e.report) && PairKey(e.report.account, e.report.ticker) == key
        then 1 else 0
  {
  }

  /** The counter of an account's ticker is the number of its limit orders that ended cancelled. */
  lemma {:induction false} TickerCancelsAreCounted(s: Settings, events: seq<Event>, key: string)
    requires AllWide(events)
    ensures At(Run(s, events).pending.tickerCancels, key, 0) == CancelReports(events, key)
    decreases |events|
  {
    if events != [] {
      TickerCancelsAreCounted(s, events[..|events| - 1], key);
      CounterChanges(Run(s, events[..|events| - 1]), s, events[|events| - 1], key);
      hide Step, PairKey, CountsAsCancelled;
    }
  }

  /** A cancel of a pending order passes only while its account's ticker has seen fewer cancelled limit
      orders than the limit. */
  lemma PassedCancelIsWithinTickerLimit(s: Settings, events: seq<Event>, e: Event, orderRef: string)
    requires AllWide(events) && orderRef in Run(s, events).pending.orders
        && CancelPasses(Run(s, events), s, e, orderRef)
    ensures var order := Run(s, events).pending.orders[orderRef];
      CancelReports(events, PairKey(order.account, order.ticker)) < s.limits.tickerCancelLimit
  {
    var order := Run(s, events).pending.orders[orderRef];
    TickerCancelsAreCounted(s, events, PairKey(order.account, order.ticker));
    hide Run, FlowStep, PairKey;
  }
}
