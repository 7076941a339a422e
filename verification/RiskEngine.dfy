/** The risk engine object: the handlers that update its maps in place, against the model's steps. */
module RiskEngine {
  import opened Numbers
  import opened RiskModel
  import opened RiskFlow
  import opened RiskLedger
  import opened RiskPending

  class Engine {
    const settings: Settings
    var pendingOrders: map<string, Report>
    var tickerPending: map<string, seq<Report>>
    var orderCancels: map<string, int>
    var tickerCancels: map<string, int>
    var flowCount: map<string, int>
    var flowStart: map<string, int>
    var funds: map<string, real>
    var positions: map<string, int>
    var reservedBuy: map<string, real>
    var reservedSell: map<string, int>
    var reservations: map<string, (real, int)>
    var responses: seq<Output>
    /** Event logs passed on to the monitor. */
    var logs: seq<string>
    /** Every message handled so far. */
    ghost var events: seq<Event>

    /** The books are what the model makes of the messages handled. */
    ghost predicate Valid()
      reads this
    {
      AllWide(events) && CurrentBooks() == Run(settings, events)
    }

    function PendingBooks(): Pending
      reads this
    {
      Pending(pendingOrders, tickerPending, orderCancels, tickerCancels)
    }

    function FlowBooks(): Flow
      reads this
    {
      Flow(flowCount, flowStart)
    }

    function LedgerBooks(): Ledger
      reads this
    {
      Ledger(funds, positions, reservedBuy, reservedSell, reservations)
    }

    function CurrentBooks(): Books
      reads this
    {
      Books(PendingBooks(), FlowBooks(), LedgerBooks())
    }

    constructor (settings: Settings)
      ensures this.settings == settings && Valid() && events == [] && responses == [] && logs == []
    {
      this.settings := settings;
      pendingOrders, tickerPending, orderCancels, tickerCancels := map[], map[], map[], map[];
      flowCount, flowStart := map[], map[];
      funds, positions, reservedBuy, reservedSell, reservations := map[], map[], map[], map[], map[];
      responses, logs, events := [], [], [];
    }

    /** Counts a request in the account's window, reopening it when it has run out. */
    method FlowLimited(account: string, now: int) returns (ok: bool)
      modifies this`flowCount, this`flowStart
      ensures (FlowBooks(), ok) == FlowStep(old(FlowBooks()), account, now, settings.limits.flowLimit)
    {
      var windowStart := At(flowStart, account, 0);
      if windowStart == 0 || now - windowStart > 1000 {
        flowStart := flowStart[account := now];
        flowCount := flowCount[account := 0];
      }
      var flow := At(flowCount, account, 0) + 1;
      flowCount := flowCount[account := flow];
      assert flowCount == old(flowCount)[account := flow];
      ok := flow <= settings.limits.flowLimit;
    }

    /** Whether no resting order of the ticker could trade against this one. */
    method SelfMatched(o: Order) returns (ok: bool)
      ensures ok == !SelfMatches(PendingBooks(), o)
    {
      var orderList := At(tickerPending, o.ticker, []);
      for i := 0 to |orderList|
        invariant forall k :: 0 <= k < i ==> !Crosses(o, orderList[k])
      {
        if Crosses(o, orderList[i]) {
          return false;
        }
      }
      ok := true;
    }

    method CancelLimited(orderRef: string) returns (error: int)
      modifies this`orderCancels
      ensures (PendingBooks(), error) == CancelStep(old(PendingBooks()), settings.limits, orderRef)
    {
      if orderRef !in pendingOrders {
        return 0;
      }
      var key := PairKey(pendingOrders[orderRef].account, pendingOrders[orderRef].ticker);
      if At(tickerCancels, key, 0) + 1 > settings.limits.tickerCancelLimit {
        return TICKER_ACTION_LIMITED;
      }
      var count := At(orderCancels, orderRef, 0) + 1;
      orderCancels := orderCancels[orderRef := count];
      error := if count > settings.limits.orderCancelLimit then ORDER_ACTION_LIMITED else 0;
    }

    /** Refuses an order that does not fit the snapshots and earlier reservations, or reserves for it. */
    method AccountCapacity(o: Order) returns (error: int)
      requires Int32(o.token)
      modifies this`reservedBuy, this`reservedSell, this`reservations
      ensures error == CapacityError(old(LedgerBooks()), o)
      ensures LedgerBooks() == if error == 0 then Reserve(old(LedgerBooks()), o) else old(LedgerBooks())
    {
      hide TokenKey, PairKey;
      var orderKey := TokenKey(o.account, o.token);
      if o.token != 0 && orderKey in reservations {
        return DUPLICATE_TOKEN;
      }
      var buyAmount, sellVolume := 0.0, 0;
      var positionKey := PairKey(o.account, o.ticker);
      if o.direction == BUY {
        var required := Notional(o);
        if o.account !in funds || funds[o.account] + CASH_TOLERANCE < required + At(reservedBuy, o.account, 0.0) {
          return CASH_SHORT;
        }
        buyAmount := required;
      } else if o.direction == SELL {
        if positionKey !in positions || positions[positionKey] < o.volume + At(reservedSell, positionKey, 0) {
          return POSITION_SHORT;
        }
        sellVolume := o.volume;
      }
      if o.token != 0 {
        reservations := reservations[orderKey := (buyAmount, sellVolume)];
        reservedBuy := reservedBuy[o.account := At(reservedBuy, o.account, 0.0) + buyAmount];
        if sellVolume > 0 {
          reservedSell := reservedSell[positionKey := At(reservedSell, positionKey, 0) + sellVolume];
        }
      }
      error := 0;
    }

    method ReleaseOrderReservation(r: Report)
      requires Int32(r.token)
      modifies this`reservedBuy, this`reservedSell, this`reservations
      ensures LedgerBooks() == Release(old(LedgerBooks()), r)
    {
      hide TokenKey, PairKey;
      if !Terminal(r.status) || r.token == 0 {
        return;
      }
      var key := TokenKey(r.account, r.token);
      if key !in reservations {
        return;
      }
      var (amount, volume) := reservations[key];
      if amount > 0.0 {
        reservedBuy := reservedBuy[r.account := MaxReal(0.0, At(reservedBuy, r.account, 0.0) - amount)];
      }
      if volume > 0 {
        var positionKey := PairKey(r.account, r.ticker);
        reservedSell := reservedSell[positionKey := Max(0, At(reservedSell, positionKey, 0) - volume)];
      }
      reservations := reservations - {key};
    }

    /** The list without the ended order, in place of erasing while walking it. */
    method EraseFromList(orderList: seq<Report>, orderRef: string) returns (kept: seq<Report>)
      ensures kept == WithoutRef(orderList, orderRef)
    {
      kept := [];
      for i := 0 to |orderList|
        invariant kept == WithoutRef(orderList[..i], orderRef)
      {
        assert orderList[..i + 1][..i] == orderList[..i];
        if orderList[i].orderRef != orderRef {
          kept := kept + [orderList[i]];
        }
      }
      assert orderList[..|orderList|] == orderList;
    }

    method UpdatePendingOrders(r: Report)
      modifies this`pendingOrders, this`tickerPending, this`orderCancels
      ensures PendingBooks() == TrackOrder(old(PendingBooks()), r)
    {
      hide WithoutRef;
      if Live(r.status) {
        if r.orderRef !in pendingOrders {
          pendingOrders := pendingOrders[r.orderRef := r];
          tickerPending := tickerPending[r.ticker := At(tickerPending, r.ticker, []) + [r]];
        }
        return;
      }
      var kept := EraseFromList(At(tickerPending, r.ticker, []), r.orderRef);
      tickerPending := tickerPending[r.ticker := kept];
      pendingOrders := pendingOrders - {r.orderRef};
      orderCancels := orderCancels - {r.orderRef};
    }

    method UpdateCancelledCounter(r: Report)
      modifies this`tickerCancels, this`responses
      ensures (PendingBooks(), responses) ==
        (CountCancelled(old(PendingBooks()), r).0, old(responses) + CountCancelled(old(PendingBooks()), r).1)
    {
      if CountsAsCancelled(r) {
        var key := PairKey(r.account, r.ticker);
        var count := At(tickerCancels, key, 0) + 1;
        tickerCancels := tickerCancels[key := count];
        responses := responses + [CancelCount(key, count)];
      } else {
        assert responses == old(responses) + [];
      }
    }

    method HandleOrderStatus(r: Report)
      requires Int32(r.token)
      modifies this
      ensures var (b, out) := ReportStep(old(CurrentBooks()), r);
        CurrentBooks() == b && responses == old(responses) + out
      ensures logs == old(logs) && events == old(events)
    {
      hide Release, TrackOrder, CountCancelled;
      ReleaseOrderReservation(r);
      UpdatePendingOrders(r);
      UpdateCancelledCounter(r);
    }

    /** The checks of an order in their order: 0, or the first error. */
    method CheckOrder(o: Order, now: int) returns (error: int)
      requires Int32(o.token)
      modifies this`flowCount, this`flowStart, this`reservedBuy, this`reservedSell, this`reservations
      ensures var (flow, within) := FlowStep(old(FlowBooks()), o.account, now, settings.limits.flowLimit);
        && FlowBooks() == flow && error == OrderError(old(CurrentBooks()), settings, o, within)
        && LedgerBooks() == if error == 0 then Reserve(old(LedgerBooks()), o) else old(LedgerBooks())
    {
      hide FlowStep, Reserve, CapacityError, SelfMatches, Locked;
      var within := FlowLimited(o.account, now);
      if !within {
        return FLOW_LIMITED;
      }
      if Locked(settings.locks, o) {
        return ACCOUNT_LOCKED;
      }
      var unmatched := SelfMatched(o);
      if !unmatched {
        return SELF_MATCHED;
      }
      error := AccountCapacity(o);
    }

    /** The whole check of an order, and the reply it earns. */
    method HandleOrderRequest(o: Order, now: int)
      requires Int32(o.token)
      modifies this
      ensures var (b, out) := OrderStep(old(CurrentBooks()), settings, o, now);
        CurrentBooks() == b && responses == old(responses) + out
      ensures logs == old(logs) && events == old(events)
    {
      hide FlowStep, Reserve, OrderError;
      if o.riskStatus == CHECK_INIT {
        responses := responses + [OrderReply(o.(errorId := -1))];
        return;
      }
      if o.riskStatus != PREPARE_CHECKED {
        assert responses == old(responses) + [];
        return;
      }
      var error := CheckOrder(o, now);
      if error == 0 {
        responses := responses + [OrderReply(o.(riskStatus := CHECKED_PASS))];
      } else {
        responses := responses
            + [RiskEvent(o.account), OrderReply(o.(riskStatus := CHECKED_NOPASS, errorId := error))];
      }
    }

    method HandleActionRequest(a: Action, now: int)
      modifies this
      ensures var (b, out) := ActionStep(old(CurrentBooks()), settings, a, now);
        CurrentBooks() == b && responses == old(responses) + out
      ensures logs == old(logs) && events == old(events)
    {
      hide FlowStep, CancelStep;
      if a.riskStatus != PREPARE_CHECKED {
        assert responses == old(responses) + [];
        return;
      }
      var error := FLOW_LIMITED;
      var within := FlowLimited(a.account, now);
      if within {
        error := CancelLimited(a.orderRef);
      }
      if error == 0 {
        responses := responses + [ActionReply(a.(riskStatus := CHECKED_PASS))];
      } else {
        responses := responses
            + [RiskEvent(a.account), ActionReply(a.(riskStatus := CHECKED_NOPASS, errorId := error))];
      }
    }

    /** One message from the shared-memory server. */
    method HandleRequest(e: Event)
      requires Valid() && Wide(e)
      modifies this
      ensures Valid() && events == old(events) + [e]
      ensures responses == old(responses) + Step(old(CurrentBooks()), settings, e).1
      ensures logs == old(logs) + if e.LogEvent? then [e.text] else []
    {
      hide OrderStep, ActionStep, ReportStep, PairKey, Run;
      ghost var before := CurrentBooks();
      match e {
        case OrderEvent(o, now) => HandleOrderRequest(o, now);
        case ActionEvent(a, now) => HandleActionRequest(a, now);
        case ReportEvent(r) => HandleOrderStatus(r);
        case FundEvent(account, available) => funds := funds[account := available];
        case PositionEvent(account, ticker, sellable) => positions := positions[PairKey(account, ticker) := sellable];
        case LoginEvent =>
        case LogEvent(text) => logs := logs + [text];
        case UnknownEvent =>
      }
      assert CurrentBooks() == Step(before, settings, e).0;
      RunSnoc(settings, events, e);
      events := events + [e];
    }

    /** The laws of runs hold of the engine's own books, under the same conditions on what it has handled. */
    lemma KeepsLaws(account: string, low: int)
      requires Valid()
      ensures ProperRun(settings, events) ==> Balanced(LedgerBooks(), LiveHolds(settings, events))
      ensures OneTicker(events) ==> Agrees(PendingBooks())
      ensures ClockForward(events) ==>
        CountIn(PassTimes(settings, events, account), low, low + 1000) <= 2 * Cap(settings.limits.flowLimit)
    {
      hide Balanced, LiveHolds, Agrees, ProperRun, OneTicker, ClockForward, CountIn, PassTimes, Cap, Run;
      if ProperRun(settings, events) { EveryRunBalances(settings, events); }
      if OneTicker(events) { EveryRunAgrees(settings, events); }
      if ClockForward(events) { EverySecondIsBounded(settings, events, account, low); }
    }
  }
}
