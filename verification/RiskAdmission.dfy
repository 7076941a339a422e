/** When an order is admitted, said of what happened before it: the requests, snapshots, reports and live orders. */
module RiskAdmission {
  import opened Wrappers
  import opened RiskModel
  import opened RiskFlow
  import opened RiskLedger
  import opened RiskPending
  import opened RiskReplies

  // ---------------------------------------------------------------- the flow limit

  /** The times of all requests of one account that were to be checked. */
  function RequestTimes(events: seq<Event>, account: string): seq<int> {
    if events == [] then []
    else
      var e := events[|events| - 1];
      RequestTimes(events[..|events| - 1], account)
      + (if Checked(e) && Requester(e) == account then [e.now] else [])
  }

  /** The request that opened the window request `k` falls in: windows open at the first request and at the first
      one more than a second after the last opening. */
  function Opener(times: seq<int>, k: nat): (j: nat)
    requires k < |times|
    ensures j <= k
  {
    if k == 0 || times[k] - times[Opener(times, k - 1)] > 1000 then k else Opener(times, k - 1)
  }

  /** The requests in the last request's window, itself included. */
  function InWindow(times: seq<int>): nat {
    if times == [] then 0 else |times| - Opener(times, |times| - 1)
  }

  lemma {:induction false} OpenerSnoc(times: seq<int>, t: int, k: nat)
    requires k < |times|
    ensures Opener(times + [t], k) == Opener(times, k)
  {
    if k > 0 { OpenerSnoc(times, t, k - 1); }
  }

  ghost predicate FlowIs(f: Flow, account: string, times: seq<int>) {
    && At(f.count, account, 0) == InWindow(times)
    && At(f.start, account, 0) == if times == [] then 0 else times[Opener(times, |times| - 1)]
  }

  lemma RequestCounted(f: Flow, account: string, now: int, limit: int, times: seq<int>)
    requires FlowIs(f, account, times) && forall i :: 0 <= i < |times| ==> times[i] != 0
    ensures FlowIs(FlowStep(f, account, now, limit).0, account, times + [now])
    ensures FlowStep(f, account, now, limit).1 <==> InWindow(times + [now]) <= limit
  {
    if times != [] { OpenerSnoc(times, now, |times| - 1); }
    hide Opener;
    WindowSnoc(times, now);
  }

  lemma WindowSnoc(times: seq<int>, now: int)
    ensures times == [] ==> Opener(times + [now], 0) == 0
    ensures times != [] ==>
        Opener(times + [now], |times|) ==
          if now - times[Opener(times, |times| - 1)] > 1000 then |times| else Opener(times, |times| - 1)
  {
    if times != [] { OpenerSnoc(times, now, |times| - 1); }
  }

  ghost predicate NoTimeZero(events: seq<Event>) {
    forall i :: 0 <= i < |events| && Checked(events[i]) ==> events[i].now != 0
  }

  lemma FlowStepsOn(b: Books, s: Settings, e: Event, account: string, times: seq<int>)
    requires Wide(e) && FlowIs(b.flow, account, times) && forall i :: 0 <= i < |times| ==> times[i] != 0
    ensures FlowIs(Step(b, s, e).0.flow, account,
                   times + (if Checked(e) && Requester(e) == account then [e.now] else []))
  {
    hide Step, InWindow, FlowStep, Opener;
    FlowChanges(b, s, e);
    if Checked(e) && Requester(e) == account {
      RequestCounted(b.flow, account, e.now, s.limits.flowLimit, times);
    } else {
      assert times + [] == times;
      if Checked(e) { FlowStepAt(b.flow, Requester(e), e.now, s.limits.flowLimit, account); }
    }
  }

  lemma {:induction false} EveryRunFlows(s: Settings, events: seq<Event>, account: string)
    requires AllWide(events) && NoTimeZero(events)
    ensures FlowIs(Run(s, events).flow, account, RequestTimes(events, account))
    ensures forall i :: 0 <= i < |RequestTimes(events, account)| ==> RequestTimes(events, account)[i] != 0
    decreases |events|
  {
    hide Step, FlowIs;
    if events == [] {
      NothingFlows(account);
    } else {
      var front, e := events[..|events| - 1], events[|events| - 1];
      EveryRunFlows(s, front, account);
      FlowStepsOn(Run(s, front), s, e, account, RequestTimes(front, account));
    }
  }

  lemma NothingFlows(account: string)
    ensures FlowIs(EMPTY_BOOKS.flow, account, [])
  {
  }

  /** In every run a request passes the limiter if and only if its window holds at most the limit of requests,
      itself included, whether or not those passed. */
  lemma PassesIff(s: Settings, events: seq<Event>, e: Event)
    requires AllWide(events) && NoTimeZero(events) && Checked(e)
    ensures Passes(Run(s, events), s, e)
            <==> InWindow(RequestTimes(events, Requester(e)) + [e.now]) <= s.limits.flowLimit
  {
    EveryRunFlows(s, events, Requester(e));
    RequestCounted(Run(s, events).flow, Requester(e), e.now, s.limits.flowLimit, RequestTimes(events, Requester(e)));
    hide Run, InWindow, RequestTimes, FlowStep;
  }

  // ---------------------------------------------------------------- locks

  /** The text holds the part somewhere. */
  ghost predicate Mentions(text: string, part: string) {
    exists before: string, after: string :: text == before + part + after
  }

  lemma ContainsIff(text: string, part: string)
    ensures Contains(text, part) <==> Mentions(text, part)
  {
    if Contains(text, part) {
      var i :| 0 <= i <= |text| && OccursAt(text, part, i);
      assert text == text[..i] + part + text[i + |part|..];
    }
    if before: string, after: string :| text == before + part + after {
      assert OccursAt(text, part, |before|);
    }
  }

  /** The lock is on the order's side. */
  predicate OnSide(side: LockedSide, direction: Direction) {
    match side
    case UNLOCK => false
    case LOCK_BUY => direction == BUY
    case LOCK_SELL => direction == SELL
    case LOCK_ACCOUNT => true
  }

  /** A lock of the order's account on its side, for the whole account, for all tickers or mentioning its ticker. */
  ghost predicate UnderLock(locks: map<string, Lock>, o: Order) {
    o.account in locks &&
    var lock := locks[o.account];
    && OnSide(lock.side, o.direction)
    && (lock.side == LOCK_ACCOUNT || lock.ticker == "" || Mentions(lock.ticker, o.ticker))
  }

  lemma LockedIff(locks: map<string, Lock>, o: Order)
    ensures Locked(locks, o) <==> UnderLock(locks, o)
  {
    if o.account in locks { ContainsIff(locks[o.account].ticker, o.ticker); }
    hide Contains, Mentions;
  }

  // ---------------------------------------------------------------- resting orders

  /** Which way an order of this side trades. */
  function Trades(side: Side): Direction {
    match side
    case OPEN_LONG => BUY
    case CLOSE_TD_LONG => SELL
    case CLOSE_YD_LONG => SELL
    case OPEN_SHORT => SELL
    case CLOSE_TD_SHORT => BUY
    case CLOSE_YD_SHORT => BUY
    case OTHER_SIDE => OTHER_DIRECTION
  }

  /** One buys, the other sells, and the seller asks no more than the buyer gives. */
  predicate CouldTrade(o: Order, r: Report) {
    || (o.direction == BUY && Trades(r.side) == SELL && r.sendPrice <= o.price)
    || (o.direction == SELL && Trades(r.side) == BUY && o.price <= r.sendPrice)
  }

  lemma CrossesIff(o: Order, r: Report)
    ensures Crosses(o, r) <==> CouldTrade(o, r)
  {
  }

  /** Whether a pending order of the ticker could trade against this one. */
  ghost predicate MeetsOwn(p: Pending, o: Order) {
    exists ref :: ref in p.orders && p.orders[ref].ticker == o.ticker && CouldTrade(o, p.orders[ref])
  }

  /** With the indexes in agreement, the ticker's list is all that is pending of the ticker. */
  lemma SelfMatchesIff(p: Pending, o: Order)
    requires Agrees(p)
    ensures SelfMatches(p, o) <==> MeetsOwn(p, o)
  {
    hide Crosses, CouldTrade;
    if SelfMatches(p, o) {
      var r :| r in At(p.byTicker, o.ticker, []) && Crosses(o, r);
      CrossesIff(o, r);
      assert r.orderRef in p.orders && p.orders[r.orderRef] == r;
    }
    if ref :| ref in p.orders && p.orders[ref].ticker == o.ticker && CouldTrade(o, p.orders[ref]) {
      CrossesIff(o, p.orders[ref]);
      assert p.orders[ref] in At(p.byTicker, o.ticker, []);
    }
  }

  // ---------------------------------------------------------------- cash and stock

  /** The account's last cash snapshot. */
  function LastFunds(events: seq<Event>, account: string): Option<real> {
    if events == [] then None
    else
      var e := events[|events| - 1];
      if e.FundEvent? && e.account == account then Some(e.available)
      else LastFunds(events[..|events| - 1], account)
  }

  /** The last position snapshot of an account's ticker. */
  function LastPosition(events: seq<Event>, pair: string): Option<int> {
    if events == [] then None
    else
      var e := events[|events| - 1];
      if e.PositionEvent? && PairKey(e.holder, e.ticker) == pair then Some(e.sellable)
      else LastPosition(events[..|events| - 1], pair)
  }

  ghost predicate SnapshotsAre(l: Ledger, events: seq<Event>, account: string, pair: string) {
    && (account in l.funds <==> LastFunds(events, account).Some?)
    && (account in l.funds ==> l.funds[account] == LastFunds(events, account).value)
    && (pair in l.positions <==> LastPosition(events, pair).Some?)
    && (pair in l.positions ==> l.positions[pair] == LastPosition(events, pair).value)
  }

  lemma SnapshotTaken(b: Books, s: Settings, e: Event, account: string, pair: string)
    requires Wide(e)
    ensures var l := Step(b, s, e).0.ledger;
      && (IsFundOf(e, account) ==> account in l.funds && l.funds[account] == e.available)
      && (IsPositionOf(e, pair) ==> pair in l.positions && l.positions[pair] == e.sellable)
  {
  }

  lemma {:induction false} EveryRunSnapshots(s: Settings, events: seq<Event>, account: string, pair: string)
    requires AllWide(events)
    ensures SnapshotsAre(Run(s, events).ledger, events, account, pair)
    decreases |events|
  {
    if events != [] {
      var front, e := events[..|events| - 1], events[|events| - 1];
      EveryRunSnapshots(s, front, account, pair);
      SnapshotsUntouched(Run(s, front), s, e, account, pair);
      SnapshotTaken(Run(s, front), s, e, account, pair);
      hide Step, PairKey;
    }
  }

  /** The order fits the cash beside all live buys. */
  ghost predicate CashSuffices(events: seq<Event>, h: Holds, o: Order) {
    var funds := LastFunds(events, o.account);
    funds.Some? && o.price * (o.volume as real) + Exposure(h, o.account) <= funds.value + CASH_TOLERANCE
  }

  /** The order fits the position beside all live sells of the ticker. */
  ghost predicate StockSuffices(events: seq<Event>, h: Holds, o: Order) {
    var pair := PairKey(o.account, o.ticker);
    var position := LastPosition(events, pair);
    position.Some? && o.volume as real + Committed(h, pair) <= position.value as real
  }

  /** Colon-free accounts and their tickers have positions of their own. */
  lemma PairKeyInjective(account: string, ticker: string, account': string, ticker': string)
    requires ':' !in account && ':' !in account' && PairKey(account, ticker) == PairKey(account', ticker')
    ensures account == account' && ticker == ticker'
  {
    var key := PairKey(account, ticker);
    assert key[|account|] == ':' && key[|account'|] == ':';
    assert forall i :: 0 <= i < |account| ==> key[i] == account[i];
    assert forall i :: 0 <= i < |account'| ==> key[i] == account'[i];
    assert account == key[..|account|] && account' == key[..|account'|];
    assert ticker == key[|account| + 1..] && ticker' == key[|account'| + 1..];
  }

  lemma CapacityIs(l: Ledger, h: Holds, events: seq<Event>, o: Order)
    requires Int32(o.token) && Balanced(l, h)
    requires SnapshotsAre(l, events, o.account, PairKey(o.account, o.ticker))
    ensures CapacityError(l, o) ==
      if o.token != 0 && TokenKey(o.account, o.token) in h then DUPLICATE_TOKEN
      else if o.direction == BUY && !CashSuffices(events, h, o) then CASH_SHORT
      else if o.direction == SELL && !StockSuffices(events, h, o) then POSITION_SHORT
      else 0
  {
    hide TokenKey, PairKey, Exposure, Committed, SameReservations, LastFunds, LastPosition;
    SameKeys(l, h);
    assert At(l.reservedBuy, o.account, 0.0) == Exposure(h, o.account);
    var pair := PairKey(o.account, o.ticker);
    assert At(l.reservedSell, pair, 0) as real == Committed(h, pair);
  }

  // ---------------------------------------------------------------- admission

  datatype Verdict = TooMany | LockedOut | MeetsPending | TokenLive | NoCash | NoStock | Admit

  /** The first objection to an order, from what happened before it. */
  ghost function VerdictOn(s: Settings, events: seq<Event>, e: Event): Verdict
    requires AllWide(events) && Wide(e) && Asked(e)
  {
    var o, h := e.order, LiveHolds(s, events);
    if InWindow(RequestTimes(events, o.account) + [e.now]) > s.limits.flowLimit then TooMany
    else if UnderLock(s.locks, o) then LockedOut
    else if MeetsOwn(Run(s, events).pending, o) then MeetsPending
    else if o.token != 0 && TokenKey(o.account, o.token) in h then TokenLive
    else if o.direction == BUY && !CashSuffices(events, h, o) then NoCash
    else if o.direction == SELL && !StockSuffices(events, h, o) then NoStock
    else Admit
  }

  /** The error each verdict is answered with. */
  function Code(v: Verdict): int {
    match v
    case TooMany => 1
    case LockedOut => 3
    case MeetsPending => 2
    case TokenLive => 0x2003
    case NoCash => 0x2001
    case NoStock => 0x2002
    case Admit => 0
  }

  lemma VerdictIsError(s: Settings, events: seq<Event>, e: Event)
    requires AllWide(events) && NoTimeZero(events) && ProperRun(s, events) && OneTicker(events)
    requires Wide(e) && Asked(e)
    ensures var b := Run(s, events);
      OrderError(b, s, e.order, FlowStep(b.flow, e.order.account, e.now, s.limits.flowLimit).1)
      == Code(VerdictOn(s, events, e))
  {
    hide Run, LiveHolds, InWindow, RequestTimes, Locked, UnderLock, SelfMatches, MeetsOwn, CapacityError, TokenKey;
    hide PairKey, CashSuffices, StockSuffices, Balanced, Agrees, SnapshotsAre, FlowStep, ProperRun, OneTicker;
    var o := e.order;
    PassesIff(s, events, e);
    LockedIff(s.locks, o);
    EveryRunAgrees(s, events);
    SelfMatchesIff(Run(s, events).pending, o);
    EveryRunBalances(s, events);
    EveryRunSnapshots(s, events, o.account, PairKey(o.account, o.ticker));
    CapacityIs(Run(s, events).ledger, LiveHolds(s, events), events, o);
  }

  /** In every proper run an order is admitted if and only if its window holds at most the limit of requests, no
      lock is on it, it meets no pending order of its ticker, its token is not live, and the last snapshot covers
      it beside all live orders; the reply to a refused one names the first of these that fails. */
  lemma AdmittedIff(s: Settings, events: seq<Event>, i: nat)
    requires AllWide(events) && i < |events| && AllWide(events[..i]) && Asked(events[i])
    requires NoTimeZero(events[..i]) && ProperRun(s, events[..i]) && OneTicker(events[..i])
    ensures var v := VerdictOn(s, events[..i], events[i]);
      && (Admitted(Run(s, events[..i]), s, events[i]) <==> v == Admit)
      && |OrderReplies(Answers(s, events, i))| == 1
      && var reply := OrderReplies(Answers(s, events, i))[0];
      && (v == Admit ==> reply.riskStatus == CHECKED_PASS)
      && (v != Admit ==> reply.riskStatus == CHECKED_NOPASS && reply.errorId == Code(v))
  {
    EveryOrderIsAnswered(s, events, i);
    VerdictIsError(s, events[..i], events[i]);
    ReplyCode(Run(s, events[..i]), s, events[i]);
    hide Run, VerdictOn, FlowStep, OrderError, OrderReplies, ProperRun, OneTicker, NoTimeZero, OrderStep;
  }

  lemma ReplyCode(b: Books, s: Settings, e: Event)
    requires Wide(e) && Asked(e)
    ensures var out := Step(b, s, e).1;
      var error := OrderError(b, s, e.order, FlowStep(b.flow, e.order.account, e.now, s.limits.flowLimit).1);
      out != [] && out[|out| - 1].OrderReply? && (error != 0 ==> out[|out| - 1].order.errorId == error)
  {
    hide FlowStep, OrderError, Reserve;
  }

  // ---------------------------------------------------------------- statuses

  datatype Stage = Working | Ended | Between

  /** Where an order stands after a report of this status. */
  function StageOf(status: OrderStatus): Stage {
    match status
    case ORDER_SENDED => Working
    case BROKER_ACK => Between
    case EXCHANGE_ACK => Working
    case PARTTRADED => Working
    case ALLTRADED => Ended
    case CANCELLING => Between
    case CANCELLED => Ended
    case PARTTRADED_CANCELLED => Ended
    case BROKER_ERROR => Ended
    case EXCHANGE_ERROR => Ended
    case ACTION_ERROR => Between
    case RISK_ORDER_REJECTED => Between
    case RISK_ACTION_REJECTED => Between
    case RISK_CHECK_INIT => Between
    case RISK_CHECK_SELFMATCH => Between
    case RISK_CHECK_CANCELLIMIT => Between
  }

  /** What a report of each stage does: a working order is pending and keeps its hold, an ended one neither, and
      one in between is no longer pending though it keeps its hold. */
  lemma ReportByStage(b: Books, s: Settings, r: Report)
    requires Int32(r.token)
    ensures var b' := Step(b, s, ReportEvent(r)).0; var key := TokenKey(r.account, r.token);
      && (r.orderRef in b'.pending.orders <==> StageOf(r.status) == Working)
      && (StageOf(r.status) == Ended && r.token != 0 ==> key !in b'.ledger.reservations)
      && (StageOf(r.status) != Ended ==> b'.ledger == b.ledger)
      && (forall k :: k in b.ledger.reservations && k != key ==>
            k in b'.ledger.reservations && b'.ledger.reservations[k] == b.ledger.reservations[k])
  {
    hide TokenKey, PairKey;
  }

  /** The cancelled counter counts limit orders that ended cancelled, in part or whole, or refused by the exchange. */
  lemma CountsIff(r: Report)
    ensures CountsAsCancelled(r) <==>
      r.limitOrder && (r.status == CANCELLED || r.status == PARTTRADED_CANCELLED || r.status == EXCHANGE_ERROR)
  {
  }
}
