/** The pre-trade risk engine: its books, and what each message does to them. */
module RiskModel {
  import opened Numbers
  import opened Text

  datatype OrderStatus =
    | ORDER_SENDED | BROKER_ACK | EXCHANGE_ACK | PARTTRADED | ALLTRADED | CANCELLING | CANCELLED | PARTTRADED_CANCELLED
    | BROKER_ERROR | EXCHANGE_ERROR | ACTION_ERROR | RISK_ORDER_REJECTED | RISK_ACTION_REJECTED | RISK_CHECK_INIT
    | RISK_CHECK_SELFMATCH | RISK_CHECK_CANCELLIMIT

  datatype Side = OPEN_LONG | CLOSE_TD_LONG | CLOSE_YD_LONG | OPEN_SHORT | CLOSE_TD_SHORT | CLOSE_YD_SHORT | OTHER_SIDE

  datatype Direction = BUY | SELL | OTHER_DIRECTION

  datatype RiskStatus = PREPARE_CHECKED | CHECKED_PASS | CHECKED_NOPASS | NOCHECKED | CHECK_INIT

  datatype Report = Report(account: string, ticker: string, orderRef: string, token: int, status: OrderStatus,
                           limitOrder: bool, side: Side, sendPrice: real)

  datatype Order = Order(account: string, ticker: string, token: int, direction: Direction, price: real, volume: int,
                         riskStatus: RiskStatus, errorId: int)

  datatype Action = Action(account: string, orderRef: string, riskStatus: RiskStatus, errorId: int)

  datatype LockedSide = UNLOCK | LOCK_BUY | LOCK_SELL | LOCK_ACCOUNT

  datatype Lock = Lock(side: LockedSide, ticker: string)

  datatype Limits = Limits(flowLimit: int, tickerCancelLimit: int, orderCancelLimit: int)

  /** What a risk command may change; fixed during a run. */
  datatype Settings = Settings(limits: Limits, locks: map<string, Lock>)

  /** The books, by concern. A missing entry reads as zero or empty, as the maps' index operator makes it. */
  datatype Pending = Pending(orders: map<string, Report>, byTicker: map<string, seq<Report>>,
                             orderCancels: map<string, int>, tickerCancels: map<string, int>)
  datatype Flow = Flow(count: map<string, int>, start: map<string, int>)
  datatype Ledger = Ledger(funds: map<string, real>, positions: map<string, int>, reservedBuy: map<string, real>,
                           reservedSell: map<string, int>, reservations: map<string, (real, int)>)
  datatype Books = Books(pending: Pending, flow: Flow, ledger: Ledger)

  const EMPTY_BOOKS: Books :=
      Books(Pending(map[], map[], map[], map[]), Flow(map[], map[]), Ledger(map[], map[], map[], map[], map[]))

  datatype Event =
    | OrderEvent(order: Order, now: int)
    | ActionEvent(action: Action, now: int)
    | ReportEvent(report: Report)
    | FundEvent(account: string, available: real)
    | PositionEvent(holder: string, ticker: string, sellable: int)
    | LoginEvent
    | LogEvent(text: string)
    | UnknownEvent

  /** What goes to the response queue. */
  datatype Output =
    | OrderReply(order: Order) | ActionReply(action: Action) | RiskEvent(account: string)
    | CancelCount(key: string, count: int)

  const FLOW_LIMITED: int := 1
  const SELF_MATCHED: int := 2
  const ACCOUNT_LOCKED: int := 3
  const TICKER_ACTION_LIMITED: int := 6
  const ORDER_ACTION_LIMITED: int := 7
  const CASH_SHORT: int := 0x2001
  const POSITION_SHORT: int := 0x2002
  const DUPLICATE_TOKEN: int := 0x2003

  function At<V>(m: map<string, V>, k: string, default: V): V {
    if k in m then m[k] else default
  }

  function PairKey(account: string, ticker: string): string { account + ":" + ticker }

  const TWO_64: int := 0x1_0000_0000_0000_0000

  predicate Int32(n: int) { INT_MIN <= n <= INT_MAX }

  /** A 32-bit token, widened to an unsigned 64-bit number and printed. */
  function TokenKey(account: string, token: int): string
    requires Int32(token)
  {
    account + ":" + Decimal(if token < 0 then token + TWO_64 else token)
  }

  // ---------------------------------------------------------------- flow

  /** One more request of the account at `now`, and whether it is within the limit of its window. */
  function FlowStep(f: Flow, account: string, now: int, limit: int): (Flow, bool) {
    var reopened := At(f.start, account, 0) == 0 || now - At(f.start, account, 0) > 1000;
    var flow := (if reopened then 0 else At(f.count, account, 0)) + 1;
    (Flow(f.count[account := flow], if reopened then f.start[account := now] else f.start), flow <= limit)
  }

  // ---------------------------------------------------------------- locks and self matching

  predicate OccursAt(text: string, part: string, i: int) {
    0 <= i <= |text| - |part| && text[i..i + |part|] == part
  }

  predicate Contains(text: string, part: string) {
    exists i | 0 <= i <= |text| :: OccursAt(text, part, i)
  }

  predicate Locked(locks: map<string, Lock>, o: Order) {
    o.account in locks &&
    var lock := locks[o.account];
    || lock.side == LOCK_ACCOUNT
    || (((lock.side == LOCK_BUY && o.direction == BUY) || (lock.side == LOCK_SELL && o.direction == SELL))
        && (lock.ticker == "" || Contains(lock.ticker, o.ticker)))
  }

  /** The resting order could trade against the new one. */
  predicate Crosses(o: Order, resting: Report) {
    match o.direction
    case BUY => resting.side in {CLOSE_YD_LONG, CLOSE_TD_LONG, OPEN_SHORT} && o.price >= resting.sendPrice
    case SELL => resting.side in {OPEN_LONG, CLOSE_YD_SHORT, CLOSE_TD_SHORT} && o.price <= resting.sendPrice
    case OTHER_DIRECTION => false
  }

  predicate SelfMatches(p: Pending, o: Order) {
    exists r | r in At(p.byTicker, o.ticker, []) :: Crosses(o, r)
  }

  // ---------------------------------------------------------------- cancel limits

  /** A cancel request for an order: the books after it, and the error, 0 for none. */
  function CancelStep(p: Pending, limits: Limits, orderRef: string): (Pending, int) {
    if orderRef !in p.orders then (p, 0)
    else if At(p.tickerCancels, PairKey(p.orders[orderRef].account, p.orders[orderRef].ticker), 0)
        + 1 > limits.tickerCancelLimit
    then (p, TICKER_ACTION_LIMITED)
    else
      var count := At(p.orderCancels, orderRef, 0) + 1;
      (p.(orderCancels := p.orderCancels[orderRef := count]),
       if count > limits.orderCancelLimit then ORDER_ACTION_LIMITED else 0)
  }

  // ---------------------------------------------------------------- capacity

  const CASH_TOLERANCE: real := 0.00000001

  function Notional(o: Order): real { o.price * (o.volume as real) }

  function BuyAmount(o: Order): real { if o.direction == BUY then Notional(o) else 0.0 }

  function SellVolume(o: Order): int { if o.direction == SELL then o.volume else 0 }

  /** The capacity check: 0, or the error that refuses the order. */
  function CapacityError(l: Ledger, o: Order): int
    requires Int32(o.token)
  {
    if o.token != 0 && TokenKey(o.account, o.token) in l.reservations then DUPLICATE_TOKEN
    else if o.direction == BUY
         && (o.account !in l.funds
             || l.funds[o.account] + CASH_TOLERANCE < Notional(o) + At(l.reservedBuy, o.account, 0.0))
    then CASH_SHORT
    else if o.direction == SELL
         && (PairKey(o.account, o.ticker) !in l.positions
             || l.positions[PairKey(o.account, o.ticker)]
                < o.volume + At(l.reservedSell, PairKey(o.account, o.ticker), 0))
    then POSITION_SHORT
    else 0
  }

  /** The reservation an admitted order leaves behind; none without a token. */
  function Reserve(l: Ledger, o: Order): Ledger
    requires Int32(o.token)
  {
    if o.token == 0 then l
    else
      var pair := PairKey(o.account, o.ticker);
      var bought := l.(reservations := l.reservations[TokenKey(o.account, o.token) := (BuyAmount(o), SellVolume(o))],
                       reservedBuy := l.reservedBuy[o.account := At(l.reservedBuy, o.account, 0.0) + BuyAmount(o)]);
      if SellVolume(o) > 0
      then bought.(reservedSell := l.reservedSell[pair := At(l.reservedSell, pair, 0) + SellVolume(o)])
      else bought
  }

  predicate Terminal(s: OrderStatus) {
    s in {ALLTRADED, PARTTRADED_CANCELLED, CANCELLED, BROKER_ERROR, EXCHANGE_ERROR}
  }

  /** A terminal report gives its order's reservation back. */
  function Release(l: Ledger, r: Report): Ledger
    requires Int32(r.token)
  {
    if !Terminal(r.status) || r.token == 0 || TokenKey(r.account, r.token) !in l.reservations then l
    else
      var key, pair := TokenKey(r.account, r.token), PairKey(r.account, r.ticker);
      var (amount, volume) := l.reservations[key];
      var bought, sold := At(l.reservedBuy, r.account, 0.0), At(l.reservedSell, pair, 0);
      var l1 := if amount > 0.0
                then l.(reservedBuy := l.reservedBuy[r.account := MaxReal(0.0, bought - amount)]) else l;
      var l2 := if volume > 0
                then l1.(reservedSell := l1.reservedSell[pair := Max(0, sold - volume)]) else l1;
      l2.(reservations := l2.reservations - {key})
  }

  // ---------------------------------------------------------------- reports

  predicate Live(s: OrderStatus) { s in {PARTTRADED, EXCHANGE_ACK, ORDER_SENDED} }

  function WithoutRef(list: seq<Report>, orderRef: string): (r: seq<Report>)
    ensures forall x :: x in r <==> x in list && x.orderRef != orderRef
  {
    if list == [] then []
    else if list[|list| - 1].orderRef == orderRef then WithoutRef(list[..|list| - 1], orderRef)
    else WithoutRef(list[..|list| - 1], orderRef) + [list[|list| - 1]]
  }

  /** The pending orders after a report: every status outside the three live ones ends the order. */
  function TrackOrder(p: Pending, r: Report): Pending {
    if Live(r.status) then
      if r.orderRef in p.orders then p
      else p.(orders := p.orders[r.orderRef := r],
              byTicker := p.byTicker[r.ticker := At(p.byTicker, r.ticker, []) + [r]])
    else p.(orders := p.orders - {r.orderRef},
            byTicker := p.byTicker[r.ticker := WithoutRef(At(p.byTicker, r.ticker, []), r.orderRef)],
            orderCancels := p.orderCancels - {r.orderRef})
  }

  predicate CountsAsCancelled(r: Report) {
    !Live(r.status) && r.limitOrder && r.status in {PARTTRADED_CANCELLED, CANCELLED, EXCHANGE_ERROR}
  }

  function CountCancelled(p: Pending, r: Report): (Pending, seq<Output>) {
    if CountsAsCancelled(r) then
      var key := PairKey(r.account, r.ticker);
      var count := At(p.tickerCancels, key, 0) + 1;
      (p.(tickerCancels := p.tickerCancels[key := count]), [CancelCount(key, count)])
    else (p, [])
  }

  function ReportStep(b: Books, r: Report): (Books, seq<Output>)
    requires Int32(r.token)
  {
    var (p, out) := CountCancelled(TrackOrder(b.pending, r), r);
    (Books(p, b.flow, Release(b.ledger, r)), out)
  }

  // ---------------------------------------------------------------- requests

  function OrderError(b: Books, s: Settings, o: Order, withinFlow: bool): int
    requires Int32(o.token)
  {
    if !withinFlow then FLOW_LIMITED
    else if Locked(s.locks, o) then ACCOUNT_LOCKED
    else if SelfMatches(b.pending, o) then SELF_MATCHED
    else CapacityError(b.ledger, o)
  }

  function OrderStep(b: Books, s: Settings, o: Order, now: int): (Books, seq<Output>)
    requires Int32(o.token)
  {
    if o.riskStatus == CHECK_INIT then (b, [OrderReply(o.(errorId := -1))])
    else if o.riskStatus != PREPARE_CHECKED then (b, [])
    else
      var (flow, within) := FlowStep(b.flow, o.account, now, s.limits.flowLimit);
      var error := OrderError(b, s, o, within);
      if error == 0 then
        (Books(b.pending, flow, Reserve(b.ledger, o)), [OrderReply(o.(riskStatus := CHECKED_PASS))])
      else
        (Books(b.pending, flow, b.ledger),
         [RiskEvent(o.account), OrderReply(o.(riskStatus := CHECKED_NOPASS, errorId := error))])
  }

  function ActionStep(b: Books, s: Settings, a: Action, now: int): (Books, seq<Output>) {
    if a.riskStatus != PREPARE_CHECKED then (b, [])
    else
      var (flow, within) := FlowStep(b.flow, a.account, now, s.limits.flowLimit);
      var (pending, error) := if within then CancelStep(b.pending, s.limits, a.orderRef) else (b.pending, FLOW_LIMITED);
      (Books(pending, flow, b.ledger),
       if error == 0 then [ActionReply(a.(riskStatus := CHECKED_PASS))]
       else [RiskEvent(a.account), ActionReply(a.(riskStatus := CHECKED_NOPASS, errorId := error))])
  }

  predicate Wide(e: Event) {
    (e.OrderEvent? ==> Int32(e.order.token)) && (e.ReportEvent? ==> Int32(e.report.token))
  }

  function Step(b: Books, s: Settings, e: Event): (Books, seq<Output>)
    requires Wide(e)
  {
    match e
    case OrderEvent(o, now) => OrderStep(b, s, o, now)
    case ActionEvent(a, now) => ActionStep(b, s, a, now)
    case ReportEvent(r) => ReportStep(b, r)
    case FundEvent(account, available) => (b.(ledger := b.ledger.(funds := b.ledger.funds[account := available])), [])
    case PositionEvent(account, ticker, sellable) =>
      (b.(ledger := b.ledger.(positions := b.ledger.positions[PairKey(account, ticker) := sellable])), [])
    case LoginEvent => (b, [])
    case LogEvent(_) => (b, [])
    case UnknownEvent => (b, [])
  }

  predicate AllWide(events: seq<Event>) {
    forall i | 0 <= i < |events| :: Wide(events[i])
  }

  /** The books after a run. */
  function Run(s: Settings, events: seq<Event>): Books
    requires AllWide(events)
  {
    if events == [] then EMPTY_BOOKS
    else Step(Run(s, events[..|events| - 1]), s, events[|events| - 1]).0
  }

  lemma {:induction false} RunSnoc(s: Settings, front: seq<Event>, e: Event)
    requires AllWide(front) && Wide(e)
    ensures AllWide(front + [e]) && Run(s, front + [e]) == Step(Run(s, front), s, e).0
  {
    hide Step;
    assert (front + [e])[..|front|] == front;
  }

  /** The order asked for at this point is admitted. */
  predicate Admitted(b: Books, s: Settings, e: Event)
    requires Wide(e)
  {
    e.OrderEvent? && e.order.riskStatus == PREPARE_CHECKED
    && OrderError(b, s, e.order, FlowStep(b.flow, e.order.account, e.now, s.limits.flowLimit).1) == 0
  }
}
