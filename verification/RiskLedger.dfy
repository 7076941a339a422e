/** The reservation ledger: reserved amounts are the sums over the live reservations, and stay covered. */
module RiskLedger {
  import opened Numbers
  import opened Text
  import opened RiskModel

  // ---------------------------------------------------------------- sums over a map

  ghost function Sum(m: map<string, real>): real
    decreases |m|
  {
    if m == map[] then 0.0
    else var k :| k in m; m[k] + Sum(m - {k})
  }

  lemma {:induction false} SumInsert(m: map<string, real>, k: string, v: real)
    requires k !in m
    ensures Sum(m[k := v]) == Sum(m) + v
    decreases |m|
  {
    var n := m[k := v];
    var j :| j in n && Sum(n) == n[j] + Sum(n - {j});
    if j == k {
      assert n - {k} == m;
    } else {
      var rest := m - {j};
      assert n - {j} == rest[k := v];
      assert m == rest[j := m[j]];
      assert |rest| < |m| by { assert m.Keys == rest.Keys + {j}; }
      SumInsert(rest, k, v);
      SumInsert(rest, j, m[j]);
    }
  }

  lemma SumRemove(m: map<string, real>, k: string)
    requires k in m
    ensures Sum(m) == Sum(m - {k}) + m[k]
  {
    SumInsert(m - {k}, k, m[k]);
    assert (m - {k})[k := m[k]] == m;
  }

  lemma {:induction false} SumNonNegative(m: map<string, real>)
    requires forall k :: k in m ==> m[k] >= 0.0
    ensures Sum(m) >= 0.0
    decreases |m|
  {
    if m != map[] {
      var k :| k in m && Sum(m) == m[k] + Sum(m - {k});
      assert |m - {k}| < |m| by { assert m.Keys == (m - {k}).Keys + {k}; }
      SumNonNegative(m - {k});
    }
  }

  // ---------------------------------------------------------------- what is live

  /** An admitted order that has not ended: whose it is and what it holds. */
  datatype Hold = Hold(account: string, pair: string, amount: real, volume: int)

  type Holds = map<string, Hold>

  ghost function Amounts(h: Holds, account: string): map<string, real> {
    map k | k in h && h[k].account == account :: h[k].amount
  }

  ghost function Volumes(h: Holds, pair: string): map<string, real> {
    map k | k in h && h[k].pair == pair :: h[k].volume as real
  }

  /** The amount an account's live orders hold. */
  ghost function Exposure(h: Holds, account: string): real { Sum(Amounts(h, account)) }

  /** The volume of one account's ticker its live sells hold. */
  ghost function Committed(h: Holds, pair: string): real { Sum(Volumes(h, pair)) }

  function HoldOf(o: Order): Hold { Hold(o.account, PairKey(o.account, o.ticker), BuyAmount(o), SellVolume(o)) }

  /** The live orders after an event, given the books before it. */
  function HoldsStep(b: Books, s: Settings, h: Holds, e: Event): Holds
    requires Wide(e)
  {
    if Admitted(b, s, e) && e.order.token != 0 then h[TokenKey(e.order.account, e.order.token) := HoldOf(e.order)]
    else if e.ReportEvent? && Terminal(e.report.status) && e.report.token != 0
    then h - {TokenKey(e.report.account, e.report.token)}
    else h
  }

  function LiveHolds(s: Settings, events: seq<Event>): Holds
    requires AllWide(events)
  {
    if events == [] then map[]
    else
      var front := events[..|events| - 1];
      HoldsStep(Run(s, front), s, LiveHolds(s, front), events[|events| - 1])
  }

  lemma LastColon(a: string, x: string, b: string, y: string)
    requires a + ":" + x == b + ":" + y && AllDigits(x) && AllDigits(y)
    ensures a == b && x == y
  {
    var s := a + ":" + x;
    assert s[|a|] == ':' && s[|b|] == ':';
    forall i | |a| < i < |s| ensures s[i] != ':' { assert s[i] == x[i - |a| - 1]; }
    forall i | |b| < i < |s| ensures s[i] != ':' { assert s[i] == y[i - |b| - 1]; }
    assert a == s[..|a|] && b == s[..|b|] && x == s[|a| + 1..] && y == s[|b| + 1..];
  }

  lemma TokenKeyInjective(a: string, t: int, b: string, u: int)
    requires Int32(t) && Int32(u) && TokenKey(a, t) == TokenKey(b, u)
    ensures a == b && t == u
  {
    var x: nat := if t < 0 then t + TWO_64 else t;
    var y: nat := if u < 0 then u + TWO_64 else u;
    LastColon(a, Decimal(x), b, Decimal(y));
    DecimalInjective(x, y);
  }

  // ---------------------------------------------------------------- the ledger law

  predicate KeyFits(key: string, account: string) {
    exists t | INT_MIN <= t <= INT_MAX :: key == TokenKey(account, t)
  }

  ghost predicate SameReservations(l: Ledger, h: Holds) {
    && l.reservations.Keys == h.Keys
    && (forall k :: k in h ==> l.reservations[k] == (h[k].amount, h[k].volume))
    && (forall k :: k in h ==> h[k].amount >= 0.0 && h[k].volume >= 0 && KeyFits(k, h[k].account))
  }

  ghost predicate SameTotals(l: Ledger, h: Holds) {
    && (forall a :: At(l.reservedBuy, a, 0.0) == Exposure(h, a))
    && (forall p :: At(l.reservedSell, p, 0) as real == Committed(h, p))
  }

  /** Reservations are the live orders', and the reserved totals are their sums. */
  ghost predicate Balanced(l: Ledger, h: Holds) {
    SameReservations(l, h) && SameTotals(l, h)
  }

  /** Adding an order changes its own account's and pair's sums by what it holds, and no other. */
  lemma HoldAdded(h: Holds, key: string, hold: Hold)
    requires key !in h
    ensures forall a :: Exposure(h[key := hold], a) == Exposure(h, a) + if a == hold.account then hold.amount else 0.0
    ensures forall p ::
        Committed(h[key := hold], p) == Committed(h, p) + if p == hold.pair then hold.volume as real else 0.0
  {
    var h' := h[key := hold];
    forall a ensures Exposure(h', a) == Exposure(h, a) + if a == hold.account then hold.amount else 0.0 {
      if a == hold.account {
        SumInsert(Amounts(h, a), key, hold.amount);
        assert Amounts(h', a) == Amounts(h, a)[key := hold.amount];
      } else {
        assert Amounts(h', a) == Amounts(h, a);
      }
    }
    forall p ensures Committed(h', p) == Committed(h, p) + if p == hold.pair then hold.volume as real else 0.0 {
      if p == hold.pair {
        SumInsert(Volumes(h, p), key, hold.volume as real);
        assert Volumes(h', p) == Volumes(h, p)[key := hold.volume as real];
      } else {
        assert Volumes(h', p) == Volumes(h, p);
      }
    }
  }

  lemma HoldRemoved(h: Holds, key: string)
    requires key in h
    ensures forall a :: Exposure(h - {key}, a) == Exposure(h, a) - if a == h[key].account then h[key].amount else 0.0
    ensures forall p ::
        Committed(h - {key}, p) == Committed(h, p) - if p == h[key].pair then h[key].volume as real else 0.0
  {
    HoldAdded(h - {key}, key, h[key]);
    assert (h - {key})[key := h[key]] == h;
  }

  /** No single order holds more than the sum. */
  lemma HoldWithin(h: Holds, key: string)
    requires key in h && forall k :: k in h ==> h[k].amount >= 0.0 && h[k].volume >= 0
    ensures h[key].amount <= Exposure(h, h[key].account) && h[key].volume as real <= Committed(h, h[key].pair)
  {
    var a, v := Amounts(h, h[key].account), Volumes(h, h[key].pair);
    SumRemove(a, key);
    SumNonNegative(a - {key});
    SumRemove(v, key);
    SumNonNegative(v - {key});
  }

  predicate NonNegative(o: Order) { o.price >= 0.0 && o.volume >= 0 }

  lemma AmountsNonNegative(o: Order)
    requires NonNegative(o)
    ensures BuyAmount(o) >= 0.0 && SellVolume(o) >= 0
  {
  }

  lemma ReserveKeeps(l: Ledger, h: Holds, o: Order)
    requires Balanced(l, h) && Int32(o.token) && o.token != 0 && NonNegative(o) && CapacityError(l, o) == 0
    ensures Balanced(Reserve(l, o), h[TokenKey(o.account, o.token) := HoldOf(o)])
  {
    hide TokenKey, Exposure, Committed, PairKey, Notional, KeyFits;
    var key := TokenKey(o.account, o.token);
    AmountsNonNegative(o);
    OwnKey(o.account, o.token);
    HoldAdded(h, key, HoldOf(o));
    hide BuyAmount, SellVolume;
    var l', h' := Reserve(l, o), h[key := HoldOf(o)];
    forall a ensures At(l'.reservedBuy, a, 0.0) == Exposure(h', a) {
      assert At(l.reservedBuy, a, 0.0) == Exposure(h, a);
    }
    forall p ensures At(l'.reservedSell, p, 0) as real == Committed(h', p) {
      assert At(l.reservedSell, p, 0) as real == Committed(h, p);
    }
  }

  lemma OwnKey(account: string, token: int)
    requires Int32(token)
    ensures KeyFits(TokenKey(account, token), account)
  {
  }

  // ---------------------------------------------------------------- giving back

  /** A report that ends a live sell names the ticker the sell was for. */
  ghost predicate NamesItsTicker(h: Holds, r: Report)
    requires Int32(r.token)
  {
    var key := TokenKey(r.account, r.token);
    Terminal(r.status) && r.token != 0 && key in h && h[key].volume > 0 ==> PairKey(r.account, r.ticker) == h[key].pair
  }

  function HoldsReleased(h: Holds, r: Report): Holds
    requires Int32(r.token)
  {
    if Terminal(r.status) && r.token != 0 then h - {TokenKey(r.account, r.token)} else h
  }

  /** What a terminal report finds: the order's own account, and totals no smaller than what it held. */
  lemma Releasable(l: Ledger, h: Holds, r: Report)
    requires Balanced(l, h) && Int32(r.token) && TokenKey(r.account, r.token) in h
    ensures var held := h[TokenKey(r.account, r.token)];
      && held.account == r.account && l.reservations[TokenKey(r.account, r.token)] == (held.amount, held.volume)
      && held.amount <= At(l.reservedBuy, r.account, 0.0) && held.volume <= At(l.reservedSell, held.pair, 0)
  {
    var key := TokenKey(r.account, r.token);
    assert KeyFits(key, h[key].account);
    var t :| INT_MIN <= t <= INT_MAX && key == TokenKey(h[key].account, t);
    TokenKeyInjective(r.account, r.token, h[key].account, t);
    hide TokenKey, Exposure, Committed;
    HoldWithin(h, key);
  }

  /** The clamp to zero never changes a value: a live order's holdings are part of the totals. */
  lemma ClampsAreIdle(l: Ledger, h: Holds, r: Report)
    requires Balanced(l, h) && Int32(r.token) && TokenKey(r.account, r.token) in l.reservations && NamesItsTicker(h, r)
    requires Terminal(r.status) && r.token != 0
    ensures var (amount, volume) := l.reservations[TokenKey(r.account, r.token)];
      && MaxReal(0.0, At(l.reservedBuy, r.account, 0.0) - amount) == At(l.reservedBuy, r.account, 0.0) - amount
      && (volume > 0 ==>
            var sold := At(l.reservedSell, PairKey(r.account, r.ticker), 0); Max(0, sold - volume) == sold - volume)
  {
    Releasable(l, h, r);
  }

  lemma ReleaseKeepsReservations(l: Ledger, h: Holds, r: Report)
    requires SameReservations(l, h) && Int32(r.token)
    ensures SameReservations(Release(l, r), HoldsReleased(h, r))
  {
    hide TokenKey, PairKey, KeyFits;
  }

  /** Giving back keeps the law if and only if the report of a live sell names the sell's own ticker. */
  lemma ReleaseKeepsIff(l: Ledger, h: Holds, r: Report)
    requires Balanced(l, h) && Int32(r.token)
    ensures Balanced(Release(l, r), HoldsReleased(h, r)) <==> NamesItsTicker(h, r)
  {
    hide Exposure, Committed, SameReservations, KeyFits;
    ReleaseKeepsReservations(l, h, r);
    var key, pair := TokenKey(r.account, r.token), PairKey(r.account, r.ticker);
    hide TokenKey, PairKey;
    assert l.reservations.Keys == h.Keys by { SameKeys(l, h); }
    if Terminal(r.status) && r.token != 0 && key in h {
      Releasable(l, h, r);
      HoldRemoved(h, key);
      var l', h' := Release(l, r), h - {key};
      var held := h[key];
      AmountNonNegative(l, h, key);
      forall a ensures At(l'.reservedBuy, a, 0.0) == Exposure(h', a) {
        assert At(l.reservedBuy, a, 0.0) == Exposure(h, a);
      }
      assert At(l.reservedSell, held.pair, 0) as real == Committed(h, held.pair);
      if held.volume > 0 && pair != held.pair {
        assert At(l'.reservedSell, held.pair, 0) as real != Committed(h', held.pair);
      } else {
        forall p ensures At(l'.reservedSell, p, 0) as real == Committed(h', p) {
          assert At(l.reservedSell, p, 0) as real == Committed(h, p);
        }
      }
    } else {
      assert HoldsReleased(h, r) == h;
    }
  }

  lemma SameKeys(l: Ledger, h: Holds)
    requires SameReservations(l, h)
    ensures l.reservations.Keys == h.Keys
  {
  }

  lemma AmountNonNegative(l: Ledger, h: Holds, key: string)
    requires SameReservations(l, h) && key in h
    ensures h[key].amount >= 0.0 && h[key].volume >= 0
  {
  }

  // ---------------------------------------------------------------- runs

  /** Orders carry no negative price or volume; a report that ends a live sell names its ticker. */
  ghost predicate Proper(s: Settings, front: seq<Event>, e: Event)
    requires AllWide(front) && Wide(e)
  {
    && (e.OrderEvent? ==> NonNegative(e.order))
    && (e.ReportEvent? ==> NamesItsTicker(LiveHolds(s, front), e.report))
  }

  ghost predicate ProperRun(s: Settings, events: seq<Event>)
    requires AllWide(events)
    decreases |events|
  {
    events == [] || (ProperRun(s, events[..|events| - 1]) && Proper(s, events[..|events| - 1], events[|events| - 1]))
  }

  lemma StepKeepsBalance(b: Books, s: Settings, h: Holds, e: Event)
    requires Wide(e) && Balanced(b.ledger, h)
    requires (e.OrderEvent? ==> NonNegative(e.order)) && (e.ReportEvent? ==> NamesItsTicker(h, e.report))
    ensures Balanced(Step(b, s, e).0.ledger, HoldsStep(b, s, h, e))
  {
    hide Exposure, Committed, TokenKey, PairKey, KeyFits;
    match e
    case OrderEvent(o, now) =>
      if Admitted(b, s, e) && o.token != 0 { ReserveKeeps(b.ledger, h, o); }
    case ReportEvent(r) => ReleaseKeepsIff(b.ledger, h, r);
    case _ =>
  }

  /** In every proper run each reserved total is the sum over the live reservations. */
  lemma {:induction false} EveryRunBalances(s: Settings, events: seq<Event>)
    requires AllWide(events) && ProperRun(s, events)
    ensures Balanced(Run(s, events).ledger, LiveHolds(s, events))
    decreases |events|
  {
    if events == [] {
      NothingHeld();
    } else {
      var front, e := events[..|events| - 1], events[|events| - 1];
      EveryRunBalances(s, front);
      StepKeepsBalance(Run(s, front), s, LiveHolds(s, front), e);
    }
  }

  lemma NothingHeld()
    ensures Balanced(EMPTY_BOOKS.ledger, map[])
  {
  }

  // ---------------------------------------------------------------- a run that strands volume

  function SellOrder(account: string, ticker: string, token: int, volume: int): Order {
    Order(account, ticker, token, SELL, 1.0, volume, PREPARE_CHECKED, 0)
  }

  /** A sell within the flow limit, the stock and no lock or resting order is admitted and reserved for. */
  lemma SellAdmitted(b: Books, s: Settings, o: Order, now: int)
    requires Int32(o.token) && o.direction == SELL && o.riskStatus == PREPARE_CHECKED
    requires o.account !in s.locks && At(b.pending.byTicker, o.ticker, []) == [] && CapacityError(b.ledger, o) == 0
    requires 0 <= At(b.flow.count, o.account, 0) < s.limits.flowLimit
    ensures var e := OrderEvent(o, now);
      && Admitted(b, s, e)
      && var b' := Step(b, s, e).0;
      && b'.pending == b.pending && b'.ledger == Reserve(b.ledger, o)
      && 1 <= At(b'.flow.count, o.account, 0) <= At(b.flow.count, o.account, 0) + 1
  {
    hide Reserve, CapacityError;
  }

  lemma LiveHoldsSnoc(s: Settings, front: seq<Event>, e: Event)
    requires AllWide(front) && Wide(e)
    ensures AllWide(front + [e])
    ensures LiveHolds(s, front + [e]) == HoldsStep(Run(s, front), s, LiveHolds(s, front), e)
  {
    hide HoldsStep, Run;
    assert (front + [e])[..|front|] == front;
  }

  lemma PairsDiffer(account: string, ticker: string, other: string)
    requires ticker != other
    ensures PairKey(account, ticker) != PairKey(account, other)
  {
    assert PairKey(account, ticker)[|account| + 1..] == ticker && PairKey(account, other)[|account| + 1..] == other;
  }

  /** The books after a sell of all the stock. */
  lemma OneSold(s: Settings, account: string, ticker: string, token: int, volume: int, now: int)
    requires s.limits.flowLimit >= 1 && account !in s.locks && Int32(token) && token != 0 && volume > 0
    ensures var p, k := PairKey(account, ticker), TokenKey(account, token);
      var sell := OrderEvent(SellOrder(account, ticker, token, volume), now);
      var events := [PositionEvent(account, ticker, volume)] + [sell];
      && AllWide(events)
      && var l := Run(s, events).ledger;
      && l.positions == map[p := volume] && l.reservedSell == map[p := volume]
      && l.reservations == map[k := (0.0, volume)]
  {
    hide PairKey, TokenKey, FlowStep;
    var stock, o := PositionEvent(account, ticker, volume), SellOrder(account, ticker, token, volume);
    RunSnoc(s, [], stock);
    assert [] + [stock] == [stock];
    SellAdmitted(Run(s, [stock]), s, o, now);
    RunSnoc(s, [stock], OrderEvent(o, now));
  }

  /** A sell that ends under another ticker: nothing is reserved any more, yet the volume stays taken,
      and the same sell is refused for want of stock. */
  lemma WrongTickerStrandsVolume(s: Settings, account: string, ticker: string, other: string, token: int, volume: int,
      now: int)
    requires s.limits.flowLimit >= 1 && account !in s.locks
    requires ticker != other && Int32(token) && token != 0 && volume > 0
    ensures var sold := SellOrder(account, ticker, token, volume);
      var ended := Report(account, other, "1", token, ALLTRADED, true, CLOSE_YD_LONG, 1.0);
      var events := [PositionEvent(account, ticker, volume)] + [OrderEvent(sold, now)] + [ReportEvent(ended)];
      && AllWide(events)
      && var l := Run(s, events).ledger;
      && l.reservations == map[] && At(l.reservedSell, PairKey(account, ticker), 0) == volume
      && CapacityError(l, sold) == POSITION_SHORT
  {
    OneSold(s, account, ticker, token, volume, now);
    PairsDiffer(account, ticker, other);
    hide PairKey, TokenKey, Run;
    var sold := SellOrder(account, ticker, token, volume);
    var ended := Report(account, other, "1", token, ALLTRADED, true, CLOSE_YD_LONG, 1.0);
    RunSnoc(s, [PositionEvent(account, ticker, volume)] + [OrderEvent(sold, now)], ReportEvent(ended));
    assert map[TokenKey(account, token) := (0.0, volume)] - {TokenKey(account, token)} == map[];
  }

  // ---------------------------------------------------------------- coverage

  ghost predicate CashCovered(l: Ledger, h: Holds, account: string) {
    account in l.funds && Exposure(h, account) <= l.funds[account] + CASH_TOLERANCE
  }

  ghost predicate StockCovered(l: Ledger, h: Holds, pair: string) {
    pair in l.positions && Committed(h, pair) <= l.positions[pair] as real
  }

  predicate IsFundOf(e: Event, account: string) { e.FundEvent? && e.account == account }

  predicate IsPositionOf(e: Event, pair: string) { e.PositionEvent? && PairKey(e.holder, e.ticker) == pair }

  lemma AdmittedIsCovered(l: Ledger, h: Holds, o: Order)
    requires Balanced(l, h) && Int32(o.token) && o.token != 0 && NonNegative(o) && CapacityError(l, o) == 0
    ensures var h' := h[TokenKey(o.account, o.token) := HoldOf(o)];
      && (forall a :: CashCovered(l, h, a) ==> CashCovered(l, h', a))
      && (forall p :: StockCovered(l, h, p) ==> StockCovered(l, h', p))
  {
    hide TokenKey, Exposure, Committed, PairKey, Notional, KeyFits;
    HoldAdded(h, TokenKey(o.account, o.token), HoldOf(o));
  }

  lemma ReleaseIsCovered(l: Ledger, h: Holds, key: string)
    requires SameReservations(l, h)
    ensures forall a :: CashCovered(l, h, a) ==> CashCovered(l, h - {key}, a)
    ensures forall p :: StockCovered(l, h, p) ==> StockCovered(l, h - {key}, p)
  {
    hide Exposure, Committed, KeyFits;
    if key in h { HoldRemoved(h, key); } else { assert h - {key} == h; }
  }

  lemma SnapshotsUntouched(b: Books, s: Settings, e: Event, account: string, pair: string)
    requires Wide(e)
    ensures !IsFundOf(e, account) ==> (account in Step(b, s, e).0.ledger.funds <==> account in b.ledger.funds)
    ensures !IsFundOf(e, account) && account in b.ledger.funds
        ==> Step(b, s, e).0.ledger.funds[account] == b.ledger.funds[account]
    ensures !IsPositionOf(e, pair) ==> (pair in Step(b, s, e).0.ledger.positions <==> pair in b.ledger.positions)
    ensures !IsPositionOf(e, pair) && pair in b.ledger.positions
        ==> Step(b, s, e).0.ledger.positions[pair] == b.ledger.positions[pair]
  {
  }

  /** Every step except a new snapshot keeps the live orders of an account within its cash, and the
      live sells of a ticker within what may be sold. */
  lemma StepKeepsCover(b: Books, s: Settings, h: Holds, e: Event, account: string, pair: string)
    requires Wide(e) && Balanced(b.ledger, h) && (e.OrderEvent? ==> NonNegative(e.order))
    ensures CashCovered(b.ledger, h, account) && !IsFundOf(e, account)
            ==> CashCovered(Step(b, s, e).0.ledger, HoldsStep(b, s, h, e), account)
    ensures StockCovered(b.ledger, h, pair) && !IsPositionOf(e, pair)
            ==> StockCovered(Step(b, s, e).0.ledger, HoldsStep(b, s, h, e), pair)
  {
    SnapshotsUntouched(b, s, e, account, pair);
    hide Exposure, Committed, TokenKey, PairKey, KeyFits, Step;
    if Admitted(b, s, e) && e.order.token != 0 {
      AdmittedIsCovered(b.ledger, h, e.order);
    } else if e.ReportEvent? && Terminal(e.report.status) && e.report.token != 0 {
      ReleaseIsCovered(b.ledger, h, TokenKey(e.report.account, e.report.token));
    }
  }

  ghost predicate NoSnapshot(events: seq<Event>, account: string, pair: string) {
    forall i :: 0 <= i < |events| ==> !IsFundOf(events[i], account) && !IsPositionOf(events[i], pair)
  }

  /** Between two snapshots of an account and its ticker, what was covered stays covered, in cash and in stock. */
  lemma {:induction false} CoverLastsBetweenSnapshots(s: Settings, before: seq<Event>, during: seq<Event>,
      account: string, pair: string)
    requires AllWide(before + during) && ProperRun(s, before + during) && NoSnapshot(during, account, pair)
    requires AllWide(before)
    ensures CashCovered(Run(s, before).ledger, LiveHolds(s, before), account)
            ==> CashCovered(Run(s, before + during).ledger, LiveHolds(s, before + during), account)
    ensures StockCovered(Run(s, before).ledger, LiveHolds(s, before), pair)
            ==> StockCovered(Run(s, before + during).ledger, LiveHolds(s, before + during), pair)
    decreases |during|
  {
    if during == [] {
      assert before + during == before;
    } else {
      var all, front := before + during, during[..|during| - 1];
      assert all[..|all| - 1] == before + front && all[|all| - 1] == during[|during| - 1];
      CoverLastsBetweenSnapshots(s, before, front, account, pair);
      EveryRunBalances(s, before + front);
      hide CashCovered, StockCovered, Balanced, IsFundOf, IsPositionOf;
      StepKeepsCover(Run(s, before + front), s, LiveHolds(s, before + front), during[|during| - 1], account, pair);
    }
  }

  // ---------------------------------------------------------------- a run that loses its cover

  /** Two sells of two tickers, the second ended under the first one's ticker. */
  function MisreportedRun(account: string, ticker: string, other: string, first: int, second: int, volume: int,
      now: int): seq<Event>
  {
    [PositionEvent(account, ticker, volume), PositionEvent(account, other, volume)]
    + [OrderEvent(SellOrder(account, ticker, first, volume), now)]
    + [OrderEvent(SellOrder(account, other, second, volume), now)]
    + [ReportEvent(Report(account, ticker, "1", second, ALLTRADED, true, CLOSE_YD_LONG, 1.0))]
  }

  /** The books after both sells are admitted. */
  lemma BothSold(s: Settings, account: string, ticker: string, other: string, first: int, second: int, volume: int,
      now: int)
    requires s.limits.flowLimit >= 3 && account !in s.locks && ticker != other && volume > 0
    requires Int32(first) && Int32(second) && first != 0 && second != 0 && first != second
    ensures var events := MisreportedRun(account, ticker, other, first, second, volume, now)[..4];
      var p, q := PairKey(account, ticker), PairKey(account, other);
      var k, m := TokenKey(account, first), TokenKey(account, second);
      && AllWide(events)
      && var b := Run(s, events);
      && b.pending == EMPTY_BOOKS.pending && 0 <= At(b.flow.count, account, 0) <= 2
      && b.ledger.positions == map[p := volume, q := volume]
      && b.ledger.reservedSell == map[p := volume, q := volume]
      && b.ledger.reservations == map[k := (0.0, volume), m := (0.0, volume)]
      && LiveHolds(s, events) == map[k := Hold(account, p, 0.0, volume), m := Hold(account, q, 0.0, volume)]
  {
    PairsDiffer(account, ticker, other);
    if TokenKey(account, first) == TokenKey(account, second) { TokenKeyInjective(account, first, account, second); }
    hide PairKey, TokenKey;
    var a, b := SellOrder(account, ticker, first, volume), SellOrder(account, other, second, volume);
    var e0, e1 := PositionEvent(account, ticker, volume), PositionEvent(account, other, volume);
    var e2, e3 := OrderEvent(a, now), OrderEvent(b, now);
    var f := [e0] + [e1];
    RunSnoc(s, [], e0);
    RunSnoc(s, [e0], e1);
    LiveHoldsSnoc(s, [], e0);
    LiveHoldsSnoc(s, [e0], e1);
    assert [] + [e0] == [e0];
    SellAdmitted(Run(s, f), s, a, now);
    RunSnoc(s, f, e2);
    LiveHoldsSnoc(s, f, e2);
    SellAdmitted(Run(s, f + [e2]), s, b, now);
    RunSnoc(s, f + [e2], e3);
    LiveHoldsSnoc(s, f + [e2], e3);
    assert MisreportedRun(account, ticker, other, first, second, volume, now)[..4] == f + [e2] + [e3];
    hide Run, Step, LiveHolds, FlowStep;
  }

  /** The report gives back the first ticker's volume, whose sell is still live. */
  lemma Misreported(s: Settings, account: string, ticker: string, other: string, first: int, second: int, volume: int,
      now: int)
    requires s.limits.flowLimit >= 3 && account !in s.locks && ticker != other && volume > 0
    requires Int32(first) && Int32(second) && first != 0 && second != 0 && first != second
    ensures var events := MisreportedRun(account, ticker, other, first, second, volume, now);
      var p, k := PairKey(account, ticker), TokenKey(account, first);
      && AllWide(events)
      && var b := Run(s, events);
      && At(b.pending.byTicker, ticker, []) == [] && 0 <= At(b.flow.count, account, 0) <= 2
      && p in b.ledger.positions && b.ledger.positions[p] == volume && At(b.ledger.reservedSell, p, 0) == 0
      && b.ledger.reservations == map[k := (0.0, volume)]
      && LiveHolds(s, events) == map[k := Hold(account, p, 0.0, volume)]
  {
    BothSold(s, account, ticker, other, first, second, volume, now);
    if TokenKey(account, first) == TokenKey(account, second) { TokenKeyInjective(account, first, account, second); }
    hide PairKey, TokenKey, FlowStep, Reserve;
    var events := MisreportedRun(account, ticker, other, first, second, volume, now);
    var front, end := events[..4], events[4];
    assert events == front + [end];
    hide MisreportedRun, Run, LiveHolds;
    RunSnoc(s, front, end);
    LiveHoldsSnoc(s, front, end);
    var k, m := TokenKey(account, first), TokenKey(account, second);
    assert map[k := (0.0, volume), m := (0.0, volume)] - {m} == map[k := (0.0, volume)];
    var p, q := PairKey(account, ticker), PairKey(account, other);
    assert map[k := Hold(account, p, 0.0, volume), m := Hold(account, q, 0.0, volume)] - {m}
        == map[k := Hold(account, p, 0.0, volume)];
  }

  /** With its reservation gone the ticker's stock looks free. */
  lemma LooksFree(l: Ledger, account: string, ticker: string, token: int, volume: int)
    requires Int32(token) && TokenKey(account, token) !in l.reservations
    requires var p := PairKey(account, ticker);
      p in l.positions && l.positions[p] == volume && At(l.reservedSell, p, 0) == 0
    ensures var o := SellOrder(account, ticker, token, volume);
      CapacityError(l, o) == 0 && Reserve(l, o).positions == l.positions
  {
    hide PairKey, TokenKey;
  }

  /** Two live sells of all the stock. */
  lemma TwiceCommitted(k: string, m: string, account: string, pair: string, volume: int)
    requires k != m && volume > 0
    ensures var hold := Hold(account, pair, 0.0, volume);
      && Committed(map[k := hold], pair) == volume as real
      && Committed(map[k := hold][m := hold], pair) == volume as real + volume as real
  {
    hide Committed, Exposure;
    var hold := Hold(account, pair, 0.0, volume);
    NothingCommitted(pair);
    HoldAdded(map[], k, hold);
    HoldAdded(map[k := hold], m, hold);
  }

  /** A sell that ends under another ticker frees that ticker's stock: the next sell is admitted on top of
      one that is still live, and the two together exceed what may be sold. */
  lemma WrongTickerOversells(s: Settings, account: string, ticker: string, other: string,
      first: int, second: int, third: int, volume: int, now: int)
    requires s.limits.flowLimit >= 3 && account !in s.locks && ticker != other && volume > 0
    requires Int32(first) && Int32(second) && Int32(third) && first != 0 && second != 0 && third != 0
    requires first != second && first != third
    ensures var front := MisreportedRun(account, ticker, other, first, second, volume, now);
      var e := OrderEvent(SellOrder(account, ticker, third, volume), now);
      var pair := PairKey(account, ticker);
      && AllWide(front + [e]) && AllWide(front) && Admitted(Run(s, front), s, e)
      && NoSnapshot([e], account, pair)
      && StockCovered(Run(s, front).ledger, LiveHolds(s, front), pair)
      && !StockCovered(Run(s, front + [e]).ledger, LiveHolds(s, front + [e]), pair)
  {
    hide MisreportedRun, PairKey, TokenKey, Run, LiveHolds, Step, Admitted, Reserve, CapacityError, Committed;
    Misreported(s, account, ticker, other, first, second, volume, now);
    var front := MisreportedRun(account, ticker, other, first, second, volume, now);
    var o := SellOrder(account, ticker, third, volume);
    var e := OrderEvent(o, now);
    var p, k := PairKey(account, ticker), TokenKey(account, first);
    if k == TokenKey(account, third) { TokenKeyInjective(account, first, account, third); }
    LooksFree(Run(s, front).ledger, account, ticker, third, volume);
    SellAdmitted(Run(s, front), s, o, now);
    RunSnoc(s, front, e);
    LiveHoldsSnoc(s, front, e);
    TwiceCommitted(k, TokenKey(account, third), account, p, volume);
  }

  lemma NothingCommitted(pair: string)
    ensures Committed(map[], pair) == 0.0
  {
  }
}
