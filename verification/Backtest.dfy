/** Backtest accounting: a cash and position loop driven by any sequence of signals. */
module Backtest {
  import opened Numbers
  import opened Wrappers

  datatype Config = Config(interval: int, fastWindow: int, slowWindow: int, capital: real, lotSize: int,
                           commissionRate: real, stampDutyRate: real, slippageBps: real)

  datatype Bar = Bar(open: real, close: real)

  datatype Side = BUY | SELL

  datatype Trade = Trade(bar: nat, side: Side, price: real, volume: int, turnover: real, commission: real,
                         realizedPnl: real)

  datatype Account = Account(cash: real, position: int, entryPrice: real, turnover: real, cost: real,
                             trades: seq<Trade>)

  /** Between two bars: the account, the order waiting for the next open, and the equity at each close. */
  datatype State = State(account: Account, pending: Option<Side>, equity: seq<real>)

  datatype Failure = InvalidWindows | NegativeParameter | DivisionByZero

  datatype Report = Report(trades: seq<Trade>, equity: seq<real>, finalEquity: real, pnl: real, returnRate: real,
                           maxDrawdown: real, winRate: real, turnoverRate: real, totalCost: real)

  function Times(x: real, n: int): real { x * (n as real) }

  /** Truncation toward zero. */
  function Trunc(x: real): int { if x >= 0.0 then x.Floor else -((-x).Floor) }

  function FillPrice(c: Config, open: real, side: Side): real {
    open * (1.0 + (if side == BUY then c.slippageBps / 10000.0 else -c.slippageBps / 10000.0))
  }

  /** Whole lots the cash pays for, commission not counted. */
  function LotsFor(c: Config, cash: real, price: real): int
    requires Times(price, c.lotSize) != 0.0
  {
    Trunc(cash / Times(price, c.lotSize)) * c.lotSize
  }

  /** What a trade of this turnover costs; sells pay stamp duty too. */
  function Commission(c: Config, side: Side, turnover: real): real {
    turnover * c.commissionRate + if side == SELL then turnover * c.stampDutyRate else 0.0
  }

  function Realized(price: real, entryPrice: real, volume: int, commission: real): real {
    Times(price - entryPrice, volume) - commission
  }

  function Buy(c: Config, a: Account, bar: nat, price: real, volume: int): Account {
    var turnover := Times(price, volume);
    var commission := Commission(c, BUY, turnover);
    Account(a.cash - (turnover + commission), a.position + volume, price, a.turnover + turnover, a.cost + commission,
            a.trades + [Trade(bar, BUY, price, volume, turnover, commission, 0.0)])
  }

  /** Sells the whole position. */
  function Sell(c: Config, a: Account, bar: nat, price: real): Account {
    var turnover := Times(price, a.position);
    var commission := Commission(c, SELL, turnover);
    Account(a.cash + (turnover - commission), 0, a.entryPrice, a.turnover + turnover, a.cost + commission,
            a.trades + [Trade(bar, SELL, price, a.position, turnover, commission,
                Realized(price, a.entryPrice, a.position, commission))])
  }

  /** The order waiting since the last bar, filled at this bar's open. */
  function Fill(c: Config, a: Account, bar: nat, open: real, side: Side): Result<Account, Failure> {
    var price := FillPrice(c, open, side);
    if side == BUY then
      if Times(price, c.lotSize) == 0.0 then Err(DivisionByZero)
      else
        var volume := LotsFor(c, a.cash, price);
        Ok(if volume != 0 then Buy(c, a, bar, price, volume) else a)
    else Ok(if a.position != 0 then Sell(c, a, bar, price) else a)
  }

  function Pending(signal: Option<Side>, position: int): Option<Side> {
    if signal == Some(BUY) && position == 0 then Some(BUY)
    else if signal == Some(SELL) && position > 0 then Some(SELL)
    else None
  }

  function StepBar(c: Config, s: State, index: nat, bar: Bar, signal: Option<Side>): Result<State, Failure> {
    match (if s.pending.Some? && index > 0 then Fill(c, s.account, index, bar.open, s.pending.value) else Ok(s.account))
    case Err(e) => Err(e)
    case Ok(a) => Ok(State(a, Pending(signal, a.position), s.equity + [a.cash + Times(bar.close, a.position)]))
  }

  function Start(c: Config): State {
    State(Account(c.capital, 0, 0.0, 0.0, 0.0, []), None, [])
  }

  /** The loop over the first `n` bars. */
  function Replay(c: Config, bars: seq<Bar>, signals: seq<Option<Side>>, n: nat): Result<State, Failure>
    requires n <= |bars| == |signals|
  {
    if n == 0 then Ok(Start(c))
    else match Replay(c, bars, signals, n - 1)
      case Err(e) => Err(e)
      case Ok(s) => StepBar(c, s, n - 1, bars[n - 1], signals[n - 1])
  }

  /** What is still held is sold at the last close. */
  function Liquidate(c: Config, a: Account, last: nat, close: real): Account {
    if a.position != 0 then Sell(c, a, last, FillPrice(c, close, SELL)) else a
  }

  /** The accounts after the whole run, liquidation included, with the equity at each bar. */
  function Settle(c: Config, bars: seq<Bar>, signals: seq<Option<Side>>): Result<State, Failure>
    requires 0 < |bars| == |signals|
  {
    match Replay(c, bars, signals, |bars|)
    case Err(e) => Err(e)
    case Ok(s) =>
      ReplayLength(c, bars, signals, |bars|);
      var a := Liquidate(c, s.account, |bars| - 1, bars[|bars| - 1].close);
      Ok(State(a, None, if s.account.position != 0 then s.equity[|bars| - 1 := a.cash] else s.equity))
  }

  lemma {:induction false} ReplayLength(c: Config, bars: seq<Bar>, signals: seq<Option<Side>>, n: nat)
    requires n <= |bars| == |signals|
    ensures Replay(c, bars, signals, n).Ok? ==> |Replay(c, bars, signals, n).value.equity| == n
  {
    if n > 0 {
      ReplayLength(c, bars, signals, n - 1);
      hide Fill;
    }
  }

  // ---------------------------------------------------------------- the books balance

  function SumTurnover(trades: seq<Trade>): real {
    if trades == [] then 0.0 else SumTurnover(trades[..|trades| - 1]) + trades[|trades| - 1].turnover
  }

  function SumCommission(trades: seq<Trade>): real {
    if trades == [] then 0.0 else SumCommission(trades[..|trades| - 1]) + trades[|trades| - 1].commission
  }

  /** Profits of the sells less commissions of the buys. */
  function NetGain(trades: seq<Trade>): real {
    if trades == [] then 0.0
    else
      var t := trades[|trades| - 1];
      NetGain(trades[..|trades| - 1]) + if t.side == SELL then t.realizedPnl else -t.commission
  }

  lemma SumsSnoc(trades: seq<Trade>, t: Trade)
    ensures SumTurnover(trades + [t]) == SumTurnover(trades) + t.turnover
    ensures SumCommission(trades + [t]) == SumCommission(trades) + t.commission
    ensures NetGain(trades + [t]) == NetGain(trades) + if t.side == SELL then t.realizedPnl else -t.commission
  {
    assert (trades + [t])[..|trades|] == trades;
  }

  predicate Paired(trades: seq<Trade>, i: nat)
    requires i < |trades|
  {
    trades[i].volume != 0
    && if i % 2 == 0 then trades[i].side == BUY else trades[i].side == SELL && trades[i].volume == trades[i - 1].volume
  }

  /** Buys at even places, sells at odd ones, each sell of what the buy before it bought. */
  ghost predicate Alternates(trades: seq<Trade>) {
    forall i: nat :: i < |trades| ==> Paired(trades, i)
  }

  lemma AlternatesSnoc(trades: seq<Trade>, t: Trade)
    requires Alternates(trades) && Paired(trades + [t], |trades|)
    ensures Alternates(trades + [t])
  {
    var all := trades + [t];
    forall i: nat | i < |all| ensures Paired(all, i) {
      if i < |trades| { assert Paired(trades, i); }
    }
  }

  ghost predicate Books(c: Config, a: Account) {
    && a.turnover == SumTurnover(a.trades) && a.cost == SumCommission(a.trades)
    && a.cash + Times(a.entryPrice, a.position) == c.capital + NetGain(a.trades)
  }

  /** An open position is the last trade's, a buy. */
  ghost predicate OpenIsLastBuy(a: Account) {
    if a.position == 0 then |a.trades| % 2 == 0
    else |a.trades| % 2 == 1 && a.trades[|a.trades| - 1].volume == a.position
  }

  ghost predicate Sound(c: Config, a: Account) {
    Books(c, a) && Alternates(a.trades) && OpenIsLastBuy(a)
  }

  lemma TimesZero(x: real)
    ensures Times(x, 0) == 0.0
  {
  }

  lemma RealizedIs(price: real, entryPrice: real, volume: int, commission: real)
    ensures Realized(price, entryPrice, volume, commission)
        == Times(price, volume) - Times(entryPrice, volume) - commission
  {
  }

  lemma BuyKeeps(c: Config, a: Account, bar: nat, price: real, volume: int)
    requires Sound(c, a) && a.position == 0 && volume != 0
    ensures Sound(c, Buy(c, a, bar, price, volume))
  {
    hide Times, Commission, SumTurnover, SumCommission, NetGain, Alternates;
    var turnover := Times(price, volume);
    var t := Trade(bar, BUY, price, volume, turnover, Commission(c, BUY, turnover), 0.0);
    SumsSnoc(a.trades, t);
    TimesZero(a.entryPrice);
    AlternatesSnoc(a.trades, t);
  }

  lemma SellKeeps(c: Config, a: Account, bar: nat, price: real)
    requires Sound(c, a) && a.position != 0
    ensures Sound(c, Sell(c, a, bar, price)) && Sell(c, a, bar, price).position == 0
  {
    LastIsBuy(a);
    hide Times, Commission, Realized, SumTurnover, SumCommission, NetGain, Alternates;
    var turnover := Times(price, a.position);
    var commission := Commission(c, SELL, turnover);
    var t := Trade(bar, SELL, price, a.position, turnover, commission,
        Realized(price, a.entryPrice, a.position, commission));
    SumsSnoc(a.trades, t);
    RealizedIs(price, a.entryPrice, a.position, commission);
    TimesZero(a.entryPrice);
    AlternatesSnoc(a.trades, t);
  }

  lemma LastIsBuy(a: Account)
    requires Alternates(a.trades) && OpenIsLastBuy(a) && a.position != 0
    ensures a.trades != [] && a.trades[|a.trades| - 1].volume == a.position && |a.trades| % 2 == 1
  {
  }

  lemma {:induction false} ReplayKeeps(c: Config, bars: seq<Bar>, signals: seq<Option<Side>>, n: nat)
    requires n <= |bars| == |signals|
    ensures var r := Replay(c, bars, signals, n);
      r.Ok? ==> Sound(c, r.value.account)
                && (r.value.pending == Some(BUY) ==> r.value.account.position == 0)
  {
    if n == 0 {
      assert Times(0.0, 0) == 0.0;
    } else {
      ReplayKeeps(c, bars, signals, n - 1);
      var r := Replay(c, bars, signals, n - 1);
      if r.Ok? {
        hide Sound, Buy, Sell, LotsFor, FillPrice, Times;
        var s, bar := r.value, bars[n - 1];
        var a := s.account;
        if s.pending == Some(BUY) && Times(FillPrice(c, bar.open, BUY), c.lotSize) != 0.0 {
          var price := FillPrice(c, bar.open, BUY);
          if LotsFor(c, a.cash, price) != 0 { BuyKeeps(c, a, n - 1, price, LotsFor(c, a.cash, price)); }
        }
        if s.pending == Some(SELL) && a.position != 0 { SellKeeps(c, a, n - 1, FillPrice(c, bar.open, SELL)); }
      }
    }
  }

  lemma LiquidateKeeps(c: Config, a: Account, last: nat, close: real)
    requires Sound(c, a)
    ensures Sound(c, Liquidate(c, a, last, close)) && Liquidate(c, a, last, close).position == 0
  {
    if a.position != 0 { SellKeeps(c, a, last, FillPrice(c, close, SELL)); }
    hide Sound, Sell;
  }

  /** For any signals: trades pair up, buy then sell of the same volume; the final cash is the capital
      plus the sells' profits less the buys' commissions; the totals are the trades'; nothing stays open. */
  lemma SettledBooks(c: Config, bars: seq<Bar>, signals: seq<Option<Side>>)
    requires 0 < |bars| == |signals| && Settle(c, bars, signals).Ok?
    ensures var a := Settle(c, bars, signals).value.account;
      && a.position == 0 && |a.trades| % 2 == 0 && Alternates(a.trades)
      && a.cash == c.capital + NetGain(a.trades)
      && a.turnover == SumTurnover(a.trades) && a.cost == SumCommission(a.trades)
  {
    ReplayKeeps(c, bars, signals, |bars|);
    var s := Replay(c, bars, signals, |bars|).value;
    LiquidateKeeps(c, s.account, |bars| - 1, bars[|bars| - 1].close);
    hide Replay, Liquidate;
    assert forall x: real :: Times(x, 0) == 0.0;
  }

  // ---------------------------------------------------------------- a buy's cost

  lemma TruncToward(cash: real, x: real)
    requires x != 0.0 && cash >= 0.0
    ensures 0.0 <= Times(x, Trunc(cash / x)) <= cash
  {
    var q := cash / x;
    assert q * x == cash;
    if x > 0.0 {
      assert q >= 0.0;
      Scale(x, q.Floor as real, q);
    } else {
      assert q <= 0.0;
      Scale(-x, (-q).Floor as real, -q);
      assert Times(x, -((-q).Floor)) == (-x) * ((-q).Floor as real);
    }
  }

  lemma Scale(x: real, f: real, q: real)
    requires x > 0.0 && 0.0 <= f <= q
    ensures 0.0 <= x * f <= x * q
  {
  }

  lemma Regroup(price: real, n: int, lots: int)
    ensures Times(price, n * lots) == Times(Times(price, lots), n)
  {
    assert (n * lots) as real == (n as real) * (lots as real);
  }

  /** A buy from cash that is not negative costs no more than the cash plus its commission. */
  lemma BuyLeaves(c: Config, a: Account, bar: nat, price: real)
    requires a.cash >= 0.0 && c.commissionRate >= 0.0 && Times(price, c.lotSize) != 0.0
    ensures Buy(c, a, bar, price, LotsFor(c, a.cash, price)).cash >= -c.commissionRate * a.cash
  {
    var lot := Times(price, c.lotSize);
    TruncToward(a.cash, lot);
    Regroup(price, Trunc(a.cash / lot), c.lotSize);
    var turnover := Times(price, LotsFor(c, a.cash, price));
    assert 0.0 <= turnover <= a.cash;
    CommissionWithin(c, turnover, a.cash);
    hide Times, LotsFor, Commission;
  }

  lemma CommissionWithin(c: Config, turnover: real, cash: real)
    requires 0.0 <= turnover <= cash && c.commissionRate >= 0.0
    ensures Commission(c, BUY, turnover) <= c.commissionRate * cash
  {
    if c.commissionRate > 0.0 { Scale(c.commissionRate, turnover, cash); }
  }

  // ---------------------------------------------------------------- when a buy opens a short

  ghost predicate AllLong(trades: seq<Trade>) {
    forall i :: 0 <= i < |trades| ==> trades[i].volume > 0
  }

  /** The account owes at least the price of one lot. */
  predicate OwesLot(cash: real, lot: real) {
    if lot > 0.0 then cash <= -lot else cash >= -lot
  }

  /** A waiting buy is filled while the account owes a lot. */
  predicate ShortFill(c: Config, s: State, index: nat, bar: Bar) {
    s.pending == Some(BUY) && index > 0 &&
    var lot := Times(FillPrice(c, bar.open, BUY), c.lotSize);
    lot != 0.0 && OwesLot(s.account.cash, lot)
  }

  lemma TruncNegativeIff(x: real)
    ensures Trunc(x) < 0 <==> x <= -1.0
    ensures x >= 0.0 ==> Trunc(x) >= 0
  {
  }

  lemma QuotientIff(cash: real, lot: real)
    requires lot != 0.0
    ensures cash / lot <= -1.0 <==> OwesLot(cash, lot)
  {
    var q := cash / lot;
    assert q * lot == cash;
    if lot > 0.0 {
      if q <= -1.0 { Scale(lot, 1.0, -q); } else if q < 0.0 { Below(lot, -q, 1.0); }
    } else {
      if q <= -1.0 { Scale(-lot, 1.0, -q); } else if q < 0.0 { Below(-lot, -q, 1.0); }
    }
  }

  lemma Below(x: real, f: real, q: real)
    requires x > 0.0 && f < q
    ensures x * f < x * q
  {
  }

  lemma ProductSign(n: int, lots: int)
    requires lots > 0
    ensures n * lots < 0 <==> n < 0
  {
  }

  /** The volume of a buy is negative exactly when the account owes at least one lot. */
  lemma LotsNegativeIff(c: Config, cash: real, price: real)
    requires c.lotSize >= 0 && Times(price, c.lotSize) != 0.0
    ensures LotsFor(c, cash, price) < 0 <==> OwesLot(cash, Times(price, c.lotSize))
  {
    var lot := Times(price, c.lotSize);
    assert c.lotSize != 0;
    QuotientIff(cash, lot);
    TruncNegativeIff(cash / lot);
    ProductSign(Trunc(cash / lot), c.lotSize);
  }

  ghost predicate NeverShort(c: Config, bars: seq<Bar>, signals: seq<Option<Side>>, n: nat)
    requires n <= |bars| == |signals|
  {
    forall k: nat :: k < n ==>
      Replay(c, bars, signals, k).Ok? && !ShortFill(c, Replay(c, bars, signals, k).value, k, bars[k])
  }

  lemma AllLongSnoc(trades: seq<Trade>, t: Trade)
    ensures AllLong(trades + [t]) <==> AllLong(trades) && t.volume > 0
  {
    assert (trades + [t])[|trades|] == t && forall i :: 0 <= i < |trades| ==> (trades + [t])[i] == trades[i];
  }

  /** One bar of the loop keeps every volume positive exactly when its fill opens no short. */
  lemma StepLongIff(c: Config, s: State, index: nat, bar: Bar, signal: Option<Side>)
    requires c.lotSize >= 0 && Sound(c, s.account) && StepBar(c, s, index, bar, signal).Ok?
    requires s.pending == Some(BUY) ==> s.account.position == 0
    ensures AllLong(StepBar(c, s, index, bar, signal).value.account.trades)
            <==> AllLong(s.account.trades) && !ShortFill(c, s, index, bar)
  {
    hide LotsFor, Times, FillPrice, Commission, Realized, OwesLot, AllLong, Alternates, Books;
    var a := s.account;
    if s.pending == Some(BUY) && index > 0 {
      var price := FillPrice(c, bar.open, BUY);
      var volume := LotsFor(c, a.cash, price);
      LotsNegativeIff(c, a.cash, price);
      var turnover := Times(price, volume);
      AllLongSnoc(a.trades, Trade(index, BUY, price, volume, turnover, Commission(c, BUY, turnover), 0.0));
    } else if s.pending == Some(SELL) && index > 0 {
      SellLong(c, a, index, FillPrice(c, bar.open, SELL));
    }
  }

  /** Selling what positive volumes left open is a positive volume. */
  lemma SellLong(c: Config, a: Account, bar: nat, price: real)
    requires Sound(c, a)
    ensures a.position != 0 ==> (AllLong(Sell(c, a, bar, price).trades) <==> AllLong(a.trades))
    ensures AllLong(a.trades) ==> a.position >= 0
  {
    if a.position != 0 {
      var turnover := Times(price, a.position);
      var commission := Commission(c, SELL, turnover);
      var realized := Realized(price, a.entryPrice, a.position, commission);
      AllLongSnoc(a.trades, Trade(bar, SELL, price, a.position, turnover, commission, realized));
      hide Times, Commission, Realized;
      if AllLong(a.trades) { assert a.trades[|a.trades| - 1].volume > 0; }
    }
  }

  lemma NeverShortNext(c: Config, bars: seq<Bar>, signals: seq<Option<Side>>, n: nat)
    requires 0 < n <= |bars| == |signals|
    ensures NeverShort(c, bars, signals, n) <==>
        && NeverShort(c, bars, signals, n - 1) && Replay(c, bars, signals, n - 1).Ok?
        && !ShortFill(c, Replay(c, bars, signals, n - 1).value, n - 1, bars[n - 1])
  {
    hide Replay, ShortFill;
  }

  lemma {:induction false} ReplayLongIff(c: Config, bars: seq<Bar>, signals: seq<Option<Side>>, n: nat)
    requires n <= |bars| == |signals| && c.lotSize >= 0 && Replay(c, bars, signals, n).Ok?
    ensures AllLong(Replay(c, bars, signals, n).value.account.trades) <==> NeverShort(c, bars, signals, n)
  {
    if n > 0 {
      ReplayLongIff(c, bars, signals, n - 1);
      ReplayKeeps(c, bars, signals, n - 1);
      NeverShortNext(c, bars, signals, n);
      hide StepBar, Sound, AllLong, ShortFill, NeverShort;
      var s := Replay(c, bars, signals, n - 1).value;
      StepLongIff(c, s, n - 1, bars[n - 1], signals[n - 1]);
    }
  }

  /** For any signals: every trade has a positive volume, and no position is ever short, if and only if no
      waiting buy is filled while the account owes at least the price of one lot. */
  lemma VolumesPositiveIff(c: Config, bars: seq<Bar>, signals: seq<Option<Side>>)
    requires 0 < |bars| == |signals| && c.lotSize >= 0 && Settle(c, bars, signals).Ok?
    ensures AllLong(Settle(c, bars, signals).value.account.trades) <==> NeverShort(c, bars, signals, |bars|)
    ensures NeverShort(c, bars, signals, |bars|) ==> Replay(c, bars, signals, |bars|).value.account.position >= 0
  {
    hide Replay, Sound, AllLong, NeverShort, Sell, FillPrice;
    ReplayLongIff(c, bars, signals, |bars|);
    ReplayKeeps(c, bars, signals, |bars|);
    var a := Replay(c, bars, signals, |bars|).value.account;
    SellLong(c, a, |bars| - 1, FillPrice(c, bars[|bars| - 1].close, SELL));
  }

  ghost predicate PlainMarket(c: Config, bars: seq<Bar>) {
    && c.capital >= 0.0 && c.lotSize >= 0 && c.commissionRate == 0.0 && 0.0 <= c.stampDutyRate <= 1.0
    && -10000.0 <= c.slippageBps <= 10000.0 && forall i :: 0 <= i < |bars| ==> bars[i].open >= 0.0
  }

  lemma FillPriceSign(c: Config, open: real, side: Side)
    requires open >= 0.0 && -10000.0 <= c.slippageBps <= 10000.0
    ensures FillPrice(c, open, side) >= 0.0
  {
    NonNegativeProduct(open, 1.0 + if side == BUY then c.slippageBps / 10000.0 else -c.slippageBps / 10000.0);
  }

  lemma NonNegativeProduct(x: real, f: real)
    requires x >= 0.0 && f >= 0.0
    ensures x * f >= 0.0
  {
  }

  lemma SellPays(c: Config, a: Account, bar: nat, price: real)
    requires a.position >= 0 && price >= 0.0 && c.commissionRate == 0.0 && 0.0 <= c.stampDutyRate <= 1.0
    ensures Sell(c, a, bar, price).cash >= a.cash
  {
    var turnover := Times(price, a.position);
    NonNegativeProduct(price, a.position as real);
    NonNegativeProduct(turnover, 1.0 - c.stampDutyRate);
    assert turnover - Commission(c, SELL, turnover) == turnover * (1.0 - c.stampDutyRate);
    hide Times, Commission;
  }

  /** Without a commission on buys cash is never negative, so no buy ever opens a short. */
  lemma {:induction false} FreeBuysStayLong(c: Config, bars: seq<Bar>, signals: seq<Option<Side>>, n: nat)
    requires n <= |bars| == |signals| && PlainMarket(c, bars) && Replay(c, bars, signals, n).Ok?
    ensures var a := Replay(c, bars, signals, n).value.account; a.cash >= 0.0 && a.position >= 0
    ensures NeverShort(c, bars, signals, n)
  {
    if n > 0 {
      FreeBuysStayLong(c, bars, signals, n - 1);
      ReplayKeeps(c, bars, signals, n - 1);
      NeverShortNext(c, bars, signals, n);
      hide Sound, NeverShort, FillPrice, LotsFor, Sell, Times, OwesLot;
      var s := Replay(c, bars, signals, n - 1).value;
      FreeFill(c, s, n - 1, bars[n - 1]);
    }
  }

  lemma FreeFill(c: Config, s: State, index: nat, bar: Bar)
    requires PlainMarket(c, [bar]) && s.account.cash >= 0.0 && s.account.position >= 0
    requires s.pending == Some(BUY) ==> s.account.position == 0
    ensures !ShortFill(c, s, index, bar)
    ensures s.pending.Some? ==>
      var r := Fill(c, s.account, index, bar.open, s.pending.value);
      r.Ok? ==> r.value.cash >= 0.0 && r.value.position >= 0
  {
    assert bar.open == [bar][0].open >= 0.0;
    var a := s.account;
    if s.pending == Some(BUY) {
      var price := FillPrice(c, bar.open, BUY);
      FillPriceSign(c, bar.open, BUY);
      NonNegativeProduct(price, c.lotSize as real);
      if Times(price, c.lotSize) != 0.0 {
        BuyLeaves(c, a, index, price);
        LotsNegativeIff(c, a.cash, price);
      }
    } else if s.pending == Some(SELL) {
      FillPriceSign(c, bar.open, SELL);
      SellPays(c, a, index, FillPrice(c, bar.open, SELL));
    }
    hide FillPrice, LotsFor, Commission, Times;
  }

  const COLLAPSE_CONFIG: Config := Config(60, 1, 2, 1000.0, 100, 0.01, 0.0, 0.0)

  lemma BuyOnCredit(a: Account)
    requires a == Start(COLLAPSE_CONFIG).account
    ensures var r := Fill(COLLAPSE_CONFIG, a, 1, 10.0, BUY);
      r.Ok? && r.value.cash == -10.0 && r.value.position == 100 && |r.value.trades| == 1
  {
    var c := COLLAPSE_CONFIG;
    assert FillPrice(c, 10.0, BUY) == 10.0 && LotsFor(c, 1000.0, 10.0) == 100;
    assert Times(10.0, 100) == 1000.0 && Commission(c, BUY, 1000.0) == 10.0;
    hide FillPrice, LotsFor, Times, Commission;
  }

  lemma SellAfterCollapse(a: Account)
    requires a.cash == -10.0 && a.position == 100 && |a.trades| == 1
    ensures var r := Fill(COLLAPSE_CONFIG, a, 2, 0.001, SELL);
      r.Ok? && r.value.cash == -9.901 && r.value.position == 0 && |r.value.trades| == 2
  {
    var c := COLLAPSE_CONFIG;
    assert FillPrice(c, 0.001, SELL) == 0.001;
    assert Times(0.001, 100) == 0.1 && Commission(c, SELL, 0.1) == 0.001;
    hide FillPrice, Times, Commission, Realized;
  }

  lemma BuyInDebt(a: Account)
    requires a.cash == -9.901 && a.position == 0 && |a.trades| == 2
    ensures var r := Fill(COLLAPSE_CONFIG, a, 3, 0.001, BUY);
      && r.Ok? && r.value.position == -9900 && |r.value.trades| == 3
      && r.value.trades[2].side == BUY && r.value.trades[2].volume == -9900
  {
    var c := COLLAPSE_CONFIG;
    assert FillPrice(c, 0.001, BUY) == 0.001 && LotsFor(c, -9.901, 0.001) == -9900 && Times(0.001, 100) != 0.0;
    hide FillPrice, LotsFor, Times, Commission;
  }

  lemma ReplayNext(c: Config, bars: seq<Bar>, signals: seq<Option<Side>>, n: nat)
    requires n < |bars| == |signals| && Replay(c, bars, signals, n).Ok?
    ensures Replay(c, bars, signals, n + 1) == StepBar(c, Replay(c, bars, signals, n).value, n, bars[n], signals[n])
  {
    hide StepBar;
  }

  /** A run that opens a short: the commission of the first buy leaves a debt, the price collapses, and the
      second buy is of minus ninety-nine lots. */
  lemma BuyCanOpenShort()
    ensures var bars := [Bar(10.0, 10.0), Bar(10.0, 10.0), Bar(0.001, 0.001), Bar(0.001, 0.001)];
      var r := Replay(COLLAPSE_CONFIG, bars, [Some(BUY), Some(SELL), Some(BUY), None], 4);
      && !NegativeConfig(COLLAPSE_CONFIG) && r.Ok? && |r.value.account.trades| == 3
      && r.value.account.trades[2].side == BUY && r.value.account.trades[2].volume == -9900
      && r.value.account.position == -9900
  {
    var c := COLLAPSE_CONFIG;
    var bars := [Bar(10.0, 10.0), Bar(10.0, 10.0), Bar(0.001, 0.001), Bar(0.001, 0.001)];
    var signals := [Some(BUY), Some(SELL), Some(BUY), None];
    assert Replay(c, bars, signals, 0) == Ok(Start(c));
    hide Fill, Replay;
    ReplayNext(c, bars, signals, 0);
    BuyOnCredit(Start(c).account);
    ReplayNext(c, bars, signals, 1);
    SellAfterCollapse(Replay(c, bars, signals, 2).value.account);
    ReplayNext(c, bars, signals, 2);
    BuyInDebt(Replay(c, bars, signals, 3).value.account);
    ReplayNext(c, bars, signals, 3);
  }

  // ---------------------------------------------------------------- equity

  /** The last equity value is the final cash. */
  lemma LastEquityIsCash(c: Config, bars: seq<Bar>, signals: seq<Option<Side>>)
    requires 0 < |bars| == |signals| && Settle(c, bars, signals).Ok?
    ensures var s := Settle(c, bars, signals).value; |s.equity| == |bars| && s.equity[|bars| - 1] == s.account.cash
  {
    ReplayLength(c, bars, signals, |bars|);
    ReplayLength(c, bars, signals, |bars| - 1);
    hide Fill, Sell;
    assert Times(bars[|bars| - 1].close, 0) == 0.0;
  }

  /** The running peak: the highest of the capital and the first `n` values. */
  function Peak(capital: real, equity: seq<real>, n: nat): real
    requires n <= |equity|
  {
    if n == 0 then capital else MaxReal(Peak(capital, equity, n - 1), equity[n - 1])
  }

  lemma {:induction false} PeakMeans(capital: real, equity: seq<real>, n: nat)
    requires n <= |equity|
    ensures Peak(capital, equity, n) >= capital && forall i :: 0 <= i < n ==> equity[i] <= Peak(capital, equity, n)
    ensures Peak(capital, equity, n) == capital || exists i :: 0 <= i < n && equity[i] == Peak(capital, equity, n)
  {
    if n > 0 { PeakMeans(capital, equity, n - 1); }
  }

  /** The fall at one value from the peak so far. */
  function FallAt(capital: real, equity: seq<real>, j: nat): real
    requires j < |equity|
  {
    Peak(capital, equity, j + 1) - equity[j]
  }

  /** The worst fall of equity from an earlier high, the capital counting as the first. */
  ghost predicate IsWorst(capital: real, equity: seq<real>, worst: real) {
    && (forall j: nat :: j < |equity| ==> FallAt(capital, equity, j) <= worst)
    && (exists j: nat :: j < |equity| && FallAt(capital, equity, j) == worst)
  }

  /** No value is further below the capital or an earlier value than the worst fall. */
  lemma WorstMeans(capital: real, equity: seq<real>, worst: real, i: nat, j: nat)
    requires IsWorst(capital, equity, worst) && i <= j < |equity|
    ensures equity[i] - equity[j] <= worst && capital - equity[j] <= worst && worst >= 0.0
  {
    PeakMeans(capital, equity, j + 1);
    assert FallAt(capital, equity, j) <= worst;
  }

  method MaxDrawdown(capital: real, equity: seq<real>) returns (worst: real)
    requires equity != []
    ensures IsWorst(capital, equity, worst)
  {
    var peak := MaxReal(capital, equity[0]);
    worst := peak - equity[0];
    ghost var at: nat := 0;
    assert Peak(capital, equity, 0) == capital;
    for k := 1 to |equity|
      invariant peak == Peak(capital, equity, k)
      invariant at < k && FallAt(capital, equity, at) == worst
      invariant forall j: nat :: j < k ==> FallAt(capital, equity, j) <= worst
    {
      peak := MaxReal(peak, equity[k]);
      assert FallAt(capital, equity, k) == peak - equity[k];
      if peak - equity[k] > worst {
        worst, at := peak - equity[k], k;
      }
    }
  }

  function Wins(trades: seq<Trade>): nat {
    if trades == [] then 0
    else
      var t := trades[|trades| - 1];
      Wins(trades[..|trades| - 1]) + if t.side == SELL && t.realizedPnl > 0.0 then 1 else 0
  }

  function Sells(trades: seq<Trade>): nat {
    if trades == [] then 0
    else Sells(trades[..|trades| - 1]) + if trades[|trades| - 1].side == SELL then 1 else 0
  }

  /** In alternating trades every second one is a sell. */
  lemma {:induction false} HalfAreSells(trades: seq<Trade>)
    requires Alternates(trades)
    ensures Sells(trades) == |trades| / 2 && Wins(trades) <= Sells(trades)
  {
    if trades != [] {
      var front := trades[..|trades| - 1];
      forall i: nat | i < |front| ensures Paired(front, i) { assert Paired(trades, i); }
      assert Paired(trades, |trades| - 1);
      HalfAreSells(front);
    }
  }

  /** A quotient, zero over zero. */
  function Ratio(x: real, y: real): (r: real)
    ensures if y == 0.0 then r == 0.0 else r * y == x
  {
    if y != 0.0 then x / y else 0.0
  }

  // ---------------------------------------------------------------- the runner

  predicate InvalidConfig(c: Config) { c.interval < 1 || c.fastWindow < 1 || c.fastWindow >= c.slowWindow }

  predicate NegativeConfig(c: Config) {
    c.capital < 0.0 || c.lotSize < 0 || c.commissionRate < 0.0 || c.stampDutyRate < 0.0
  }

  lemma {:induction false} ReplayFails(c: Config, bars: seq<Bar>, signals: seq<Option<Side>>, n: nat, m: nat)
    requires n <= m <= |bars| == |signals| && Replay(c, bars, signals, n).Err?
    ensures Replay(c, bars, signals, m) == Replay(c, bars, signals, n)
  {
    if n < m { ReplayFails(c, bars, signals, n, m - 1); }
  }

  /** The order waiting since the last bar, filled at the open; the account's fields one by one. */
  method FillPending(c: Config, a: Account, index: nat, open: real, side: Side) returns (r: Result<Account, Failure>)
    ensures r == Fill(c, a, index, open, side) && (r.Err? ==> r.error == DivisionByZero)
  {
    hide Times, LotsFor, FillPrice, Commission, Realized;
    var cash, position, entryPrice, trades := a.cash, a.position, a.entryPrice, a.trades;
    var price := FillPrice(c, open, side);
    if side == BUY && Times(price, c.lotSize) == 0.0 {
      return Err(DivisionByZero);
    }
    var volume := if side == BUY then LotsFor(c, cash, price) else position;
    if volume == 0 {
      return Ok(a);
    }
    var turnover := Times(price, volume);
    var commission := Commission(c, side, turnover);
    if side == BUY {
      cash := cash - (turnover + commission);
      position := position + volume;
      entryPrice := price;
      trades := trades + [Trade(index, BUY, price, volume, turnover, commission, 0.0)];
    } else {
      cash := cash + (turnover - commission);
      var realized := Realized(price, entryPrice, volume, commission);
      position := 0;
      trades := trades + [Trade(index, SELL, price, volume, turnover, commission, realized)];
    }
    r := Ok(Account(cash, position, entryPrice, a.turnover + turnover, a.cost + commission, trades));
  }

  /** The trading loop. */
  method TradeBars(c: Config, bars: seq<Bar>, signals: seq<Option<Side>>) returns (r: Result<State, Failure>)
    requires |bars| == |signals|
    ensures r == Replay(c, bars, signals, |bars|) && (r.Err? ==> r.error == DivisionByZero)
  {
    hide Fill, Times;
    var account := Account(c.capital, 0, 0.0, 0.0, 0.0, []);
    var equity: seq<real>, pending: Option<Side> := [], None;
    for index := 0 to |bars|
      invariant Replay(c, bars, signals, index) == Ok(State(account, pending, equity))
    {
      var bar := bars[index];
      if pending.Some? && index > 0 {
        var filled := FillPending(c, account, index, bar.open, pending.value);
        if filled.Err? {
          ReplayFails(c, bars, signals, index + 1, |bars|);
          return Err(filled.error);
        }
        account := filled.value;
      }
      pending := None;
      if signals[index] == Some(BUY) && account.position == 0 {
        pending := Some(BUY);
      } else if signals[index] == Some(SELL) && account.position > 0 {
        pending := Some(SELL);
      }
      equity := equity + [account.cash + Times(bar.close, account.position)];
    }
    r := Ok(State(account, pending, equity));
  }

  /** What a report says about the run it comes from. */
  ghost predicate Reports(r: Report, c: Config, bars: seq<Bar>, signals: seq<Option<Side>>)
    requires 0 < |bars| == |signals|
  {
    var s := Settle(c, bars, signals);
    && s.Ok? && r.trades == s.value.account.trades && r.equity == s.value.equity
    && r.finalEquity == s.value.account.cash && r.pnl == NetGain(r.trades) && r.returnRate == Ratio(r.pnl, c.capital)
    && IsWorst(c.capital, r.equity, r.maxDrawdown)
    && r.winRate == Ratio(Wins(r.trades) as real, (|r.trades| / 2) as real)
    && r.turnoverRate == Ratio(SumTurnover(r.trades), c.capital) && r.totalCost == SumCommission(r.trades)
  }

  const NO_TRADES: Report := Report([], [], 0.0, 0.0, 0.0, 0.0, 0.0, 0.0, 0.0)

  /** Runs the strategy's signals over the bars. */
  method RunBacktest(c: Config, bars: seq<Bar>, signals: seq<Option<Side>>) returns (r: Result<Report, Failure>)
    requires |bars| == |signals|
    ensures InvalidConfig(c) ==> r == Err(InvalidWindows)
    ensures !InvalidConfig(c) && |bars| < c.slowWindow + 2 ==> r == Ok(NO_TRADES.(finalEquity := c.capital))
    ensures !InvalidConfig(c) && |bars| >= c.slowWindow + 2 ==>
      if NegativeConfig(c) then r == Err(NegativeParameter)
      else if Settle(c, bars, signals).Ok? then r.Ok? && Reports(r.value, c, bars, signals)
      else r == Err(DivisionByZero)
  {
    hide Sell, SumTurnover, SumCommission, NetGain, Wins, Sells, Replay;
    if c.interval < 1 || c.fastWindow < 1 || c.fastWindow >= c.slowWindow {
      return Err(InvalidWindows);
    }
    if |bars| < c.slowWindow + 2 {
      return Ok(NO_TRADES.(finalEquity := c.capital));
    }
    if c.capital < 0.0 || c.lotSize < 0 || c.commissionRate < 0.0 || c.stampDutyRate < 0.0 {
      return Err(NegativeParameter);
    }
    var traded := TradeBars(c, bars, signals);
    if traded.Err? {
      return Err(traded.error);
    }
    var account, equity := traded.value.account, traded.value.equity;
    ReplayLength(c, bars, signals, |bars|);
    if account.position != 0 {
      var last := |bars| - 1;
      account := Sell(c, account, last, FillPrice(c, bars[last].close, SELL));
      equity := equity[last := account.cash];
    }
    SettledBooks(c, bars, signals);
    HalfAreSells(account.trades);
    var worst := MaxDrawdown(c.capital, equity);
    r := Ok(Report(account.trades, equity, account.cash, account.cash - c.capital,
                   Ratio(account.cash - c.capital, c.capital), worst,
                   Ratio(Wins(account.trades) as real, Sells(account.trades) as real),
                   Ratio(account.turnover, c.capital), account.cost));
  }

  // ---------------------------------------------------------------- the equity curve

  datatype Point = Point(equity: real, returnRate: real, drawdown: real)

  /** Curve points with the running peak. */
  method EquityPoints(values: seq<real>, capital: real) returns (points: seq<Point>)
    ensures |points| == |values|
    ensures forall j: nat :: j < |values| ==> IsPoint(points[j], values[j], capital, Peak(capital, values, j + 1))
  {
    hide IsPoint;
    points := [];
    var peak := capital;
    for k := 0 to |values|
      invariant |points| == k && peak == Peak(capital, values, k)
      invariant forall j: nat :: j < k ==> IsPoint(points[j], values[j], capital, Peak(capital, values, j + 1))
    {
      peak := MaxReal(peak, values[k]);
      assert peak == Peak(capital, values, k + 1) && values[k] <= peak;
      var returnRate := if capital != 0.0 then values[k] / capital - 1.0 else 0.0;
      var drawdown := if peak != 0.0 then values[k] / peak - 1.0 else 0.0;
      PointFits(values[k], capital, peak);
      points := points + [Point(values[k], returnRate, drawdown)];
    }
  }

  /** The value is its return on the capital and its drawdown from the peak; no drawdown exactly at a peak. */
  ghost predicate IsPoint(p: Point, value: real, capital: real, peak: real) {
    && p.equity == value
    && (if capital != 0.0 then value == capital * (1.0 + p.returnRate) else p.returnRate == 0.0)
    && (if peak != 0.0 then value == peak * (1.0 + p.drawdown) else p.drawdown == 0.0)
    && (peak > 0.0 ==> p.drawdown <= 0.0 && (p.drawdown == 0.0 <==> value == peak))
  }

  lemma Relative(x: real, y: real)
    requires y != 0.0
    ensures x == y * (1.0 + (x / y - 1.0))
    ensures y > 0.0 && x <= y ==> x / y - 1.0 <= 0.0 && (x / y - 1.0 == 0.0 <==> x == y)
  {
    var q := x / y;
    assert q * y == x;
    if y > 0.0 && q > 1.0 { Scale(y, 1.0, q); }
  }

  lemma PointFits(value: real, capital: real, peak: real)
    requires value <= peak
    ensures IsPoint(Point(value, if capital != 0.0 then value / capital - 1.0 else 0.0,
                          if peak != 0.0 then value / peak - 1.0 else 0.0),
                    value, capital, peak)
  {
    if capital != 0.0 { Relative(value, capital); }
    if peak != 0.0 { Relative(value, peak); }
  }
}
