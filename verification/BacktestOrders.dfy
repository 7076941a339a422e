/** Which orders a backtest fills, at what price, of what size and at what cost. */
module BacktestOrders {
  import opened Wrappers
  import opened Backtest

  // ---------------------------------------------------------------- prices and costs

  /** The slippage as a fraction of the price. */
  function Slip(c: Config): real { c.slippageBps / 10000.0 }

  /** What is lost, as a fraction of the amount, when buying and selling again at the same market price:
      the slippage and the commission on both sides, and stamp duty on the sell. */
  function RoundTrip(c: Config): real {
    (1.0 + Slip(c)) * (1.0 + c.commissionRate) - (1.0 - Slip(c)) * (1.0 - c.commissionRate - c.stampDutyRate)
  }

  lemma Distribute(x: real, y: real, z: real)
    ensures x * (y + z) == x * y + x * z && x * (y - z) == x * y - x * z
  {
  }

  lemma TimesScaled(x: real, f: real, n: int)
    ensures Times(x * f, n) == Times(x, n) * f
  {
    assert x * f * (n as real) == x * (n as real) * f;
  }

  /** What a buy takes from the cash, and a sell brings, for an amount at market prices. */
  lemma BuyTakes(c: Config, a: Account, bar: nat, open: real, volume: int)
    ensures Buy(c, a, bar, FillPrice(c, open, BUY), volume).cash
        == a.cash - Times(open, volume) * ((1.0 + Slip(c)) * (1.0 + c.commissionRate))
  {
    var amount, f, r := Times(open, volume), 1.0 + Slip(c), c.commissionRate;
    TimesScaled(open, f, volume);
    var turnover := Times(FillPrice(c, open, BUY), volume);
    assert turnover == amount * f;
    Distribute(turnover, 1.0, r);
    assert turnover * (1.0 + r) == amount * (f * (1.0 + r));
    hide Times, FillPrice;
  }

  lemma SellBrings(c: Config, a: Account, bar: nat, open: real)
    ensures Sell(c, a, bar, FillPrice(c, open, SELL)).cash
        == a.cash + Times(open, a.position) * ((1.0 - Slip(c)) * (1.0 - c.commissionRate - c.stampDutyRate))
  {
    var amount, f, r, d := Times(open, a.position), 1.0 - Slip(c), c.commissionRate, c.stampDutyRate;
    TimesScaled(open, f, a.position);
    var turnover := Times(FillPrice(c, open, SELL), a.position);
    assert turnover == amount * f;
    Distribute(turnover, 1.0 - r, d);
    Distribute(turnover, 1.0, r);
    assert turnover * (1.0 - r - d) == amount * (f * (1.0 - r - d));
    hide Times, FillPrice;
  }

  /** Buying and selling again at one market price costs exactly the round trip, whatever the volume. */
  lemma RoundTripCosts(c: Config, a: Account, i: nat, j: nat, open: real, volume: int)
    requires a.position == 0
    ensures var bought := Buy(c, a, i, FillPrice(c, open, BUY), volume);
      Sell(c, bought, j, FillPrice(c, open, SELL)).cash == a.cash - Times(open, volume) * RoundTrip(c)
  {
    var bought := Buy(c, a, i, FillPrice(c, open, BUY), volume);
    BuyTakes(c, a, i, open, volume);
    SellBrings(c, bought, j, open);
    assert bought.position == volume;
    Distribute(Times(open, volume), (1.0 + Slip(c)) * (1.0 + c.commissionRate),
               (1.0 - Slip(c)) * (1.0 - c.commissionRate - c.stampDutyRate));
    hide Times, FillPrice, Buy, Sell, Slip;
  }

  // ---------------------------------------------------------------- sizes

  lemma CastNext(n: int)
    ensures (n + 1) as real == n as real + 1.0
  {
  }

  lemma TimesAbove(x: real, q: real, m: int)
    requires x > 0.0 && q < m as real
    ensures q * x < Times(x, m)
  {
    Below(x, q, m as real);
  }

  lemma LotBounds(cash: real, lot: real)
    requires cash >= 0.0 && lot > 0.0
    ensures var n := Trunc(cash / lot); n >= 0 && Times(lot, n) <= cash < Times(lot, n + 1)
  {
    var q := cash / lot;
    var n := q.Floor;
    assert q * lot == cash && q >= 0.0 && (n as real) <= q < (n as real) + 1.0;
    Scale(lot, n as real, q);
    CastNext(n);
    TimesAbove(lot, q, n + 1);
  }

  /** A buy is of as many whole lots as the cash pays for: one lot more would cost more than there is. */
  lemma LotsAreTheMost(c: Config, cash: real, price: real)
    requires cash >= 0.0 && price > 0.0 && c.lotSize > 0
    ensures var volume := LotsFor(c, cash, price);
      volume % c.lotSize == 0 && volume >= 0
      && Times(price, volume) <= cash < Times(price, volume + c.lotSize)
  {
    var lot := Times(price, c.lotSize);
    LotPositive(price, c.lotSize);
    LotBounds(cash, lot);
    var n := Trunc(cash / lot);
    Regroup(price, n, c.lotSize);
    Regroup(price, n + 1, c.lotSize);
    WholeLots(n, c.lotSize);
    hide Times, Trunc;
  }

  lemma LotPositive(price: real, lotSize: int)
    requires price > 0.0 && lotSize > 0
    ensures Times(price, lotSize) > 0.0
  {
  }

  lemma WholeLots(n: int, lotSize: int)
    requires n >= 0 && lotSize > 0
    ensures n * lotSize % lotSize == 0 && n * lotSize >= 0 && (n + 1) * lotSize == n * lotSize + lotSize
  {
    Numbers.Remainder(n, lotSize);
  }

  // ---------------------------------------------------------------- signals and fills

  /** A trade at a market price: buys pay the slippage on top and commission, sells get it off and pay
      commission and stamp duty. */
  ghost predicate At(c: Config, t: Trade, bar: nat, side: Side, market: real, volume: int) {
    && t.bar == bar && t.side == side && t.volume == volume
    && t.price == (if side == BUY then market + market * Slip(c) else market - market * Slip(c))
    && t.turnover == Times(t.price, volume)
    && t.commission == t.turnover * (if side == BUY then c.commissionRate else c.commissionRate + c.stampDutyRate)
  }

  /** One more trade. */
  ghost predicate Traded(c: Config, a: Account, b: Account, bar: nat, side: Side, market: real, volume: int) {
    && |b.trades| == |a.trades| + 1 && b.trades[..|a.trades|] == a.trades
    && At(c, b.trades[|a.trades|], bar, side, market, volume)
  }

  /** The signal of the bar before. */
  function Wanted(signals: seq<Option<Side>>, k: nat): Option<Side>
    requires k <= |signals|
  {
    if k == 0 then None else signals[k - 1]
  }

  /** The order waiting after `k` bars: the last signal, if the account can follow it. */
  lemma WaitingIs(c: Config, bars: seq<Bar>, signals: seq<Option<Side>>, k: nat)
    requires k <= |bars| == |signals| && Replay(c, bars, signals, k).Ok?
    ensures var s := Replay(c, bars, signals, k).value;
      && (s.pending == Some(BUY) <==> Wanted(signals, k) == Some(BUY) && s.account.position == 0)
      && (s.pending == Some(SELL) <==> Wanted(signals, k) == Some(SELL) && s.account.position > 0)
      && (s.pending == Some(BUY) || s.pending == Some(SELL) || s.pending == None)
  {
    hide Fill;
  }

  lemma FillPriceIs(c: Config, market: real, side: Side)
    ensures FillPrice(c, market, side)
        == if side == BUY then market + market * Slip(c) else market - market * Slip(c)
  {
    Distribute(market, 1.0, Slip(c));
  }

  lemma CommissionIs(c: Config, side: Side, turnover: real)
    ensures Commission(c, side, turnover)
        == turnover * (if side == BUY then c.commissionRate else c.commissionRate + c.stampDutyRate)
  {
    Distribute(turnover, c.commissionRate, c.stampDutyRate);
  }

  lemma BuyTrades(c: Config, a: Account, bar: nat, open: real, volume: int)
    ensures Traded(c, a, Buy(c, a, bar, FillPrice(c, open, BUY), volume), bar, BUY, open, volume)
  {
    FillPriceIs(c, open, BUY);
    CommissionIs(c, BUY, Times(FillPrice(c, open, BUY), volume));
    hide FillPrice, Commission, Times, Slip;
  }

  lemma SellTrades(c: Config, a: Account, bar: nat, market: real)
    ensures Traded(c, a, Sell(c, a, bar, FillPrice(c, market, SELL)), bar, SELL, market, a.position)
  {
    FillPriceIs(c, market, SELL);
    CommissionIs(c, SELL, Times(FillPrice(c, market, SELL), a.position));
    hide FillPrice, Commission, Times, Slip, Realized;
  }

  lemma BuyHolds(c: Config, a: Account, bar: nat, price: real, volume: int)
    ensures Buy(c, a, bar, price, volume).position == a.position + volume
  {
  }

  lemma SellEmpties(c: Config, a: Account, bar: nat, price: real)
    ensures Sell(c, a, bar, price).position == 0
  {
  }

  /** What one bar does to the account, for the signal of the bar before: a buy signal with nothing held
      buys the whole lots the cash pays for, a sell signal with something held sells it all, and otherwise
      nothing is traded. */
  ghost predicate Follows(c: Config, a: Account, b: Account, bar: nat, open: real, wanted: Option<Side>) {
    match wanted
    case Some(BUY) => if a.position != 0 then b == a else Bought(c, a, b, bar, open)
    case Some(SELL) =>
      if a.position <= 0 then b == a else b.position == 0 && Traded(c, a, b, bar, SELL, open, a.position)
    case None => b == a
  }

  ghost predicate Bought(c: Config, a: Account, b: Account, bar: nat, open: real) {
    var price := open + open * Slip(c);
    && Times(price, c.lotSize) != 0.0
    && var volume := LotsFor(c, a.cash, price);
      if volume == 0 then b == a else b.position == volume && Traded(c, a, b, bar, BUY, open, volume)
  }

  lemma BuyFillFollows(c: Config, a: Account, bar: nat, open: real)
    requires a.position == 0 && Fill(c, a, bar, open, BUY).Ok?
    ensures Bought(c, a, Fill(c, a, bar, open, BUY).value, bar, open)
  {
    hide Traded, LotsFor, FillPrice, Times, Buy, Slip;
    FillPriceIs(c, open, BUY);
    var price := FillPrice(c, open, BUY);
    if Times(price, c.lotSize) != 0.0 {
      BuyTrades(c, a, bar, open, LotsFor(c, a.cash, price));
      BuyHolds(c, a, bar, price, LotsFor(c, a.cash, price));
    }
  }

  lemma SellFillFollows(c: Config, a: Account, bar: nat, open: real)
    requires a.position > 0
    ensures var r := Fill(c, a, bar, open, SELL);
      r.Ok? && r.value.position == 0 && Traded(c, a, r.value, bar, SELL, open, a.position)
  {
    hide Traded, FillPrice, Sell;
    SellTrades(c, a, bar, open);
    SellEmpties(c, a, bar, FillPrice(c, open, SELL));
  }

  /** Every bar's fill is at its open and follows the signal of the bar before. */
  lemma FillsFollowSignals(c: Config, bars: seq<Bar>, signals: seq<Option<Side>>, k: nat)
    requires k < |bars| == |signals| && Replay(c, bars, signals, k + 1).Ok?
    ensures Replay(c, bars, signals, k).Ok?
    ensures var a, b := Replay(c, bars, signals, k).value.account, Replay(c, bars, signals, k + 1).value.account;
      Follows(c, a, b, k, bars[k].open, Wanted(signals, k))
  {
    hide Traded, Bought, Fill, Replay, Times;
    ReplayBack(c, bars, signals, k);
    WaitingIs(c, bars, signals, k);
    var s, open := Replay(c, bars, signals, k).value, bars[k].open;
    if s.pending == Some(BUY) && Fill(c, s.account, k, open, BUY).Ok? { BuyFillFollows(c, s.account, k, open); }
    if s.pending == Some(SELL) { SellFillFollows(c, s.account, k, open); }
    match Wanted(signals, k) {
      case Some(BUY) =>
      case Some(SELL) =>
      case None =>
    }
  }

  lemma ReplayBack(c: Config, bars: seq<Bar>, signals: seq<Option<Side>>, k: nat)
    requires k < |bars| == |signals| && Replay(c, bars, signals, k + 1).Ok?
    ensures Replay(c, bars, signals, k).Ok?
    ensures StepBar(c, Replay(c, bars, signals, k).value, k, bars[k], signals[k]) == Replay(c, bars, signals, k + 1)
  {
    hide StepBar;
  }

  /** What is held after the last bar is sold at its close; nothing else is traded after it. */
  lemma RestIsSoldAtTheClose(c: Config, bars: seq<Bar>, signals: seq<Option<Side>>)
    requires 0 < |bars| == |signals| && Settle(c, bars, signals).Ok?
    ensures Replay(c, bars, signals, |bars|).Ok?
    ensures var a, b := Replay(c, bars, signals, |bars|).value.account, Settle(c, bars, signals).value.account;
      if a.position == 0 then b == a
      else Traded(c, a, b, |bars| - 1, SELL, bars[|bars| - 1].close, a.position)
  {
    hide Replay, FillPrice, Sell, Traded;
    SellTrades(c, Replay(c, bars, signals, |bars|).value.account, |bars| - 1, bars[|bars| - 1].close);
  }

  /** Every equity value is the cash after its bar and the position at its close. */
  lemma {:induction false} EquityIsMarked(c: Config, bars: seq<Bar>, signals: seq<Option<Side>>, n: nat, k: nat)
    requires k < n <= |bars| == |signals| && Replay(c, bars, signals, n).Ok?
    ensures Replay(c, bars, signals, k + 1).Ok? && |Replay(c, bars, signals, n).value.equity| == n
    ensures var a := Replay(c, bars, signals, k + 1).value.account;
      Replay(c, bars, signals, n).value.equity[k] == a.cash + Times(bars[k].close, a.position)
  {
    hide Fill, Times;
    ReplayLength(c, bars, signals, n - 1);
    if k < n - 1 { EquityIsMarked(c, bars, signals, n - 1, k); }
  }

  /** The winning trades: sells that brought more than their buy and their own commission cost. */
  function Winners(trades: seq<Trade>): set<nat> {
    set i: nat | i < |trades| && trades[i].side == SELL && trades[i].realizedPnl > 0.0
  }

  /** The wins are the number of winning trades. */
  lemma {:induction false} WinsAreCounted(trades: seq<Trade>)
    ensures Wins(trades) == |Winners(trades)|
  {
    if trades != [] {
      var front, t := trades[..|trades| - 1], trades[|trades| - 1];
      WinsAreCounted(front);
      assert Winners(trades)
          == Winners(front) + if t.side == SELL && t.realizedPnl > 0.0 then {|front|} else {};
    }
  }
}
