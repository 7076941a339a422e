/** What an order's side, quantity and price must be, and that the checks of them are exactly that. */
module PolicyOrders {
  import opened Numbers
  import opened PolicyModel

  /** A positive number of whole lots. */
  ghost predicate WholeLots(volume: int, unit: int) {
    exists k: int :: k > 0 && volume == k * unit
  }

  /** A price within the tolerance of a multiple of the tick. */
  ghost predicate OnTick(price: real, tick: real) {
    exists n: int :: NearTick(n, price, tick)
  }

  /** How far a number of ticks is from a price. */
  function Miss(n: int, price: real, tick: real): real { n as real * tick - price }

  predicate NearTick(n: int, price: real, tick: real) { -0.0000001 <= Miss(n, price, tick) <= 0.0000001 }

  /** What an order must be: open on its side in whole lots of that side, between the limits there are, and at a
      positive price on the tick. */
  ghost predicate OrderFits(s: SecurityRule, direction: int, price: real, volume: int) {
    && (|| (direction == BUY && s.buyAllowed && WholeLots(volume, s.buyUnit))
        || (direction == SELL && s.sellAllowed && WholeLots(volume, s.sellUnit)))
    && (s.minQuantity > 0 ==> s.minQuantity <= volume) && (s.maxQuantity > 0 ==> volume <= s.maxQuantity)
    && price > 0.0 && OnTick(price, s.priceTick)
  }

  lemma WholeLotsIff(volume: int, unit: int)
    requires unit > 0
    ensures volume > 0 && volume % unit == 0 <==> WholeLots(volume, unit)
  {
    if volume > 0 && volume % unit == 0 {
      var k := volume / unit;
      Divided(volume, unit, k);
      if k <= 0 { Ordered(k, 0, unit); }
    }
    if k: int :| k > 0 && volume == k * unit {
      LotsDivide(k, unit);
    }
  }

  lemma LotsDivide(k: int, unit: int)
    requires k > 0 && unit > 0
    ensures k * unit > 0 && k * unit % unit == 0
  {
    Ordered(1, k, unit);
    Remainder(k, unit);
  }

  lemma QuantityFitsIff(s: SecurityRule, direction: int, volume: int)
    requires s.buyUnit > 0 && s.sellUnit > 0
    ensures QuantityFits(s, direction, volume) <==>
      && WholeLots(volume, if direction == BUY then s.buyUnit else s.sellUnit)
      && (s.minQuantity > 0 ==> s.minQuantity <= volume) && (s.maxQuantity > 0 ==> volume <= s.maxQuantity)
  {
    WholeLotsIff(volume, if direction == BUY then s.buyUnit else s.sellUnit);
    hide WholeLots;
  }

  /** No integer is nearer to a number than the one it is rounded to. */
  lemma RoundIsNearest(q: real, n: int)
    ensures Abs(Round(q) as real - q) <= Abs(n as real - q)
  {
    var m := Round(q);
    Floored(q + 0.5);
    WholeGap(m, n);
    Nearest(q, m as real, n as real);
  }

  lemma Floored(x: real)
    ensures x.Floor as real <= x < x.Floor as real + 1.0
  {
  }

  lemma CastOrdered(m: int, n: int)
    requires m <= n
    ensures m as real <= n as real
  {
  }

  lemma CastNext(m: int)
    ensures (m + 1) as real == m as real + 1.0
  {
  }

  lemma WholeGap(m: int, n: int)
    ensures n as real == m as real || n as real >= m as real + 1.0 || n as real <= m as real - 1.0
  {
    if n > m {
      CastNext(m);
      CastOrdered(m + 1, n);
    } else if n < m {
      CastNext(n);
      CastOrdered(n + 1, m);
    }
  }

  lemma Nearest(q: real, m: real, n: real)
    requires m <= q + 0.5 < m + 1.0 && (n == m || n >= m + 1.0 || n <= m - 1.0)
    ensures Abs(m - q) <= Abs(n - q)
  {
  }

  lemma AbsTimes(a: real, b: real, tick: real)
    requires tick > 0.0 && Abs(a) <= Abs(b)
    ensures Abs(a * tick) <= Abs(b * tick)
  {
    TimesOrdered(Abs(a), Abs(b), tick);
    AbsFactor(a, tick);
    AbsFactor(b, tick);
  }

  lemma AbsFactor(a: real, tick: real)
    requires tick > 0.0
    ensures Abs(a * tick) == Abs(a) * tick
  {
  }

  lemma TimesOrdered(a: real, b: real, tick: real)
    requires tick > 0.0 && a <= b
    ensures a * tick <= b * tick
  {
  }

  lemma MissIs(n: int, price: real, tick: real)
    requires tick > 0.0
    ensures Miss(n, price, tick) == (n as real - price / tick) * tick
  {
    assert price / tick * tick == price;
  }

  /** Rounding to the tick comes at least as near to the price as any multiple. */
  lemma RoundedTickIsNearest(n: int, price: real, tick: real)
    requires tick > 0.0
    ensures Abs(Miss(Round(price / tick), price, tick)) <= Abs(Miss(n, price, tick))
  {
    hide Round, Miss;
    var m := Round(price / tick);
    RoundIsNearest(price / tick, n);
    MissIs(m, price, tick);
    MissIs(n, price, tick);
    AbsTimes(m as real - price / tick, n as real - price / tick, tick);
  }

  lemma PriceFitsIs(s: SecurityRule, price: real)
    requires s.priceTick > 0.0
    ensures PriceFits(s, price) <==> price > 0.0 && NearTick(Round(price / s.priceTick), price, s.priceTick)
  {
    hide Round;
  }

  lemma PriceFitsIff(s: SecurityRule, price: real)
    requires s.priceTick > 0.0
    ensures PriceFits(s, price) <==> price > 0.0 && OnTick(price, s.priceTick)
  {
    hide Round, PriceFits, Miss;
    PriceFitsIs(s, price);
    if price > 0.0 && OnTick(price, s.priceTick) {
      var n: int :| NearTick(n, price, s.priceTick);
      RoundedTickIsNearest(n, price, s.priceTick);
    }
  }

  /** The checks of an order's side, quantity and price are these requirements. */
  lemma OrderFitsIff(s: SecurityRule, direction: int, price: real, volume: int)
    requires SoundSecurity(s)
    ensures DirectionOpen(s, direction) && QuantityFits(s, direction, volume) && PriceFits(s, price)
            <==> OrderFits(s, direction, price, volume)
  {
    QuantityFitsIff(s, direction, volume);
    PriceFitsIff(s, price);
    hide QuantityFits, PriceFits, WholeLots, OnTick;
  }

  lemma OpenWhen(s: SecurityRule, direction: int)
    ensures DirectionOpen(s, direction) <==>
      && (direction == BUY || direction == SELL)
      && !(direction == BUY && !s.buyAllowed) && !(direction == SELL && !s.sellAllowed)
  {
  }
}
