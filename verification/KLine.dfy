/** Building bars of one interval from ticks: every tick lands in one bar, and what each bar then says. */
module KLine {
  import opened Numbers
  import opened KLineWindow

  datatype Bar = Bar(start: int, end: int, open: real, high: real, low: real, close: real, volume: int, turnover: real)

  const NO_BAR: Bar := Bar(0, 0, 0.0, 0.0, 0.0, 0.0, 0, 0.0)

  /** What a tick brings: a price and the changes of the cumulative volume and turnover. */
  datatype Trade = Trade(price: real, volume: int, turnover: real)

  datatype Section = Section(start: int, end: int)

  /** Bars are published from the last minute mark of the section's start to that of its end. */
  predicate InSection(section: Section, ts: int) {
    section.start + 59 * 1000 <= ts < section.end + 59 * 1000
  }

  function Positive(x: int): int { if x > 0 then x else 0 }

  function PositiveReal(x: real): real { if x > 0.0 then x else 0.0 }

  // ---------------------------------------------------------------- one bar

  function EmptyBar(c: Clock, interval: int, start: int): Bar {
    Bar(start, WindowEnd(c, start, interval), 0.0, 0.0, 0.0, 0.0, 0, 0.0)
  }

  /** A bar whose content is this tick alone. */
  function Restart(bar: Bar, t: Trade): Bar {
    bar.(open := t.price, high := t.price, low := t.price, close := t.price,
         volume := Positive(t.volume), turnover := PositiveReal(t.turnover))
  }

  function Extend(bar: Bar, t: Trade): Bar {
    bar.(high := MaxReal(bar.high, t.price), low := MinReal(bar.low, t.price), close := t.price,
         volume := bar.volume + Positive(t.volume), turnover := bar.turnover + PositiveReal(t.turnover))
  }

  function Absorb(bar: Bar, t: Trade): Bar {
    if bar.volume > 0 then Extend(bar, t) else Restart(bar, t)
  }

  /** What a tick or a forced close did: the bar closed, if any, whether it was published, and where the tick went. */
  datatype Effect =
    | Kept | Closed(bar: Bar, published: bool) | Opened | ClosedThenOpened(late: Bar, inSection: bool) | Dropped

  /** One tick: the bar after it, and its effect. */
  function TickBar(c: Clock, interval: int, bar: Bar, section: Section, ts: int, t: Trade): (Bar, Effect)
    requires interval > 0
  {
    var start := WindowStart(c, ts, interval);
    if bar.end > start then
      var grown := Absorb(bar, t);
      if ts >= grown.end
      then (EmptyBar(c, interval, WindowStart(c, ts + 1000, interval)), Closed(grown, InSection(section, ts)))
      else (grown, Kept)
    else if bar.end == 0 then (Restart(EmptyBar(c, interval, start), t), Opened)
    else if bar.end < start
    then (Restart(EmptyBar(c, interval, start), t), ClosedThenOpened(bar, InSection(section, ts)))
    else (bar, Dropped)
  }

  /** A forced close, due at the bar's end. */
  function CloseBar(c: Clock, interval: int, bar: Bar, ts: int): (Bar, bool)
    requires interval > 0
  {
    if ts >= bar.end then (EmptyBar(c, interval, WindowStart(c, ts + 1000, interval)), true) else (bar, false)
  }

  // ---------------------------------------------------------------- one interval's history

  /** A closed bar, the ticks it was built from, and whether it was published. */
  datatype Done = Done(bar: Bar, ticks: seq<Trade>, published: bool)

  /** The current bar with its ticks so far, and the bars closed before it. */
  datatype Lane = Lane(bar: Bar, ticks: seq<Trade>, closed: seq<Done>)

  const NEW_LANE: Lane := Lane(NO_BAR, [], [])

  datatype LaneOp = Tick(section: Section, ts: int, trade: Trade) | Force(ts: int)

  function LaneStep(c: Clock, interval: int, lane: Lane, op: LaneOp): Lane
    requires interval > 0
  {
    match op
    case Tick(section, ts, t) => (
      var (bar, effect) := TickBar(c, interval, lane.bar, section, ts, t);
      match effect
      case Kept => Lane(bar, lane.ticks + [t], lane.closed)
      case Closed(done, published) => Lane(bar, [], lane.closed + [Done(done, lane.ticks + [t], published)])
      case Opened => Lane(bar, lane.ticks + [t], lane.closed)
      case ClosedThenOpened(late, published) => Lane(bar, [t], lane.closed + [Done(late, lane.ticks, published)])
      case Dropped => lane)
    case Force(ts) =>
      var (bar, closes) := CloseBar(c, interval, lane.bar, ts);
      if closes then Lane(bar, [], lane.closed + [Done(lane.bar, lane.ticks, true)]) else lane
  }

  function LaneRun(c: Clock, interval: int, ops: seq<LaneOp>): Lane
    requires interval > 0
  {
    if ops == [] then NEW_LANE
    else LaneStep(c, interval, LaneRun(c, interval, ops[..|ops| - 1]), ops[|ops| - 1])
  }

  /** The bars handed to the callback and kept as history. */
  function Published(closed: seq<Done>): seq<Bar> {
    if closed == [] then []
    else Published(closed[..|closed| - 1]) + (if closed[|closed| - 1].published then [closed[|closed| - 1].bar] else [])
  }

  // ---------------------------------------------------------------- what a bar says about its ticks

  function VolumeOf(ticks: seq<Trade>): (v: int)
    ensures v >= 0
  {
    if ticks == [] then 0 else VolumeOf(ticks[..|ticks| - 1]) + Positive(ticks[|ticks| - 1].volume)
  }

  function TurnoverOf(ticks: seq<Trade>): real {
    if ticks == [] then 0.0 else TurnoverOf(ticks[..|ticks| - 1]) + PositiveReal(ticks[|ticks| - 1].turnover)
  }

  /** The first tick on which volume grew; the last tick when it never did. */
  function FirstGrowth(ticks: seq<Trade>): (k: nat)
    requires ticks != []
    ensures k < |ticks|
    ensures forall i :: 0 <= i < k ==> ticks[i].volume <= 0
    ensures k < |ticks| - 1 ==> ticks[k].volume > 0
  {
    if |ticks| == 1 || ticks[0].volume > 0 then 0 else 1 + FirstGrowth(ticks[1..])
  }

  /** Open is the first price counted, close the last, high and low the extremes, volume and turnover
      the positive changes; counting starts at the first tick on which volume grew. */
  ghost predicate Describes(bar: Bar, ticks: seq<Trade>) {
    if ticks == [] then bar.open == bar.high == bar.low == bar.close == 0.0 && bar.volume == 0 && bar.turnover == 0.0
    else DescribesFrom(bar, ticks, FirstGrowth(ticks))
  }

  ghost predicate DescribesFrom(bar: Bar, ticks: seq<Trade>, k: nat)
    requires k < |ticks|
  {
    && bar.open == ticks[k].price && bar.close == ticks[|ticks| - 1].price
    && (forall i :: k <= i < |ticks| ==> bar.low <= ticks[i].price <= bar.high)
    && (exists i :: k <= i < |ticks| && ticks[i].price == bar.high)
    && (exists i :: k <= i < |ticks| && ticks[i].price == bar.low)
    && bar.volume == VolumeOf(ticks[k..]) == VolumeOf(ticks)
    && bar.turnover == TurnoverOf(ticks[k..])
  }

  lemma VolumeSnoc(ticks: seq<Trade>, t: Trade)
    ensures VolumeOf(ticks + [t]) == VolumeOf(ticks) + Positive(t.volume)
    ensures TurnoverOf(ticks + [t]) == TurnoverOf(ticks) + PositiveReal(t.turnover)
  {
  }

  /** Volume is zero exactly while no tick's volume grew. */
  lemma {:induction false} NoVolumeIff(ticks: seq<Trade>)
    ensures VolumeOf(ticks) == 0 <==> forall i :: 0 <= i < |ticks| ==> ticks[i].volume <= 0
  {
    if ticks != [] { NoVolumeIff(ticks[..|ticks| - 1]); }
  }

  lemma {:induction false} FirstGrowthSnoc(ticks: seq<Trade>, t: Trade)
    ensures FirstGrowth(ticks + [t]) == if VolumeOf(ticks) > 0 then FirstGrowth(ticks) else |ticks|
    ensures VolumeOf(ticks) > 0 ==> ticks != []
  {
    NoVolumeIff(ticks);
    var all := ticks + [t];
    assert forall i :: 0 <= i < |ticks| ==> all[i] == ticks[i];
    if VolumeOf(ticks) > 0 {
      var g := FirstGrowth(ticks);
      assert ticks[g].volume > 0;
    }
  }

  lemma RestartDescribes(bar: Bar, ticks: seq<Trade>, t: Trade)
    requires VolumeOf(ticks) == 0
    ensures Describes(Restart(bar, t), ticks + [t])
  {
    var all := ticks + [t];
    FirstGrowthSnoc(ticks, t);
    VolumeSnoc(ticks, t);
    VolumeSnoc([], t);
    assert all[|ticks|..] == [] + [t];
    assert all[|ticks|].price == t.price;
  }

  /** Prices and totals from tick `k` on, one tick later. */
  lemma ExtendFrom(bar: Bar, ticks: seq<Trade>, t: Trade, k: nat)
    requires k < |ticks| && DescribesFrom(bar, ticks, k)
    ensures DescribesFrom(Extend(bar, t), ticks + [t], k)
  {
    var all := ticks + [t];
    VolumeSnoc(ticks, t);
    VolumeSnoc(ticks[k..], t);
    assert all[k..] == ticks[k..] + [t];
    hide VolumeOf, TurnoverOf;
    assert forall i :: 0 <= i < |ticks| ==> all[i] == ticks[i];
    var high :| k <= high < |ticks| && ticks[high].price == bar.high;
    var low :| k <= low < |ticks| && ticks[low].price == bar.low;
    assert all[high].price == bar.high && all[low].price == bar.low && all[|ticks|].price == t.price;
  }

  lemma ExtendDescribes(bar: Bar, ticks: seq<Trade>, t: Trade)
    requires ticks != [] && VolumeOf(ticks) > 0 && Describes(bar, ticks)
    ensures Describes(Extend(bar, t), ticks + [t])
  {
    hide VolumeOf, TurnoverOf, FirstGrowth, DescribesFrom, Extend;
    FirstGrowthSnoc(ticks, t);
    ExtendFrom(bar, ticks, t, FirstGrowth(ticks));
  }

  lemma VolumeDescribed(bar: Bar, ticks: seq<Trade>)
    requires Describes(bar, ticks)
    ensures bar.volume == VolumeOf(ticks)
  {
  }

  lemma AbsorbDescribes(bar: Bar, ticks: seq<Trade>, t: Trade)
    requires Describes(bar, ticks)
    ensures Describes(Absorb(bar, t), ticks + [t])
  {
    VolumeDescribed(bar, ticks);
    if bar.volume > 0 { ExtendDescribes(bar, ticks, t); } else { RestartDescribes(bar, ticks, t); }
  }

  // ---------------------------------------------------------------- what every lane keeps

  function TicksOf(closed: seq<Done>): seq<Trade> {
    if closed == [] then [] else TicksOf(closed[..|closed| - 1]) + closed[|closed| - 1].ticks
  }

  lemma TicksSnoc(closed: seq<Done>, d: Done)
    ensures TicksOf(closed + [d]) == TicksOf(closed) + d.ticks
  {
  }

  /** The ticks of a run, in order. */
  function Ticks(ops: seq<LaneOp>): seq<Trade> {
    if ops == [] then []
    else Ticks(ops[..|ops| - 1]) + if ops[|ops| - 1].Tick? then [ops[|ops| - 1].trade] else []
  }

  /** The bar is the untouched first one, or it fills an aligned window well after the epoch. */
  ghost predicate Placed(c: Clock, interval: int, bar: Bar) {
    || (bar.start == 0 && bar.end == 0)
    || (Aligned(c, interval, bar.start) && bar.start >= DAY * 1000 && bar.end == WindowEnd(c, bar.start, interval))
  }

  ghost predicate Spaced(interval: int, closed: seq<Done>, start: int) {
    && (forall i, j :: 0 <= i < j < |closed| ==> closed[i].bar.start + interval * 1000 <= closed[j].bar.start)
    && (forall i :: 0 <= i < |closed| ==> closed[i].bar.start + interval * 1000 <= start)
  }

  ghost predicate AllDescribed(lane: Lane) {
    && Describes(lane.bar, lane.ticks)
    && forall i :: 0 <= i < |lane.closed| ==> Describes(lane.closed[i].bar, lane.closed[i].ticks)
  }

  ghost predicate LaneInv(c: Clock, interval: int, lane: Lane) {
    && Placed(c, interval, lane.bar)
    && (lane.bar.end == 0 ==> lane.closed == [] && lane.ticks == [])
    && (DueLate(c) ==> Spaced(interval, lane.closed, lane.bar.start))
    && AllDescribed(lane)
  }

  predicate Late(op: LaneOp) { op.ts >= MIN_TIME }

  /** Where a window that opens at or after a time lies. */
  lemma WindowPlaced(c: Clock, interval: int, ts: int)
    requires Sane(c) && DividesDay(interval) && ts >= MIN_TIME
    ensures var w := WindowStart(c, ts, interval);
      Placed(c, interval, EmptyBar(c, interval, w)) && w >= DAY * 1000 >= interval * 1000
    ensures EmptyBar(c, interval, WindowStart(c, ts, interval)).end > 0
  {
    InItsWindow(c, ts, interval);
    Quotient(interval);
    SpanBounds(c, interval);
    hide WindowStart, Span;
  }

  lemma PlacedFacts(c: Clock, interval: int, bar: Bar)
    requires Sane(c) && DividesDay(interval) && Placed(c, interval, bar)
    ensures bar.end == 0 ==> bar.start == 0
    ensures bar.end != 0 ==> Aligned(c, interval, bar.start) && bar.end == WindowEnd(c, bar.start, interval)
    ensures bar.end != 0 && DueLate(c) ==> bar.start + (interval - 1) * 1000 <= bar.end
  {
    Quotient(interval);
    SpanBounds(c, interval);
    hide Span;
  }

  /** A window that opens once the bar is over starts at least one interval after it. */
  lemma NextWindow(c: Clock, interval: int, bar: Bar, ts: int)
    requires Sane(c) && DividesDay(interval) && DueLate(c) && Placed(c, interval, bar) && ts >= MIN_TIME
    requires ts - 1000 >= bar.end || bar.end < WindowStart(c, ts, interval)
    ensures bar.start + interval * 1000 <= WindowStart(c, ts, interval)
  {
    hide WindowEnd, WindowStart, Aligned, EmptyBar;
    WindowPlaced(c, interval, ts);
    PlacedFacts(c, interval, bar);
    if bar.end != 0 {
      InItsWindow(c, ts, interval);
      AlignedGap(c, interval, bar.start, WindowStart(c, ts, interval));
    }
  }

  lemma ClosingKeeps(c: Clock, interval: int, lane: Lane, done: Done, start: int)
    requires interval > 0 && LaneInv(c, interval, lane)
    requires done.bar.start == lane.bar.start && Describes(done.bar, done.ticks)
    requires DueLate(c) ==> lane.bar.start + interval * 1000 <= start
    ensures DueLate(c) ==> Spaced(interval, lane.closed + [done], start)
    ensures forall i :: 0 <= i < |lane.closed + [done]| ==>
        Describes((lane.closed + [done])[i].bar, (lane.closed + [done])[i].ticks)
  {
  }

  /** Opening a bar with a tick. */
  lemma OpeningKeeps(c: Clock, interval: int, closed: seq<Done>, ts: int, t: Trade)
    requires Sane(c) && DividesDay(interval) && ts >= MIN_TIME
    requires DueLate(c) ==> Spaced(interval, closed, WindowStart(c, ts, interval))
    requires forall i :: 0 <= i < |closed| ==> Describes(closed[i].bar, closed[i].ticks)
    ensures LaneInv(c, interval, Lane(Restart(EmptyBar(c, interval, WindowStart(c, ts, interval)), t), [t], closed))
  {
    WindowPlaced(c, interval, ts);
    RestartDescribes(EmptyBar(c, interval, WindowStart(c, ts, interval)), [], t);
    assert [] + [t] == [t];
    hide Describes, WindowStart, WindowEnd, Aligned, Spaced;
  }

  /** Opening an empty bar. */
  lemma EmptyingKeeps(c: Clock, interval: int, closed: seq<Done>, ts: int)
    requires Sane(c) && DividesDay(interval) && ts >= MIN_TIME
    requires DueLate(c) ==> Spaced(interval, closed, WindowStart(c, ts, interval))
    requires forall i :: 0 <= i < |closed| ==> Describes(closed[i].bar, closed[i].ticks)
    ensures LaneInv(c, interval, Lane(EmptyBar(c, interval, WindowStart(c, ts, interval)), [], closed))
  {
    WindowPlaced(c, interval, ts);
    EmptyDescribed(c, interval, WindowStart(c, ts, interval));
    hide Describes, WindowStart, WindowEnd, Aligned, Spaced;
  }

  lemma AbsorbKeeps(c: Clock, interval: int, lane: Lane, t: Trade)
    requires interval > 0 && LaneInv(c, interval, lane) && lane.bar.end != 0
    ensures LaneInv(c, interval, Lane(Absorb(lane.bar, t), lane.ticks + [t], lane.closed))
  {
    AbsorbDescribes(lane.bar, lane.ticks, t);
    hide Describes, WindowEnd, Aligned, Spaced;
  }

  lemma TickKeepsInv(c: Clock, interval: int, lane: Lane, op: LaneOp)
    requires Sane(c) && DividesDay(interval) && op.Tick? && Late(op) && LaneInv(c, interval, lane)
    ensures LaneInv(c, interval, LaneStep(c, interval, lane, op))
  {
    hide Describes, WindowStart, WindowEnd, Placed, Spaced, EmptyBar, Restart, Absorb;
    var bar, t := lane.bar, op.trade;
    var start := WindowStart(c, op.ts, interval);
    WindowPlaced(c, interval, op.ts);
    var (_, effect) := TickBar(c, interval, bar, op.section, op.ts, t);
    if effect.Kept? || effect.Closed? {
      AbsorbKeeps(c, interval, lane, t);
      SameWindow(bar, t);
    }
    hide LaneInv;
    match effect {
      case Kept =>
      case Closed(grown, published) =>
        InvParts(c, interval, lane);
        InvParts(c, interval, Lane(grown, lane.ticks + [t], lane.closed));
        if DueLate(c) { NextWindow(c, interval, bar, op.ts + 1000); }
        ClosingKeeps(c, interval, lane, Done(grown, lane.ticks + [t], published),
            WindowStart(c, op.ts + 1000, interval));
        EmptyingKeeps(c, interval, lane.closed + [Done(grown, lane.ticks + [t], published)], op.ts + 1000);
      case Opened =>
        InvParts(c, interval, lane);
        assert lane.ticks + [t] == [t];
        OpeningKeeps(c, interval, lane.closed, op.ts, t);
      case ClosedThenOpened(late, published) =>
        InvParts(c, interval, lane);
        if DueLate(c) { NextWindow(c, interval, bar, op.ts); }
        ClosingKeeps(c, interval, lane, Done(bar, lane.ticks, published), start);
        OpeningKeeps(c, interval, lane.closed + [Done(bar, lane.ticks, published)], op.ts, t);
      case Dropped =>
    }
  }

  lemma SameWindow(bar: Bar, t: Trade)
    ensures Absorb(bar, t).start == bar.start && Absorb(bar, t).end == bar.end
  {
  }

  lemma InvParts(c: Clock, interval: int, lane: Lane)
    requires LaneInv(c, interval, lane)
    ensures Placed(c, interval, lane.bar) && Describes(lane.bar, lane.ticks)
    ensures lane.bar.end == 0 ==> lane.closed == [] && lane.ticks == []
    ensures lane.closed == [] ==> forall start :: Spaced(interval, lane.closed, start)
    ensures forall i :: 0 <= i < |lane.closed| ==> Describes(lane.closed[i].bar, lane.closed[i].ticks)
  {
  }

  lemma EmptyDescribed(c: Clock, interval: int, start: int)
    ensures Describes(EmptyBar(c, interval, start), [])
  {
  }

  lemma ForceKeepsInv(c: Clock, interval: int, lane: Lane, op: LaneOp)
    requires Sane(c) && DividesDay(interval) && op.Force? && Late(op) && LaneInv(c, interval, lane)
    ensures LaneInv(c, interval, LaneStep(c, interval, lane, op))
  {
    hide Describes, WindowStart, WindowEnd, Placed, Spaced, EmptyBar, LaneInv;
    InvParts(c, interval, lane);
    if op.ts >= lane.bar.end {
      if DueLate(c) { NextWindow(c, interval, lane.bar, op.ts + 1000); }
      ClosingKeeps(c, interval, lane, Done(lane.bar, lane.ticks, true), WindowStart(c, op.ts + 1000, interval));
      EmptyingKeeps(c, interval, lane.closed + [Done(lane.bar, lane.ticks, true)], op.ts + 1000);
    }
  }

  ghost predicate AllLate(ops: seq<LaneOp>) {
    forall i :: 0 <= i < |ops| ==> Late(ops[i])
  }

  lemma {:induction false} EveryRunKeepsInv(c: Clock, interval: int, ops: seq<LaneOp>)
    requires Sane(c) && DividesDay(interval) && AllLate(ops)
    ensures LaneInv(c, interval, LaneRun(c, interval, ops))
  {
    if ops == [] {
      assert Describes(NO_BAR, []);
    } else {
      var front, op := ops[..|ops| - 1], ops[|ops| - 1];
      EveryRunKeepsInv(c, interval, front);
      hide LaneInv, LaneStep;
      if op.Tick? { TickKeepsInv(c, interval, LaneRun(c, interval, front), op); }
      else { ForceKeepsInv(c, interval, LaneRun(c, interval, front), op); }
    }
  }

  // ---------------------------------------------------------------- main results

  /** A tick is lost if and only if its window starts when the current bar is due, which takes a clock that
      makes windows due at the start of windows. */
  lemma DroppedIff(c: Clock, interval: int, bar: Bar, section: Section, ts: int, t: Trade)
    requires Sane(c) && DividesDay(interval) && Placed(c, interval, bar) && ts >= MIN_TIME
    ensures TickBar(c, interval, bar, section, ts, t).1 == Dropped
            <==> !Lossless(c, interval) && WindowStart(c, ts, interval) == bar.end
  {
    InItsWindow(c, ts, interval);
    WindowPlaced(c, interval, ts);
    PlacedFacts(c, interval, bar);
    if bar.end != 0 { DueAlignedIff(c, interval, bar.start); }
    hide WindowEnd, WindowStart, Lossless, Aligned, Absorb;
  }

  /** For every clock that is not lossless: the second of two ticks, at the time the first one's bar is due,
      is in no bar. */
  lemma {:induction false} SecondTickIsLost(c: Clock, interval: int, section: Section, ts: int,
      first: Trade, second: Trade)
    requires Sane(c) && DividesDay(interval) && !Lossless(c, interval) && ts >= MIN_TIME
    ensures var due := WindowEnd(c, WindowStart(c, ts, interval), interval);
      var ops := [Tick(section, ts, first), Tick(section, due, second)];
      var lane := LaneRun(c, interval, ops);
      lane.closed == [] && lane.ticks == [first] && Ticks(ops) == [first, second]
  {
    hide WindowStart, LaneRun, Ticks, Absorb, PositiveReal, Positive, Lossless, Span, Aligned;
    var w := WindowStart(c, ts, interval);
    var due := WindowEnd(c, w, interval);
    var one, two := Tick(section, ts, first), Tick(section, due, second);
    WindowPlaced(c, interval, ts);
    InItsWindow(c, ts, interval);
    DueAlignedIff(c, interval, w);
    OnlyWindow(c, due, interval, due);
    NothingRun(c, interval);
    LaneRunSnoc(c, interval, [], one);
    LaneRunSnoc(c, interval, [one], two);
    assert [] + [one] == [one] && [one] + [two] == [one, two];
  }

  lemma {:induction false} NothingRun(c: Clock, interval: int)
    requires interval > 0
    ensures LaneRun(c, interval, []) == NEW_LANE && Ticks([]) == []
  {
  }

  lemma {:induction false} LaneRunSnoc(c: Clock, interval: int, front: seq<LaneOp>, op: LaneOp)
    requires interval > 0
    ensures LaneRun(c, interval, front + [op]) == LaneStep(c, interval, LaneRun(c, interval, front), op)
    ensures Ticks(front + [op]) == Ticks(front) + if op.Tick? then [op.trade] else []
  {
  }

  /** Every tick lands in exactly one bar: the closed bars' ticks and the current one's are the run's, in order. */
  lemma {:induction false} EveryTickInOneBar(c: Clock, interval: int, ops: seq<LaneOp>)
    requires Sane(c) && DividesDay(interval) && AllLate(ops) && Lossless(c, interval)
    ensures var lane := LaneRun(c, interval, ops); TicksOf(lane.closed) + lane.ticks == Ticks(ops)
  {
    if ops != [] {
      var front, op := ops[..|ops| - 1], ops[|ops| - 1];
      EveryTickInOneBar(c, interval, front);
      EveryRunKeepsInv(c, interval, front);
      var lane := LaneRun(c, interval, front);
      if op.Tick? { DroppedIff(c, interval, lane.bar, op.section, op.ts, op.trade); }
      StepKeepsTicks(c, interval, lane, op, Ticks(front));
    }
  }

  lemma StepKeepsTicks(c: Clock, interval: int, lane: Lane, op: LaneOp, before: seq<Trade>)
    requires interval > 0 && TicksOf(lane.closed) + lane.ticks == before
    requires op.Tick? ==> TickBar(c, interval, lane.bar, op.section, op.ts, op.trade).1 != Dropped
    ensures var lane' := LaneStep(c, interval, lane, op);
      TicksOf(lane'.closed) + lane'.ticks == before + if op.Tick? then [op.trade] else []
  {
    hide TicksOf, TickBar, CloseBar;
    var lane' := LaneStep(c, interval, lane, op);
    if |lane'.closed| == |lane.closed| + 1 {
      TicksSnoc(lane.closed, lane'.closed[|lane.closed|]);
    }
  }

  function VolumeClosed(closed: seq<Done>, published: bool): int {
    if closed == [] then 0
    else
      var d := closed[|closed| - 1];
      VolumeClosed(closed[..|closed| - 1], published) + if d.published == published then d.bar.volume else 0
  }

  lemma {:induction false} VolumeConcat(a: seq<Trade>, b: seq<Trade>)
    ensures VolumeOf(a + b) == VolumeOf(a) + VolumeOf(b)
    decreases |b|
  {
    if b == [] {
      assert a + b == a;
    } else {
      assert (a + b)[..|a + b| - 1] == a + b[..|b| - 1];
      VolumeConcat(a, b[..|b| - 1]);
    }
  }

  lemma {:induction false} ClosedVolume(closed: seq<Done>)
    requires forall i :: 0 <= i < |closed| ==> Describes(closed[i].bar, closed[i].ticks)
    ensures VolumeClosed(closed, true) + VolumeClosed(closed, false) == VolumeOf(TicksOf(closed))
  {
    if closed != [] {
      var front, d := closed[..|closed| - 1], closed[|closed| - 1];
      ClosedVolume(front);
      VolumeDescribed(d.bar, d.ticks);
      VolumeConcat(TicksOf(front), d.ticks);
      hide Describes, VolumeOf;
    }
  }

  /** Published plus discarded plus current volume is the sum of the positive volume changes. */
  lemma VolumeIsConserved(c: Clock, interval: int, ops: seq<LaneOp>)
    requires Sane(c) && DividesDay(interval) && AllLate(ops) && Lossless(c, interval)
    ensures var lane := LaneRun(c, interval, ops);
      VolumeClosed(lane.closed, true) + VolumeClosed(lane.closed, false) + lane.bar.volume == VolumeOf(Ticks(ops))
  {
    var lane := LaneRun(c, interval, ops);
    EveryTickInOneBar(c, interval, ops);
    EveryRunKeepsInv(c, interval, ops);
    hide LaneRun;
    ClosedVolume(lane.closed);
    VolumeDescribed(lane.bar, lane.ticks);
    VolumeConcat(TicksOf(lane.closed), lane.ticks);
  }

  /** Successively closed bars start at least one interval apart, whatever order the ticks arrive in, if no
      window is due before its last second. */
  lemma ClosedStartsIncrease(c: Clock, interval: int, ops: seq<LaneOp>, i: nat, j: nat)
    requires Sane(c) && DividesDay(interval) && AllLate(ops) && DueLate(c)
    ensures var closed := LaneRun(c, interval, ops).closed;
      i < j < |closed| ==> closed[i].bar.start + interval * 1000 <= closed[j].bar.start
  {
    EveryRunKeepsInv(c, interval, ops);
    hide LaneRun;
  }

  lemma ForceReopens(c: Clock, interval: int, lane: Lane, ts: int, w: int)
    requires interval > 0 && ts >= lane.bar.end && WindowStart(c, ts + 1000, interval) == w
    ensures LaneStep(c, interval, lane, Force(ts)) ==
      Lane(EmptyBar(c, interval, w), [], lane.closed + [Done(lane.bar, lane.ticks, true)])
  {
    hide WindowStart, EmptyBar;
  }

  lemma DueEarly(c: Clock, interval: int, w: int)
    requires Sane(c) && DividesDay(interval) && !DueLate(c)
    ensures EmptyBar(c, interval, w).start == w && EmptyBar(c, interval, w).end <= w + (interval - 2) * 1000
    ensures w <= w + (interval - 1) * 1000 < w + interval * 1000
  {
  }

  /** Otherwise every window can close twice: forced closes in its last second but one reopen it. */
  lemma {:induction false} WindowReopens(c: Clock, interval: int, w: int)
    requires Sane(c) && DividesDay(interval) && !DueLate(c)
    requires Aligned(c, interval, w) && w + (interval - 2) * 1000 >= MIN_TIME
    ensures var op := Force(w + (interval - 2) * 1000);
      var closed := LaneRun(c, interval, [op, op, op]).closed;
      |closed| == 3 && closed[1].bar.start == closed[2].bar.start == w
  {
    hide WindowStart, LaneRun, LaneStep, Aligned, Ticks, EmptyBar, DueLate, Sane, DividesDay;
    var ts := w + (interval - 2) * 1000;
    DueEarly(c, interval, w);
    OnlyWindow(c, ts + 1000, interval, w);
    var op := Force(ts);
    assert [] + [op] == [op] && [op] + [op] == [op, op] && [op, op] + [op] == [op, op, op];
    NothingRun(c, interval);
    LaneRunSnoc(c, interval, [], op);
    ForceReopens(c, interval, NEW_LANE, ts, w);
    LaneRunSnoc(c, interval, [op], op);
    ForceReopens(c, interval, LaneRun(c, interval, [op]), ts, w);
    LaneRunSnoc(c, interval, [op, op], op);
    ForceReopens(c, interval, LaneRun(c, interval, [op, op]), ts, w);
  }

  /** A bar with volume opened at the price of the first tick on which volume grew, closed at its
      last tick's, and spans exactly the prices since. */
  ghost predicate SoundBar(d: Done) {
    d.bar.volume > 0 ==>
      && d.ticks != [] && d.ticks[FirstGrowth(d.ticks)].volume > 0
      && DescribesFrom(d.bar, d.ticks, FirstGrowth(d.ticks))
      && d.bar.low <= d.bar.open <= d.bar.high && d.bar.low <= d.bar.close <= d.bar.high
  }

  /** Every closed bar is sound. */
  lemma ClosedBarsAreSound(c: Clock, interval: int, ops: seq<LaneOp>, i: nat)
    requires Sane(c) && DividesDay(interval) && AllLate(ops)
    ensures i < |LaneRun(c, interval, ops).closed| ==> SoundBar(LaneRun(c, interval, ops).closed[i])
  {
    hide LaneRun, Placed, Spaced;
    EveryRunKeepsInv(c, interval, ops);
    if i < |LaneRun(c, interval, ops).closed| {
      var d := LaneRun(c, interval, ops).closed[i];
      assert Describes(d.bar, d.ticks);
      if d.bar.volume > 0 { VolumeGrew(d.bar, d.ticks); }
    }
  }

  lemma VolumeGrew(bar: Bar, ticks: seq<Trade>)
    requires Describes(bar, ticks) && bar.volume > 0
    ensures ticks != [] && ticks[FirstGrowth(ticks)].volume > 0 && DescribesFrom(bar, ticks, FirstGrowth(ticks))
    ensures bar.low <= bar.open <= bar.high && bar.low <= bar.close <= bar.high
  {
    VolumeDescribed(bar, ticks);
    NoVolumeIff(ticks);
    var k := FirstGrowth(ticks);
    assert bar.low <= ticks[k].price <= bar.high && bar.low <= ticks[|ticks| - 1].price <= bar.high;
  }

  lemma {:induction false} TurnoverConcat(a: seq<Trade>, b: seq<Trade>)
    ensures TurnoverOf(a + b) == TurnoverOf(a) + TurnoverOf(b)
    decreases |b|
  {
    if b == [] {
      assert a + b == a;
    } else {
      assert (a + b)[..|a + b| - 1] == a + b[..|b| - 1];
      TurnoverConcat(a, b[..|b| - 1]);
    }
  }

  /** A bar has all its ticks' turnover if and only if there was none before the first growth of volume:
      that much is overwritten. */
  lemma TurnoverKeptIff(bar: Bar, ticks: seq<Trade>)
    requires Describes(bar, ticks) && ticks != []
    ensures bar.turnover == TurnoverOf(ticks) <==> TurnoverOf(ticks[..FirstGrowth(ticks)]) == 0.0
  {
    var k := FirstGrowth(ticks);
    assert ticks == ticks[..k] + ticks[k..];
    TurnoverConcat(ticks[..k], ticks[k..]);
    hide FirstGrowth, TurnoverOf;
  }

  /** Two ticks, the first without volume: its turnover of 5 is not in the bar. */
  lemma TurnoverCanBeLost(bar: Bar)
    requires bar.volume == 0
    ensures var first, second := Trade(1.0, 0, 5.0), Trade(1.0, 1, 2.0);
      Absorb(Absorb(bar, first), second).turnover == 2.0 && TurnoverOf([first, second]) == 7.0
  {
    var first, second := Trade(1.0, 0, 5.0), Trade(1.0, 1, 2.0);
    VolumeSnoc([], first);
    VolumeSnoc([first], second);
    assert [] + [first] == [first] && [first] + [second] == [first, second];
  }
}
