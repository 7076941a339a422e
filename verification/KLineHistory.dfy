/** Which bars close, when, and which of them are published; and which bar a tick lands in. */
module KLineHistory {
  import opened KLineWindow
  import opened KLine

  // ---------------------------------------------------------------- when a bar is due

  /** The start of slice `k` of second `sec` of a window. */
  function SliceTime(c: Clock, start: int, sec: int, k: int): int
    requires c.slices > 0
  {
    start + sec * 1000 + k * (1000 / c.slices)
  }

  ghost predicate IsSliceTime(c: Clock, start: int, interval: int, time: int)
    requires c.slices > 0
  {
    exists sec, k :: 0 <= sec < interval && 0 <= k < c.slices && time == SliceTime(c, start, sec, k)
  }

  /** With slices, a window is due at the latest of them all; with none, the snapshot time before its end. */
  lemma DueTime(c: Clock, start: int, interval: int)
    requires Sane(c) && interval > 0
    ensures c.slices > 0 ==>
        && IsSliceTime(c, start, interval, WindowEnd(c, start, interval))
        && forall time :: IsSliceTime(c, start, interval, time) ==> time <= WindowEnd(c, start, interval)
    ensures c.slices == 0 ==> WindowEnd(c, start, interval) + c.snapshot * 1000 == start + interval * 1000
  {
    if c.slices > 0 {
      LastSliceIsDue(c, start, interval);
      hide WindowEnd, SliceTime;
      forall time | IsSliceTime(c, start, interval, time) ensures time <= WindowEnd(c, start, interval) {
        var sec, k :| 0 <= sec < interval && 0 <= k < c.slices && time == SliceTime(c, start, sec, k);
        SliceByDue(c, start, interval, sec, k);
      }
    }
  }

  lemma LastSliceIsDue(c: Clock, start: int, interval: int)
    requires c.slices > 0
    ensures WindowEnd(c, start, interval) == SliceTime(c, start, interval - 1, c.slices - 1)
  {
    Swapped(1000 / c.slices, c.slices - 1);
  }

  lemma SliceByDue(c: Clock, start: int, interval: int, sec: int, k: int)
    requires c.slices > 0 && sec < interval && k < c.slices
    ensures SliceTime(c, start, sec, k) <= WindowEnd(c, start, interval)
  {
    LastSliceIsDue(c, start, interval);
    Scaled(k, c.slices - 1, 1000 / c.slices);
    hide WindowEnd;
  }

  lemma Swapped(x: int, y: int)
    ensures x * y == y * x
  {
  }

  lemma Scaled(i: int, j: int, d: int)
    requires d >= 0 && i <= j
    ensures i * d <= j * d
  {
  }

  // ---------------------------------------------------------------- which operations close a bar

  /** A forced close closes a bar that is due; a tick does too, but not the untouched first bar, nor one
      that is due just as the tick's window starts. */
  predicate IsDue(c: Clock, interval: int, bar: Bar, op: LaneOp)
    requires interval > 0
  {
    bar.end <= op.ts && (op.Force? || (bar.end != 0 && bar.end != WindowStart(c, op.ts, interval)))
  }

  /** Forced closes are published; closes by a tick from the 59th second of the section's start up to that
      of its end. */
  predicate Publishes(op: LaneOp) {
    op.Force? || (59_000 <= op.ts - op.section.start && op.ts - op.section.end < 59_000)
  }

  /** A step closes the current bar exactly when it is due, and publishes it exactly when the step publishes. */
  lemma StepCloses(c: Clock, interval: int, lane: Lane, op: LaneOp)
    requires Sane(c) && DividesDay(interval) && Placed(c, interval, lane.bar) && Late(op)
    ensures var closed, closed' := lane.closed, LaneStep(c, interval, lane, op).closed;
      if !IsDue(c, interval, lane.bar, op) then closed' == closed
      else
        && |closed'| == |closed| + 1 && closed'[..|closed|] == closed
        && closed'[|closed|].bar.start == lane.bar.start
        && (closed'[|closed|].published <==> Publishes(op))
  {
    InItsWindow(c, op.ts, interval);
    WindowPlaced(c, interval, op.ts);
    hide WindowStart, WindowEnd, Aligned, Placed;
    if op.Tick? { SameWindow(lane.bar, op.trade); }
    hide Absorb, Restart;
  }

  /** The positions of the operations that close a bar. */
  function Closings(c: Clock, interval: int, ops: seq<LaneOp>): seq<nat>
    requires interval > 0
  {
    if ops == [] then []
    else
      var front := ops[..|ops| - 1];
      Closings(c, interval, front)
        + if IsDue(c, interval, LaneRun(c, interval, front).bar, ops[|ops| - 1]) then [|front|] else []
  }

  /** Closed bar by closed bar: which operation closed it, and whether that published it. */
  ghost predicate ClosedBy(closed: seq<Done>, ops: seq<LaneOp>, at: seq<nat>) {
    && |closed| == |at|
    && (forall i, j :: 0 <= i < j < |at| ==> at[i] < at[j])
    && (forall i :: 0 <= i < |at| ==> at[i] < |ops| && (closed[i].published <==> Publishes(ops[at[i]])))
  }

  lemma ClosedByMore(closed: seq<Done>, ops: seq<LaneOp>, at: seq<nat>, op: LaneOp)
    requires ClosedBy(closed, ops, at)
    ensures ClosedBy(closed, ops + [op], at)
  {
  }

  lemma ClosedByNext(closed: seq<Done>, ops: seq<LaneOp>, at: seq<nat>, op: LaneOp, d: Done)
    requires ClosedBy(closed, ops, at) && (d.published <==> Publishes(op))
    ensures ClosedBy(closed + [d], ops + [op], at + [|ops|])
  {
    hide Publishes;
  }

  /** In every run the bars closed are those that were due, in order, each published exactly when the
      operation that closed it was a forced close or a tick within the section. */
  lemma {:induction false} EveryRunPublishes(c: Clock, interval: int, ops: seq<LaneOp>)
    requires Sane(c) && DividesDay(interval) && AllLate(ops)
    ensures ClosedBy(LaneRun(c, interval, ops).closed, ops, Closings(c, interval, ops))
  {
    if ops != [] {
      var front, op := ops[..|ops| - 1], ops[|ops| - 1];
      assert ops == front + [op];
      EveryRunPublishes(c, interval, front);
      EveryRunKeepsInv(c, interval, front);
      var lane := LaneRun(c, interval, front);
      hide LaneStep, ClosedBy, Publishes, IsDue;
      StepCloses(c, interval, lane, op);
      if IsDue(c, interval, lane.bar, op) {
        var closed' := LaneStep(c, interval, lane, op).closed;
        assert closed' == lane.closed + [closed'[|lane.closed|]];
        ClosedByNext(lane.closed, front, Closings(c, interval, front), op, closed'[|lane.closed|]);
      } else {
        ClosedByMore(lane.closed, front, Closings(c, interval, front), op);
        assert Closings(c, interval, front) + [] == Closings(c, interval, front);
      }
    }
  }

  // ---------------------------------------------------------------- in and out of the section

  ghost predicate AllPublish(ops: seq<LaneOp>) {
    forall i :: 0 <= i < |ops| ==> Publishes(ops[i])
  }

  ghost predicate TicksOutside(ops: seq<LaneOp>) {
    forall i :: 0 <= i < |ops| && ops[i].Tick? ==>
        ops[i].ts < ops[i].section.start + 59_000 || ops[i].section.end + 59_000 <= ops[i].ts
  }

  function Bars(closed: seq<Done>): seq<Bar> { seq(|closed|, i requires 0 <= i < |closed| => closed[i].bar) }

  lemma {:induction false} AllPublished(closed: seq<Done>)
    requires forall i :: 0 <= i < |closed| ==> closed[i].published
    ensures Published(closed) == Bars(closed) && VolumeClosed(closed, false) == 0
  {
    if closed != [] {
      var front := closed[..|closed| - 1];
      AllPublished(front);
      assert Bars(closed) == Bars(front) + [closed[|closed| - 1].bar];
    }
  }

  /** If every tick is within the section, every bar closed is published, and published plus current volume
      is the whole. */
  lemma InsideNothingIsDiscarded(c: Clock, interval: int, ops: seq<LaneOp>)
    requires Sane(c) && DividesDay(interval) && AllLate(ops) && AllPublish(ops)
    ensures var lane := LaneRun(c, interval, ops);
      && Published(lane.closed) == Bars(lane.closed)
      && (Lossless(c, interval) ==> VolumeClosed(lane.closed, true) + lane.bar.volume == VolumeOf(Ticks(ops)))
  {
    hide LaneRun, Closings, Published, Bars;
    EveryRunPublishes(c, interval, ops);
    AllPublished(LaneRun(c, interval, ops).closed);
    if Lossless(c, interval) { VolumeIsConserved(c, interval, ops); }
  }

  /** If every tick is outside, the bars published are exactly those closed by force. */
  lemma OutsideOnlyForcedArePublished(c: Clock, interval: int, ops: seq<LaneOp>, i: nat)
    requires Sane(c) && DividesDay(interval) && AllLate(ops) && TicksOutside(ops)
    requires i < |Closings(c, interval, ops)|
    ensures var closed, at := LaneRun(c, interval, ops).closed, Closings(c, interval, ops);
      |closed| == |at| && at[i] < |ops| && (closed[i].published <==> ops[at[i]].Force?)
  {
    hide LaneRun, Closings;
    EveryRunPublishes(c, interval, ops);
  }

  lemma {:induction false} NothingPublished(closed: seq<Done>)
    requires forall i :: 0 <= i < |closed| ==> !closed[i].published
    ensures Published(closed) == []
  {
    if closed != [] { NothingPublished(closed[..|closed| - 1]); }
  }

  /** Ticks outside the section alone publish nothing. */
  lemma OutsideNothingIsPublished(c: Clock, interval: int, ops: seq<LaneOp>)
    requires Sane(c) && DividesDay(interval) && AllLate(ops) && TicksOutside(ops)
    requires forall i :: 0 <= i < |ops| ==> ops[i].Tick?
    ensures Published(LaneRun(c, interval, ops).closed) == []
  {
    hide LaneRun, Closings, Published;
    EveryRunPublishes(c, interval, ops);
    NothingPublished(LaneRun(c, interval, ops).closed);
  }

  // ---------------------------------------------------------------- cumulative counters

  /** The last reading of a counter that starts at zero. */
  function LastVolume(readings: seq<int>): int { if readings == [] then 0 else readings[|readings| - 1] }

  function LastTurnover(readings: seq<real>): real { if readings == [] then 0.0 else readings[|readings| - 1] }

  /** The ticks carry the changes of a cumulative volume and turnover that start at zero and never fall. */
  ghost predicate Rising(ticks: seq<Trade>, volumes: seq<int>, turnovers: seq<real>) {
    && |ticks| == |volumes| == |turnovers|
    && (ticks != [] ==>
          var n := |ticks| - 1;
          && ticks[n].volume == volumes[n] - LastVolume(volumes[..n]) >= 0
          && ticks[n].turnover == turnovers[n] - LastTurnover(turnovers[..n]) >= 0.0
          && Rising(ticks[..n], volumes[..n], turnovers[..n]))
  }

  /** Then the ticks' totals are the last readings. */
  lemma {:induction false} RisingTotals(ticks: seq<Trade>, volumes: seq<int>, turnovers: seq<real>)
    requires Rising(ticks, volumes, turnovers)
    ensures VolumeOf(ticks) == LastVolume(volumes) && TurnoverOf(ticks) == LastTurnover(turnovers)
  {
    if ticks != [] {
      var n := |ticks| - 1;
      RisingTotals(ticks[..n], volumes[..n], turnovers[..n]);
    }
  }

  /** A fall of the counters, a new day's reset, adds nothing. */
  lemma FallsAddNothing(ticks: seq<Trade>, t: Trade)
    requires t.volume <= 0 && t.turnover <= 0.0
    ensures VolumeOf(ticks + [t]) == VolumeOf(ticks) && TurnoverOf(ticks + [t]) == TurnoverOf(ticks)
  {
    VolumeSnoc(ticks, t);
  }

  /** With ticks in the section and counters that never fall, published and current volume make up the last reading. */
  lemma InsideVolumeIsTheReading(c: Clock, interval: int, ops: seq<LaneOp>, volumes: seq<int>, turnovers: seq<real>)
    requires Sane(c) && DividesDay(interval) && AllLate(ops) && AllPublish(ops) && Lossless(c, interval)
    requires Rising(Ticks(ops), volumes, turnovers)
    ensures var lane := LaneRun(c, interval, ops);
      VolumeClosed(lane.closed, true) + lane.bar.volume == LastVolume(volumes)
  {
    hide LaneRun, Ticks, VolumeClosed;
    InsideNothingIsDiscarded(c, interval, ops);
    RisingTotals(Ticks(ops), volumes, turnovers);
  }

  // ---------------------------------------------------------------- where a tick lands

  ghost predicate InOrder(ops: seq<LaneOp>) {
    forall i, j :: 0 <= i < j < |ops| ==> ops[i].ts <= ops[j].ts
  }

  /** The current bar starts at most a second after the last operation. */
  ghost predicate StartsBy(bar: Bar, ts: int) { bar.start <= ts + 1000 }

  lemma StepStartsBy(c: Clock, interval: int, lane: Lane, op: LaneOp, before: int)
    requires Sane(c) && DividesDay(interval) && Late(op) && StartsBy(lane.bar, before) && before <= op.ts
    ensures StartsBy(LaneStep(c, interval, lane, op).bar, op.ts)
  {
    InItsWindow(c, op.ts, interval);
    InItsWindow(c, op.ts + 1000, interval);
    hide WindowStart, WindowEnd, Aligned;
    if op.Tick? { SameWindow(lane.bar, op.trade); }
  }

  lemma {:induction false} EveryRunStartsBy(c: Clock, interval: int, ops: seq<LaneOp>, ts: int)
    requires Sane(c) && DividesDay(interval) && AllLate(ops) && InOrder(ops)
    requires ts >= 0 && (ops != [] ==> ops[|ops| - 1].ts <= ts)
    ensures StartsBy(LaneRun(c, interval, ops).bar, ts)
  {
    if ops != [] {
      var front, op := ops[..|ops| - 1], ops[|ops| - 1];
      EveryRunStartsBy(c, interval, front, op.ts);
      StepStartsBy(c, interval, LaneRun(c, interval, front), op, op.ts);
      hide LaneStep;
    }
  }

  /** The bar that took the last tick: the current one, unless the tick closed it. */
  function Taker(lane: Lane): Done
    requires lane.ticks == [] ==> lane.closed != []
  {
    if lane.ticks != [] then Done(lane.bar, lane.ticks, false) else lane.closed[|lane.closed| - 1]
  }

  /** The tick is the last of its bar, whose window holds its time or starts within a second after it. */
  ghost predicate LandsOnTime(lane: Lane, interval: int, ts: int, t: Trade) {
    && (lane.ticks == [] ==> lane.closed != [])
    && var d := Taker(lane);
      && d.ticks != [] && d.ticks[|d.ticks| - 1] == t
      && d.bar.start - 1000 <= ts < d.bar.start + interval * 1000
  }

  /** A bar that is not over by the start of a window is of that window or a later one. */
  lemma NotOver(c: Clock, interval: int, bar: Bar, ts: int)
    requires Sane(c) && DividesDay(interval) && Placed(c, interval, bar) && ts >= MIN_TIME
    requires bar.end > WindowStart(c, ts, interval)
    ensures ts < bar.start + interval * 1000
  {
    hide WindowEnd, WindowStart, Aligned;
    WindowPlaced(c, interval, ts);
    InItsWindow(c, ts, interval);
    PlacedFacts(c, interval, bar);
    EndsWithin(c, interval, bar.start);
    if bar.start < WindowStart(c, ts, interval) {
      AlignedGap(c, interval, bar.start, WindowStart(c, ts, interval));
    }
  }

  lemma EndsWithin(c: Clock, interval: int, start: int)
    requires Sane(c) && interval > 0
    ensures WindowEnd(c, start, interval) <= start + interval * 1000
  {
    SpanBounds(c, interval);
  }

  lemma TickLands(c: Clock, interval: int, lane: Lane, op: LaneOp)
    requires Sane(c) && DividesDay(interval) && Placed(c, interval, lane.bar) && Late(op) && op.Tick?
    requires StartsBy(lane.bar, op.ts) && Lossless(c, interval) && (lane.bar.end == 0 ==> lane.ticks == [])
    ensures LandsOnTime(LaneStep(c, interval, lane, op), interval, op.ts, op.trade)
  {
    hide WindowStart, WindowEnd, Aligned, Placed, Lossless;
    InItsWindow(c, op.ts, interval);
    DroppedIff(c, interval, lane.bar, op.section, op.ts, op.trade);
    SameWindow(lane.bar, op.trade);
    if lane.bar.end > WindowStart(c, op.ts, interval) { NotOver(c, interval, lane.bar, op.ts); }
    hide Absorb;
  }

  /** With operations in time order every tick lands in the bar of its window, or of the next one when the
      window closed within its last second. */
  lemma EveryTickLandsOnTime(c: Clock, interval: int, front: seq<LaneOp>, op: LaneOp)
    requires Sane(c) && DividesDay(interval) && Lossless(c, interval)
    requires AllLate(front + [op]) && InOrder(front + [op]) && op.Tick?
    ensures LandsOnTime(LaneRun(c, interval, front + [op]), interval, op.ts, op.trade)
  {
    hide Lossless, LaneRun, LandsOnTime, LaneStep;
    var ops := front + [op];
    assert forall i :: 0 <= i < |front| ==> ops[i] == front[i];
    assert ops[|front|] == op;
    EveryRunStartsBy(c, interval, front, op.ts);
    EveryRunKeepsInv(c, interval, front);
    LaneRunSnoc(c, interval, front, op);
    TickLands(c, interval, LaneRun(c, interval, front), op);
  }
}
