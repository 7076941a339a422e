/** The bar generator object: all intervals fed by the same ticks and forced closes. */
module KLineGenerator {
  import opened KLineWindow
  import opened KLine

  /** What each interval has been fed, by interval: a repeated one is fed as often as it is listed. */
  type Feed = map<int, seq<LaneOp>>

  function Extended(feed: Feed, interval: int, op: LaneOp): Feed {
    feed[interval := (if interval in feed then feed[interval] else []) + [op]]
  }

  /** One operation fed to each listed interval in turn. */
  function Fed(intervals: seq<int>, feed: Feed, op: LaneOp): Feed {
    if intervals == [] then feed
    else Extended(Fed(intervals[..|intervals| - 1], feed, op), intervals[|intervals| - 1], op)
  }

  predicate AllPositive(intervals: seq<int>) {
    forall i :: 0 <= i < |intervals| ==> intervals[i] > 0
  }

  predicate BarIsDue(c: Clock, feed: Feed, interval: int, ts: int)
    requires interval > 0
  {
    interval in feed && ts >= LaneRun(c, interval, feed[interval]).bar.end
  }

  /** A forced close fed to each listed interval in turn, and the time reached: one second later for each
      bar that was due. */
  function Forced(c: Clock, intervals: seq<int>, feed: Feed, ts: int): (Feed, int)
    requires AllPositive(intervals)
  {
    if intervals == [] then (feed, ts)
    else
      var interval := intervals[|intervals| - 1];
      var (before, t) := Forced(c, intervals[..|intervals| - 1], feed, ts);
      (Extended(before, interval, Force(t)), if BarIsDue(c, before, interval, t) then t + 1000 else t)
  }

  function Copies(op: LaneOp, n: nat): seq<LaneOp> { seq(n, _ => op) }

  lemma CopiesNext(op: LaneOp, n: nat)
    ensures Copies(op, n + 1) == Copies(op, n) + [op]
  {
  }

  lemma CountNext(front: seq<int>, last: int, interval: int)
    ensures multiset(front + [last])[interval] == multiset(front)[interval] + if last == interval then 1 else 0
  {
  }

  /** Every interval gets the operation once for each time it is listed. */
  lemma {:induction false} FedMeans(intervals: seq<int>, feed: Feed, op: LaneOp, interval: int)
    requires interval in feed
    ensures interval in Fed(intervals, feed, op)
    ensures Fed(intervals, feed, op)[interval] == feed[interval] + Copies(op, multiset(intervals)[interval])
    decreases |intervals|
  {
    if intervals == [] {
      assert feed[interval] + Copies(op, 0) == feed[interval];
    } else {
      var front, last := intervals[..|intervals| - 1], intervals[|intervals| - 1];
      assert intervals == front + [last];
      FedMeans(front, feed, op, interval);
      CountNext(front, last, interval);
      var n := multiset(front)[interval];
      CopiesNext(op, n);
      assert feed[interval] + Copies(op, n) + [op] == feed[interval] + (Copies(op, n) + [op]);
      hide Copies;
    }
  }

  /** Only forced closes between two times. */
  ghost predicate ForcesWithin(ops: seq<LaneOp>, from: int, to: int) {
    forall i :: 0 <= i < |ops| ==> ops[i].Force? && from <= ops[i].ts <= to
  }

  /** Every interval gets one forced close for each time it is listed, none before the call's time. */
  lemma {:induction false} ForcedMeans(c: Clock, intervals: seq<int>, feed: Feed, ts: int, interval: int)
    requires AllPositive(intervals) && interval in feed
    ensures var (after, t) := Forced(c, intervals, feed, ts);
      && ts <= t <= ts + 1000 * |intervals|
      && interval in after && feed[interval] <= after[interval]
      && |after[interval]| == |feed[interval]| + multiset(intervals)[interval]
      && ForcesWithin(after[interval][|feed[interval]|..], ts, t)
    decreases |intervals|
  {
    if intervals != [] {
      var front, last := intervals[..|intervals| - 1], intervals[|intervals| - 1];
      assert intervals == front + [last];
      ForcedMeans(c, front, feed, ts, interval);
      CountNext(front, last, interval);
      hide BarIsDue;
    }
  }

  lemma {:induction false} RunNext(c: Clock, interval: int, ops: seq<LaneOp>, op: LaneOp)
    requires interval > 0
    ensures LaneRun(c, interval, ops + [op]) == LaneStep(c, interval, LaneRun(c, interval, ops), op)
  {
  }

  lemma PublishedNext(closed: seq<Done>, d: Done)
    ensures Published(closed + [d]) == if d.published then Published(closed) + [d.bar] else Published(closed)
  {
  }

  class Generator {
    const clock: Clock
    const intervals: seq<int>
    var current: map<int, Bar>
    var history: map<int, seq<Bar>>
    var lastVolume: int
    var lastTurnover: real
    ghost var feed: Feed

    ghost function LaneAt(interval: int): Lane
      requires interval > 0 && interval in feed
      reads this`feed
    {
      LaneRun(clock, interval, feed[interval])
    }

    /** The interval's current bar and history are those of the run it was fed. */
    ghost predicate Agrees(interval: int)
      requires interval > 0
      reads this`current, this`history, this`feed
    {
      && interval in feed && interval in current && interval in history
      && current[interval] == LaneAt(interval).bar && history[interval] == Published(LaneAt(interval).closed)
    }

    ghost predicate Valid()
      reads this`current, this`history, this`feed
    {
      AllPositive(intervals) && forall i :: 0 <= i < |intervals| ==> Agrees(intervals[i])
    }

    constructor (clock: Clock, intervals: seq<int>)
      requires AllPositive(intervals)
      ensures Valid() && this.clock == clock && this.intervals == intervals && lastVolume == 0 && lastTurnover == 0.0
      ensures forall i :: 0 <= i < |intervals| ==> feed[intervals[i]] == []
    {
      this.clock, this.intervals := clock, intervals;
      current := map k | k in intervals :: NO_BAR;
      history := map k | k in intervals :: [];
      lastVolume, lastTurnover := 0, 0.0;
      feed := map k | k in intervals :: [];
    }

    /** One interval's bar and history after a step of its lane. */
    method Store(interval: int, bar: Bar, ghost op: LaneOp, closed: seq<Bar>)
      requires interval > 0 && interval in history && interval in feed
      modifies this`current, this`history, this`feed
      ensures feed == Extended(old(feed), interval, op)
      ensures old(Agrees(interval))
              && Follows(old(LaneAt(interval)), interval, op, bar, old(history[interval]) + closed)
              ==> Agrees(interval)
      ensures forall k :: k > 0 && k != interval && old(Agrees(k)) ==> Agrees(k)
    {
      RunNext(clock, interval, feed[interval], op);
      current := current[interval := bar];
      history := history[interval := history[interval] + closed];
      feed := Extended(feed, interval, op);
    }

    /** The bar and the history are those after this step of the lane. */
    ghost predicate Follows(lane: Lane, interval: int, op: LaneOp, bar: Bar, published: seq<Bar>)
      requires interval > 0
    {
      var after := LaneStep(clock, interval, lane, op);
      bar == after.bar && published == Published(after.closed)
    }

    /** Feeds one tick to every interval. */
    method ProcessTick(section: Section, ts: int, price: real, volume: int, turnover: real)
      requires Valid()
      modifies this
      ensures Valid() && lastVolume == volume && lastTurnover == turnover
      ensures var tick := Tick(section, ts, Trade(price, volume - old(lastVolume), turnover - old(lastTurnover)));
        && feed == Fed(intervals, old(feed), tick)
        && forall i :: 0 <= i < |intervals| ==>
          feed[intervals[i]] == old(feed)[intervals[i]] + Copies(tick, multiset(intervals)[intervals[i]])
    {
      hide WindowStart, WindowEnd, Published, LaneRun, Fed, Copies;
      ghost var before := feed;
      ghost var tick := Tick(section, ts, Trade(price, volume - lastVolume, turnover - lastTurnover));
      NothingFed(before, tick);
      for i := 0 to |intervals|
        invariant Valid() && lastVolume == old(lastVolume) && lastTurnover == old(lastTurnover)
        invariant feed == Fed(intervals[..i], before, tick)
      {
        var interval := intervals[i];
        var trade := Trade(price, volume - lastVolume, turnover - lastTurnover);
        assert Agrees(interval);
        var (bar, effect) := TickBar(clock, interval, current[interval], section, ts, trade);
        var closed := [];
        ghost var lane := LaneAt(interval);
        match effect {
          case Closed(done, published) =>
            if published { closed := [done]; }
            PublishedNext(lane.closed, Done(done, lane.ticks + [trade], published));
          case ClosedThenOpened(late, published) =>
            if published { closed := [late]; }
            PublishedNext(lane.closed, Done(late, lane.ticks, published));
          case _ =>
        }
        Store(interval, bar, tick, closed);
        FedNext(intervals, i, before, tick);
      }
      assert intervals[..|intervals|] == intervals;
      forall i | 0 <= i < |intervals|
        ensures feed[intervals[i]] == before[intervals[i]] + Copies(tick, multiset(intervals)[intervals[i]])
      {
        FedMeans(intervals, before, tick, intervals[i]);
      }
      lastVolume := volume;
      lastTurnover := turnover;
    }

    /** Closes every bar that is due; each one closed moves the clock for those after it. */
    method CloseKLine(ts: int)
      requires Valid()
      modifies this
      ensures Valid() && lastVolume == old(lastVolume) && lastTurnover == old(lastTurnover)
      ensures feed == Forced(clock, intervals, old(feed), ts).0
    {
      hide WindowStart, WindowEnd, Published, LaneRun, Forced;
      ghost var before := feed;
      var timestamp := ts;
      NothingForced(clock, before, ts);
      for i := 0 to |intervals|
        invariant Valid() && lastVolume == old(lastVolume) && lastTurnover == old(lastTurnover)
        invariant (feed, timestamp) == Forced(clock, intervals[..i], before, ts)
      {
        var interval := intervals[i];
        assert Agrees(interval);
        var (bar, closes) := CloseBar(clock, interval, current[interval], timestamp);
        ghost var lane := LaneAt(interval);
        PublishedNext(lane.closed, Done(lane.bar, lane.ticks, true));
        ForcedNext(clock, intervals, i, before, ts);
        Store(interval, bar, Force(timestamp), if closes then [current[interval]] else []);
        if closes {
          timestamp := timestamp + 1000;
        }
      }
      assert intervals[..|intervals|] == intervals;
    }
  }

  lemma NothingFed(feed: Feed, op: LaneOp)
    ensures Fed([], feed, op) == feed
  {
  }

  lemma {:induction false} FedNext(intervals: seq<int>, i: nat, feed: Feed, op: LaneOp)
    requires i < |intervals|
    ensures Fed(intervals[..i + 1], feed, op) == Extended(Fed(intervals[..i], feed, op), intervals[i], op)
  {
    assert intervals[..i + 1][..i] == intervals[..i];
  }

  lemma NothingForced(c: Clock, feed: Feed, ts: int)
    ensures Forced(c, [], feed, ts) == (feed, ts)
  {
  }

  lemma {:induction false} ForcedNext(c: Clock, intervals: seq<int>, i: nat, feed: Feed, ts: int)
    requires i < |intervals| && AllPositive(intervals)
    ensures var (before, t) := Forced(c, intervals[..i], feed, ts);
      Forced(c, intervals[..i + 1], feed, ts) ==
        (Extended(before, intervals[i], Force(t)), if BarIsDue(c, before, intervals[i], t) then t + 1000 else t)
  {
    hide BarIsDue;
    assert intervals[..i + 1][..i] == intervals[..i];
  }
}
