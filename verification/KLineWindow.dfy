/** Bar windows: where a timestamp's window starts and when its last slice is due. */
module KLineWindow {
  import opened Numbers

  const DAY: int := 86400

  /** Two days, in milliseconds: far enough from the epoch for every offset and interval. */
  const MIN_TIME: int := 172_800_000

  /** Local time has a fixed offset, in seconds, from UTC. A bar is due at the last of `slices` slices
      of its last second or, with none, `snapshot` seconds before its window ends. */
  datatype Clock = Clock(offset: int, slices: int, snapshot: int)

  const UINT16_MAX: int := 0xffff

  predicate Sane(c: Clock) {
    -DAY < c.offset < DAY && 0 <= c.slices <= UINT16_MAX && 0 <= c.snapshot <= UINT16_MAX
  }

  predicate DividesDay(interval: int) { interval > 0 && DAY % interval == 0 }

  /** The start of the window of a timestamp: its local day, cut at multiples of the interval. */
  function WindowStart(c: Clock, ts: int, interval: int): int
    requires interval > 0
  {
    var local := ts / 1000 + c.offset;
    var day, secondOfDay := local / DAY, local % DAY;
    var aligned := if interval >= DAY then 0 else (secondOfDay / interval) * interval;
    (day * DAY + aligned - c.offset) * 1000
  }

  /** How long after its start a window is due, in milliseconds. */
  function Span(c: Clock, interval: int): int {
    if c.slices > 0 then (interval - 1) * 1000 + (1000 / c.slices) * (c.slices - 1)
    else (interval - c.snapshot) * 1000
  }

  function WindowEnd(c: Clock, start: int, interval: int): int { start + Span(c, interval) }

  /** A window is not due before its last second. */
  predicate DueLate(c: Clock) { c.slices > 0 || c.snapshot <= 1 }

  /** No window is due at the start of a window. */
  predicate Lossless(c: Clock, interval: int)
    requires interval > 0
  {
    if c.slices > 0 then !(interval == 1 && !(2 <= c.slices <= 1000)) else c.snapshot % interval != 0
  }

  /** The start of the k-th window, counted from the local epoch. */
  function Slot(c: Clock, interval: int, k: int): int { (k * interval - c.offset) * 1000 }

  ghost predicate Aligned(c: Clock, interval: int, w: int) {
    exists k :: w == Slot(c, interval, k)
  }

  lemma Multiple(day: int, n: int, q: int, interval: int)
    ensures (day * n + q) * interval == day * (n * interval) + q * interval
  {
  }

  /** A timestamp lies in the window that starts at its window start. */
  lemma InItsWindow(c: Clock, ts: int, interval: int)
    requires DividesDay(interval)
    ensures Aligned(c, interval, WindowStart(c, ts, interval))
    ensures WindowStart(c, ts, interval) <= ts < WindowStart(c, ts, interval) + interval * 1000
  {
    var local := ts / 1000 + c.offset;
    var day, secondOfDay := local / DAY, local % DAY;
    var n, q := DAY / interval, secondOfDay / interval;
    Quotient(interval);
    DivMul(secondOfDay, interval);
    Multiple(day, n, q, interval);
    assert WindowStart(c, ts, interval) == Slot(c, interval, day * n + q);
  }

  lemma Quotient(interval: int)
    requires DividesDay(interval)
    ensures DAY / interval * interval == DAY && interval <= DAY
    ensures interval == DAY ==> DAY / interval == 1
  {
  }

  /** The window of a timestamp is the only one that contains it. */
  lemma OnlyWindow(c: Clock, ts: int, interval: int, w: int)
    requires DividesDay(interval) && Aligned(c, interval, w) && w <= ts < w + interval * 1000
    ensures WindowStart(c, ts, interval) == w
  {
    InItsWindow(c, ts, interval);
    var v := WindowStart(c, ts, interval);
    hide WindowStart, Aligned;
    if v < w { AlignedGap(c, interval, v, w); }
    if w < v { AlignedGap(c, interval, w, v); }
  }

  /** Two distinct window starts are at least one interval apart. */
  lemma AlignedGap(c: Clock, interval: int, a: int, b: int)
    requires interval > 0 && Aligned(c, interval, a) && Aligned(c, interval, b) && a < b
    ensures a + interval * 1000 <= b
  {
    var i :| a == Slot(c, interval, i);
    var j :| b == Slot(c, interval, j);
    if j <= i { Ordered(j, i, interval); }
    Ordered(i + 1, j, interval);
  }

  /** The last slice falls in the last second of the window; with 2 to 1000 slices after its start. */
  lemma LastSlice(c: Clock, start: int, interval: int)
    requires c.slices >= 1 && interval > 0
    ensures start + (interval - 1) * 1000 <= WindowEnd(c, start, interval) < start + interval * 1000
    ensures WindowEnd(c, start, interval) == start <==> interval == 1 && !(2 <= c.slices <= 1000)
  {
    SliceOffset(c.slices);
  }

  lemma SliceOffset(s: int)
    requires s >= 1
    ensures 0 <= (1000 / s) * (s - 1) < 1000
    ensures (1000 / s) * (s - 1) == 0 <==> !(2 <= s <= 1000)
  {
    DivMul(1000, s);
    var q := 1000 / s;
    assert q * (s - 1) == q * s - q;
    if 2 <= s <= 1000 {
      assert q >= 1;
      Ordered(1, q, s - 1);
    }
  }

  lemma SpanBounds(c: Clock, interval: int)
    requires Sane(c) && interval > 0
    ensures (1 - UINT16_MAX) * 1000 <= Span(c, interval) <= interval * 1000
    ensures DueLate(c) ==> (interval - 1) * 1000 <= Span(c, interval)
  {
    if c.slices > 0 { SliceOffset(c.slices); }
  }

  lemma MultipleIff(n: int, interval: int)
    requires interval > 0
    ensures n % interval == 0 <==> exists q: int :: n == q * interval
  {
    if n % interval == 0 { assert n == n / interval * interval; }
    if q: int :| n == q * interval { Remainder(q, interval); }
  }

  lemma Shifted(k: int, q: int, interval: int, offset: int)
    ensures ((k + 1 - q) * interval - offset) * 1000
            == (k * interval - offset) * 1000 + (interval - q * interval) * 1000
  {
  }

  /** A window is due at the start of a window, its own or another, exactly when the clock is not lossless. */
  lemma DueAlignedIff(c: Clock, interval: int, w: int)
    requires Sane(c) && interval > 0 && Aligned(c, interval, w)
    ensures Aligned(c, interval, WindowEnd(c, w, interval)) <==> !Lossless(c, interval)
  {
    var end := WindowEnd(c, w, interval);
    if c.slices > 0 {
      LastSlice(c, w, interval);
      if Aligned(c, interval, end) && end != w { AlignedGap(c, interval, w, end); }
    } else {
      MultipleIff(c.snapshot, interval);
      var k :| w == Slot(c, interval, k);
      if Aligned(c, interval, end) {
        var j :| end == Slot(c, interval, j);
        Shifted(k, k + 1 - j, interval, c.offset);
        assert c.snapshot == (k + 1 - j) * interval;
      }
      if q: int :| c.snapshot == q * interval {
        Shifted(k, q, interval, c.offset);
        assert end == Slot(c, interval, k + 1 - q);
      }
    }
  }
}
