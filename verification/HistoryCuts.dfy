/** Where a chart's bars begin: time cut at the multiples of the bar's length. */
module HistoryCuts {
  import opened Numbers
  import opened Wrappers
  import opened HistoryBars

  /** The length of a bar, in seconds. */
  function Width(interval: int): int { if interval == DAILY then 86400 else interval * 60 }

  lemma Within(stamp: nat, interval: int)
    requires interval in SUPPORTED
    ensures Bucket(stamp, interval) <= stamp < Bucket(stamp, interval) + Width(interval)
  {
    if interval == DAILY {
      DivMul(stamp, 86400);
    } else {
      DivMul(stamp, 60);
      BucketMinutes(stamp, interval);
      hide Bucket;
    }
  }

  /** The bars an hour holds, when they divide it. */
  lemma WholeHours(hour: int, q: int, interval: int, n: int)
    requires interval * n == 60
    ensures hour * 3600 + q * interval * 60 == (hour * n + q) * (interval * 60)
  {
    assert (hour * n + q) * (interval * 60) == hour * (interval * n) * 60 + q * interval * 60;
  }

  lemma Multiple(stamp: nat, interval: int) returns (k: int)
    requires interval in SUPPORTED
    ensures Bucket(stamp, interval) == k * Width(interval)
  {
    if interval == DAILY {
      k := stamp / 86400;
    } else {
      var n := if interval == 1 then 60 else if interval == 5 then 12 else if interval == 15 then 4
        else if interval == 30 then 2 else 1;
      var q := stamp / 60 % 60 / interval;
      WholeHours(stamp / 3600, q, interval, n);
      k := stamp / 3600 * n + q;
    }
  }

  /** A stamp's bar starts at the greatest multiple of the bar's length not after it. */
  lemma CutIsMultiple(stamp: nat, interval: int)
    requires interval in SUPPORTED
    ensures Bucket(stamp, interval) == stamp / Width(interval) * Width(interval)
    ensures forall k: int :: k * Width(interval) <= stamp ==> k * Width(interval) <= Bucket(stamp, interval)
  {
    var w := Width(interval);
    var k := Multiple(stamp, interval);
    Within(stamp, interval);
    hide Bucket, Width;
    QuotientIff(stamp, w, k);
    forall j: int | j * w <= stamp ensures j * w <= Bucket(stamp, interval) {
      if j > k { Ordered(k + 1, j, w); Distribute(k, w); } else { Ordered(j, k, w); }
    }
  }

  // ---------------------------------------------------------------- which rows share a bar

  /** The day of a stamp, or its minute's place among the intervals since the epoch. */
  function CutNumber(stamp: nat, interval: int): int
    requires interval > 0
  {
    if interval == DAILY then stamp / 86400 else stamp / 60 / interval
  }

  lemma Nested(x: nat, d: int)
    requires d > 0
    ensures x / 60 / d == x / (d * 60)
  {
    var q := x / 60 / d;
    DivMul(x, 60);
    DivMul(x / 60, d);
    assert q * (d * 60) == q * d * 60;
    QuotientIff(x, d * 60, q);
  }

  lemma CutNumbered(stamp: nat, interval: int)
    requires interval in SUPPORTED
    ensures Bucket(stamp, interval) == CutNumber(stamp, interval) * Width(interval)
  {
    CutIsMultiple(stamp, interval);
    if interval != DAILY { Nested(stamp, interval); }
    hide Bucket;
  }

  /** Two rows share a bar exactly when they are of one day or, intraday, of one interval of minutes. */
  lemma SameBarIff(s: nat, t: nat, interval: int)
    requires interval in SUPPORTED
    ensures Bucket(s, interval) == Bucket(t, interval) <==>
        if interval == DAILY then s / 86400 == t / 86400 else s / 60 / interval == t / 60 / interval
  {
    CutNumbered(s, interval);
    CutNumbered(t, interval);
    var i, j, w := CutNumber(s, interval), CutNumber(t, interval), Width(interval);
    assert CutNumber(s, interval) == if interval == DAILY then s / 86400 else s / 60 / interval;
    assert CutNumber(t, interval) == if interval == DAILY then t / 86400 else t / 60 / interval;
    hide Bucket, CutNumber, Width;
    if i < j { Ordered(i + 1, j, w); Distribute(i, w); }
    if j < i { Ordered(j + 1, i, w); Distribute(j, w); }
  }

  /** A bar's span of time holds the row. */
  predicate Holds(bar: Bar, row: Row, interval: int) {
    bar.bucket <= row.stamp < bar.bucket + Width(interval)
  }

  ghost predicate Distinct(bars: seq<Bar>) {
    forall i, j :: 0 <= i < j < |bars| ==> bars[i].bucket != bars[j].bucket
  }

  ghost predicate HasBar(bars: seq<Bar>, bucket: int) { exists x :: x in bars && x.bucket == bucket }

  lemma AddRowKeepsBars(bars: seq<Bar>, row: Row, interval: int)
    requires interval > 0 && Distinct(bars)
    ensures var after := AddRow(bars, row, interval);
      && Distinct(after) && HasBar(after, Bucket(row.stamp, interval))
      && forall b :: HasBar(bars, b) ==> HasBar(after, b)
  {
    hide Bucket;
    var k, after := Find(bars, Bucket(row.stamp, interval)), AddRow(bars, row, interval);
    assert after[k].bucket == Bucket(row.stamp, interval) && after[k] in after;
    forall b | HasBar(bars, b) ensures HasBar(after, b) {
      var i :| 0 <= i < |bars| && bars[i].bucket == b;
      assert after[i].bucket == b && after[i] in after;
    }
  }

  lemma {:induction false} EveryRowHasABar(rows: seq<Row>, interval: int)
    requires interval > 0
    ensures Distinct(Group(rows, interval))
    ensures forall r :: r in rows ==> HasBar(Group(rows, interval), Bucket(r.stamp, interval))
  {
    hide Bucket, AddRow, HasBar;
    if rows != [] {
      var front, row := rows[..|rows| - 1], rows[|rows| - 1];
      EveryRowHasABar(front, interval);
      AddRowKeepsBars(Group(front, interval), row, interval);
      assert forall r :: r in rows ==> r in front || r == row;
    }
  }

  /** A stamp within the span of another's bar is of the same bar. */
  lemma OneCut(s: nat, t: nat, interval: int)
    requires interval in SUPPORTED && Bucket(s, interval) <= t < Bucket(s, interval) + Width(interval)
    ensures Bucket(s, interval) == Bucket(t, interval)
  {
    var k := Multiple(s, interval);
    var j := Multiple(t, interval);
    Within(t, interval);
    var w := Width(interval);
    hide Bucket, Width;
    if k < j { Ordered(k + 1, j, w); Distribute(k, w); }
    if j < k { Ordered(j + 1, k, w); Distribute(j, w); }
  }

  /** A row is held by its bar. */
  lemma RowHeld(bars: seq<Bar>, row: Row, interval: int)
    requires interval in SUPPORTED && HasBar(bars, Bucket(row.stamp, interval))
    ensures exists x :: x in bars && Holds(x, row, interval)
  {
    Within(row.stamp, interval);
    hide Bucket, Width;
    var x :| x in bars && x.bucket == Bucket(row.stamp, interval);
    assert Holds(x, row, interval);
  }

  /** A bar that starts at a row's bucket holds that row, and only rows of that bucket. */
  lemma HoldsItsBucket(bar: Bar, row: Row, interval: int)
    requires interval in SUPPORTED && Bucket(row.stamp, interval) == bar.bucket
    ensures Holds(bar, row, interval)
    ensures forall r :: Holds(bar, r, interval) ==> Bucket(r.stamp, interval) == bar.bucket
  {
    Within(row.stamp, interval);
    forall r | Holds(bar, r, interval) ensures Bucket(r.stamp, interval) == bar.bucket {
      OneCut(row.stamp, r.stamp, interval);
    }
    hide Bucket, Width;
  }

  lemma BarHolds(rows: seq<Row>, bar: Bar, interval: int)
    requires interval in SUPPORTED && exists r :: r in rows && Bucket(r.stamp, interval) == bar.bucket
    ensures exists r :: r in rows && Holds(bar, r, interval)
    ensures forall r :: Holds(bar, r, interval) ==> Bucket(r.stamp, interval) == bar.bucket
  {
    hide Bucket, Holds;
    var r :| r in rows && Bucket(r.stamp, interval) == bar.bucket;
    HoldsItsBucket(bar, r, interval);
  }

  lemma EveryRowIsHeld(rows: seq<Row>, interval: int, row: Row)
    requires interval in SUPPORTED && row in rows
    ensures exists x :: x in Group(rows, interval) && Holds(x, row, interval)
  {
    hide Bucket, Group, Holds, HasBar;
    EveryRowHasABar(rows, interval);
    RowHeld(Group(rows, interval), row, interval);
  }

  lemma EveryBarHolds(rows: seq<Row>, interval: int, bar: Bar)
    requires interval in SUPPORTED && bar in Group(rows, interval)
    ensures exists r :: r in rows && Holds(bar, r, interval)
    ensures forall r :: Holds(bar, r, interval) ==> Bucket(r.stamp, interval) == bar.bucket
  {
    hide Bucket, Group, Holds;
    BucketsOfGroup(rows, interval);
    BarHolds(rows, bar, interval);
  }

  lemma NoneHeldTwice(rows: seq<Row>, interval: int, i: nat, j: nat, row: Row)
    requires interval in SUPPORTED && i < j < |Group(rows, interval)|
    ensures !(Holds(Group(rows, interval)[i], row, interval) && Holds(Group(rows, interval)[j], row, interval))
  {
    hide Bucket, Group, Holds;
    EveryRowHasABar(rows, interval);
    EveryBarHolds(rows, interval, Group(rows, interval)[i]);
    EveryBarHolds(rows, interval, Group(rows, interval)[j]);
  }

  /** The bars of any rows are the distinct cuts that hold one: every row lies in exactly one bar's span,
      and every bar's span holds a row. */
  lemma BarsAreTheCuts(rows: seq<Row>, interval: int)
    requires interval in SUPPORTED
    ensures var bars := Group(rows, interval);
      && (forall r :: r in rows ==> exists x :: x in bars && Holds(x, r, interval))
      && (forall i, j, r :: 0 <= i < j < |bars| && Holds(bars[i], r, interval) ==> !Holds(bars[j], r, interval))
      && (forall x :: x in bars ==> exists r :: r in rows && Holds(x, r, interval))
  {
    hide Group, Holds;
    var bars := Group(rows, interval);
    forall r | r in rows ensures exists x :: x in bars && Holds(x, r, interval) {
      EveryRowIsHeld(rows, interval, r);
    }
    forall i, j, r | 0 <= i < j < |bars| && Holds(bars[i], r, interval) ensures !Holds(bars[j], r, interval) {
      NoneHeldTwice(rows, interval, i, j, r);
    }
    forall x | x in bars ensures exists r :: r in rows && Holds(x, r, interval) {
      EveryBarHolds(rows, interval, x);
    }
  }

  /** Rows of one cut make one bar. */
  lemma OneCutOneBar(rows: seq<Row>, interval: int)
    requires interval in SUPPORTED && rows != []
    requires forall r :: r in rows ==> CutNumber(r.stamp, interval) == CutNumber(rows[0].stamp, interval)
    ensures var bars := Group(rows, interval);
      |bars| == 1 && bars[0].bucket == CutNumber(rows[0].stamp, interval) * Width(interval)
  {
    var bars := Group(rows, interval);
    forall r | r in rows
      ensures Bucket(r.stamp, interval) == CutNumber(rows[0].stamp, interval) * Width(interval)
    {
      CutNumbered(r.stamp, interval);
    }
    EveryRowHasABar(rows, interval);
    BucketsOfGroup(rows, interval);
    hide Bucket, CutNumber, Width, Group;
    assert rows[0] in rows && bars != [];
    assert forall i :: 0 <= i < |bars| ==> bars[i] in bars && bars[i].bucket == bars[0].bucket;
  }

  // ---------------------------------------------------------------- what is refused, and what is missing

  lemma OneMore(limit: int, rows: int)
    ensures limit * rows + rows == (limit + 1) * rows
  {
  }

  /** A chart is refused exactly for an interval not offered, or when one bar more than asked for needs more
      rows than may be fetched; otherwise it has at most as many bars as asked for. */
  lemma ChartIsGivenIff(table: seq<Row>, interval: int, limit: int, maxRaw: int)
    requires limit >= 1
    ensures var r := MinuteBars(table, interval, limit, maxRaw);
      var offered := interval == 1 || interval == 5 || interval == 15 || interval == 30 || interval == 60
        || interval == 1440;
      var needed := (limit + 1) * (if interval == 1440 then 240 else interval);
      if !offered then r == Err(UnsupportedInterval)
      else if needed > maxRaw then r == Err(TooManySourceBars(needed))
      else r.Ok? && |r.value| <= limit
  {
    hide Aggregate;
    OneMore(limit, RowsPerBar(interval));
    if interval in SUPPORTED {
      var fetched := Fetch(table, SourceLimit(interval, limit));
      AggregateBounded(fetched, interval, limit);
    }
  }

  lemma AggregateBounded(rows: seq<Row>, interval: int, limit: nat)
    requires interval > 0
    ensures |Aggregate(rows, interval, limit)| <= limit
  {
  }

  /** A missing volume or turnover adds nothing to a bar; a given one adds itself. */
  lemma MissingAddsNothing(bar: Bar, row: Row)
    ensures Grow(bar, row).volume - bar.volume == (match row.volume case None => 0.0 case Some(v) => v)
    ensures Grow(bar, row).turnover - bar.turnover == (match row.turnover case None => 0.0 case Some(v) => v)
  {
  }
}
