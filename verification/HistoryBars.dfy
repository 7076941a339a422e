/** Charts from one-minute rows: their bars, and what each bar says about its rows. */
module HistoryBars {
  import opened Numbers
  import opened Wrappers

  /** A stored row; its stamp in seconds of local time, its numbers possibly missing. */
  datatype Row = Row(stamp: nat, open: Option<real>, high: Option<real>, low: Option<real>, close: Option<real>,
                     volume: Option<real>, turnover: Option<real>)

  datatype Bar = Bar(bucket: int, open: real, high: real, low: real, close: real, volume: real, turnover: real)

  datatype Refusal = UnsupportedInterval | TooManySourceBars(required: int)

  const DAILY: int := 1440
  const SUPPORTED: set<int> := {1, 5, 15, 30, 60, DAILY}

  function Number(value: Option<real>): real { if value.Some? then value.value else 0.0 }

  /** The start of the bar a stamp belongs to: its day, or its minute of the hour cut at the interval. */
  function Bucket(stamp: nat, interval: int): int
    requires interval > 0
  {
    if interval == DAILY then stamp / 86400 * 86400
    else stamp / 3600 * 3600 + (stamp / 60 % 60) / interval * interval * 60
  }

  /** The rows of one bar that the fetch allows for. */
  function RowsPerBar(interval: int): int { if interval == DAILY then 240 else interval }

  function SourceLimit(interval: int, limit: int): int { limit * RowsPerBar(interval) + RowsPerBar(interval) }

  // ---------------------------------------------------------------- grouping

  function NewBar(row: Row, interval: int): Bar
    requires interval > 0
  {
    Bar(Bucket(row.stamp, interval), Number(row.open), Number(row.high), Number(row.low), Number(row.close),
        Number(row.volume), Number(row.turnover))
  }

  function Grow(bar: Bar, row: Row): Bar {
    bar.(high := MaxReal(bar.high, Number(row.high)), low := MinReal(bar.low, Number(row.low)),
         close := Number(row.close),
         volume := bar.volume + Number(row.volume), turnover := bar.turnover + Number(row.turnover))
  }

  /** The bar of a bucket, its index, or the length if there is none. */
  function Find(bars: seq<Bar>, bucket: int): (k: nat)
    ensures k <= |bars| && (k < |bars| ==> bars[k].bucket == bucket)
    ensures forall i :: 0 <= i < k ==> bars[i].bucket != bucket
  {
    if bars == [] || bars[0].bucket == bucket then 0 else 1 + Find(bars[1..], bucket)
  }

  function AddRow(bars: seq<Bar>, row: Row, interval: int): seq<Bar>
    requires interval > 0
  {
    var k := Find(bars, Bucket(row.stamp, interval));
    if k < |bars| then bars[k := Grow(bars[k], row)] else bars + [NewBar(row, interval)]
  }

  /** The bars of rows given oldest first, in order of first appearance. */
  function Group(rows: seq<Row>, interval: int): seq<Bar>
    requires interval > 0
  {
    if rows == [] then [] else AddRow(Group(rows[..|rows| - 1], interval), rows[|rows| - 1], interval)
  }

  function Reversed(rows: seq<Row>): (r: seq<Row>)
    ensures |r| == |rows| && forall i :: 0 <= i < |rows| ==> r[i] == rows[|rows| - 1 - i]
  {
    seq(|rows|, i requires 0 <= i < |rows| => rows[|rows| - 1 - i])
  }

  function Last<T>(s: seq<T>, n: nat): seq<T> { if n < |s| then s[|s| - n..] else s }

  /** The last bars of rows given newest first. */
  function Aggregate(rows: seq<Row>, interval: int, limit: nat): seq<Bar>
    requires interval > 0
  {
    Last(Group(Reversed(rows), interval), limit)
  }

  /** The newest rows of a table kept newest first. */
  function Fetch(table: seq<Row>, limit: int): seq<Row>
    requires limit >= 0
  {
    table[..Min(limit, |table|)]
  }

  function MinuteBars(table: seq<Row>, interval: int, limit: int, maxRaw: int): Result<seq<Bar>, Refusal>
    requires limit >= 1
  {
    if interval !in SUPPORTED then Err(UnsupportedInterval)
    else if SourceLimit(interval, limit) > maxRaw then Err(TooManySourceBars(SourceLimit(interval, limit)))
    else Ok(Aggregate(Fetch(table, SourceLimit(interval, limit)), interval, limit))
  }

  // ---------------------------------------------------------------- the dictionary loop

  ghost predicate Mirrors(grouped: map<int, Bar>, order: seq<int>, bars: seq<Bar>) {
    && |order| == |bars| && (forall k :: k in grouped <==> k in order)
    && (forall i :: 0 <= i < |bars| ==>
          order[i] == bars[i].bucket && order[i] in grouped && grouped[order[i]] == bars[i])
    && (forall i, j :: 0 <= i < j < |order| ==> order[i] != order[j])
  }

  lemma MirrorsAddRow(grouped: map<int, Bar>, order: seq<int>, bars: seq<Bar>, row: Row, interval: int)
    requires interval > 0 && Mirrors(grouped, order, bars)
    ensures var bucket := Bucket(row.stamp, interval);
      if bucket in grouped
      then Mirrors(grouped[bucket := Grow(grouped[bucket], row)], order, AddRow(bars, row, interval))
      else Mirrors(grouped[bucket := NewBar(row, interval)], order + [bucket], AddRow(bars, row, interval))
  {
  }

  /** Groups in one pass over the rows, oldest first, with a dictionary that remembers insertion order. */
  method AggregateBars(rows: seq<Row>, interval: int, limit: nat) returns (bars: seq<Bar>)
    requires interval > 0
    ensures bars == Aggregate(rows, interval, limit)
  {
    hide Bucket, Grow, AddRow, NewBar;
    var grouped: map<int, Bar>, order: seq<int> := map[], [];
    var ascending := Reversed(rows);
    for i := 0 to |rows|
      invariant Mirrors(grouped, order, Group(ascending[..i], interval))
    {
      var row := ascending[i];
      var bucket := Bucket(row.stamp, interval);
      MirrorsAddRow(grouped, order, Group(ascending[..i], interval), row, interval);
      assert ascending[..i + 1][..i] == ascending[..i];
      if bucket in grouped {
        grouped := grouped[bucket := Grow(grouped[bucket], row)];
      } else {
        grouped := grouped[bucket := NewBar(row, interval)];
        order := order + [bucket];
      }
    }
    assert ascending[..|rows|] == ascending;
    ghost var all := Group(ascending, interval);
    var values := seq(|order|, i requires 0 <= i < |order| && order[i] in grouped => grouped[order[i]]);
    assert values == all;
    bars := Last(values, limit);
  }

  // ---------------------------------------------------------------- bars after a bucket

  /** The bars later than a bucket. */
  function After(bars: seq<Bar>, b: int): (r: seq<Bar>)
    ensures |r| <= |bars|
    ensures forall x :: x in r <==> x in bars && x.bucket > b
  {
    if bars == [] then []
    else After(bars[..|bars| - 1], b) + if bars[|bars| - 1].bucket > b then [bars[|bars| - 1]] else []
  }

  ghost predicate Ascending(bars: seq<Bar>) {
    forall i, j :: 0 <= i < j < |bars| ==> bars[i].bucket < bars[j].bucket
  }

  ghost predicate Sorted(rows: seq<Row>, interval: int)
    requires interval > 0
  {
    forall i, j :: 0 <= i < j < |rows| ==> Bucket(rows[i].stamp, interval) <= Bucket(rows[j].stamp, interval)
  }

  /** Rows in time order make bars in time order, the last one the last row's. */
  lemma {:induction false} GroupAscends(rows: seq<Row>, interval: int)
    requires interval > 0 && Sorted(rows, interval)
    ensures Ascending(Group(rows, interval)) && (rows == [] <==> Group(rows, interval) == [])
    ensures rows != [] ==>
        Group(rows, interval)[|Group(rows, interval)| - 1].bucket == Bucket(rows[|rows| - 1].stamp, interval)
  {
    hide Bucket;
    if rows != [] {
      var front, row := rows[..|rows| - 1], rows[|rows| - 1];
      GroupAscends(front, interval);
      if front != [] { assert Bucket(front[|front| - 1].stamp, interval) <= Bucket(row.stamp, interval); }
      AddRowAtEnd(Group(front, interval), row, interval);
    }
  }

  /** A row no earlier than the last bar joins it or follows it. */
  lemma AddRowAtEnd(bars: seq<Bar>, row: Row, interval: int)
    requires interval > 0 && Ascending(bars) && (bars != [] ==> bars[|bars| - 1].bucket <= Bucket(row.stamp, interval))
    ensures AddRow(bars, row, interval) ==
      if bars != [] && bars[|bars| - 1].bucket == Bucket(row.stamp, interval)
      then bars[..|bars| - 1] + [Grow(bars[|bars| - 1], row)] else bars + [NewBar(row, interval)]
    ensures Ascending(AddRow(bars, row, interval))
  {
  }

  lemma AfterSnoc(bars: seq<Bar>, bar: Bar, b: int)
    ensures After(bars + [bar], b) == After(bars, b) + if bar.bucket > b then [bar] else []
  {
  }

  lemma AllEarly(bars: seq<Bar>, b: int)
    requires forall x :: x in bars ==> x.bucket <= b
    ensures After(bars, b) == []
  {
  }

  lemma EarlyLast(bars: seq<Bar>, b: int)
    requires Ascending(bars) && bars != [] && bars[|bars| - 1].bucket <= b
    ensures After(bars, b) == []
  {
  }

  lemma TailSnoc<T>(front: seq<T>, last: T, k: nat)
    requires k <= |front|
    ensures (front + [last])[|front| - k..] == front[|front| - k..] + [last]
  {
  }

  /** The bars after a bucket are a tail of the bars. */
  lemma {:induction false} AfterIsTail(bars: seq<Bar>, b: int)
    requires Ascending(bars)
    ensures After(bars, b) == bars[|bars| - |After(bars, b)|..]
    decreases |bars|
  {
    hide After;
    if bars == [] {
      AllEarly(bars, b);
    } else {
      var front, last := bars[..|bars| - 1], bars[|bars| - 1];
      assert bars == front + [last];
      AfterIsTail(front, b);
      hide Ascending;
      AfterSnoc(front, last, b);
      if last.bucket <= b { EarlyLast(bars, b); } else { TailSnoc(front, last, |After(front, b)|); }
    }
  }

  lemma AfterEndsAlike(bars: seq<Bar>, b: int)
    requires Ascending(bars)
    ensures Ascending(After(bars, b))
    ensures bars != [] && bars[|bars| - 1].bucket <= b ==> After(bars, b) == []
    ensures bars != [] && bars[|bars| - 1].bucket > b ==>
      After(bars, b) != [] && After(bars, b)[|After(bars, b)| - 1] == bars[|bars| - 1]
  {
  }

  /** Growing the last bar commutes with cutting off early ones. */
  lemma AfterGrow(front: seq<Bar>, last: Bar, row: Row, b: int)
    requires last.bucket > b
    ensures var tail := After(front + [last], b);
      tail != [] && After(front + [Grow(last, row)], b) == tail[..|tail| - 1] + [Grow(tail[|tail| - 1], row)]
  {
  }

  /** Cutting off early bars commutes with adding a row at the end. */
  lemma AfterAddRow(bars: seq<Bar>, row: Row, interval: int, b: int)
    requires interval > 0 && Ascending(bars) && (bars != [] ==> bars[|bars| - 1].bucket <= Bucket(row.stamp, interval))
    ensures After(AddRow(bars, row, interval), b) ==
      if Bucket(row.stamp, interval) > b then AddRow(After(bars, b), row, interval) else After(bars, b)
  {
    hide Bucket, AddRow, After, Ascending;
    AddRowAtEnd(bars, row, interval);
    AfterEndsAlike(bars, b);
    AfterSnoc(bars, NewBar(row, interval), b);
    if bars != [] {
      var front, last := bars[..|bars| - 1], bars[|bars| - 1];
      assert bars == front + [last];
      AfterSnoc(front, last, b);
      AfterSnoc(front, Grow(last, row), b);
      if last.bucket > b { AfterGrow(front, last, row, b); }
    }
    AddRowAtEnd(After(bars, b), row, interval);
  }

  lemma GroupSnoc(rows: seq<Row>, row: Row, interval: int)
    requires interval > 0
    ensures Group(rows + [row], interval) == AddRow(Group(rows, interval), row, interval)
  {
  }

  /** What comes after the boundary is grouped alike with and without the rows before it. */
  lemma {:induction false} AfterBoundary(p: seq<Row>, q: seq<Row>, interval: int, b: int)
    requires interval > 0 && Sorted(p + q, interval) && forall r :: r in p ==> Bucket(r.stamp, interval) <= b
    ensures After(Group(p + q, interval), b) == After(Group(q, interval), b)
    decreases |q|
  {
    hide Bucket, AddRow, After, Group;
    if q == [] {
      assert p + q == p;
      NothingAfter(p, interval, b);
      NothingAfter(q, interval, b);
    } else {
      var front, row := q[..|q| - 1], q[|q| - 1];
      assert q == front + [row] && p + q == (p + front) + [row];
      SortedParts(p, front, row, interval);
      GroupSnoc(p + front, row, interval);
      GroupSnoc(front, row, interval);
      hide Sorted;
      AfterBoundary(p, front, interval, b);
      GroupAscends(p + front, interval);
      GroupAscends(front, interval);
      AfterAddRow(Group(p + front, interval), row, interval, b);
      AfterAddRow(Group(front, interval), row, interval, b);
    }
  }

  lemma SortedParts(p: seq<Row>, front: seq<Row>, row: Row, interval: int)
    requires interval > 0 && Sorted(p + (front + [row]), interval)
    ensures Sorted(p + front, interval) && Sorted(front, interval)
    ensures forall r :: r in p + front ==> Bucket(r.stamp, interval) <= Bucket(row.stamp, interval)
  {
    hide Bucket;
    var all, part := p + (front + [row]), p + front;
    assert forall i :: 0 <= i < |part| ==> part[i] == all[i];
    assert forall i :: 0 <= i < |front| ==> front[i] == all[|p| + i];
    assert all[|part|] == row;
  }

  lemma NothingAfter(rows: seq<Row>, interval: int, b: int)
    requires interval > 0 && forall r :: r in rows ==> Bucket(r.stamp, interval) <= b
    ensures After(Group(rows, interval), b) == []
  {
    BucketsOfGroup(rows, interval);
    AllEarly(Group(rows, interval), b);
  }

  lemma {:induction false} BucketsOfGroup(rows: seq<Row>, interval: int)
    requires interval > 0
    ensures forall x :: x in Group(rows, interval) ==> exists r :: r in rows && Bucket(r.stamp, interval) == x.bucket
  {
    hide Bucket;
    if rows != [] {
      var front, row := rows[..|rows| - 1], rows[|rows| - 1];
      BucketsOfGroup(front, interval);
      var before := Group(front, interval);
      forall x | x in Group(rows, interval) ensures exists r :: r in rows && Bucket(r.stamp, interval) == x.bucket {
        assert row in rows;
        if x in before {
          var r :| r in front && Bucket(r.stamp, interval) == x.bucket;
          assert r in rows;
        }
      }
    }
  }

  // ---------------------------------------------------------------- one row a minute

  lemma Monotone(cap: int, x: int, y: int)
    requires cap >= 0 && x <= y
    ensures cap * x <= cap * y
  {
  }

  /** Every row's minute is later than the row's after it: newest first, one row a minute. */
  ghost predicate NewestFirst(table: seq<Row>) {
    forall i, j :: 0 <= i < j < |table| ==> table[i].stamp / 60 > table[j].stamp / 60
  }

  ghost predicate OneRowAMinute(rows: seq<Row>) {
    forall i, j :: 0 <= i < j < |rows| ==> rows[i].stamp / 60 < rows[j].stamp / 60
  }

  lemma FloorMonotone(x: int, y: int, d: int)
    requires d > 0 && x <= y
    ensures x / d * d <= y / d * d
  {
    DivMul(x, d);
    DivMul(y, d);
    if y / d < x / d { Monotone(d, y / d + 1, x / d); }
    if x / d <= y / d { Monotone(d, x / d, y / d); }
  }

  lemma MinuteOfHour(stamp: nat)
    ensures stamp / 60 == stamp / 3600 * 60 + stamp / 60 % 60
  {
  }

  lemma DayOfMinute(stamp: nat)
    ensures stamp / 86400 == stamp / 60 / 1440
  {
  }

  /** An intraday bucket is a whole number of minutes, and the next one follows at once. */
  lemma BucketMinutes(stamp: nat, interval: int)
    requires interval > 0 && interval != DAILY
    ensures Bucket(stamp, interval) <= stamp / 60 * 60 < Bucket(stamp, interval) + interval * 60
    ensures Bucket(stamp, interval) % 60 == 0
  {
    MinuteOfHour(stamp);
    DivMul(stamp / 60 % 60, interval);
    var whole := stamp / 60 % 60 / interval * interval;
    assert Bucket(stamp, interval) == 60 * (stamp / 3600 * 60 + whole);
  }

  lemma BucketsMonotone(s: nat, t: nat, interval: int)
    requires interval > 0 && s / 60 <= t / 60
    ensures Bucket(s, interval) <= Bucket(t, interval)
  {
    MinuteOfHour(s);
    MinuteOfHour(t);
    DayOfMinute(s);
    DayOfMinute(t);
    if interval != DAILY {
      DivMul(s / 60 % 60, interval);
      DivMul(t / 60 % 60, interval);
      if s / 3600 == t / 3600 { FloorMonotone(s / 60 % 60, t / 60 % 60, interval); }
      FloorNonNegative(t / 60 % 60, interval);
    }
  }

  lemma FloorNonNegative(x: nat, d: int)
    requires d > 0
    ensures x / d * d >= 0
  {
  }

  lemma SortedByMinute(rows: seq<Row>, interval: int)
    requires interval > 0 && OneRowAMinute(rows)
    ensures Sorted(rows, interval)
  {
    forall i, j | 0 <= i < j < |rows| ensures Bucket(rows[i].stamp, interval) <= Bucket(rows[j].stamp, interval) {
      BucketsMonotone(rows[i].stamp, rows[j].stamp, interval);
    }
    hide Bucket;
  }

  // ---------------------------------------------------------------- what a bar says

  /** The rows of a bucket, in order. */
  function Members(rows: seq<Row>, interval: int, b: int): (r: seq<Row>)
    requires interval > 0
    ensures forall x :: x in r <==> x in rows && Bucket(x.stamp, interval) == b
  {
    if rows == [] then []
    else
      var last := rows[|rows| - 1];
      Members(rows[..|rows| - 1], interval, b) + if Bucket(last.stamp, interval) == b then [last] else []
  }

  function VolumeOf(rows: seq<Row>): real {
    if rows == [] then 0.0 else VolumeOf(rows[..|rows| - 1]) + Number(rows[|rows| - 1].volume)
  }

  function TurnoverOf(rows: seq<Row>): real {
    if rows == [] then 0.0 else TurnoverOf(rows[..|rows| - 1]) + Number(rows[|rows| - 1].turnover)
  }

  ghost predicate Summarises(bar: Bar, rows: seq<Row>) {
    && rows != [] && bar.open == Number(rows[0].open) && bar.close == Number(rows[|rows| - 1].close)
    && (forall r :: r in rows ==> Number(r.high) <= bar.high && bar.low <= Number(r.low))
    && (exists r :: r in rows && Number(r.high) == bar.high) && (exists r :: r in rows && Number(r.low) == bar.low)
    && bar.volume == VolumeOf(rows) && bar.turnover == TurnoverOf(rows)
  }

  lemma NewSummarises(row: Row, interval: int)
    requires interval > 0
    ensures Summarises(NewBar(row, interval), [row])
  {
  }

  lemma GrowSummarises(bar: Bar, rows: seq<Row>, row: Row)
    requires Summarises(bar, rows)
    ensures Summarises(Grow(bar, row), rows + [row])
  {
  }

  ghost predicate AllSummarise(bars: seq<Bar>, rows: seq<Row>, interval: int)
    requires interval > 0
  {
    forall i :: 0 <= i < |bars| ==> Summarises(bars[i], Members(rows, interval, bars[i].bucket))
  }

  lemma MembersSnoc(rows: seq<Row>, row: Row, interval: int, b: int)
    requires interval > 0
    ensures Members(rows + [row], interval, b)
      == Members(rows, interval, b) + if Bucket(row.stamp, interval) == b then [row] else []
  {
  }

  /** A row later than all bars starts its bucket. */
  lemma NoneYet(rows: seq<Row>, row: Row, interval: int)
    requires interval > 0 && Sorted(rows, interval)
    requires rows != [] ==> Bucket(rows[|rows| - 1].stamp, interval) < Bucket(row.stamp, interval)
    ensures Members(rows, interval, Bucket(row.stamp, interval)) == []
  {
  }

  /** Each bar summarises exactly the rows of its bucket. */
  lemma {:induction false} BarsSummarise(rows: seq<Row>, interval: int)
    requires interval > 0 && Sorted(rows, interval)
    ensures AllSummarise(Group(rows, interval), rows, interval)
  {
    hide Bucket, AddRow, Members, Summarises;
    if rows != [] {
      var front, row := rows[..|rows| - 1], rows[|rows| - 1];
      assert rows == front + [row];
      BarsSummarise(front, interval);
      GroupAscends(front, interval);
      if front != [] { assert Bucket(front[|front| - 1].stamp, interval) <= Bucket(row.stamp, interval); }
      AddRowAtEnd(Group(front, interval), row, interval);
      AddSummarises(front, row, interval);
      GroupSnoc(front, row, interval);
    }
  }

  lemma AddSummarises(front: seq<Row>, row: Row, interval: int)
    requires interval > 0 && Sorted(front, interval) && AllSummarise(Group(front, interval), front, interval)
    requires front != [] ==> Bucket(front[|front| - 1].stamp, interval) <= Bucket(row.stamp, interval)
    ensures AllSummarise(AddRow(Group(front, interval), row, interval), front + [row], interval)
  {
    hide Bucket, AddRow, Members, Summarises, Group, Sorted;
    var bars, b := Group(front, interval), Bucket(row.stamp, interval);
    GroupAscends(front, interval);
    AddRowAtEnd(bars, row, interval);
    var after := AddRow(bars, row, interval);
    forall i | 0 <= i < |after| ensures Summarises(after[i], Members(front + [row], interval, after[i].bucket)) {
      MembersSnoc(front, row, interval, after[i].bucket);
      if i < |bars| - 1 || (i == |bars| - 1 && |after| > |bars|) {
        assert after[i] == bars[i] && after[i].bucket < b;
        NoChange(Members(front, interval, after[i].bucket));
      } else if |after| == |bars| {
        GrowSummarises(bars[i], Members(front, interval, bars[i].bucket), row);
      } else {
        NoneYet(front, row, interval);
        NewSummarises(row, interval);
        assert [] + [row] == [row];
      }
    }
  }

  lemma NoChange<T>(s: seq<T>)
    ensures s + [] == s
  {
  }
}
