/** Charts from a bounded fetch: exactly when they are the charts of the whole table. */
module HistoryFetch {
  import opened Wrappers
  import opened HistoryBars

  // ---------------------------------------------------------------- the rows a chart is made of

  /** How many of the rows belong to the bars. */
  function Shown(rows: seq<Row>, interval: int, bars: seq<Bar>): nat
    requires interval > 0
  {
    if bars == [] then 0
    else Shown(rows, interval, bars[..|bars| - 1]) + |Members(rows, interval, bars[|bars| - 1].bucket)|
  }

  ghost predicate HasBar(bars: seq<Bar>, b: int) {
    exists i :: 0 <= i < |bars| && bars[i].bucket == b
  }

  lemma {:induction false} ShownSnoc(rows: seq<Row>, row: Row, interval: int, bars: seq<Bar>)
    requires interval > 0 && Ascending(bars)
    ensures Shown(rows + [row], interval, bars)
      == Shown(rows, interval, bars) + if HasBar(bars, Bucket(row.stamp, interval)) then 1 else 0
  {
    hide Bucket, Members;
    if bars != [] {
      var front, last := bars[..|bars| - 1], bars[|bars| - 1];
      ShownSnoc(rows, row, interval, front);
      MembersSnoc(rows, row, interval, last.bucket);
      HasBarSnoc(front, last, Bucket(row.stamp, interval));
      assert bars == front + [last];
    }
  }

  lemma HasBarSnoc(front: seq<Bar>, last: Bar, b: int)
    requires Ascending(front + [last])
    ensures HasBar(front + [last], b) <==> HasBar(front, b) || last.bucket == b
    ensures !(HasBar(front, b) && last.bucket == b)
  {
    var bars := front + [last];
    assert bars[|front|] == last && forall i :: 0 <= i < |front| ==> bars[i] == front[i];
  }

  /** No more rows are shown than there are, and all of them if each has a bar. */
  lemma {:induction false} ShownBounds(rows: seq<Row>, interval: int, bars: seq<Bar>)
    requires interval > 0 && Ascending(bars)
    ensures Shown(rows, interval, bars) <= |rows|
    ensures (forall r :: r in rows ==> HasBar(bars, Bucket(r.stamp, interval)))
        ==> Shown(rows, interval, bars) == |rows|
    decreases |rows|
  {
    hide Bucket, Shown, HasBar, Ascending;
    if rows == [] {
      ShownNone(rows, interval, bars);
    } else {
      var front, row := rows[..|rows| - 1], rows[|rows| - 1];
      assert rows == front + [row] && row in rows;
      ShownBounds(front, interval, bars);
      ShownSnoc(front, row, interval, bars);
    }
  }

  /** Nothing is shown exactly when no bar has a row. */
  lemma {:induction false} ShownNone(rows: seq<Row>, interval: int, bars: seq<Bar>)
    requires interval > 0
    ensures Shown(rows, interval, bars) == 0 <==> forall x :: x in bars ==> Members(rows, interval, x.bucket) == []
  {
    hide Members;
    if bars != [] {
      var front, last := bars[..|bars| - 1], bars[|bars| - 1];
      ShownNone(rows, interval, front);
      assert bars == front + [last];
    }
  }

  lemma {:induction false} MembersConcat(p: seq<Row>, q: seq<Row>, interval: int, b: int)
    requires interval > 0
    ensures Members(p + q, interval, b) == Members(p, interval, b) + Members(q, interval, b)
    decreases |q|
  {
    hide Bucket;
    if q == [] {
      assert p + q == p;
    } else {
      var front, last := q[..|q| - 1], q[|q| - 1];
      assert p + q == (p + front) + [last] && q == front + [last];
      MembersConcat(p, front, interval, b);
      MembersSnoc(p + front, last, interval, b);
      MembersSnoc(front, last, interval, b);
    }
  }

  lemma {:induction false} ShownConcat(p: seq<Row>, q: seq<Row>, interval: int, bars: seq<Bar>)
    requires interval > 0
    ensures Shown(p + q, interval, bars) == Shown(p, interval, bars) + Shown(q, interval, bars)
    decreases |bars|
  {
    hide Members;
    if bars != [] {
      ShownConcat(p, q, interval, bars[..|bars| - 1]);
      MembersConcat(p, q, interval, bars[|bars| - 1].bucket);
    }
  }

  // ---------------------------------------------------------------- what lies before the cut

  lemma {:induction false} RowHasBar(rows: seq<Row>, interval: int, r: Row)
    requires interval > 0 && r in rows
    ensures HasBar(Group(rows, interval), Bucket(r.stamp, interval))
    decreases |rows|
  {
    hide Bucket, AddRow, Group, HasBar;
    var front, row := rows[..|rows| - 1], rows[|rows| - 1];
    assert rows == front + [row];
    GroupSnoc(front, row, interval);
    AddedHasBar(Group(front, interval), row, interval);
    if r in front {
      RowHasBar(front, interval, r);
      StillHasBar(Group(front, interval), row, interval, Bucket(r.stamp, interval));
    }
  }

  lemma AddedHasBar(bars: seq<Bar>, row: Row, interval: int)
    requires interval > 0
    ensures HasBar(AddRow(bars, row, interval), Bucket(row.stamp, interval))
  {
    hide Bucket;
    var b := Bucket(row.stamp, interval);
    assert AddRow(bars, row, interval)[Find(bars, b)].bucket == b;
  }

  lemma StillHasBar(bars: seq<Bar>, row: Row, interval: int, b: int)
    requires interval > 0 && HasBar(bars, b)
    ensures HasBar(AddRow(bars, row, interval), b)
  {
    hide Bucket;
    var i :| 0 <= i < |bars| && bars[i].bucket == b;
    assert AddRow(bars, row, interval)[i].bucket == b;
  }

  /** A bar no earlier than one of the last bars is one of them. */
  lemma LaterIsShown(bars: seq<Bar>, limit: nat, b: int, c: int)
    requires Ascending(bars) && HasBar(Last(bars, limit), b) && HasBar(bars, c) && b <= c
    ensures HasBar(Last(bars, limit), c)
  {
    var shown := Last(bars, limit);
    var k := |bars| - |shown|;
    var i :| 0 <= i < |shown| && shown[i].bucket == b;
    var j :| 0 <= j < |bars| && bars[j].bucket == c;
    assert bars[k + i].bucket == b;
    forall m | 0 <= m < k + i ensures bars[m].bucket < b {}
    assert shown[j - k].bucket == c;
  }

  lemma LastAscends(bars: seq<Bar>, limit: nat)
    requires Ascending(bars)
    ensures Ascending(Last(bars, limit))
  {
  }

  /** The bars shown have no row before the cut if and only if their rows are no more than those after it. */
  lemma CutOffIff(p: seq<Row>, q: seq<Row>, interval: int, limit: nat)
    requires interval > 0 && Sorted(p + q, interval)
    ensures var bars := Last(Group(p + q, interval), limit);
      Shown(p + q, interval, bars) <= |q| <==> forall x :: x in bars ==> Members(p, interval, x.bucket) == []
  {
    hide Bucket, Group, Members, Shown, Last, Ascending, HasBar;
    var whole := Group(p + q, interval);
    var bars := Last(whole, limit);
    GroupAscends(p + q, interval);
    LastAscends(whole, limit);
    ShownConcat(p, q, interval, bars);
    ShownNone(p, interval, bars);
    ShownBounds(q, interval, bars);
    if Shown(p, interval, bars) > 0 {
      var x :| x in bars && Members(p, interval, x.bucket) != [];
      AllOfTheRest(p, q, interval, limit, x);
    }
  }

  /** If a bar shown has a row before the cut, every row after the cut is shown. */
  lemma AllOfTheRest(p: seq<Row>, q: seq<Row>, interval: int, limit: nat, x: Bar)
    requires interval > 0 && Sorted(p + q, interval)
    requires x in Last(Group(p + q, interval), limit) && Members(p, interval, x.bucket) != []
    ensures forall r :: r in q ==> HasBar(Last(Group(p + q, interval), limit), Bucket(r.stamp, interval))
  {
    hide Bucket, Group, Last, HasBar;
    var whole := Group(p + q, interval);
    var first := Members(p, interval, x.bucket)[0];
    assert first in p && Bucket(first.stamp, interval) == x.bucket;
    hide Members;
    GroupAscends(p + q, interval);
    InHasBar(Last(whole, limit), x);
    forall r | r in q ensures HasBar(Last(whole, limit), Bucket(r.stamp, interval)) {
      RowHasBar(p + q, interval, r);
      Across(p, q, interval, first, r);
      LaterIsShown(whole, limit, x.bucket, Bucket(r.stamp, interval));
    }
  }

  lemma InHasBar(bars: seq<Bar>, x: Bar)
    requires x in bars
    ensures HasBar(bars, x.bucket)
  {
  }

  lemma Across(p: seq<Row>, q: seq<Row>, interval: int, first: Row, r: Row)
    requires interval > 0 && Sorted(p + q, interval) && first in p && r in q
    ensures Bucket(first.stamp, interval) <= Bucket(r.stamp, interval)
  {
    hide Bucket;
    var i :| 0 <= i < |p| && p[i] == first;
    var j :| 0 <= j < |q| && q[j] == r;
    assert (p + q)[i] == first && (p + q)[|p| + j] == r;
  }

  // ---------------------------------------------------------------- the exact condition

  /** The rows left out and the rows fetched, oldest first. */
  lemma Cut(table: seq<Row>, n: nat)
    requires n < |table| && NewestFirst(table)
    ensures Reversed(table) == Reversed(table[n..]) + Reversed(table[..n])
    ensures OneRowAMinute(Reversed(table)) && OneRowAMinute(Reversed(table[..n]))
  {
  }

  lemma FetchAll(table: seq<Row>, n: nat)
    ensures n >= |table| ==> Fetch(table, n) == table
  {
  }

  /** Every bar of the whole table's chart has all its rows among the newest `n`. */
  ghost predicate ChartIsWhole(table: seq<Row>, interval: int, limit: nat, n: nat)
    requires interval > 0
  {
    forall x :: x in Aggregate(table, interval, limit) ==>
      Members(Reversed(Fetch(table, n)), interval, x.bucket) == Members(Reversed(table), interval, x.bucket)
  }

  /** The rows of the whole table's chart are at most `n`. */
  predicate Fits(table: seq<Row>, interval: int, limit: nat, n: nat)
    requires interval > 0
  {
    Shown(Reversed(table), interval, Aggregate(table, interval, limit)) <= n
  }

  /** The newest `n` rows hold every row of the chart if and only if the chart is made of at most `n` rows. */
  lemma ChartIsWholeIff(table: seq<Row>, interval: int, limit: nat, n: nat)
    requires interval > 0 && NewestFirst(table)
    ensures ChartIsWhole(table, interval, limit, n) <==> Fits(table, interval, limit, n)
  {
    var rows, bars := Reversed(table), Aggregate(table, interval, limit);
    if n < |table| {
      var p, q := Reversed(table[n..]), Reversed(table[..n]);
      Cut(table, n);
      SortedByMinute(p + q, interval);
      hide Bucket, Group, Members, Shown, Last, Sorted, Reversed, NewestFirst;
      CutOffIff(p, q, interval, limit);
      forall x | x in bars
        ensures Members(q, interval, x.bucket) == Members(rows, interval, x.bucket)
            <==> Members(p, interval, x.bucket) == []
      {
        MembersConcat(p, q, interval, x.bucket);
        NothingBefore(Members(p, interval, x.bucket), Members(q, interval, x.bucket));
      }
    } else {
      assert Fetch(table, n) == table;
      SortedByMinute(rows, interval) by { assert OneRowAMinute(rows); }
      hide Bucket, Group, Members, Shown, Last, Sorted, Reversed, NewestFirst;
      GroupAscends(rows, interval);
      LastAscends(Group(rows, interval), limit);
      ShownBounds(rows, interval, bars);
    }
  }

  lemma NothingBefore<T>(a: seq<T>, b: seq<T>)
    ensures b == a + b <==> a == []
  {
    if b == a + b { assert |b| == |a| + |b|; }
  }

  /** The tail of a list is that of any longer tail. */
  lemma LastOfTail<T>(s: seq<T>, k: nat, n: nat)
    requires k <= |s| && n <= k
    ensures Last(s, n) == Last(s[|s| - k..], n)
  {
  }

  lemma SplitSorted(p: seq<Row>, q: seq<Row>, interval: int)
    requires interval > 0 && p != [] && Sorted(p + q, interval)
    ensures Sorted(q, interval)
    ensures forall r :: r in p ==> Bucket(r.stamp, interval) <= Bucket(p[|p| - 1].stamp, interval)
    ensures forall r :: r in q ==> Bucket(r.stamp, interval) >= Bucket(p[|p| - 1].stamp, interval)
  {
    hide Bucket;
    var all := p + q;
    assert forall i :: 0 <= i < |p| ==> p[i] == all[i];
    assert forall i :: 0 <= i < |q| ==> q[i] == all[|p| + i];
  }

  lemma {:induction false} LateBarsStay(bars: seq<Bar>, b: int, k: nat)
    requires k <= |bars| && forall i :: k <= i < |bars| ==> bars[i].bucket > b
    ensures |After(bars, b)| >= |bars| - k
    decreases |bars|
  {
    if k < |bars| { LateBarsStay(bars[..|bars| - 1], b, k); }
  }

  /** Behind a bar that is not among the last `limit` there are `limit` bars. */
  lemma LateEnough(bars: seq<Bar>, limit: nat, b: int)
    requires Ascending(bars) && HasBar(bars, b) && !HasBar(Last(bars, limit), b)
    ensures |After(bars, b)| >= limit
  {
    hide After;
    var shown := Last(bars, limit);
    var j :| 0 <= j < |bars| && bars[j].bucket == b;
    var k := |bars| - |shown|;
    forall i | k <= i < |bars| ensures bars[i].bucket != b { assert bars[i] == shown[i - k]; }
    forall i | j < i < |bars| ensures bars[i].bucket > b {}
    LateBarsStay(bars, b, k);
  }

  /** With no row of the bars shown before the cut, there are bars enough after it. */
  lemma EnoughAfter(p: seq<Row>, q: seq<Row>, interval: int, limit: nat)
    requires interval > 0 && p != [] && Sorted(p + q, interval)
    requires forall x :: x in Last(Group(p + q, interval), limit) ==> Members(p, interval, x.bucket) == []
    ensures |After(Group(p + q, interval), Bucket(p[|p| - 1].stamp, interval))| >= limit
  {
    hide Bucket, Group, After, Last, Ascending, Sorted;
    var last := p[|p| - 1];
    var b := Bucket(last.stamp, interval);
    var whole := Group(p + q, interval);
    assert last in Members(p, interval, b);
    hide Members;
    assert !HasBar(Last(whole, limit), b);
    assert last in p + q;
    RowHasBar(p + q, interval, last);
    GroupAscends(p + q, interval);
    LateEnough(whole, limit, b);
  }

  /** A cut before which no bar shown has a row changes no bar shown. */
  lemma SameChart(p: seq<Row>, q: seq<Row>, interval: int, limit: nat)
    requires interval > 0 && Sorted(p + q, interval)
    requires forall x :: x in Last(Group(p + q, interval), limit) ==> Members(p, interval, x.bucket) == []
    ensures Last(Group(q, interval), limit) == Last(Group(p + q, interval), limit)
  {
    if p == [] {
      assert p + q == q;
    } else {
      EnoughAfter(p, q, interval, limit);
      hide Bucket, Group, After, Last, Members;
      var b := Bucket(p[|p| - 1].stamp, interval);
      SplitSorted(p, q, interval);
      AfterBoundary(p, q, interval, b);
      GroupAscends(p + q, interval);
      GroupAscends(q, interval);
      var whole, cut := Group(p + q, interval), Group(q, interval);
      AfterIsTail(whole, b);
      AfterIsTail(cut, b);
      LastOfTail(whole, |After(whole, b)|, limit);
      LastOfTail(cut, |After(cut, b)|, limit);
    }
  }

  /** A fetch that holds every row of the chart gives that chart. */
  lemma FetchGivesChart(table: seq<Row>, interval: int, limit: nat, n: nat)
    requires interval > 0 && NewestFirst(table) && Fits(table, interval, limit, n)
    ensures Aggregate(Fetch(table, n), interval, limit) == Aggregate(table, interval, limit)
  {
    if n < |table| {
      var p, q := Reversed(table[n..]), Reversed(table[..n]);
      Cut(table, n);
      SortedByMinute(p + q, interval);
      hide Bucket, Group, Members, Shown, Last, Sorted, Reversed, NewestFirst;
      CutOffIff(p, q, interval, limit);
      SameChart(p, q, interval, limit);
    } else {
      assert Fetch(table, n) == table;
    }
  }

  // ---------------------------------------------------------------- when the service's limit fits

  ghost predicate AtMost(rows: seq<Row>, interval: int, cap: int)
    requires interval > 0
  {
    forall b :: |Members(rows, interval, b)| <= cap
  }

  lemma {:induction false} ShownAtMost(rows: seq<Row>, interval: int, bars: seq<Bar>, cap: int)
    requires interval > 0 && AtMost(rows, interval, cap)
    ensures Shown(rows, interval, bars) <= cap * |bars|
  {
    hide Members;
    if bars != [] {
      ShownAtMost(rows, interval, bars[..|bars| - 1], cap);
      Distribute(cap, |bars|);
      assert |Members(rows, interval, bars[|bars| - 1].bucket)| <= cap;
    }
  }

  lemma Distribute(cap: int, n: int)
    ensures cap * n == cap * (n - 1) + cap
  {
  }

  /** With one row a minute, an intraday bar has no more rows than it has minutes. */
  lemma {:induction false} FewRowsABar(rows: seq<Row>, interval: int, b: int)
    requires interval in SUPPORTED && interval != DAILY && OneRowAMinute(rows) && b % 60 == 0
    ensures |Members(rows, interval, b)| <= interval
    ensures rows != [] ==>
        |Members(rows, interval, b)| <=
        if rows[|rows| - 1].stamp / 60 < b / 60 then 0 else rows[|rows| - 1].stamp / 60 - b / 60 + 1
  {
    if rows != [] {
      var front, row := rows[..|rows| - 1], rows[|rows| - 1];
      FewRowsABar(front, interval, b);
      BucketMinutes(row.stamp, interval);
      hide Bucket;
      if front != [] { assert front[|front| - 1].stamp / 60 < row.stamp / 60; }
    }
  }

  lemma IntradayAtMost(rows: seq<Row>, interval: int)
    requires interval in SUPPORTED && interval != DAILY && OneRowAMinute(rows)
    ensures AtMost(rows, interval, interval)
  {
    forall b ensures |Members(rows, interval, b)| <= interval {
      if b % 60 == 0 { FewRowsABar(rows, interval, b); } else { NoSuchBucket(rows, interval, b); }
    }
  }

  lemma {:induction false} NoSuchBucket(rows: seq<Row>, interval: int, b: int)
    requires interval in SUPPORTED && interval != DAILY && b % 60 != 0
    ensures |Members(rows, interval, b)| == 0
  {
    if rows != [] {
      NoSuchBucket(rows[..|rows| - 1], interval, b);
      BucketMinutes(rows[|rows| - 1].stamp, interval);
      hide Bucket;
    }
  }

  /** With at most `cap` rows a bar, a fetch of `cap` rows for each bar asked for is enough. */
  lemma CapFits(table: seq<Row>, interval: int, limit: nat, cap: nat, n: nat)
    requires interval > 0 && AtMost(Reversed(table), interval, cap) && limit * cap <= n
    ensures Fits(table, interval, limit, n)
  {
    hide Members, Group;
    var bars := Aggregate(table, interval, limit);
    ShownAtMost(Reversed(table), interval, bars, cap);
    Monotone(cap, |bars|, limit);
  }

  /** An intraday fetch always fits, with one row a minute. */
  lemma IntradayFits(table: seq<Row>, interval: int, limit: nat)
    requires interval in SUPPORTED && interval != DAILY && NewestFirst(table)
    ensures Fits(table, interval, limit, SourceLimit(interval, limit))
  {
    assert OneRowAMinute(Reversed(table));
    hide Members, Reversed, NewestFirst;
    IntradayAtMost(Reversed(table), interval);
    CapFits(table, interval, limit, interval, SourceLimit(interval, limit));
  }

  /** A daily fetch fits with at most `cap` rows a day, as long as the days asked for need no more than
      their sessions and one to spare. */
  lemma DailyFits(table: seq<Row>, limit: nat, cap: nat)
    requires AtMost(Reversed(table), DAILY, cap) && limit * cap <= 240 * (limit + 1)
    ensures Fits(table, DAILY, limit, SourceLimit(DAILY, limit))
  {
    hide Members, Reversed, Shown;
    CapFits(table, DAILY, limit, cap, SourceLimit(DAILY, limit));
  }

  /** An answer is the chart of the whole table, each bar a summary of all its rows, whenever that chart
      is made of no more rows than are fetched. */
  lemma BoundedFetchIsEnough(table: seq<Row>, interval: int, limit: nat)
    requires interval in SUPPORTED && NewestFirst(table)
    requires interval == DAILY ==> Fits(table, DAILY, limit, SourceLimit(DAILY, limit))
    ensures Aggregate(Fetch(table, SourceLimit(interval, limit)), interval, limit) == Aggregate(table, interval, limit)
  {
    hide Fits, Aggregate, NewestFirst;
    if interval != DAILY { IntradayFits(table, interval, limit); }
    FetchGivesChart(table, interval, limit, SourceLimit(interval, limit));
  }

  /** Every bar of an answer summarises all the rows the table has for its bucket, whenever the chart fits. */
  lemma AnswersAreWhole(table: seq<Row>, interval: int, limit: nat, maxRaw: int, i: nat)
    requires limit >= 1 && NewestFirst(table)
    requires interval == DAILY ==> Fits(table, DAILY, limit, SourceLimit(DAILY, limit))
    requires MinuteBars(table, interval, limit, maxRaw).Ok? && i < |MinuteBars(table, interval, limit, maxRaw).value|
    ensures var bar := MinuteBars(table, interval, limit, maxRaw).value[i];
      Summarises(bar, Members(Reversed(table), interval, bar.bucket))
  {
    BoundedFetchIsEnough(table, interval, limit);
    assert OneRowAMinute(Reversed(table));
    hide Summarises, Members, Bucket, Group, Fits, Reversed;
    SortedByMinute(Reversed(table), interval);
    BarsSummarise(Reversed(table), interval);
  }

  // ---------------------------------------------------------------- when it does not

  /** When the chart does not fit, some bar of it has rows that are not fetched. */
  lemma SomeBarIsCut(table: seq<Row>, interval: int, limit: nat, n: nat) returns (x: Bar)
    requires interval > 0 && NewestFirst(table) && !Fits(table, interval, limit, n)
    ensures x in Aggregate(table, interval, limit)
    ensures |Members(Reversed(Fetch(table, n)), interval, x.bucket)| < |Members(Reversed(table), interval, x.bucket)|
  {
    ChartIsWholeIff(table, interval, limit, n);
    hide Members, Aggregate, Fits;
    x :| x in Aggregate(table, interval, limit)
      && Members(Reversed(Fetch(table, n)), interval, x.bucket) != Members(Reversed(table), interval, x.bucket);
    FetchAll(table, n);
    if n < |table| {
      Cut(table, n);
      MembersConcat(Reversed(table[n..]), Reversed(table[..n]), interval, x.bucket);
    }
  }

  lemma {:induction false} ShownAtLeast(rows: seq<Row>, interval: int, bars: seq<Bar>, floor: int)
    requires interval > 0 && forall x :: x in bars ==> |Members(rows, interval, x.bucket)| >= floor
    ensures Shown(rows, interval, bars) >= floor * |bars|
  {
    hide Members;
    if bars != [] {
      ShownAtLeast(rows, interval, bars[..|bars| - 1], floor);
      Distribute(floor, |bars|);
    }
  }

  /** Days that each have too many rows are cut: with `limit` of them, of at least `floor` rows, that
      together exceed the fetch, some daily bar misses rows. */
  lemma OverlongDayIsCut(table: seq<Row>, limit: nat, floor: nat) returns (x: Bar)
    requires NewestFirst(table) && |Aggregate(table, DAILY, limit)| == limit
    requires forall y :: y in Aggregate(table, DAILY, limit) ==> |Members(Reversed(table), DAILY, y.bucket)| >= floor
    requires limit * floor > 240 * (limit + 1)
    ensures x in Aggregate(table, DAILY, limit)
    ensures |Members(Reversed(Fetch(table, SourceLimit(DAILY, limit))), DAILY, x.bucket)|
      < |Members(Reversed(table), DAILY, x.bucket)|
  {
    hide Members, Aggregate, Reversed, NewestFirst;
    ShownAtLeast(Reversed(table), DAILY, Aggregate(table, DAILY, limit), floor);
    x := SomeBarIsCut(table, DAILY, limit, SourceLimit(DAILY, limit));
  }

  lemma {:induction false} OneDayOneBar(rows: seq<Row>, b: int)
    requires rows != [] && forall r :: r in rows ==> Bucket(r.stamp, DAILY) == b && r.volume == Some(1.0)
    ensures var bars := Group(rows, DAILY); |bars| == 1 && bars[0].bucket == b && bars[0].volume == |rows| as real
    decreases |rows|
  {
    hide Bucket;
    var front := rows[..|rows| - 1];
    if front != [] { OneDayOneBar(front, b); }
    assert rows[|rows| - 1] in rows;
  }

  /** One day of more than 480 rows, each of volume one: asked for one daily bar, the answer shows 480. */
  lemma OneLongDay(table: seq<Row>, b: int)
    requires NewestFirst(table) && |table| > 480
    requires forall r :: r in table ==> Bucket(r.stamp, DAILY) == b && r.volume == Some(1.0)
    ensures var answer, whole := Aggregate(Fetch(table, SourceLimit(DAILY, 1)), DAILY, 1), Aggregate(table, DAILY, 1);
      |answer| == |whole| == 1 && answer[0].volume == 480.0 < whole[0].volume
  {
    hide Bucket, Group;
    var fetched := Fetch(table, 480);
    OneDayOneBar(Reversed(fetched), b);
    OneDayOneBar(Reversed(table), b);
  }
}
