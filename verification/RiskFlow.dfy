/** The flow limiter: how many requests of one account pass in a window, and in any second. */
module RiskFlow {
  import opened Numbers
  import opened RiskModel

  /** A request that reaches the limiter: whose, and when. */
  function Requester(e: Event): string {
    match e
    case OrderEvent(o, _) => o.account
    case ActionEvent(a, _) => a.account
    case _ => ""
  }

  predicate Checked(e: Event) {
    || (e.OrderEvent? && e.order.riskStatus == PREPARE_CHECKED)
    || (e.ActionEvent? && e.action.riskStatus == PREPARE_CHECKED)
  }

  predicate Passes(b: Books, s: Settings, e: Event)
    requires Checked(e)
  {
    FlowStep(b.flow, Requester(e), e.now, s.limits.flowLimit).1
  }

  /** The times at which requests of the account passed the limiter. */
  function PassTimes(s: Settings, events: seq<Event>, account: string): seq<int>
    requires AllWide(events)
  {
    if events == [] then []
    else
      var front, e := events[..|events| - 1], events[|events| - 1];
      PassTimes(s, front, account)
      + (if Checked(e) && Requester(e) == account && Passes(Run(s, front), s, e) then [e.now] else [])
  }

  /** How many of the times lie from `low` to `high`. */
  function CountIn(times: seq<int>, low: int, high: int): (n: nat)
    ensures n <= |times|
  {
    if times == [] then 0
    else CountIn(times[..|times| - 1], low, high) + if low <= times[|times| - 1] <= high then 1 else 0
  }

  lemma CountSnoc(times: seq<int>, t: int, low: int, high: int)
    ensures CountIn(times + [t], low, high) == CountIn(times, low, high) + if low <= t <= high then 1 else 0
  {
  }

  lemma {:induction false} CountNone(times: seq<int>, low: int, high: int)
    requires forall i :: 0 <= i < |times| ==> times[i] < low
    ensures CountIn(times, low, high) == 0
  {
    if times != [] { CountNone(times[..|times| - 1], low, high); }
  }

  // ---------------------------------------------------------------- one account

  /** What any second may hold, given the open window and the requests counted in it. */
  function Bound(start: int, flow: int, limit: int, low: int): int {
    if start < low then Min(flow, Cap(limit))
    else if start <= low + 1000 then Cap(limit) + Min(flow, Cap(limit))
    else 2 * Cap(limit)
  }

  ghost predicate Within(times: seq<int>, start: int, flow: int, limit: int, last: int) {
    && flow >= 0 && start <= last && (start == 0 ==> times == [])
    && (forall i :: 0 <= i < |times| ==> times[i] <= last && times[i] <= start + 1000)
    && (forall low :: CountIn(times, low, low + 1000) <= Bound(start, flow, limit, low))
    && CountIn(times, start, start + 1000) <= Min(flow, Cap(limit))
  }

  /** One request keeps the bound of every second. */
  lemma RequestKeepsBound(times: seq<int>, start: int, flow: int, limit: int, last: int, now: int, low: int)
    requires Within(times, start, flow, limit, last) && last <= now && 0 < now
    ensures var reopened := start == 0 || now - start > 1000;
      var flow' := (if reopened then 0 else flow) + 1;
      var times' := if flow' <= limit then times + [now] else times;
      CountIn(times', low, low + 1000) <= Bound(if reopened then now else start, flow', limit, low)
  {
    CountSnoc(times, now, low, low + 1000);
    assert CountIn(times, low, low + 1000) <= Bound(start, flow, limit, low);
    if last < low { CountNone(times, low, low + 1000); }
    if start == 0 { CountNone(times, low, low + 1000); }
  }

  /** One request keeps the bound of the window it falls in. */
  lemma RequestKeepsWindow(times: seq<int>, start: int, flow: int, limit: int, last: int, now: int)
    requires Within(times, start, flow, limit, last) && last <= now && 0 < now
    ensures var reopened := start == 0 || now - start > 1000;
      var start', flow' := if reopened then now else start, (if reopened then 0 else flow) + 1;
      var times' := if flow' <= limit then times + [now] else times;
      CountIn(times', start', start' + 1000) <= Min(flow', Cap(limit))
  {
    var reopened := start == 0 || now - start > 1000;
    var start' := if reopened then now else start;
    CountSnoc(times, now, start', start' + 1000);
    if reopened { CountNone(times, now, now + 1000); }
  }

  lemma RequestKeepsWithin(times: seq<int>, start: int, flow: int, limit: int, last: int, now: int)
    requires Within(times, start, flow, limit, last) && last <= now && 0 < now
    ensures var reopened := start == 0 || now - start > 1000;
      var flow' := (if reopened then 0 else flow) + 1;
      Within(if flow' <= limit then times + [now] else times, if reopened then now else start, flow', limit, now)
  {
    hide CountIn, Bound;
    RequestKeepsWindow(times, start, flow, limit, last, now);
    var reopened := start == 0 || now - start > 1000;
    var start', flow' := if reopened then now else start, (if reopened then 0 else flow) + 1;
    var times' := if flow' <= limit then times + [now] else times;
    forall low ensures CountIn(times', low, low + 1000) <= Bound(start', flow', limit, low) {
      RequestKeepsBound(times, start, flow, limit, last, now, low);
    }
  }

  // ---------------------------------------------------------------- runs

  /** The clock of the requests is positive and never runs back. */
  predicate ClockForward(events: seq<Event>) {
    && (forall i | 0 <= i < |events| :: Checked(events[i]) ==> 0 < events[i].now)
    && (forall i, j | 0 <= i < j < |events| :: Checked(events[i]) && Checked(events[j]) ==>
          events[i].now <= events[j].now)
  }

  function LastTime(events: seq<Event>): int {
    if events == [] then 0
    else if Checked(events[|events| - 1]) then events[|events| - 1].now
    else LastTime(events[..|events| - 1])
  }

  lemma {:induction false} LastTimeIsLast(events: seq<Event>, e: Event)
    requires ClockForward(events + [e]) && Checked(e)
    ensures 0 <= LastTime(events) <= e.now
    ensures ClockForward(events)
    decreases |events|
  {
    var all := events + [e];
    assert all[|events|] == e;
    assert forall i :: 0 <= i < |events| ==> all[i] == events[i];
    if events != [] && !Checked(events[|events| - 1]) {
      var front := events[..|events| - 1];
      var rest := front + [e];
      forall i, j | 0 <= i < j < |rest| && Checked(rest[i]) && Checked(rest[j]) ensures rest[i].now <= rest[j].now {
        assert rest[i] == all[i];
        assert rest[j] == all[if j < |front| then j else |events|];
      }
      forall i | 0 <= i < |rest| && Checked(rest[i]) ensures 0 < rest[i].now {
        assert rest[i] == all[if i < |front| then i else |events|];
      }
      LastTimeIsLast(front, e);
    }
  }

  ghost predicate AccountWithin(s: Settings, events: seq<Event>, account: string)
    requires AllWide(events)
  {
    var f := Run(s, events).flow;
    Within(PassTimes(s, events, account), At(f.start, account, 0), At(f.count, account, 0), s.limits.flowLimit,
        LastTime(events))
  }

  /** The limiter's books change by requests only. */
  lemma FlowChanges(b: Books, s: Settings, e: Event)
    requires Wide(e)
    ensures Step(b, s, e).0.flow ==
      if Checked(e) then FlowStep(b.flow, Requester(e), e.now, s.limits.flowLimit).0 else b.flow
  {
  }

  lemma {:induction false} EveryRunWithin(s: Settings, events: seq<Event>, account: string)
    requires AllWide(events) && ClockForward(events)
    ensures AccountWithin(s, events, account)
    decreases |events|
  {
    if events != [] {
      var front, e := events[..|events| - 1], events[|events| - 1];
      assert events == front + [e];
      if Checked(e) { LastTimeIsLast(front, e); }
      EveryRunWithin(s, front, account);
      FlowChanges(Run(s, front), s, e);
      StepWithin(s, front, e, account);
    }
  }

  lemma {:induction false} PassTimesSnoc(s: Settings, front: seq<Event>, e: Event, account: string)
    requires AllWide(front) && Wide(e) && AllWide(front + [e])
    ensures PassTimes(s, front + [e], account) == PassTimes(s, front, account)
      + (if Checked(e) && Requester(e) == account && Passes(Run(s, front), s, e) then [e.now] else [])
  {
    hide Passes, Run;
    assert (front + [e])[..|front|] == front;
  }

  /** A request touches the window of its own account only. */
  lemma FlowStepAt(f: Flow, requester: string, now: int, limit: int, account: string)
    ensures var (f', within) := FlowStep(f, requester, now, limit);
      var start, flow := At(f.start, account, 0), At(f.count, account, 0);
      if requester == account then
        var reopened := start == 0 || now - start > 1000;
        && At(f'.start, account, 0) == (if reopened then now else start)
        && At(f'.count, account, 0) == (if reopened then 0 else flow) + 1
        && (within <==> At(f'.count, account, 0) <= limit)
      else At(f'.start, account, 0) == start && At(f'.count, account, 0) == flow
  {
  }

  /** What one event does to an account's window and passes. */
  lemma AccountAfter(s: Settings, front: seq<Event>, e: Event, account: string)
    requires AllWide(front) && Wide(e) && AllWide(front + [e])
    ensures var f, f', times := Run(s, front).flow, Run(s, front + [e]).flow, PassTimes(s, front, account);
      var start, flow := At(f.start, account, 0), At(f.count, account, 0);
      if Checked(e) && Requester(e) == account then
        var reopened := start == 0 || e.now - start > 1000;
        var flow' := (if reopened then 0 else flow) + 1;
        && At(f'.start, account, 0) == (if reopened then e.now else start) && At(f'.count, account, 0) == flow'
        && PassTimes(s, front + [e], account) == if flow' <= s.limits.flowLimit then times + [e.now] else times
      else
        At(f'.start, account, 0) == start && At(f'.count, account, 0) == flow
            && PassTimes(s, front + [e], account) == times
  {
    hide Step, FlowStep;
    RunSnoc(s, front, e);
    FlowChanges(Run(s, front), s, e);
    PassTimesSnoc(s, front, e, account);
    hide Run, PassTimes;
    if Checked(e) { FlowStepAt(Run(s, front).flow, Requester(e), e.now, s.limits.flowLimit, account); }
  }

  lemma StepWithin(s: Settings, front: seq<Event>, e: Event, account: string)
    requires AllWide(front) && Wide(e) && AllWide(front + [e]) && AccountWithin(s, front, account)
    requires Checked(e) ==> 0 <= LastTime(front) <= e.now && 0 < e.now
    ensures AccountWithin(s, front + [e], account)
  {
    hide Within, Run, PassTimes;
    assert (front + [e])[..|front|] == front;
    AccountAfter(s, front, e, account);
    var f, times := Run(s, front).flow, PassTimes(s, front, account);
    var start, flow := At(f.start, account, 0), At(f.count, account, 0);
    if Checked(e) {
      if Requester(e) == account {
        RequestKeepsWithin(times, start, flow, s.limits.flowLimit, LastTime(front), e.now);
      } else {
        LaterWithin(times, start, flow, s.limits.flowLimit, LastTime(front), e.now);
      }
    }
  }

  lemma LaterWithin(times: seq<int>, start: int, flow: int, limit: int, last: int, last': int)
    requires Within(times, start, flow, limit, last) && last <= last'
    ensures Within(times, start, flow, limit, last')
  {
  }

  /** In any thousand milliseconds of any run at most twice the limit of an account's requests pass,
      and at most the limit in the window that is open. */
  lemma EverySecondIsBounded(s: Settings, events: seq<Event>, account: string, low: int)
    requires AllWide(events) && ClockForward(events)
    ensures CountIn(PassTimes(s, events, account), low, low + 1000) <= 2 * Cap(s.limits.flowLimit)
    ensures var start := At(Run(s, events).flow.start, account, 0);
      CountIn(PassTimes(s, events, account), start, start + 1000) <= Cap(s.limits.flowLimit)
  {
    EveryRunWithin(s, events, account);
    hide PassTimes, Run, CountIn;
    var f := Run(s, events).flow;
    assert CountIn(PassTimes(s, events, account), low, low + 1000)
      <= Bound(At(f.start, account, 0), At(f.count, account, 0), s.limits.flowLimit, low);
  }
}
