/** The ticketed ring with calls that do not overlap, and what overlap can change. */
module MpmcAlone {
  import opened Wrappers
  import opened Bits
  import opened MpmcQueue

  /** The values between the two ticket counters. */
  function Contents<T>(s: State<T>): (q: seq<T>)
    requires s.head <= s.tail <= |s.pushLog|
    ensures |q| == s.tail - s.head
  {
    seq(s.tail - s.head, i requires 0 <= i < s.tail - s.head => s.pushLog[s.head + i].1)
  }

  /** The rest of a push once its check has passed. */
  function FinishPush<T>(s: State<T>, id: nat): State<T>
    requires s.n > 0 && |s.nodes| == s.n
  {
    Apply(Apply(Apply(Apply(s, PCas(id, false)), PBegin(id)), PEnd(id)), PPublish(id))
  }

  function PushAlone<T>(s: State<T>, id: nat, v: T): (out: (State<T>, bool))
    requires s.n > 0 && |s.nodes| == s.n
  {
    var checked := Apply(Apply(s, PStart(id, v)), PCheck(id));
    if checked.P(id) == PIdle then (checked, false) else (FinishPush(checked, id), true)
  }

  /** A pop up to the point where it has its value. */
  function ReadPop<T>(s: State<T>, id: nat): State<T>
    requires s.n > 0 && |s.nodes| == s.n
  {
    Apply(Apply(Apply(s, CCas(id, false)), CBegin(id)), CEnd(id))
  }

  /** A whole pop; its value is the result recorded for the ticket it found at the head. */
  function PopAlone<T>(s: State<T>, id: nat): (out: (State<T>, bool))
    requires s.n > 0 && |s.nodes| == s.n
  {
    var checked := Apply(Apply(s, CStart(id)), CCheck(id));
    if checked.C(id) == CIdle then (checked, false)
    else (Apply(ReadPop(checked, id), CPublish(id)), true)
  }

  lemma FinishPushKeepsInv<T>(s: State<T>, id: nat)
    requires Inv(s)
    ensures Inv(FinishPush(s, id))
  {
    StepKeepsInv(s, PCas(id, false));
    var s1 := Apply(s, PCas(id, false));
    StepKeepsInv(s1, PBegin(id));
    var s2 := Apply(s1, PBegin(id));
    StepKeepsInv(s2, PEnd(id));
    StepKeepsInv(Apply(s2, PEnd(id)), PPublish(id));
  }

  lemma FinishPushEffect<T>(s: State<T>, id: nat)
    requires s.n > 0 && |s.nodes| == s.n && s.P(id).PChecked? && s.P(id).t == s.tail
    ensures var s' := FinishPush(s, id);
      && s'.head == s.head && s'.tail == s.tail + 1
      && s'.pushLog == s.pushLog + [(id, s.P(id).v)]
      && s'.producers == s.producers[id := PIdle] && s'.consumers == s.consumers
  {
    var v, t := s.P(id).v, s.tail;
    var s1 := Apply(s, PCas(id, false));
    assert s1 == s.(producers := s.producers[id := PClaimed(v, t)], tail := t + 1, pushLog := s.pushLog + [(id, v)]);
    assert s1.P(id) == PClaimed(v, t);
    var s2 := Apply(s1, PBegin(id));
    assert s2 == s1.(producers := s.producers[id := PWriting(v, t)]);
    assert s2.P(id) == PWriting(v, t);
    var s3 := Apply(s2, PEnd(id));
    assert s3.P(id) == PWritten(v, t);
  }

  lemma PushAloneKeepsInv<T>(s: State<T>, id: nat, v: T)
    requires Inv(s)
    ensures Inv(PushAlone(s, id, v).0)
  {
    StepKeepsInv(s, PStart(id, v));
    var s1 := Apply(s, PStart(id, v));
    StepKeepsInv(s1, PCheck(id));
    FinishPushKeepsInv(Apply(s1, PCheck(id)), id);
  }

  lemma PushAloneEffect<T>(s: State<T>, id: nat, v: T)
    requires s.n > 0 && |s.nodes| == s.n && s.P(id) == PIdle
    ensures var (s', ok) := PushAlone(s, id, v);
      && (ok <==> s.nodes[s.Slot(s.tail)].tail == s.tail)
      && s'.head == s.head && s'.tail == (if ok then s.tail + 1 else s.tail)
      && s'.pushLog == (if ok then s.pushLog + [(id, v)] else s.pushLog)
      && s'.producers == s.producers[id := PIdle] && s'.consumers == s.consumers
  {
    hide And, FinishPush;
    var s1 := Apply(s, PStart(id, v));
    assert s1 == s.WithP(id, PLoaded(v, s.tail));
    var s2 := Apply(s1, PCheck(id));
    if s.nodes[s.Slot(s.tail)].tail == s.tail {
      assert s2 == s.WithP(id, PChecked(v, s.tail));
      FinishPushEffect(s2, id);
    } else {
      assert s2 == s.WithP(id, PIdle);
    }
  }

  lemma TailSlotFreeIff<T>(s: State<T>)
    requires Inv(s) && Quiescent(s)
    ensures s.nodes[s.Slot(s.tail)].tail == s.tail <==> s.tail < s.head + s.n
  {
    AndMask(s.tail, s.n);
    var x := s.nodes[s.tail % s.n];
    assert NodeInv(s, s.tail % s.n);
    if x.tail != s.tail { SameSlotDifference(x.tail, s.tail, s.n); }
    SameSlotOneLapLater(s.head, s.n);
    if s.head < s.tail { assert LiveInv(s, s.head); }
  }

  /** With nobody else inside a call, a push is refused if and only if N elements are waiting. */
  lemma PushAloneFifo<T>(s: State<T>, id: nat, v: T)
    requires Inv(s) && Quiescent(s)
    ensures var (s', ok) := PushAlone(s, id, v);
      && Inv(s') && Quiescent(s')
      && (ok <==> |Contents(s)| < s.n)
      && Contents(s') == if ok then Contents(s) + [v] else Contents(s)
  {
    hide And, PushStep, FinishPush, NodeInv, LiveInv, PopInv, ThreadsInv;
    assert s.P(id) == PIdle;
    PushAloneKeepsInv(s, id, v);
    PushAloneEffect(s, id, v);
    TailSlotFreeIff(s);
    AllIdleAgain(s, PushAlone(s, id, v).0, id);
  }

  /** A call that leaves its own thread idle and the others alone ends as quietly as it began. */
  lemma AllIdleAgain<T>(s: State<T>, s': State<T>, id: nat)
    requires Quiescent(s)
    requires s'.producers == s.producers || s'.producers == s.producers[id := PIdle]
    requires s'.consumers == s.consumers || s'.consumers == s.consumers[id := CIdle]
    ensures Quiescent(s')
  {
    forall p: nat ensures s'.P(p) == PIdle { assert s.P(p) == PIdle; }
    forall c: nat ensures s'.C(c) == CIdle { assert s.C(c) == CIdle; }
  }

  lemma ReadPopKeepsInv<T>(s: State<T>, id: nat)
    requires Inv(s)
    ensures Inv(ReadPop(s, id))
  {
    StepKeepsInv(s, CCas(id, false));
    var s1 := Apply(s, CCas(id, false));
    StepKeepsInv(s1, CBegin(id));
    StepKeepsInv(Apply(s1, CBegin(id)), CEnd(id));
  }

  lemma ReadPopEffect<T>(s: State<T>, id: nat)
    requires s.n > 0 && |s.nodes| == s.n && s.C(id) == CChecked(s.head)
    ensures var s' := ReadPop(s, id);
      && s'.producers == s.producers
      && s'.C(id).CRead? && s'.C(id).h == s.head && s'.consumers == s.consumers[id := s'.C(id)]
      && s'.head == s.head + 1 && s'.tail == s.tail && s'.pushLog == s.pushLog
  {
    var h := s.head;
    var s1 := Apply(s, CCas(id, false));
    assert s1 == s.(consumers := s.consumers[id := CClaimed(h)], head := h + 1, popLog := s.popLog + [id]);
    assert s1.C(id) == CClaimed(h);
    var s2 := Apply(s1, CBegin(id));
    assert s2 == s1.(consumers := s.consumers[id := CReading(h)]);
    assert s2.C(id) == CReading(h);
  }

  lemma PopAloneKeepsInv<T>(s: State<T>, id: nat)
    requires Inv(s)
    ensures Inv(PopAlone(s, id).0)
  {
    StepKeepsInv(s, CStart(id));
    var s1 := Apply(s, CStart(id));
    StepKeepsInv(s1, CCheck(id));
    var s2 := Apply(s1, CCheck(id));
    ReadPopKeepsInv(s2, id);
    StepKeepsInv(ReadPop(s2, id), CPublish(id));
  }

  lemma FinishPopEffect<T>(s: State<T>, id: nat)
    requires s.n > 0 && |s.nodes| == s.n && s.C(id) == CChecked(s.head)
    ensures var s' := Apply(ReadPop(s, id), CPublish(id));
      && s.head in s'.results
      && s'.head == s.head + 1 && s'.tail == s.tail && s'.pushLog == s.pushLog
      && s'.producers == s.producers && s'.consumers == s.consumers[id := CIdle]
  {
    ReadPopEffect(s, id);
    var r := ReadPop(s, id);
    assert Apply(r, CPublish(id)).consumers == r.consumers[id := CIdle];
  }

  /** What a pop with nobody interfering does to the counters and the program counters. */
  ghost predicate PopEffect<T>(s: State<T>, id: nat, s': State<T>, ok: bool)
    requires s.n > 0 && |s.nodes| == s.n
  {
    && (ok <==> s.nodes[s.Slot(s.head)].head == s.head)
    && (ok ==> s.head in s'.results)
    && s'.head == (if ok then s.head + 1 else s.head) && s'.tail == s.tail
    && s'.pushLog == s.pushLog
    && s'.producers == s.producers && s'.consumers == s.consumers[id := CIdle]
  }

  lemma PopAloneEffect<T>(s: State<T>, id: nat)
    requires s.n > 0 && |s.nodes| == s.n && s.C(id) == CIdle
    ensures PopEffect(s, id, PopAlone(s, id).0, PopAlone(s, id).1)
  {
    var s2 := CheckedPop(s, id);
    if s2.C(id) == CIdle {
      CheckedEffect(s, id, s2);
    } else {
      FinishPopEffect(s2, id);
      PublishedEffect(s, id, s2, Apply(ReadPop(s2, id), CPublish(id)));
    }
  }

  lemma CheckedEffect<T>(s: State<T>, id: nat, s2: State<T>)
    requires s.n > 0 && |s.nodes| == s.n && s.C(id) == CIdle
    requires s.nodes[s.Slot(s.head)].head != s.head && s2 == s.WithC(id, CIdle)
    ensures PopEffect(s, id, s2, false)
  {
  }

  lemma PublishedEffect<T>(s: State<T>, id: nat, s2: State<T>, s': State<T>)
    requires s.n > 0 && |s.nodes| == s.n && s.C(id) == CIdle
    requires s.nodes[s.Slot(s.head)].head == s.head && s2 == s.WithC(id, CChecked(s.head))
    requires s2.head in s'.results && s'.head == s2.head + 1 && s'.tail == s2.tail && s'.pushLog == s2.pushLog
    requires s'.producers == s2.producers && s'.consumers == s2.consumers[id := CIdle]
    ensures PopEffect(s, id, s', true)
  {
  }

  lemma CheckedPop<T>(s: State<T>, id: nat) returns (s2: State<T>)
    requires s.n > 0 && |s.nodes| == s.n && s.C(id) == CIdle
    ensures s2 == Apply(Apply(s, CStart(id)), CCheck(id))
    ensures s2 == s.WithC(id, if s.nodes[s.Slot(s.head)].head == s.head then CChecked(s.head) else CIdle)
  {
    var s1 := Apply(s, CStart(id));
    assert s1 == s.WithC(id, CLoaded(s.head));
    s2 := Apply(s1, CCheck(id));
  }

  lemma HeadSlotFilledIff<T>(s: State<T>)
    requires Inv(s) && Quiescent(s)
    ensures s.nodes[s.Slot(s.head)].head == s.head <==> s.head < s.tail
  {
    AndMask(s.head, s.n);
    assert NodeInv(s, s.head % s.n);
    if s.head < s.tail { assert LiveInv(s, s.head); }
  }

  /** What one atomic queue answers to a pop. */
  ghost predicate PopFifo<T>(s: State<T>, s': State<T>, ok: bool)
    requires s.head <= s.tail <= |s.pushLog| && s'.head <= s'.tail <= |s'.pushLog|
  {
    && (ok <==> Contents(s) != [])
    && (ok ==> s.head in s'.results && s'.results[s.head] == Some(Contents(s)[0]))
    && Contents(s') == if ok then Contents(s)[1..] else Contents(s)
  }

  lemma EffectIsFifo<T>(s: State<T>, id: nat, s': State<T>, ok: bool)
    requires Inv(s) && Quiescent(s) && Inv(s') && PopEffect(s, id, s', ok)
    ensures Quiescent(s') && PopFifo(s, s', ok)
  {
    HeadSlotFilledIff(s);
    AllIdleAgain(s, s', id);
    if ok { assert PopInv(s', s.head); }
  }

  /** With nobody else inside a call, a pop takes the oldest element, and fails if and only if there is none. */
  lemma PopAloneFifo<T>(s: State<T>, id: nat)
    requires Inv(s) && Quiescent(s)
    ensures var (s', ok) := PopAlone(s, id);
      Inv(s') && Quiescent(s') && PopFifo(s, s', ok)
  {
    assert s.C(id) == CIdle;
    PopAloneEffect(s, id);
    PopAloneKeepsInv(s, id);
    EffectIsFifo(s, id, PopAlone(s, id).0, PopAlone(s, id).1);
  }

  // ---------------------------------------------------------------- refused although not full

  /** "Refused only when full" fails with several producers: thread 0 loads ticket 0, thread 1
      pushes and thread 2 pops, and then thread 0's push is refused by the empty queue. */
  lemma RefusedWhileEmpty<T>(v: T) returns (loaded: State<T>, pushed: State<T>, popped: State<T>)
    ensures loaded == Apply(Init(2), PStart(0, v))
    ensures pushed == PushAlone(loaded, 1, v).0 && popped == PopAlone(pushed, 2).0
    ensures popped.n == 2 && |popped.nodes| == 2 && popped.head == popped.tail == 1
    ensures popped.P(0) == PLoaded(v, 0) && Apply(popped, PCheck(0)).P(0) == PIdle
  {
    loaded := FirstLoad(v);
    pushed := RacePush(loaded, v);
    popped := RacePop(pushed, v);
  }

  lemma FirstLoad<T>(v: T) returns (s: State<T>)
    ensures s == Apply(Init(2), PStart(0, v)) == Init(2).WithP(0, PLoaded(v, 0))
    ensures Inv(s)
  {
    assert And(2, 1) == 0;
    GuardIffPowerOfTwo(2);
    InitInv<T>(2);
    StepKeepsInv(Init<T>(2), PStart(0, v));
    s := Apply(Init<T>(2), PStart(0, v));
  }

  lemma RacePush<T>(s: State<T>, v: T) returns (s': State<T>)
    requires Inv(s) && s == Init(2).WithP(0, PLoaded(v, 0))
    ensures s' == PushAlone(s, 1, v).0 && Inv(s')
    ensures s'.n == 2 && s'.head == 0 && s'.tail == 1 && s'.C(2) == CIdle
    ensures s'.producers == map[0 := PLoaded(v, 0), 1 := PIdle]
  {
    assert And(0, 1) == 0;
    assert s.Slot(s.tail) == 0 && s.nodes[0].tail == 0;
    PushAloneEffect(s, 1, v);
    PushAloneKeepsInv(s, 1, v);
    s' := PushAlone(s, 1, v).0;
  }

  lemma RacePop<T>(s: State<T>, v: T) returns (s': State<T>)
    requires Inv(s) && s.n == 2 && s.head == 0 && s.tail == 1 && s.C(2) == CIdle
    requires s.producers == map[0 := PLoaded(v, 0), 1 := PIdle]
    ensures s' == PopAlone(s, 2).0
    ensures s'.n == 2 && |s'.nodes| == 2 && s'.head == s'.tail == 1
    ensures s'.P(0) == PLoaded(v, 0) && Apply(s', PCheck(0)).P(0) == PIdle
  {
    assert And(0, 1) == 0;
    assert LiveInv(s, 0) && NodeInv(s, 0);
    PopAloneEffect(s, 2);
    PopAloneKeepsInv(s, 2);
    s' := PopAlone(s, 2).0;
    PushRefusedIff(s', 0, v, 0);
  }
}
