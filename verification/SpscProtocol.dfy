/** The ring of `SpscQueue` used by two threads at once: one producer, one consumer.
    Every load, store and end of a copy is a step of its own; memory is sequentially consistent. */
module SpscProtocol {
  import opened Wrappers
  import opened Bits

  /** Where the producer is inside `Push(v)`; `w` is the write index it loaded. */
  datatype Producer<T> =
    | PIdle
    | PIndexed(v: T, w: nat)
    | PRoom(v: T, w: nat)
    | PCopying(v: T, w: nat)
    | PCopied(v: T, w: nat)

  /** Where the consumer is inside `Pop`; a read that overlaps a write of the same slot is torn. */
  datatype Consumer<T> =
    | CIdle
    | CIndexed(r: nat)
    | CReady(r: nat)
    | CCopying(r: nat, torn: bool)
    | CCopied(r: nat, got: Option<T>)

  /** A slot is None while it is half written. `pushed` and `popped` record what the
      two threads have published, in order. */
  datatype State<T> = State(
    n: nat, slots: seq<Option<T>>, head: nat, tail: nat,
    prod: Producer<T>, cons: Consumer<T>,
    pushed: seq<T>, popped: seq<Option<T>>)

  datatype Action<T> =
    | PStart(v: T) | PCheck | PBegin | PEnd | PPublish
    | CStart | CCheck | CBegin | CEnd | CPublish

  /** What a caller learns from a step. */
  datatype Event<T> = Tau | Pushed(v: T) | PushFull | Popped(got: Option<T>) | PopEmpty

  function Init<T>(n: nat, zero: T): State<T> {
    State(n, seq(n, _ => Some(zero)), 0, 0, PIdle, CIdle, [], [])
  }

  function Next(i: nat, n: nat): nat
    requires n > 0
  {
    And(i + 1, n - 1)
  }

  predicate InBounds<T>(s: State<T>) {
    && |s.slots| == s.n > 0
    && (s.prod.PIdle? || s.prod.w < s.n)
    && (s.cons.CIdle? || s.cons.r < s.n)
  }

  /** One step of one thread; a step its thread is not ready for changes nothing. */
  function Apply<T>(s: State<T>, a: Action<T>): (out: (State<T>, Event<T>))
    requires InBounds(s)
  {
    match (a, s.prod, s.cons)
    case (PStart(v), PIdle, _) =>
      (s.(prod := PIndexed(v, s.tail)), Tau)
    case (PCheck, PIndexed(v, w), _) =>
      if Next(w, s.n) == s.head then (s.(prod := PIdle), PushFull)
      else (s.(prod := PRoom(v, w)), Tau)
    case (PBegin, PRoom(v, w), c) =>
      var c' := if c.CCopying? && c.r == w then c.(torn := true) else c;
      (s.(prod := PCopying(v, w), cons := c', slots := s.slots[w := None]), Tau)
    case (PEnd, PCopying(v, w), _) =>
      (s.(prod := PCopied(v, w), slots := s.slots[w := Some(v)]), Tau)
    case (PPublish, PCopied(v, w), _) =>
      (s.(prod := PIdle, tail := Next(w, s.n), pushed := s.pushed + [v]), Pushed(v))
    case (CStart, _, CIdle) =>
      (s.(cons := CIndexed(s.head)), Tau)
    case (CCheck, _, CIndexed(r)) =>
      if r == s.tail then (s.(cons := CIdle), PopEmpty) else (s.(cons := CReady(r)), Tau)
    case (CBegin, p, CReady(r)) =>
      (s.(cons := CCopying(r, p.PCopying? && p.w == r)), Tau)
    case (CEnd, _, CCopying(r, torn)) =>
      (s.(cons := CCopied(r, if torn then None else s.slots[r])), Tau)
    case (CPublish, _, CCopied(r, got)) =>
      (s.(cons := CIdle, head := Next(r, s.n), popped := s.popped + [got]), Popped(got))
    case _ => (s, Tau)
  }

  /** The queue the two threads share, abstractly. */
  function Queue<T>(s: State<T>): seq<T>
    requires |s.popped| <= |s.pushed|
  {
    s.pushed[|s.popped|..]
  }

  ghost predicate RingInv<T>(s: State<T>) {
    && IsPowerOfTwo(s.n) && |s.slots| == s.n > 0
    && |s.popped| <= |s.pushed| <= |s.popped| + s.n - 1
    && s.head == |s.popped| % s.n && s.tail == |s.pushed| % s.n
    && (forall k :: 0 <= k < |s.popped| ==> s.popped[k] == Some(s.pushed[k]))
    && (forall k :: |s.popped| <= k < |s.pushed| ==> s.slots[k % s.n] == Some(s.pushed[k]))
  }

  ghost predicate ProducerInv<T>(s: State<T>)
    requires RingInv(s)
  {
    && (!s.prod.PIdle? ==> s.prod.w == s.tail)
    && (s.prod.PRoom? || s.prod.PCopying? || s.prod.PCopied? ==> |s.pushed| < |s.popped| + s.n - 1)
    && (s.prod.PCopied? ==> s.slots[s.tail] == Some(s.prod.v))
  }

  ghost predicate ConsumerInv<T>(s: State<T>)
    requires RingInv(s)
  {
    && (!s.cons.CIdle? ==> s.cons.r == s.head)
    && (s.cons.CReady? || s.cons.CCopying? || s.cons.CCopied? ==> |s.popped| < |s.pushed|)
    && (s.cons.CCopying? ==> !s.cons.torn)
    && (s.cons.CCopied? ==> s.cons.got == Some(s.pushed[|s.popped|]))
  }

  ghost predicate Inv<T>(s: State<T>) {
    RingInv(s) && ProducerInv(s) && ConsumerInv(s)
  }

  /** No slot is copied in and copied out at the same time. */
  predicate NoRace<T>(s: State<T>) {
    s.prod.PCopying? && s.cons.CCopying? ==> s.prod.w != s.cons.r && !s.cons.torn
  }

  lemma InvNoRace<T>(s: State<T>)
    requires Inv(s)
    ensures InBounds(s) && NoRace(s)
    ensures s.tail == s.head <==> Queue(s) == []
    ensures (s.tail + 1) % s.n == s.head <==> |Queue(s)| == s.n - 1
  {
    var h, t, n := |s.popped|, |s.pushed|, s.n;
    SlotsDistinct(h, t, n);
    NextSlot(t, n);
    if t + 1 == h + n { SameSlotOneLapLater(h, n); } else { SlotsDistinct(h, t + 1, n); }
  }

  /** A slot holding a queued element is never the producer's slot. */
  lemma QueuedSlotIsNotTail<T>(s: State<T>, k: nat)
    requires RingInv(s) && |s.popped| <= k < |s.pushed|
    ensures k % s.n != s.tail
  {
    SlotsDistinct(k, |s.pushed|, s.n);
  }

  /** Whether one atomic FIFO of the given capacity may answer `e` while holding `q`. */
  ghost predicate FifoMay<T>(q: seq<T>, capacity: nat, e: Event<T>) {
    match e
    case Tau => true
    case Pushed(v) => |q| < capacity
    case PushFull => |q| == capacity
    case Popped(got) => q != [] && got == Some(q[0])
    case PopEmpty => q == []
  }

  function FifoNext<T>(q: seq<T>, e: Event<T>): seq<T>
    requires e.Popped? ==> q != []
  {
    match e
    case Pushed(v) => q + [v]
    case Popped(_) => q[1..]
    case _ => q
  }

  /** The masked successor of a queue position's slot is the next position's slot. */
  lemma NextIsSuccessor(k: nat, n: nat)
    requires IsPowerOfTwo(n) && n > 0
    ensures Next(k % n, n) == (k + 1) % n
  {
    AndMask(k % n + 1, n);
    NextSlot(k, n);
  }

  /** A step's obligation: the invariant, the size and the answer of the abstract FIFO. */
  ghost predicate Refines<T>(s: State<T>, s': State<T>, e: Event<T>)
    requires Inv(s)
  {
    Inv(s') && s'.n == s.n && FifoMay(Queue(s), s.n - 1, e) && Queue(s') == FifoNext(Queue(s), e)
  }

  lemma CopyInRefines<T>(s: State<T>, a: Action<T>)
    requires Inv(s) && InBounds(s)
    requires (a == PBegin && s.prod.PRoom?) || (a == PEnd && s.prod.PCopying?)
    ensures Refines(s, Apply(s, a).0, Apply(s, a).1)
  {
    forall k | |s.popped| <= k < |s.pushed| ensures k % s.n != s.tail {
      QueuedSlotIsNotTail(s, k);
    }
    if s.cons.CCopying? {
      QueuedSlotIsNotTail(s, |s.popped|);
    }
  }

  lemma PublishPushRefines<T>(s: State<T>)
    requires Inv(s) && InBounds(s) && s.prod.PCopied?
    ensures Refines(s, Apply(s, PPublish).0, Apply(s, PPublish).1)
  {
    NextIsSuccessor(|s.pushed|, s.n);
  }

  lemma PublishPopRefines<T>(s: State<T>)
    requires Inv(s) && InBounds(s) && s.cons.CCopied?
    ensures Refines(s, Apply(s, CPublish).0, Apply(s, CPublish).1)
  {
    NextIsSuccessor(|s.popped|, s.n);
    var s' := Apply(s, CPublish).0;
    assert Queue(s') == Queue(s)[1..];
  }

  lemma FullCheckRefines<T>(s: State<T>)
    requires Inv(s) && InBounds(s) && s.prod.PIndexed?
    ensures Refines(s, Apply(s, PCheck).0, Apply(s, PCheck).1)
  {
    NextIsSuccessor(|s.pushed|, s.n);
    InvNoRace(s);
    NextSlot(|s.pushed|, s.n);
  }

  /** Starting, the consumer's check and its copy leave the queue as it is. */
  lemma QuietStepRefines<T>(s: State<T>, a: Action<T>)
    requires Inv(s) && InBounds(s) && (s.tail == s.head <==> Queue(s) == [])
    requires !((a == PBegin && s.prod.PRoom?) || (a == PEnd && s.prod.PCopying?) || (a.PPublish? && s.prod.PCopied?)
               || (a.CPublish? && s.cons.CCopied?) || (a.PCheck? && s.prod.PIndexed?))
    ensures Refines(s, Apply(s, a).0, Apply(s, a).1)
  {
    hide IsPowerOfTwo;
  }

  /** Every step of either thread is one step of a FIFO of capacity N - 1, or invisible. */
  lemma StepRefinesFifo<T>(s: State<T>, a: Action<T>)
    requires Inv(s)
    ensures InBounds(s) && Refines(s, Apply(s, a).0, Apply(s, a).1)
  {
    hide Inv, Refines, Apply;
    InvNoRace(s);
    if (a == PBegin && s.prod.PRoom?) || (a == PEnd && s.prod.PCopying?) {
      CopyInRefines(s, a);
    } else if a.PPublish? && s.prod.PCopied? {
      PublishPushRefines(s);
    } else if a.CPublish? && s.cons.CCopied? {
      PublishPopRefines(s);
    } else if a.PCheck? && s.prod.PIndexed? {
      FullCheckRefines(s);
    } else {
      QuietStepRefines(s, a);
    }
  }

  /** A schedule: the state after running the actions in order, and what the callers saw. */
  function Run<T>(s: State<T>, actions: seq<Action<T>>): (out: (State<T>, seq<Event<T>>))
    requires InBounds(s)
    decreases |actions|
  {
    if actions == [] then (s, [])
    else
      var (s', e) := Apply(s, actions[0]);
      if !InBounds(s') then (s', [e])
      else
        var (last, rest) := Run(s', actions[1..]);
        (last, [e] + rest)
  }

  /** The answers a FIFO of the given capacity could have given, starting from `q`. */
  ghost predicate FifoHistory<T>(q: seq<T>, capacity: nat, events: seq<Event<T>>, last: seq<T>)
    decreases |events|
  {
    if events == [] then last == q
    else FifoMay(q, capacity, events[0]) && FifoHistory(FifoNext(q, events[0]), capacity, events[1..], last)
  }

  ghost predicate Explained<T>(s: State<T>, out: (State<T>, seq<Event<T>>))
    requires RingInv(s)
  {
    Inv(out.0) && out.0.n == s.n && FifoHistory(Queue(s), s.n - 1, out.1, Queue(out.0))
  }

  lemma ExplainStep<T>(s: State<T>, s': State<T>, e: Event<T>, out: (State<T>, seq<Event<T>>))
    requires Inv(s) && Refines(s, s', e) && Explained(s', out)
    ensures Explained(s, (out.0, [e] + out.1))
  {
  }

  lemma {:induction false} RunRefinesFifo<T>(s: State<T>, actions: seq<Action<T>>)
    requires Inv(s) && InBounds(s)
    ensures |Run(s, actions).1| == |actions| && Explained(s, Run(s, actions))
    decreases |actions|
  {
    if actions != [] {
      StepRefinesFifo(s, actions[0]);
      var (s', e) := Apply(s, actions[0]);
      InvNoRace(s');
      RunRefinesFifo(s', actions[1..]);
      var out := Run(s', actions[1..]);
      ExplainStep(s, s', e, out);
      assert Run(s, actions) == (out.0, [e] + out.1);
    }
  }

  /** Under every interleaving from the empty ring: the callers see a FIFO of capacity N - 1,
      nothing popped is torn, and no slot is ever copied in and out at once. */
  lemma EveryScheduleIsAFifo<T>(n: nat, zero: T, actions: seq<Action<T>>)
    requires n != 0 && And(n, n - 1) == 0
    ensures var (last, events) := Run(Init(n, zero), actions);
      && |events| == |actions| && InBounds(last) && NoRace(last)
      && |last.popped| <= |last.pushed| <= |last.popped| + n - 1
      && (forall k :: 0 <= k < |last.popped| ==> last.popped[k] == Some(last.pushed[k]))
      && FifoHistory([], n - 1, events, last.pushed[|last.popped|..])
  {
    GuardIffPowerOfTwo(n);
    var s := Init(n, zero);
    RunRefinesFifo(s, actions);
    InvNoRace(Run(s, actions).0);
  }
}
