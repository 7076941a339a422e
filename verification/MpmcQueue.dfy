/** The ticketed ring shared by any number of producers and consumers. Each load, store,
    compare-and-swap and end of a copy is one step of one thread; memory is sequentially
    consistent and tickets are unbounded. */
module MpmcQueue {
  import opened Wrappers
  import opened Bits

  /** `data` is None while the slot holds no constructed object. */
  datatype Node<T> = Node(data: Option<T>, tail: int, head: int)

  /** Where a thread is inside `Push(v)`, with the ticket it holds in its local `tail`. */
  datatype Producer<T> =
    | PIdle
    | PLoaded(v: T, t: nat)
    | PChecked(v: T, t: nat)
    | PClaimed(v: T, t: nat)
    | PWriting(v: T, t: nat)
    | PWritten(v: T, t: nat)
  {
    predicate Owns(ticket: nat) {
      (PClaimed? || PWriting? || PWritten?) && t == ticket
    }
  }

  /** Where a thread is inside `Pop`, with the ticket it holds in its local `head`. */
  datatype Consumer<T> =
    | CIdle
    | CLoaded(h: nat)
    | CChecked(h: nat)
    | CClaimed(h: nat)
    | CReading(h: nat)
    | CRead(h: nat, got: Option<T>)
  {
    predicate Owns(ticket: nat) {
      (CClaimed? || CReading? || CRead?) && h == ticket
    }
  }

  /** `pushLog[t]` is the thread that won push ticket t and its value, `popLog[h]` the thread
      that won pop ticket h, `results[h]` what that pop returned once it has finished. */
  datatype State<T> = State(
    n: nat, tail: nat, head: nat, nodes: seq<Node<T>>,
    producers: map<nat, Producer<T>>, consumers: map<nat, Consumer<T>>,
    pushLog: seq<(nat, T)>, popLog: seq<nat>, results: map<nat, Option<T>>)
  {
    function P(id: nat): Producer<T> { if id in producers then producers[id] else PIdle }
    function C(id: nat): Consumer<T> { if id in consumers then consumers[id] else CIdle }
    function WithP(id: nat, p: Producer<T>): State<T> { this.(producers := producers[id := p]) }
    function WithC(id: nat, c: Consumer<T>): State<T> { this.(consumers := consumers[id := c]) }
    function Slot(ticket: nat): nat requires n > 0 { And(ticket, n - 1) }
  }

  datatype Action<T> =
    | PStart(id: nat, v: T) | PCheck(id: nat) | PCas(id: nat, spurious: bool)
    | PBegin(id: nat) | PEnd(id: nat) | PPublish(id: nat)
    | CStart(id: nat) | CCheck(id: nat) | CCas(id: nat, spurious: bool)
    | CBegin(id: nat) | CEnd(id: nat) | CPublish(id: nat)

  function Init<T>(n: nat): State<T> {
    State(n, 0, 0, seq(n, i => Node(None, i, -1)), map[], map[], [], [], map[])
  }

  /** One step of one producer. */
  function PushStep<T>(s: State<T>, id: nat, a: Action<T>): State<T>
    requires s.n > 0 && |s.nodes| == s.n
  {
    match (a, s.P(id))
    case (PStart(_, v), PIdle) => s.WithP(id, PLoaded(v, s.tail))
    case (PCheck(_), PLoaded(v, t)) =>
      s.WithP(id, if s.nodes[s.Slot(t)].tail != t then PIdle else PChecked(v, t))
    case (PCas(_, spurious), PChecked(v, t)) =>
      if spurious || s.tail != t then s.WithP(id, PLoaded(v, s.tail))
      else s.WithP(id, PClaimed(v, t)).(tail := t + 1, pushLog := s.pushLog + [(id, v)])
    case (PBegin(_), PClaimed(v, t)) => s.WithP(id, PWriting(v, t))
    case (PEnd(_), PWriting(v, t)) =>
      s.WithP(id, PWritten(v, t)).(nodes := s.nodes[s.Slot(t) := s.nodes[s.Slot(t)].(data := Some(v))])
    case (PPublish(_), PWritten(v, t)) =>
      s.WithP(id, PIdle).(nodes := s.nodes[s.Slot(t) := s.nodes[s.Slot(t)].(head := t)])
    case _ => s
  }

  /** One step of one consumer; the slot's object is destroyed as soon as it is copied out. */
  function PopStep<T>(s: State<T>, id: nat, a: Action<T>): State<T>
    requires s.n > 0 && |s.nodes| == s.n
  {
    match (a, s.C(id))
    case (CStart(_), CIdle) => s.WithC(id, CLoaded(s.head))
    case (CCheck(_), CLoaded(h)) =>
      s.WithC(id, if s.nodes[s.Slot(h)].head != h then CIdle else CChecked(h))
    case (CCas(_, spurious), CChecked(h)) =>
      if spurious || s.head != h then s.WithC(id, CLoaded(s.head))
      else s.WithC(id, CClaimed(h)).(head := h + 1, popLog := s.popLog + [id])
    case (CBegin(_), CClaimed(h)) => s.WithC(id, CReading(h))
    case (CEnd(_), CReading(h)) =>
      var node := s.nodes[s.Slot(h)];
      s.WithC(id, CRead(h, node.data)).(nodes := s.nodes[s.Slot(h) := node.(data := None)])
    case (CPublish(_), CRead(h, got)) =>
      s.WithC(id, CIdle).(nodes := s.nodes[s.Slot(h) := s.nodes[s.Slot(h)].(tail := h + s.n)],
                          results := s.results[h := got])
    case _ => s
  }

  predicate IsPush<T>(a: Action<T>) {
    a.PStart? || a.PCheck? || a.PCas? || a.PBegin? || a.PEnd? || a.PPublish?
  }

  function Apply<T>(s: State<T>, a: Action<T>): (s': State<T>)
    requires s.n > 0 && |s.nodes| == s.n
    ensures s'.n == s.n && |s'.nodes| == s.n
  {
    if IsPush(a) then PushStep(s, a.id, a) else PopStep(s, a.id, a)
  }

  function Run<T>(s: State<T>, actions: seq<Action<T>>): (s': State<T>)
    requires s.n > 0 && |s.nodes| == s.n
    ensures s'.n == s.n && |s'.nodes| == s.n
    decreases |actions|
  {
    if actions == [] then s else Run(Apply(s, actions[0]), actions[1..])
  }

  // ---------------------------------------------------------------- invariant

  ghost predicate Tickets<T>(s: State<T>) {
    && IsPowerOfTwo(s.n) && |s.nodes| == s.n > 0
    && |s.pushLog| == s.tail && |s.popLog| == s.head
    && s.head <= s.tail <= s.head + s.n
  }

  /** The slot's `tail` is the ticket it serves: free for it, being written, full, or being read. */
  ghost predicate NodeInv<T>(s: State<T>, i: nat)
    requires Tickets(s) && i < s.n
  {
    var x := s.nodes[i];
    && 0 <= x.tail < s.tail + s.n && s.tail <= x.tail + s.n && x.tail % s.n == i
    && x.head <= x.tail && x.head < s.tail
    && (x.tail >= s.tail ==> x.head < x.tail && x.data == None)
    && (x.tail < s.tail && x.head != x.tail ==> s.P(s.pushLog[x.tail].0).Owns(x.tail))
    && (x.tail < s.head ==> s.C(s.popLog[x.tail]).Owns(x.tail))
    && (s.head <= x.tail < s.tail && x.head == x.tail ==> x.data == Some(s.pushLog[x.tail].1))
  }

  ghost predicate LiveInv<T>(s: State<T>, k: nat)
    requires Tickets(s) && s.head <= k < s.tail
  {
    s.nodes[k % s.n].tail == k
  }

  ghost predicate PopInv<T>(s: State<T>, h: nat)
    requires Tickets(s) && h < s.head
  {
    && (h in s.results <==> s.nodes[h % s.n].tail != h)
    && (h in s.results ==> s.nodes[h % s.n].tail > h && s.results[h] == Some(s.pushLog[h].1))
  }

  ghost predicate ProducerInv<T>(s: State<T>, id: nat)
    requires Tickets(s)
  {
    var p := s.P(id);
    && (p.PLoaded? || p.PChecked? ==> p.t <= s.tail)
    && (p.PChecked? && p.t == s.tail ==> s.nodes[p.t % s.n].tail == p.t)
    && (p.PClaimed? || p.PWriting? || p.PWritten? ==>
          && p.t < s.tail && s.pushLog[p.t] == (id, p.v)
          && s.nodes[p.t % s.n].tail == p.t && s.nodes[p.t % s.n].head != p.t
          && s.nodes[p.t % s.n].data == if p.PWritten? then Some(p.v) else None)
  }

  ghost predicate ConsumerInv<T>(s: State<T>, id: nat)
    requires Tickets(s)
  {
    var c := s.C(id);
    && (c.CLoaded? || c.CChecked? ==> c.h <= s.head)
    && (c.CChecked? && c.h == s.head ==> s.nodes[c.h % s.n].head == c.h)
    && (c.CClaimed? || c.CReading? || c.CRead? ==>
          && c.h < s.head && s.popLog[c.h] == id
          && s.nodes[c.h % s.n].tail == c.h && s.nodes[c.h % s.n].head == c.h
          && s.nodes[c.h % s.n].data == (if c.CRead? then None else Some(s.pushLog[c.h].1))
          && (c.CRead? ==> c.got == Some(s.pushLog[c.h].1)))
  }

  /** The parts of the invariant that speak about slots and tickets, not about threads. */
  ghost predicate SlotsInv<T>(s: State<T>) {
    && Tickets(s)
    && (forall i | 0 <= i < s.n :: NodeInv(s, i))
    && (forall k | s.head <= k < s.tail :: LiveInv(s, k))
    && (forall j | 0 <= j < s.head :: PopInv(s, j))
    && (forall j | j in s.results :: j < s.head)
  }

  ghost predicate ThreadsInv<T>(s: State<T>)
    requires Tickets(s)
  {
    (forall q: nat :: ProducerInv(s, q)) && (forall q: nat :: ConsumerInv(s, q))
  }

  ghost predicate Inv<T>(s: State<T>) {
    SlotsInv(s) && ThreadsInv(s)
  }

  // ---------------------------------------------------------------- steps

  lemma InitInv<T>(n: nat)
    requires IsPowerOfTwo(n) && n > 0
    ensures Inv(Init<T>(n))
  {
    var s := Init<T>(n);
    forall i | 0 <= i < n ensures NodeInv(s, i) { ModOf(i, n, 0, i); }
  }

  /** Winning push ticket `t`: no ticket is handed out twice and at most N are outstanding. */
  lemma PushClaimKeepsInv<T>(s: State<T>, id: nat, v: T)
    requires Inv(s) && s.P(id) == PChecked(v, s.tail)
    ensures Inv(PushStep(s, id, PCas(id, false)))
  {
    hide And;
    var s' := PushStep(s, id, PCas(id, false));
    var t := s.tail;
    assert ProducerInv(s, id);
    assert s.nodes[t % s.n].tail == t;
    SameSlotOneLapLater(s.head, s.n);
    if s.head < s.tail { assert LiveInv(s, s.head); }
    assert Tickets(s');
    forall i | 0 <= i < s.n ensures NodeInv(s', i) {
      assert NodeInv(s, i);
      var x := s.nodes[i];
      SameSlotOneLapLater(x.tail, s.n);
      if x.tail < s.tail && x.head != x.tail {
        assert s.pushLog[x.tail].0 != id by { assert ProducerInv(s, id); }
      }
    }
    forall k | s'.head <= k < s'.tail ensures LiveInv(s', k) { if k < t { assert LiveInv(s, k); } }
    forall h | 0 <= h < s'.head ensures PopInv(s', h) { assert PopInv(s, h); }
    forall q: nat ensures ProducerInv(s', q) {
      assert ProducerInv(s, q);
      assert NodeInv(s, t % s.n);
    }
    forall q: nat ensures ConsumerInv(s', q) { assert ConsumerInv(s, q); }
  }

  /** Winning pop ticket `h`. */
  lemma PopClaimKeepsInv<T>(s: State<T>, id: nat)
    requires Inv(s) && s.C(id) == CChecked(s.head)
    ensures Inv(PopStep(s, id, CCas(id, false)))
  {
    hide And;
    var s' := PopStep(s, id, CCas(id, false));
    var h := s.head;
    assert ConsumerInv(s, id);
    assert s.nodes[h % s.n].head == h;
    assert NodeInv(s, h % s.n);
    assert LiveInv(s, h);
    assert Tickets(s');
    forall i | 0 <= i < s.n ensures NodeInv(s', i) {
      assert NodeInv(s, i);
      var x := s.nodes[i];
      if x.tail < s.head { assert s.popLog[x.tail] != id; }
    }
    forall k | s'.head <= k < s'.tail ensures LiveInv(s', k) { assert LiveInv(s, k); }
    forall j | 0 <= j < s'.head ensures PopInv(s', j) { if j < h { assert PopInv(s, j); } }
    forall q: nat ensures ProducerInv(s', q) { assert ProducerInv(s, q); }
    forall q: nat ensures ConsumerInv(s', q) { assert ConsumerInv(s, q); }
  }

  /** Steps that only move one thread's program counter and touch nothing shared. */
  lemma LocalPushKeepsInv<T>(s: State<T>, id: nat, p: Producer<T>)
    requires Inv(s) && ProducerInv(s.WithP(id, p), id)
    requires forall t: nat :: s.P(id).Owns(t) ==> p.Owns(t)
    ensures Inv(s.WithP(id, p))
  {
    var s' := s.WithP(id, p);
    forall i | 0 <= i < s.n ensures NodeInv(s', i) { assert NodeInv(s, i); }
    forall k | s'.head <= k < s'.tail ensures LiveInv(s', k) { assert LiveInv(s, k); }
    forall j | 0 <= j < s'.head ensures PopInv(s', j) { assert PopInv(s, j); }
    forall q: nat ensures ProducerInv(s', q) { assert ProducerInv(s, q); }
    forall q: nat ensures ConsumerInv(s', q) { assert ConsumerInv(s, q); }
  }

  lemma LocalPopKeepsInv<T>(s: State<T>, id: nat, c: Consumer<T>)
    requires Inv(s) && ConsumerInv(s.WithC(id, c), id)
    requires forall t: nat :: s.C(id).Owns(t) ==> c.Owns(t)
    ensures Inv(s.WithC(id, c))
  {
    var s' := s.WithC(id, c);
    forall i | 0 <= i < s.n ensures NodeInv(s', i) { assert NodeInv(s, i); }
    forall k | s'.head <= k < s'.tail ensures LiveInv(s', k) { assert LiveInv(s, k); }
    forall j | 0 <= j < s'.head ensures PopInv(s', j) { assert PopInv(s, j); }
    forall q: nat ensures ProducerInv(s', q) { assert ProducerInv(s, q); }
    forall q: nat ensures ConsumerInv(s', q) { assert ConsumerInv(s, q); }
  }

  /** Constructing the object in a claimed slot. */
  lemma PushWriteKeepsInv<T>(s: State<T>, id: nat)
    requires Inv(s) && s.P(id).PWriting?
    ensures Inv(PushStep(s, id, PEnd(id)))
  {
    PushWriteSlots(s, id);
    PushWriteThreads(s, id);
  }

  /** The tickets, counters and logs are as they were. */
  ghost predicate SameTickets<T>(s: State<T>, s': State<T>) {
    && s'.n == s.n && |s'.nodes| == |s.nodes| && s'.tail == s.tail && s'.head == s.head
    && s'.pushLog == s.pushLog && s'.popLog == s.popLog && s'.results == s.results
    && (forall i :: 0 <= i < |s.nodes| ==> s'.nodes[i].tail == s.nodes[i].tail)
  }

  lemma TicketsKept<T>(s: State<T>, s': State<T>)
    requires SlotsInv(s) && SameTickets(s, s')
    ensures Tickets(s') && (forall j | j in s'.results :: j < s'.head)
    ensures forall k | s'.head <= k < s'.tail :: LiveInv(s', k)
    ensures forall j | 0 <= j < s'.head :: PopInv(s', j)
  {
    hide NodeInv, IsPowerOfTwo;
    forall k | s'.head <= k < s'.tail ensures LiveInv(s', k) { assert LiveInv(s, k); }
    forall j | 0 <= j < s'.head ensures PopInv(s', j) { assert PopInv(s, j); }
  }

  lemma PushWriteNode<T>(s: State<T>, id: nat, i: nat)
    requires Inv(s) && s.P(id).PWriting? && i < s.n && Tickets(PushStep(s, id, PEnd(id)))
    ensures NodeInv(PushStep(s, id, PEnd(id)), i)
  {
    hide And, LiveInv, PopInv, ConsumerInv;
    var t := s.P(id).t;
    assert ProducerInv(s, id) && NodeInv(s, i);
    AndMask(t, s.n);
  }

  lemma PushWriteSlots<T>(s: State<T>, id: nat)
    requires Inv(s) && s.P(id).PWriting?
    ensures SlotsInv(PushStep(s, id, PEnd(id)))
  {
    hide And, NodeInv, LiveInv, PopInv, ProducerInv, ConsumerInv;
    var s' := PushStep(s, id, PEnd(id));
    TicketsKept(s, s');
    forall i | 0 <= i < s.n ensures NodeInv(s', i) { PushWriteNode(s, id, i); }
  }

  lemma PushWriteThreads<T>(s: State<T>, id: nat)
    requires Inv(s) && s.P(id).PWriting? && Tickets(PushStep(s, id, PEnd(id)))
    ensures ThreadsInv(PushStep(s, id, PEnd(id)))
  {
    hide And, NodeInv, LiveInv, PopInv;
    var s' := PushStep(s, id, PEnd(id));
    var t := s.P(id).t;
    assert ProducerInv(s, id);
    AndMask(t, s.n);
    forall q: nat ensures ProducerInv(s', q) { assert ProducerInv(s, q); }
    forall q: nat ensures ConsumerInv(s', q) { assert ConsumerInv(s, q); }
  }

  /** Publishing the object to the consumers. */
  lemma PushPublishKeepsInv<T>(s: State<T>, id: nat)
    requires Inv(s) && s.P(id).PWritten?
    ensures Inv(PushStep(s, id, PPublish(id)))
  {
    PushPublishSlots(s, id);
    PushPublishThreads(s, id);
  }

  lemma PushPublishNode<T>(s: State<T>, id: nat, i: nat)
    requires Inv(s) && s.P(id).PWritten? && i < s.n && Tickets(PushStep(s, id, PPublish(id)))
    ensures NodeInv(PushStep(s, id, PPublish(id)), i)
  {
    hide And, LiveInv, PopInv, ConsumerInv;
    var t := s.P(id).t;
    assert ProducerInv(s, id) && NodeInv(s, i) && NodeInv(s, t % s.n);
    AndMask(t, s.n);
  }

  lemma PushPublishSlots<T>(s: State<T>, id: nat)
    requires Inv(s) && s.P(id).PWritten?
    ensures SlotsInv(PushStep(s, id, PPublish(id)))
  {
    hide And, NodeInv, LiveInv, PopInv, ProducerInv, ConsumerInv;
    var s' := PushStep(s, id, PPublish(id));
    TicketsKept(s, s');
    forall i | 0 <= i < s.n ensures NodeInv(s', i) { PushPublishNode(s, id, i); }
  }

  lemma PushPublishThreads<T>(s: State<T>, id: nat)
    requires Inv(s) && s.P(id).PWritten? && Tickets(PushStep(s, id, PPublish(id)))
    ensures ThreadsInv(PushStep(s, id, PPublish(id)))
  {
    hide And, PopInv;
    var s' := PushStep(s, id, PPublish(id));
    var t := s.P(id).t;
    assert ProducerInv(s, id);
    AndMask(t, s.n);
    assert NodeInv(s, t % s.n);
    if s.head < s.tail { assert LiveInv(s, s.head); }
    forall q: nat ensures ProducerInv(s', q) { assert ProducerInv(s, q); }
    forall q: nat ensures ConsumerInv(s', q) { assert ConsumerInv(s, q); }
  }

  /** Copying the object out of a claimed slot destroys it. */
  lemma PopReadKeepsInv<T>(s: State<T>, id: nat)
    requires Inv(s) && s.C(id).CReading?
    ensures Inv(PopStep(s, id, CEnd(id)))
  {
    PopReadSlots(s, id);
    PopReadThreads(s, id);
  }

  lemma PopReadNode<T>(s: State<T>, id: nat, i: nat)
    requires Inv(s) && s.C(id).CReading? && i < s.n && Tickets(PopStep(s, id, CEnd(id)))
    ensures NodeInv(PopStep(s, id, CEnd(id)), i)
  {
    hide And, LiveInv, PopInv, ProducerInv;
    var h := s.C(id).h;
    assert ConsumerInv(s, id) && NodeInv(s, i) && NodeInv(s, h % s.n);
    AndMask(h, s.n);
  }

  lemma PopReadSlots<T>(s: State<T>, id: nat)
    requires Inv(s) && s.C(id).CReading?
    ensures SlotsInv(PopStep(s, id, CEnd(id)))
  {
    hide And, NodeInv, LiveInv, PopInv, ProducerInv, ConsumerInv;
    var s' := PopStep(s, id, CEnd(id));
    TicketsKept(s, s');
    forall i | 0 <= i < s.n ensures NodeInv(s', i) { PopReadNode(s, id, i); }
  }

  lemma PopReadThreads<T>(s: State<T>, id: nat)
    requires Inv(s) && s.C(id).CReading? && Tickets(PopStep(s, id, CEnd(id)))
    ensures ThreadsInv(PopStep(s, id, CEnd(id)))
  {
    hide And, NodeInv, LiveInv, PopInv;
    var s' := PopStep(s, id, CEnd(id));
    var h := s.C(id).h;
    assert ConsumerInv(s, id);
    AndMask(h, s.n);
    forall q: nat ensures ProducerInv(s', q) { assert ProducerInv(s, q); }
    forall q: nat ensures ConsumerInv(s', q) { assert ConsumerInv(s, q); }
  }

  /** Handing the slot to the push ticket one lap later. */
  lemma PopPublishKeepsInv<T>(s: State<T>, id: nat)
    requires Inv(s) && s.C(id).CRead?
    ensures Inv(PopStep(s, id, CPublish(id)))
  {
    PopPublishTickets(s, id);
    PopPublishSlots(s, id);
    PopPublishThreads(s, id);
  }

  lemma PopPublishNode<T>(s: State<T>, id: nat, i: nat)
    requires Inv(s) && s.C(id).CRead? && i < s.n && Tickets(PopStep(s, id, CPublish(id)))
    ensures NodeInv(PopStep(s, id, CPublish(id)), i)
  {
    hide And, LiveInv, PopInv, ProducerInv;
    var h := s.C(id).h;
    assert ConsumerInv(s, id) && NodeInv(s, i) && NodeInv(s, h % s.n);
    AndMask(h, s.n);
    SameSlotOneLapLater(h, s.n);
  }

  lemma PopPublishSlots<T>(s: State<T>, id: nat)
    requires Inv(s) && s.C(id).CRead? && Tickets(PopStep(s, id, CPublish(id)))
    ensures forall i | 0 <= i < s.n :: NodeInv(PopStep(s, id, CPublish(id)), i)
  {
    hide And, NodeInv, LiveInv, PopInv, ProducerInv, ConsumerInv;
    forall i | 0 <= i < s.n ensures NodeInv(PopStep(s, id, CPublish(id)), i) { PopPublishNode(s, id, i); }
  }

  lemma PopPublishTickets<T>(s: State<T>, id: nat)
    requires Inv(s) && s.C(id).CRead?
    ensures var s' := PopStep(s, id, CPublish(id));
      && Tickets(s')
      && (forall k | s'.head <= k < s'.tail :: LiveInv(s', k))
      && (forall j | 0 <= j < s'.head :: PopInv(s', j))
      && (forall j | j in s'.results :: j < s'.head)
  {
    hide And, ProducerInv;
    var s' := PopStep(s, id, CPublish(id));
    var h := s.C(id).h;
    assert ConsumerInv(s, id);
    AndMask(h, s.n);
    assert NodeInv(s, h % s.n);
    forall k | s'.head <= k < s'.tail ensures LiveInv(s', k) { assert LiveInv(s, k); }
    forall j | 0 <= j < s'.head ensures PopInv(s', j) { assert PopInv(s, j); }
  }

  lemma PopPublishThreads<T>(s: State<T>, id: nat)
    requires Inv(s) && s.C(id).CRead? && Tickets(PopStep(s, id, CPublish(id)))
    ensures ThreadsInv(PopStep(s, id, CPublish(id)))
  {
    hide And, NodeInv, LiveInv, PopInv;
    var s' := PopStep(s, id, CPublish(id));
    assert ConsumerInv(s, id);
    AndMask(s.C(id).h, s.n);
    forall q: nat ensures ProducerInv(s', q) { assert ProducerInv(s, q); }
    forall q: nat ensures ConsumerInv(s', q) { assert ConsumerInv(s, q); }
  }

  lemma PushStepKeepsInv<T>(s: State<T>, a: Action<T>)
    requires Inv(s) && IsPush(a)
    ensures Inv(Apply(s, a))
  {
    hide And, NodeInv, LiveInv, PopInv;
    var id := a.id;
    assert ProducerInv(s, id);
    match (a, s.P(id))
    case (PStart(_, v), PIdle) => LocalPushKeepsInv(s, id, PLoaded(v, s.tail));
    case (PCheck(_), PLoaded(v, t)) =>
      AndMask(t, s.n);
      LocalPushKeepsInv(s, id, PIdle);
      if s.nodes[t % s.n].tail == t { LocalPushKeepsInv(s, id, PChecked(v, t)); }
    case (PCas(_, spurious), PChecked(v, t)) =>
      if spurious || s.tail != t { LocalPushKeepsInv(s, id, PLoaded(v, s.tail)); }
      else { PushClaimKeepsInv(s, id, v); }
    case (PBegin(_), PClaimed(v, t)) => LocalPushKeepsInv(s, id, PWriting(v, t));
    case (PEnd(_), PWriting(v, t)) => PushWriteKeepsInv(s, id);
    case (PPublish(_), PWritten(v, t)) => PushPublishKeepsInv(s, id);
    case _ =>
  }

  lemma PopStepKeepsInv<T>(s: State<T>, a: Action<T>)
    requires Inv(s) && !IsPush(a)
    ensures Inv(Apply(s, a))
  {
    hide And, NodeInv, LiveInv, PopInv;
    var id := a.id;
    assert ConsumerInv(s, id);
    match (a, s.C(id))
    case (CStart(_), CIdle) => LocalPopKeepsInv(s, id, CLoaded(s.head));
    case (CCheck(_), CLoaded(h)) =>
      AndMask(h, s.n);
      LocalPopKeepsInv(s, id, CIdle);
      if s.nodes[h % s.n].head == h { LocalPopKeepsInv(s, id, CChecked(h)); }
    case (CCas(_, spurious), CChecked(h)) =>
      if spurious || s.head != h { LocalPopKeepsInv(s, id, CLoaded(s.head)); }
      else { PopClaimKeepsInv(s, id); }
    case (CBegin(_), CClaimed(h)) => LocalPopKeepsInv(s, id, CReading(h));
    case (CEnd(_), CReading(h)) => PopReadKeepsInv(s, id);
    case (CPublish(_), CRead(h, got)) => PopPublishKeepsInv(s, id);
    case _ =>
  }

  /** Winners of tickets and finished pops are never rewritten. */
  ghost predicate Extends<T>(s: State<T>, s': State<T>) {
    && s.pushLog <= s'.pushLog && s.popLog <= s'.popLog
    && forall h | h in s.results :: h in s'.results && s'.results[h] == s.results[h]
  }

  lemma StepKeepsInv<T>(s: State<T>, a: Action<T>)
    requires Inv(s)
    ensures Inv(Apply(s, a)) && Extends(s, Apply(s, a))
  {
    if IsPush(a) {
      PushStepKeepsInv(s, a);
    } else {
      PopStepKeepsInv(s, a);
      assert ConsumerInv(s, a.id);
      if s.C(a.id).CRead? { assert PopInv(s, s.C(a.id).h); }
    }
  }

  lemma {:induction false} RunKeepsInv<T>(s: State<T>, actions: seq<Action<T>>)
    requires Inv(s)
    ensures Inv(Run(s, actions)) && Extends(s, Run(s, actions))
    decreases |actions|
  {
    if actions != [] {
      StepKeepsInv(s, actions[0]);
      RunKeepsInv(Apply(s, actions[0]), actions[1..]);
    }
  }

  // ---------------------------------------------------------------- theorems

  /** No slot belongs to two threads at once, on either side or across the sides. */
  ghost predicate Exclusive<T>(s: State<T>)
    requires s.n > 0
  {
    && (forall p: nat, q: nat, t: nat, u: nat | p != q && s.P(p).Owns(t) && s.P(q).Owns(u) :: t % s.n != u % s.n)
    && (forall c: nat, d: nat, h: nat, g: nat | c != d && s.C(c).Owns(h) && s.C(d).Owns(g) :: h % s.n != g % s.n)
    && (forall p: nat, c: nat, t: nat, h: nat | s.P(p).Owns(t) && s.C(c).Owns(h) :: t % s.n != h % s.n)
  }

  lemma InvExclusive<T>(s: State<T>)
    requires Inv(s)
    ensures Exclusive(s)
  {
    forall p: nat, q: nat, t: nat, u: nat | p != q && s.P(p).Owns(t) && s.P(q).Owns(u) ensures t % s.n != u % s.n {
      assert ProducerInv(s, p) && ProducerInv(s, q);
    }
    forall c: nat, d: nat, h: nat, g: nat | c != d && s.C(c).Owns(h) && s.C(d).Owns(g) ensures h % s.n != g % s.n {
      assert ConsumerInv(s, c) && ConsumerInv(s, d);
    }
    forall p: nat, c: nat, t: nat, h: nat | s.P(p).Owns(t) && s.C(c).Owns(h) ensures t % s.n != h % s.n {
      assert ProducerInv(s, p) && ConsumerInv(s, c);
    }
  }

  /** No producer or consumer is between its call and its return. */
  ghost predicate Quiescent<T>(s: State<T>) {
    (forall id: nat :: s.P(id) == PIdle) && (forall id: nat :: s.C(id) == CIdle)
  }

  /** Any number of threads, any interleaving: each ticket is won once, at most N are
      outstanding, no slot is shared, and the pop of ticket h returns the value of push h. */
  lemma EveryScheduleIsSafe<T>(n: nat, actions: seq<Action<T>>)
    requires n != 0 && And(n, n - 1) == 0
    ensures var s := Run(Init(n), actions);
      && |s.pushLog| == s.tail && |s.popLog| == s.head
      && s.head <= s.tail <= s.head + n
      && Exclusive(s)
      && (forall h | h in s.results :: h < s.head && s.results[h] == Some(s.pushLog[h].1))
      && (Quiescent(s) ==> forall h: nat :: h in s.results <==> h < s.head)
  {
    GuardIffPowerOfTwo(n);
    InitInv<T>(n);
    RunKeepsInv(Init<T>(n), actions);
    var s := Run(Init<T>(n), actions);
    InvExclusive(s);
    forall h | h in s.results ensures s.results[h] == Some(s.pushLog[h].1) { assert PopInv(s, h); }
    if Quiescent(s) {
      forall h: nat | h < s.head ensures h in s.results {
        assert PopInv(s, h);
        assert NodeInv(s, h % s.n);
      }
    }
  }

  /** Continuing a schedule never rewrites the winner of a ticket or a finished pop. */
  lemma SchedulesExtend<T>(n: nat, actions: seq<Action<T>>, more: seq<Action<T>>)
    requires n != 0 && And(n, n - 1) == 0
    ensures Extends(Run(Init(n), actions), Run(Init(n), actions + more))
  {
    GuardIffPowerOfTwo(n);
    InitInv<T>(n);
    RunKeepsInv(Init<T>(n), actions);
    RunKeepsInv(Run(Init<T>(n), actions), more);
    RunConcat(Init<T>(n), actions, more);
  }

  lemma {:induction false} RunConcat<T>(s: State<T>, actions: seq<Action<T>>, more: seq<Action<T>>)
    requires s.n > 0 && |s.nodes| == s.n
    ensures Run(s, actions + more) == Run(Run(s, actions), more)
    decreases |actions|
  {
    if actions == [] {
      assert actions + more == more;
    } else {
      assert (actions + more)[1..] == actions[1..] + more;
      RunConcat(Apply(s, actions[0]), actions[1..], more);
    }
  }

  /** A push that loaded ticket t is refused exactly when that ticket has meanwhile been pushed
      and popped by others, or the pop one lap before it has not finished. */
  lemma PushRefusedIff<T>(s: State<T>, id: nat, v: T, t: nat)
    requires Inv(s) && s.P(id) == PLoaded(v, t)
    ensures Apply(s, PCheck(id)).P(id) == PIdle <==>
      t in s.results || (t == s.tail >= s.n && t - s.n !in s.results)
  {
    AndMask(t, s.n);
    assert ProducerInv(s, id);
    var x := s.nodes[t % s.n];
    if t < s.head {
      assert PopInv(s, t);
    } else if t < s.tail {
      assert LiveInv(s, t);
    } else {
      assert NodeInv(s, t % s.n);
      if t >= s.n {
        SameSlotOneLapLater(t - s.n, s.n);
        if t - s.n < s.head { assert PopInv(s, t - s.n); } else { assert LiveInv(s, t - s.n); }
      }
      if x.tail != t { SameSlotDifference(x.tail, t, s.n); }
    }
  }

  /** Push ticket `t` has been won and its winner has made the value visible. */
  predicate Published<T>(s: State<T>, t: nat) {
    t < |s.pushLog| && !s.P(s.pushLog[t].0).Owns(t)
  }

  /** The slot's `head` is the ticket it serves, the one a lap before, or nothing yet. */
  predicate HeadFits<T>(x: Node<T>, n: nat) {
    x.head == x.tail || x.head == x.tail - n || (x.head == -1 && x.tail < n)
  }

  ghost predicate HeadsInv<T>(s: State<T>) {
    forall i :: 0 <= i < |s.nodes| ==> HeadFits(s.nodes[i], s.n)
  }

  lemma StepKeepsHeads<T>(s: State<T>, a: Action<T>)
    requires Inv(s) && HeadsInv(s)
    ensures HeadsInv(Apply(s, a))
  {
    hide And, NodeInv, LiveInv, PopInv, ThreadsInv, HeadsInv, PushStep, PopStep;
    if IsPush(a) { PushKeepsHeads(s, a); } else { PopKeepsHeads(s, a); }
  }

  lemma PushKeepsHeads<T>(s: State<T>, a: Action<T>)
    requires Inv(s) && HeadsInv(s)
    ensures HeadsInv(PushStep(s, a.id, a))
  {
    hide And, NodeInv, LiveInv, PopInv, ConsumerInv;
    assert ProducerInv(s, a.id);
    if s.P(a.id).PWriting? || s.P(a.id).PWritten? { AndMask(s.P(a.id).t, s.n); }
  }

  lemma PopKeepsHeads<T>(s: State<T>, a: Action<T>)
    requires Inv(s) && HeadsInv(s)
    ensures HeadsInv(PopStep(s, a.id, a))
  {
    hide And, NodeInv, LiveInv, PopInv, ProducerInv;
    assert ConsumerInv(s, a.id);
    if s.C(a.id).CReading? || s.C(a.id).CRead? { AndMask(s.C(a.id).h, s.n); }
  }

  lemma {:induction false} RunKeepsHeads<T>(s: State<T>, actions: seq<Action<T>>)
    requires Inv(s) && HeadsInv(s)
    ensures HeadsInv(Run(s, actions))
    decreases |actions|
  {
    hide HeadsInv, NodeInv, LiveInv, PopInv, ThreadsInv, PushStep, PopStep;
    if actions != [] {
      StepKeepsInv(s, actions[0]);
      StepKeepsHeads(s, actions[0]);
      RunKeepsHeads(Apply(s, actions[0]), actions[1..]);
    }
  }

  /** In every run, a pop that loaded ticket h is refused exactly when push h is not published yet, or
      push h + N already is, which takes another thread's pop of h. */
  lemma PopRefusedIff<T>(n: nat, actions: seq<Action<T>>, id: nat)
    requires n != 0 && And(n, n - 1) == 0
    ensures var s := Run(Init<T>(n), actions);
      s.C(id).CLoaded? ==> var h := s.C(id).h;
        && (Apply(s, CCheck(id)).C(id) == CIdle <==> !Published(s, h) || Published(s, h + n))
        && (Published(s, h + n) ==> h in s.results)
  {
    GuardIffPowerOfTwo(n);
    InitInv<T>(n);
    RunKeepsInv(Init<T>(n), actions);
    RunKeepsHeads(Init<T>(n), actions);
    hide Run, And;
    var s := Run(Init<T>(n), actions);
    if s.C(id).CLoaded? { LoadedPopRefusedIff(s, id, s.C(id).h); }
  }

  lemma LoadedPopRefusedIff<T>(s: State<T>, id: nat, h: nat)
    requires Inv(s) && HeadsInv(s) && s.C(id) == CLoaded(h)
    ensures Apply(s, CCheck(id)).C(id) == CIdle <==> !Published(s, h) || Published(s, h + s.n)
    ensures Published(s, h + s.n) ==> h in s.results
  {
    hide And;
    AndMask(h, s.n);
    assert ConsumerInv(s, id) && NodeInv(s, h % s.n);
    hide ConsumerInv;
    SlotHeadIs(s, h);
  }

  /** A push ticket whose winner is still at work has its slot, not yet visible. */
  lemma OwnedSlot<T>(s: State<T>, t: nat)
    requires Inv(s) && t < s.tail && !Published(s, t)
    ensures s.nodes[t % s.n].tail == t && s.nodes[t % s.n].head != t
  {
    hide And, NodeInv, LiveInv, PopInv, ConsumerInv;
    assert ProducerInv(s, s.pushLog[t].0);
  }

  /** The slot of a pop ticket that is taken but not finished still shows its element. */
  lemma TakenSlot<T>(s: State<T>, h: nat)
    requires Inv(s) && h < s.head && h !in s.results
    ensures s.nodes[h % s.n].tail == h && s.nodes[h % s.n].head == h
  {
    hide And, LiveInv, ProducerInv;
    assert PopInv(s, h) && NodeInv(s, h % s.n) && ConsumerInv(s, s.popLog[h]);
  }

  lemma LapLater(a: nat, b: nat, n: nat)
    requires n > 0
    ensures a % n == b % n && b < a ==> b + n <= a
  {
    if a % n == b % n && b < a < b + n { SlotsDistinct(b, a, n); }
  }

  /** What the slot of a ticket no later than the head counter shows. */
  lemma SlotHeadIs<T>(s: State<T>, h: nat)
    requires Inv(s) && HeadsInv(s) && h <= s.head
    ensures s.nodes[h % s.n].head == h <==> Published(s, h) && !Published(s, h + s.n)
    ensures Published(s, h + s.n) ==> h in s.results
  {
    hide And, NodeInv, LiveInv, PopInv, ThreadsInv, Published;
    if h in s.results {
      FinishedSlot(s, h);
    } else if h < s.head {
      TakenSlot(s, h);
      if !Published(s, h) { OwnedSlot(s, h); }
      NotYet(s, h);
    } else {
      HeadSlot(s);
      NotYet(s, h);
    }
  }

  /** The push one lap after an unfinished pop has not been won. */
  lemma NotYet<T>(s: State<T>, h: nat)
    requires Inv(s) && h <= s.head && h !in s.results
    ensures !Published(s, h + s.n)
  {
    hide And, LiveInv, ThreadsInv;
    if h < s.head { assert PopInv(s, h) && NodeInv(s, h % s.n); }
  }

  lemma HeadSlot<T>(s: State<T>)
    requires Inv(s)
    ensures s.nodes[s.head % s.n].head == s.head <==> Published(s, s.head)
  {
    hide And, PopInv, ConsumerInv;
    var x := s.nodes[s.head % s.n];
    assert NodeInv(s, s.head % s.n);
    if s.head < s.tail {
      assert LiveInv(s, s.head);
      if !Published(s, s.head) { OwnedSlot(s, s.head); }
    }
  }

  lemma FinishedSlot<T>(s: State<T>, h: nat)
    requires Inv(s) && HeadsInv(s) && h in s.results
    ensures s.nodes[h % s.n].head == h <==> Published(s, h) && !Published(s, h + s.n)
  {
    hide And, LiveInv, ThreadsInv;
    var n, x := s.n, s.nodes[h % s.n];
    assert PopInv(s, h) && NodeInv(s, h % n) && HeadFits(x, n);
    LapLater(x.tail, h, n);
    LapLater(x.tail, h + n, n);
    SameSlotOneLapLater(h, n);
    if !Published(s, h) { OwnedSlot(s, h); }
    if h + n < s.tail && !Published(s, h + n) { OwnedSlot(s, h + n); }
  }
}
