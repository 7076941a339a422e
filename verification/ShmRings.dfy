/** The rings of the session protocol are the rings of `SpscProtocol`: every step does at most one operation
    on a ring, each ring has one pushing and one popping side, and over any run the operations on a ring are
    a history of the bounded FIFO that every schedule of `SpscProtocol` is. */
module ShmRings {
  import opened Wrappers
  import opened ShmProtocol
  import opened ShmSessions
  import Ring = SpscProtocol

  /** A ring or queue that carries messages: of one channel in shared memory, or at the server. */
  datatype RingId = ToServer(c: nat) | ToClient(c: nat) | ServerSend | ServerReceive

  function Contents<B>(s: State<B>, ring: RingId): seq<Msg<B>> {
    match ring
    case ToServer(c) => if c < |s.channels| then s.channels[c].toServer else []
    case ToClient(c) => if c < |s.channels| then s.channels[c].toClient else []
    case ServerSend => s.server.sendQ
    case ServerReceive => s.server.recvQ
  }

  function Capacity<B>(s: State<B>, ring: RingId): nat {
    if ring.ToServer? || ring.ToClient? then s.ringCap else s.serverCap
  }

  // ---------------------------------------------------------------- one operation

  /** What the ring answers a push and a pop. */
  function PushAnswer<T>(q: seq<T>, x: T, capacity: nat): Ring.Event<T> {
    if |q| < capacity then Ring.Pushed(x) else Ring.PushFull
  }

  function PopAnswer<T>(q: seq<T>): Ring.Event<T> {
    if q == [] then Ring.PopEmpty else Ring.Popped(Some(q[0]))
  }

  /** The FIFO may give this answer, and then holds this. */
  ghost predicate FifoStep<T>(q: seq<T>, capacity: nat, e: Ring.Event<T>, q': seq<T>) {
    Ring.FifoMay(q, capacity, e) && q' == Ring.FifoNext(q, e)
  }

  /** These are the only answers the FIFO may give. */
  lemma AnswersAreForced<T>(q: seq<T>, x: T, capacity: nat, e: Ring.Event<T>)
    requires |q| <= capacity
    ensures e == Ring.Pushed(x) || e == Ring.PushFull ==>
        (Ring.FifoMay(q, capacity, e) <==> e == PushAnswer(q, x, capacity))
    ensures e.Popped? || e.PopEmpty? ==> (Ring.FifoMay(q, capacity, e) <==> e == PopAnswer(q))
  {
  }

  // ---------------------------------------------------------------- which step does which operation

  /** What a client's step asks of the ring to the server. */
  function SentUp<B>(cl: Client<B>, act: ClientAction<B>, zero: Item<B>): Option<Msg<B>> {
    match (act, cl.phase)
    case (SendLogin, Claimed) => Some(Msg(LOGIN, 0, cl.channel, zero))
    case (SendClientAck, Acking(ack)) => Some(ack)
    case (Handle(_), Running(Sending)) => Some(cl.dataMsg)
    case (Handle(beat), Running(Beat)) => if beat then Some(Msg(HEARTBEAT, 0, cl.channel, zero)) else None
    case _ => None
  }

  /** Whether a client's step asks the ring from the server for a message. */
  predicate TakesDown<B>(cl: Client<B>, act: ClientAction<B>) {
    (act.PollHandshake? && cl.phase.Handshaking?) || (act.Handle? && cl.phase == Running(Receive))
  }

  function ClientEvent<B>(s: State<B>, cl: Client<B>, act: ClientAction<B>, ring: RingId): Ring.Event<Msg<B>> {
    var q := Contents(s, ring);
    if ring == ToServer(cl.channel) && SentUp(cl, act, s.zero).Some?
    then PushAnswer(q, SentUp(cl, act, s.zero).value, s.ringCap)
    else if ring == ToClient(cl.channel) && TakesDown(cl, act) then PopAnswer(q)
    else Ring.Tau
  }

  function PollEvent<B>(s: State<B>, ring: RingId): Ring.Event<Msg<B>> {
    var q, v, cap := Contents(s, ring), s.server, Capacity(s, ring);
    match v.pc
    case Poll(i) => if ring == ToServer(i) then PopAnswer(q) else Ring.Tau
    case Deliver(_) => if ring == ServerReceive then PushAnswer(q, v.msg, cap) else Ring.Tau
    case Ack(i) => if ring == ToClient(i) then PushAnswer(q, Msg(SERVER_ACK, 0, i, s.zero), cap) else Ring.Tau
    case Drain => if ring == ServerSend then PopAnswer(q) else Ring.Tau
    case Forward => if ring.ToClient? && ring.c == v.msg.channelId then PushAnswer(q, v.msg, cap) else Ring.Tau
    case _ => Ring.Tau
  }

  function UserEvent<B>(s: State<B>, a: Action<B>, ring: RingId): Ring.Event<Msg<B>> {
    match a
    case ServerPush(data) =>
      var c := data.channelId;
      if ring == ServerSend && 0 <= c < |s.channels|
      then PushAnswer(s.server.sendQ, Msg(DATA, 0, c, Item(data, |s.channels[c].down.log|)), s.serverCap)
      else Ring.Tau
    case ServerPop => if ring == ServerReceive then PopAnswer(s.server.recvQ) else Ring.Tau
    case _ => Ring.Tau
  }

  /** The operation a step does on a ring, with its answer. */
  function EventOn<B>(s: State<B>, a: Action<B>, ring: RingId): Ring.Event<Msg<B>> {
    match a
    case OfClient(name, act) =>
      if name in s.clients && s.clients[name].channel < |s.channels| then ClientEvent(s, s.clients[name], act, ring)
      else Ring.Tau
    case ServerPoll(_) => PollEvent(s, ring)
    case _ => UserEvent(s, a, ring)
  }

  lemma ClientStepIsFifo<B>(ch: Channel<B>, cl: Client<B>, act: ClientAction<B>, cap: nat, zero: Item<B>)
    requires |ch.toServer| <= cap && |ch.toClient| <= cap
    ensures var ch' := ClientStep(ch, cl, act, cap, zero).0;
      && FifoStep(ch.toServer, cap,
                  if SentUp(cl, act, zero).Some? then PushAnswer(ch.toServer, SentUp(cl, act, zero).value, cap)
                  else Ring.Tau, ch'.toServer)
      && FifoStep(ch.toClient, cap, if TakesDown(cl, act) then PopAnswer(ch.toClient) else Ring.Tau, ch'.toClient)
  {
  }

  ghost predicate RingsFit<B>(s: State<B>) {
    forall ring :: |Contents(s, ring)| <= Capacity(s, ring)
  }

  lemma ClientIsFifo<B>(s: State<B>, name: string, act: ClientAction<B>, ring: RingId)
    requires Inv(s) && RingsFit(s)
    ensures var a := OfClient(name, act);
      FifoStep(Contents(s, ring), Capacity(s, ring), EventOn(s, a, ring), Contents(Apply(s, a), ring))
  {
    hide ViewInv, ClientStep, SentUp, TakesDown;
    if name in s.clients {
      var cl := s.clients[name];
      assert |Contents(s, ToServer(cl.channel))| <= s.ringCap && |Contents(s, ToClient(cl.channel))| <= s.ringCap;
      ClientStepIsFifo(s.channels[cl.channel], cl, act, s.ringCap, s.zero);
    }
  }

  lemma ReceivingIsFifo<B>(s: State<B>, expire: bool, ring: RingId)
    requires ValidPc(s) && (s.server.pc.Poll? || s.server.pc.Deliver?)
    requires |Contents(s, ring)| <= Capacity(s, ring)
    ensures FifoStep(Contents(s, ring), Capacity(s, ring), PollEvent(s, ring), Contents(PollStep(s, expire), ring))
  {
  }

  lemma SendingIsFifo<B>(s: State<B>, expire: bool, ring: RingId)
    requires ValidPc(s) && (s.server.pc.Ack? || s.server.pc.Drain? || s.server.pc.Forward?)
    requires |Contents(s, ring)| <= Capacity(s, ring)
    ensures FifoStep(Contents(s, ring), Capacity(s, ring), PollEvent(s, ring), Contents(PollStep(s, expire), ring))
  {
  }

  lemma FlaggingIsFifo<B>(s: State<B>, expire: bool, ring: RingId)
    requires ValidPc(s) && (s.server.pc.Accept? || s.server.pc.Expire?)
    ensures FifoStep(Contents(s, ring), Capacity(s, ring), PollEvent(s, ring), Contents(PollStep(s, expire), ring))
  {
  }

  lemma PollIsFifo<B>(s: State<B>, expire: bool, ring: RingId)
    requires ValidPc(s) && RingsFit(s)
    ensures var a := ServerPoll(expire);
      FifoStep(Contents(s, ring), Capacity(s, ring), EventOn(s, a, ring), Contents(Apply(s, a), ring))
  {
    hide PollStep, PollEvent, FifoStep, ValidPc, Contents, Capacity;
    match s.server.pc
    case Poll(_) => ReceivingIsFifo(s, expire, ring);
    case Deliver(_) => ReceivingIsFifo(s, expire, ring);
    case Accept(_) => FlaggingIsFifo(s, expire, ring);
    case Expire(_) => FlaggingIsFifo(s, expire, ring);
    case _ => SendingIsFifo(s, expire, ring);
  }

  /** Claiming a channel clears rings that are empty already. */
  lemma StartIsQuiet<B>(s: State<B>, clientName: string, ring: RingId)
    requires Inv(s)
    ensures Contents(Apply(s, Start(clientName)), ring) == Contents(s, ring)
  {
    hide Fate;
    var name := ClientName(clientName);
    var found := FindChannel(s.channels, name, 0);
    if name != "" && name !in s.clients && found.Some? {
      var i := found.value;
      assert ViewInv(ViewOf(s, i), i) && ViewOf(s, i).owner == None;
    }
  }

  /** Every step is at most one operation of a bounded FIFO on each ring. */
  lemma EveryStepIsFifo<B>(s: State<B>, a: Action<B>, ring: RingId)
    requires Inv(s) && RingsFit(s)
    ensures FifoStep(Contents(s, ring), Capacity(s, ring), EventOn(s, a, ring), Contents(Apply(s, a), ring))
  {
    match a
    case OfClient(name, act) => ClientIsFifo(s, name, act, ring);
    case ServerPoll(expire) => PollIsFifo(s, expire, ring);
    case Start(clientName) => StartIsQuiet(s, clientName, ring);
    case _ =>
  }

  /** Each ring has one side that pushes and one that pops. */
  lemma OneProducerOneConsumer<B>(s: State<B>, a: Action<B>, ring: RingId)
    requires Inv(s)
    ensures var e := EventOn(s, a, ring);
      && (e.Pushed? || e.PushFull? ==>
            match ring
            case ToServer(c) => a.OfClient? && c < |s.channels| && a.name == s.channels[c].name
            case ToClient(_) => a.ServerPoll?
            case ServerSend => a.ServerPush?
            case ServerReceive => a.ServerPoll?)
      && (e.Popped? || e.PopEmpty? ==>
            match ring
            case ToServer(_) => a.ServerPoll?
            case ToClient(c) => a.OfClient? && c < |s.channels| && a.name == s.channels[c].name
            case ServerSend => a.ServerPoll?
            case ServerReceive => a.ServerPop?)
  {
    hide ViewInv;
  }

  // ---------------------------------------------------------------- whole runs

  /** The operations a run does on a ring, in order. */
  ghost function EventsOn<B>(s: State<B>, actions: seq<Action<B>>, ring: RingId): seq<Ring.Event<Msg<B>>>
    requires Inv(s)
    decreases |actions|
  {
    if actions == [] then []
    else
      StepKeepsInv(s, actions[0]);
      [EventOn(s, actions[0], ring)] + EventsOn(Apply(s, actions[0]), actions[1..], ring)
  }

  lemma FifoFits<T>(q: seq<T>, capacity: nat, e: Ring.Event<T>, q': seq<T>)
    requires FifoStep(q, capacity, e, q') && |q| <= capacity
    ensures |q'| <= capacity
  {
  }

  lemma StepKeepsCapacities<B>(s: State<B>, a: Action<B>)
    requires ValidPc(s)
    ensures Apply(s, a).ringCap == s.ringCap && Apply(s, a).serverCap == s.serverCap
  {
    hide ClientStep, ValidPc, FindChannel;
  }

  lemma StepKeepsFit<B>(s: State<B>, a: Action<B>)
    requires Inv(s) && RingsFit(s)
    ensures RingsFit(Apply(s, a))
    ensures forall ring :: Capacity(Apply(s, a), ring) == Capacity(s, ring)
  {
    StepKeepsCapacities(s, a);
    hide Apply, EventOn, FifoStep, Inv, Contents;
    forall ring ensures |Contents(Apply(s, a), ring)| <= Capacity(Apply(s, a), ring) {
      EveryStepIsFifo(s, a, ring);
      FifoFits(Contents(s, ring), Capacity(s, ring), EventOn(s, a, ring), Contents(Apply(s, a), ring));
    }
  }

  lemma {:induction false} RunIsFifo<B>(s: State<B>, actions: seq<Action<B>>, ring: RingId)
    requires Inv(s) && RingsFit(s)
    ensures Ring.FifoHistory(Contents(s, ring), Capacity(s, ring), EventsOn(s, actions, ring),
                             Contents(Run(s, actions), ring))
    decreases |actions|
  {
    if actions != [] {
      var s' := Apply(s, actions[0]);
      StepKeepsInv(s, actions[0]);
      StepKeepsFit(s, actions[0]);
      EveryStepIsFifo(s, actions[0], ring);
      RunIsFifo(s', actions[1..], ring);
    }
  }

  lemma RingsStartEmpty<B>(channelSize: nat, shmQueueSize: nat, zero: Item<B>)
    requires channelSize > 0 && shmQueueSize > 0
    ensures var s := Init(channelSize, shmQueueSize, zero);
      && s.ringCap == shmQueueSize - 1 && s.serverCap == 4 * shmQueueSize - 1
      && (forall ring :: Contents(s, ring) == []) && RingsFit(s)
  {
  }

  /** In every run of the session protocol the operations on each ring are a history of a FIFO of capacity
      N - 1 from empty, for rings of N slots in shared memory and of 4N at the server: the very histories
      that `EveryScheduleIsAFifo` proves of two threads inside such a ring. */
  lemma EveryRingIsAFifo<B>(channelSize: nat, shmQueueSize: nat, zero: Item<B>, actions: seq<Action<B>>, ring: RingId)
    requires channelSize > 0 && shmQueueSize > 0
    ensures Inv(Init(channelSize, shmQueueSize, zero))
    ensures var s := Init(channelSize, shmQueueSize, zero);
      var slots := if ring.ToServer? || ring.ToClient? then shmQueueSize else 4 * shmQueueSize;
      Ring.FifoHistory([], slots - 1, EventsOn(s, actions, ring), Contents(Run(s, actions), ring))
  {
    hide Inv, RingsFit, Init, Contents, Run, EventsOn;
    InitInv(channelSize, shmQueueSize, zero);
    RingsStartEmpty(channelSize, shmQueueSize, zero);
    RunIsFifo(Init(channelSize, shmQueueSize, zero), actions, ring);
  }

  // ---------------------------------------------------------------- a client's own queues

  /** The queues between a client's user and its handler. */
  datatype QueueId = Outbox(name: string) | Inbox(name: string)

  function Queued<B>(s: State<B>, queue: QueueId): seq<Item<B>> {
    if queue.name !in s.clients then []
    else if queue.Outbox? then s.clients[queue.name].sendQ else s.clients[queue.name].recvQ
  }

  /** The operation a client's step does on one of its queues. */
  function QueueEvent<B>(ch: Channel<B>, cl: Client<B>, act: ClientAction<B>, outbox: bool,
      cap: nat): Ring.Event<Item<B>>
  {
    match act
    case Push(data) => if outbox then PushAnswer(cl.sendQ, Item(data, |ch.up.log|), cap) else Ring.Tau
    case Pop => if outbox then Ring.Tau else PopAnswer(cl.recvQ)
    case Handle(_) =>
      if outbox && cl.phase == Running(Send) then PopAnswer(cl.sendQ)
      else if !outbox && cl.phase == Running(Delivering) then PushAnswer(cl.recvQ, cl.dataMsg.item, cap)
      else Ring.Tau
    case _ => Ring.Tau
  }

  function EventIn<B>(s: State<B>, a: Action<B>, queue: QueueId): Ring.Event<Item<B>> {
    if a.OfClient? && a.name == queue.name && a.name in s.clients && s.clients[a.name].channel < |s.channels|
    then QueueEvent(s.channels[s.clients[a.name].channel], s.clients[a.name], a.act, queue.Outbox?, s.ringCap)
    else Ring.Tau
  }

  lemma ClientQueuesAreFifo<B>(ch: Channel<B>, cl: Client<B>, act: ClientAction<B>, cap: nat, zero: Item<B>)
    requires |cl.sendQ| <= cap && |cl.recvQ| <= cap
    ensures var cl' := ClientStep(ch, cl, act, cap, zero).1;
      && FifoStep(cl.sendQ, cap, QueueEvent(ch, cl, act, true, cap), cl'.sendQ)
      && FifoStep(cl.recvQ, cap, QueueEvent(ch, cl, act, false, cap), cl'.recvQ)
  {
  }

  ghost predicate QueuesFit<B>(s: State<B>) {
    forall queue :: |Queued(s, queue)| <= s.ringCap
  }

  lemma PollKeepsClients<B>(s: State<B>, expire: bool)
    requires ValidPc(s)
    ensures PollStep(s, expire).clients == s.clients
  {
  }

  lemma EveryStepIsFifoIn<B>(s: State<B>, a: Action<B>, queue: QueueId)
    requires ValidPc(s) && QueuesFit(s)
    ensures FifoStep(Queued(s, queue), s.ringCap, EventIn(s, a, queue), Queued(Apply(s, a), queue))
  {
    hide ClientStep, QueueEvent, PollStep, ValidPc;
    if a.OfClient? && a.name in s.clients {
      var cl := s.clients[a.name];
      assert |Queued(s, Outbox(a.name))| <= s.ringCap && |Queued(s, Inbox(a.name))| <= s.ringCap;
      if cl.channel < |s.channels| { ClientQueuesAreFifo(s.channels[cl.channel], cl, a.act, s.ringCap, s.zero); }
    }
    if a.ServerPoll? { PollKeepsClients(s, a.expire); }
  }

  lemma StepKeepsQueuesFit<B>(s: State<B>, a: Action<B>)
    requires ValidPc(s) && QueuesFit(s)
    ensures QueuesFit(Apply(s, a)) && Apply(s, a).ringCap == s.ringCap
  {
    StepKeepsCapacities(s, a);
    hide Apply, EventIn, FifoStep, ValidPc, Queued;
    forall queue ensures |Queued(Apply(s, a), queue)| <= s.ringCap {
      EveryStepIsFifoIn(s, a, queue);
      FifoFits(Queued(s, queue), s.ringCap, EventIn(s, a, queue), Queued(Apply(s, a), queue));
    }
  }

  ghost function EventsIn<B>(s: State<B>, actions: seq<Action<B>>, queue: QueueId): seq<Ring.Event<Item<B>>>
    requires Inv(s)
    decreases |actions|
  {
    if actions == [] then []
    else
      StepKeepsInv(s, actions[0]);
      [EventIn(s, actions[0], queue)] + EventsIn(Apply(s, actions[0]), actions[1..], queue)
  }

  lemma {:induction false} RunIsFifoIn<B>(s: State<B>, actions: seq<Action<B>>, queue: QueueId)
    requires Inv(s) && QueuesFit(s)
    ensures Ring.FifoHistory(Queued(s, queue), s.ringCap, EventsIn(s, actions, queue), Queued(Run(s, actions), queue))
    decreases |actions|
  {
    hide ViewInv;
    if actions != [] {
      StepKeepsInv(s, actions[0]);
      StepKeepsQueuesFit(s, actions[0]);
      EveryStepIsFifoIn(s, actions[0], queue);
      RunIsFifoIn(Apply(s, actions[0]), actions[1..], queue);
      hide Apply, EventIn, Queued;
    }
  }

  /** The same of the queues between a client's user and its handler. */
  lemma EveryClientQueueIsAFifo<B>(channelSize: nat, shmQueueSize: nat, zero: Item<B>, actions: seq<Action<B>>,
      queue: QueueId)
    requires channelSize > 0 && shmQueueSize > 0
    ensures Inv(Init(channelSize, shmQueueSize, zero))
    ensures var s := Init(channelSize, shmQueueSize, zero);
      Ring.FifoHistory([], shmQueueSize - 1, EventsIn(s, actions, queue), Queued(Run(s, actions), queue))
  {
    hide Inv, Run, EventsIn;
    InitInv(channelSize, shmQueueSize, zero);
    RunIsFifoIn(Init(channelSize, shmQueueSize, zero), actions, queue);
  }
}
