/** What every run of `ShmProtocol` keeps: the handshake, the routing and the fate of every message. */
module ShmSessions {
  import opened Wrappers
  import opened ShmProtocol

  // ---------------------------------------------------------------- accounting

  function Tags<B>(items: seq<Item<B>>): set<nat> {
    set j | 0 <= j < |items| :: items[j].tag
  }

  /** Every log entry is either among `items`, in log order, or recorded as lost. Items are the
      very payloads logged, or (`exact` false) carry the same body under another channel number. */
  ghost predicate Accounted<B>(exact: bool, log: seq<Payload<B>>, items: seq<Item<B>>, lost: map<nat, Loss>) {
    && (forall i, j :: 0 <= i < j < |items| ==> items[i].tag < items[j].tag)
    && (forall j :: 0 <= j < |items| ==> items[j].tag < |log| && Same(exact, items[j].data, log[items[j].tag]))
    && (forall t :: t in lost ==> t < |log| && t !in Tags(items))
    && (forall t: nat :: t < |log| && t !in lost ==> t in Tags(items))
  }

  ghost predicate Same<B>(exact: bool, a: Payload<B>, b: Payload<B>) {
    if exact then a == b else a.body == b.body
  }

  lemma AccountPush<B>(exact: bool, log: seq<Payload<B>>, items: seq<Item<B>>, lost: map<nat, Loss>, data: Payload<B>)
    requires Accounted(exact, log, items, lost)
    ensures Accounted(exact, log + [data], items + [Item(data, |log|)], lost)
  {
    var log', items' := log + [data], items + [Item(data, |log|)];
    forall t: nat | t in Tags(items) ensures t in Tags(items') {
      var j :| 0 <= j < |items| && items[j].tag == t;
      assert items'[j].tag == t;
    }
    assert items'[|items|].tag == |log|;
  }

  lemma TagsDrop<B>(before: seq<Item<B>>, x: Item<B>, after: seq<Item<B>>)
    ensures forall t :: t in Tags(before + [x] + after) && t != x.tag ==> t in Tags(before + after)
    ensures forall t :: t in Tags(before + after) ==> t in Tags(before + [x] + after)
  {
    var items, items' := before + [x] + after, before + after;
    var k := |before|;
    forall t: nat | t in Tags(items) && t != x.tag ensures t in Tags(items') {
      var j :| 0 <= j < |items| && items[j].tag == t;
      assert items'[if j < k then j else j - 1].tag == t;
    }
    forall t: nat | t in Tags(items') ensures t in Tags(items) {
      var j :| 0 <= j < |items'| && items'[j].tag == t;
      assert items[if j < k then j else j + 1].tag == t;
    }
  }

  /** Dropping one item and recording its tag keeps the account. */
  lemma AccountLoss<B>(exact: bool, log: seq<Payload<B>>, before: seq<Item<B>>, x: Item<B>, after: seq<Item<B>>,
      lost: map<nat, Loss>, why: Loss)
    requires Accounted(exact, log, before + [x] + after, lost)
    ensures Accounted(exact, log, before + after, lost[x.tag := why])
  {
    hide Same;
    var items, items' := before + [x] + after, before + after;
    var k := |before|;
    TagsDrop(before, x, after);
    assert items[k] == x;
    forall j | 0 <= j < |items'| ensures items'[j] == items[if j < k then j else j + 1] {}
    forall j | 0 <= j < |items'| ensures items'[j].tag != x.tag {}
  }

  /** Relabelling the payload of one item without touching its body keeps the account. */
  lemma AccountRelabel<B>(log: seq<Payload<B>>, before: seq<Item<B>>, x: Item<B>, y: Item<B>, after: seq<Item<B>>,
      lost: map<nat, Loss>)
    requires Accounted(false, log, before + [x] + after, lost) && x.tag == y.tag && x.data.body == y.data.body
    ensures Accounted(false, log, before + [y] + after, lost)
  {
    var items, items' := before + [x] + after, before + [y] + after;
    forall j | 0 <= j < |items| ensures items'[j].tag == items[j].tag && items'[j].data.body == items[j].data.body {}
    forall t: nat ensures t in Tags(items) <==> t in Tags(items') {
      if t in Tags(items) { var j :| 0 <= j < |items| && items[j].tag == t; assert items'[j].tag == t; }
      if t in Tags(items') { var j :| 0 <= j < |items| && items'[j].tag == t; assert items[j].tag == t; }
    }
  }

  // ---------------------------------------------------------------- one channel's view

  datatype Hand<B> = Free | HDeliver(m: Msg<B>) | HAck | HAccept | HForward(m: Msg<B>)

  /** All that concerns one channel: its shared memory, its client, what the server holds for it. */
  datatype View<B> = View(ch: Channel<B>, owner: Option<Client<B>>, hand: Hand<B>,
                          picked: seq<Item<B>>, pending: seq<Item<B>>)

  function Picked<B>(q: seq<Msg<B>>, c: int): seq<Item<B>> {
    if q == [] then [] else (if q[0].channelId == c then [q[0].item] else []) + Picked(q[1..], c)
  }

  function DataItems<B>(q: seq<Msg<B>>): seq<Item<B>> {
    if q == [] then [] else (if q[0].msgType == DATA then [q[0].item] else []) + DataItems(q[1..])
  }

  lemma {:induction false} PickedAppend<B>(q: seq<Msg<B>>, m: Msg<B>, c: int)
    ensures Picked(q + [m], c) == Picked(q, c) + (if m.channelId == c then [m.item] else [])
  {
    if q != [] {
      assert (q + [m])[1..] == q[1..] + [m];
      PickedAppend(q[1..], m, c);
    }
  }

  lemma {:induction false} DataAppend<B>(q: seq<Msg<B>>, m: Msg<B>)
    ensures DataItems(q + [m]) == DataItems(q) + (if m.msgType == DATA then [m.item] else [])
  {
    if q != [] {
      assert (q + [m])[1..] == q[1..] + [m];
      DataAppend(q[1..], m);
    }
  }

  function HandOf<B>(v: Server<B>, c: nat): Hand<B> {
    match v.pc
    case Deliver(i) => if i == c then HDeliver(v.msg) else Free
    case Ack(i) => if i == c then HAck else Free
    case Accept(i) => if i == c then HAccept else Free
    case Forward => if v.msg.channelId == c then HForward(v.msg) else Free
    case _ => Free
  }

  function OwnerOf<B>(s: State<B>, name: string): Option<Client<B>> {
    if name in s.clients then Some(s.clients[name]) else None
  }

  function ViewOf<B>(s: State<B>, c: nat): View<B>
    requires c < |s.channels|
  {
    View(s.channels[c], OwnerOf(s, s.channels[c].name), HandOf(s.server, c),
         Picked(s.server.recvQ, c), Picked(s.server.sendQ, c))
  }

  function ClientHand<B>(cl: Client<B>, pc: Pc): seq<Item<B>> {
    if cl.phase == Running(pc) then [cl.dataMsg.item] else []
  }

  function ClientUp<B>(o: Option<Client<B>>): seq<Item<B>> {
    if o.None? then [] else ClientHand(o.value, Sending) + o.value.sendQ
  }

  function ClientDown<B>(o: Option<Client<B>>): seq<Item<B>> {
    if o.None? then [] else o.value.recvQ + ClientHand(o.value, Delivering)
  }

  /** The item the server holds on its way from the client, or to it. */
  function HandUp<B>(hand: Hand<B>): seq<Item<B>> {
    if hand.HDeliver? then [hand.m.item] else []
  }

  function HandDown<B>(hand: Hand<B>): seq<Item<B>> {
    if hand.HForward? then [hand.m.item] else []
  }

  /** Client to server: handed out, then queued at the server, in its hand, in the ring, at the client. */
  function UpFlow<B>(v: View<B>): seq<Item<B>> {
    v.ch.up.out + v.picked + HandUp(v.hand)
    + DataItems(v.ch.toServer) + ClientUp(v.owner)
  }

  /** Server to client, likewise. */
  function DownFlow<B>(v: View<B>): seq<Item<B>> {
    v.ch.down.out + ClientDown(v.owner) + DataItems(v.ch.toClient)
    + HandDown(v.hand) + v.pending
  }

  // ---------------------------------------------------------------- the session invariant

  ghost predicate OnlyData<B>(q: seq<Msg<B>>, c: nat) {
    forall k :: 0 <= k < |q| ==> q[k].msgType == DATA && q[k].channelId == c
  }

  ghost predicate Quiet<B>(v: View<B>) {
    v.ch.toServer == [] && v.ch.toClient == [] && !v.ch.connected && v.hand == Free
  }

  /** At most one handshake message is under way, and it is the next one due. */
  ghost predicate LoginUnderWay<B>(v: View<B>, c: nat) {
    && !v.ch.connected
    && (|| (v.hand == Free && |v.ch.toServer| <= 1 && v.ch.toClient == []
            && (v.ch.toServer != [] ==> v.ch.toServer[0].msgType == LOGIN))
        || (v.hand == HAck && v.ch.toServer == [] && v.ch.toClient == [])
        || (v.hand == Free && v.ch.toServer == [] && |v.ch.toClient| == 1
            && v.ch.toClient[0].msgType == SERVER_ACK))
  }

  ghost predicate SessionRunning<B>(v: View<B>, c: nat, cl: Client<B>) {
    && cl.dataMsg.msgType == DATA && cl.dataMsg.channelId == c
    && OnlyData(v.ch.toClient, c)
    && (forall k :: 0 <= k < |v.ch.toServer| ==>
          && v.ch.toServer[k].channelId == c
          && v.ch.toServer[k].msgType in {DATA, CLIENT_ACK, HEARTBEAT})
    && v.hand != HAck
    && (v.hand.HDeliver? || v.hand.HForward? ==> v.hand.m.msgType == DATA && v.hand.m.channelId == c)
    && (v.hand.HForward? ==> v.ch.connected)
  }

  ghost predicate Session<B>(v: View<B>, c: nat) {
    match v.owner
    case None => Quiet(v)
    case Some(cl) =>
      && cl.channel == c
      && match cl.phase
         case Claimed => Quiet(v) && cl.dataMsg.msgType == DATA && cl.dataMsg.channelId == c
         case Handshaking => LoginUnderWay(v, c) && cl.dataMsg.msgType == DATA && cl.dataMsg.channelId == c
         case Failed => LoginUnderWay(v, c)
         case Acking(ack) =>
           Quiet(v) && ack.msgType == CLIENT_ACK && ack.channelId == c
           && cl.dataMsg.msgType == DATA && cl.dataMsg.channelId == c
         case Running(_) => SessionRunning(v, c, cl)
  }

  ghost predicate Fate<B>(v: View<B>, c: nat) {
    && Accounted(false, v.ch.up.log, UpFlow(v), v.ch.up.lost)
    && Accounted(true, v.ch.down.log, DownFlow(v), v.ch.down.lost)
    && (forall j :: 0 <= j < |v.ch.up.out| ==> v.ch.up.out[j].data.channelId == c)
    && (forall j :: 0 <= j < |v.ch.down.log| ==> v.ch.down.log[j].channelId == c)
    && (forall t :: t in v.ch.up.lost ==> v.ch.up.lost[t] in {SendRingFull, ServerQueueFull})
    && (forall t :: t in v.ch.down.lost ==> v.ch.down.lost[t] in {ClientRingFull, ClientQueueFull, Unconnected})
  }

  ghost predicate ViewInv<B>(v: View<B>, c: nat) {
    Session(v, c) && Fate(v, c)
  }

  // ---------------------------------------------------------------- client steps

  lemma StartView<B>(v: View<B>, c: nat, name: string, zero: Item<B>)
    requires ViewInv(v, c) && v.owner == None
    ensures ViewInv(v.(ch := v.ch.(name := name, toServer := [], toClient := []),
                       owner := Some(Client(c, Claimed, Msg(DATA, 0, c, zero), [], []))), c)
  {
  }

  function AfterClient<B>(v: View<B>, a: ClientAction<B>, cap: nat, zero: Item<B>): View<B>
    requires v.owner.Some?
  {
    var (ch, cl) := ClientStep(v.ch, v.owner.value, a, cap, zero);
    v.(ch := ch, owner := Some(cl))
  }

  lemma LoginView<B>(v: View<B>, c: nat, cap: nat, zero: Item<B>)
    requires ViewInv(v, c) && v.owner.Some? && v.owner.value.phase == Claimed
    ensures ViewInv(AfterClient(v, SendLogin, cap, zero), c)
  {
    var v' := AfterClient(v, SendLogin, cap, zero);
    DataAppend(v.ch.toServer, Msg(LOGIN, 0, v.owner.value.channel, zero));
    assert UpFlow(v') == UpFlow(v);
    assert DownFlow(v') == DownFlow(v);
  }

  lemma PollHandshakeView<B>(v: View<B>, c: nat, cap: nat, zero: Item<B>)
    requires ViewInv(v, c) && v.owner.Some? && v.owner.value.phase == Handshaking
    ensures ViewInv(AfterClient(v, PollHandshake, cap, zero), c)
  {
    var v' := AfterClient(v, PollHandshake, cap, zero);
    assert UpFlow(v') == UpFlow(v);
    assert DataItems(v'.ch.toClient) == DataItems(v.ch.toClient);
    assert DownFlow(v') == DownFlow(v);
  }

  lemma ClientAckView<B>(v: View<B>, c: nat, cap: nat, zero: Item<B>)
    requires ViewInv(v, c) && v.owner.Some? && v.owner.value.phase.Acking?
    ensures ViewInv(AfterClient(v, SendClientAck, cap, zero), c)
  {
    var v' := AfterClient(v, SendClientAck, cap, zero);
    DataAppend(v.ch.toServer, v.owner.value.phase.ack);
    assert UpFlow(v') == UpFlow(v);
    assert DownFlow(v') == DownFlow(v);
  }

  lemma HandshakeView<B>(v: View<B>, c: nat, a: ClientAction<B>, cap: nat, zero: Item<B>)
    requires ViewInv(v, c) && v.owner.Some? && (a.SendLogin? || a.PollHandshake? || a.GiveUp? || a.SendClientAck?)
    ensures ViewInv(AfterClient(v, a, cap, zero), c)
  {
    var phase := v.owner.value.phase;
    if a.SendLogin? && phase.Claimed? {
      LoginView(v, c, cap, zero);
    } else if a.PollHandshake? && phase.Handshaking? {
      PollHandshakeView(v, c, cap, zero);
    } else if a.SendClientAck? && phase.Acking? {
      ClientAckView(v, c, cap, zero);
    } else if a.GiveUp? && phase.Handshaking? {
      var v' := AfterClient(v, a, cap, zero);
      assert UpFlow(v') == UpFlow(v) && DownFlow(v') == DownFlow(v);
    } else {
      assert AfterClient(v, a, cap, zero) == v;
    }
  }

  lemma PushView<B>(v: View<B>, c: nat, data: Payload<B>, cap: nat, zero: Item<B>)
    requires ViewInv(v, c) && v.owner.Some?
    ensures ViewInv(AfterClient(v, Push(data), cap, zero), c)
  {
    hide Accounted, DataItems, HandUp, HandDown;
    var v' := AfterClient(v, Push(data), cap, zero);
    assert DownFlow(v') == DownFlow(v);
    if |v.owner.value.sendQ| < cap {
      AccountPush(false, v.ch.up.log, UpFlow(v), v.ch.up.lost, data);
      assert UpFlow(v') == UpFlow(v) + [Item(data, |v.ch.up.log|)];
    }
  }

  /** Moving items along without touching either direction's items, logs or losses. */
  lemma FateKept<B>(v: View<B>, v': View<B>, c: nat)
    requires Fate(v, c) && UpFlow(v') == UpFlow(v) && DownFlow(v') == DownFlow(v)
    requires v'.ch.up == v.ch.up && v'.ch.down.log == v.ch.down.log && v'.ch.down.lost == v.ch.down.lost
    ensures Fate(v', c)
  {
    hide Accounted, UpFlow, DownFlow;
  }

  lemma PopSession<B>(v: View<B>, c: nat, cap: nat, zero: Item<B>)
    requires Session(v, c) && v.owner.Some?
    ensures Session(AfterClient(v, Pop, cap, zero), c)
  {
  }

  lemma PopFate<B>(v: View<B>, c: nat, cap: nat, zero: Item<B>)
    requires Fate(v, c) && v.owner.Some?
    ensures Fate(AfterClient(v, Pop, cap, zero), c)
  {
    hide Fate, DataItems, HandUp, HandDown;
    var v' := AfterClient(v, Pop, cap, zero);
    assert DownFlow(v') == DownFlow(v);
    FateKept(v, v', c);
  }

  lemma PopView<B>(v: View<B>, c: nat, cap: nat, zero: Item<B>)
    requires ViewInv(v, c) && v.owner.Some?
    ensures ViewInv(AfterClient(v, Pop, cap, zero), c)
  {
    hide Session, Fate;
    PopSession(v, c, cap, zero);
    PopFate(v, c, cap, zero);
  }

  lemma TakeFate<B>(v: View<B>, c: nat, beat: bool, cap: nat, zero: Item<B>)
    requires Fate(v, c) && v.owner.Some? && v.owner.value.phase == Running(Send)
    ensures Fate(AfterClient(v, Handle(beat), cap, zero), c)
  {
    hide Fate, DataItems, HandUp, HandDown;
    var v' := AfterClient(v, Handle(beat), cap, zero);
    assert ClientUp(v'.owner) == ClientUp(v.owner);
    FateKept(v, v', c);
  }

  lemma TakeSession<B>(v: View<B>, c: nat, beat: bool, cap: nat, zero: Item<B>)
    requires Session(v, c) && v.owner.Some? && v.owner.value.phase == Running(Send)
    ensures Session(AfterClient(v, Handle(beat), cap, zero), c)
  {
  }

  lemma TakeView<B>(v: View<B>, c: nat, beat: bool, cap: nat, zero: Item<B>)
    requires ViewInv(v, c) && v.owner.Some? && v.owner.value.phase == Running(Send)
    ensures ViewInv(AfterClient(v, Handle(beat), cap, zero), c)
  {
    hide Session, Fate;
    TakeSession(v, c, beat, cap, zero);
    TakeFate(v, c, beat, cap, zero);
  }

  lemma SendSession<B>(v: View<B>, c: nat, beat: bool, cap: nat, zero: Item<B>)
    requires Session(v, c) && v.owner.Some? && v.owner.value.phase == Running(Sending)
    ensures Session(AfterClient(v, Handle(beat), cap, zero), c)
  {
  }

  lemma SendFate<B>(v: View<B>, c: nat, beat: bool, cap: nat, zero: Item<B>)
    requires Fate(v, c) && v.owner.Some? && v.owner.value.phase == Running(Sending)
    requires v.owner.value.dataMsg.msgType == DATA
    ensures Fate(AfterClient(v, Handle(beat), cap, zero), c)
  {
    hide Accounted, DataItems, HandUp, HandDown;
    var cl := v.owner.value;
    var v' := AfterClient(v, Handle(beat), cap, zero);
    assert DownFlow(v') == DownFlow(v);
    var front := v.ch.up.out + v.picked + HandUp(v.hand) + DataItems(v.ch.toServer);
    assert UpFlow(v) == front + [cl.dataMsg.item] + cl.sendQ;
    if |v.ch.toServer| < cap {
      DataAppend(v.ch.toServer, cl.dataMsg);
      assert UpFlow(v') == UpFlow(v);
    } else {
      AccountLoss(false, v.ch.up.log, front, cl.dataMsg.item, cl.sendQ, v.ch.up.lost, SendRingFull);
      assert UpFlow(v') == front + cl.sendQ;
    }
  }

  lemma SendView<B>(v: View<B>, c: nat, beat: bool, cap: nat, zero: Item<B>)
    requires ViewInv(v, c) && v.owner.Some? && v.owner.value.phase == Running(Sending)
    ensures ViewInv(AfterClient(v, Handle(beat), cap, zero), c)
  {
    hide Fate;
    SendSession(v, c, beat, cap, zero);
    SendFate(v, c, beat, cap, zero);
  }

  lemma BeatSession<B>(v: View<B>, c: nat, beat: bool, cap: nat, zero: Item<B>)
    requires Session(v, c) && v.owner.Some? && v.owner.value.phase == Running(Beat)
    ensures Session(AfterClient(v, Handle(beat), cap, zero), c)
  {
  }

  lemma BeatFate<B>(v: View<B>, c: nat, beat: bool, cap: nat, zero: Item<B>)
    requires Fate(v, c) && v.owner.Some? && v.owner.value.phase == Running(Beat)
    ensures Fate(AfterClient(v, Handle(beat), cap, zero), c)
  {
    hide Fate, DataItems, HandUp, HandDown;
    var v' := AfterClient(v, Handle(beat), cap, zero);
    DataAppend(v.ch.toServer, Msg(HEARTBEAT, 0, v.owner.value.channel, zero));
    assert UpFlow(v') == UpFlow(v);
    FateKept(v, v', c);
  }

  lemma BeatView<B>(v: View<B>, c: nat, beat: bool, cap: nat, zero: Item<B>)
    requires ViewInv(v, c) && v.owner.Some? && v.owner.value.phase == Running(Beat)
    ensures ViewInv(AfterClient(v, Handle(beat), cap, zero), c)
  {
    hide Session, Fate;
    BeatSession(v, c, beat, cap, zero);
    BeatFate(v, c, beat, cap, zero);
  }

  lemma ReceiveSession<B>(v: View<B>, c: nat, beat: bool, cap: nat, zero: Item<B>)
    requires Session(v, c) && v.owner.Some? && v.owner.value.phase == Running(Receive)
    ensures Session(AfterClient(v, Handle(beat), cap, zero), c)
  {
  }

  /** A message moves from the ring to the client's hand, or is no payload at all. */
  lemma ReceiveMovesHead<B>(v: View<B>, beat: bool, cap: nat, zero: Item<B>)
    requires v.owner.Some? && v.owner.value.phase == Running(Receive)
    ensures var v' := AfterClient(v, Handle(beat), cap, zero);
      && v' == v.(ch := v.ch.(toClient := v'.ch.toClient), owner := v'.owner)
      && ClientUp(v'.owner) == ClientUp(v.owner)
      && ClientDown(v'.owner) + DataItems(v'.ch.toClient) == ClientDown(v.owner) + DataItems(v.ch.toClient)
  {
  }

  lemma ReceiveFate<B>(v: View<B>, c: nat, beat: bool, cap: nat, zero: Item<B>)
    requires Fate(v, c) && v.owner.Some? && v.owner.value.phase == Running(Receive)
    ensures Fate(AfterClient(v, Handle(beat), cap, zero), c)
  {
    hide Fate, HandUp, HandDown, AfterClient, ClientUp, ClientDown, DataItems;
    var v' := AfterClient(v, Handle(beat), cap, zero);
    ReceiveMovesHead(v, beat, cap, zero);
    assert DownFlow(v) == v.ch.down.out + (ClientDown(v.owner) + DataItems(v.ch.toClient)) + HandDown(v.hand)
        + v.pending;
    FateKept(v, v', c);
  }

  lemma ReceiveView<B>(v: View<B>, c: nat, beat: bool, cap: nat, zero: Item<B>)
    requires ViewInv(v, c) && v.owner.Some? && v.owner.value.phase == Running(Receive)
    ensures ViewInv(AfterClient(v, Handle(beat), cap, zero), c)
  {
    hide Session, Fate;
    ReceiveSession(v, c, beat, cap, zero);
    ReceiveFate(v, c, beat, cap, zero);
  }

  lemma DeliverView<B>(v: View<B>, c: nat, beat: bool, cap: nat, zero: Item<B>)
    requires ViewInv(v, c) && v.owner.Some? && v.owner.value.phase == Running(Delivering)
    ensures ViewInv(AfterClient(v, Handle(beat), cap, zero), c)
  {
    var v' := AfterClient(v, Handle(beat), cap, zero);
    assert UpFlow(v') == UpFlow(v);
    if |v.owner.value.recvQ| < cap {
      assert ClientDown(v'.owner) == ClientDown(v.owner);
      assert DownFlow(v') == DownFlow(v);
    } else {
      DeliverLossFate(v, v');
    }
  }

  lemma DeliverLossFate<B>(v: View<B>, v': View<B>)
    requires v.owner.Some? && v.owner.value.phase == Running(Delivering)
    requires var cl := v.owner.value;
      v' == v.(ch := v.ch.(down := Lose(v.ch.down, cl.dataMsg.item.tag, ClientQueueFull)),
               owner := Some(cl.(phase := Running(Beat))))
    requires Accounted(true, v.ch.down.log, DownFlow(v), v.ch.down.lost)
    ensures Accounted(true, v'.ch.down.log, DownFlow(v'), v'.ch.down.lost)
  {
    hide Accounted, DataItems, HandDown;
    var cl := v.owner.value;
    var front := v.ch.down.out + cl.recvQ;
    var tail := DataItems(v.ch.toClient) + HandDown(v.hand) + v.pending;
    assert DownFlow(v) == front + [cl.dataMsg.item] + tail;
    AccountLoss(true, v.ch.down.log, front, cl.dataMsg.item, tail, v.ch.down.lost, ClientQueueFull);
    assert DownFlow(v') == front + tail;
  }

  lemma ClientView<B>(v: View<B>, c: nat, a: ClientAction<B>, cap: nat, zero: Item<B>)
    requires ViewInv(v, c) && v.owner.Some?
    ensures ViewInv(AfterClient(v, a, cap, zero), c)
  {
    match a
    case Push(data) => PushView(v, c, data, cap, zero);
    case Pop => PopView(v, c, cap, zero);
    case Handle(beat) =>
      if v.owner.value.phase.Running? {
        match v.owner.value.phase.pc
        case Send => TakeView(v, c, beat, cap, zero);
        case Sending => SendView(v, c, beat, cap, zero);
        case Receive => ReceiveView(v, c, beat, cap, zero);
        case Delivering => DeliverView(v, c, beat, cap, zero);
        case Beat => BeatView(v, c, beat, cap, zero);
      } else {
        assert AfterClient(v, a, cap, zero) == v;
      }
    case _ => HandshakeView(v, c, a, cap, zero);
  }

  // ---------------------------------------------------------------- server steps, one channel

  lemma PollView<B>(v: View<B>, v': View<B>, c: nat, id: nat)
    requires ViewInv(v, c) && v.hand == Free && v.ch.toServer != []
    requires var m := v.ch.toServer[0].(msgId := id);
      v' == v.(ch := v.ch.(toServer := v.ch.toServer[1..]),
               hand := match m.msgType
                       case DATA => HDeliver(m) case LOGIN => HAck case CLIENT_ACK => HAccept case _ => Free)
    ensures ViewInv(v', c)
  {
    assert UpFlow(v') == UpFlow(v);
    assert DownFlow(v') == DownFlow(v);
  }

  lemma ServerQueueView<B>(v: View<B>, v': View<B>, c: nat)
    requires ViewInv(v, c) && v.hand.HDeliver?
    requires v' == v.(hand := Free, picked := v.picked + [v.hand.m.item])
             || v' == v.(hand := Free, ch := v.ch.(up := Lose(v.ch.up, v.hand.m.item.tag, ServerQueueFull)))
    ensures ViewInv(v', c)
  {
    assert DownFlow(v') == DownFlow(v);
    var front := v.ch.up.out + v.picked;
    var tail := DataItems(v.ch.toServer) + ClientUp(v.owner);
    assert UpFlow(v) == front + [v.hand.m.item] + tail;
    if v' == v.(hand := Free, picked := v.picked + [v.hand.m.item]) {
      assert UpFlow(v') == UpFlow(v);
    } else {
      AccountLoss(false, v.ch.up.log, front, v.hand.m.item, tail, v.ch.up.lost, ServerQueueFull);
      assert UpFlow(v') == front + tail;
    }
  }

  lemma AckView<B>(v: View<B>, v': View<B>, c: nat, zero: Item<B>)
    requires ViewInv(v, c) && v.hand == HAck
    requires v' == v.(hand := Free)
             || v' == v.(hand := Free, ch := v.ch.(toClient := v.ch.toClient + [Msg(SERVER_ACK, 0, c, zero)]))
    ensures ViewInv(v', c)
  {
    DataAppend(v.ch.toClient, Msg(SERVER_ACK, 0, c, zero));
    assert UpFlow(v') == UpFlow(v);
    assert DownFlow(v') == DownFlow(v);
  }

  lemma FlagView<B>(v: View<B>, v': View<B>, c: nat)
    requires ViewInv(v, c)
    requires (v.hand == HAccept && v' == v.(hand := Free, ch := v.ch.(connected := true)))
             || (v.hand == Free && v' == v.(ch := v.ch.(connected := false)))
    ensures ViewInv(v', c)
  {
  }

  lemma DrainFate<B>(v: View<B>, v': View<B>, c: nat, m: Msg<B>)
    requires Fate(v, c) && v.hand == Free && v.pending != [] && m.item == v.pending[0]
    requires v' == (if v.ch.connected then v.(hand := HForward(m), pending := v.pending[1..])
                    else v.(pending := v.pending[1..], ch := v.ch.(down := Lose(v.ch.down, m.item.tag, Unconnected))))
    ensures Fate(v', c)
  {
    hide Accounted, DataItems, ClientUp, ClientDown;
    assert UpFlow(v') == UpFlow(v);
    var front := v.ch.down.out + ClientDown(v.owner) + DataItems(v.ch.toClient);
    assert DownFlow(v) == front + [m.item] + v.pending[1..];
    if v.ch.connected {
      assert DownFlow(v') == DownFlow(v);
    } else {
      AccountLoss(true, v.ch.down.log, front, m.item, v.pending[1..], v.ch.down.lost, Unconnected);
      assert DownFlow(v') == front + v.pending[1..];
    }
  }

  lemma DrainView<B>(v: View<B>, v': View<B>, c: nat, m: Msg<B>)
    requires ViewInv(v, c) && v.hand == Free && v.pending != []
    requires m.item == v.pending[0] && m.msgType == DATA && m.channelId == c
    requires v' == (if v.ch.connected then v.(hand := HForward(m), pending := v.pending[1..])
                    else v.(pending := v.pending[1..], ch := v.ch.(down := Lose(v.ch.down, m.item.tag, Unconnected))))
    ensures ViewInv(v', c)
  {
    hide Fate;
    DrainFate(v, v', c, m);
  }

  lemma ForwardView<B>(v: View<B>, v': View<B>, c: nat)
    requires ViewInv(v, c) && v.hand.HForward?
    requires v' == v.(hand := Free, ch := v.ch.(toClient := v.ch.toClient + [v.hand.m]))
             || v' == v.(hand := Free, ch := v.ch.(down := Lose(v.ch.down, v.hand.m.item.tag, ClientRingFull)))
    ensures ViewInv(v', c)
  {
    assert UpFlow(v') == UpFlow(v);
    var front := v.ch.down.out + ClientDown(v.owner) + DataItems(v.ch.toClient);
    assert DownFlow(v) == front + [v.hand.m.item] + v.pending;
    if v' == v.(hand := Free, ch := v.ch.(toClient := v.ch.toClient + [v.hand.m])) {
      DataAppend(v.ch.toClient, v.hand.m);
      assert DownFlow(v') == DownFlow(v);
    } else {
      AccountLoss(true, v.ch.down.log, front, v.hand.m.item, v.pending, v.ch.down.lost, ClientRingFull);
      assert DownFlow(v') == front + v.pending;
    }
  }

  lemma ServerPushView<B>(v: View<B>, v': View<B>, c: nat, data: Payload<B>)
    requires ViewInv(v, c) && data.channelId == c
    requires v' == v.(ch := v.ch.(down := v.ch.down.(log := v.ch.down.log + [data])),
                      pending := v.pending + [Item(data, |v.ch.down.log|)])
    ensures ViewInv(v', c)
  {
    assert UpFlow(v') == UpFlow(v);
    AccountPush(true, v.ch.down.log, DownFlow(v), v.ch.down.lost, data);
    assert DownFlow(v') == DownFlow(v) + [Item(data, |v.ch.down.log|)];
  }

  lemma ServerPopFate<B>(v: View<B>, c: nat, got: Item<B>, v': View<B>)
    requires Fate(v, c) && v.picked != []
    requires got == v.picked[0].(data := v.picked[0].data.(channelId := c))
    requires v' == v.(ch := v.ch.(up := v.ch.up.(out := v.ch.up.out + [got])), picked := v.picked[1..])
    ensures Fate(v', c)
  {
    hide Accounted, DataItems, HandUp, HandDown, ClientUp, ClientDown;
    assert DownFlow(v') == DownFlow(v);
    var tail := v.picked[1..] + HandUp(v.hand) + DataItems(v.ch.toServer) + ClientUp(v.owner);
    assert UpFlow(v) == v.ch.up.out + [v.picked[0]] + tail;
    AccountRelabel(v.ch.up.log, v.ch.up.out, v.picked[0], got, tail, v.ch.up.lost);
    assert UpFlow(v') == v.ch.up.out + [got] + tail;
  }

  lemma ServerPopView<B>(v: View<B>, v': View<B>, c: nat)
    requires ViewInv(v, c) && v.picked != []
    requires var got := v.picked[0].(data := v.picked[0].data.(channelId := c));
      v' == v.(ch := v.ch.(up := v.ch.up.(out := v.ch.up.out + [got])), picked := v.picked[1..])
    ensures ViewInv(v', c)
  {
    hide Fate;
    ServerPopFate(v, c, v.picked[0].(data := v.picked[0].data.(channelId := c)), v');
  }

  // ---------------------------------------------------------------- the whole system

  ghost predicate Named<B>(s: State<B>) {
    && (forall c :: 0 <= c < |s.channels| ==>
          s.channels[c].name == "" || (s.channels[c].name in s.clients && s.clients[s.channels[c].name].channel == c))
    && (forall name :: name in s.clients ==>
          name != "" && s.clients[name].channel < |s.channels| && s.channels[s.clients[name].channel].name == name)
  }

  ghost predicate OnlyDataQueued<B>(s: State<B>) {
    && (forall k :: 0 <= k < |s.server.sendQ| ==> s.server.sendQ[k].msgType == DATA)
    && (forall k :: 0 <= k < |s.server.recvQ| ==> s.server.recvQ[k].msgType == DATA)
  }

  ghost predicate Inv<B>(s: State<B>) {
    && ValidPc(s) && Named(s)
    && OnlyDataQueued(s)
    && (forall c :: 0 <= c < |s.channels| ==> ViewInv(ViewOf(s, c), c))
  }

  lemma InitInv<B>(channelSize: nat, shmQueueSize: nat, zero: Item<B>)
    requires channelSize > 0 && shmQueueSize > 0
    ensures Inv(Init(channelSize, shmQueueSize, zero))
  {
    var s := Init(channelSize, shmQueueSize, zero);
    forall c | 0 <= c < |s.channels| ensures ViewInv(ViewOf(s, c), c) {
      var v := ViewOf(s, c);
      assert UpFlow(v) == [] && DownFlow(v) == [];
    }
  }

  /** A step that changes one channel's view, keeps its invariant and leaves the others alone. */
  lemma OneView<B>(s: State<B>, s': State<B>, i: nat)
    requires Inv(s) && ValidPc(s') && Named(s') && i < |s.channels| == |s'.channels| && s'.server == s.server
    requires ViewInv(ViewOf(s', i), i)
    requires forall c :: 0 <= c < |s.channels| && c != i ==> ViewOf(s', c) == ViewOf(s, c)
    ensures Inv(s')
  {
  }

  lemma ClientKeepsInv<B>(s: State<B>, name: string, act: ClientAction<B>)
    requires Inv(s)
    ensures Inv(Apply(s, OfClient(name, act)))
  {
    hide ViewInv, ClientStep;
    if name in s.clients {
      var cl := s.clients[name];
      var i := cl.channel;
      var s' := Apply(s, OfClient(name, act));
      ClientView(ViewOf(s, i), i, act, s.ringCap, s.zero);
      ClientStepKeepsName(s.channels[i], cl, act, s.ringCap, s.zero);
      assert ViewOf(s', i) == AfterClient(ViewOf(s, i), act, s.ringCap, s.zero);
      forall c | 0 <= c < |s.channels| && c != i ensures ViewOf(s', c) == ViewOf(s, c) {
        assert s.channels[c].name != name;
      }
      OneView(s, s', i);
    }
  }

  lemma ClientStepKeepsName<B>(ch: Channel<B>, cl: Client<B>, a: ClientAction<B>, cap: nat, zero: Item<B>)
    ensures ClientStep(ch, cl, a, cap, zero).0.name == ch.name
    ensures ClientStep(ch, cl, a, cap, zero).1.channel == cl.channel
  {
  }

  lemma StartKeepsInv<B>(s: State<B>, clientName: string)
    requires Inv(s)
    ensures Inv(Apply(s, Start(clientName)))
  {
    var name := ClientName(clientName);
    var found := FindChannel(s.channels, name, 0);
    if name != "" && name !in s.clients && found.Some? {
      var i := found.value;
      var s' := Apply(s, Start(clientName));
      var cl := Client(i, Claimed, Msg(DATA, 0, i, s.zero), [], []);
      assert s'.clients == s.clients[name := cl];
      assert s'.channels == s.channels[i := s.channels[i].(name := name, toServer := [], toClient := [])];
      ClaimKeepsNames(s, s', i, name, cl);
      StartView(ViewOf(s, i), i, name, s.zero);
      OneView(s, s', i);
    }
  }

  lemma ClaimKeepsNames<B>(s: State<B>, s': State<B>, i: nat, name: string, cl: Client<B>)
    requires Inv(s) && i < |s.channels| && s.channels[i].name == "" && name != "" && name !in s.clients
    requires cl == Client(i, Claimed, Msg(DATA, 0, i, s.zero), [], [])
    requires s' == s.(channels := s.channels[i := s.channels[i].(name := name, toServer := [], toClient := [])],
                      clients := s.clients[name := cl])
    ensures Named(s') && ValidPc(s')
    ensures ViewOf(s, i).owner == None
    ensures ViewOf(s', i)
        == ViewOf(s, i).(ch := s.channels[i].(name := name, toServer := [], toClient := []), owner := Some(cl))
    ensures forall c :: 0 <= c < |s.channels| && c != i ==> ViewOf(s', c) == ViewOf(s, c)
  {
  }

  /** The step touches the view of channel `i` only, and keeps names, indices and message types. */
  ghost predicate Touches<B>(s: State<B>, s': State<B>, i: nat, v': View<B>)
    requires i < |s.channels| == |s'.channels|
  {
    && (ValidPc(s) ==> ValidPc(s')) && (Named(s) ==> Named(s'))
    && (OnlyDataQueued(s) ==> OnlyDataQueued(s'))
    && ViewOf(s', i) == v'
    && forall c :: 0 <= c < |s.channels| && c != i ==> ViewOf(s', c) == ViewOf(s, c)
  }

  lemma PollReceiveTouches<B>(s: State<B>, expire: bool)
    requires ValidPc(s) && s.server.pc.Poll?
    ensures var i := s.server.pc.i; var v := ViewOf(s, i);
      Touches(s, PollStep(s, expire), i,
        if v.ch.toServer == [] then v
        else
          var m := v.ch.toServer[0].(msgId := s.server.nextId);
          v.(ch := v.ch.(toServer := v.ch.toServer[1..]),
             hand := match m.msgType
                     case DATA => HDeliver(m) case LOGIN => HAck case CLIENT_ACK => HAccept case _ => Free))
  {
    hide Picked;
  }

  lemma PollDeliverTouches<B>(s: State<B>, expire: bool)
    requires ValidPc(s) && s.server.pc.Deliver? && s.server.msg.channelId == s.server.pc.i
        && s.server.msg.msgType == DATA
    ensures var i := s.server.pc.i; var v := ViewOf(s, i);
      v.hand == HDeliver(s.server.msg) &&
      Touches(s, PollStep(s, expire), i,
        if |s.server.recvQ| < s.serverCap then v.(hand := Free, picked := v.picked + [v.hand.m.item])
        else v.(hand := Free, ch := v.ch.(up := Lose(v.ch.up, v.hand.m.item.tag, ServerQueueFull))))
  {
    var i := s.server.pc.i;
    var s' := PollStep(s, expire);
    forall c: nat ensures Picked(s.server.recvQ + [s.server.msg], c)
        == Picked(s.server.recvQ, c) + (if c == i then [s.server.msg.item] else []) {
      PickedAppend(s.server.recvQ, s.server.msg, c);
    }
    forall c | 0 <= c < |s.channels| && c != i ensures ViewOf(s', c) == ViewOf(s, c) {}
  }

  lemma PollFlagTouches<B>(s: State<B>, expire: bool)
    requires ValidPc(s) && (s.server.pc.Ack? || s.server.pc.Accept? || s.server.pc.Expire?)
    ensures var i := s.server.pc.i; var v := ViewOf(s, i);
      Touches(s, PollStep(s, expire), i,
        match s.server.pc
        case Ack(_) =>
          if |v.ch.toClient| < s.ringCap
          then v.(hand := Free, ch := v.ch.(toClient := v.ch.toClient + [Msg(SERVER_ACK, 0, i, s.zero)]))
          else v.(hand := Free)
        case Accept(_) => v.(hand := Free, ch := v.ch.(connected := true))
        case _ => if expire then v.(ch := v.ch.(connected := false)) else v)
  {
    hide Picked;
  }

  lemma PollDrainTouches<B>(s: State<B>, expire: bool)
    requires ValidPc(s) && s.server.pc.Drain? && s.server.sendQ != []
    ensures var m := s.server.sendQ[0].(msgId := s.server.nextId); var c := m.channelId; var v := ViewOf(s, c);
      v.hand == Free && v.pending != [] && v.pending[0] == m.item &&
      Touches(s, PollStep(s, expire), c,
        if v.ch.connected then v.(hand := HForward(m), pending := v.pending[1..])
        else v.(pending := v.pending[1..], ch := v.ch.(down := Lose(v.ch.down, m.item.tag, Unconnected))))
  {
  }

  lemma PollForwardTouches<B>(s: State<B>, expire: bool)
    requires ValidPc(s) && s.server.pc.Forward?
    ensures var c := s.server.msg.channelId; var v := ViewOf(s, c);
      v.hand == HForward(s.server.msg) &&
      Touches(s, PollStep(s, expire), c,
        if |v.ch.toClient| < s.ringCap then v.(hand := Free, ch := v.ch.(toClient := v.ch.toClient + [v.hand.m]))
        else v.(hand := Free, ch := v.ch.(down := Lose(v.ch.down, v.hand.m.item.tag, ClientRingFull))))
  {
    hide Picked;
  }

  lemma ServerPushTouches<B>(s: State<B>, data: Payload<B>)
    requires ValidPc(s) && 0 <= data.channelId < |s.channels| && |s.server.sendQ| < s.serverCap
    ensures var i := data.channelId; var v := ViewOf(s, i);
      Touches(s, ServerPushStep(s, data), i,
        v.(ch := v.ch.(down := v.ch.down.(log := v.ch.down.log + [data])),
           pending := v.pending + [Item(data, |v.ch.down.log|)]))
  {
    var i := data.channelId;
    var s' := ServerPushStep(s, data);
    var m := Msg(DATA, 0, i, Item(data, |s.channels[i].down.log|));
    forall c: nat ensures Picked(s.server.sendQ + [m], c)
        == Picked(s.server.sendQ, c) + (if c == i then [m.item] else []) {
      PickedAppend(s.server.sendQ, m, c);
    }
    forall c | 0 <= c < |s.channels| && c != i ensures ViewOf(s', c) == ViewOf(s, c) {}
  }

  lemma ServerPopTouches<B>(s: State<B>)
    requires ValidPc(s) && s.server.recvQ != [] && s.server.recvQ[0].msgType == DATA
    ensures var i := s.server.recvQ[0].channelId; var v := ViewOf(s, i);
      v.picked != [] &&
      var got := v.picked[0].(data := v.picked[0].data.(channelId := i));
      Touches(s, ServerPopStep(s), i,
        v.(ch := v.ch.(up := v.ch.up.(out := v.ch.up.out + [got])), picked := v.picked[1..]))
  {
  }

  /** A touched channel whose new view is good keeps the whole invariant. */
  lemma TouchKeepsInv<B>(s: State<B>, s': State<B>, i: nat, v': View<B>)
    requires Inv(s) && i < |s.channels| == |s'.channels| && Touches(s, s', i, v') && ViewInv(v', i)
    ensures Inv(s')
  {
  }

  lemma PollKeepsInv<B>(s: State<B>, expire: bool)
    requires Inv(s) && (s.server.pc.Poll? || s.server.pc.Deliver?)
    ensures Inv(PollStep(s, expire))
  {
    var i := s.server.pc.i;
    var s' := PollStep(s, expire);
    var v, v' := ViewOf(s, i), ViewOf(s', i);
    assert ViewInv(v, i);
    if s.server.pc.Poll? {
      PollReceiveTouches(s, expire);
      if v.ch.toServer != [] { PollView(v, v', i, s.server.nextId); }
    } else {
      assert v.hand == HDeliver(s.server.msg);
      PollDeliverTouches(s, expire);
      ServerQueueView(v, v', i);
    }
    TouchKeepsInv(s, s', i, v');
  }

  lemma FlagKeepsInv<B>(s: State<B>, expire: bool)
    requires Inv(s) && (s.server.pc.Ack? || s.server.pc.Accept? || s.server.pc.Expire?)
    ensures Inv(PollStep(s, expire))
  {
    var i := s.server.pc.i;
    var s' := PollStep(s, expire);
    var v, v' := ViewOf(s, i), ViewOf(s', i);
    assert ViewInv(v, i);
    PollFlagTouches(s, expire);
    if s.server.pc.Ack? {
      AckView(v, v', i, s.zero);
    } else if s.server.pc.Accept? || expire {
      FlagView(v, v', i);
    }
    TouchKeepsInv(s, s', i, v');
  }

  lemma SendKeepsInv<B>(s: State<B>, expire: bool)
    requires Inv(s) && (s.server.pc.Drain? || s.server.pc.Forward?)
    ensures Inv(PollStep(s, expire))
  {
    hide ViewInv;
    var s' := PollStep(s, expire);
    if s.server.pc.Forward? {
      var c := s.server.msg.channelId;
      assert ViewInv(ViewOf(s, c), c);
      PollForwardTouches(s, expire);
      ForwardView(ViewOf(s, c), ViewOf(s', c), c);
      TouchKeepsInv(s, s', c, ViewOf(s', c));
    } else if s.server.sendQ == [] {
      assert forall c :: 0 <= c < |s.channels| ==> ViewOf(s', c) == ViewOf(s, c);
      assert ViewInv(ViewOf(s, 0), 0);
      TouchKeepsInv(s, s', 0, ViewOf(s, 0));
    } else {
      var m := s.server.sendQ[0].(msgId := s.server.nextId);
      var c := m.channelId;
      assert ViewInv(ViewOf(s, c), c);
      PollDrainTouches(s, expire);
      DrainView(ViewOf(s, c), ViewOf(s', c), c, m);
      TouchKeepsInv(s, s', c, ViewOf(s', c));
    }
  }

  lemma ServerPushKeepsInv<B>(s: State<B>, data: Payload<B>)
    requires Inv(s)
    ensures Inv(ServerPushStep(s, data))
  {
    hide ViewInv;
    var i := data.channelId;
    if 0 <= i < |s.channels| && |s.server.sendQ| < s.serverCap {
      assert ViewInv(ViewOf(s, i), i);
      ServerPushTouches(s, data);
      var s' := ServerPushStep(s, data);
      ServerPushView(ViewOf(s, i), ViewOf(s', i), i, data);
      TouchKeepsInv(s, s', i, ViewOf(s', i));
    }
  }

  lemma ServerPopKeepsInv<B>(s: State<B>)
    requires Inv(s)
    ensures Inv(ServerPopStep(s))
  {
    hide ViewInv;
    if s.server.recvQ != [] {
      var j := s.server.recvQ[0].channelId;
      assert ViewInv(ViewOf(s, j), j);
      ServerPopTouches(s);
      var s' := ServerPopStep(s);
      ServerPopView(ViewOf(s, j), ViewOf(s', j), j);
      TouchKeepsInv(s, s', j, ViewOf(s', j));
    }
  }

  lemma StepKeepsInv<B>(s: State<B>, a: Action<B>)
    requires Inv(s)
    ensures Inv(Apply(s, a))
  {
    match a
    case Start(clientName) => StartKeepsInv(s, clientName);
    case OfClient(name, act) => ClientKeepsInv(s, name, act);
    case ServerPush(data) => ServerPushKeepsInv(s, data);
    case ServerPop => ServerPopKeepsInv(s);
    case ServerPoll(expire) =>
      match s.server.pc
      case Poll(_) => PollKeepsInv(s, expire);
      case Deliver(_) => PollKeepsInv(s, expire);
      case Drain => SendKeepsInv(s, expire);
      case Forward => SendKeepsInv(s, expire);
      case _ => FlagKeepsInv(s, expire);
  }

  ghost function Run<B>(s: State<B>, actions: seq<Action<B>>): (s': State<B>)
    requires Inv(s)
    ensures Inv(s')
    decreases |actions|
  {
    if actions == [] then s
    else
      StepKeepsInv(s, actions[0]);
      Run(Apply(s, actions[0]), actions[1..])
  }

  // ---------------------------------------------------------------- theorems

  /** `positions` picks entries of `log`, in order and without repetition, equal to `out` up to `Same`. */
  ghost predicate Subsequence<B>(exact: bool, out: seq<Payload<B>>, log: seq<Payload<B>>, positions: seq<nat>) {
    && |positions| == |out|
    && (forall i, j :: 0 <= i < j < |positions| ==> positions[i] < positions[j])
    && (forall j :: 0 <= j < |out| ==> positions[j] < |log| && Same(exact, out[j], log[positions[j]]))
  }

  function Payloads<B>(items: seq<Item<B>>): (r: seq<Payload<B>>)
    ensures |r| == |items|
    ensures forall j :: 0 <= j < |items| ==> r[j] == items[j].data
  {
    seq(|items|, j requires 0 <= j < |items| => items[j].data)
  }

  function Positions<B>(items: seq<Item<B>>): (r: seq<nat>)
    ensures |r| == |items|
    ensures forall j :: 0 <= j < |items| ==> r[j] == items[j].tag
  {
    seq(|items|, j requires 0 <= j < |items| => items[j].tag)
  }

  lemma PrefixIsSubsequence<B>(exact: bool, log: seq<Payload<B>>, out: seq<Item<B>>, rest: seq<Item<B>>,
      lost: map<nat, Loss>)
    requires Accounted(exact, log, out + rest, lost)
    ensures Subsequence(exact, Payloads(out), log, Positions(out))
  {
    forall j | 0 <= j < |out| ensures out[j] == (out + rest)[j] {}
  }

  lemma AccountSplits<B>(log: seq<Payload<B>>, items: seq<Item<B>>, lost: map<nat, Loss>, exact: bool)
    requires Accounted(exact, log, items, lost)
    ensures forall t: nat :: t < |log| ==> (t in lost <==> t !in Tags(items))
  {
    hide Same, Tags;
  }

  lemma UpDelivers<B>(v: View<B>)
    requires Accounted(false, v.ch.up.log, UpFlow(v), v.ch.up.lost)
    ensures Subsequence(false, Payloads(v.ch.up.out), v.ch.up.log, Positions(v.ch.up.out))
  {
    hide Accounted, Subsequence, DataItems;
    var rest := v.picked + HandUp(v.hand) + DataItems(v.ch.toServer) + ClientUp(v.owner);
    assert UpFlow(v) == v.ch.up.out + rest;
    PrefixIsSubsequence(false, v.ch.up.log, v.ch.up.out, rest, v.ch.up.lost);
  }

  lemma DownDelivers<B>(v: View<B>)
    requires Accounted(true, v.ch.down.log, DownFlow(v), v.ch.down.lost)
    ensures Subsequence(true, Payloads(v.ch.down.out), v.ch.down.log, Positions(v.ch.down.out))
  {
    hide Accounted, Subsequence, DataItems;
    var rest := ClientDown(v.owner) + DataItems(v.ch.toClient) + HandDown(v.hand) + v.pending;
    assert DownFlow(v) == v.ch.down.out + rest;
    PrefixIsSubsequence(true, v.ch.down.log, v.ch.down.out, rest, v.ch.down.lost);
  }

  lemma ViewDelivers<B>(v: View<B>, c: nat)
    requires Fate(v, c)
    ensures Delivered(v, c)
  {
    hide Accounted, Subsequence, UpFlow, DownFlow, Tags;
    UpDelivers(v);
    DownDelivers(v);
    AccountSplits(v.ch.up.log, UpFlow(v), v.ch.up.lost, false);
    AccountSplits(v.ch.down.log, DownFlow(v), v.ch.down.lost, true);
  }

  /** In every run, per channel: both directions deliver an ordered subsequence of what was sent
      on that channel, everything else is in flight or was lost to a full ring or a channel that
      is not connected, and nothing is discarded by a handshake. */
  lemma EveryRunDeliversInOrder<B>(channelSize: nat, shmQueueSize: nat, zero: Item<B>, actions: seq<Action<B>>, c: nat)
    requires channelSize > 0 && shmQueueSize > 0 && c < channelSize
    ensures Inv(Init(channelSize, shmQueueSize, zero))
    ensures var s := Run(Init(channelSize, shmQueueSize, zero), actions);
      |s.channels| == channelSize && Delivered(ViewOf(s, c), c)
  {
    InitInv(channelSize, shmQueueSize, zero);
    RunKeepsShape(Init(channelSize, shmQueueSize, zero), actions);
    var s := Run(Init(channelSize, shmQueueSize, zero), actions);
    assert ViewInv(ViewOf(s, c), c);
    ViewDelivers(ViewOf(s, c), c);
  }

  ghost predicate Delivered<B>(v: View<B>, c: nat) {
    var up, down := v.ch.up, v.ch.down;
    && Subsequence(false, Payloads(up.out), up.log, Positions(up.out))
    && (forall j :: 0 <= j < |up.out| ==> up.out[j].data.channelId == c)
    && Subsequence(true, Payloads(down.out), down.log, Positions(down.out))
    && (forall t: nat :: t < |up.log| ==> (t in up.lost <==> t !in Tags(UpFlow(v))))
    && (forall t: nat :: t < |down.log| ==> (t in down.lost <==> t !in Tags(DownFlow(v))))
    && (forall t :: t in up.lost ==> up.lost[t] in {SendRingFull, ServerQueueFull})
    && (forall t :: t in down.lost ==> down.lost[t] in {ClientRingFull, ClientQueueFull, Unconnected})
  }

  lemma {:induction false} RunKeepsShape<B>(s: State<B>, actions: seq<Action<B>>)
    requires Inv(s)
    ensures |Run(s, actions).channels| == |s.channels|
    decreases |actions|
  {
    hide ViewInv;
    if actions != [] {
      StepKeepsInv(s, actions[0]);
      RunKeepsShape(Apply(s, actions[0]), actions[1..]);
    }
  }

  /** In every run: clients never share a channel, a channel counts as connected only once its
      client has sent CLIENT_ACK, and the message a running client sends with is DATA under its
      own channel number, whatever it has received into it. */
  lemma EveryRunKeepsSessions<B>(channelSize: nat, shmQueueSize: nat, zero: Item<B>, actions: seq<Action<B>>)
    requires channelSize > 0 && shmQueueSize > 0
    ensures Inv(Init(channelSize, shmQueueSize, zero))
    ensures var s := Run(Init(channelSize, shmQueueSize, zero), actions);
      && (forall a, b :: a in s.clients && b in s.clients && a != b ==> s.clients[a].channel != s.clients[b].channel)
      && (forall n :: n in s.clients ==> s.clients[n].channel < |s.channels|)
      && (forall n :: n in s.clients && s.channels[s.clients[n].channel].connected ==> s.clients[n].phase.Running?)
      && (forall c :: 0 <= c < |s.channels| && s.channels[c].connected ==> s.channels[c].name in s.clients)
      && (forall n :: n in s.clients && !s.clients[n].phase.Failed? ==>
            s.clients[n].dataMsg.msgType == DATA && s.clients[n].dataMsg.channelId == s.clients[n].channel)
  {
    InitInv(channelSize, shmQueueSize, zero);
    var s := Run(Init(channelSize, shmQueueSize, zero), actions);
    forall n | n in s.clients
      ensures s.channels[s.clients[n].channel].connected ==> s.clients[n].phase.Running?
      ensures !s.clients[n].phase.Failed? ==>
            s.clients[n].dataMsg.msgType == DATA && s.clients[n].dataMsg.channelId == s.clients[n].channel
    {
      var c := s.clients[n].channel;
      assert ViewInv(ViewOf(s, c), c) && ViewOf(s, c).owner == Some(s.clients[n]);
    }
    forall c | 0 <= c < |s.channels| && s.channels[c].connected ensures s.channels[c].name in s.clients {
      assert ViewInv(ViewOf(s, c), c);
    }
  }

  lemma PollLossHasCause<B>(s: State<B>, expire: bool, c: nat, t: nat)
    requires ValidPc(s) && c < |s.channels|
    ensures |PollStep(s, expire).channels| == |s.channels|
    ensures var ch, ch' := s.channels[c], PollStep(s, expire).channels[c];
      && (t in ch'.up.lost && t !in ch.up.lost ==> ch'.up.lost[t] == ServerQueueFull && |s.server.recvQ| >= s.serverCap)
      && (t in ch'.down.lost && t !in ch.down.lost ==>
            || (ch'.down.lost[t] == Unconnected && !ch.connected)
            || (ch'.down.lost[t] == ClientRingFull && |ch.toClient| >= s.ringCap))
  {
  }

  lemma UserLosesNothing<B>(s: State<B>, a: Action<B>, c: nat)
    requires ValidPc(s) && c < |s.channels| && (a.Start? || a.ServerPush? || a.ServerPop?)
    ensures |Apply(s, a).channels| == |s.channels|
    ensures Apply(s, a).channels[c].up.lost == s.channels[c].up.lost
        && Apply(s, a).channels[c].down.lost == s.channels[c].down.lost
  {
  }

  lemma ClientActLossHasCause<B>(s: State<B>, name: string, act: ClientAction<B>, c: nat, t: nat)
    requires Inv(s) && Inv(Apply(s, OfClient(name, act))) && c < |s.channels|
    ensures |Apply(s, OfClient(name, act)).channels| == |s.channels|
    ensures var ch, ch' := s.channels[c], Apply(s, OfClient(name, act)).channels[c];
      && (t in ch'.up.lost && t !in ch.up.lost ==> ch'.up.lost[t] == SendRingFull && |ch.toServer| >= s.ringCap)
      && (t in ch'.down.lost && t !in ch.down.lost ==>
            ch'.down.lost[t] == ClientQueueFull && ch.name in s.clients && |s.clients[ch.name].recvQ| >= s.ringCap)
  {
    hide Session, UpFlow, DownFlow, Accounted, ClientStep;
    if name in s.clients {
      var i := s.clients[name].channel;
      assert s.channels[i].name == name;
      assert ViewInv(ViewOf(Apply(s, OfClient(name, act)), i), i);
      ClientLossHasCause(s.channels[i], s.clients[name], act, s.ringCap, s.zero, t);
    }
  }

  /** A message is recorded as lost only in a step that finds the next ring full or the channel unconnected. */
  lemma LossHasCause<B>(s: State<B>, a: Action<B>, c: nat, t: nat)
    requires Inv(s) && c < |s.channels|
    ensures |Apply(s, a).channels| == |s.channels|
    ensures var ch, ch' := s.channels[c], Apply(s, a).channels[c];
      && (t in ch'.up.lost && t !in ch.up.lost ==>
            || (ch'.up.lost[t] == SendRingFull && |ch.toServer| >= s.ringCap)
            || (ch'.up.lost[t] == ServerQueueFull && |s.server.recvQ| >= s.serverCap))
      && (t in ch'.down.lost && t !in ch.down.lost ==>
            || (ch'.down.lost[t] == Unconnected && !ch.connected)
            || (ch'.down.lost[t] == ClientRingFull && |ch.toClient| >= s.ringCap)
            || (ch'.down.lost[t] == ClientQueueFull && ch.name in s.clients && |s.clients[ch.name].recvQ| >= s.ringCap))
  {
    hide ViewInv, PollStep, StartStep, ServerPushStep, ServerPopStep, ClientStep;
    StepKeepsInv(s, a);
    match a
    case OfClient(name, act) => ClientActLossHasCause(s, name, act, c, t);
    case ServerPoll(expire) => PollLossHasCause(s, expire, c, t);
    case _ => UserLosesNothing(s, a, c);
  }

  lemma ClientLossHasCause<B>(ch: Channel<B>, cl: Client<B>, a: ClientAction<B>, cap: nat, zero: Item<B>, t: nat)
    ensures var ch' := ClientStep(ch, cl, a, cap, zero).0;
      && (t in ch'.up.lost && t !in ch.up.lost ==> ch'.up.lost[t] == SendRingFull && |ch.toServer| >= cap)
      && (t in ch'.down.lost && t !in ch.down.lost ==>
            ch'.down.lost[t] == Discarded || (ch'.down.lost[t] == ClientQueueFull && |cl.recvQ| >= cap))
  {
  }
}
