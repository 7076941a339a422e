/** Client/server mode of the shared-memory transport, at the granularity of single ring
    operations. A ring is a bounded FIFO, as `SpscProtocol` proves it to be; `ShmRings` ties the two. */
module ShmProtocol {
  import opened Wrappers

  datatype MsgType = DATA | LOGIN | SERVER_ACK | CLIENT_ACK | HEARTBEAT

  datatype Payload<B> = Payload(channelId: int, body: B)

  /** A payload with its position in the log of its direction; no step reads the tag. */
  datatype Item<B> = Item(data: Payload<B>, tag: nat)

  datatype Msg<B> = Msg(msgType: MsgType, msgId: nat, channelId: int, item: Item<B>)

  datatype Loss = SendRingFull | ServerQueueFull | ClientRingFull | ClientQueueFull | Unconnected | Discarded

  /** One direction of one channel: what was accepted for sending, what was handed out at the
      far end, and which log entries were lost where. */
  datatype Flow<B> = Flow(log: seq<Payload<B>>, out: seq<Item<B>>, lost: map<nat, Loss>)

  /** `toServer` is the client's SendQueue and the server's RecvQueue, `toClient` the reverse. */
  datatype Channel<B> = Channel(
    name: string, connected: bool, toServer: seq<Msg<B>>, toClient: seq<Msg<B>>,
    up: Flow<B>, down: Flow<B>)

  /** Where `HandleMsg` is: sending, holding a popped payload, receiving, holding a received
      message, or about to decide on a heartbeat. */
  datatype Pc = Send | Sending | Receive | Delivering | Beat

  datatype Phase<B> = Claimed | Handshaking | Acking(ack: Msg<B>) | Running(pc: Pc) | Failed

  datatype Client<B> = Client(
    channel: nat, phase: Phase<B>, dataMsg: Msg<B>, sendQ: seq<Item<B>>, recvQ: seq<Item<B>>)

  /** Where `PollMsg` is. */
  datatype ServerPc =
    | Poll(i: nat) | Deliver(i: nat) | Ack(i: nat) | Accept(i: nat) | Expire(i: nat)
    | Drain | Forward

  datatype Server<B> = Server(
    pc: ServerPc, msg: Msg<B>, nextId: nat, sendQ: seq<Msg<B>>, recvQ: seq<Msg<B>>)

  datatype State<B> = State(
    ringCap: nat, serverCap: nat, zero: Item<B>,
    channels: seq<Channel<B>>, clients: map<string, Client<B>>, server: Server<B>)

  datatype ClientAction<B> =
    | SendLogin | PollHandshake | GiveUp | SendClientAck
    | Handle(beat: bool) | Push(data: Payload<B>) | Pop

  datatype Action<B> =
    | Start(clientName: string)
    | OfClient(name: string, act: ClientAction<B>)
    | ServerPoll(expire: bool)
    | ServerPush(data: Payload<B>)
    | ServerPop

  const NAME_SIZE: nat := 32

  /** The constructor keeps at most NameSize - 1 characters. */
  function ClientName(name: string): string {
    if |name| < NAME_SIZE then name else name[..NAME_SIZE - 1]
  }

  function Init<B>(channelSize: nat, shmQueueSize: nat, zero: Item<B>): State<B>
    requires channelSize > 0 && shmQueueSize > 0
  {
    var idle := Flow([], [], map[]);
    State(shmQueueSize - 1, 4 * shmQueueSize - 1, zero,
          seq(channelSize, _ => Channel("", false, [], [], idle, idle)), map[],
          Server(Poll(0), Msg(DATA, 0, 0, zero), 1, [], []))
  }

  // ---------------------------------------------------------------- client side

  function PushUp<B>(ch: Channel<B>, m: Msg<B>, cap: nat): Channel<B> {
    if |ch.toServer| < cap then ch.(toServer := ch.toServer + [m]) else ch
  }

  function Lose<B>(f: Flow<B>, tag: nat, why: Loss): Flow<B> {
    f.(lost := f.lost[tag := why])
  }

  /** One ring operation of `HandleMsg`. Receiving overwrites the very message sending uses. */
  function HandleStep<B>(ch: Channel<B>, cl: Client<B>, beat: bool, cap: nat, zero: Item<B>):
      (out: (Channel<B>, Client<B>))
    requires cl.phase.Running?
  {
    var at := (pc: Pc) => Running(pc);
    match cl.phase.pc
    case Send =>
      if cl.sendQ == [] then (ch, cl.(phase := at(Receive)))
      else (ch, cl.(dataMsg := cl.dataMsg.(item := cl.sendQ[0]), sendQ := cl.sendQ[1..], phase := at(Sending)))
    case Sending =>
      if |ch.toServer| < cap then (PushUp(ch, cl.dataMsg, cap), cl.(phase := at(Receive)))
      else (ch.(up := Lose(ch.up, cl.dataMsg.item.tag, SendRingFull)), cl.(phase := at(Receive)))
    case Receive =>
      if ch.toClient == [] then (ch, cl.(phase := at(Beat)))
      else
        var m := ch.toClient[0];
        (ch.(toClient := ch.toClient[1..]),
         cl.(dataMsg := m, phase := at(if m.msgType == DATA then Delivering else Beat)))
    case Delivering =>
      if |cl.recvQ| < cap then (ch, cl.(recvQ := cl.recvQ + [cl.dataMsg.item], phase := at(Beat)))
      else (ch.(down := Lose(ch.down, cl.dataMsg.item.tag, ClientQueueFull)), cl.(phase := at(Beat)))
    case Beat =>
      (if beat then PushUp(ch, Msg(HEARTBEAT, 0, cl.channel, zero), cap) else ch, cl.(phase := at(Send)))
  }

  /** One step of a client's own threads; it touches its channel and itself only. */
  function ClientStep<B>(ch: Channel<B>, cl: Client<B>, a: ClientAction<B>, cap: nat, zero: Item<B>):
      (out: (Channel<B>, Client<B>))
  {
    match (a, cl.phase)
    case (SendLogin, Claimed) =>
      (PushUp(ch, Msg(LOGIN, 0, cl.channel, zero), cap), cl.(phase := Handshaking))
    case (PollHandshake, Handshaking) =>
      if ch.toClient == [] then (ch, cl)
      else
        var m, rest := ch.toClient[0], ch.toClient[1..];
        if m.msgType == SERVER_ACK then
          (ch.(toClient := rest), cl.(phase := Acking(m.(msgType := CLIENT_ACK, channelId := cl.channel))))
        else if m.msgType == DATA then
          (ch.(toClient := rest, down := Lose(ch.down, m.item.tag, Discarded)), cl)
        else (ch.(toClient := rest), cl)
    case (GiveUp, Handshaking) => (ch, cl.(phase := Failed))
    case (SendClientAck, Acking(ack)) => (PushUp(ch, ack, cap), cl.(phase := Running(Send)))
    case (Handle(beat), Running(_)) => HandleStep(ch, cl, beat, cap, zero)
    case (Push(data), _) =>
      if |cl.sendQ| < cap then
        (ch.(up := ch.up.(log := ch.up.log + [data])), cl.(sendQ := cl.sendQ + [Item(data, |ch.up.log|)]))
      else (ch, cl)
    case (Pop, _) =>
      if cl.recvQ == [] then (ch, cl)
      else (ch.(down := ch.down.(out := ch.down.out + [cl.recvQ[0]])), cl.(recvQ := cl.recvQ[1..]))
    case _ => (ch, cl)
  }

  /** The first channel whose name is empty or is the client's. */
  function FindChannel<B>(channels: seq<Channel<B>>, name: string, i: nat): (r: Option<nat>)
    requires i <= |channels|
    ensures r.Some? ==> i <= r.value < |channels|
    ensures r.Some? ==> channels[r.value].name == "" || channels[r.value].name == name
    ensures forall j :: i <= j < (if r.Some? then r.value else |channels|) ==>
                     channels[j].name != "" && channels[j].name != name
    decreases |channels| - i
  {
    if i == |channels| then None
    else if channels[i].name == "" || channels[i].name == name then Some(i)
    else FindChannel(channels, name, i + 1)
  }

  /** `Connect` and `Reset`: claim a channel, clear its rings, prepare the three messages. A
      client with an empty name, or whose name has been used, takes no step here. */
  function StartStep<B>(s: State<B>, clientName: string): State<B> {
    var name := ClientName(clientName);
    if name == "" || name in s.clients then s
    else match FindChannel(s.channels, name, 0)
      case None => s
      case Some(i) =>
        s.(channels := s.channels[i := s.channels[i].(name := name, toServer := [], toClient := [])],
           clients := s.clients[name := Client(i, Claimed, Msg(DATA, 0, i, s.zero), [], [])])
  }

  // ---------------------------------------------------------------- server side

  /** The server's indices are inside its channel table. */
  predicate ValidPc<B>(s: State<B>) {
    && |s.channels| > 0
    && (match s.server.pc
        case Poll(i) => i < |s.channels|
        case Deliver(i) => i < |s.channels|
        case Ack(i) => i < |s.channels|
        case Accept(i) => i < |s.channels|
        case Expire(i) => i < |s.channels|
        case Drain => true
        case Forward => 0 <= s.server.msg.channelId < |s.channels|)
    && (forall k :: 0 <= k < |s.server.sendQ| ==> 0 <= s.server.sendQ[k].channelId < |s.channels|)
    && (forall k :: 0 <= k < |s.server.recvQ| ==> 0 <= s.server.recvQ[k].channelId < |s.channels|)
  }

  function With<B>(s: State<B>, i: nat, ch: Channel<B>, server: Server<B>): State<B>
    requires i < |s.channels|
  {
    s.(channels := s.channels[i := ch], server := server)
  }

  /** One ring operation or flag update of `PollMsg`. */
  function PollStep<B>(s: State<B>, expire: bool): State<B>
    requires ValidPc(s)
  {
    var v := s.server;
    match v.pc
    case Poll(i) =>
      var ch := s.channels[i];
      if ch.toServer == [] then s.(server := v.(pc := Expire(i)))
      else
        var m := ch.toServer[0].(msgId := v.nextId);
        var pc := match m.msgType
          case DATA => Deliver(i)
          case LOGIN => Ack(i)
          case CLIENT_ACK => Accept(i)
          case _ => Expire(i);
        With(s, i, ch.(toServer := ch.toServer[1..]), v.(pc := pc, msg := m, nextId := v.nextId + 1))
    case Deliver(i) =>
      if |v.recvQ| < s.serverCap then s.(server := v.(recvQ := v.recvQ + [v.msg], pc := Expire(i)))
      else
        var ch := s.channels[i];
        With(s, i, ch.(up := Lose(ch.up, v.msg.item.tag, ServerQueueFull)), v.(pc := Expire(i)))
    case Ack(i) =>
      var ch := s.channels[i];
      var ack := Msg(SERVER_ACK, 0, i, s.zero);
      With(s, i, if |ch.toClient| < s.ringCap then ch.(toClient := ch.toClient + [ack]) else ch, v.(pc := Expire(i)))
    case Accept(i) =>
      With(s, i, s.channels[i].(connected := true), v.(pc := Expire(i)))
    case Expire(i) =>
      var ch := s.channels[i];
      With(s, i, if expire then ch.(connected := false) else ch,
           v.(pc := if i + 1 < |s.channels| then Poll(i + 1) else Drain))
    case Drain =>
      if v.sendQ == [] then s.(server := v.(pc := Poll(0)))
      else
        var m := v.sendQ[0].(msgId := v.nextId);
        var c := m.channelId;
        var v' := v.(msg := m, nextId := v.nextId + 1, sendQ := v.sendQ[1..]);
        if s.channels[c].connected then s.(server := v'.(pc := Forward))
        else
          var ch := s.channels[c];
          With(s, c, ch.(down := Lose(ch.down, m.item.tag, Unconnected)), v')
    case Forward =>
      var c := v.msg.channelId;
      var ch := s.channels[c];
      With(s, c,
           if |ch.toClient| < s.ringCap then ch.(toClient := ch.toClient + [v.msg])
           else ch.(down := Lose(ch.down, v.msg.item.tag, ClientRingFull)),
           v.(pc := Drain))
  }

  /** The server's user sends on a channel it names; the number indexes the channel table. */
  function ServerPushStep<B>(s: State<B>, data: Payload<B>): State<B> {
    var c := data.channelId;
    if 0 <= c < |s.channels| && |s.server.sendQ| < s.serverCap then
      var ch := s.channels[c];
      var m := Msg(DATA, 0, c, Item(data, |ch.down.log|));
      With(s, c, ch.(down := ch.down.(log := ch.down.log + [data])), s.server.(sendQ := s.server.sendQ + [m]))
    else s
  }

  /** The server's user receives; the payload's channel number is replaced by the message's. */
  function ServerPopStep<B>(s: State<B>): State<B>
    requires ValidPc(s)
  {
    if s.server.recvQ == [] then s
    else
      var m := s.server.recvQ[0];
      var c := m.channelId;
      var ch := s.channels[c];
      var got := m.item.(data := m.item.data.(channelId := c));
      With(s, c, if m.msgType == DATA then ch.(up := ch.up.(out := ch.up.out + [got])) else ch,
           s.server.(recvQ := s.server.recvQ[1..]))
  }

  function Apply<B>(s: State<B>, a: Action<B>): State<B>
    requires ValidPc(s)
  {
    match a
    case Start(clientName) => StartStep(s, clientName)
    case OfClient(name, act) =>
      if name in s.clients && s.clients[name].channel < |s.channels| then
        var cl := s.clients[name];
        var (ch', cl') := ClientStep(s.channels[cl.channel], cl, act, s.ringCap, s.zero);
        s.(channels := s.channels[cl.channel := ch'], clients := s.clients[name := cl'])
      else s
    case ServerPoll(expire) => PollStep(s, expire)
    case ServerPush(data) => ServerPushStep(s, data)
    case ServerPop => ServerPopStep(s)
  }
}
