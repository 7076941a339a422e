/** The server's poll and the client's message handler as objects updated in place: each call, left
    alone, is a run of the steps of `ShmProtocol`. */
module ShmObjects {
  import opened ShmProtocol
  import opened Wrappers

  /** `t` is reached from `s` by poll steps with these timeout decisions. */
  ghost predicate Polls<B>(s: State<B>, expiries: seq<bool>, t: State<B>)
    decreases |expiries|
  {
    if expiries == [] then s == t
    else ValidPc(s) && Polls(PollStep(s, expiries[0]), expiries[1..], t)
  }

  lemma {:induction false} PollsConcat<B>(s: State<B>, a: seq<bool>, t: State<B>, b: seq<bool>, u: State<B>)
    requires Polls(s, a, t) && Polls(t, b, u)
    ensures Polls(s, a + b, u)
    decreases |a|
  {
    hide PollStep, ValidPc;
    if a == [] {
      assert a + b == b;
    } else {
      assert (a + b)[1..] == a[1..] + b;
      PollsConcat(PollStep(s, a[0]), a[1..], t, b, u);
    }
  }

  lemma PollsOne<B>(s: State<B>, expire: bool)
    requires ValidPc(s)
    ensures Polls(s, [expire], PollStep(s, expire))
  {
  }

  /** The searching loop of `Connect`. */
  method Connect<B>(channels: seq<Channel<B>>, clientName: string) returns (r: Option<nat>)
    ensures r == FindChannel(channels, ClientName(clientName), 0)
  {
    var name := ClientName(clientName);
    var i := 0;
    while i < |channels|
      invariant 0 <= i <= |channels|
      invariant FindChannel(channels, name, 0) == FindChannel(channels, name, i)
    {
      if channels[i].name == "" || channels[i].name == name {
        return Some(i);
      }
      i := i + 1;
    }
    r := None;
  }

  class Connection<B> {
    const cap: nat
    const zero: Item<B>
    const channelId: nat
    var channel: Channel<B>
    var dataMsg: Msg<B>
    var sendQ: seq<Item<B>>
    var recvQ: seq<Item<B>>

    function AsClient(pc: Pc): Client<B>
      reads this
    {
      Client(channelId, Running(pc), dataMsg, sendQ, recvQ)
    }

    constructor (cap: nat, zero: Item<B>, channelId: nat, channel: Channel<B>)
      ensures this.cap == cap && this.zero == zero && this.channelId == channelId && this.channel == channel
      ensures AsClient(Send) == Client(channelId, Running(Send), Msg(DATA, 0, channelId, zero), [], [])
    {
      this.cap, this.zero, this.channelId, this.channel := cap, zero, channelId, channel;
      dataMsg, sendQ, recvQ := Msg(DATA, 0, channelId, zero), [], [];
    }

    /** Sends one message, receives one, and beats when it is time: one round of the handler's steps. */
    method HandleMsg(beat: bool)
      modifies this
      ensures Round(old(channel), old(AsClient(Send)), beat, cap, zero) == (channel, AsClient(Send))
    {
      hide SendPart, ReceivePart;
      ghost var ch0, cl0 := channel, AsClient(Send);
      SendPartMeans(ch0, cl0, beat, cap, zero);
      if sendQ != [] {
        dataMsg := dataMsg.(item := sendQ[0]);
        sendQ := sendQ[1..];
        if |channel.toServer| < cap {
          channel := channel.(toServer := channel.toServer + [dataMsg]);
        } else {
          channel := channel.(up := Lose(channel.up, dataMsg.item.tag, SendRingFull));
        }
      }
      assert SendPart(ch0, cl0, beat, cap, zero) == (channel, AsClient(Receive));
      ghost var ch1, cl1 := channel, AsClient(Receive);
      ReceivePartMeans(ch1, cl1, beat, cap, zero);
      if channel.toClient != [] {
        dataMsg := channel.toClient[0];
        channel := channel.(toClient := channel.toClient[1..]);
        if dataMsg.msgType == DATA {
          if |recvQ| < cap {
            recvQ := recvQ + [dataMsg.item];
          } else {
            channel := channel.(down := Lose(channel.down, dataMsg.item.tag, ClientQueueFull));
          }
        }
      }
      assert ReceivePart(ch1, cl1, beat, cap, zero) == (channel, AsClient(Beat));
      ghost var ch2, cl2 := channel, AsClient(Beat);
      if beat && |channel.toServer| < cap {
        channel := channel.(toServer := channel.toServer + [Msg(HEARTBEAT, 0, channelId, zero)]);
      }
      assert HandleStep(ch2, cl2, beat, cap, zero) == (channel, AsClient(Send));
    }
  }

  /** The sending part leaves the queues of the other direction alone, and sends or loses the head. */
  lemma SendPartMeans<B>(ch: Channel<B>, cl: Client<B>, beat: bool, cap: nat, zero: Item<B>)
    requires cl.phase == Running(Send)
    ensures var d := if cl.sendQ == [] then cl.dataMsg else cl.dataMsg.(item := cl.sendQ[0]);
      SendPart(ch, cl, beat, cap, zero) ==
      (if cl.sendQ == [] then ch
       else if |ch.toServer| < cap then ch.(toServer := ch.toServer + [d])
       else ch.(up := Lose(ch.up, d.item.tag, SendRingFull)),
       Client(cl.channel, Running(Receive), d, if cl.sendQ == [] then [] else cl.sendQ[1..], cl.recvQ))
  {
  }

  /** The receiving part takes the ring's head; a payload goes on to the receive queue, or is lost. */
  lemma ReceivePartMeans<B>(ch: Channel<B>, cl: Client<B>, beat: bool, cap: nat, zero: Item<B>)
    requires cl.phase == Running(Receive)
    ensures var (ch', cl') := ReceivePart(ch, cl, beat, cap, zero);
      if ch.toClient == [] then ch' == ch && cl' == cl.(phase := Running(Beat))
      else
        var m := ch.toClient[0];
        var room := m.msgType == DATA && |cl.recvQ| < cap;
        && ch' == ch.(toClient := ch.toClient[1..],
                      down := if m.msgType != DATA || room then ch.down else Lose(ch.down, m.item.tag, ClientQueueFull))
        && cl' == cl.(phase := Running(Beat), dataMsg := m, recvQ := if room then cl.recvQ + [m.item] else cl.recvQ)
  {
  }

  /** Handler steps until the sending part is over. */
  function SendPart<B>(ch: Channel<B>, cl: Client<B>, beat: bool, cap: nat, zero: Item<B>):
      (out: (Channel<B>, Client<B>))
    requires cl.phase == Running(Send)
  {
    var (ch1, cl1) := HandleStep(ch, cl, beat, cap, zero);
    if cl1.phase == Running(Sending) then HandleStep(ch1, cl1, beat, cap, zero) else (ch1, cl1)
  }

  /** Handler steps until the receiving part is over. */
  function ReceivePart<B>(ch: Channel<B>, cl: Client<B>, beat: bool, cap: nat, zero: Item<B>):
      (out: (Channel<B>, Client<B>))
    requires cl.phase == Running(Receive)
  {
    var (ch1, cl1) := HandleStep(ch, cl, beat, cap, zero);
    if cl1.phase == Running(Delivering) then HandleStep(ch1, cl1, beat, cap, zero) else (ch1, cl1)
  }

  lemma SendPartEnds<B>(ch: Channel<B>, cl: Client<B>, beat: bool, cap: nat, zero: Item<B>)
    requires cl.phase == Running(Send)
    ensures SendPart(ch, cl, beat, cap, zero).1.phase == Running(Receive)
  {
  }

  lemma ReceivePartEnds<B>(ch: Channel<B>, cl: Client<B>, beat: bool, cap: nat, zero: Item<B>)
    requires cl.phase == Running(Receive)
    ensures ReceivePart(ch, cl, beat, cap, zero).1.phase == Running(Beat)
  {
  }

  /** One full round of the handler, from sending to sending. */
  function Round<B>(ch: Channel<B>, cl: Client<B>, beat: bool, cap: nat, zero: Item<B>): (out: (Channel<B>, Client<B>))
    requires cl.phase == Running(Send)
  {
    SendPartEnds(ch, cl, beat, cap, zero);
    var (ch1, cl1) := SendPart(ch, cl, beat, cap, zero);
    ReceivePartEnds(ch1, cl1, beat, cap, zero);
    var (ch2, cl2) := ReceivePart(ch1, cl1, beat, cap, zero);
    HandleStep(ch2, cl2, beat, cap, zero)
  }

  class Poller<B> {
    const ringCap: nat
    const serverCap: nat
    const zero: Item<B>
    var channels: seq<Channel<B>>
    var msg: Msg<B>
    var nextId: nat
    var sendQ: seq<Msg<B>>
    var recvQ: seq<Msg<B>>
    ghost var clients: map<string, Client<B>>

    function At(pc: ServerPc): Server<B>
      reads this
    {
      Server(pc, msg, nextId, sendQ, recvQ)
    }

    ghost function Whole(pc: ServerPc): State<B>
      reads this
    {
      State(ringCap, serverCap, zero, channels, clients, At(pc))
    }

    /** Channel numbers in the queues index the channel table. */
    ghost predicate Routed()
      reads this
    {
      && |channels| > 0
      && (forall k :: 0 <= k < |sendQ| ==> 0 <= sendQ[k].channelId < |channels|)
      && (forall k :: 0 <= k < |recvQ| ==> 0 <= recvQ[k].channelId < |channels|)
      && (forall i :: 0 <= i < |channels| ==> ShortRouted(channels[i].toServer, |channels|))
    }

    constructor (channelSize: nat, shmQueueSize: nat, zero: Item<B>)
      requires channelSize > 0 && shmQueueSize > 0
      ensures Routed() && Whole(Poll(0)) == Init(channelSize, shmQueueSize, zero)
    {
      this.ringCap, this.serverCap, this.zero := shmQueueSize - 1, 4 * shmQueueSize - 1, zero;
      channels := Init(channelSize, shmQueueSize, zero).channels;
      msg, nextId, sendQ, recvQ := Msg(DATA, 0, 0, zero), 1, [], [];
      clients := map[];
    }

    function NextPc(i: nat, m: Msg<B>): ServerPc {
      match m.msgType
      case DATA => Deliver(i)
      case LOGIN => Ack(i)
      case CLIENT_ACK => Accept(i)
      case _ => Expire(i)
    }

    /** Takes a message off a channel. */
    method Take(i: nat)
      requires Routed() && i < |channels| && channels[i].toServer != []
      modifies this`channels, this`msg, this`nextId
      ensures Routed() && |channels| == |old(channels)|
      ensures ValidPc(old(Whole(Poll(i)))) && Whole(NextPc(i, msg)) == PollStep(old(Whole(Poll(i))), false)
      ensures 0 <= msg.channelId < |channels|
    {
      msg := channels[i].toServer[0].(msgId := nextId);
      nextId := nextId + 1;
      assert ShortRouted(channels[i].toServer, |channels|);
      channels := channels[i := channels[i].(toServer := channels[i].toServer[1..])];
    }

    /** Acts on the message taken: passes on data, answers a login, marks the channel connected. */
    method Act(i: nat)
      requires Routed() && i < |channels| && 0 <= msg.channelId < |channels| && NextPc(i, msg) != Expire(i)
      modifies this`channels, this`recvQ
      ensures Routed() && |channels| == |old(channels)|
      ensures ValidPc(old(Whole(NextPc(i, msg)))) && Whole(Expire(i)) == PollStep(old(Whole(NextPc(i, msg))), false)
    {
      if msg.msgType == DATA {
        if |recvQ| < serverCap {
          recvQ := recvQ + [msg];
        } else {
          channels := channels[i := channels[i].(up := Lose(channels[i].up, msg.item.tag, ServerQueueFull))];
        }
      } else if msg.msgType == LOGIN {
        if |channels[i].toClient| < ringCap {
          channels := channels[i := channels[i].(toClient := channels[i].toClient + [Msg(SERVER_ACK, 0, i, zero)])];
        } else {
          assert channels[i := channels[i]] == channels;
        }
      } else {
        channels := channels[i := channels[i].(connected := true)];
      }
    }

    /** Takes at most one message off a channel and acts on it. */
    method Receive(i: nat) returns (ghost steps: seq<bool>)
      requires Routed() && i < |channels|
      modifies this`channels, this`msg, this`nextId, this`recvQ
      ensures Routed() && |channels| == |old(channels)| && Polls(old(Whole(Poll(i))), steps, Whole(Expire(i)))
    {
      ghost var s0 := Whole(Poll(i));
      if channels[i].toServer == [] {
        PollsOne(s0, false);
        return [false];
      }
      hide PollStep, Polls;
      Take(i);
      steps := [false];
      PollsOne(s0, false);
      if NextPc(i, msg) != Expire(i) {
        ghost var s1 := Whole(NextPc(i, msg));
        Act(i);
        PollsOne(s1, false);
        PollsConcat(s0, [false], s1, [false], Whole(Expire(i)));
        steps := [false] + [false];
      }
    }

    /** Drops the connection of a channel that has been silent too long, and moves on. */
    method TimeOut(i: nat, silent: bool) returns (ghost steps: seq<bool>)
      requires Routed() && i < |channels|
      modifies this`channels
      ensures Routed() && |channels| == |old(channels)|
      ensures Polls(old(Whole(Expire(i))), steps, Whole(if i + 1 < |channels| then Poll(i + 1) else Drain))
    {
      ghost var s := Whole(Expire(i));
      if channels[i].connected && silent {
        channels := channels[i := channels[i].(connected := false)];
      }
      PollsOne(s, silent);
      assert PollStep(s, silent).channels == channels;
      steps := [silent];
    }

    /** Sends one message of the server's user to the channel it names, if that is connected. */
    method Forward() returns (ghost steps: seq<bool>)
      requires Routed() && sendQ != []
      modifies this`channels, this`msg, this`nextId, this`sendQ
      ensures Routed() && |channels| == |old(channels)| && |sendQ| == |old(sendQ)| - 1
      ensures Polls(old(Whole(Drain)), steps, Whole(Drain))
    {
      ghost var s0 := Whole(Drain);
      PollsOne(s0, false);
      steps := [false];
      msg := sendQ[0].(msgId := nextId);
      nextId := nextId + 1;
      sendQ := sendQ[1..];
      var c := msg.channelId;
      if channels[c].connected {
        ghost var s1 := Whole(ServerPc.Forward);
        assert PollStep(s0, false) == s1;
        if |channels[c].toClient| < ringCap {
          channels := channels[c := channels[c].(toClient := channels[c].toClient + [msg])];
        } else {
          channels := channels[c := channels[c].(down := Lose(channels[c].down, msg.item.tag, ClientRingFull))];
        }
        PollsOne(s1, false);
        PollsConcat(s0, steps, s1, [false], Whole(Drain));
        steps := steps + [false];
      } else {
        channels := channels[c := channels[c].(down := Lose(channels[c].down, msg.item.tag, Unconnected))];
      }
    }

    /** One pass over all channels, then everything the server's user has queued. */
    method PollMsg(silent: seq<bool>) returns (ghost steps: seq<bool>)
      requires Routed() && |silent| == |channels|
      modifies this
      ensures Routed() && Polls(old(Whole(Poll(0))), steps, Whole(Poll(0)))
    {
      hide Polls, Whole;
      ghost var s0 := Whole(Poll(0));
      PollsNone(s0);
      steps := [];
      for i := 0 to |channels|
        invariant Routed() && |silent| == |channels|
        invariant Polls(s0, steps, Whole(if i < |channels| then Poll(i) else Drain))
      {
        ghost var s1 := Whole(Poll(i));
        ghost var received := Receive(i);
        PollsConcat(s0, steps, s1, received, Whole(Expire(i)));
        ghost var s2 := Whole(Expire(i));
        ghost var timed := TimeOut(i, silent[i]);
        PollsConcat(s0, steps + received, s2, timed, Whole(if i + 1 < |channels| then Poll(i + 1) else Drain));
        steps := steps + received + timed;
      }
      while sendQ != []
        invariant Routed() && Polls(s0, steps, Whole(Drain))
        decreases |sendQ|
      {
        ghost var s1 := Whole(Drain);
        ghost var sent := Forward();
        PollsConcat(s0, steps, s1, sent, Whole(Drain));
        steps := steps + sent;
      }
      DrainEnds();
      PollsConcat(s0, steps, Whole(Drain), [false], Whole(Poll(0)));
      steps := steps + [false];
    }

    lemma DrainEnds()
      requires Routed() && sendQ == []
      ensures Polls(Whole(Drain), [false], Whole(Poll(0)))
    {
    }
  }

  lemma PollsNone<B>(s: State<B>)
    ensures Polls(s, [], s)
  {
  }

  ghost predicate ShortRouted<B>(q: seq<Msg<B>>, n: nat) {
    forall k :: 0 <= k < |q| ==> 0 <= q[k].channelId < n
  }
}
