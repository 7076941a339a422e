/** What a connected client and the server's user get through: every payload accepted for sending can arrive, if no
    timeout strikes. */
module ShmDelivery {
  import opened ShmProtocol
  import opened ShmSessions
  import opened ShmProgress

  // ---------------------------------------------------------------- the client's handler

  predicate Runs<B>(s: State<B>, name: string, c: nat) {
    && name in s.clients && s.clients[name].channel == c < |s.channels| && s.clients[name].phase.Running?
  }

  /** One round-robin step of the handler, without a heartbeat. */
  lemma Handles<B>(s: State<B>, name: string, c: nat)
    requires Inv(s) && Runs(s, name, c)
    ensures var t := Apply(s, OfClient(name, Handle(false)));
      && Runs(t, name, c) && |t.channels| == |s.channels| && t.server == s.server
      && t.ringCap == s.ringCap && t.serverCap == s.serverCap && t.zero == s.zero
      && (t.channels[c], t.clients[name]) == HandleStep(s.channels[c], s.clients[name], false, s.ringCap, s.zero)
  {
    hide ViewInv, Named, OnlyDataQueued, ValidPc, Apply, HandleStep;
    Act(s, name, Handle(false));
    HandleRuns(s.channels[c], s.clients[name], s.ringCap, s.zero);
  }

  lemma HandleRuns<B>(ch: Channel<B>, cl: Client<B>, cap: nat, zero: Item<B>)
    requires cl.phase.Running?
    ensures HandleStep(ch, cl, false, cap, zero).1.phase.Running?
  {
  }

  /** The handler has changed neither the server nor what is logged, queued for sending or handed out. */
  ghost predicate HandledOnly<B>(s: State<B>, t: State<B>, name: string, c: nat)
    requires Runs(s, name, c)
  {
    && Runs(t, name, c) && |t.channels| == |s.channels| && t.server == s.server
    && t.ringCap == s.ringCap && t.serverCap == s.serverCap
    && var x, y := s.channels[c], t.channels[c];
    && y.connected == x.connected && y.up.out == x.up.out && y.up.log == x.up.log
    && y.down.out == x.down.out && y.down.log == x.down.log
  }

  function ToSend(pc: Pc): nat {
    match pc
    case Send => 0
    case Beat => 1
    case Delivering => 2
    case Receive => 3
    case Sending => 4
  }

  lemma NearerSend<B>(s: State<B>, name: string, c: nat)
    requires Inv(s) && Runs(s, name, c) && s.clients[name].phase.pc != Send
    ensures var t := Apply(s, OfClient(name, Handle(false)));
      && HandledOnly(s, t, name, c) && t.clients[name].sendQ == s.clients[name].sendQ
      && ToSend(t.clients[name].phase.pc) < ToSend(s.clients[name].phase.pc)
  {
    hide Inv, Apply;
    Handles(s, name, c);
  }

  /** The handler comes to look at the client's outbox. */
  lemma ReachSend<B>(s: State<B>, name: string, c: nat) returns (actions: seq<Action<B>>)
    requires Inv(s) && Runs(s, name, c)
    ensures AllCooperative(actions, name)
    ensures var t := Run(s, actions);
      && HandledOnly(s, t, name, c) && t.clients[name].sendQ == s.clients[name].sendQ
      && t.clients[name].phase.pc == Send
    decreases ToSend(s.clients[name].phase.pc)
  {
    hide ViewInv, Named, OnlyDataQueued, ValidPc, Apply, ToSend;
    if s.clients[name].phase.pc == Send {
      return [];
    }
    var a: Action<B> := OfClient(name, Handle(false));
    NearerSend(s, name, c);
    StepKeepsInv(s, a);
    var rest := ReachSend(Apply(s, a), name, c);
    actions := [a] + rest;
    assert actions[1..] == rest;
  }

  function ToReceive(pc: Pc): nat {
    match pc
    case Receive => 0
    case Sending => 1
    case Send => 2
    case Beat => 3
    case Delivering => 4
  }

  lemma NearerReceive<B>(s: State<B>, name: string, c: nat)
    requires Inv(s) && Runs(s, name, c) && s.clients[name].phase.pc != Receive
    ensures var t := Apply(s, OfClient(name, Handle(false)));
      && HandledOnly(s, t, name, c) && t.channels[c].toClient == s.channels[c].toClient
      && ToReceive(t.clients[name].phase.pc) < ToReceive(s.clients[name].phase.pc)
  {
    hide Inv, Apply;
    Handles(s, name, c);
  }

  /** The handler comes to look at the ring from the server. */
  lemma ReachReceive<B>(s: State<B>, name: string, c: nat) returns (actions: seq<Action<B>>)
    requires Inv(s) && Runs(s, name, c)
    ensures AllCooperative(actions, name)
    ensures var t := Run(s, actions);
      && HandledOnly(s, t, name, c) && t.channels[c].toClient == s.channels[c].toClient
      && t.clients[name].phase.pc == Receive
    decreases ToReceive(s.clients[name].phase.pc)
  {
    hide ViewInv, Named, OnlyDataQueued, ValidPc, Apply, ToReceive;
    if s.clients[name].phase.pc == Receive {
      return [];
    }
    var a: Action<B> := OfClient(name, Handle(false));
    NearerReceive(s, name, c);
    StepKeepsInv(s, a);
    var rest := ReachReceive(Apply(s, a), name, c);
    actions := [a] + rest;
    assert actions[1..] == rest;
  }

  // ---------------------------------------------------------------- client to server

  lemma PollTakes<B>(s: State<B>, c: nat)
    requires ValidPc(s) && c < |s.channels| && s.server.pc == Poll(c) && s.channels[c].toServer != []
    ensures var t := PollStep(s, false); var m := s.channels[c].toServer[0].(msgId := s.server.nextId);
      && t.clients == s.clients && |t.channels| == |s.channels|
      && t.ringCap == s.ringCap && t.serverCap == s.serverCap && t.zero == s.zero
      && t.channels[c] == s.channels[c].(toServer := s.channels[c].toServer[1..])
      && (m.msgType == DATA ==> t.server.pc == Deliver(c) && t.server.msg == m && t.server.recvQ == s.server.recvQ)
  {
  }

  /** The server empties the ring from a channel; the client does nothing meanwhile. */
  lemma EmptyRing<B>(s: State<B>, c: nat, name: string) returns (actions: seq<Action<B>>)
    requires Inv(s) && c < |s.channels|
    ensures AllCooperative(actions, name)
    ensures var t := Run(s, actions);
      && c < |t.channels| && t.clients == s.clients && t.ringCap == s.ringCap && t.serverCap == s.serverCap
      && t.channels[c].toServer == [] && t.channels[c].up.log == s.channels[c].up.log
    decreases |s.channels[c].toServer|
  {
    hide ViewInv, Named, OnlyDataQueued, ValidPc, PollStep, Apply;
    actions := [];
    if s.channels[c].toServer == [] {
      return;
    }
    actions := ReachPoll(s, c, name);
    PollTakes(Run(s, actions), c);
    PollIsApply(Run(s, actions));
    Then(s, actions, ServerPoll(false), name);
    actions := actions + [ServerPoll(false)];
    var rest := EmptyRing(Run(s, actions), c, name);
    ThenAll(s, actions, rest, name);
    actions := actions + rest;
  }

  lemma TakeFromOutbox<B>(s: State<B>, name: string, c: nat)
    requires Inv(s) && Runs(s, name, c) && s.clients[name].phase.pc == Send && s.clients[name].sendQ != []
    ensures var t := Apply(s, OfClient(name, Handle(false)));
      && HandledOnly(s, t, name, c) && t.channels[c] == s.channels[c] && t.clients[name].phase.pc == Sending
      && t.clients[name].sendQ == s.clients[name].sendQ[1..]
      && t.clients[name].dataMsg.item == s.clients[name].sendQ[0]
  {
    hide Inv, Apply;
    Handles(s, name, c);
  }

  lemma PutInRing<B>(s: State<B>, name: string, c: nat)
    requires Inv(s) && Runs(s, name, c) && s.clients[name].phase.pc == Sending
    requires s.channels[c].toServer == [] && s.ringCap >= 1
    ensures var t := Apply(s, OfClient(name, Handle(false))); var d := s.clients[name].dataMsg;
      HandledOnly(s, t, name, c) && t.channels[c].toServer == [d] && d.msgType == DATA && d.channelId == c
  {
    hide ViewInv, Named, OnlyDataQueued, ValidPc, Apply, Picked;
    SessionOf(s, name);
    Handles(s, name, c);
  }

  ghost predicate OnWay<B>(t: State<B>, s: State<B>, name: string, c: nat)
    requires Runs(s, name, c)
  {
    Runs(t, name, c) && t.ringCap == s.ringCap && t.serverCap == s.serverCap
    && t.channels[c].up.log == s.channels[c].up.log
  }

  /** A payload in the outbox gets into the ring. */
  lemma ReachRing<B>(s: State<B>, name: string, c: nat, p: nat) returns (actions: seq<Action<B>>)
    requires Inv(s) && Runs(s, name, c) && s.ringCap >= 1 && p < |s.clients[name].sendQ|
    ensures AllCooperative(actions, name)
    ensures var t := Run(s, actions);
      && OnWay(t, s, name, c) && |t.channels[c].toServer| == 1
      && t.channels[c].toServer[0].msgType == DATA && t.channels[c].toServer[0].channelId == c
      && t.channels[c].toServer[0].item == s.clients[name].sendQ[p]
    decreases p
  {
    hide ViewInv, Named, OnlyDataQueued, ValidPc, Apply;
    var a: Action<B> := OfClient(name, Handle(false));
    actions := ReachSend(s, name, c);
    if p == 0 {
      var empty := EmptyRing(Run(s, actions), c, name);
      ThenAll(s, actions, empty, name);
      actions := actions + empty;
      TakeFromOutbox(Run(s, actions), name, c);
      Then(s, actions, a, name);
      actions := actions + [a];
      PutInRing(Run(s, actions), name, c);
      Then(s, actions, a, name);
      actions := actions + [a];
    } else {
      TakeFromOutbox(Run(s, actions), name, c);
      Then(s, actions, a, name);
      actions := actions + [a];
      var rest := ReachRing(Run(s, actions), name, c, p - 1);
      ThenAll(s, actions, rest, name);
      actions := actions + rest;
    }
  }

  lemma UserTakes<B>(s: State<B>)
    requires ValidPc(s) && s.server.recvQ != []
    ensures var t := ServerPopStep(s);
      && t.server == s.server.(recvQ := s.server.recvQ[1..]) && t.clients == s.clients && |t.channels| == |s.channels|
      && t.ringCap == s.ringCap && t.serverCap == s.serverCap
      && forall c :: 0 <= c < |s.channels| ==>
           t.channels[c].toServer == s.channels[c].toServer && t.channels[c].up.log == s.channels[c].up.log
  {
  }

  /** The server's user takes all that waits for it. */
  lemma EmptyServerQueue<B>(s: State<B>, name: string) returns (actions: seq<Action<B>>)
    requires Inv(s)
    ensures AllCooperative(actions, name)
    ensures var t := Run(s, actions);
      && t.server == s.server.(recvQ := []) && t.clients == s.clients && |t.channels| == |s.channels|
      && t.ringCap == s.ringCap && t.serverCap == s.serverCap
      && forall c :: 0 <= c < |s.channels| ==>
           t.channels[c].toServer == s.channels[c].toServer && t.channels[c].up.log == s.channels[c].up.log
    decreases |s.server.recvQ|
  {
    hide ViewInv, Named, OnlyDataQueued, ValidPc, ServerPopStep;
    actions := [];
    if s.server.recvQ != [] {
      UserTakes(s);
      Then(s, actions, ServerPop, name);
      assert Apply(s, ServerPop) == ServerPopStep(s);
      actions := [] + [ServerPop];
      var rest := EmptyServerQueue(Run(s, actions), name);
      ThenAll(s, actions, rest, name);
      actions := actions + rest;
    }
  }

  lemma Received<B>(s: State<B>, c: nat)
    requires ValidPc(s) && c < |s.channels| && s.server.pc == Deliver(c) && |s.server.recvQ| < s.serverCap
    ensures var t := PollStep(s, false);
      && t.clients == s.clients && t.channels == s.channels && t.server.recvQ == s.server.recvQ + [s.server.msg]
  {
  }

  lemma HandedOut<B>(s: State<B>, m: Msg<B>)
    requires ValidPc(s) && s.server.recvQ == [m] && m.msgType == DATA && 0 <= m.channelId < |s.channels|
    ensures var t := ServerPopStep(s); var c := m.channelId;
      && |t.channels| == |s.channels| && t.clients == s.clients && t.channels[c].up.log == s.channels[c].up.log
      && t.channels[c].up.out == s.channels[c].up.out + [m.item.(data := m.item.data.(channelId := c))]
  {
  }

  /** The last payload handed out is this one, under the channel's own number. */
  ghost predicate JustOut<B>(out: seq<Item<B>>, x: Item<B>, c: nat) {
    out != [] && out[|out| - 1] == x.(data := x.data.(channelId := c))
  }

  /** A payload alone in the ring gets to the server's user. */
  lemma RingToUser<B>(s: State<B>, c: nat, m: Msg<B>, name: string) returns (actions: seq<Action<B>>)
    requires Inv(s) && c < |s.channels| && s.serverCap >= 1
    requires s.channels[c].toServer == [m] && m.msgType == DATA && m.channelId == c
    ensures AllCooperative(actions, name)
    ensures var t := Run(s, actions);
      && c < |t.channels| && t.clients == s.clients && t.channels[c].up.log == s.channels[c].up.log
      && JustOut(t.channels[c].up.out, m.item, c)
  {
    hide ViewInv, Named, OnlyDataQueued, ValidPc, PollStep, Apply, ServerPopStep;
    actions := ReachPoll(s, c, name);
    var empty := EmptyServerQueue(Run(s, actions), name);
    ThenAll(s, actions, empty, name);
    actions := actions + empty;
    PollTakes(Run(s, actions), c);
    PollIsApply(Run(s, actions));
    Then(s, actions, ServerPoll(false), name);
    actions := actions + [ServerPoll(false)];
    Received(Run(s, actions), c);
    PollIsApply(Run(s, actions));
    Then(s, actions, ServerPoll(false), name);
    actions := actions + [ServerPoll(false)];
    var t := Run(s, actions);
    HandedOut(t, t.server.recvQ[0]);
    PopIsApply(t);
    Then(s, actions, ServerPop, name);
    actions := actions + [ServerPop];
  }

  lemma PopIsApply<B>(s: State<B>)
    requires ValidPc(s)
    ensures Apply(s, ServerPop) == ServerPopStep(s)
  {
  }

  /** Every payload in a running client's outbox can be handed out to the server's user. */
  lemma OutboxArrives<B>(s: State<B>, name: string, c: nat, p: nat) returns (actions: seq<Action<B>>)
    requires Inv(s) && Runs(s, name, c) && s.ringCap >= 1 && s.serverCap >= 1 && p < |s.clients[name].sendQ|
    ensures AllCooperative(actions, name)
    ensures var t := Run(s, actions); c < |t.channels| && JustOut(t.channels[c].up.out, s.clients[name].sendQ[p], c)
  {
    hide ViewInv, Named, OnlyDataQueued, ValidPc, Apply;
    actions := ReachRing(s, name, c, p);
    var t := Run(s, actions);
    var more := RingToUser(t, c, t.channels[c].toServer[0], name);
    ThenAll(s, actions, more, name);
    actions := actions + more;
  }

  lemma ReachableShape<B>(channelSize: nat, shmQueueSize: nat, zero: Item<B>, actions: seq<Action<B>>)
    requires channelSize > 0 && shmQueueSize >= 2
    ensures Inv(Init(channelSize, shmQueueSize, zero))
    ensures var s := Run(Init(channelSize, shmQueueSize, zero), actions); s.ringCap >= 1 && s.serverCap >= 1
  {
    hide Inv, Run;
    InitInv(channelSize, shmQueueSize, zero);
    RunKeepsServerCap(Init(channelSize, shmQueueSize, zero), actions);
  }

  lemma {:induction false} RunKeepsServerCap<B>(s: State<B>, actions: seq<Action<B>>)
    requires Inv(s)
    ensures Run(s, actions).ringCap == s.ringCap && Run(s, actions).serverCap == s.serverCap
    decreases |actions|
  {
    hide ViewInv, Named, OnlyDataQueued, Apply;
    if actions != [] {
      StepKeepsInv(s, actions[0]);
      StepKeepsCaps(s, actions[0]);
      RunKeepsServerCap(Apply(s, actions[0]), actions[1..]);
    }
  }

  lemma Pushed<B>(s: State<B>, name: string, c: nat, data: Payload<B>)
    requires Inv(s) && Runs(s, name, c) && |s.clients[name].sendQ| < s.ringCap
    ensures var t := Apply(s, OfClient(name, Push(data)));
      && Inv(t) && Runs(t, name, c) && t.ringCap == s.ringCap && t.serverCap == s.serverCap
      && t.clients[name].sendQ == s.clients[name].sendQ + [Item(data, |s.channels[c].up.log|)]
      && t.channels[c].up.log == s.channels[c].up.log + [data]
  {
    hide ViewInv, Named, OnlyDataQueued, ValidPc, Apply;
    Act(s, name, Push(data));
    StepKeepsInv(s, OfClient(name, Push(data)));
  }

  /** In every reachable state, whatever a running client's user pushes while its outbox has room can be handed
      out to the server's user under the client's channel number. */
  lemma EveryPushCanArrive<B>(channelSize: nat, shmQueueSize: nat, zero: Item<B>, actions: seq<Action<B>>,
      name: string, c: nat, data: Payload<B>) returns (more: seq<Action<B>>)
    requires channelSize > 0 && shmQueueSize >= 2
    ensures Inv(Init(channelSize, shmQueueSize, zero)) && AllCooperative(more, name)
    ensures var s := Run(Init(channelSize, shmQueueSize, zero), actions);
      Runs(s, name, c) && |s.clients[name].sendQ| < s.ringCap ==>
        var t := Apply(s, OfClient(name, Push(data)));
        && Inv(t) && c < |Run(t, more).channels|
        && JustOut(Run(t, more).channels[c].up.out, Item(data, |s.channels[c].up.log|), c)
  {
    hide ViewInv, Named, OnlyDataQueued, ValidPc, Apply, Run, JustOut;
    ReachableShape(channelSize, shmQueueSize, zero, actions);
    var s := Run(Init(channelSize, shmQueueSize, zero), actions);
    more := [];
    if Runs(s, name, c) && |s.clients[name].sendQ| < s.ringCap {
      Pushed(s, name, c, data);
      more := OutboxArrives(Apply(s, OfClient(name, Push(data))), name, c, |s.clients[name].sendQ|);
    }
  }

  // ---------------------------------------------------------------- server to client

  /** Scanning leaves the server's outgoing queue and connected channels alone. */
  ghost predicate Scanned<B>(s: State<B>, t: State<B>, c: nat)
    requires c < |s.channels|
  {
    && |t.channels| == |s.channels| && t.clients == s.clients && t.server.sendQ == s.server.sendQ
    && t.ringCap == s.ringCap && t.serverCap == s.serverCap
    && t.channels[c].down.log == s.channels[c].down.log && (s.channels[c].connected ==> t.channels[c].connected)
  }

  lemma ScanKeeps<B>(s: State<B>, c: nat)
    requires ValidPc(s) && c < |s.channels| && s.server.pc != Drain
    ensures Scanned(s, PollStep(s, false), c)
  {
  }

  lemma NearerDrain<B>(s: State<B>, c: nat)
    requires Inv(s) && c < |s.channels| && s.server.pc != Drain
    ensures var t := PollStep(s, false);
      && Inv(t)
      && (t.server.pc == Drain
          || (s.server.pc != Forward && t.server.pc != Forward
              && (Left(t) < Left(s) || (Left(t) == Left(s) && Place(t) < Place(s)))))
  {
    StepKeepsInv(s, ServerPoll(false));
    hide ViewInv, Named, OnlyDataQueued;
  }

  /** Without a timeout the server comes to its outgoing queue. */
  lemma ReachDrain<B>(s: State<B>, c: nat, name: string) returns (actions: seq<Action<B>>)
    requires Inv(s) && c < |s.channels|
    ensures AllCooperative(actions, name)
    ensures Run(s, actions).server.pc == Drain && Scanned(s, Run(s, actions), c)
    decreases if s.server.pc == Drain then 0 else 1, Left(s), Place(s)
  {
    hide ViewInv, Named, OnlyDataQueued, ValidPc, PollStep, Left, Place;
    if s.server.pc == Drain {
      return [];
    }
    var a: Action<B> := ServerPoll(false);
    NearerDrain(s, c);
    ScanKeeps(s, c);
    assert Apply(s, a) == PollStep(s, false);
    var rest := ReachDrain(PollStep(s, false), c, name);
    actions := [a] + rest;
    assert actions[1..] == rest;
  }

  lemma DrainTakes<B>(s: State<B>, c: nat)
    requires ValidPc(s) && c < |s.channels| && s.server.pc == Drain && s.server.sendQ != []
    ensures var t := PollStep(s, false); var m := s.server.sendQ[0].(msgId := s.server.nextId);
      && |t.channels| == |s.channels| && t.clients == s.clients && t.server.sendQ == s.server.sendQ[1..]
      && t.ringCap == s.ringCap && t.serverCap == s.serverCap
      && t.channels[c].down.log == s.channels[c].down.log && t.channels[c].connected == s.channels[c].connected
      && t.channels[c].toClient == s.channels[c].toClient
      && (m.channelId == c && s.channels[c].connected ==> t.server.pc == Forward && t.server.msg == m)
  {
  }

  lemma Forwards<B>(s: State<B>, c: nat)
    requires ValidPc(s) && c < |s.channels| && s.server.pc == Forward && s.server.msg.channelId == c
    requires |s.channels[c].toClient| < s.ringCap
    ensures var t := PollStep(s, false);
      && |t.channels| == |s.channels| && t.clients == s.clients && t.ringCap == s.ringCap
      && t.channels[c].toClient == s.channels[c].toClient + [s.server.msg]
      && t.channels[c].down.log == s.channels[c].down.log
  {
  }

  lemma TakesFromRing<B>(s: State<B>, name: string, c: nat)
    requires Inv(s) && Runs(s, name, c) && s.clients[name].phase.pc == Receive && s.channels[c].toClient != []
    ensures var t := Apply(s, OfClient(name, Handle(false))); var m := s.channels[c].toClient[0];
      && HandledOnly(s, t, name, c) && t.channels[c].toClient == s.channels[c].toClient[1..]
      && (m.msgType == DATA ==> t.clients[name].phase.pc == Delivering && t.clients[name].dataMsg == m)
  {
    hide Inv, Apply;
    Handles(s, name, c);
  }

  /** The client's handler empties the ring from the server; the server does nothing meanwhile. */
  lemma EmptyRingDown<B>(s: State<B>, name: string, c: nat) returns (actions: seq<Action<B>>)
    requires Inv(s) && Runs(s, name, c)
    ensures AllCooperative(actions, name)
    ensures HandledOnly(s, Run(s, actions), name, c) && Run(s, actions).channels[c].toClient == []
    decreases |s.channels[c].toClient|
  {
    hide ViewInv, Named, OnlyDataQueued, ValidPc, Apply;
    actions := [];
    if s.channels[c].toClient == [] {
      return;
    }
    actions := ReachReceive(s, name, c);
    TakesFromRing(Run(s, actions), name, c);
    Then(s, actions, OfClient(name, Handle(false)), name);
    actions := actions + [OfClient(name, Handle(false))];
    var rest := EmptyRingDown(Run(s, actions), name, c);
    ThenAll(s, actions, rest, name);
    actions := actions + rest;
  }

  lemma UserPops<B>(s: State<B>, name: string, c: nat)
    requires Inv(s) && Runs(s, name, c) && s.clients[name].recvQ != []
    ensures var t := Apply(s, OfClient(name, Pop)); var cl := s.clients[name];
      && Runs(t, name, c) && t.ringCap == s.ringCap && t.channels[c].down.log == s.channels[c].down.log
      && t.clients[name] == cl.(recvQ := cl.recvQ[1..])
      && t.channels[c].down.out == s.channels[c].down.out + [cl.recvQ[0]]
  {
    hide ViewInv, Named, OnlyDataQueued, ValidPc, Apply;
    Act(s, name, Pop);
  }

  /** The client's user takes all that waits for it. */
  lemma EmptyInbox<B>(s: State<B>, name: string, c: nat) returns (actions: seq<Action<B>>)
    requires Inv(s) && Runs(s, name, c)
    ensures AllCooperative(actions, name)
    ensures var t := Run(s, actions);
      && Runs(t, name, c) && t.ringCap == s.ringCap && t.channels[c].down.log == s.channels[c].down.log
      && t.clients[name] == s.clients[name].(recvQ := [])
    decreases |s.clients[name].recvQ|
  {
    hide ViewInv, Named, OnlyDataQueued, ValidPc, Apply;
    actions := [];
    if s.clients[name].recvQ != [] {
      UserPops(s, name, c);
      Then(s, actions, OfClient(name, Pop), name);
      actions := [] + [OfClient(name, Pop)];
      var rest := EmptyInbox(Run(s, actions), name, c);
      ThenAll(s, actions, rest, name);
      actions := actions + rest;
    }
  }

  lemma Stores<B>(s: State<B>, name: string, c: nat)
    requires Inv(s) && Runs(s, name, c) && s.clients[name].phase.pc == Delivering
    requires s.clients[name].recvQ == [] && s.ringCap >= 1
    ensures var t := Apply(s, OfClient(name, Handle(false)));
      HandledOnly(s, t, name, c) && t.clients[name].recvQ == [s.clients[name].dataMsg.item]
  {
    hide Inv, Apply;
    Handles(s, name, c);
  }

  ghost predicate LastOut<B>(t: State<B>, c: nat, x: Item<B>) {
    c < |t.channels| && t.channels[c].down.out != [] && t.channels[c].down.out[|t.channels[c].down.out| - 1] == x
  }

  /** A payload alone in the ring gets to the client's user. */
  lemma RingToClient<B>(s: State<B>, name: string, c: nat, m: Msg<B>) returns (actions: seq<Action<B>>)
    requires Inv(s) && Runs(s, name, c) && s.ringCap >= 1 && s.channels[c].toClient == [m] && m.msgType == DATA
    ensures AllCooperative(actions, name)
    ensures LastOut(Run(s, actions), c, m.item)
  {
    hide ViewInv, Named, OnlyDataQueued, ValidPc, Apply;
    actions := ReachReceive(s, name, c);
    TakesFromRing(Run(s, actions), name, c);
    Then(s, actions, OfClient(name, Handle(false)), name);
    actions := actions + [OfClient(name, Handle(false))];
    var empty := EmptyInbox(Run(s, actions), name, c);
    ThenAll(s, actions, empty, name);
    actions := actions + empty;
    Stores(Run(s, actions), name, c);
    Then(s, actions, OfClient(name, Handle(false)), name);
    actions := actions + [OfClient(name, Handle(false))];
    UserPops(Run(s, actions), name, c);
    Then(s, actions, OfClient(name, Pop), name);
    actions := actions + [OfClient(name, Pop)];
  }

  /** A payload at the head of the server's queue gets into its connected channel's ring. */
  lemma HeadToRing<B>(s: State<B>, name: string, c: nat) returns (actions: seq<Action<B>>)
    requires Inv(s) && Runs(s, name, c) && s.ringCap >= 1 && s.channels[c].connected
    requires s.server.pc == Drain && s.server.sendQ != [] && s.server.sendQ[0].channelId == c
    ensures AllCooperative(actions, name)
    ensures var t := Run(s, actions);
      && Runs(t, name, c) && t.ringCap == s.ringCap && |t.channels[c].toClient| == 1
      && t.channels[c].toClient[0].item == s.server.sendQ[0].item && t.channels[c].toClient[0].msgType == DATA
  {
    hide ViewInv, Named, ValidPc, Apply, PollStep;
    actions := EmptyRingDown(s, name, c);
    DrainTakes(Run(s, actions), c);
    PollIsApply(Run(s, actions));
    Then(s, actions, ServerPoll(false), name);
    actions := actions + [ServerPoll(false)];
    Forwards(Run(s, actions), c);
    PollIsApply(Run(s, actions));
    Then(s, actions, ServerPoll(false), name);
    actions := actions + [ServerPoll(false)];
  }

  /** Every payload in the server's queue for a connected client can be handed out to that client's user. */
  lemma QueueArrives<B>(s: State<B>, name: string, c: nat, p: nat) returns (actions: seq<Action<B>>)
    requires Inv(s) && Runs(s, name, c) && s.ringCap >= 1 && s.channels[c].connected
    requires p < |s.server.sendQ| && s.server.sendQ[p].channelId == c
    ensures AllCooperative(actions, name)
    ensures LastOut(Run(s, actions), c, s.server.sendQ[p].item)
    decreases p
  {
    hide ViewInv, Named, OnlyDataQueued, ValidPc, Apply, PollStep;
    actions := ReachDrain(s, c, name);
    var t := Run(s, actions);
    if p == 0 {
      var up := HeadToRing(t, name, c);
      ThenAll(s, actions, up, name);
      actions := actions + up;
      var u := Run(s, actions);
      var last := RingToClient(u, name, c, u.channels[c].toClient[0]);
      ThenAll(s, actions, last, name);
      actions := actions + last;
    } else {
      DrainTakes(t, c);
      PollIsApply(t);
      Then(s, actions, ServerPoll(false), name);
      actions := actions + [ServerPoll(false)];
      var rest := QueueArrives(Run(s, actions), name, c, p - 1);
      ThenAll(s, actions, rest, name);
      actions := actions + rest;
    }
  }

  lemma ServerPushed<B>(s: State<B>, name: string, c: nat, data: Payload<B>)
    requires Inv(s) && Runs(s, name, c) && data.channelId == c && |s.server.sendQ| < s.serverCap
    ensures var t := Apply(s, ServerPush(data));
      && Inv(t) && Runs(t, name, c) && t.ringCap == s.ringCap && t.channels[c].connected == s.channels[c].connected
      && |t.server.sendQ| == |s.server.sendQ| + 1
      && t.server.sendQ[|s.server.sendQ|].channelId == c
      && t.server.sendQ[|s.server.sendQ|].item == Item(data, |s.channels[c].down.log|)
  {
    StepKeepsInv(s, ServerPush(data));
    hide ViewInv, Named, OnlyDataQueued;
  }

  /** In every reachable state, whatever the server's user pushes for a connected client while its queue has room
      can be handed out to that client's user as it was pushed. */
  lemma EveryServerPushCanArrive<B>(channelSize: nat, shmQueueSize: nat, zero: Item<B>, actions: seq<Action<B>>,
      name: string, data: Payload<B>) returns (more: seq<Action<B>>)
    requires channelSize > 0 && shmQueueSize >= 2 && data.channelId >= 0
    ensures Inv(Init(channelSize, shmQueueSize, zero)) && AllCooperative(more, name)
    ensures var s := Run(Init(channelSize, shmQueueSize, zero), actions); var c: nat := data.channelId;
      ConnectedAs(s, name, c) && |s.server.sendQ| < s.serverCap ==>
        var t := Apply(s, ServerPush(data));
        Inv(t) && LastOut(Run(t, more), c, Item(data, |s.channels[c].down.log|))
  {
    hide ViewInv, Named, OnlyDataQueued, ValidPc, Apply, Run, LastOut;
    ReachableShape(channelSize, shmQueueSize, zero, actions);
    var s := Run(Init(channelSize, shmQueueSize, zero), actions);
    var c: nat := data.channelId;
    more := [];
    if ConnectedAs(s, name, c) && |s.server.sendQ| < s.serverCap {
      ServerPushed(s, name, c, data);
      more := QueueArrives(Apply(s, ServerPush(data)), name, c, |s.server.sendQ|);
    }
  }
}
