/** What the transport gets done: as long as no timeout strikes, every handshake can complete and every accepted
    payload can arrive. Each lemma gives the steps that take it there. */
module ShmProgress {
  import opened Wrappers
  import opened ShmProtocol
  import opened ShmSessions

  // ---------------------------------------------------------------- the steps that may be taken

  /** What the server, one client's handler and the two users' receiving do by themselves, without a timeout. */
  predicate Cooperative<B>(a: Action<B>, name: string) {
    match a
    case ServerPoll(expire) => !expire
    case ServerPop => true
    case OfClient(n, act) => n == name && !act.Push? && !act.GiveUp?
    case _ => false
  }

  ghost predicate AllCooperative<B>(actions: seq<Action<B>>, name: string) {
    forall i :: 0 <= i < |actions| ==> Cooperative(actions[i], name)
  }

  lemma {:induction false} RunConcat<B>(s: State<B>, a: seq<Action<B>>, b: seq<Action<B>>)
    requires Inv(s)
    ensures Run(s, a + b) == Run(Run(s, a), b)
    decreases |a|
  {
    hide ViewInv, Named, OnlyDataQueued, ValidPc, Apply;
    if a == [] {
      assert a + b == b;
    } else {
      assert (a + b)[1..] == a[1..] + b;
      StepKeepsInv(s, a[0]);
      RunConcat(Apply(s, a[0]), a[1..], b);
    }
  }

  lemma Then<B>(s: State<B>, actions: seq<Action<B>>, a: Action<B>, name: string)
    requires Inv(s) && AllCooperative(actions, name)
    ensures Run(s, actions + [a]) == Apply(Run(s, actions), a)
    ensures Cooperative(a, name) ==> AllCooperative(actions + [a], name)
  {
    hide ViewInv, Named, OnlyDataQueued, ValidPc, Apply, Cooperative;
    RunConcat(s, actions, [a]);
    var t := Run(s, actions);
    assert [a][1..] == [];
    assert Run(t, [a]) == Run(Apply(t, a), []);
  }

  lemma ThenAll<B>(s: State<B>, a: seq<Action<B>>, b: seq<Action<B>>, name: string)
    requires Inv(s) && AllCooperative(a, name) && AllCooperative(b, name)
    ensures Run(s, a + b) == Run(Run(s, a), b) && AllCooperative(a + b, name)
  {
    hide Inv, Cooperative;
    RunConcat(s, a, b);
  }

  // ---------------------------------------------------------------- no handshake message is lost

  /** A client that waits for the acknowledgement has its login, or the answer to it, under way. */
  ghost predicate Underway<B>(v: View<B>) {
    v.owner.Some? && v.owner.value.phase.Handshaking? ==> v.ch.toServer != [] || v.hand == HAck || v.ch.toClient != []
  }

  ghost predicate AllUnderway<B>(s: State<B>) {
    forall c :: 0 <= c < |s.channels| ==> Underway(ViewOf(s, c))
  }

  lemma ClientViewUnderway<B>(v: View<B>, c: nat, a: ClientAction<B>, cap: nat, zero: Item<B>)
    requires Session(v, c) && v.owner.Some? && Underway(v) && cap >= 1
    ensures Underway(AfterClient(v, a, cap, zero))
  {
  }

  lemma ClientKeepsUnderway<B>(s: State<B>, name: string, act: ClientAction<B>)
    requires Inv(s) && AllUnderway(s) && s.ringCap >= 1
    ensures AllUnderway(Apply(s, OfClient(name, act)))
  {
    hide Session, Fate, ClientStep, Underway, Picked;
    if name in s.clients {
      var cl := s.clients[name];
      var i := cl.channel;
      var s' := Apply(s, OfClient(name, act));
      assert ViewInv(ViewOf(s, i), i);
      ClientViewUnderway(ViewOf(s, i), i, act, s.ringCap, s.zero);
      ClientStepKeepsName(s.channels[i], cl, act, s.ringCap, s.zero);
      assert ViewOf(s', i) == AfterClient(ViewOf(s, i), act, s.ringCap, s.zero);
      forall c | 0 <= c < |s'.channels| ensures Underway(ViewOf(s', c)) {
        if c != i {
          assert s.channels[c].name != name;
          assert ViewOf(s', c) == ViewOf(s, c);
        }
      }
    }
  }

  lemma ScanKeepsUnderway<B>(s: State<B>, expire: bool, c: nat)
    requires ValidPc(s) && c < |s.channels| && Session(ViewOf(s, c), c) && Underway(ViewOf(s, c)) && s.ringCap >= 1
    requires s.server.pc.Poll? || s.server.pc.Deliver? || s.server.pc.Ack?
    ensures |PollStep(s, expire).channels| == |s.channels| && Underway(ViewOf(PollStep(s, expire), c))
  {
    hide Picked;
  }

  lemma RestKeepsUnderway<B>(s: State<B>, expire: bool, c: nat)
    requires ValidPc(s) && c < |s.channels| && Session(ViewOf(s, c), c) && Underway(ViewOf(s, c))
    requires !(s.server.pc.Poll? || s.server.pc.Deliver? || s.server.pc.Ack?)
    ensures |PollStep(s, expire).channels| == |s.channels| && Underway(ViewOf(PollStep(s, expire), c))
  {
    hide Picked;
  }

  lemma PollKeepsUnderway<B>(s: State<B>, expire: bool, c: nat)
    requires Inv(s) && c < |s.channels| && Underway(ViewOf(s, c)) && s.ringCap >= 1
    ensures |PollStep(s, expire).channels| == |s.channels| && Underway(ViewOf(PollStep(s, expire), c))
  {
    hide Fate, Session, Underway, PollStep, Named, OnlyDataQueued, Picked;
    assert ViewInv(ViewOf(s, c), c);
    if s.server.pc.Poll? || s.server.pc.Deliver? || s.server.pc.Ack? {
      ScanKeepsUnderway(s, expire, c);
    } else {
      RestKeepsUnderway(s, expire, c);
    }
  }

  lemma StepKeepsUnderway<B>(s: State<B>, a: Action<B>)
    requires Inv(s) && AllUnderway(s) && s.ringCap >= 1
    ensures AllUnderway(Apply(s, a))
  {
    match a
    case OfClient(name, act) => ClientKeepsUnderway(s, name, act);
    case ServerPoll(expire) =>
      hide ViewInv, PollStep, Underway;
      forall c | 0 <= c < |PollStep(s, expire).channels| ensures Underway(ViewOf(PollStep(s, expire), c)) {
        PollKeepsCaps(s, expire);
        PollKeepsUnderway(s, expire, c);
      }
    case _ => UserKeepsUnderway(s, a);
  }

  lemma UserKeepsUnderway<B>(s: State<B>, a: Action<B>)
    requires Inv(s) && AllUnderway(s) && (a.Start? || a.ServerPush? || a.ServerPop?)
    ensures AllUnderway(Apply(s, a))
  {
    hide ViewInv, Picked;
    var s' := Apply(s, a);
    forall c | 0 <= c < |s'.channels| ensures Underway(ViewOf(s', c)) {
      assert Underway(ViewOf(s, c));
    }
  }

  lemma {:induction false} RunKeepsUnderway<B>(s: State<B>, actions: seq<Action<B>>)
    requires Inv(s) && AllUnderway(s) && s.ringCap >= 1
    ensures AllUnderway(Run(s, actions)) && Run(s, actions).ringCap == s.ringCap
    decreases |actions|
  {
    hide ViewInv, Underway;
    if actions != [] {
      StepKeepsInv(s, actions[0]);
      StepKeepsUnderway(s, actions[0]);
      StepKeepsCaps(s, actions[0]);
      RunKeepsUnderway(Apply(s, actions[0]), actions[1..]);
    }
  }

  lemma StepKeepsCaps<B>(s: State<B>, a: Action<B>)
    requires ValidPc(s)
    ensures Apply(s, a).ringCap == s.ringCap && Apply(s, a).serverCap == s.serverCap
    ensures Apply(s, a).zero == s.zero && |Apply(s, a).channels| == |s.channels|
  {
    hide ClientStep, PollStep, StartStep;
    match a
    case ServerPoll(expire) => PollKeepsCaps(s, expire);
    case Start(clientName) => StartKeepsCaps(s, clientName);
    case _ =>
  }

  lemma PollKeepsCaps<B>(s: State<B>, expire: bool)
    requires ValidPc(s)
    ensures var t := PollStep(s, expire);
      t.ringCap == s.ringCap && t.serverCap == s.serverCap && t.zero == s.zero && |t.channels| == |s.channels|
  {
  }

  lemma StartKeepsCaps<B>(s: State<B>, clientName: string)
    ensures var t := StartStep(s, clientName);
      t.ringCap == s.ringCap && t.serverCap == s.serverCap && t.zero == s.zero && |t.channels| == |s.channels|
  {
  }

  // ---------------------------------------------------------------- the server gets round to a channel

  /** How far the server is from polling channel `c`: the lap, what is left of it, and where it is there. */
  function Lap<B>(s: State<B>, c: nat): nat {
    match s.server.pc
    case Poll(i) => if i <= c then 0 else 2
    case Deliver(i) => if i < c then 0 else 2
    case Ack(i) => if i < c then 0 else 2
    case Accept(i) => if i < c then 0 else 2
    case Expire(i) => if i < c then 0 else 2
    case _ => 1
  }

  function Left<B>(s: State<B>): nat
    requires ValidPc(s)
  {
    match s.server.pc
    case Poll(i) => |s.channels| - i
    case Deliver(i) => |s.channels| - i
    case Ack(i) => |s.channels| - i
    case Accept(i) => |s.channels| - i
    case Expire(i) => |s.channels| - i
    case _ => |s.server.sendQ|
  }

  function Place<B>(s: State<B>): nat {
    match s.server.pc
    case Poll(_) => 2
    case Expire(_) => 0
    case Drain => 0
    case _ => 1
  }

  /** The server has done nothing to the channel's ring towards it, nor to any client. */
  ghost predicate Undisturbed<B>(s: State<B>, t: State<B>, c: nat)
    requires c < |s.channels|
  {
    && |t.channels| == |s.channels| && t.clients == s.clients
    && t.ringCap == s.ringCap && t.serverCap == s.serverCap && t.zero == s.zero
    && var x, y := s.channels[c], t.channels[c];
    && y.name == x.name && y.toServer == x.toServer && y.up.out == x.up.out && y.up.log == x.up.log
    && y.down.out == x.down.out && y.down.log == x.down.log
  }

  /** Nearer to polling `c`. */
  ghost predicate Nearer<B>(t: State<B>, s: State<B>, c: nat)
    requires ValidPc(s) && ValidPc(t)
  {
    || Lap(t, c) < Lap(s, c)
    || (Lap(t, c) == Lap(s, c) && (Left(t) < Left(s) || (Left(t) == Left(s) && Place(t) < Place(s))))
  }

  lemma PollNearer<B>(s: State<B>, c: nat)
    requires Inv(s) && c < |s.channels| && s.server.pc != Poll(c)
    ensures var t := PollStep(s, false);
      Inv(t) && Nearer(t, s, c) && t.server.pc != Ack(c) && t.server.pc != Accept(c)
  {
    StepKeepsInv(s, ServerPoll(false));
    hide ViewInv, Named, OnlyDataQueued;
  }

  lemma PollDisturbs<B>(s: State<B>, c: nat)
    requires ValidPc(s) && c < |s.channels| && s.server.pc != Poll(c)
    ensures var t := PollStep(s, false);
      && Undisturbed(s, t, c)
      && (s.server.pc != Accept(c) ==> t.channels[c].connected == s.channels[c].connected)
      && (s.channels[c].connected ==> t.channels[c].connected)
  {
  }

  lemma PollSpares<B>(s: State<B>, c: nat)
    requires Inv(s) && c < |s.channels| && s.server.pc != Ack(c) && !s.channels[c].connected
    ensures |PollStep(s, false).channels| == |s.channels|
    ensures PollStep(s, false).channels[c].toClient == s.channels[c].toClient
  {
    hide Fate, Picked;
    assert Session(ViewOf(s, c), c);
  }

  /** Without a timeout the server comes to poll any channel. */
  lemma ReachPoll<B>(s: State<B>, c: nat, name: string) returns (actions: seq<Action<B>>)
    requires Inv(s) && c < |s.channels|
    ensures AllCooperative(actions, name)
    ensures var t := Run(s, actions);
      && t.server.pc == Poll(c) && Undisturbed(s, t, c)
      && (s.server.pc != Ack(c) && s.server.pc != Accept(c) && !s.channels[c].connected ==>
            t.channels[c].toClient == s.channels[c].toClient && !t.channels[c].connected)
      && (s.channels[c].connected ==> t.channels[c].connected)
    decreases Lap(s, c), Left(s), Place(s)
  {
    hide ViewInv, Named, OnlyDataQueued, ValidPc, PollStep, Lap, Left, Place;
    if s.server.pc == Poll(c) {
      return [];
    }
    var a: Action<B> := ServerPoll(false);
    PollNearer(s, c);
    PollDisturbs(s, c);
    if s.server.pc != Ack(c) && !s.channels[c].connected { PollSpares(s, c); }
    var t := PollStep(s, false);
    assert t == Apply(s, a);
    var rest := ReachPoll(t, c, name);
    actions := [a] + rest;
    assert actions[1..] == rest;
  }

  // ---------------------------------------------------------------- the handshake

  lemma SessionOf<B>(s: State<B>, name: string)
    requires Inv(s) && name in s.clients
    ensures var c := s.clients[name].channel;
      && c < |s.channels| && s.channels[c].name == name
      && ViewOf(s, c).owner == Some(s.clients[name]) && Session(ViewOf(s, c), c)
  {
    hide Session, Fate;
    var c := s.clients[name].channel;
    assert ViewInv(ViewOf(s, c), c);
  }

  /** The one handshake message of a waiting client is its login, in the ring or in the server's hand, or the answer. */
  lemma LoginWhereabouts<B>(s: State<B>, name: string)
    requires Inv(s) && AllUnderway(s) && name in s.clients && s.clients[name].phase.Handshaking?
    ensures var c := s.clients[name].channel;
      && c < |s.channels|
      && var ch := s.channels[c];
      && !ch.connected && s.server.pc != Accept(c)
      && (|| (s.server.pc == Ack(c) && ch.toClient == [])
          || (s.server.pc != Ack(c) && ch.toClient == [] && |ch.toServer| == 1 && ch.toServer[0].msgType == LOGIN)
          || (|ch.toClient| == 1 && ch.toClient[0].msgType == SERVER_ACK))
  {
    hide Picked, ViewInv;
    SessionOf(s, name);
    assert Underway(ViewOf(s, s.clients[name].channel));
  }

  lemma PollLogin<B>(s: State<B>, c: nat)
    requires ValidPc(s) && c < |s.channels| && s.server.pc == Poll(c)
    requires s.channels[c].toServer != [] && s.channels[c].toServer[0].msgType == LOGIN
    ensures var t := PollStep(s, false);
      && t.server.pc == Ack(c) && t.clients == s.clients && |t.channels| == |s.channels|
      && t.channels[c] == s.channels[c].(toServer := s.channels[c].toServer[1..]) && t.ringCap == s.ringCap
  {
  }

  lemma AnswerLogin<B>(s: State<B>, c: nat)
    requires ValidPc(s) && c < |s.channels| && s.server.pc == Ack(c) && |s.channels[c].toClient| < s.ringCap
    ensures var t := PollStep(s, false);
      && t.clients == s.clients && |t.channels| == |s.channels|
      && t.channels[c].toClient == s.channels[c].toClient + [Msg(SERVER_ACK, 0, c, s.zero)]
  {
  }

  /** The server answers a waiting client's login. */
  lemma LoginIsAnswered<B>(s: State<B>, name: string) returns (actions: seq<Action<B>>)
    requires Inv(s) && AllUnderway(s) && s.ringCap >= 1 && name in s.clients && s.clients[name].phase.Handshaking?
    ensures AllCooperative(actions, name)
    ensures var t := Run(s, actions); var c := s.clients[name].channel;
      t.clients == s.clients && c < |t.channels| && t.channels[c].toClient != []
  {
    hide ViewInv, Named, OnlyDataQueued, ValidPc, PollStep, AllUnderway;
    LoginWhereabouts(s, name);
    var c := s.clients[name].channel;
    actions := [];
    if s.channels[c].toClient != [] {
      return;
    }
    if s.server.pc != Ack(c) {
      actions := ReachPoll(s, c, name);
      PollLogin(Run(s, actions), c);
      Then(s, actions, ServerPoll(false), name);
      actions := actions + [ServerPoll(false)];
    }
    AnswerLogin(Run(s, actions), c);
    Then(s, actions, ServerPoll(false), name);
    actions := actions + [ServerPoll(false)];
  }

  /** A client's own step, on its channel. */
  lemma Act<B>(s: State<B>, name: string, act: ClientAction<B>)
    requires Inv(s) && name in s.clients
    ensures var c := s.clients[name].channel; var t := Apply(s, OfClient(name, act));
      && c < |s.channels| == |t.channels| && name in t.clients && t.server == s.server
      && t.ringCap == s.ringCap && t.serverCap == s.serverCap && t.zero == s.zero
      && (t.channels[c], t.clients[name]) == ClientStep(s.channels[c], s.clients[name], act, s.ringCap, s.zero)
      && t.clients[name].channel == c
  {
    hide ViewInv, ClientStep, OnlyDataQueued, ValidPc;
    var c := s.clients[name].channel;
    ClientStepKeepsName(s.channels[c], s.clients[name], act, s.ringCap, s.zero);
  }

  lemma AnswerIsAcknowledged<B>(s: State<B>, name: string)
    requires Inv(s) && AllUnderway(s) && name in s.clients && s.clients[name].phase.Handshaking?
    requires s.channels[s.clients[name].channel].toClient != []
    ensures var t := Apply(s, OfClient(name, PollHandshake)); name in t.clients && t.clients[name].phase.Acking?
  {
    hide ViewInv, Named, OnlyDataQueued, ValidPc, AllUnderway, Apply;
    LoginWhereabouts(s, name);
    Act(s, name, PollHandshake);
  }

  lemma SendAck<B>(s: State<B>, name: string)
    requires Inv(s) && s.ringCap >= 1 && name in s.clients && s.clients[name].phase.Acking?
    ensures var c := s.clients[name].channel; var t := Apply(s, OfClient(name, SendClientAck));
      && c < |t.channels| && name in t.clients && t.clients[name].channel == c && t.clients[name].phase == Running(Send)
      && |t.channels[c].toServer| == 1 && t.channels[c].toServer[0].msgType == CLIENT_ACK
      && t.server.pc != Accept(c) && t.server.pc != Ack(c) && !t.channels[c].connected
  {
    hide ViewInv, Named, OnlyDataQueued, ValidPc, Apply, Picked;
    SessionOf(s, name);
    Act(s, name, SendClientAck);
  }

  lemma AcceptAck<B>(s: State<B>, c: nat)
    requires Inv(s) && c < |s.channels| && s.server.pc == Poll(c)
    requires s.channels[c].toServer != [] && s.channels[c].toServer[0].msgType == CLIENT_ACK
    ensures var t := PollStep(s, false);
      && t.server.pc == Accept(c) && t.clients == s.clients && |t.channels| == |s.channels|
      && Inv(t)
      && PollStep(t, false).clients == s.clients && |PollStep(t, false).channels| == |s.channels|
      && PollStep(t, false).channels[c].connected
  {
    StepKeepsInv(s, ServerPoll(false));
    hide ViewInv, Named, OnlyDataQueued;
  }

  /** The server takes a client's acknowledgement and connects it. */
  lemma AckConnects<B>(s: State<B>, name: string) returns (actions: seq<Action<B>>)
    requires Inv(s) && s.ringCap >= 1 && name in s.clients && s.clients[name].phase.Acking?
    ensures AllCooperative(actions, name)
    ensures var t := Run(s, actions); var c := s.clients[name].channel;
      && name in t.clients && t.clients[name].channel == c && t.clients[name].phase.Running?
      && c < |t.channels| && t.channels[c].connected
  {
    hide ViewInv, Named, OnlyDataQueued, ValidPc, PollStep, Apply;
    var c := s.clients[name].channel;
    SendAck(s, name);
    Then(s, [], OfClient(name, SendClientAck), name);
    actions := [] + [OfClient(name, SendClientAck)];
    var more := ReachPoll(Run(s, actions), c, name);
    ThenAll(s, actions, more, name);
    actions := actions + more;
    AcceptAck(Run(s, actions), c);
    PollIsApply(Run(s, actions));
    Then(s, actions, ServerPoll(false), name);
    actions := actions + [ServerPoll(false)];
    PollIsApply(Run(s, actions));
    Then(s, actions, ServerPoll(false), name);
    actions := actions + [ServerPoll(false)];
  }

  lemma PollIsApply<B>(s: State<B>)
    requires ValidPc(s)
    ensures Apply(s, ServerPoll(false)) == PollStep(s, false)
  {
  }

  lemma LoginIsSent<B>(s: State<B>, name: string)
    requires Inv(s) && name in s.clients && s.clients[name].phase == Claimed
    ensures var t := Apply(s, OfClient(name, SendLogin));
      name in t.clients && t.clients[name].channel == s.clients[name].channel && t.clients[name].phase.Handshaking?
  {
    hide ViewInv, Named, OnlyDataQueued, ValidPc, Apply;
    Act(s, name, SendLogin);
  }

  /** A client whose login is under way comes to be acknowledged. */
  lemma LoginIsAcknowledged<B>(s: State<B>, name: string) returns (actions: seq<Action<B>>)
    requires Inv(s) && AllUnderway(s) && s.ringCap >= 1 && name in s.clients && s.clients[name].phase.Handshaking?
    ensures AllCooperative(actions, name)
    ensures var t := Run(s, actions);
      name in t.clients && t.clients[name].channel == s.clients[name].channel && t.clients[name].phase.Acking?
  {
    hide ViewInv, Named, OnlyDataQueued, ValidPc, Apply, AllUnderway;
    actions := LoginIsAnswered(s, name);
    RunKeepsUnderway(s, actions);
    var t := Run(s, actions);
    AnswerIsAcknowledged(t, name);
    Act(t, name, PollHandshake);
    Then(s, actions, OfClient(name, PollHandshake), name);
    actions := actions + [OfClient(name, PollHandshake)];
  }

  predicate ConnectedAs<B>(s: State<B>, name: string, c: nat) {
    && name in s.clients && s.clients[name].channel == c && s.clients[name].phase.Running?
    && c < |s.channels| && s.channels[c].connected
  }

  predicate Waiting<B>(s: State<B>, name: string) {
    name in s.clients
    && (s.clients[name].phase.Claimed? || s.clients[name].phase.Handshaking? || s.clients[name].phase.Acking?)
  }

  lemma WaitingConnects<B>(s: State<B>, name: string) returns (actions: seq<Action<B>>)
    requires Inv(s) && AllUnderway(s) && s.ringCap >= 1 && Waiting(s, name)
    ensures AllCooperative(actions, name)
    ensures ConnectedAs(Run(s, actions), name, s.clients[name].channel)
  {
    hide ViewInv, Named, OnlyDataQueued, ValidPc, Apply, AllUnderway;
    actions := [];
    if s.clients[name].phase.Claimed? {
      LoginIsSent(s, name);
      Then(s, actions, OfClient(name, SendLogin), name);
      actions := [] + [OfClient(name, SendLogin)];
    }
    RunKeepsUnderway(s, actions);
    if Run(s, actions).clients[name].phase.Handshaking? {
      var more := LoginIsAcknowledged(Run(s, actions), name);
      ThenAll(s, actions, more, name);
      actions := actions + more;
    }
    RunKeepsUnderway(s, actions);
    var last := AckConnects(Run(s, actions), name);
    ThenAll(s, actions, last, name);
    actions := actions + last;
  }

  lemma InitUnderway<B>(channelSize: nat, shmQueueSize: nat, zero: Item<B>)
    requires channelSize > 0 && shmQueueSize > 0
    ensures AllUnderway(Init(channelSize, shmQueueSize, zero))
  {
  }

  /** From every reachable state in which a client waits to be connected there are steps, without a timeout,
      after which it is running and its channel is connected; with rings of at least two slots. */
  lemma EveryHandshakeCanComplete<B>(channelSize: nat, shmQueueSize: nat, zero: Item<B>, actions: seq<Action<B>>,
      name: string) returns (more: seq<Action<B>>)
    requires channelSize > 0 && shmQueueSize >= 2
    ensures Inv(Init(channelSize, shmQueueSize, zero)) && AllCooperative(more, name)
    ensures var s := Run(Init(channelSize, shmQueueSize, zero), actions);
      Waiting(s, name) ==> ConnectedAs(Run(s, more), name, s.clients[name].channel)
  {
    hide Inv, AllUnderway, Waiting, ConnectedAs, Run;
    InitInv(channelSize, shmQueueSize, zero);
    InitUnderway(channelSize, shmQueueSize, zero);
    var s0 := Init(channelSize, shmQueueSize, zero);
    RunKeepsUnderway(s0, actions);
    var s := Run(s0, actions);
    more := [];
    if Waiting(s, name) { more := WaitingConnects(s, name); }
  }

  // ---------------------------------------------------------------- rings of one slot

  ghost predicate NothingSent<B>(s: State<B>) {
    && s.ringCap == 0 && !s.server.pc.Accept?
    && forall c :: 0 <= c < |s.channels| ==> s.channels[c].toServer == [] && !s.channels[c].connected
  }

  lemma StepSendsNothing<B>(s: State<B>, a: Action<B>)
    requires Inv(s) && NothingSent(s)
    ensures NothingSent(Apply(s, a))
  {
    hide ViewInv, ClientStep;
    StepKeepsCaps(s, a);
    if a.OfClient? && a.name in s.clients {
      Act(s, a.name, a.act);
      ClientSendsNothing(s.channels[s.clients[a.name].channel], s.clients[a.name], a.act, s.zero);
    }
  }

  lemma ClientSendsNothing<B>(ch: Channel<B>, cl: Client<B>, act: ClientAction<B>, zero: Item<B>)
    requires ch.toServer == []
    ensures ClientStep(ch, cl, act, 0, zero).0.toServer == []
    ensures ClientStep(ch, cl, act, 0, zero).0.connected == ch.connected
  {
  }

  lemma {:induction false} RunSendsNothing<B>(s: State<B>, actions: seq<Action<B>>)
    requires Inv(s) && NothingSent(s)
    ensures NothingSent(Run(s, actions))
    decreases |actions|
  {
    hide ViewInv, Named, OnlyDataQueued, ValidPc, Apply;
    if actions != [] {
      StepKeepsInv(s, actions[0]);
      StepSendsNothing(s, actions[0]);
      RunSendsNothing(Apply(s, actions[0]), actions[1..]);
    }
  }

  /** With rings of one slot no channel is ever connected. */
  lemma OneSlotNeverConnects<B>(channelSize: nat, zero: Item<B>, actions: seq<Action<B>>, c: nat)
    requires channelSize > 0
    ensures Inv(Init(channelSize, 1, zero))
    ensures var s := Run(Init(channelSize, 1, zero), actions); c < |s.channels| ==> !s.channels[c].connected
  {
    hide Inv, Run;
    InitInv(channelSize, 1, zero);
    RunSendsNothing(Init(channelSize, 1, zero), actions);
  }

  // ---------------------------------------------------------------- timeouts

  /** A timeout disconnects the channel the server has just polled, and no other. */
  lemma TimeoutDisconnects<B>(s: State<B>, i: nat, c: nat)
    requires ValidPc(s) && s.server.pc == Expire(i) && c < |s.channels|
    ensures |PollStep(s, true).channels| == |s.channels|
    ensures PollStep(s, true).channels[c].connected <==> s.channels[c].connected && c != i
  {
  }

  /** A running client that is not connected and has no acknowledgement under way. */
  ghost predicate CutOff<B>(v: View<B>) {
    && v.owner.Some? && v.owner.value.phase.Running? && !v.ch.connected && v.hand != HAccept
    && forall k :: 0 <= k < |v.ch.toServer| ==> v.ch.toServer[k].msgType != CLIENT_ACK
  }

  lemma ClientStaysCutOff<B>(v: View<B>, c: nat, a: ClientAction<B>, cap: nat, zero: Item<B>)
    requires Session(v, c) && CutOff(v)
    ensures CutOff(AfterClient(v, a, cap, zero))
  {
  }

  lemma PollStaysCutOff<B>(s: State<B>, expire: bool, c: nat)
    requires ValidPc(s) && c < |s.channels| && CutOff(ViewOf(s, c))
    ensures |PollStep(s, expire).channels| == |s.channels| && CutOff(ViewOf(PollStep(s, expire), c))
  {
    hide Picked;
  }

  lemma StepStaysCutOff<B>(s: State<B>, a: Action<B>, c: nat)
    requires Inv(s) && c < |s.channels| && CutOff(ViewOf(s, c))
    ensures |Apply(s, a).channels| == |s.channels| && CutOff(ViewOf(Apply(s, a), c))
  {
    hide Fate, Session, ClientStep, Picked, PollStep, CutOff;
    StepKeepsCaps(s, a);
    match a
    case OfClient(name, act) => ClientCutOff(s, name, act, c);
    case ServerPoll(expire) => PollStaysCutOff(s, expire, c);
    case _ => UserCutOff(s, a, c);
  }

  lemma ClientCutOff<B>(s: State<B>, name: string, act: ClientAction<B>, c: nat)
    requires Inv(s) && c < |s.channels| && CutOff(ViewOf(s, c))
    ensures |Apply(s, OfClient(name, act)).channels| == |s.channels|
    ensures CutOff(ViewOf(Apply(s, OfClient(name, act)), c))
  {
    hide Fate, Session, ClientStep, Picked, CutOff;
    assert ViewInv(ViewOf(s, c), c);
    if name in s.clients {
      var i := s.clients[name].channel;
      var s' := Apply(s, OfClient(name, act));
      ClientStepKeepsName(s.channels[i], s.clients[name], act, s.ringCap, s.zero);
      if c == i {
        assert ViewOf(s, i).owner.Some?;
        ClientStaysCutOff(ViewOf(s, i), i, act, s.ringCap, s.zero);
        assert ViewOf(s', i) == AfterClient(ViewOf(s, i), act, s.ringCap, s.zero);
      } else {
        assert s.channels[c].name != name;
        assert ViewOf(s', c) == ViewOf(s, c);
      }
    }
  }

  lemma UserCutOff<B>(s: State<B>, a: Action<B>, c: nat)
    requires Inv(s) && c < |s.channels| && CutOff(ViewOf(s, c)) && (a.Start? || a.ServerPush? || a.ServerPop?)
    ensures |Apply(s, a).channels| == |s.channels| && CutOff(ViewOf(Apply(s, a), c))
  {
    hide ViewInv, Picked;
  }

  /** Once cut off, a client is never connected again, whatever happens. */
  lemma {:induction false} CutOffForGood<B>(s: State<B>, actions: seq<Action<B>>, c: nat)
    requires Inv(s) && c < |s.channels| && CutOff(ViewOf(s, c))
    ensures var t := Run(s, actions); c < |t.channels| && CutOff(ViewOf(t, c)) && !t.channels[c].connected
    decreases |actions|
  {
    hide ViewInv, Named, OnlyDataQueued, ValidPc, Apply;
    if actions != [] {
      StepKeepsInv(s, actions[0]);
      StepStaysCutOff(s, actions[0], c);
      CutOffForGood(Apply(s, actions[0]), actions[1..], c);
    }
  }
}
