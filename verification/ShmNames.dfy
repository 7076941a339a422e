/** The names on the channels: cut to what the field holds, and each some client's own. */
module ShmNames {
  import opened ShmProtocol
  import opened ShmSessions

  /** A name in a field of 32 characters, the last one kept for its end. */
  predicate IsCut(name: string, full: string) {
    name <= full && |name| <= 31 && (|name| == 31 || name == full)
  }

  /** Some client has been started under a name that this is the cut of. */
  ghost predicate Asked<B>(actions: seq<Action<B>>, name: string) {
    exists k :: 0 <= k < |actions| && actions[k].Start? && IsCut(name, actions[k].clientName)
  }

  /** Every channel is free or under the name of a client that was started, and every client is on a channel of
      its own name. */
  ghost predicate NamesAsked<B>(s: State<B>, actions: seq<Action<B>>) {
    && (forall i :: 0 <= i < |s.channels| ==> s.channels[i].name == "" || Asked(actions, s.channels[i].name))
    && (forall n :: n in s.clients ==> n != "" && Asked(actions, n))
  }

  lemma AskedMore<B>(actions: seq<Action<B>>, a: Action<B>, name: string)
    requires Asked(actions, name)
    ensures Asked(actions + [a], name)
  {
    var k :| 0 <= k < |actions| && actions[k].Start? && IsCut(name, actions[k].clientName);
    assert (actions + [a])[k] == actions[k];
  }

  lemma AskedLast<B>(actions: seq<Action<B>>, full: string)
    ensures Asked(actions + [Start(full)], ClientName(full))
  {
    assert (actions + [Start(full)])[|actions|] == Action<B>.Start(full);
    assert IsCut(ClientName(full), full);
  }

  lemma ClientKeepsName<B>(ch: Channel<B>, cl: Client<B>, a: ClientAction<B>, cap: nat, zero: Item<B>)
    ensures ClientStep(ch, cl, a, cap, zero).0.name == ch.name
  {
  }

  /** The same channels under the same names, and the same clients. */
  ghost predicate SameNames<B>(s: State<B>, s': State<B>) {
    && |s'.channels| == |s.channels| && s'.clients.Keys == s.clients.Keys
    && forall i :: 0 <= i < |s.channels| ==> s'.channels[i].name == s.channels[i].name
  }

  lemma PollKeepsNames<B>(s: State<B>, expire: bool)
    requires ValidPc(s)
    ensures SameNames(s, PollStep(s, expire))
  {
  }

  /** Only a start names a channel or adds a client. */
  lemma OnlyStartNames<B>(s: State<B>, a: Action<B>)
    requires ValidPc(s) && !a.Start?
    ensures SameNames(s, Apply(s, a))
  {
    hide ClientStep, PollStep;
    match a
    case OfClient(name, act) =>
      if name in s.clients && s.clients[name].channel < |s.channels| {
        var cl := s.clients[name];
        ClientKeepsName(s.channels[cl.channel], cl, act, s.ringCap, s.zero);
      }
    case ServerPoll(expire) => PollKeepsNames(s, expire);
    case _ =>
  }

  lemma StepKeepsNames<B>(s: State<B>, before: seq<Action<B>>, a: Action<B>)
    requires ValidPc(s) && NamesAsked(s, before)
    ensures NamesAsked(Apply(s, a), before + [a])
  {
    hide Asked, ClientName;
    forall n | Asked(before, n) ensures Asked(before + [a], n) { AskedMore(before, a, n); }
    if a.Start? {
      AskedLast(before, a.clientName);
    } else {
      OnlyStartNames(s, a);
      hide ClientStep, PollStep, Apply;
    }
  }

  lemma {:induction false} RunKeepsNames<B>(s: State<B>, before: seq<Action<B>>, actions: seq<Action<B>>)
    requires Inv(s) && NamesAsked(s, before)
    ensures NamesAsked(Run(s, actions), before + actions)
    decreases |actions|
  {
    hide NamesAsked, Apply;
    if actions == [] {
      assert before + actions == before;
    } else {
      StepKeepsNames(s, before, actions[0]);
      StepKeepsInv(s, actions[0]);
      RunKeepsNames(Apply(s, actions[0]), before + [actions[0]], actions[1..]);
      assert before + [actions[0]] + actions[1..] == before + actions;
    }
  }

  /** In every run each channel that is not free is under a name of at most 31 characters: the whole name of a
      client that was started or, when that is longer, its first 31. */
  lemma EveryNameIsAsked<B>(channelSize: nat, shmQueueSize: nat, zero: Item<B>, actions: seq<Action<B>>, i: nat)
    requires channelSize > 0 && shmQueueSize > 0
    ensures Inv(Init(channelSize, shmQueueSize, zero))
    ensures var s := Run(Init(channelSize, shmQueueSize, zero), actions);
      i < |s.channels| && s.channels[i].name != "" ==> exists k ::
        && 0 <= k < |actions| && actions[k].Start?
        && s.channels[i].name ==
          if |actions[k].clientName| <= 31 then actions[k].clientName else actions[k].clientName[..31]
  {
    InitInv(channelSize, shmQueueSize, zero);
    var s := Run(Init(channelSize, shmQueueSize, zero), actions);
    RunKeepsNames(Init(channelSize, shmQueueSize, zero), [], actions);
    assert [] + actions == actions;
    hide Run, Inv;
    if i < |s.channels| && s.channels[i].name != "" {
      assert Asked(actions, s.channels[i].name);
      var k :| 0 <= k < |actions| && actions[k].Start? && IsCut(s.channels[i].name, actions[k].clientName);
    }
  }
}
