/** Every answer a caller gets is the reply to the very command it sent, handled between its call and its return. */
module BrokerReplies {
  import opened Records
  import opened Shards
  import opened Broker
  import opened BrokerOrder

  /** What is true of a caller in the middle of a call. */
  predicate ClientSound(config: Config, c: Client, handled: seq<Handled>, nextChannel: nat) {
    match c
    case Idle => true
    case Ready(call, stage, since) => StageFits(call, stage) && since <= |handled|
    case Waiting(call, stage, since, channel) => StageFits(call, stage) && since <= |handled| && channel < nextChannel
    case Replied(call, stage, since, position, reply) =>
      && StageFits(call, stage)
      && since <= position < |handled|
      && handled[position] == Handled(TargetOf(config, call, stage), CommandOf(call, stage), reply)
  }

  /** A message somebody waits for is the one that caller sent, in the mailbox it was sent to. */
  predicate MessageSound(config: Config, s: nat, m: Message, clients: seq<Client>, nextChannel: nat) {
    && m.channel < nextChannel
    && (m.client < |clients| && clients[m.client].Waiting? && clients[m.client].channel == m.channel ==>
          var c := clients[m.client];
          && StageFits(c.call, c.stage)
          && m.command == CommandOf(c.call, c.stage) && s == TargetOf(config, c.call, c.stage))
  }

  predicate MailboxSound(config: Config, s: nat, mailbox: seq<Message>, clients: seq<Client>, nextChannel: nat) {
    forall i :: 0 <= i < |mailbox| ==> MessageSound(config, s, mailbox[i], clients, nextChannel)
  }

  /** The command whose reply decides a call that takes one round trip or ends in an append. */
  function DecidingCommand(call: Call): Command {
    if call.ProduceTransactionalCall? then CommandOf(call, Append) else CommandOf(call, First)
  }

  /** A returned call: its deciding command was handled between call and return, and its result is that reply. */
  predicate FinishedSound(f: Finished, handled: seq<Handled>) {
    && f.since <= f.until <= |handled|
    && (f.position.Some? ==> f.since <= f.position.value < f.until)
    && (f.outcome.Succeeded? ==>
          && f.position.Some?
          && handled[f.position.value].command == DecidingCommand(f.call)
          && handled[f.position.value].reply == f.outcome.reply
          && !f.outcome.reply.Failed?)
  }

  /** No reply is given to two callers. */
  predicate PositionsDistinct(clients: seq<Client>, finished: seq<Finished>) {
    && (forall j, k :: 0 <= j < k < |clients| && clients[j].Replied? && clients[k].Replied? ==>
          clients[j].position != clients[k].position)
    && (forall i, j :: 0 <= i < j < |finished| && finished[i].position.Some? ==>
          finished[i].position != finished[j].position)
    && (forall i, k :: 0 <= i < |finished| && 0 <= k < |clients| && clients[k].Replied? ==>
          finished[i].position != Some(clients[k].position))
  }

  predicate Sound(config: Config, state: State) {
    && (forall k :: 0 <= k < |state.clients| ==>
          ClientSound(config, state.clients[k], state.handled, state.nextChannel))
    && (forall s :: 0 <= s < |state.nodes| ==>
          MailboxSound(config, s, state.nodes[s].mailbox, state.clients, state.nextChannel))
    && (forall i :: 0 <= i < |state.finished| ==> FinishedSound(state.finished[i], state.handled))
    && PositionsDistinct(state.clients, state.finished)
  }

  lemma ClientSoundGrows(config: Config, c: Client, handled: seq<Handled>, h: Handled, nextChannel: nat)
    requires ClientSound(config, c, handled, nextChannel)
    ensures ClientSound(config, c, handled + [h], nextChannel)
  {
  }

  /** Nobody can be waiting on a channel that was just made. */
  lemma FreshChannel(config: Config, s: nat, mailbox: seq<Message>, clients: seq<Client>, nextChannel: nat, k: nat,
                     c: Client)
    requires MailboxSound(config, s, mailbox, clients, nextChannel) && k < |clients|
    requires !c.Waiting? || c.channel == nextChannel
    ensures MailboxSound(config, s, mailbox, clients[k := c], nextChannel + if c.Waiting? then 1 else 0)
  {
    forall i | 0 <= i < |mailbox|
      ensures MessageSound(config, s, mailbox[i], clients[k := c], nextChannel + if c.Waiting? then 1 else 0)
    {
      assert MessageSound(config, s, mailbox[i], clients, nextChannel);
    }
  }

  lemma FinishingKeepsSound(config: Config, state: State, k: nat, outcome: Outcome, position: Option<nat>)
    requires Sound(config, state) && k < |state.clients| && !state.clients[k].Idle?
    requires position.None? || (state.clients[k].Replied? && position == Some(state.clients[k].position))
    requires outcome.Succeeded? ==>
      && position.Some? && state.clients[k].Replied?
      && state.clients[k].reply == outcome.reply && !outcome.reply.Failed?
      && CommandOf(state.clients[k].call, state.clients[k].stage) == DecidingCommand(state.clients[k].call)
    ensures Sound(config, Finishing(state, k, outcome, position))
  {
    var c, next := state.clients[k], Finishing(state, k, outcome, position);
    assert ClientSound(config, c, state.handled, state.nextChannel);
    assert FinishedSound(next.finished[|state.finished|], state.handled);
    forall s | 0 <= s < |next.nodes|
      ensures MailboxSound(config, s, next.nodes[s].mailbox, next.clients, next.nextChannel)
    {
      FreshChannel(config, s, state.nodes[s].mailbox, state.clients, state.nextChannel, k, Idle);
    }
  }

  lemma OnlyDecidingSucceeds(config: Config, call: Call, stage: Stage, reply: Reply)
    requires StageFits(call, stage)
    requires AfterReply(config, call, stage, reply).Finish? && AfterReply(config, call, stage, reply).outcome.Succeeded?
    ensures AfterReply(config, call, stage, reply).outcome.reply == reply && !reply.Failed?
    ensures CommandOf(call, stage) == DecidingCommand(call)
  {
  }

  lemma NextStageFits(config: Config, call: Call, stage: Stage, reply: Reply)
    requires StageFits(call, stage) && AfterReply(config, call, stage, reply).Continue?
    ensures StageFits(call, AfterReply(config, call, stage, reply).stage)
  {
  }

  lemma ReadyKeepsSound(config: Config, state: State, k: nat, call: Call, stage: Stage, since: nat)
    requires Sound(config, state) && k < |state.clients|
    requires StageFits(call, stage) && since <= |state.handled|
    ensures Sound(config, state.(clients := state.clients[k := Ready(call, stage, since)]))
  {
    forall s | 0 <= s < |state.nodes|
      ensures MailboxSound(config, s, state.nodes[s].mailbox, state.clients[k := Ready(call, stage, since)],
                           state.nextChannel)
    {
      FreshChannel(config, s, state.nodes[s].mailbox, state.clients, state.nextChannel, k, Ready(call, stage, since));
    }
  }

  lemma ReceiveKeepsSound(config: Config, state: State, k: nat)
    requires Sound(config, state) && Enabled(config, state, Receive(k))
    ensures Sound(config, ApplyReceive(config, state, k))
  {
    var c := state.clients[k];
    assert ClientSound(config, c, state.handled, state.nextChannel);
    match AfterReply(config, c.call, c.stage, c.reply)
    case Continue(stage) =>
      NextStageFits(config, c.call, c.stage, c.reply);
      ReadyKeepsSound(config, state, k, c.call, stage, c.since);
    case Finish(outcome) =>
      if outcome.Succeeded? {
        OnlyDecidingSucceeds(config, c.call, c.stage, c.reply);
      }
      FinishingKeepsSound(config, state, k, outcome, Some(c.position));
  }

  lemma SendKeepsSound(config: Config, state: State, k: nat)
    requires Sound(config, state) && Enabled(config, state, Send(k))
    ensures Sound(config, ApplySend(config, state, k))
  {
    var c, next := state.clients[k], ApplySend(config, state, k);
    var w := Waiting(c.call, c.stage, c.since, state.nextChannel);
    assert ClientSound(config, c, state.handled, state.nextChannel);
    forall s | 0 <= s < |next.nodes|
      ensures MailboxSound(config, s, next.nodes[s].mailbox, next.clients, next.nextChannel)
    {
      FreshChannel(config, s, state.nodes[s].mailbox, state.clients, state.nextChannel, k, w);
    }
    forall j | 0 <= j < |next.clients| ensures ClientSound(config, next.clients[j], next.handled, next.nextChannel) {
      assert ClientSound(config, state.clients[j], state.handled, state.nextChannel);
    }
  }

  /** The client a reply is delivered to holds the reply to its own command. */
  lemma DeliverySound(config: Config, state: State, s: nat, reply: Reply)
    requires Sound(config, state) && s < |state.nodes| && state.nodes[s].mailbox != []
    requires Awaited(state, state.nodes[s].mailbox[0])
    ensures var message := state.nodes[s].mailbox[0];
            var h := Handled(s, message.command, reply);
            ClientSound(config, Deliver(state, message, reply)[message.client], state.handled + [h], state.nextChannel)
  {
    var message := state.nodes[s].mailbox[0];
    assert MailboxSound(config, s, state.nodes[s].mailbox, state.clients, state.nextChannel);
    assert MessageSound(config, s, message, state.clients, state.nextChannel);
    assert ClientSound(config, state.clients[message.client], state.handled, state.nextChannel);
  }

  lemma DeliveryDistinct(config: Config, state: State, message: Message, reply: Reply)
    requires Sound(config, state)
    ensures PositionsDistinct(Deliver(state, message, reply), state.finished)
  {
    forall k | 0 <= k < |state.clients| && state.clients[k].Replied?
      ensures state.clients[k].position < |state.handled|
    {
      assert ClientSound(config, state.clients[k], state.handled, state.nextChannel);
    }
    forall i | 0 <= i < |state.finished| && state.finished[i].position.Some?
      ensures state.finished[i].position.value < |state.handled|
    {
      assert FinishedSound(state.finished[i], state.handled);
    }
  }

  lemma MailboxesAfterDelivery(config: Config, state: State, message: Message, reply: Reply, s: nat,
                               mailbox: seq<Message>)
    requires MailboxSound(config, s, mailbox, state.clients, state.nextChannel)
    ensures MailboxSound(config, s, mailbox, Deliver(state, message, reply), state.nextChannel)
  {
    if Awaited(state, message) {
      var c := state.clients[message.client];
      FreshChannel(config, s, mailbox, state.clients, state.nextChannel, message.client,
                   Replied(c.call, c.stage, c.since, |state.handled|, reply));
    }
  }

  lemma HandlingKeepsSound(config: Config, state: State, s: nat)
    requires Sound(config, state) && Enabled(config, state, Handling(s))
    ensures Sound(config, ApplyHandling(config, state, s))
  {
    var next, message := ApplyHandling(config, state, s), state.nodes[s].mailbox[0];
    var reply := next.handled[|state.handled|].reply;
    forall k | 0 <= k < |next.clients| ensures ClientSound(config, next.clients[k], next.handled, next.nextChannel) {
      if Awaited(state, message) && k == message.client {
        DeliverySound(config, state, s, reply);
      } else {
        ClientSoundGrows(config, state.clients[k], state.handled, next.handled[|state.handled|], state.nextChannel);
      }
    }
    forall t | 0 <= t < |next.nodes|
      ensures MailboxSound(config, t, next.nodes[t].mailbox, next.clients, next.nextChannel)
    {
      MailboxesAfterDelivery(config, state, message, reply, t, state.nodes[t].mailbox);
    }
    forall i | 0 <= i < |next.finished| ensures FinishedSound(next.finished[i], next.handled) {
      assert FinishedSound(state.finished[i], state.handled);
    }
    DeliveryDistinct(config, state, message, reply);
  }

  lemma ShutdownKeepsSound(config: Config, state: State, s: nat)
    requires Sound(config, state) && Enabled(config, state, RequestShutdown(s))
    ensures Sound(config, Enqueue(state, s, Message(|state.clients|, state.nextChannel, Shutdown)))
  {
    var next := Enqueue(state, s, Message(|state.clients|, state.nextChannel, Shutdown));
    forall t | 0 <= t < |next.nodes|
      ensures MailboxSound(config, t, next.nodes[t].mailbox, next.clients, next.nextChannel)
    {
      var mailbox := state.nodes[t].mailbox;
      assert MailboxSound(config, t, mailbox, state.clients, state.nextChannel);
      forall i | 0 <= i < |mailbox| ensures MessageSound(config, t, mailbox[i], next.clients, next.nextChannel) {
        assert MessageSound(config, t, mailbox[i], state.clients, state.nextChannel);
      }
    }
    forall k | 0 <= k < |next.clients| ensures ClientSound(config, next.clients[k], next.handled, next.nextChannel) {
      assert ClientSound(config, state.clients[k], state.handled, state.nextChannel);
    }
  }

  lemma BeginKeepsSound(config: Config, state: State, k: nat, call: Call)
    requires Sound(config, state) && Enabled(config, state, Begin(k, call))
    ensures Sound(config, ApplyBegin(config, state, k, call))
  {
    var next := ApplyBegin(config, state, k, call);
    if next.clients != state.clients {
      ReadyKeepsSound(config, state, k, call, First, |state.handled|);
    } else {
      assert next.nodes == state.nodes && next.handled == state.handled;
    }
  }

  lemma StepKeepsSound(config: Config, state: State, action: Action)
    requires Sound(config, state) && Enabled(config, state, action)
    ensures Sound(config, Apply(config, state, action))
  {
    match action
    case Begin(k, call) => BeginKeepsSound(config, state, k, call);
    case Send(k) => SendKeepsSound(config, state, k);
    case GiveUpSending(k) => FinishingKeepsSound(config, state, k, MailboxUnavailable, None);
    case Handling(s) => HandlingKeepsSound(config, state, s);
    case Receive(k) => ReceiveKeepsSound(config, state, k);
    case GiveUpWaiting(k) => FinishingKeepsSound(config, state, k, ReplyTimeout, None);
    case RequestShutdown(s) => ShutdownKeepsSound(config, state, s);
  }

  lemma {:induction false} EveryRunIsSound(config: Config, clients: nat, actions: seq<Action>)
    requires Run(config, Start(config, clients), actions).Some?
    ensures Sound(config, Run(config, Start(config, clients), actions).value)
  {
    if actions != [] {
      EveryRunIsSound(config, clients, actions[..|actions| - 1]);
      var before := Run(config, Start(config, clients), actions[..|actions| - 1]).value;
      StepKeepsSound(config, before, actions[|actions| - 1]);
    }
  }

  // ---------------------------------------------------------------- what callers may rely on

  /** Every base offset a produce returns is that of an applied append of exactly its records to its partition, handled
      while the call was running. */
  lemma {:induction false} ReturnedBaseWasApplied(config: Config, clients: nat, actions: seq<Action>, i: nat)
    requires Run(config, Start(config, clients), actions).Some?
    requires var state := Run(config, Start(config, clients), actions).value;
             && i < |state.finished|
             && (state.finished[i].call.ProduceCall? || state.finished[i].call.ProduceTransactionalCall?)
             && state.finished[i].outcome.Succeeded?
    ensures var state := Run(config, Start(config, clients), actions).value;
            var f := state.finished[i];
            && f.position.Some? && f.since <= f.position.value < f.until <= |state.handled|
            && var h := state.handled[f.position.value];
            && h.reply == f.outcome.reply
            && AppendsTo(h, f.call.tp) && h.command.records == f.call.records
  {
    EveryRunIsSound(config, clients, actions);
    EveryRunIsSequential(config, clients, actions);
    var state := Run(config, Start(config, clients), actions).value;
    var f := state.finished[i];
    assert FinishedSound(f, state.handled);
    assert Agrees(config, state.handled, f.position.value);
  }

  /** No two returned calls got the same reply, so no append is acknowledged twice. */
  lemma {:induction false} AnswersAreNotShared(config: Config, clients: nat, actions: seq<Action>, i: nat, j: nat)
    requires Run(config, Start(config, clients), actions).Some?
    requires var finished := Run(config, Start(config, clients), actions).value.finished;
             i < |finished| && j < |finished| && i != j && finished[i].position.Some?
    ensures var finished := Run(config, Start(config, clients), actions).value.finished;
            finished[i].position != finished[j].position
  {
    EveryRunIsSound(config, clients, actions);
  }

  /** The order of the handled commands respects real time: a call that returned before another began was answered
      first. */
  lemma {:induction false} OrderRespectsRealTime(config: Config, clients: nat, actions: seq<Action>, i: nat, j: nat)
    requires Run(config, Start(config, clients), actions).Some?
    requires var finished := Run(config, Start(config, clients), actions).value.finished;
             && i < |finished| && j < |finished|
             && finished[i].position.Some? && finished[j].position.Some?
             && finished[i].until <= finished[j].since
    ensures var finished := Run(config, Start(config, clients), actions).value.finished;
            finished[i].position.value < finished[j].position.value
  {
    EveryRunIsSound(config, clients, actions);
    var state := Run(config, Start(config, clients), actions).value;
    assert FinishedSound(state.finished[i], state.handled) && FinishedSound(state.finished[j], state.handled);
  }
}
