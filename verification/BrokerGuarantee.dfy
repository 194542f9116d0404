/** Over every disciplined run, ending a transaction leaves nothing of it pending and everything of it decided. */
module BrokerGuarantee {
  import opened Records
  import opened Log
  import opened Transactions
  import opened TransactionHistory
  import opened Shards
  import opened Broker
  import opened BrokerTransactions
  import opened BrokerCallers
  import opened BrokerHandling
  import BrokerOrder
  import BrokerReplies
  import BrokerScripts

  // ---------------------------------------------------------------- a shard handles a message

  lemma NodesArePlaced(config: Config, state: State)
    requires BrokerOrder.Sequential(config, state)
    ensures Placed(config, state.nodes)
  {
    forall s | 0 <= s < |state.nodes|
      ensures BrokerOrder.LogsPlaced(config, s, state.nodes[s].shard)
      ensures BrokerOrder.MailboxRouted(config, s, state.nodes[s].mailbox)
    {
      assert BrokerOrder.NodeFolds(config, s, state.nodes[s].shard, state.handled);
    }
  }

  lemma HeadIsRouted(config: Config, state: State, s: nat)
    requires BrokerOrder.Sequential(config, state) && Enabled(config, state, Handling(s))
    ensures BrokerOrder.Routed(config, s, Head(state.nodes, s))
  {
    assert BrokerOrder.MailboxRouted(config, s, state.nodes[s].mailbox);
  }

  /** A binding command is handled for the caller that waits for it. */
  lemma {:induction false} BindingStep(config: Config, state: State, s: nat)
    requires Good(config, state) && BrokerOrder.Sequential(config, state) && Enabled(config, state, Handling(s))
    requires IsBinding(Head(state.nodes, s)) && DistinctIds(CoordinatorOf(state.nodes))
    ensures var next := ApplyHandling(config, state, s);
            CallersGood(config, next.nodes, next.clients)
  {
    var m, position := state.nodes[s].mailbox[0], |state.handled|;
    assert MailboxOwned(config, state.clients, s, state.nodes[s].mailbox, state.nextChannel);
    assert Owned(config, state.clients, s, m);
    var k := m.client;
    assert ClientGood(config, state.nodes, state.clients[k]);
    HeadIsRouted(config, state, s);
    match m.command
    case ResolveTransaction(_, _) =>
      NodesArePlaced(config, state);
      ResolveStep(config, state.nodes, state.clients, k, s, position, Resolved);
    case Coordinate(OfTransaction(q)) =>
      RequestStep(config, state.nodes, state.clients, k, q, position);
  }

  lemma {:induction false} OrdinaryStep(config: Config, state: State, s: nat)
    requires Good(config, state) && BrokerOrder.Sequential(config, state) && BrokerReplies.Sound(config, state)
    requires Enabled(config, state, Handling(s)) && !IsBinding(Head(state.nodes, s))
    ensures var next := ApplyHandling(config, state, s);
            CallersGood(config, next.nodes, next.clients)
  {
    var m := state.nodes[s].mailbox[0];
    HeadIsRouted(config, state, s);
    if Awaited(state, m) {
      assert BrokerReplies.MailboxSound(config, s, state.nodes[s].mailbox, state.clients, state.nextChannel);
      assert BrokerReplies.MessageSound(config, s, m, state.clients, state.nextChannel);
      CalmHeard(config, state.nodes, s, state.clients, m.client, |state.handled|);
    } else {
      CalmUnheard(config, state.nodes, s, state.clients);
    }
  }

  /** Nobody waits for two messages. */
  lemma {:induction false} WaitsForOne(config: Config, state: State, s: nat, t: nat, j: nat)
    requires Good(config, state) && BrokerReplies.Sound(config, state) && Enabled(config, state, Handling(s))
    requires t < |state.nodes| && j < |state.nodes[t].mailbox| && (t == s ==> j > 0)
    requires IsBinding(state.nodes[t].mailbox[j].command) && Awaited(state, state.nodes[s].mailbox[0])
    ensures state.nodes[t].mailbox[j].client != state.nodes[s].mailbox[0].client
  {
    var first, m := state.nodes[s].mailbox[0], state.nodes[t].mailbox[j];
    assert MailboxOwned(config, state.clients, t, state.nodes[t].mailbox, state.nextChannel);
    assert BrokerReplies.MailboxSound(config, s, state.nodes[s].mailbox, state.clients, state.nextChannel);
    assert Owned(config, state.clients, t, m);
    assert BrokerReplies.MessageSound(config, s, first, state.clients, state.nextChannel);
  }

  /** Once a message is answered, every other binding message still has its caller waiting. */
  lemma {:induction false} AnsweredMailbox(config: Config, state: State, s: nat, t: nat)
    requires Good(config, state) && BrokerReplies.Sound(config, state)
    requires Enabled(config, state, Handling(s)) && t < |state.nodes|
    ensures var next := ApplyHandling(config, state, s);
            MailboxOwned(config, next.clients, t, next.nodes[t].mailbox, next.nextChannel)
  {
    var next, first, mailbox := ApplyHandling(config, state, s), state.nodes[s].mailbox[0], state.nodes[t].mailbox;
    assert MailboxOwned(config, state.clients, t, mailbox, state.nextChannel);
    var rest := next.nodes[t].mailbox;
    forall i | 0 <= i < |rest| && IsBinding(rest[i].command) ensures Owned(config, next.clients, t, rest[i]) {
      var j := if t == s then i + 1 else i;
      assert rest[i] == mailbox[j] && Owned(config, state.clients, t, mailbox[j]);
      if Awaited(state, first) {
        WaitsForOne(config, state, s, t, j);
      }
    }
    if t == s {
      RestOfMailbox(config, state.clients, t, mailbox, state.nextChannel, rest);
    }
  }

  lemma RestOfMailbox(config: Config, clients: seq<Client>, t: nat, mailbox: seq<Message>, nextChannel: nat,
                      rest: seq<Message>)
    requires MailboxOwned(config, clients, t, mailbox, nextChannel) && mailbox != [] && rest == mailbox[1..]
    ensures forall i :: 0 <= i < |rest| ==> rest[i].channel < nextChannel
    ensures forall i, j :: 0 <= i < j < |rest| ==> rest[i].channel < rest[j].channel
    ensures forall i, j :: 0 <= i < j < |rest| ==> NoAppendBehind(rest[i], rest[j])
  {
  }

  lemma DeliveryExclusive(state: State, message: Message, reply: Reply)
    requires Exclusive(state.clients)
    ensures Exclusive(Deliver(state, message, reply))
  {
    if Awaited(state, message) {
      var c := state.clients[message.client];
      ExclusiveOnward(state.clients, message.client, Replied(c.call, c.stage, c.since, |state.handled|, reply));
    }
  }

  lemma {:induction false} HandlingKeepsGood(config: Config, state: State, s: nat)
    requires Good(config, state) && BrokerOrder.Sequential(config, state) && BrokerReplies.Sound(config, state)
    requires Enabled(config, state, Handling(s)) && DistinctIds(CoordinatorOf(state.nodes))
    ensures Good(config, ApplyHandling(config, state, s))
  {
    var next := ApplyHandling(config, state, s);
    if IsBinding(Head(state.nodes, s)) {
      BindingStep(config, state, s);
    } else {
      OrdinaryStep(config, state, s);
    }
    DeliveryExclusive(state, state.nodes[s].mailbox[0], next.handled[|state.handled|].reply);
    forall t | 0 <= t < |next.nodes|
      ensures MailboxOwned(config, next.clients, t, next.nodes[t].mailbox, next.nextChannel)
    {
      AnsweredMailbox(config, state, s, t);
    }
  }

  // ---------------------------------------------------------------- runs

  /** The reply to a resolution is always an acknowledgement. */
  lemma ResolutionsAreAcknowledged(config: Config, state: State, k: nat)
    requires BrokerOrder.Sequential(config, state) && BrokerReplies.Sound(config, state)
    requires k < |state.clients| && state.clients[k].Replied? && state.clients[k].stage.Resolving?
    ensures state.clients[k].reply.Resolved?
  {
    var c := state.clients[k];
    assert BrokerReplies.ClientSound(config, c, state.handled, state.nextChannel);
    assert BrokerOrder.Agrees(config, state.handled, c.position);
  }

  /** Giving up on anything but initialising and ending leaves nothing unaccounted for. */
  lemma GiveUpKeepsGood(config: Config, state: State, k: nat, outcome: Outcome)
    requires Good(config, state) && k < |state.clients| && !state.clients[k].Idle?
    requires !IsBindingCall(state.clients[k].call)
    ensures Good(config, Finishing(state, k, outcome, None))
  {
    FinishingKeepsGood(config, state, k, outcome, None);
  }

  lemma {:induction false} StepKeepsGood(config: Config, state: State, action: Action)
    requires Good(config, state) && BrokerOrder.Sequential(config, state) && BrokerReplies.Sound(config, state)
    requires Enabled(config, state, action) && Disciplined(state, action)
    requires DistinctIds(CoordinatorOf(state.nodes))
    ensures Good(config, Apply(config, state, action))
  {
    match action
    case Begin(k, call) => BeginKeepsGood(config, state, k, call);
    case Send(k) => SendKeepsGood(config, state, k);
    case GiveUpSending(k) => GiveUpKeepsGood(config, state, k, MailboxUnavailable);
    case Handling(s) => HandlingKeepsGood(config, state, s);
    case Receive(k) =>
      if state.clients[k].stage.Resolving? {
        ResolutionsAreAcknowledged(config, state, k);
      }
      ReceiveKeepsGood(config, state, k);
    case GiveUpWaiting(k) => GiveUpKeepsGood(config, state, k, ReplyTimeout);
    case RequestShutdown(s) => ShutdownKeepsGood(config, state, s);
  }

  /** A run whose every action is disciplined and in which producer ids have not run out. */
  ghost predicate WellBehaved(config: Config, clients: nat, actions: seq<Action>) {
    && Run(config, Start(config, clients), actions).Some?
    && (actions != [] ==>
          && WellBehaved(config, clients, actions[..|actions| - 1])
          && var before := Run(config, Start(config, clients), actions[..|actions| - 1]).value;
          && |before.nodes| > 0
          && |before.nodes[0].shard.transactions.transactions| <= I64_MAX
          && Disciplined(before, actions[|actions| - 1]))
  }

  lemma IdsAreDistinct(config: Config, state: State)
    requires BrokerOrder.Sequential(config, state) && |state.nodes| > 0
    requires |state.nodes[0].shard.transactions.transactions| <= I64_MAX
    ensures DistinctIds(CoordinatorOf(state.nodes))
  {
    assert BrokerOrder.NodeFolds(config, 0, state.nodes[0].shard, state.handled);
    IdsOverEveryHistory(BrokerOrder.TransactionRequests(state.handled));
  }

  lemma StartIsGood(config: Config, clients: nat)
    requires ValidConfig(config)
    ensures Good(config, Start(config, clients))
  {
  }

  /** In every reachable state of a disciplined run a pending batch, and every append on its way, belongs to an open
      transaction that enlisted its partition, or to one whose resolution is under way. */
  lemma {:induction false} EveryDisciplinedRunIsGood(config: Config, clients: nat, actions: seq<Action>)
    requires ValidConfig(config) && WellBehaved(config, clients, actions)
    ensures Good(config, Run(config, Start(config, clients), actions).value)
  {
    if actions == [] {
      StartIsGood(config, clients);
    } else {
      var front := actions[..|actions| - 1];
      EveryDisciplinedRunIsGood(config, clients, front);
      BrokerOrder.EveryRunIsSequential(config, clients, front);
      BrokerReplies.EveryRunIsSound(config, clients, front);
      var before := Run(config, Start(config, clients), front).value;
      IdsAreDistinct(config, before);
      StepKeepsGood(config, before, actions[|actions| - 1]);
    }
  }

  // ---------------------------------------------------------------- what a successful end means

  /** The caller is about to return successfully from ending its transaction. */
  predicate ReturnsFromEnd(config: Config, c: Client) {
    && c.Replied? && c.call.EndCall? && StageFits(c.call, c.stage)
    && AfterReply(config, c.call, c.stage, c.reply) == Finish(Ended)
  }

  /** Every batch of the producer the log holds is shown to read-committed readers exactly if `shown`. */
  predicate DecidedAs(log: LogState, id: int, shown: bool) {
    forall i :: 0 <= i < |log.batches| && log.batches[i].transaction == Some(id) ==>
      !IsPending(log.batches[i]) && (Shown(log.batches[i], true) <==> shown)
  }

  lemma ReturningHasProgress(config: Config, c: Client)
    requires ReturnsFromEnd(config, c)
    ensures Progress(c).Some?
  {
  }

  /** When ending a transaction returns Ok, no shard holds a pending batch of the producer and no append of it is on
      its way, and in the log of every partition the transaction had enlisted all retained batches of the producer are
      visible after a commit and hidden after an abort. */
  lemma {:induction false} EndDecidesEverything(config: Config, clients: nat, actions: seq<Action>, k: nat)
    requires ValidConfig(config) && WellBehaved(config, clients, actions)
    requires var state := Run(config, Start(config, clients), actions).value;
             k < |state.clients| && ReturnsFromEnd(config, state.clients[k])
    ensures var state := Run(config, Start(config, clients), actions).value;
            var c := state.clients[k];
            && |state.nodes| == config.shardCount
            && Progress(c).Some?
            && (forall s, tp :: 0 <= s < |state.nodes| ==>
                  !Loose(config, state.nodes[s], tp, c.call.producer.id))
            && (forall tp :: tp in Progress(c).value.0.partitions ==>
                  DecidedAs(LogAt(config.settings, state.nodes[config.place(tp)].shard, tp), c.call.producer.id,
                            c.call.commit))
  {
    EveryDisciplinedRunIsGood(config, clients, actions);
    BrokerOrder.EveryRunIsSequential(config, clients, actions);
    BrokerReplies.EveryRunIsSound(config, clients, actions);
    EndDecides(config, Run(config, Start(config, clients), actions).value, k);
  }

  lemma {:induction false} EndDecides(config: Config, state: State, k: nat)
    requires ValidConfig(config) && Good(config, state)
    requires BrokerOrder.Sequential(config, state) && BrokerReplies.Sound(config, state)
    requires k < |state.clients| && ReturnsFromEnd(config, state.clients[k])
    ensures var c := state.clients[k];
            && Progress(c).Some?
            && (forall s, tp :: 0 <= s < |state.nodes| ==>
                  !Loose(config, state.nodes[s], tp, c.call.producer.id))
            && (forall tp :: tp in Progress(c).value.0.partitions ==>
                  DecidedAs(LogAt(config.settings, state.nodes[config.place(tp)].shard, tp), c.call.producer.id,
                            c.call.commit))
  {
    var c := state.clients[k];
    assert ClientGood(config, state.nodes, c);
    ReturningHasProgress(config, c);
    if c.stage.Resolving? {
      ResolutionsAreAcknowledged(config, state, k);
    }
    FinishesAtTheEnd(config, c);
    forall s, tp | 0 <= s < |state.nodes|
      ensures !Loose(config, state.nodes[s], tp, c.call.producer.id)
    {
      NothingLeft(config, state.nodes, c, s, tp);
    }
    forall tp | tp in Progress(c).value.0.partitions
      ensures DecidedAs(LogAt(config.settings, state.nodes[config.place(tp)].shard, tp), c.call.producer.id,
                        c.call.commit)
    {
      EnlistedIsDecided(config, state.nodes, c, tp);
    }
  }

  lemma EnlistedIsDecided(config: Config, nodes: seq<Node>, c: Client, tp: TopicPartition)
    requires ValidConfig(config) && |nodes| == config.shardCount && ClientGood(config, nodes, c) && AtTheEnd(c)
    requires tp in Progress(c).value.0.partitions
    ensures DecidedAs(LogAt(config.settings, nodes[config.place(tp)].shard, tp), c.call.producer.id, c.call.commit)
  {
    var partitions, id := Progress(c).value.0.partitions, c.call.producer.id;
    var i :| 0 <= i < |partitions| && partitions[i] == tp;
    assert SettledWith(config, nodes, id, partitions[i], Log.Outcome(c.call.commit));
    assert Decided(config, nodes[config.place(tp)], tp, id, Log.Outcome(c.call.commit));
  }

  /** Where the coordinator ended the transaction a caller is returning from. */
  lemma {:induction false} EndedAt(config: Config, state: State, k: nat) returns (p: nat)
    requires BrokerReplies.Sound(config, state) && BrokerScripts.Scripted(config, state)
    requires k < |state.clients| && ReturnsFromEnd(config, state.clients[k]) && Progress(state.clients[k]).Some?
    ensures var c := state.clients[k];
            && c.since <= p < |state.handled|
            && state.handled[p].command == CommandOf(c.call, First)
            && state.handled[p].reply == Transacted(Ok(Completed(Progress(c).value.0)))
  {
    var c := state.clients[k];
    assert BrokerReplies.ClientSound(config, c, state.handled, state.nextChannel);
    if c.stage.First? {
      p := c.position;
    } else {
      assert BrokerScripts.ScriptSound(config, state.handled, c);
      p := BrokerScripts.FirstEntry(BrokerScripts.Script(config, c.call, c.stage.completion),
                                    BrokerScripts.EntryOf(c.stage),
                                    state.handled, c.since, c.position);
    }
  }

  /** The same said without the caller's bookkeeping: at some point the coordinator ended the transaction, and what was
      enlisted in it then, since the last initialisation or end, is decided everywhere when the call returns. */
  lemma {:induction false} EndDecidesWhatWasEnlisted(config: Config, clients: nat, actions: seq<Action>, k: nat)
    returns (p: nat)
    requires ValidConfig(config) && WellBehaved(config, clients, actions)
    requires var state := Run(config, Start(config, clients), actions).value;
             k < |state.clients| && ReturnsFromEnd(config, state.clients[k])
    ensures var state := Run(config, Start(config, clients), actions).value;
            var c := state.clients[k];
            var call := c.call;
            && |state.nodes| == config.shardCount && c.since <= p < |state.handled|
            && state.handled[p].command == CommandOf(call, First)
            && Progress(c).Some? && state.handled[p].reply == Transacted(Ok(Completed(Progress(c).value.0)))
            && var requests := BrokerOrder.TransactionRequests(state.handled[..p]);
            forall tp :: tp in EnlistedPartitions(requests, SinceBoundary(requests, call.tid), call.tid) ==>
              DecidedAs(LogAt(config.settings, state.nodes[config.place(tp)].shard, tp), call.producer.id, call.commit)
  {
    EndDecidesEverything(config, clients, actions, k);
    BrokerOrder.EveryRunIsSequential(config, clients, actions);
    BrokerReplies.EveryRunIsSound(config, clients, actions);
    BrokerScripts.EveryEndIsCarriedOut(config, clients, actions);
    var state := Run(config, Start(config, clients), actions).value;
    var c := state.clients[k];
    p := EndedAt(config, state, k);
    assert BrokerOrder.Agrees(config, state.handled, p);
    BrokerScripts.CompletionIsWhatWasEnlisted(config, state.handled, p, c.call, Progress(c).value.0);
  }
}
