/** What callers do on their own keeps everything undecided accounted for. */
module BrokerCallers {
  import opened Records
  import opened Transactions
  import opened TransactionHistory
  import opened Shards
  import opened PendingBatches
  import opened Broker
  import opened BrokerTransactions
  import BrokerReplies

  // ---------------------------------------------------------------- one caller at a time

  lemma ExclusiveUpdate(clients: seq<Client>, k: nat, c: Client)
    requires Exclusive(clients) && k < |clients|
    requires BusyWith(c).Some? ==> forall j :: 0 <= j < |clients| && j != k ==> BusyWith(clients[j]) != BusyWith(c)
    ensures Exclusive(clients[k := c])
  {
  }

  lemma OthersAreExclusive(clients: seq<Client>, k: nat)
    requires Exclusive(clients) && k < |clients| && BusyWith(clients[k]).Some?
    ensures forall j :: 0 <= j < |clients| && j != k ==> BusyWith(clients[j]) != BusyWith(clients[k])
  {
  }

  lemma ExclusiveOnward(clients: seq<Client>, k: nat, c: Client)
    requires Exclusive(clients) && k < |clients| && BusyWith(c) == BusyWith(clients[k])
    ensures Exclusive(clients[k := c])
  {
    if BusyWith(c).Some? {
      OthersAreExclusive(clients, k);
    }
    ExclusiveUpdate(clients, k, c);
  }

  /** Callers busy with other transactions act for other producers. */
  lemma DifferentProducers(config: Config, nodes: seq<Node>, clients: seq<Client>, k: nat, tid: Bytes, id: int, j: nat)
    requires |nodes| > 0 && Exclusive(clients) && DistinctIds(CoordinatorOf(nodes))
    requires k < |clients| && j < |clients| && j != k && BusyWith(clients[k]) == Some(tid)
    requires Known(CoordinatorOf(nodes), tid, id) && ClientGood(config, nodes, clients[j])
    ensures Progress(clients[j]).Some? ==> clients[j].call.producer.id != id
    ensures !clients[j].Idle? && IsInit(clients[j].call) ==>
      !Known(CoordinatorOf(nodes), clients[j].call.request.transactional.tid, id)
  {
    OthersAreExclusive(clients, k);
    assert Progress(clients[j]).Some? ==> BusyWith(clients[j]) == Some(clients[j].call.tid);
  }

  // ---------------------------------------------------------------- nothing left

  predicate AtTheEnd(c: Client) {
    Progress(c).Some? && Progress(c).value.1 == |Progress(c).value.0.partitions|
  }

  lemma NothingLeft(config: Config, nodes: seq<Node>, c: Client, s: nat, tp: TopicPartition)
    requires |nodes| > 0 && ClientGood(config, nodes, c) && AtTheEnd(c) && s < |nodes|
    ensures !Loose(config, nodes[s], tp, c.call.producer.id)
  {
    var partitions := Progress(c).value.0.partitions;
    assert partitions[|partitions|..] == [];
    assert LooseOnlyIn(config, nodes, c.call.producer.id, []);
    if Loose(config, nodes[s], tp, c.call.producer.id) {
      LooseIsLeft(config, nodes, c.call.producer.id, [], s, tp);
    }
  }

  /** A caller may leave once nothing of what it ends is left to resolve. */
  lemma MayLeave(config: Config, nodes: seq<Node>, clients: seq<Client>, k: nat)
    requires |nodes| > 0 && CallersGood(config, nodes, clients) && k < |clients|
    requires Progress(clients[k]).Some? ==> AtTheEnd(clients[k])
    ensures CallersGood(config, nodes, clients[k := Idle])
  {
    var next, c := clients[k := Idle], CoordinatorOf(nodes);
    forall s, tp, id | 0 <= s < |nodes| && Loose(config, nodes[s], tp, id) ensures Accounted(next, c, tp, id) {
      assert Accounted(clients, c, tp, id);
      var tid :| AccountedBy(clients, c, tid, tp, id);
      if !(c.transactions[tid].status.Ongoing? && tp in c.transactions[tid].partitions) {
        var j :| 0 <= j < |clients| && Ending(clients[j], tid);
        if j == k {
          NothingLeft(config, nodes, clients[k], s, tp);
        }
        assert Ending(next[j], tid);
      }
      assert AccountedBy(next, c, tid, tp, id);
    }
  }

  /** What is undecided of a known producer can only be accounted for by its own id. */
  lemma OwnAccount(clients: seq<Client>, c: Coordinator, tid: Bytes, tp: TopicPartition, id: int)
    requires DistinctIds(c) && Known(c, tid, id) && Accounted(clients, c, tp, id)
    ensures AccountedBy(clients, c, tid, tp, id)
  {
    var other :| AccountedBy(clients, c, other, tp, id);
    assert other == tid;
  }

  /** Nothing is undecided of a closed transaction that nobody is busy with. */
  lemma NothingOfClosed(config: Config, nodes: seq<Node>, clients: seq<Client>, tid: Bytes)
    requires |nodes| > 0 && AllAccounted(config, nodes, clients) && DistinctIds(CoordinatorOf(nodes))
    requires forall k :: 0 <= k < |clients| ==> BusyWith(clients[k]) != Some(tid)
    requires tid in CoordinatorOf(nodes).transactions ==> !CoordinatorOf(nodes).transactions[tid].status.Ongoing?
    ensures InitSound(config, nodes, tid)
  {
    var c := CoordinatorOf(nodes);
    NobodyBusyEnds(clients, tid);
    if tid in c.transactions {
      var id := c.transactions[tid].identity.id;
      forall s, tp | 0 <= s < |nodes| ensures !Loose(config, nodes[s], tp, id) {
        if Loose(config, nodes[s], tp, id) {
          OwnAccount(clients, c, tid, tp, id);
        }
      }
    }
  }

  lemma NobodyBusyEnds(clients: seq<Client>, tid: Bytes)
    requires forall k :: 0 <= k < |clients| ==> BusyWith(clients[k]) != Some(tid)
    ensures !SomeoneEnds(clients, tid)
  {
    forall k | 0 <= k < |clients| ensures !Ending(clients[k], tid) {
      assert Ending(clients[k], tid) ==> BusyWith(clients[k]) == Some(tid);
    }
  }

  lemma SameNodes(config: Config, nodes: seq<Node>)
    requires |nodes| > 0
    ensures forall id :: Quiet(config, nodes, nodes, id)
    ensures forall tid :: GrowsFor(CoordinatorOf(nodes), CoordinatorOf(nodes), tid)
  {
  }

  // ---------------------------------------------------------------- mailboxes

  /** Messages stay owned when a caller that waits for nothing binding changes. */
  lemma MailboxUpdate(config: Config, clients: seq<Client>, s: nat, mailbox: seq<Message>, nextChannel: nat, k: nat,
                      c: Client)
    requires MailboxOwned(config, clients, s, mailbox, nextChannel) && k < |clients|
    requires clients[k].Waiting? && StageFits(clients[k].call, clients[k].stage) ==>
      !IsBinding(CommandOf(clients[k].call, clients[k].stage))
    ensures MailboxOwned(config, clients[k := c], s, mailbox, nextChannel)
  {
    forall i | 0 <= i < |mailbox| && IsBinding(mailbox[i].command)
      ensures Owned(config, clients[k := c], s, mailbox[i])
    {
      assert Owned(config, clients, s, mailbox[i]);
    }
  }

  lemma BindingCommandsBindCalls(call: Call, stage: Stage)
    requires StageFits(call, stage) && IsApiCall(call) && IsBinding(CommandOf(call, stage))
    ensures IsBindingCall(call)
  {
  }

  lemma BeginKeepsGood(config: Config, state: State, k: nat, call: Call)
    requires Good(config, state) && Enabled(config, state, Begin(k, call)) && Disciplined(state, Begin(k, call))
    requires DistinctIds(CoordinatorOf(state.nodes))
    ensures Good(config, ApplyBegin(config, state, k, call))
  {
    var next := ApplyBegin(config, state, k, call);
    if next.clients != state.clients {
      var c := Ready(call, First, |state.handled|);
      if IsInit(call) {
        NothingOfClosed(config, state.nodes, state.clients, call.request.transactional.tid);
      }
      SameNodes(config, state.nodes);
      CalmStep(config, state.nodes, state.nodes, state.clients, k, c);
      ExclusiveUpdate(state.clients, k, c);
      forall s | 0 <= s < |state.nodes|
        ensures MailboxOwned(config, next.clients, s, next.nodes[s].mailbox, next.nextChannel)
      {
        MailboxUpdate(config, state.clients, s, state.nodes[s].mailbox, state.nextChannel, k, c);
      }
    }
  }

  lemma FinishingKeepsGood(config: Config, state: State, k: nat, outcome: Outcome, position: Option<nat>)
    requires Good(config, state) && k < |state.clients| && !state.clients[k].Idle?
    requires Progress(state.clients[k]).Some? ==> AtTheEnd(state.clients[k])
    requires state.clients[k].Waiting? ==> !IsBindingCall(state.clients[k].call)
    ensures Good(config, Finishing(state, k, outcome, position))
  {
    var c, next := state.clients[k], Finishing(state, k, outcome, position);
    assert ClientGood(config, state.nodes, c);
    MayLeave(config, state.nodes, state.clients, k);
    ExclusiveUpdate(state.clients, k, Idle);
    if c.Waiting? && IsBinding(CommandOf(c.call, c.stage)) {
      BindingCommandsBindCalls(c.call, c.stage);
    }
    forall s | 0 <= s < |state.nodes|
      ensures MailboxOwned(config, next.clients, s, next.nodes[s].mailbox, next.nextChannel)
    {
      MailboxUpdate(config, state.clients, s, state.nodes[s].mailbox, state.nextChannel, k, Idle);
    }
  }

  // ---------------------------------------------------------------- sending

  /** The nodes after a message has been put into a mailbox. */
  function Posted(nodes: seq<Node>, t: nat, m: Message): seq<Node>
    requires t < |nodes|
  {
    nodes[t := nodes[t].(mailbox := nodes[t].mailbox + [m])]
  }

  lemma QueuedBehind(mailbox: seq<Message>, m: Message, tp: TopicPartition, id: int)
    ensures AppendQueued(mailbox + [m], tp, id) <==> AppendQueued(mailbox, tp, id) || IsAppend(m.command, tp, id)
  {
    var all := mailbox + [m];
    if AppendQueued(mailbox, tp, id) {
      var i :| 0 <= i < |mailbox| && IsAppend(mailbox[i].command, tp, id);
      assert IsAppend(all[i].command, tp, id);
    }
    if IsAppend(m.command, tp, id) {
      assert IsAppend(all[|mailbox|].command, tp, id);
    }
  }

  /** A message leaves producers alone whose append it is not. */
  lemma PostQuiet(config: Config, nodes: seq<Node>, t: nat, m: Message, id: int)
    requires t < |nodes| && !(m.command.ProduceTransactional? && m.command.id == id)
    ensures Quiet(config, nodes, Posted(nodes, t, m), id)
  {
    var next := Posted(nodes, t, m);
    forall s, tp | 0 <= s < |nodes| ensures Loose(config, next[s], tp, id) == Loose(config, nodes[s], tp, id)
    {
      QueuedBehind(nodes[t].mailbox, m, tp, id);
    }
    forall tp, outcome | config.place(tp) < |nodes| && Decided(config, nodes[config.place(tp)], tp, id, outcome)
      ensures Decided(config, next[config.place(tp)], tp, id, outcome)
    {
      QueuedBehind(nodes[t].mailbox, m, tp, id);
    }
  }

  lemma WaitingIsGood(config: Config, nodes: seq<Node>, c: Client, channel: nat)
    requires |nodes| > 0 && ClientGood(config, nodes, c) && c.Ready?
    ensures var w := Waiting(c.call, c.stage, c.since, channel);
            ClientGood(config, nodes, w) && GoesOn(c, w) && BusyWith(w) == BusyWith(c)
  {
    assert Progress(Waiting(c.call, c.stage, c.since, channel)) == Progress(c);
  }

  lemma CalmPost(config: Config, nodes: seq<Node>, clients: seq<Client>, t: nat, m: Message, k: nat, c: Client)
    requires t < |nodes| && CallersGood(config, nodes, clients) && k < |clients| && GoesOn(clients[k], c)
    requires !m.command.ProduceTransactional? && ClientGood(config, nodes, c)
    ensures CallersGood(config, Posted(nodes, t, m), clients[k := c])
  {
    var next := Posted(nodes, t, m);
    forall id ensures Quiet(config, nodes, next, id) {
      PostQuiet(config, nodes, t, m, id);
    }
    ClientKeeps(config, nodes, next, c);
    CalmStep(config, nodes, next, clients, k, c);
  }

  /** A cleared append may be sent: it lands in an open transaction that enlisted its partition. */
  lemma AppendPost(config: Config, nodes: seq<Node>, clients: seq<Client>, t: nat, m: Message, k: nat, c: Client)
    requires t < |nodes| && CallersGood(config, nodes, clients) && Exclusive(clients) && k < |clients|
    requires DistinctIds(CoordinatorOf(nodes)) && ClientGood(config, nodes, c) && GoesOn(clients[k], c)
    requires Cleared(clients[k]) && clients[k].stage.Append? && BusyWith(c) == BusyWith(clients[k]) && Progress(c).None?
    requires !c.Idle? && !IsInit(c.call) && m.command == CommandOf(clients[k].call, clients[k].stage)
    ensures CallersGood(config, Posted(nodes, t, m), clients[k := c])
  {
    var next, call, co := Posted(nodes, t, m), clients[k].call, CoordinatorOf(nodes);
    var after := clients[k := c];
    assert ClientGood(config, nodes, clients[k]);
    forall j | 0 <= j < |after| ensures ClientGood(config, next, after[j]) {
      if j != k {
        DifferentProducers(config, nodes, clients, k, call.tid, call.producer.id, j);
        QuietForOther(config, nodes, t, m, clients[j]);
        ClientKeeps(config, nodes, next, clients[j]);
      }
    }
    forall s, tp, id | 0 <= s < |next| && Loose(config, next[s], tp, id) ensures Accounted(after, co, tp, id) {
      QueuedBehind(nodes[t].mailbox, m, tp, id);
      if Loose(config, nodes[s], tp, id) {
        AccountedOnward(config, nodes, clients, k, c, s, tp, id);
      } else {
        assert AccountedBy(after, co, call.tid, tp, id);
      }
    }
  }

  lemma QuietForOther(config: Config, nodes: seq<Node>, t: nat, m: Message, c: Client)
    requires t < |nodes| && m.command.ProduceTransactional?
    requires Progress(c).Some? ==> c.call.producer.id != m.command.id
    requires !c.Idle? && IsInit(c.call) ==>
      !Known(CoordinatorOf(nodes), c.call.request.transactional.tid, m.command.id)
    ensures QuietFor(config, nodes, Posted(nodes, t, m), c)
  {
    if Progress(c).Some? {
      PostQuiet(config, nodes, t, m, c.call.producer.id);
    }
    if !c.Idle? && IsInit(c.call) {
      var tid := c.call.request.transactional.tid;
      if tid in CoordinatorOf(nodes).transactions {
        PostQuiet(config, nodes, t, m, CoordinatorOf(nodes).transactions[tid].identity.id);
      }
    }
  }

  lemma AccountedOnward(config: Config, nodes: seq<Node>, clients: seq<Client>, k: nat, c: Client, s: nat,
                        tp: TopicPartition, id: int)
    requires |nodes| > 0 && AllAccounted(config, nodes, clients) && k < |clients| && GoesOn(clients[k], c)
    requires s < |nodes| && Loose(config, nodes[s], tp, id)
    ensures Accounted(clients[k := c], CoordinatorOf(nodes), tp, id)
  {
    assert Accounted(clients, CoordinatorOf(nodes), tp, id);
    var tid :| AccountedBy(clients, CoordinatorOf(nodes), tid, tp, id);
    if SomeoneEnds(clients, tid) {
      StillEnds(clients, k, c, tid);
    }
    assert AccountedBy(clients[k := c], CoordinatorOf(nodes), tid, tp, id);
  }

  /** No resolution of a producer is queued while a caller of its transaction sends an append. */
  lemma NoResolutionQueued(config: Config, state: State, k: nat, s: nat, i: nat)
    requires Good(config, state) && k < |state.clients| && DistinctIds(CoordinatorOf(state.nodes))
    requires Cleared(state.clients[k]) && state.clients[k].stage.Append?
    requires s < |state.nodes| && i < |state.nodes[s].mailbox|
    ensures var command := state.nodes[s].mailbox[i].command;
            command.ResolveTransaction? ==> command.id != state.clients[k].call.producer.id
  {
    var m, call := state.nodes[s].mailbox[i], state.clients[k].call;
    assert ClientGood(config, state.nodes, state.clients[k]);
    if m.command.ResolveTransaction? {
      assert MailboxOwned(config, state.clients, s, state.nodes[s].mailbox, state.nextChannel);
      assert Owned(config, state.clients, s, m);
      var j := m.client;
      assert Progress(state.clients[j]).Some? && state.clients[j].call.producer.id == m.command.id;
      assert ClientGood(config, state.nodes, state.clients[j]);
      DifferentProducers(config, state.nodes, state.clients, k, call.tid, call.producer.id, j);
    }
  }

  lemma SentMailbox(config: Config, state: State, k: nat, s: nat)
    requires Good(config, state) && Enabled(config, state, Send(k)) && s < |state.nodes|
    requires DistinctIds(CoordinatorOf(state.nodes))
    ensures var next := ApplySend(config, state, k);
            MailboxOwned(config, next.clients, s, next.nodes[s].mailbox, next.nextChannel)
  {
    var c, mailbox := state.clients[k], state.nodes[s].mailbox;
    var w := Waiting(c.call, c.stage, c.since, state.nextChannel);
    MailboxUpdate(config, state.clients, s, mailbox, state.nextChannel, k, w);
    if s == TargetOf(config, c.call, c.stage) {
      var m := Message(k, state.nextChannel, CommandOf(c.call, c.stage));
      forall i | 0 <= i < |mailbox| ensures NoAppendBehind(mailbox[i], m) {
        if m.command.ProduceTransactional? {
          NoResolutionQueued(config, state, k, s, i);
        }
      }
      MailboxPush(config, state.clients[k := w], s, mailbox, state.nextChannel, m);
    } else {
      MailboxLater(config, state.clients[k := w], s, mailbox, state.nextChannel);
    }
  }

  lemma MailboxLater(config: Config, clients: seq<Client>, s: nat, mailbox: seq<Message>, nextChannel: nat)
    requires MailboxOwned(config, clients, s, mailbox, nextChannel)
    ensures MailboxOwned(config, clients, s, mailbox, nextChannel + 1)
  {
  }

  lemma MailboxPush(config: Config, clients: seq<Client>, s: nat, mailbox: seq<Message>, nextChannel: nat, m: Message)
    requires MailboxOwned(config, clients, s, mailbox, nextChannel) && m.channel == nextChannel
    requires forall i :: 0 <= i < |mailbox| ==> NoAppendBehind(mailbox[i], m)
    requires IsBinding(m.command) ==> Owned(config, clients, s, m)
    ensures MailboxOwned(config, clients, s, mailbox + [m], nextChannel + 1)
  {
  }

  lemma SendKeepsGood(config: Config, state: State, k: nat)
    requires Good(config, state) && Enabled(config, state, Send(k)) && DistinctIds(CoordinatorOf(state.nodes))
    ensures Good(config, ApplySend(config, state, k))
  {
    var c, next := state.clients[k], ApplySend(config, state, k);
    var w := Waiting(c.call, c.stage, c.since, state.nextChannel);
    var t, m := TargetOf(config, c.call, c.stage), Message(k, state.nextChannel, CommandOf(c.call, c.stage));
    assert ClientGood(config, state.nodes, c);
    WaitingIsGood(config, state.nodes, c, state.nextChannel);
    if m.command.ProduceTransactional? {
      AppendPost(config, state.nodes, state.clients, t, m, k, w);
    } else {
      CalmPost(config, state.nodes, state.clients, t, m, k, w);
    }
    ExclusiveOnward(state.clients, k, w);
    forall s | 0 <= s < |next.nodes|
      ensures MailboxOwned(config, next.clients, s, next.nodes[s].mailbox, next.nextChannel)
    {
      SentMailbox(config, state, k, s);
    }
  }

  lemma CalmEnqueue(config: Config, nodes: seq<Node>, clients: seq<Client>, t: nat, m: Message)
    requires t < |nodes| && CallersGood(config, nodes, clients) && !m.command.ProduceTransactional?
    ensures CallersGood(config, Posted(nodes, t, m), clients)
  {
    var next := Posted(nodes, t, m);
    forall id ensures Quiet(config, nodes, next, id) {
      PostQuiet(config, nodes, t, m, id);
    }
    forall j | 0 <= j < |clients| ensures ClientGood(config, next, clients[j]) {
      ClientKeeps(config, nodes, next, clients[j]);
    }
    forall s, tp, id | 0 <= s < |next| && Loose(config, next[s], tp, id)
      ensures Accounted(clients, CoordinatorOf(next), tp, id)
    {
      assert Quiet(config, nodes, next, id) && Loose(config, nodes[s], tp, id);
      assert Accounted(clients, CoordinatorOf(nodes), tp, id);
    }
  }

  lemma ShutdownKeepsGood(config: Config, state: State, s: nat)
    requires Good(config, state) && Enabled(config, state, RequestShutdown(s))
    ensures Good(config, Enqueue(state, s, Message(|state.clients|, state.nextChannel, Shutdown)))
  {
    var m := Message(|state.clients|, state.nextChannel, Shutdown);
    var next := Enqueue(state, s, m);
    CalmEnqueue(config, state.nodes, state.clients, s, m);
    forall t | 0 <= t < |next.nodes|
      ensures MailboxOwned(config, next.clients, t, next.nodes[t].mailbox, next.nextChannel)
    {
      if t == s {
        MailboxPush(config, state.clients, s, state.nodes[s].mailbox, state.nextChannel, m);
      } else {
        MailboxLater(config, state.clients, t, state.nodes[t].mailbox, state.nextChannel);
      }
    }
  }

  // ---------------------------------------------------------------- receiving

  /** Only a caller with nothing left to resolve returns from ending a transaction. */
  lemma FinishesAtTheEnd(config: Config, c: Client)
    requires c.Replied? && StageFits(c.call, c.stage) && Progress(c).Some?
    requires c.stage.Resolving? ==> c.reply.Resolved?
    requires AfterReply(config, c.call, c.stage, c.reply).Finish?
    ensures AtTheEnd(c)
  {
  }

  lemma ReceivedIsGood(config: Config, nodes: seq<Node>, c: Client)
    requires |nodes| > 0 && ClientGood(config, nodes, c) && c.Replied?
    requires c.stage.Resolving? ==> c.reply.Resolved?
    requires AfterReply(config, c.call, c.stage, c.reply).Continue?
    ensures var r := Ready(c.call, AfterReply(config, c.call, c.stage, c.reply).stage, c.since);
            ClientGood(config, nodes, r) && GoesOn(c, r) && BusyWith(r) == BusyWith(c)
  {
    BrokerReplies.NextStageFits(config, c.call, c.stage, c.reply);
    var r := Ready(c.call, AfterReply(config, c.call, c.stage, c.reply).stage, c.since);
    assert Progress(r) == Progress(c);
  }

  lemma ReceiveKeepsGood(config: Config, state: State, k: nat)
    requires Good(config, state) && Enabled(config, state, Receive(k))
    requires state.clients[k].stage.Resolving? ==> state.clients[k].reply.Resolved?
    ensures Good(config, ApplyReceive(config, state, k))
  {
    var c := state.clients[k];
    assert ClientGood(config, state.nodes, c);
    match AfterReply(config, c.call, c.stage, c.reply)
    case Continue(stage) =>
      var r, next := Ready(c.call, stage, c.since), ApplyReceive(config, state, k);
      ReceivedIsGood(config, state.nodes, c);
      SameNodes(config, state.nodes);
      CalmStep(config, state.nodes, state.nodes, state.clients, k, r);
      ExclusiveOnward(state.clients, k, r);
      forall s | 0 <= s < |next.nodes|
        ensures MailboxOwned(config, next.clients, s, next.nodes[s].mailbox, next.nextChannel)
      {
        MailboxUpdate(config, state.clients, s, state.nodes[s].mailbox, state.nextChannel, k, r);
      }
    case Finish(outcome) =>
      if Progress(c).Some? {
        FinishesAtTheEnd(config, c);
      }
      FinishingKeepsGood(config, state, k, outcome, Some(c.position));
  }
}
