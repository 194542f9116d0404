/** What becomes of pending batches when a caller gives up on ending a transaction. */
module GivingUp {
  import opened Records
  import opened Log
  import opened Transactions
  import opened Shards
  import opened Broker
  import opened BrokerOrder
  import opened BatchFates
  import opened BrokerTransactions
  import opened BrokerCallers
  import TransactionHistory
  import BrokerReplies
  import BrokerGuarantee
  import BrokerHandling
  import BrokerRuns

  // ---------------------------------------------------------------- queued resolutions

  predicate Resolves(command: Command, id: int) {
    command.ResolveTransaction? && command.id == id
  }

  /** Resolutions of producer `id` that wait in a mailbox. */
  function Queued(mailbox: seq<Message>, id: int): nat {
    if mailbox == [] then 0
    else Queued(mailbox[..|mailbox| - 1], id) + if Resolves(mailbox[|mailbox| - 1].command, id) then 1 else 0
  }

  /** Resolutions of producer `id` handled on shard `s` from a position on. */
  function Decisions(handled: seq<Handled>, from: nat, s: nat, id: int): nat {
    if |handled| <= from then 0
    else
      var n := |handled| - 1;
      Decisions(handled[..n], from, s, id) + if ResolvesAt(handled[n], s, id) then 1 else 0
  }

  lemma {:induction false} QueuedTail(mailbox: seq<Message>, id: int)
    requires mailbox != []
    ensures Queued(mailbox, id) == Queued(mailbox[1..], id) + if Resolves(mailbox[0].command, id) then 1 else 0
  {
    var n := |mailbox| - 1;
    if n > 0 {
      QueuedTail(mailbox[..n], id);
      assert mailbox[..n][1..] == mailbox[1..][..n - 1];
    }
  }

  lemma QueuedPush(mailbox: seq<Message>, m: Message, id: int)
    ensures Queued(mailbox + [m], id) == Queued(mailbox, id) + if Resolves(m.command, id) then 1 else 0
  {
    assert (mailbox + [m])[..|mailbox|] == mailbox;
  }

  lemma DecisionsPush(handled: seq<Handled>, h: Handled, from: nat, s: nat, id: int)
    requires from <= |handled|
    ensures Decisions(handled + [h], from, s, id)
            == Decisions(handled, from, s, id) + if ResolvesAt(h, s, id) then 1 else 0
  {
    assert (handled + [h])[..|handled|] == handled;
  }

  lemma {:induction false} DecisionsIff(handled: seq<Handled>, from: nat, s: nat, id: int)
    ensures Decisions(handled, from, s, id) == 0 <==> LastDecision(handled, from, s, id).None?
  {
    if from < |handled| {
      DecisionsIff(handled[..|handled| - 1], from, s, id);
    }
  }

  // ---------------------------------------------------------------- nobody ends

  /** A call that would resolve producer `id`. */
  predicate EndsFor(call: Call, id: int) {
    call.EndCall? && call.producer.id == id
  }

  predicate NobodyEnds(clients: seq<Client>, id: int) {
    forall k :: 0 <= k < |clients| && !clients[k].Idle? ==> !EndsFor(clients[k].call, id)
  }

  predicate NoEndBegins(actions: seq<Action>, id: int) {
    forall i :: 0 <= i < |actions| && actions[i].Begin? ==> !EndsFor(actions[i].call, id)
  }

  lemma OnlyEndsResolve(call: Call, stage: Stage, id: int)
    requires StageFits(call, stage) && Resolves(CommandOf(call, stage), id)
    ensures EndsFor(call, id)
  {
  }

  /** While nobody ends for a producer, what is queued is all that will be decided about it. */
  ghost predicate Settling(config: Config, state: State, past: State, s: nat, id: int)
    requires s < |state.nodes| && s < |past.nodes|
  {
    && |past.handled| <= |state.handled|
    && NobodyEnds(state.clients, id)
    && Queued(state.nodes[s].mailbox, id) + Decisions(state.handled, |past.handled|, s, id)
       == Queued(past.nodes[s].mailbox, id)
  }

  lemma NobodyStarts(config: Config, state: State, action: Action, id: int)
    requires Enabled(config, state, action) && NobodyEnds(state.clients, id) && NoEndBegins([action], id)
    ensures NobodyEnds(Apply(config, state, action).clients, id)
  {
    assert action.Begin? ==> !EndsFor([action][0].call, id);
  }

  lemma SettlingHandling(config: Config, state: State, t: nat, past: State, s: nat, id: int)
    requires s < |past.nodes| && s < |state.nodes| && Settling(config, state, past, s, id)
    requires Enabled(config, state, Handling(t))
    ensures var next := ApplyHandling(config, state, t);
            && |past.handled| <= |next.handled|
            && Queued(next.nodes[s].mailbox, id) + Decisions(next.handled, |past.handled|, s, id)
               == Queued(past.nodes[s].mailbox, id)
  {
    var next := ApplyHandling(config, state, t);
    DecisionsPush(state.handled, next.handled[|state.handled|], |past.handled|, s, id);
    QueuedTail(state.nodes[t].mailbox, id);
  }

  lemma SettlingEnqueue(state: State, t: nat, m: Message, past: State, s: nat, id: int)
    requires s < |past.nodes| && s < |state.nodes| && t < |state.nodes| && !Resolves(m.command, id)
    ensures Queued(Enqueue(state, t, m).nodes[s].mailbox, id) == Queued(state.nodes[s].mailbox, id)
  {
    QueuedPush(state.nodes[t].mailbox, m, id);
  }

  lemma SettlingSend(config: Config, state: State, k: nat, past: State, s: nat, id: int)
    requires s < |past.nodes| && s < |state.nodes| && Settling(config, state, past, s, id)
    requires Enabled(config, state, Send(k))
    ensures Queued(ApplySend(config, state, k).nodes[s].mailbox, id) == Queued(state.nodes[s].mailbox, id)
  {
    var c := state.clients[k];
    if Resolves(CommandOf(c.call, c.stage), id) {
      OnlyEndsResolve(c.call, c.stage, id);
    }
    SettlingEnqueue(state, TargetOf(config, c.call, c.stage),
                    Message(k, state.nextChannel, CommandOf(c.call, c.stage)), past, s, id);
  }

  lemma SettlingStep(config: Config, state: State, action: Action, past: State, s: nat, id: int)
    requires s < |past.nodes| && s < |state.nodes| && Settling(config, state, past, s, id)
    requires Enabled(config, state, action) && NoEndBegins([action], id)
    ensures s < |Apply(config, state, action).nodes| && Settling(config, Apply(config, state, action), past, s, id)
  {
    NobodyStarts(config, state, action, id);
    match action
    case Send(k) => SettlingSend(config, state, k, past, s, id);
    case Handling(t) => SettlingHandling(config, state, t, past, s, id);
    case RequestShutdown(t) =>
      SettlingEnqueue(state, t, Message(|state.clients|, state.nextChannel, Shutdown), past, s, id);
    case _ =>
  }

  lemma {:induction false} SettlingRun(config: Config, past: State, actions: seq<Action>, s: nat, id: int)
    requires s < |past.nodes| && NobodyEnds(past.clients, id) && NoEndBegins(actions, id)
    requires Run(config, past, actions).Some?
    ensures s < |Run(config, past, actions).value.nodes|
    ensures Settling(config, Run(config, past, actions).value, past, s, id)
  {
    if actions != [] {
      var n := |actions| - 1;
      SettlingRun(config, past, actions[..n], s, id);
      assert actions[n].Begin? ==> !EndsFor(actions[n].call, id);
      SettlingStep(config, Run(config, past, actions[..n]).value, actions[n], past, s, id);
    }
  }

  /** As long as nobody ends for the producer, a pending batch that is still retained is decided exactly by the
      resolutions that were queued on its shard: it is pending as long as none of those has been handled. */
  lemma {:induction false} PendingUnlessQueued(config: Config, state: State, actions: seq<Action>, tp: TopicPartition,
                                               b: Batch, now: Batch)
    requires BrokerRuns.Reachable(config, state) && Run(config, state, actions).Some?
    requires Retained(config, state, tp, b) && IsPending(b)
    requires Retained(config, Run(config, state, actions).value, tp, now) && now.base == b.base
    requires NobodyEnds(state.clients, b.transaction.value) && NoEndBegins(actions, b.transaction.value)
    ensures var s, id := config.place(tp), b.transaction.value;
            IsPending(now) <==>
              Queued(Run(config, state, actions).value.nodes[s].mailbox, id) == Queued(state.nodes[s].mailbox, id)
  {
    var later, s, id := Run(config, state, actions).value, config.place(tp), b.transaction.value;
    assert BrokerRuns.Reaches(config, state, later);
    SettlingRun(config, state, actions, s, id);
    PendingUntilResolved(config, state, later, tp, b, now);
    DecisionsIff(later.handled, |state.handled|, s, id);
  }

  // ---------------------------------------------------------------- a waiting caller's message is on its way

  /** The message of a waiting caller is in a mailbox. */
  predicate InMailbox(mailbox: seq<Message>, k: nat, channel: nat) {
    exists i :: 0 <= i < |mailbox| && mailbox[i].client == k && mailbox[i].channel == channel
  }

  ghost predicate OnItsWay(config: Config, state: State, k: nat)
    requires k < |state.clients|
  {
    var c := state.clients[k];
    c.Waiting? && StageFits(c.call, c.stage) ==>
      && TargetOf(config, c.call, c.stage) < |state.nodes|
      && InMailbox(state.nodes[TargetOf(config, c.call, c.stage)].mailbox, k, c.channel)
  }

  ghost predicate AllOnTheirWay(config: Config, state: State) {
    forall k :: 0 <= k < |state.clients| ==> OnItsWay(config, state, k)
  }

  lemma InLonger(mailbox: seq<Message>, m: Message, k: nat, channel: nat)
    requires InMailbox(mailbox, k, channel) || (m.client == k && m.channel == channel)
    ensures InMailbox(mailbox + [m], k, channel)
  {
    if InMailbox(mailbox, k, channel) {
      var i :| 0 <= i < |mailbox| && mailbox[i].client == k && mailbox[i].channel == channel;
      assert (mailbox + [m])[i].client == k;
    } else {
      assert (mailbox + [m])[|mailbox|] == m;
    }
  }

  lemma InRest(mailbox: seq<Message>, k: nat, channel: nat)
    requires mailbox != [] && InMailbox(mailbox, k, channel)
    requires !(mailbox[0].client == k && mailbox[0].channel == channel)
    ensures InMailbox(mailbox[1..], k, channel)
  {
    var i :| 0 <= i < |mailbox| && mailbox[i].client == k && mailbox[i].channel == channel;
    assert mailbox[1..][i - 1] == mailbox[i];
  }

  lemma EnqueueOnItsWay(config: Config, state: State, s: nat, m: Message, k: nat)
    requires s < |state.nodes| && k < |state.clients| && OnItsWay(config, state, k)
    ensures OnItsWay(config, Enqueue(state, s, m), k)
  {
    var c := state.clients[k];
    if c.Waiting? && StageFits(c.call, c.stage) && TargetOf(config, c.call, c.stage) == s {
      InLonger(state.nodes[s].mailbox, m, k, c.channel);
    }
  }

  lemma SendOnItsWay(config: Config, state: State, k: nat)
    requires AllOnTheirWay(config, state) && Enabled(config, state, Send(k))
    ensures AllOnTheirWay(config, ApplySend(config, state, k))
  {
    var c, next := state.clients[k], ApplySend(config, state, k);
    var t, m := TargetOf(config, c.call, c.stage), Message(k, state.nextChannel, CommandOf(c.call, c.stage));
    forall j | 0 <= j < |next.clients| ensures OnItsWay(config, next, j) {
      if j == k {
        InLonger(state.nodes[t].mailbox, m, k, state.nextChannel);
      } else {
        EnqueueOnItsWay(config, state, t, m, j);
      }
    }
  }

  lemma HandlingOnItsWay(config: Config, state: State, s: nat)
    requires AllOnTheirWay(config, state) && Enabled(config, state, Handling(s))
    ensures AllOnTheirWay(config, ApplyHandling(config, state, s))
  {
    var next, m := ApplyHandling(config, state, s), state.nodes[s].mailbox[0];
    forall j | 0 <= j < |next.clients| ensures OnItsWay(config, next, j) {
      assert OnItsWay(config, state, j);
      var c := next.clients[j];
      if c.Waiting? && StageFits(c.call, c.stage) && TargetOf(config, c.call, c.stage) == s {
        InRest(state.nodes[s].mailbox, j, c.channel);
      }
    }
  }

  lemma StepOnItsWay(config: Config, state: State, action: Action)
    requires AllOnTheirWay(config, state) && Enabled(config, state, action)
    ensures AllOnTheirWay(config, Apply(config, state, action))
  {
    match action
    case Send(k) => SendOnItsWay(config, state, k);
    case Handling(s) => HandlingOnItsWay(config, state, s);
    case RequestShutdown(s) =>
      var m := Message(|state.clients|, state.nextChannel, Shutdown);
      forall j | 0 <= j < |state.clients| ensures OnItsWay(config, Enqueue(state, s, m), j) {
        EnqueueOnItsWay(config, state, s, m, j);
      }
    case _ =>
      forall j | 0 <= j < |state.clients| ensures OnItsWay(config, Apply(config, state, action), j) {
        assert OnItsWay(config, state, j);
      }
  }

  /** In every reachable state the message a caller waits for has not been handled yet and will be found. */
  lemma {:induction false} EveryoneIsOnTheirWay(config: Config, clients: nat, actions: seq<Action>)
    requires Run(config, Start(config, clients), actions).Some?
    ensures AllOnTheirWay(config, Run(config, Start(config, clients), actions).value)
  {
    if actions != [] {
      var n := |actions| - 1;
      EveryoneIsOnTheirWay(config, clients, actions[..n]);
      StepOnItsWay(config, Run(config, Start(config, clients), actions[..n]).value, actions[n]);
    }
  }

  // ---------------------------------------------------------------- giving up on an end

  lemma {:induction false} NoneQueued(mailbox: seq<Message>, id: int)
    requires forall i :: 0 <= i < |mailbox| ==> !Resolves(mailbox[i].command, id)
    ensures Queued(mailbox, id) == 0
  {
    if mailbox != [] {
      NoneQueued(mailbox[..|mailbox| - 1], id);
    }
  }

  lemma {:induction false} OneQueued(mailbox: seq<Message>, id: int, i: nat)
    requires i < |mailbox| && Resolves(mailbox[i].command, id)
    requires forall j :: 0 <= j < |mailbox| && j != i ==> !Resolves(mailbox[j].command, id)
    ensures Queued(mailbox, id) == 1
  {
    var n := |mailbox| - 1;
    if i == n {
      NoneQueued(mailbox[..n], id);
    } else {
      OneQueued(mailbox[..n], id, i);
    }
  }

  /** The caller waits for a resolution on shard `s`. */
  predicate WaitsToResolve(config: Config, c: Client, s: nat) {
    && c.Waiting? && c.stage.Resolving? && StageFits(c.call, c.stage)
    && TargetOf(config, c.call, c.stage) == s
  }

  /** Of callers that may be ending for a producer, this is the only one. */
  predicate OnlyEnder(clients: seq<Client>, k: nat, id: int)
    requires k < |clients|
  {
    forall j :: 0 <= j < |clients| && j != k && !clients[j].Idle? ==> !EndsFor(clients[j].call, id)
  }

  lemma ResolvesIsOwn(config: Config, state: State, k: nat, s: nat, i: nat)
    requires Good(config, state) && k < |state.clients| && !state.clients[k].Idle? && state.clients[k].call.EndCall?
    requires OnlyEnder(state.clients, k, state.clients[k].call.producer.id)
    requires s < |state.nodes| && i < |state.nodes[s].mailbox|
    requires Resolves(state.nodes[s].mailbox[i].command, state.clients[k].call.producer.id)
    ensures WaitsToResolve(config, state.clients[k], s)
    ensures state.nodes[s].mailbox[i].channel == state.clients[k].channel
  {
    var m := state.nodes[s].mailbox[i];
    assert MailboxOwned(config, state.clients, s, state.nodes[s].mailbox, state.nextChannel);
    assert Owned(config, state.clients, s, m);
    OnlyEndsResolve(state.clients[m.client].call, state.clients[m.client].stage, m.command.id);
  }

  /** What is queued for the producer of a transaction being ended is at most the one resolution its caller waits
      for. */
  lemma QueuedIsOwn(config: Config, state: State, k: nat, s: nat)
    requires Good(config, state) && k < |state.clients| && !state.clients[k].Idle? && state.clients[k].call.EndCall?
    requires AllOnTheirWay(config, state) && BrokerReplies.Sound(config, state)
    requires OnlyEnder(state.clients, k, state.clients[k].call.producer.id) && s < |state.nodes|
    ensures Queued(state.nodes[s].mailbox, state.clients[k].call.producer.id)
            == if WaitsToResolve(config, state.clients[k], s) then 1 else 0
  {
    var c, mailbox := state.clients[k], state.nodes[s].mailbox;
    var id := c.call.producer.id;
    if WaitsToResolve(config, c, s) {
      assert OnItsWay(config, state, k);
      var i :| 0 <= i < |mailbox| && mailbox[i].client == k && mailbox[i].channel == c.channel;
      assert BrokerReplies.MailboxSound(config, s, mailbox, state.clients, state.nextChannel);
      assert BrokerReplies.MessageSound(config, s, mailbox[i], state.clients, state.nextChannel);
      assert MailboxOwned(config, state.clients, s, mailbox, state.nextChannel);
      forall j | 0 <= j < |mailbox| && j != i ensures !Resolves(mailbox[j].command, id) {
        if Resolves(mailbox[j].command, id) {
          ResolvesIsOwn(config, state, k, s, j);
        }
      }
      OneQueued(mailbox, id, i);
    } else {
      forall j | 0 <= j < |mailbox| ensures !Resolves(mailbox[j].command, id) {
        if Resolves(mailbox[j].command, id) {
          ResolvesIsOwn(config, state, k, s, j);
        }
      }
      NoneQueued(mailbox, id);
    }
  }

  /** A state that disciplined callers have brought the broker to. */
  ghost predicate DisciplinedUpTo(config: Config, state: State) {
    exists clients: nat, actions ::
      BrokerGuarantee.WellBehaved(config, clients, actions)
      && Run(config, Start(config, clients), actions) == Some(state)
  }

  lemma {:induction false} DisciplinedFacts(config: Config, state: State)
    requires ValidConfig(config) && DisciplinedUpTo(config, state)
    ensures BrokerRuns.Reachable(config, state) && Good(config, state)
    ensures AllOnTheirWay(config, state) && BrokerReplies.Sound(config, state) && Sequential(config, state)
  {
    var clients: nat, actions :|
      BrokerGuarantee.WellBehaved(config, clients, actions)
      && Run(config, Start(config, clients), actions) == Some(state);
    assert BrokerRuns.Reaches(config, Start(config, clients), state);
    BrokerGuarantee.EveryDisciplinedRunIsGood(config, clients, actions);
    BrokerRuns.ReachableIsSound(config, state);
    EveryoneIsOnTheirWay(config, clients, actions);
  }

  predicate GivesUp(action: Action, k: nat) {
    action == GiveUpSending(k) || action == GiveUpWaiting(k)
  }

  /** The partitions a caller that gives up on ending leaves undecided: those it had still to resolve, or, if the
      coordinator had not answered yet, those of the open transaction. */
  predicate LeftBehind(c: Client, co: Coordinator, tp: TopicPartition)
    requires !c.Idle? && c.call.EndCall?
  {
    match Progress(c)
    case Some(progress) => progress.1 <= |progress.0.partitions| && tp in progress.0.partitions[progress.1..]
    case None =>
      && c.call.tid in co.transactions
      && co.transactions[c.call.tid].status.Ongoing? && tp in co.transactions[c.call.tid].partitions
  }

  lemma PendingIsLeftBehind(config: Config, state: State, k: nat, tp: TopicPartition)
    requires Good(config, state) && k < |state.clients| && !state.clients[k].Idle? && state.clients[k].call.EndCall?
    requires TransactionHistory.DistinctIds(CoordinatorOf(state.nodes)) && config.place(tp) < |state.nodes|
    requires Known(CoordinatorOf(state.nodes), state.clients[k].call.tid, state.clients[k].call.producer.id)
    requires Loose(config, state.nodes[config.place(tp)], tp, state.clients[k].call.producer.id)
    ensures LeftBehind(state.clients[k], CoordinatorOf(state.nodes), tp)
  {
    var c, id, co := state.clients[k], state.clients[k].call.producer.id, CoordinatorOf(state.nodes);
    assert ClientGood(config, state.nodes, c);
    if Progress(c).Some? {
      var progress := Progress(c).value;
      LooseIsLeft(config, state.nodes, id, progress.0.partitions[progress.1..], config.place(tp), tp);
    } else {
      assert Accounted(state.clients, co, tp, id);
      OwnAccount(state.clients, co, c.call.tid, tp, id);
      BrokerHandling.OpenUnlessEnding(state.clients, k, co, c.call.tid, tp, id);
    }
  }

  lemma HeldBatchIsPending(config: Config, state: State, tp: TopicPartition, b: Batch)
    requires Retained(config, state, tp, b) && IsPending(b)
    ensures Loose(config, state.nodes[config.place(tp)], tp, b.transaction.value)
  {
    var log := LogIn(config, state, tp);
    var i :| 0 <= i < |log.batches| && log.batches[i] == b;
    assert log.batches[i].transaction == Some(b.transaction.value) && log.batches[i].state.Pending?;
  }

  lemma GivenUpState(config: Config, state: State, k: nat, action: Action)
    requires k < |state.clients| && GivesUp(action, k) && Enabled(config, state, action)
    ensures var next := Apply(config, state, action);
            next.nodes == state.nodes && next.handled == state.handled && next.clients == state.clients[k := Idle]
  {
  }

  /** Right after giving up, nobody ends for the producer, and only the resolution the caller waited for may be
      queued. */
  lemma {:induction false} GivenUp(config: Config, state: State, k: nat, action: Action, s: nat)
    requires ValidConfig(config) && DisciplinedUpTo(config, state) && s < |state.nodes|
    requires k < |state.clients| && !state.clients[k].Idle? && state.clients[k].call.EndCall?
    requires GivesUp(action, k) && Enabled(config, state, action)
    requires OnlyEnder(state.clients, k, state.clients[k].call.producer.id)
    ensures var next, id := Apply(config, state, action), state.clients[k].call.producer.id;
            && BrokerRuns.Reachable(config, next) && NobodyEnds(next.clients, id) && s < |next.nodes|
            && Queued(next.nodes[s].mailbox, id) == if WaitsToResolve(config, state.clients[k], s) then 1 else 0
  {
    DisciplinedFacts(config, state);
    GivenUpState(config, state, k, action);
    QueuedIsOwn(config, state, k, s);
    BrokerRuns.ReachableNext(config, state, action);
  }

  /** Giving up on an end, at whichever message, decides nothing and leaves nothing to decide but the one resolution
      that may be queued: as long as nobody ends for the producer again, a batch it left pending is decided exactly if
      its caller was waiting for the resolution on its shard and that has been handled. */
  lemma {:induction false} GivingUpOnEnd(config: Config, state: State, k: nat, action: Action, more: seq<Action>,
                                         tp: TopicPartition, b: Batch, now: Batch)
    requires ValidConfig(config) && DisciplinedUpTo(config, state)
    requires k < |state.clients| && !state.clients[k].Idle? && state.clients[k].call.EndCall?
    requires GivesUp(action, k) && Enabled(config, state, action)
    requires Run(config, Apply(config, state, action), more).Some?
    requires OnlyEnder(state.clients, k, state.clients[k].call.producer.id)
    requires NoEndBegins(more, state.clients[k].call.producer.id)
    requires Retained(config, state, tp, b) && IsPending(b)
    requires b.transaction == Some(state.clients[k].call.producer.id)
    requires Retained(config, Run(config, Apply(config, state, action), more).value, tp, now) && now.base == b.base
    ensures var later, s := Run(config, Apply(config, state, action), more).value, config.place(tp);
            !IsPending(now) <==>
              WaitsToResolve(config, state.clients[k], s) && Queued(later.nodes[s].mailbox, b.transaction.value) == 0
  {
    GivenUp(config, state, k, action, config.place(tp));
    GivenUpState(config, state, k, action);
    DecidedIfHandled(config, Apply(config, state, action), more, tp, b, now);
  }

  lemma {:induction false} DecidedIfHandled(config: Config, state: State, actions: seq<Action>, tp: TopicPartition,
                                            b: Batch, now: Batch)
    requires BrokerRuns.Reachable(config, state) && Run(config, state, actions).Some?
    requires Retained(config, state, tp, b) && IsPending(b)
    requires Retained(config, Run(config, state, actions).value, tp, now) && now.base == b.base
    requires NobodyEnds(state.clients, b.transaction.value) && NoEndBegins(actions, b.transaction.value)
    requires Queued(state.nodes[config.place(tp)].mailbox, b.transaction.value) <= 1
    ensures var later, s, id := Run(config, state, actions).value, config.place(tp), b.transaction.value;
            !IsPending(now) <==>
              Queued(state.nodes[s].mailbox, id) == 1 && Queued(later.nodes[s].mailbox, id) == 0
  {
    SettlingRun(config, state, actions, config.place(tp), b.transaction.value);
    PendingUnlessQueued(config, state, actions, tp, b, now);
  }

  /** And what it left pending is what it had still to resolve, or all that was enlisted. */
  lemma {:induction false} GivingUpLeaves(config: Config, state: State, k: nat, tp: TopicPartition, b: Batch)
    requires ValidConfig(config) && DisciplinedUpTo(config, state) && |state.nodes| > 0
    requires |CoordinatorOf(state.nodes).transactions| <= I64_MAX
    requires k < |state.clients| && !state.clients[k].Idle? && state.clients[k].call.EndCall?
    requires Known(CoordinatorOf(state.nodes), state.clients[k].call.tid, state.clients[k].call.producer.id)
    requires Retained(config, state, tp, b) && IsPending(b)
    requires b.transaction == Some(state.clients[k].call.producer.id)
    ensures LeftBehind(state.clients[k], CoordinatorOf(state.nodes), tp)
  {
    DisciplinedFacts(config, state);
    BrokerGuarantee.IdsAreDistinct(config, state);
    HeldBatchIsPending(config, state, tp, b);
    PendingIsLeftBehind(config, state, k, tp);
  }
}
