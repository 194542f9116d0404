/** How many resolutions of a producer a shard still has coming, and that only those decide its pending batches. */
module OwedResolutions {
  import opened Records
  import opened Log
  import opened Shards
  import opened Broker
  import opened BrokerOrder
  import opened BatchFates
  import opened BrokerTransactions
  import opened GivingUp
  import BrokerReplies
  import BrokerRuns

  // ---------------------------------------------------------------- what is still to come

  /** How many of the partitions are on shard `s`. */
  function CountOn(config: Config, partitions: seq<TopicPartition>, s: nat): nat {
    if partitions == [] then 0
    else (if config.place(partitions[0]) == s then 1 else 0) + CountOn(config, partitions[1..], s)
  }

  /** The partitions whose resolution a caller that was handed a completion has still to send. */
  function StillToSend(c: Client): seq<TopicPartition> {
    match c
    case Ready(call, Resolving(completion, i), _) =>
      if i <= |completion.partitions| then completion.partitions[i..] else []
    case Waiting(call, Resolving(completion, i), _, _) => BehindFirst(completion.partitions, i)
    case Replied(call, Resolving(completion, i), _, _, _) => BehindFirst(completion.partitions, i)
    case Replied(call, First, _, _, Transacted(Ok(Completed(completion)))) => completion.partitions
    case _ => []
  }

  function BehindFirst(partitions: seq<TopicPartition>, i: nat): seq<TopicPartition> {
    if i < |partitions| then partitions[i + 1..] else []
  }

  /** Resolutions of producer `id` on shard `s` that one caller has still to send. */
  function Remaining(config: Config, c: Client, s: nat, id: int): nat {
    if !c.Idle? && EndsFor(c.call, id) then CountOn(config, StillToSend(c), s) else 0
  }

  function OwedBy(config: Config, clients: seq<Client>, s: nat, id: int): nat {
    if clients == [] then 0 else Remaining(config, clients[0], s, id) + OwedBy(config, clients[1..], s, id)
  }

  /** Resolutions of producer `id` that wait in the mailbox of shard `s` or have still to be sent to it. */
  function Owed(config: Config, state: State, s: nat, id: int): nat
    requires s < |state.nodes|
  {
    Queued(state.nodes[s].mailbox, id) + OwedBy(config, state.clients, s, id)
  }

  lemma {:induction false} OwedByUpdate(config: Config, clients: seq<Client>, k: nat, c: Client, s: nat, id: int)
    requires k < |clients|
    ensures OwedBy(config, clients[k := c], s, id) + Remaining(config, clients[k], s, id)
            == OwedBy(config, clients, s, id) + Remaining(config, c, s, id)
  {
    if k == 0 {
      assert clients[k := c][1..] == clients[1..];
    } else {
      assert clients[k := c][1..] == clients[1..][k - 1 := c];
      OwedByUpdate(config, clients[1..], k - 1, c, s, id);
    }
  }

  lemma {:induction false} NobodyOwes(config: Config, clients: seq<Client>, s: nat, id: int)
    requires forall k :: 0 <= k < |clients| ==> Remaining(config, clients[k], s, id) == 0
    ensures OwedBy(config, clients, s, id) == 0
  {
    if clients != [] {
      NobodyOwes(config, clients[1..], s, id);
    }
  }

  // ---------------------------------------------------------------- what every step keeps

  /** The coordinator accepted an end for producer `id`, so somebody is handed something to resolve. */
  predicate EndAccepted(h: Handled, id: int) {
    && IsRequest(h.command) && h.command.request.transactional.EndTransaction?
    && h.command.request.transactional.producer.id == id
    && h.reply.Transacted? && h.reply.answer.Ok?
  }

  predicate GivesUpOnEnd(state: State, action: Action, id: int) {
    && (action.GiveUpSending? || action.GiveUpWaiting?) && action.client < |state.clients|
    && var c := state.clients[action.client]; !c.Idle? && EndsFor(c.call, id)
  }

  /** Resolutions of producer `id` that a step decides on shard `s`. */
  function DecidedBy(state: State, next: State, s: nat, id: int): nat {
    if |state.handled| < |next.handled| && ResolvesAt(next.handled[|state.handled|], s, id) then 1 else 0
  }

  /** A step uses up what is owed by exactly what it decides, except that giving up may forget some of it. */
  predicate UsesUp(config: Config, state: State, next: State, s: nat, id: int, exactly: bool)
    requires s < |state.nodes| && s < |next.nodes|
  {
    var owed, left := Owed(config, state, s, id), Owed(config, next, s, id) + DecidedBy(state, next, s, id);
    left <= owed && (exactly ==> left == owed)
  }

  lemma SendUsesUp(config: Config, state: State, k: nat, s: nat, id: int)
    requires s < |state.nodes| && Enabled(config, state, Send(k))
    ensures UsesUp(config, state, ApplySend(config, state, k), s, id, true)
  {
    var c, next := state.clients[k], ApplySend(config, state, k);
    OwedByUpdate(config, state.clients, k, next.clients[k], s, id);
    var t := TargetOf(config, c.call, c.stage);
    QueuedPush(state.nodes[t].mailbox, Message(k, state.nextChannel, CommandOf(c.call, c.stage)), id);
    if c.stage.Resolving? {
      var partitions, i := c.stage.completion.partitions, c.stage.index;
      assert partitions[i..][1..] == partitions[i + 1..];
    }
  }

  /** The reply to a caller's own message hands it nothing new to resolve. */
  lemma RepliedRemaining(config: Config, c: Client, position: nat, reply: Reply, s: nat, id: int)
    requires c.Waiting? && StageFits(c.call, c.stage)
    requires !EndAccepted(Handled(TargetOf(config, c.call, c.stage), CommandOf(c.call, c.stage), reply), id)
    ensures Remaining(config, Replied(c.call, c.stage, c.since, position, reply), s, id) == Remaining(config, c, s, id)
  {
  }

  lemma HandlingUsesUp(config: Config, state: State, t: nat, s: nat, id: int)
    requires s < |state.nodes| && Enabled(config, state, Handling(t)) && BrokerReplies.Sound(config, state)
    requires !EndAccepted(ApplyHandling(config, state, t).handled[|state.handled|], id)
    ensures UsesUp(config, state, ApplyHandling(config, state, t), s, id, true)
  {
    var next, m := ApplyHandling(config, state, t), state.nodes[t].mailbox[0];
    QueuedTail(state.nodes[t].mailbox, id);
    assert BrokerReplies.MailboxSound(config, t, state.nodes[t].mailbox, state.clients, state.nextChannel);
    assert BrokerReplies.MessageSound(config, t, m, state.clients, state.nextChannel);
    if Awaited(state, m) {
      var c, reply := state.clients[m.client], next.handled[|state.handled|].reply;
      RepliedRemaining(config, c, |state.handled|, reply, s, id);
      OwedByUpdate(config, state.clients, m.client, next.clients[m.client], s, id);
    }
  }

  /** A resolution is always acknowledged. */
  lemma AcknowledgedAlways(config: Config, state: State, k: nat)
    requires Sequential(config, state) && BrokerReplies.Sound(config, state)
    requires k < |state.clients| && state.clients[k].Replied? && state.clients[k].stage.Resolving?
    ensures state.clients[k].reply.Resolved?
  {
    assert BrokerReplies.ClientSound(config, state.clients[k], state.handled, state.nextChannel);
    assert Agrees(config, state.handled, state.clients[k].position);
  }

  /** Taking a reply, a caller goes on with just what it has still to send, or has nothing left to send. */
  lemma ReceivedToSend(config: Config, c: Client)
    requires c.Replied? && c.call.EndCall? && StageFits(c.call, c.stage)
    requires c.stage.Resolving? ==> c.reply.Resolved?
    ensures var next := AfterReply(config, c.call, c.stage, c.reply);
            StillToSend(c) == if next.Continue? then StillToSend(Ready(c.call, next.stage, c.since)) else []
  {
  }

  lemma ReceivedRemaining(config: Config, c: Client, s: nat, id: int)
    requires c.Replied? && StageFits(c.call, c.stage)
    requires c.stage.Resolving? ==> c.reply.Resolved?
    ensures var next := AfterReply(config, c.call, c.stage, c.reply);
            Remaining(config, c, s, id)
            == if next.Continue? then Remaining(config, Ready(c.call, next.stage, c.since), s, id) else 0
  {
    if EndsFor(c.call, id) {
      ReceivedToSend(config, c);
    }
  }

  lemma ReceiveUsesUp(config: Config, state: State, k: nat, s: nat, id: int)
    requires s < |state.nodes| && Enabled(config, state, Receive(k))
    requires state.clients[k].stage.Resolving? ==> state.clients[k].reply.Resolved?
    ensures UsesUp(config, state, ApplyReceive(config, state, k), s, id, true)
  {
    ReceivedRemaining(config, state.clients[k], s, id);
    OwedByUpdate(config, state.clients, k, ApplyReceive(config, state, k).clients[k], s, id);
  }

  lemma GivingUpUsesUp(config: Config, state: State, action: Action, s: nat, id: int)
    requires s < |state.nodes| && Enabled(config, state, action) && (action.GiveUpSending? || action.GiveUpWaiting?)
    ensures UsesUp(config, state, Apply(config, state, action), s, id, !GivesUpOnEnd(state, action, id))
  {
    OwedByUpdate(config, state.clients, action.client, Idle, s, id);
  }

  lemma BeginUsesUp(config: Config, state: State, k: nat, call: Call, s: nat, id: int)
    requires s < |state.nodes| && Enabled(config, state, Begin(k, call))
    ensures UsesUp(config, state, ApplyBegin(config, state, k, call), s, id, true)
  {
    OwedByUpdate(config, state.clients, k, Ready(call, First, |state.handled|), s, id);
  }

  lemma StepUsesUp(config: Config, state: State, action: Action, s: nat, id: int)
    requires Sequential(config, state) && BrokerReplies.Sound(config, state)
    requires s < |state.nodes| && Enabled(config, state, action)
    requires var next := Apply(config, state, action);
             |state.handled| < |next.handled| ==> !EndAccepted(next.handled[|state.handled|], id)
    ensures s < |Apply(config, state, action).nodes|
    ensures UsesUp(config, state, Apply(config, state, action), s, id, !GivesUpOnEnd(state, action, id))
  {
    match action
    case Begin(k, call) => BeginUsesUp(config, state, k, call, s, id);
    case Send(k) => SendUsesUp(config, state, k, s, id);
    case Handling(t) => HandlingUsesUp(config, state, t, s, id);
    case Receive(k) =>
      if state.clients[k].stage.Resolving? {
        AcknowledgedAlways(config, state, k);
      }
      ReceiveUsesUp(config, state, k, s, id);
    case RequestShutdown(t) =>
      QueuedPush(state.nodes[t].mailbox, Message(|state.clients|, state.nextChannel, Shutdown), id);
    case _ => GivingUpUsesUp(config, state, action, s, id);
  }

  // ---------------------------------------------------------------- over runs

  /** No end for producer `id` was accepted since. */
  ghost predicate NoEndSince(state: State, later: State, id: int) {
    forall q :: |state.handled| <= q < |later.handled| ==> !EndAccepted(later.handled[q], id)
  }

  /** Along the run nobody gives up on an end for producer `id`. */
  ghost predicate NobodyGivesUp(config: Config, state: State, actions: seq<Action>, id: int) {
    forall n :: 0 <= n < |actions| && Run(config, state, actions[..n]).Some? ==>
      !GivesUpOnEnd(Run(config, state, actions[..n]).value, actions[n], id)
  }

  /** Since `state`, what was owed has been decided or is still owed, or was forgotten by giving up. */
  predicate UsedUp(config: Config, state: State, later: State, s: nat, id: int, exactly: bool)
    requires s < |state.nodes| && s < |later.nodes|
  {
    var left := Owed(config, later, s, id) + Decisions(later.handled, |state.handled|, s, id);
    left <= Owed(config, state, s, id) && (exactly ==> left == Owed(config, state, s, id))
  }

  lemma UsedUpFurther(config: Config, state: State, before: State, next: State, s: nat, id: int, exactly: bool,
                      stepExactly: bool)
    requires s < |state.nodes| && s < |before.nodes| && s < |next.nodes|
    requires |state.handled| <= |before.handled| && before.handled <= next.handled
    requires |next.handled| <= |before.handled| + 1
    requires UsedUp(config, state, before, s, id, exactly) && UsesUp(config, before, next, s, id, stepExactly)
    ensures UsedUp(config, state, next, s, id, exactly && stepExactly)
  {
    if |before.handled| < |next.handled| {
      var h := next.handled[|before.handled|];
      assert next.handled == before.handled + [h];
      DecisionsPush(before.handled, h, |state.handled|, s, id);
    } else {
      assert next.handled == before.handled;
    }
  }

  lemma OneMoreHandled(config: Config, state: State, action: Action)
    requires Enabled(config, state, action)
    ensures var next := Apply(config, state, action);
            state.handled <= next.handled && |next.handled| <= |state.handled| + 1
  {
  }

  lemma {:induction false} RunUsesUp(config: Config, state: State, actions: seq<Action>, s: nat, id: int, exactly: bool)
    requires BrokerRuns.Reachable(config, state) && Run(config, state, actions).Some? && s < |state.nodes|
    requires NoEndSince(state, Run(config, state, actions).value, id)
    requires exactly ==> NobodyGivesUp(config, state, actions, id)
    ensures state.handled <= Run(config, state, actions).value.handled
    ensures s < |Run(config, state, actions).value.nodes|
    ensures UsedUp(config, state, Run(config, state, actions).value, s, id, exactly)
  {
    if actions != [] {
      var n := |actions| - 1;
      var before, last := Run(config, state, actions[..n]).value, actions[n];
      assert BrokerRuns.Reaches(config, state, before);
      BrokerRuns.ReachableOn(config, state, before);
      BrokerRuns.ReachableIsSound(config, before);
      OneMoreHandled(config, before, last);
      assert exactly ==> NobodyGivesUp(config, state, actions[..n], id) by {
        assert forall m :: 0 <= m < n ==> actions[..n][..m] == actions[..m];
      }
      RunUsesUp(config, state, actions[..n], s, id, exactly);
      StepUsesUp(config, before, last, s, id);
      UsedUpFurther(config, state, before, Apply(config, before, last), s, id, exactly,
                    !GivesUpOnEnd(before, last, id));
    }
  }

  /** While no end for its producer is accepted and nobody gives up on one, a pending batch that is still retained is
      pending exactly when its shard still has as many resolutions coming. */
  lemma {:induction false} PendingWhileOwed(config: Config, state: State, actions: seq<Action>, tp: TopicPartition,
                                            b: Batch, now: Batch)
    requires BrokerRuns.Reachable(config, state) && Run(config, state, actions).Some?
    requires Retained(config, state, tp, b) && IsPending(b)
    requires Retained(config, Run(config, state, actions).value, tp, now) && now.base == b.base
    requires NoEndSince(state, Run(config, state, actions).value, b.transaction.value)
    requires NobodyGivesUp(config, state, actions, b.transaction.value)
    ensures var later, s, id := Run(config, state, actions).value, config.place(tp), b.transaction.value;
            IsPending(now) <==> Owed(config, later, s, id) == Owed(config, state, s, id)
  {
    var later, s, id := Run(config, state, actions).value, config.place(tp), b.transaction.value;
    RunUsesUp(config, state, actions, s, id, true);
    assert BrokerRuns.Reaches(config, state, later);
    PendingUntilResolved(config, state, later, tp, b, now);
    DecisionsIff(later.handled, |state.handled|, s, id);
  }

  /** Whoever gives up, a pending batch whose shard has no resolution coming stays pending while no end for its producer
      is accepted. */
  lemma {:induction false} PendingIfNothingOwed(config: Config, state: State, actions: seq<Action>, tp: TopicPartition,
                                                b: Batch, now: Batch)
    requires BrokerRuns.Reachable(config, state) && Run(config, state, actions).Some?
    requires Retained(config, state, tp, b) && IsPending(b)
    requires Retained(config, Run(config, state, actions).value, tp, now) && now.base == b.base
    requires NoEndSince(state, Run(config, state, actions).value, b.transaction.value)
    requires Owed(config, state, config.place(tp), b.transaction.value) == 0
    ensures IsPending(now)
  {
    var later, s, id := Run(config, state, actions).value, config.place(tp), b.transaction.value;
    RunUsesUp(config, state, actions, s, id, false);
    assert BrokerRuns.Reaches(config, state, later);
    PendingUntilResolved(config, state, later, tp, b, now);
    DecisionsIff(later.handled, |state.handled|, s, id);
  }
}
