/** Everything a caller sends while it ends a transaction, over every run. */
module BrokerSent {
  import opened Records
  import opened Transactions
  import opened Shards
  import opened Broker
  import opened BrokerScripts
  import BrokerReplies

  /** A command that was put into the mailbox of a shard. */
  datatype Sent = Sent(at: nat, command: Command)

  /** A call, how many commands had been handled when it began, and what its caller has sent for it, in order. */
  datatype Trace = Trace(call: Call, since: nat, sent: seq<Sent>)

  /** The latest call of caller `k` in a run. */
  function TraceOf(config: Config, clients: nat, actions: seq<Action>, k: nat): Option<Trace> {
    if actions == [] then None
    else
      var front, last := actions[..|actions| - 1], actions[|actions| - 1];
      match Run(config, Start(config, clients), front)
      case None => None
      case Some(before) => Extended(config, before, last, k, TraceOf(config, clients, front, k))
  }

  function Extended(config: Config, before: State, action: Action, k: nat, trace: Option<Trace>): Option<Trace> {
    match action
    case Begin(j, call) => if j == k then Some(Trace(call, |before.handled|, [])) else trace
    case Send(j) =>
      if j == k && trace.Some? && Enabled(config, before, action)
      then Some(trace.value.(sent := trace.value.sent + [MessageOf(config, before.clients[k])]))
      else trace
    case _ => trace
  }

  /** The message a caller is about to send, and where to. */
  function MessageOf(config: Config, c: Client): Sent
    requires !c.Idle? && StageFits(c.call, c.stage)
  {
    Sent(TargetOf(config, c.call, c.stage), CommandOf(c.call, c.stage))
  }

  /** The messages of the script that ends a transaction, with the shard each of them is for. */
  function Messages(config: Config, call: Call, c: Completion): seq<Sent>
    requires call.EndCall?
  {
    var script := Script(config, call, c);
    seq(|script|, i requires 0 <= i < |script| => Sent(script[i].at, script[i].command))
  }

  /** The coordinator handed this completion over while the call was running. */
  ghost predicate HandedOver(handled: seq<Handled>, call: Call, since: nat, c: Completion)
    requires call.EndCall?
  {
    exists p :: since <= p < |handled| && handled[p] == Handled(0, CommandOf(call, First), Transacted(Ok(Completed(c))))
  }

  /** What was sent is a beginning of the script of the completion that was handed over. */
  ghost predicate FollowsScript(config: Config, handled: seq<Handled>, trace: Trace, c: Completion)
    requires trace.call.EndCall?
  {
    && trace.sent <= Messages(config, trace.call, c)
    && (|trace.sent| > 1 ==> HandedOver(handled, trace.call, trace.since, c))
  }

  /** How many messages a caller has sent at this point of its call. */
  function SentSoFar(c: Client): nat
    requires !c.Idle?
  {
    EntryOf(c.stage) + if c.Ready? then 0 else 1
  }

  ghost predicate Traced(config: Config, handled: seq<Handled>, client: Client, trace: Option<Trace>) {
    && (!client.Idle? ==> trace.Some? && trace.value.call == client.call && trace.value.since == client.since)
    && (trace.Some? && trace.value.call.EndCall? ==>
          exists c :: FollowsScript(config, handled, trace.value, c) && AtMessage(handled, client, trace.value, c))
  }

  /** A caller in the middle of the call is at the message behind those it has sent. */
  ghost predicate AtMessage(handled: seq<Handled>, client: Client, trace: Trace, c: Completion)
    requires trace.call.EndCall?
  {
    !client.Idle? ==>
      && Ends(client.stage, c) && |trace.sent| == SentSoFar(client)
      && (!client.stage.First? ==> HandedOver(handled, trace.call, trace.since, c))
  }

  // ---------------------------------------------------------------- what every step keeps

  lemma HandedOverStays(handled: seq<Handled>, later: seq<Handled>, call: Call, since: nat, c: Completion)
    requires call.EndCall? && handled <= later && HandedOver(handled, call, since, c)
    ensures HandedOver(later, call, since, c)
  {
    var p :| since <= p < |handled| && handled[p] == Handled(0, CommandOf(call, First), Transacted(Ok(Completed(c))));
    assert later[p] == handled[p];
  }

  /** The same caller at the same message, with more commands handled. */
  lemma TracedStays(config: Config, handled: seq<Handled>, later: seq<Handled>, client: Client, now: Client,
                    trace: Option<Trace>)
    requires Traced(config, handled, client, trace) && handled <= later
    requires now.Idle? || (!client.Idle? && client.call == now.call && client.since == now.since
                           && client.stage == now.stage && SentSoFar(client) == SentSoFar(now))
    ensures Traced(config, later, now, trace)
  {
    if trace.Some? && trace.value.call.EndCall? {
      var c :| FollowsScript(config, handled, trace.value, c) && AtMessage(handled, client, trace.value, c);
      if HandedOver(handled, trace.value.call, trace.value.since, c) {
        HandedOverStays(handled, later, trace.value.call, trace.value.since, c);
      }
      assert FollowsScript(config, later, trace.value, c) && AtMessage(later, now, trace.value, c);
    }
  }

  lemma SendKeepsTraced(config: Config, state: State, k: nat, trace: Option<Trace>)
    requires Enabled(config, state, Send(k)) && Traced(config, state.handled, state.clients[k], trace)
    ensures var next := ApplySend(config, state, k);
            Traced(config, next.handled, next.clients[k], Extended(config, state, Send(k), k, trace))
  {
    var client := state.clients[k];
    if client.call.EndCall? {
      var c :| FollowsScript(config, state.handled, trace.value, c)
        && AtMessage(state.handled, client, trace.value, c);
      EntryIsMessage(config, client.call, client.stage, c);
      var longer := Extended(config, state, Send(k), k, trace).value;
      assert longer.sent <= Messages(config, client.call, c);
      assert FollowsScript(config, state.handled, longer, c);
      assert AtMessage(state.handled, ApplySend(config, state, k).clients[k], longer, c);
    }
  }

  lemma ReceiveKeepsTraced(config: Config, state: State, k: nat, trace: Option<Trace>)
    requires Enabled(config, state, Receive(k)) && Traced(config, state.handled, state.clients[k], trace)
    requires BrokerReplies.ClientSound(config, state.clients[k], state.handled, state.nextChannel)
    ensures var next := ApplyReceive(config, state, k); Traced(config, next.handled, next.clients[k], trace)
  {
    var client, handled := state.clients[k], state.handled;
    var next := AfterReply(config, client.call, client.stage, client.reply);
    if next.Finish? {
      TracedStays(config, handled, handled, client, Idle, trace);
    } else if client.call.EndCall? {
      OnlySuccessGoesOn(config, client.call, client.stage, client.reply);
      var c :| Ends(client.stage, c) && client.reply == Success(client.stage, c)
        && FollowsUp(config, client.call, client.stage, c, next);
      assert FollowsScript(config, handled, trace.value, c) && HandedOver(handled, client.call, client.since, c) by {
        GoesOnWith(config, handled, client, trace.value, c, state.nextChannel);
      }
      assert AtMessage(handled, Ready(client.call, next.stage, client.since), trace.value, c);
    }
  }

  lemma GoesOnWith(config: Config, handled: seq<Handled>, client: Client, trace: Trace, c: Completion, nextChannel: nat)
    requires client.Replied? && client.call.EndCall? && Traced(config, handled, client, Some(trace))
    requires BrokerReplies.ClientSound(config, client, handled, nextChannel)
    requires Ends(client.stage, c) && client.reply == Success(client.stage, c)
    ensures FollowsScript(config, handled, trace, c) && HandedOver(handled, client.call, client.since, c)
  {
    var d :| FollowsScript(config, handled, trace, d) && AtMessage(handled, client, trace, d);
    if client.stage.First? {
      assert handled[client.position] == Handled(0, CommandOf(client.call, First), Transacted(Ok(Completed(c))));
      assert Messages(config, client.call, c)[0] == Messages(config, client.call, d)[0];
      assert trace.sent == [Messages(config, client.call, d)[0]];
    } else {
      assert c == d;
    }
  }

  lemma BeginKeepsTraced(config: Config, state: State, k: nat, call: Call)
    requires Enabled(config, state, Begin(k, call))
    ensures var next := ApplyBegin(config, state, k, call);
            Traced(config, next.handled, next.clients[k], Some(Trace(call, |state.handled|, [])))
  {
    if call.EndCall? {
      var c := Completion([], []);
      assert FollowsScript(config, state.handled, Trace(call, |state.handled|, []), c);
      assert AtMessage(state.handled, Ready(call, First, |state.handled|), Trace(call, |state.handled|, []), c);
    }
  }

  /** A step that is not the caller's own leaves it at its message. */
  lemma OtherStep(config: Config, state: State, action: Action, k: nat)
    requires k < |state.clients| && Enabled(config, state, action)
    requires !(action.Begin? || action.Send? || action.Receive?) || action.client != k
    ensures var next := Apply(config, state, action);
            && |next.clients| == |state.clients| && state.handled <= next.handled
            && var client, now := state.clients[k], next.clients[k];
            now.Idle? || (!client.Idle? && client.call == now.call && client.since == now.since
                          && client.stage == now.stage && SentSoFar(client) == SentSoFar(now))
  {
  }

  lemma StepKeepsTraced(config: Config, state: State, action: Action, k: nat, trace: Option<Trace>)
    requires Enabled(config, state, action) && BrokerReplies.Sound(config, state)
    requires k < |state.clients| && Traced(config, state.handled, state.clients[k], trace)
    ensures var next := Apply(config, state, action);
            && |next.clients| == |state.clients|
            && Traced(config, next.handled, next.clients[k], Extended(config, state, action, k, trace))
  {
    if action.Begin? && action.client == k {
      BeginKeepsTraced(config, state, k, action.call);
    } else if action.Send? && action.client == k {
      SendKeepsTraced(config, state, k, trace);
    } else if action.Receive? && action.client == k {
      ReceiveKeepsTraced(config, state, k, trace);
    } else {
      OtherStep(config, state, action, k);
      var next := Apply(config, state, action);
      TracedStays(config, state.handled, next.handled, state.clients[k], next.clients[k], trace);
    }
  }

  lemma {:induction false} EveryRunIsTraced(config: Config, clients: nat, actions: seq<Action>, k: nat)
    requires Run(config, Start(config, clients), actions).Some? && k < clients
    ensures var state := Run(config, Start(config, clients), actions).value;
            |state.clients| == clients
            && Traced(config, state.handled, state.clients[k], TraceOf(config, clients, actions, k))
  {
    if actions != [] {
      var front, last := actions[..|actions| - 1], actions[|actions| - 1];
      EveryRunIsTraced(config, clients, front, k);
      BrokerReplies.EveryRunIsSound(config, clients, front);
      StepKeepsTraced(config, Run(config, Start(config, clients), front).value, last, k,
                      TraceOf(config, clients, front, k));
    }
  }

  predicate CommitsOffset(command: Command) {
    command.Coordinate? && command.request.OfGroup? && command.request.grouped.CommitOffset?
  }

  /** At every moment of every run, what a caller has sent to end a transaction is a beginning of the script: the end to
      the coordinator, then the resolutions, each to the shard of its partition and in the order of the partitions
      handed over during the call, then after a commit the offsets in the order they were enlisted. A caller that aborts
      commits no offset. */
  lemma {:induction false} SentFollowsScript(config: Config, clients: nat, actions: seq<Action>, k: nat)
    returns (c: Completion)
    requires Run(config, Start(config, clients), actions).Some? && k < clients
    requires var trace := TraceOf(config, clients, actions, k); trace.Some? && trace.value.call.EndCall?
    ensures var trace := TraceOf(config, clients, actions, k).value;
            && FollowsScript(config, Run(config, Start(config, clients), actions).value.handled, trace, c)
            && (!trace.call.commit ==> forall i :: 0 <= i < |trace.sent| ==> !CommitsOffset(trace.sent[i].command))
  {
    EveryRunIsTraced(config, clients, actions, k);
    var state, trace := Run(config, Start(config, clients), actions).value, TraceOf(config, clients, actions, k).value;
    c :| FollowsScript(config, state.handled, trace, c) && AtMessage(state.handled, state.clients[k], trace, c);
    forall i | 0 <= i < |trace.sent| && !trace.call.commit ensures !CommitsOffset(trace.sent[i].command) {
      assert trace.sent[i] == Messages(config, trace.call, c)[i];
    }
  }
}
