/** Short walks through a broker with one shard, for showing that a state is reached. */
module Walks {
  import opened Records
  import opened Shards
  import opened Broker
  import opened BrokerRuns

  /** One shard that serves a single partition, without a byte budget. */
  function OneShard(tp: TopicPartition): Config {
    Config(Settings(map[tp.0 := tp.1 + 1], None), 1, 2, (p: TopicPartition) => 0)
  }

  /** A reachable state in which the only shard runs and its mailbox is empty. */
  ghost predicate Quiescent(config: Config, state: State, shard: Shard) {
    && Reachable(config, state)
    && config.capacity >= 2
    && (forall tp :: config.place(tp) == 0)
    && state.nodes == [Node(shard, [], true)]
  }

  lemma {:induction false} Starts(config: Config, clients: nat) returns (state: State)
    requires config.shardCount == 1 && config.capacity >= 2 && forall tp :: config.place(tp) == 0
    ensures Quiescent(config, state, NewShard) && state.clients == seq(clients, _ => Idle)
    ensures state.handled == [] && state.finished == []
  {
    state := Start(config, clients);
    assert Run(config, state, []) == Some(state);
    assert Reaches(config, Start(config, clients), state);
  }

  /** A caller begins a call. */
  lemma {:induction false} Begins(config: Config, state: State, shard: Shard, k: nat, call: Call) returns (next: State)
    requires Quiescent(config, state, shard) && k < |state.clients| && state.clients[k].Idle? && IsApiCall(call)
    requires call.EndCall? || call.CoordinateCall? || call.ProduceTransactionalCall?
    ensures Quiescent(config, next, shard)
    ensures next.clients == state.clients[k := Ready(call, First, |state.handled|)]
    ensures next.handled == state.handled && next.finished == state.finished
  {
    next := Apply(config, state, Begin(k, call));
    ReachableNext(config, state, Begin(k, call));
  }

  function ReplyTo(config: Config, shard: Shard, c: Client): Reply
    requires !c.Idle? && StageFits(c.call, c.stage)
  {
    Handle(config.settings, shard, CommandOf(c.call, c.stage)).1
  }

  function ShardAfter(config: Config, shard: Shard, c: Client): Shard
    requires !c.Idle? && StageFits(c.call, c.stage)
  {
    Handle(config.settings, shard, CommandOf(c.call, c.stage)).0
  }

  lemma TargetIsZero(config: Config, call: Call, stage: Stage)
    requires StageFits(call, stage) && forall tp :: config.place(tp) == 0
    ensures TargetOf(config, call, stage) == 0 && !CommandOf(call, stage).Shutdown?
  {
  }

  /** A caller puts its message into the mailbox. */
  lemma {:induction false} Sends(config: Config, state: State, shard: Shard, k: nat) returns (next: State)
    requires Quiescent(config, state, shard) && k < |state.clients| && state.clients[k].Ready?
    requires StageFits(state.clients[k].call, state.clients[k].stage)
    ensures var c := state.clients[k];
            && Reachable(config, next)
            && next.nodes == [Node(shard, [Message(k, state.nextChannel, CommandOf(c.call, c.stage))], true)]
            && next.clients == state.clients[k := Waiting(c.call, c.stage, c.since, state.nextChannel)]
    ensures next.handled == state.handled && next.finished == state.finished
  {
    var c := state.clients[k];
    TargetIsZero(config, c.call, c.stage);
    var m := Message(k, state.nextChannel, CommandOf(c.call, c.stage));
    assert [] + [m] == [m];
    next := ApplySend(config, state, k);
    ReachableNext(config, state, Send(k));
  }

  /** The shard carries out the only message in its mailbox. */
  lemma {:induction false} Handles(config: Config, state: State, shard: Shard, m: Message) returns (next: State)
    requires Reachable(config, state) && config.capacity >= 2 && forall tp :: config.place(tp) == 0
    requires state.nodes == [Node(shard, [m], true)] && !m.command.Shutdown?
    ensures Reaches(config, state, next)
    ensures var r := Handle(config.settings, shard, m.command);
            && Quiescent(config, next, r.0)
            && next.clients == Deliver(state, m, r.1)
            && next.handled == state.handled + [Handled(0, m.command, r.1)]
            && next.finished == state.finished
  {
    assert [m][1..] == [];
    next := ApplyHandling(config, state, 0);
    ReachableNext(config, state, Handling(0));
  }

  /** A caller sends its message and the shard answers it. */
  lemma {:induction false} Asks(config: Config, state: State, shard: Shard, k: nat) returns (next: State)
    requires Quiescent(config, state, shard) && k < |state.clients| && state.clients[k].Ready?
    requires StageFits(state.clients[k].call, state.clients[k].stage)
    ensures var c := state.clients[k];
            && Quiescent(config, next, ShardAfter(config, shard, c))
            && next.clients
               == state.clients[k := Replied(c.call, c.stage, c.since, |state.handled|, ReplyTo(config, shard, c))]
            && next.handled == state.handled + [Handled(0, CommandOf(c.call, c.stage), ReplyTo(config, shard, c))]
            && next.finished == state.finished
  {
    var c := state.clients[k];
    TargetIsZero(config, c.call, c.stage);
    var sent := Sends(config, state, shard, k);
    next := Handles(config, sent, shard, Message(k, state.nextChannel, CommandOf(c.call, c.stage)));
  }

  /** A caller takes its reply and goes on with its call. */
  lemma {:induction false} Proceeds(config: Config, state: State, shard: Shard, k: nat, stage: Stage)
    returns (next: State)
    requires Quiescent(config, state, shard) && k < |state.clients| && state.clients[k].Replied?
    requires StageFits(state.clients[k].call, state.clients[k].stage)
    requires var c := state.clients[k]; AfterReply(config, c.call, c.stage, c.reply) == Continue(stage)
    ensures Quiescent(config, next, shard)
    ensures next.clients == state.clients[k := Ready(state.clients[k].call, stage, state.clients[k].since)]
    ensures next.handled == state.handled && next.finished == state.finished
  {
    next := Apply(config, state, Receive(k));
    ReachableNext(config, state, Receive(k));
  }

  /** A caller takes its reply and returns. */
  lemma {:induction false} Returns(config: Config, state: State, shard: Shard, k: nat, outcome: Outcome)
    returns (next: State)
    requires Quiescent(config, state, shard) && k < |state.clients| && state.clients[k].Replied?
    requires StageFits(state.clients[k].call, state.clients[k].stage)
    requires var c := state.clients[k]; AfterReply(config, c.call, c.stage, c.reply) == Finish(outcome)
    ensures Quiescent(config, next, shard) && Reaches(config, state, next)
    ensures next.clients == state.clients[k := Idle] && next.handled == state.handled
    ensures var c := state.clients[k];
            next.finished
            == state.finished + [Finished(c.call, c.since, outcome, Some(c.position), |state.handled|)]
  {
    next := Apply(config, state, Receive(k));
    ReachableNext(config, state, Receive(k));
  }

  /** A caller gives up on the reply it waits for. */
  lemma {:induction false} Abandons(config: Config, state: State, k: nat) returns (next: State)
    requires Reachable(config, state) && k < |state.clients| && state.clients[k].Waiting?
    ensures Reachable(config, next) && next.nodes == state.nodes && next.handled == state.handled
    ensures next.clients == state.clients[k := Idle]
    ensures var c := state.clients[k];
            next.finished == state.finished + [Finished(c.call, c.since, ReplyTimeout, None, |state.handled|)]
  {
    next := Apply(config, state, GiveUpWaiting(k));
    ReachableNext(config, state, GiveUpWaiting(k));
  }

  /** A coordination call from beginning to end. */
  lemma {:induction false} Coordinates(config: Config, state: State, shard: Shard, k: nat, request: CoordinationRequest)
    returns (next: State)
    requires Quiescent(config, state, shard) && k < |state.clients| && state.clients[k].Idle?
    requires IsApiCall(CoordinateCall(request))
    ensures Quiescent(config, next, HandleCoordination(shard, request).0)
    ensures next.clients == state.clients
  {
    var call := CoordinateCall(request);
    var begun := Begins(config, state, shard, k, call);
    var asked := Asks(config, begun, shard, k);
    var answer := AfterReply(config, call, First, HandleCoordination(shard, request).1);
    next := Returns(config, asked, HandleCoordination(shard, request).0, k, answer.outcome);
    assert next.clients == state.clients;
  }
}
