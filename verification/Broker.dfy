/** The broker as a state machine: callers, bounded mailboxes and shards, stepping in any order. */
module Broker {
  import opened Records
  import opened Transactions
  import opened Groups
  import opened Shards

  /** The placement hash is any function into the shards. */
  datatype Config = Config(settings: Settings, shardCount: nat, capacity: nat, place: TopicPartition -> nat)

  ghost predicate ValidConfig(config: Config) {
    && config.shardCount > 0
    && config.capacity >= 2
    && forall tp :: config.place(tp) < config.shardCount
  }

  // ---------------------------------------------------------------- what a caller runs

  /** A call into the broker. Coordination calls that take one message share a constructor. */
  datatype Call =
    | ProduceCall(tp: TopicPartition, records: seq<RecordData>)
    | FetchCall(tp: TopicPartition, offset: int, maxRecords: nat, maxBytes: nat, readCommitted: bool)
    | ListOffsetCall(tp: TopicPartition, earliest: bool)
    | CoordinateCall(request: CoordinationRequest)
    | ProduceTransactionalCall(tid: Bytes, producer: ProducerIdentity, tp: TopicPartition, records: seq<RecordData>)
    | EndCall(tid: Bytes, producer: ProducerIdentity, commit: bool)

  /** Which message of a call is due: the first, the append behind a validation, the resolution of the `index`-th
      partition, or the commit of the `index`-th offset. */
  datatype Stage =
    | First
    | Append
    | Resolving(completion: Completion, index: nat)
    | Committing(completion: Completion, index: nat)

  datatype Outcome =
    | Succeeded(reply: Reply)
    | Ended
    | Rejected(logError: LogError)
    | Refused(coordinationError: CoordinationError)
    | UnexpectedReply
    | MailboxUnavailable
    | ReplyTimeout

  datatype Next = Continue(stage: Stage) | Finish(outcome: Outcome)

  predicate StageFits(call: Call, stage: Stage) {
    match stage
    case First => true
    case Append => call.ProduceTransactionalCall?
    case Resolving(c, i) => call.EndCall? && i < |c.partitions|
    case Committing(c, i) => call.EndCall? && call.commit && i < |c.offsets|
  }

  function CommandOf(call: Call, stage: Stage): Command
    requires StageFits(call, stage)
  {
    match stage
    case First =>
      (match call
       case ProduceCall(tp, records) => Produce(tp, records)
       case FetchCall(tp, offset, maxRecords, maxBytes, readCommitted) =>
         Command.Fetch(tp, offset, maxRecords, maxBytes, readCommitted)
       case ListOffsetCall(tp, earliest) => ListOffset(tp, earliest)
       case CoordinateCall(request) => Coordinate(request)
       case ProduceTransactionalCall(tid, producer, tp, _) =>
         Coordinate(OfTransaction(ValidateProduce(tid, producer, tp)))
       case EndCall(tid, producer, commit) => Coordinate(OfTransaction(EndTransaction(tid, producer, commit))))
    case Append => ProduceTransactional(call.tp, call.records, call.producer.id)
    case Resolving(_, _) => ResolveTransaction(call.producer.id, call.commit)
    case Committing(c, i) =>
      var o := c.offsets[i];
      Coordinate(OfGroup(CommitOffset(o.groupId, o.generation, (o.topic, o.partition), o.offset)))
  }

  /** Partition commands go to the shard the hash names, coordination goes to shard zero. */
  function TargetOf(config: Config, call: Call, stage: Stage): nat
    requires StageFits(call, stage)
  {
    match stage
    case First => if call.ProduceCall? || call.FetchCall? || call.ListOffsetCall? then config.place(call.tp) else 0
    case Append => config.place(call.tp)
    case Resolving(c, i) => config.place(c.partitions[i])
    case Committing(_, _) => 0
  }

  function CommitNext(c: Completion, i: nat): Next {
    if i < |c.offsets| then Continue(Committing(c, i)) else Finish(Ended)
  }

  function ResolveNext(c: Completion, i: nat, commit: bool): Next {
    if i < |c.partitions| then Continue(Resolving(c, i))
    else if commit then CommitNext(c, 0)
    else Finish(Ended)
  }

  /** What a caller makes of the reply to an append, a fetch or an offset query. */
  function LogOutcome(expected: bool, reply: Reply): Next {
    if expected then Finish(Succeeded(reply))
    else if reply.Failed? then Finish(Rejected(reply.error))
    else Finish(UnexpectedReply)
  }

  predicate ExpectedResponse(request: Request, response: Response) {
    match request
    case InitProducer(_) => response.Producer?
    case EndTransaction(_, _, _) => response.Completed?
    case _ => response.Applied?
  }

  predicate ExpectedGroupResponse(request: GroupRequest, response: GroupResponse) {
    match request
    case Join(_, _, _, _) => response.Joined?
    case FetchOffset(_, _) => response.Fetched?
    case _ => response.Done?
  }

  /** What a caller makes of the reply to a coordination request; `success` says how a call goes on. */
  function CoordinationOutcome(request: CoordinationRequest, reply: Reply, success: Next): Next {
    match request
    case OfTransaction(r) =>
      if !reply.Transacted? then Finish(UnexpectedReply)
      else if reply.answer.Err? then Finish(Refused(reply.answer.error))
      else if ExpectedResponse(r, reply.answer.value) then success
      else Finish(UnexpectedReply)
    case OfGroup(r) =>
      if !reply.Grouped? then Finish(UnexpectedReply)
      else if reply.groupAnswer.Err? then Finish(Refused(reply.groupAnswer.error))
      else if ExpectedGroupResponse(r, reply.groupAnswer.value) then success
      else Finish(UnexpectedReply)
  }

  function AppendNext(config: Config, tp: TopicPartition): Next {
    match CheckPartition(config.settings.catalog, tp)
    case Some(error) => Finish(Rejected(error))
    case None => Continue(Append)
  }

  /** The completion a successful end brings back. */
  function EndNext(reply: Reply, commit: bool): Next {
    if reply.Transacted? && reply.answer.Ok? && reply.answer.value.Completed?
    then ResolveNext(reply.answer.value.completion, 0, commit) else Finish(UnexpectedReply)
  }

  function AfterReply(config: Config, call: Call, stage: Stage, reply: Reply): Next
    requires StageFits(call, stage)
  {
    match stage
    case First =>
      (match call
       case ProduceCall(_, _) => LogOutcome(reply.Produced?, reply)
       case FetchCall(_, _, _, _, _) => LogOutcome(reply.Window?, reply)
       case ListOffsetCall(_, _) => LogOutcome(reply.OffsetIs?, reply)
       case CoordinateCall(request) => CoordinationOutcome(request, reply, Finish(Succeeded(reply)))
       case ProduceTransactionalCall(_, _, tp, _) =>
         CoordinationOutcome(CommandOf(call, stage).request, reply, AppendNext(config, tp))
       case EndCall(_, _, commit) => CoordinationOutcome(CommandOf(call, stage).request, reply, EndNext(reply, commit)))
    case Append => LogOutcome(reply.Produced?, reply)
    case Resolving(c, i) => if reply.Resolved? then ResolveNext(c, i + 1, call.commit) else Finish(UnexpectedReply)
    case Committing(c, i) => CoordinationOutcome(CommandOf(call, stage).request, reply, CommitNext(c, i + 1))
  }

  // ---------------------------------------------------------------- the whole broker

  /** A caller is idle, about to send, waiting on the reply channel of one message, or has its reply. `since` is how
      many commands had been handled when the call began, `position` is where the answered command stands. */
  datatype Client =
    | Idle
    | Ready(call: Call, stage: Stage, since: nat)
    | Waiting(call: Call, stage: Stage, since: nat, channel: nat)
    | Replied(call: Call, stage: Stage, since: nat, position: nat, reply: Reply)

  datatype Message = Message(client: nat, channel: nat, command: Command)

  datatype Node = Node(shard: Shard, mailbox: seq<Message>, running: bool)

  /** A command that some shard has carried out. */
  datatype Handled = Handled(at: nat, command: Command, reply: Reply)

  /** A call that has returned, `until` being how many commands had been handled by then. */
  datatype Finished = Finished(call: Call, since: nat, outcome: Outcome, position: Option<nat>, until: nat)

  datatype State = State(
    nodes: seq<Node>,
    clients: seq<Client>,
    nextChannel: nat,
    handled: seq<Handled>,
    finished: seq<Finished>
  )

  datatype Action =
    | Begin(client: nat, call: Call)
    | Send(client: nat)
    | GiveUpSending(client: nat)
    | Handling(node: nat)
    | Receive(client: nat)
    | GiveUpWaiting(client: nat)
    | RequestShutdown(node: nat)

  function Start(config: Config, clients: nat): State {
    State(seq(config.shardCount, _ => Node(NewShard, [], true)), seq(clients, _ => Idle), 0, [], [])
  }

  /** Ending a transaction is only reached through the call that also resolves it. */
  predicate IsApiCall(call: Call) {
    call.CoordinateCall? && call.request.OfTransaction? ==> !call.request.transactional.EndTransaction?
  }

  predicate Enabled(config: Config, state: State, action: Action) {
    match action
    case Begin(k, call) => k < |state.clients| && state.clients[k].Idle? && IsApiCall(call)
    case Send(k) =>
      && k < |state.clients| && state.clients[k].Ready?
      && var c := state.clients[k];
      && StageFits(c.call, c.stage)
      && TargetOf(config, c.call, c.stage) < |state.nodes|
      && |state.nodes[TargetOf(config, c.call, c.stage)].mailbox| < config.capacity
    case GiveUpSending(k) => k < |state.clients| && state.clients[k].Ready?
    case Handling(s) => s < |state.nodes| && state.nodes[s].running && state.nodes[s].mailbox != []
    case Receive(k) =>
      k < |state.clients| && state.clients[k].Replied? && StageFits(state.clients[k].call, state.clients[k].stage)
    case GiveUpWaiting(k) => k < |state.clients| && (state.clients[k].Waiting? || state.clients[k].Replied?)
    case RequestShutdown(s) => s < |state.nodes| && |state.nodes[s].mailbox| < config.capacity
  }

  function Finishing(state: State, k: nat, outcome: Outcome, position: Option<nat>): State
    requires k < |state.clients| && !state.clients[k].Idle?
  {
    var c := state.clients[k];
    state.(clients := state.clients[k := Idle],
           finished := state.finished + [Finished(c.call, c.since, outcome, position, |state.handled|)])
  }

  function ApplyBegin(config: Config, state: State, k: nat, call: Call): State
    requires k < |state.clients| && state.clients[k].Idle?
  {
    var since := |state.handled|;
    var refused := if call.ProduceCall? || call.FetchCall? || call.ListOffsetCall?
      then CheckPartition(config.settings.catalog, call.tp) else None;
    match refused
    case Some(error) => state.(finished := state.finished + [Finished(call, since, Rejected(error), None, since)])
    case None => state.(clients := state.clients[k := Ready(call, First, since)])
  }

  function Enqueue(state: State, s: nat, message: Message): State
    requires s < |state.nodes|
  {
    var node := state.nodes[s];
    state.(nodes := state.nodes[s := node.(mailbox := node.mailbox + [message])], nextChannel := state.nextChannel + 1)
  }

  function ApplySend(config: Config, state: State, k: nat): State
    requires Enabled(config, state, Send(k))
  {
    var c := state.clients[k];
    var message := Message(k, state.nextChannel, CommandOf(c.call, c.stage));
    Enqueue(state, TargetOf(config, c.call, c.stage), message)
      .(clients := state.clients[k := Waiting(c.call, c.stage, c.since, state.nextChannel)])
  }

  /** Whether somebody still waits on the channel a message carries. */
  predicate Awaited(state: State, message: Message) {
    && message.client < |state.clients|
    && state.clients[message.client].Waiting?
    && state.clients[message.client].channel == message.channel
  }

  /** The clients after a reply has been sent; a reply nobody waits for is dropped. */
  function Deliver(state: State, message: Message, reply: Reply): seq<Client> {
    if Awaited(state, message) then
      var c := state.clients[message.client];
      state.clients[message.client := Replied(c.call, c.stage, c.since, |state.handled|, reply)]
    else state.clients
  }

  function ApplyHandling(config: Config, state: State, s: nat): State
    requires Enabled(config, state, Handling(s))
  {
    var node := state.nodes[s];
    var message := node.mailbox[0];
    var r := Handle(config.settings, node.shard, message.command);
    state.(nodes := state.nodes[s := Node(r.0, node.mailbox[1..], !message.command.Shutdown?)],
           clients := Deliver(state, message, r.1),
           handled := state.handled + [Handled(s, message.command, r.1)])
  }

  function ApplyReceive(config: Config, state: State, k: nat): State
    requires Enabled(config, state, Receive(k))
  {
    var c := state.clients[k];
    match AfterReply(config, c.call, c.stage, c.reply)
    case Continue(stage) => state.(clients := state.clients[k := Ready(c.call, stage, c.since)])
    case Finish(outcome) => Finishing(state, k, outcome, Some(c.position))
  }

  function Apply(config: Config, state: State, action: Action): State
    requires Enabled(config, state, action)
  {
    match action
    case Begin(k, call) => ApplyBegin(config, state, k, call)
    case Send(k) => ApplySend(config, state, k)
    case GiveUpSending(k) => Finishing(state, k, MailboxUnavailable, None)
    case Handling(s) => ApplyHandling(config, state, s)
    case Receive(k) => ApplyReceive(config, state, k)
    case GiveUpWaiting(k) => Finishing(state, k, ReplyTimeout, None)
    case RequestShutdown(s) => Enqueue(state, s, Message(|state.clients|, state.nextChannel, Shutdown))
  }

  /** Where a run ends; `None` when one of its actions cannot happen. */
  function Run(config: Config, state: State, actions: seq<Action>): Option<State> {
    if actions == [] then Some(state)
    else
      match Run(config, state, actions[..|actions| - 1])
      case None => None
      case Some(before) =>
        var action := actions[|actions| - 1];
        if Enabled(config, before, action) then Some(Apply(config, before, action)) else None
  }
}
