/** Transactions across shards: what is pending is always accounted for, and ending resolves all of it. */
module BrokerTransactions {
  import opened Records
  import opened Log
  import opened Transactions
  import opened Shards
  import opened PendingBatches
  import opened Broker

  // ---------------------------------------------------------------- who is busy with which transaction

  /** The transactional id a call acts for. */
  function TidOf(call: Call): Option<Bytes> {
    match call
    case CoordinateCall(OfTransaction(request)) => Some(request.tid)
    case ProduceTransactionalCall(tid, _, _, _) => Some(tid)
    case EndCall(tid, _, _) => Some(tid)
    case _ => None
  }

  function BusyWith(c: Client): Option<Bytes> {
    if c.Idle? then None else TidOf(c.call)
  }

  /** How far a caller has come with ending a transaction: what it has to resolve, and how many of those partitions
      have been resolved. `None` before the coordinator has ended the transaction. */
  function Progress(c: Client): Option<(Completion, nat)> {
    if c.Idle? || !c.call.EndCall? then None
    else
      match c.stage
      case First =>
        if c.Replied? && c.reply.Transacted? && c.reply.answer.Ok? && c.reply.answer.value.Completed?
        then Some((c.reply.answer.value.completion, 0)) else None
      case Append => None
      case Resolving(completion, index) => Some((completion, if c.Replied? then index + 1 else index))
      case Committing(completion, _) => Some((completion, |completion.partitions|))
  }

  /** Whether the coordinator has cleared a caller for its append. */
  predicate Cleared(c: Client) {
    && !c.Idle? && c.call.ProduceTransactionalCall?
    && ((c.stage.Append? && !c.Replied?)
        || (c.stage.First? && c.Replied? && c.reply == Transacted(Ok(Applied))))
  }

  predicate IsInit(call: Call) {
    call.CoordinateCall? && call.request.OfTransaction? && call.request.transactional.InitProducer?
  }

  // ---------------------------------------------------------------- the invariant

  function CoordinatorOf(nodes: seq<Node>): Coordinator
    requires |nodes| > 0
  {
    nodes[0].shard.transactions
  }

  /** The transaction is open for this identity with the partition enlisted. */
  predicate Enlisted(c: Coordinator, tid: Bytes, producer: ProducerIdentity, tp: TopicPartition) {
    && tid in c.transactions
    && c.transactions[tid].identity == producer
    && c.transactions[tid].status.Ongoing?
    && tp in c.transactions[tid].partitions
  }

  /** The coordinator knows the id under this producer id. */
  predicate Known(c: Coordinator, tid: Bytes, id: int) {
    tid in c.transactions && c.transactions[tid].identity.id == id
  }

  predicate AppendQueued(mailbox: seq<Message>, tp: TopicPartition, id: int) {
    exists i :: 0 <= i < |mailbox| && IsAppend(mailbox[i].command, tp, id)
  }

  /** Something of producer `id` for the partition is undecided: a pending batch, or an append on its way. */
  predicate Loose(config: Config, node: Node, tp: TopicPartition, id: int) {
    PendingAt(config.settings, node.shard, tp, id) || AppendQueued(node.mailbox, tp, id)
  }

  /** Of producer `id`, only partitions not resolved yet may have anything undecided. */
  ghost predicate LooseOnlyIn(config: Config, nodes: seq<Node>, id: int, left: seq<TopicPartition>) {
    forall s, tp :: 0 <= s < |nodes| && Loose(config, nodes[s], tp, id) ==> tp in left
  }

  /** Everything of producer `id` for the partition has this outcome, and nothing more is on its way. */
  predicate Decided(config: Config, node: Node, tp: TopicPartition, id: int, outcome: BatchState) {
    ResolvedAt(config.settings, node.shard, tp, id, outcome) && !AppendQueued(node.mailbox, tp, id)
  }

  /** Everything of producer `id` on the shard of `p` has this outcome. */
  ghost predicate SettledWith(config: Config, nodes: seq<Node>, id: int, p: TopicPartition, outcome: BatchState) {
    forall tp :: config.place(tp) == config.place(p) && config.place(tp) < |nodes| ==>
      Decided(config, nodes[config.place(tp)], tp, id, outcome)
  }

  ghost predicate EndingSound(config: Config, nodes: seq<Node>, call: Call, completion: Completion, n: nat)
    requires call.EndCall? && |nodes| > 0
  {
    && n <= |completion.partitions|
    && Known(CoordinatorOf(nodes), call.tid, call.producer.id)
    && LooseOnlyIn(config, nodes, call.producer.id, completion.partitions[n..])
    && (forall i :: 0 <= i < n ==>
          SettledWith(config, nodes, call.producer.id, completion.partitions[i], Log.Outcome(call.commit)))
  }

  /** What an initialisation under way may not interrupt: nothing of its producer is undecided. */
  ghost predicate InitSound(config: Config, nodes: seq<Node>, tid: Bytes)
    requires |nodes| > 0
  {
    var c := CoordinatorOf(nodes);
    tid in c.transactions ==> LooseOnlyIn(config, nodes, c.transactions[tid].identity.id, [])
  }

  /** What is true of one caller: a cleared append is enlisted, an initialisation interrupts nothing, an end in
      progress has left nothing undecided behind. */
  ghost predicate ClientGood(config: Config, nodes: seq<Node>, c: Client)
    requires |nodes| > 0
  {
    && (!c.Idle? ==> IsApiCall(c.call) && StageFits(c.call, c.stage))
    && (Cleared(c) ==> Enlisted(CoordinatorOf(nodes), c.call.tid, c.call.producer, c.call.tp))
    && (!c.Idle? && IsInit(c.call) && !c.Replied? ==> InitSound(config, nodes, c.call.request.transactional.tid))
    && (Progress(c).Some? ==> EndingSound(config, nodes, c.call, Progress(c).value.0, Progress(c).value.1))
  }

  predicate Ending(c: Client, tid: Bytes) {
    Progress(c).Some? && c.call.tid == tid
  }

  predicate SomeoneEnds(clients: seq<Client>, tid: Bytes) {
    exists k :: 0 <= k < |clients| && Ending(clients[k], tid)
  }

  /** What is undecided belongs to an open transaction that enlisted its partition, or to one being resolved. */
  predicate AccountedBy(clients: seq<Client>, c: Coordinator, tid: Bytes, tp: TopicPartition, id: int) {
    && Known(c, tid, id)
    && ((c.transactions[tid].status.Ongoing? && tp in c.transactions[tid].partitions) || SomeoneEnds(clients, tid))
  }

  ghost predicate Accounted(clients: seq<Client>, c: Coordinator, tp: TopicPartition, id: int) {
    exists tid :: AccountedBy(clients, c, tid, tp, id)
  }

  ghost predicate AllAccounted(config: Config, nodes: seq<Node>, clients: seq<Client>)
    requires |nodes| > 0
  {
    forall s, tp, id :: 0 <= s < |nodes| && Loose(config, nodes[s], tp, id) ==>
      Accounted(clients, CoordinatorOf(nodes), tp, id)
  }

  /** Everything the invariant says about callers and what is undecided. */
  ghost predicate CallersGood(config: Config, nodes: seq<Node>, clients: seq<Client>)
    requires |nodes| > 0
  {
    && (forall k :: 0 <= k < |clients| ==> ClientGood(config, nodes, clients[k]))
    && AllAccounted(config, nodes, clients)
  }

  /** At most one caller is busy with a transactional id. */
  predicate Exclusive(clients: seq<Client>) {
    forall j, k :: 0 <= j < k < |clients| && BusyWith(clients[j]).Some? ==> BusyWith(clients[j]) != BusyWith(clients[k])
  }

  predicate IsRequest(command: Command) {
    command.Coordinate? && command.request.OfTransaction?
  }

  /** Commands nobody gives up on: they open, close and resolve transactions. */
  predicate IsBinding(command: Command) {
    || command.ResolveTransaction?
    || (IsRequest(command)
        && (command.request.transactional.InitProducer? || command.request.transactional.EndTransaction?))
  }

  /** A message is the one its caller waits for, and is in the right mailbox. */
  predicate Owned(config: Config, clients: seq<Client>, s: nat, m: Message) {
    && m.client < |clients|
    && clients[m.client].Waiting?
    && var c := clients[m.client];
    && c.channel == m.channel
    && StageFits(c.call, c.stage)
    && CommandOf(c.call, c.stage) == m.command
    && TargetOf(config, c.call, c.stage) == s
  }

  /** No append of a producer waits behind a resolution of it. */
  predicate NoAppendBehind(a: Message, b: Message) {
    a.command.ResolveTransaction? && b.command.ProduceTransactional? ==> a.command.id != b.command.id
  }

  predicate MailboxOwned(config: Config, clients: seq<Client>, s: nat, mailbox: seq<Message>, nextChannel: nat) {
    && (forall i :: 0 <= i < |mailbox| ==> mailbox[i].channel < nextChannel)
    && (forall i, j :: 0 <= i < j < |mailbox| ==> mailbox[i].channel < mailbox[j].channel)
    && (forall i, j :: 0 <= i < j < |mailbox| ==> NoAppendBehind(mailbox[i], mailbox[j]))
    && (forall i :: 0 <= i < |mailbox| && IsBinding(mailbox[i].command) ==> Owned(config, clients, s, mailbox[i]))
  }

  ghost predicate Good(config: Config, state: State) {
    && |state.nodes| == config.shardCount && |state.nodes| > 0
    && CallersGood(config, state.nodes, state.clients)
    && Exclusive(state.clients)
    && (forall s :: 0 <= s < |state.nodes| ==>
          MailboxOwned(config, state.clients, s, state.nodes[s].mailbox, state.nextChannel))
  }

  // ---------------------------------------------------------------- the discipline the result is about

  /** A call that may not be given up: one that initialises or ends. */
  predicate IsBindingCall(call: Call) {
    call.EndCall? || IsInit(call)
  }

  /** One caller at a time per transactional id, no initialisation while its transaction is open, no giving up on
      initialising or ending. Callers may give up on enlisting, on validating and on appending. */
  predicate Disciplined(state: State, action: Action)
    requires |state.nodes| > 0
  {
    match action
    case Begin(_, call) =>
      && (TidOf(call).Some? ==> forall k :: 0 <= k < |state.clients| ==> BusyWith(state.clients[k]) != TidOf(call))
      && (IsInit(call) ==>
            var tid := call.request.transactional.tid;
            tid in CoordinatorOf(state.nodes).transactions ==>
              !CoordinatorOf(state.nodes).transactions[tid].status.Ongoing?)
    case GiveUpSending(k) =>
      k < |state.clients| && !state.clients[k].Idle? ==> !IsBindingCall(state.clients[k].call)
    case GiveUpWaiting(k) =>
      k < |state.clients| && !state.clients[k].Idle? ==> !IsBindingCall(state.clients[k].call)
    case _ => true
  }

  // ---------------------------------------------------------------- what callers lean on

  /** A transaction as a caller of its id sees it has not been closed: same identity, no fewer partitions. */
  predicate GrowsFor(c: Coordinator, next: Coordinator, tid: Bytes) {
    && (tid in next.transactions ==> tid in c.transactions)
    && (tid in c.transactions ==>
          && tid in next.transactions
          && next.transactions[tid].identity == c.transactions[tid].identity
          && (c.transactions[tid].status.Ongoing? ==>
                && next.transactions[tid].status.Ongoing?
                && c.transactions[tid].partitions <= next.transactions[tid].partitions))
  }

  /** For producer `id` nothing new is undecided and nothing decided is touched. */
  ghost predicate Quiet(config: Config, nodes: seq<Node>, next: seq<Node>, id: int) {
    && |next| == |nodes|
    && (forall s, tp :: 0 <= s < |nodes| && Loose(config, next[s], tp, id) ==> Loose(config, nodes[s], tp, id))
    && (forall tp, outcome ::
          config.place(tp) < |nodes| && Decided(config, nodes[config.place(tp)], tp, id, outcome) ==>
          Decided(config, next[config.place(tp)], tp, id, outcome))
  }

  lemma LooseIsLeft(config: Config, nodes: seq<Node>, id: int, left: seq<TopicPartition>, s: nat, tp: TopicPartition)
    requires LooseOnlyIn(config, nodes, id, left) && s < |nodes| && Loose(config, nodes[s], tp, id)
    ensures tp in left
  {
  }

  lemma LooseOnlyInKeeps(config: Config, nodes: seq<Node>, next: seq<Node>, id: int, left: seq<TopicPartition>)
    requires LooseOnlyIn(config, nodes, id, left) && Quiet(config, nodes, next, id)
    ensures LooseOnlyIn(config, next, id, left)
  {
    forall s, tp | 0 <= s < |next| && Loose(config, next[s], tp, id) ensures tp in left {
      LooseIsLeft(config, nodes, id, left, s, tp);
    }
  }

  lemma SettledWithKeeps(config: Config, nodes: seq<Node>, next: seq<Node>, id: int, p: TopicPartition,
                         outcome: BatchState)
    requires SettledWith(config, nodes, id, p, outcome) && Quiet(config, nodes, next, id)
    ensures SettledWith(config, next, id, p, outcome)
  {
    forall tp | config.place(tp) == config.place(p) && config.place(tp) < |next|
      ensures Decided(config, next[config.place(tp)], tp, id, outcome)
    {
      assert Decided(config, nodes[config.place(tp)], tp, id, outcome);
    }
  }

  /** The producer a caller's part of the invariant is about. */
  ghost predicate QuietFor(config: Config, nodes: seq<Node>, next: seq<Node>, c: Client)
    requires |nodes| > 0
  {
    && (Progress(c).Some? ==> Quiet(config, nodes, next, c.call.producer.id))
    && (!c.Idle? && IsInit(c.call) && !c.Replied? ==>
          var tid, co := c.call.request.transactional.tid, CoordinatorOf(nodes);
          tid in co.transactions ==> Quiet(config, nodes, next, co.transactions[tid].identity.id))
  }

  lemma EndingKeeps(config: Config, nodes: seq<Node>, next: seq<Node>, c: Client)
    requires |nodes| > 0 && |next| > 0 && ClientGood(config, nodes, c) && Progress(c).Some?
    requires GrowsFor(CoordinatorOf(nodes), CoordinatorOf(next), c.call.tid)
    requires Quiet(config, nodes, next, c.call.producer.id)
    ensures EndingSound(config, next, c.call, Progress(c).value.0, Progress(c).value.1)
  {
    var completion, n, id := Progress(c).value.0, Progress(c).value.1, c.call.producer.id;
    LooseOnlyInKeeps(config, nodes, next, id, completion.partitions[n..]);
    forall i | 0 <= i < n
      ensures SettledWith(config, next, id, completion.partitions[i], Log.Outcome(c.call.commit))
    {
      SettledWithKeeps(config, nodes, next, id, completion.partitions[i], Log.Outcome(c.call.commit));
    }
  }

  lemma ClientKeeps(config: Config, nodes: seq<Node>, next: seq<Node>, c: Client)
    requires |nodes| > 0 && |next| > 0 && ClientGood(config, nodes, c) && QuietFor(config, nodes, next, c)
    requires BusyWith(c).Some? ==> GrowsFor(CoordinatorOf(nodes), CoordinatorOf(next), BusyWith(c).value)
    ensures ClientGood(config, next, c)
  {
    if Progress(c).Some? {
      EndingKeeps(config, nodes, next, c);
    }
    if !c.Idle? && IsInit(c.call) && !c.Replied? {
      var tid := c.call.request.transactional.tid;
      if tid in CoordinatorOf(nodes).transactions {
        LooseOnlyInKeeps(config, nodes, next, CoordinatorOf(nodes).transactions[tid].identity.id, []);
      }
    }
  }

  // ---------------------------------------------------------------- accounting

  /** A caller that keeps its call and is no less far with ending it. */
  predicate GoesOn(before: Client, after: Client) {
    Progress(before).Some? ==> Progress(after).Some? && after.call == before.call
  }

  lemma StillEnds(clients: seq<Client>, k: nat, c: Client, tid: Bytes)
    requires k < |clients| && GoesOn(clients[k], c) && SomeoneEnds(clients, tid)
    ensures SomeoneEnds(clients[k := c], tid)
  {
    var j :| 0 <= j < |clients| && Ending(clients[j], tid);
    assert Ending(clients[k := c][j], tid);
  }

  /** One caller moves on while no transaction is closed and nothing new is undecided. */
  lemma StillAccounted(config: Config, nodes: seq<Node>, next: seq<Node>, clients: seq<Client>, k: nat, c: Client)
    requires |nodes| > 0 && AllAccounted(config, nodes, clients) && k < |clients| && GoesOn(clients[k], c)
    requires forall id :: Quiet(config, nodes, next, id)
    requires |next| > 0 && forall tid :: GrowsFor(CoordinatorOf(nodes), CoordinatorOf(next), tid)
    ensures AllAccounted(config, next, clients[k := c])
  {
    var before, after := CoordinatorOf(nodes), CoordinatorOf(next);
    forall s, tp, id | 0 <= s < |next| && Loose(config, next[s], tp, id)
      ensures Accounted(clients[k := c], after, tp, id)
    {
      assert Quiet(config, nodes, next, id);
      assert Accounted(clients, before, tp, id);
      var tid :| AccountedBy(clients, before, tid, tp, id);
      assert GrowsFor(before, after, tid);
      if SomeoneEnds(clients, tid) {
        StillEnds(clients, k, c, tid);
      }
      assert AccountedBy(clients[k := c], after, tid, tp, id);
    }
  }

  /** A step that closes nothing and leaves nothing new undecided keeps every caller good. */
  lemma CalmStep(config: Config, nodes: seq<Node>, next: seq<Node>, clients: seq<Client>, k: nat, c: Client)
    requires |nodes| > 0 && CallersGood(config, nodes, clients) && k < |clients| && GoesOn(clients[k], c)
    requires forall id :: Quiet(config, nodes, next, id)
    requires |next| > 0 && forall tid :: GrowsFor(CoordinatorOf(nodes), CoordinatorOf(next), tid)
    requires ClientGood(config, next, c)
    ensures CallersGood(config, next, clients[k := c])
  {
    var after := clients[k := c];
    forall j | 0 <= j < |after| ensures ClientGood(config, next, after[j]) {
      if j != k {
        assert ClientGood(config, nodes, clients[j]);
        ClientKeeps(config, nodes, next, clients[j]);
      }
    }
    StillAccounted(config, nodes, next, clients, k, c);
  }
}
