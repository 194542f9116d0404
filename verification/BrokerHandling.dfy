/** A shard handling a command keeps everything undecided accounted for. */
module BrokerHandling {
  import opened Records
  import opened Log
  import opened Transactions
  import opened TransactionHistory
  import opened Shards
  import opened PendingBatches
  import opened Broker
  import opened BrokerTransactions
  import opened BrokerCallers
  import BrokerOrder

  /** The nodes after node `s` has taken and handled the first message of its mailbox. */
  function Stepped(config: Config, nodes: seq<Node>, s: nat): seq<Node>
    requires s < |nodes| && nodes[s].mailbox != []
  {
    var node := nodes[s];
    var command := node.mailbox[0].command;
    nodes[s := Node(Handle(config.settings, node.shard, command).0, node.mailbox[1..], !command.Shutdown?)]
  }

  function Head(nodes: seq<Node>, s: nat): Command
    requires s < |nodes| && nodes[s].mailbox != []
  {
    nodes[s].mailbox[0].command
  }

  // ---------------------------------------------------------------- what a command leaves alone

  lemma QueuedFirst(mailbox: seq<Message>, tp: TopicPartition, id: int)
    requires mailbox != []
    ensures AppendQueued(mailbox, tp, id) <==>
      IsAppend(mailbox[0].command, tp, id) || AppendQueued(mailbox[1..], tp, id)
  {
    if AppendQueued(mailbox, tp, id) {
      var i :| 0 <= i < |mailbox| && IsAppend(mailbox[i].command, tp, id);
      if i > 0 {
        assert IsAppend(mailbox[1..][i - 1].command, tp, id);
      }
    }
    if AppendQueued(mailbox[1..], tp, id) {
      var i :| 0 <= i < |mailbox[1..]| && IsAppend(mailbox[1..][i].command, tp, id);
      assert IsAppend(mailbox[i + 1].command, tp, id);
    }
  }

  /** Handling makes nothing undecided that was not: an append that lands was on its way. */
  lemma NothingNewLoose(config: Config, nodes: seq<Node>, s: nat, t: nat, tp: TopicPartition, id: int)
    requires s < |nodes| && nodes[s].mailbox != [] && t < |nodes|
    requires Loose(config, Stepped(config, nodes, s)[t], tp, id)
    ensures Loose(config, nodes[t], tp, id)
  {
    QueuedFirst(nodes[s].mailbox, tp, id);
    HandleKeeps(config.settings, nodes[s].shard, Head(nodes, s), tp, id, Committed);
  }

  /** Only a resolution of a producer touches what is decided about it. */
  lemma HandleQuiet(config: Config, nodes: seq<Node>, s: nat, id: int)
    requires s < |nodes| && nodes[s].mailbox != [] && BrokerOrder.Routed(config, s, Head(nodes, s))
    requires !(Head(nodes, s).ResolveTransaction? && Head(nodes, s).id == id)
    ensures Quiet(config, nodes, Stepped(config, nodes, s), id)
  {
    var next := Stepped(config, nodes, s);
    forall t, tp | 0 <= t < |nodes| && Loose(config, next[t], tp, id) ensures Loose(config, nodes[t], tp, id) {
      NothingNewLoose(config, nodes, s, t, tp, id);
    }
    forall tp, outcome | config.place(tp) < |nodes| && Decided(config, nodes[config.place(tp)], tp, id, outcome)
      ensures Decided(config, next[config.place(tp)], tp, id, outcome)
    {
      QueuedFirst(nodes[s].mailbox, tp, id);
      HandleKeeps(config.settings, nodes[s].shard, Head(nodes, s), tp, id, outcome);
    }
  }

  lemma CoordinatorKeeps(config: Config, nodes: seq<Node>, s: nat)
    requires s < |nodes| && nodes[s].mailbox != [] && !IsRequest(Head(nodes, s))
    ensures CoordinatorOf(Stepped(config, nodes, s)) == CoordinatorOf(nodes)
  {
  }

  /** Requests other than initialising and ending close no transaction. */
  lemma EnlistingGrows(config: Config, nodes: seq<Node>, s: nat, tid: Bytes)
    requires s < |nodes| && nodes[s].mailbox != [] && IsRequest(Head(nodes, s)) && !IsBinding(Head(nodes, s))
    ensures GrowsFor(CoordinatorOf(nodes), CoordinatorOf(Stepped(config, nodes, s)), tid)
  {
    var q := Head(nodes, s).request.transactional;
    if q.tid != tid {
      ServeTouchesOnlyItsOwnId(nodes[s].shard.transactions, q, tid);
    }
  }

  /** Initialising and ending close no transaction but their own. */
  lemma OthersGrow(config: Config, nodes: seq<Node>, s: nat, tid: Bytes)
    requires s < |nodes| && nodes[s].mailbox != [] && IsRequest(Head(nodes, s))
    requires Head(nodes, s).request.transactional.tid != tid
    ensures GrowsFor(CoordinatorOf(nodes), CoordinatorOf(Stepped(config, nodes, s)), tid)
  {
    ServeTouchesOnlyItsOwnId(nodes[s].shard.transactions, Head(nodes, s).request.transactional, tid);
  }

  // ---------------------------------------------------------------- commands that bind nobody

  /** The facts a calm step needs, for every command but a resolution, an initialisation and an end. */
  lemma HandleCalm(config: Config, nodes: seq<Node>, s: nat)
    requires s < |nodes| && nodes[s].mailbox != [] && BrokerOrder.Routed(config, s, Head(nodes, s))
    requires !IsBinding(Head(nodes, s))
    ensures forall id :: Quiet(config, nodes, Stepped(config, nodes, s), id)
    ensures forall tid :: GrowsFor(CoordinatorOf(nodes), CoordinatorOf(Stepped(config, nodes, s)), tid)
  {
    forall id ensures Quiet(config, nodes, Stepped(config, nodes, s), id) {
      HandleQuiet(config, nodes, s, id);
    }
    forall tid ensures GrowsFor(CoordinatorOf(nodes), CoordinatorOf(Stepped(config, nodes, s)), tid) {
      if IsRequest(Head(nodes, s)) {
        EnlistingGrows(config, nodes, s, tid);
      } else {
        CoordinatorKeeps(config, nodes, s);
      }
    }
  }

  /** The reply to a command that binds nobody: a validation clears its caller for an enlisted partition. */
  lemma CalmReplyGood(config: Config, nodes: seq<Node>, s: nat, c: Client, position: nat)
    requires s < |nodes| && nodes[s].mailbox != [] && ClientGood(config, nodes, c) && c.Waiting?
    requires BrokerOrder.Routed(config, s, Head(nodes, s))
    requires CommandOf(c.call, c.stage) == Head(nodes, s) && !IsBinding(Head(nodes, s))
    ensures var reply := Handle(config.settings, nodes[s].shard, Head(nodes, s)).1;
            var r := Replied(c.call, c.stage, c.since, position, reply);
            ClientGood(config, Stepped(config, nodes, s), r) && GoesOn(c, r)
  {
    var next := Stepped(config, nodes, s);
    var r := Replied(c.call, c.stage, c.since, position, Handle(config.settings, nodes[s].shard, Head(nodes, s)).1);
    HandleCalm(config, nodes, s);
    ClientKeeps(config, nodes, next, c);
    assert Progress(r) == Progress(c);
    if Cleared(r) {
      assert Head(nodes, s) == Coordinate(OfTransaction(ValidateProduce(c.call.tid, c.call.producer, c.call.tp)));
    }
  }

  lemma CalmHeard(config: Config, nodes: seq<Node>, s: nat, clients: seq<Client>, k: nat, position: nat)
    requires s < |nodes| && nodes[s].mailbox != [] && CallersGood(config, nodes, clients) && k < |clients|
    requires BrokerOrder.Routed(config, s, Head(nodes, s)) && clients[k].Waiting?
    requires StageFits(clients[k].call, clients[k].stage)
    requires CommandOf(clients[k].call, clients[k].stage) == Head(nodes, s) && !IsBinding(Head(nodes, s))
    ensures var c, reply := clients[k], Handle(config.settings, nodes[s].shard, Head(nodes, s)).1;
            CallersGood(config, Stepped(config, nodes, s),
                        clients[k := Replied(c.call, c.stage, c.since, position, reply)])
  {
    var c, reply := clients[k], Handle(config.settings, nodes[s].shard, Head(nodes, s)).1;
    assert ClientGood(config, nodes, c);
    CalmReplyGood(config, nodes, s, c, position);
    HandleCalm(config, nodes, s);
    CalmStep(config, nodes, Stepped(config, nodes, s), clients, k,
             Replied(c.call, c.stage, c.since, position, reply));
  }

  lemma CalmUnheard(config: Config, nodes: seq<Node>, s: nat, clients: seq<Client>)
    requires s < |nodes| && nodes[s].mailbox != [] && CallersGood(config, nodes, clients)
    requires BrokerOrder.Routed(config, s, Head(nodes, s)) && !IsBinding(Head(nodes, s))
    ensures CallersGood(config, Stepped(config, nodes, s), clients)
  {
    var next := Stepped(config, nodes, s);
    HandleCalm(config, nodes, s);
    forall j | 0 <= j < |clients| ensures ClientGood(config, next, clients[j]) {
      ClientKeeps(config, nodes, next, clients[j]);
    }
    forall t, tp, id | 0 <= t < |next| && Loose(config, next[t], tp, id)
      ensures Accounted(clients, CoordinatorOf(next), tp, id)
    {
      NothingNewLoose(config, nodes, s, t, tp, id);
      AccountedGrows(config, nodes, next, clients, t, tp, id);
    }
  }

  lemma AccountedGrows(config: Config, nodes: seq<Node>, next: seq<Node>, clients: seq<Client>, t: nat,
                       tp: TopicPartition, id: int)
    requires |nodes| > 0 && |next| > 0 && AllAccounted(config, nodes, clients) && t < |nodes|
    requires Loose(config, nodes[t], tp, id)
    requires forall tid :: GrowsFor(CoordinatorOf(nodes), CoordinatorOf(next), tid)
    ensures Accounted(clients, CoordinatorOf(next), tp, id)
  {
    assert Accounted(clients, CoordinatorOf(nodes), tp, id);
    var tid :| AccountedBy(clients, CoordinatorOf(nodes), tid, tp, id);
    assert GrowsFor(CoordinatorOf(nodes), CoordinatorOf(next), tid);
    assert AccountedBy(clients, CoordinatorOf(next), tid, tp, id);
  }

  // ---------------------------------------------------------------- initialising and ending

  /** A request other than an initialisation leaves an open transaction open with its partitions, or ends it and hands
      them over. */
  lemma RequestOnOpen(c: Coordinator, q: Request, tp: TopicPartition)
    requires !q.InitProducer? && q.tid in c.transactions
    requires c.transactions[q.tid].status.Ongoing? && tp in c.transactions[q.tid].partitions
    ensures var next, answer := Serve(c, q).0, Serve(c, q).1;
            && q.tid in next.transactions
            && next.transactions[q.tid].identity == c.transactions[q.tid].identity
            && if q.EndTransaction? && answer.Ok?
               then answer.value.Completed? && tp in answer.value.completion.partitions
               else next.transactions[q.tid].status.Ongoing? && tp in next.transactions[q.tid].partitions
  {
  }

  /** What is undecided of a transaction that nobody ends belongs to its open partitions. */
  lemma OpenUnlessEnding(clients: seq<Client>, k: nat, c: Coordinator, tid: Bytes, tp: TopicPartition, id: int)
    requires Exclusive(clients) && k < |clients| && BusyWith(clients[k]) == Some(tid) && Progress(clients[k]).None?
    requires AccountedBy(clients, c, tid, tp, id)
    ensures c.transactions[tid].status.Ongoing? && tp in c.transactions[tid].partitions
  {
    if SomeoneEnds(clients, tid) {
      var j :| 0 <= j < |clients| && Ending(clients[j], tid);
      OthersAreExclusive(clients, k);
    }
  }

  /** The caller whose initialisation or end is the first message of shard zero. */
  predicate Asks(nodes: seq<Node>, c: Client, q: Request)
    requires |nodes| > 0
  {
    && nodes[0].mailbox != [] && Head(nodes, 0) == Coordinate(OfTransaction(q)) && IsBinding(Head(nodes, 0))
    && c.Waiting? && IsApiCall(c.call) && StageFits(c.call, c.stage)
    && CommandOf(c.call, c.stage) == Head(nodes, 0)
  }

  function Answered(c: Client, position: nat, answer: Answer): Client
    requires c.Waiting?
  {
    Replied(c.call, c.stage, c.since, position, Transacted(answer))
  }

  lemma AskingIsFirst(nodes: seq<Node>, c: Client, q: Request)
    requires |nodes| > 0 && Asks(nodes, c, q)
    ensures c.stage.First? && BusyWith(c) == Some(q.tid) && Progress(c).None? && !Cleared(c)
    ensures q.EndTransaction? <==> c.call.EndCall?
    ensures q.InitProducer? <==> IsInit(c.call)
  {
  }

  lemma RequestQuiet(config: Config, nodes: seq<Node>, c: Client, q: Request)
    requires |nodes| > 0 && Asks(nodes, c, q)
    ensures forall id :: Quiet(config, nodes, Stepped(config, nodes, 0), id)
  {
    forall id ensures Quiet(config, nodes, Stepped(config, nodes, 0), id) {
      HandleQuiet(config, nodes, 0, id);
    }
  }

  lemma OtherTransactionAccounted(clients: seq<Client>, k: nat, r: Client, c: Coordinator, q: Request, tid: Bytes,
                                  tp: TopicPartition, id: int)
    requires k < |clients| && Progress(clients[k]).None? && tid != q.tid && AccountedBy(clients, c, tid, tp, id)
    ensures AccountedBy(clients[k := r], Serve(c, q).0, tid, tp, id)
  {
    ServeTouchesOnlyItsOwnId(c, q, tid);
    if SomeoneEnds(clients, tid) {
      StillEnds(clients, k, r, tid);
    }
  }

  /** What is undecided of the transaction itself: an end hands it over, an initialisation finds nothing. */
  lemma OwnTransactionAccounted(config: Config, nodes: seq<Node>, clients: seq<Client>, k: nat, q: Request,
                                position: nat, s: nat, tp: TopicPartition, id: int)
    requires |nodes| > 0 && k < |clients| && Exclusive(clients) && s < |nodes|
    requires ClientGood(config, nodes, clients[k]) && Asks(nodes, clients[k], q)
    requires AccountedBy(clients, CoordinatorOf(nodes), q.tid, tp, id) && Loose(config, nodes[s], tp, id)
    ensures var served := Serve(CoordinatorOf(nodes), q);
            AccountedBy(clients[k := Answered(clients[k], position, served.1)], served.0, q.tid, tp, id)
  {
    var c, served := CoordinatorOf(nodes), Serve(CoordinatorOf(nodes), q);
    var r := Answered(clients[k], position, served.1);
    AskingIsFirst(nodes, clients[k], q);
    OpenUnlessEnding(clients, k, c, q.tid, tp, id);
    if q.InitProducer? {
      LooseIsLeft(config, nodes, id, [], s, tp);
    } else {
      RequestOnOpen(c, q, tp);
      if served.1.Ok? {
        assert Ending(clients[k := r][k], q.tid);
      }
    }
  }

  lemma RequestKeepsAccounted(config: Config, nodes: seq<Node>, clients: seq<Client>, k: nat, q: Request, position: nat)
    requires |nodes| > 0 && CallersGood(config, nodes, clients) && k < |clients| && Exclusive(clients)
    requires Asks(nodes, clients[k], q)
    ensures var answer := Serve(CoordinatorOf(nodes), q).1;
            AllAccounted(config, Stepped(config, nodes, 0), clients[k := Answered(clients[k], position, answer)])
  {
    var c, served := CoordinatorOf(nodes), Serve(CoordinatorOf(nodes), q);
    var r, next := Answered(clients[k], position, served.1), Stepped(config, nodes, 0);
    AskingIsFirst(nodes, clients[k], q);
    assert ClientGood(config, nodes, clients[k]);
    forall t, tp, id | 0 <= t < |next| && Loose(config, next[t], tp, id)
      ensures Accounted(clients[k := r], served.0, tp, id)
    {
      NothingNewLoose(config, nodes, 0, t, tp, id);
      assert Accounted(clients, c, tp, id);
      var tid :| AccountedBy(clients, c, tid, tp, id);
      if tid == q.tid {
        OwnTransactionAccounted(config, nodes, clients, k, q, position, t, tp, id);
      } else {
        OtherTransactionAccounted(clients, k, r, c, q, tid, tp, id);
      }
      assert AccountedBy(clients[k := r], served.0, tid, tp, id);
    }
  }

  /** When the coordinator ends a transaction, everything undecided of its producer is among what it hands over. */
  lemma EndedLeaves(config: Config, nodes: seq<Node>, clients: seq<Client>, k: nat, q: Request, id: int)
    requires |nodes| > 0 && CallersGood(config, nodes, clients) && k < |clients| && Exclusive(clients)
    requires Asks(nodes, clients[k], q) && q.EndTransaction? && DistinctIds(CoordinatorOf(nodes))
    requires Serve(CoordinatorOf(nodes), q).1.Ok? && q.producer.id == id
    ensures LooseOnlyIn(config, Stepped(config, nodes, 0), id,
                        Serve(CoordinatorOf(nodes), q).1.value.completion.partitions)
  {
    var c, answer, next := CoordinatorOf(nodes), Serve(CoordinatorOf(nodes), q).1, Stepped(config, nodes, 0);
    AskingIsFirst(nodes, clients[k], q);
    forall t, tp | 0 <= t < |next| && Loose(config, next[t], tp, id) ensures tp in answer.value.completion.partitions {
      NothingNewLoose(config, nodes, 0, t, tp, id);
      assert Accounted(clients, c, tp, id);
      OwnAccount(clients, c, q.tid, tp, id);
      OpenUnlessEnding(clients, k, c, q.tid, tp, id);
      RequestOnOpen(c, q, tp);
    }
  }

  lemma RequestReplyGood(config: Config, nodes: seq<Node>, clients: seq<Client>, k: nat, q: Request, position: nat)
    requires |nodes| > 0 && CallersGood(config, nodes, clients) && k < |clients| && Exclusive(clients)
    requires Asks(nodes, clients[k], q) && DistinctIds(CoordinatorOf(nodes))
    ensures var answer := Serve(CoordinatorOf(nodes), q).1;
            ClientGood(config, Stepped(config, nodes, 0), Answered(clients[k], position, answer))
  {
    var answer := Serve(CoordinatorOf(nodes), q).1;
    AskingIsFirst(nodes, clients[k], q);
    assert ClientGood(config, nodes, clients[k]);
    if q.EndTransaction? && answer.Ok? {
      EndedLeaves(config, nodes, clients, k, q, q.producer.id);
      var partitions := answer.value.completion.partitions;
      assert partitions[0..] == partitions;
    }
  }

  lemma RequestStep(config: Config, nodes: seq<Node>, clients: seq<Client>, k: nat, q: Request, position: nat)
    requires |nodes| > 0 && CallersGood(config, nodes, clients) && Exclusive(clients) && k < |clients|
    requires Asks(nodes, clients[k], q) && DistinctIds(CoordinatorOf(nodes))
    ensures var answer := Serve(CoordinatorOf(nodes), q).1;
            CallersGood(config, Stepped(config, nodes, 0), clients[k := Answered(clients[k], position, answer)])
  {
    var next := Stepped(config, nodes, 0);
    var after := clients[k := Answered(clients[k], position, Serve(CoordinatorOf(nodes), q).1)];
    AskingIsFirst(nodes, clients[k], q);
    OthersAreExclusive(clients, k);
    RequestQuiet(config, nodes, clients[k], q);
    RequestKeepsAccounted(config, nodes, clients, k, q, position);
    RequestReplyGood(config, nodes, clients, k, q, position);
    forall j | 0 <= j < |after| ensures ClientGood(config, next, after[j]) {
      if j != k {
        assert ClientGood(config, nodes, clients[j]);
        if BusyWith(clients[j]).Some? {
          OthersGrow(config, nodes, 0, BusyWith(clients[j]).value);
        }
        ClientKeeps(config, nodes, next, clients[j]);
      }
    }
  }

  // ---------------------------------------------------------------- resolutions

  /** Logs and messages are where the hash puts them. */
  ghost predicate Placed(config: Config, nodes: seq<Node>) {
    forall s :: 0 <= s < |nodes| ==>
      && BrokerOrder.LogsPlaced(config, s, nodes[s].shard)
      && BrokerOrder.MailboxRouted(config, s, nodes[s].mailbox)
  }

  lemma LooseIsPlaced(config: Config, nodes: seq<Node>, t: nat, tp: TopicPartition, id: int)
    requires Placed(config, nodes) && t < |nodes| && Loose(config, nodes[t], tp, id)
    ensures config.place(tp) == t
  {
    if PendingAt(config.settings, nodes[t].shard, tp, id) {
      PendingIsStored(config.settings, nodes[t].shard, tp, id);
      assert BrokerOrder.LogsPlaced(config, t, nodes[t].shard);
    } else {
      var i :| 0 <= i < |nodes[t].mailbox| && IsAppend(nodes[t].mailbox[i].command, tp, id);
      assert BrokerOrder.Routed(config, t, nodes[t].mailbox[i].command);
    }
  }

  /** The caller whose resolution is the first message of a shard, with no append of the producer behind it. */
  predicate ResolvesFirst(config: Config, nodes: seq<Node>, s: nat, c: Client) {
    && s < |nodes| && nodes[s].mailbox != []
    && c.Waiting? && c.stage.Resolving? && StageFits(c.call, c.stage)
    && Head(nodes, s) == CommandOf(c.call, c.stage) && s == TargetOf(config, c.call, c.stage)
    && forall j :: 0 < j < |nodes[s].mailbox| ==> NoAppendBehind(nodes[s].mailbox[0], nodes[s].mailbox[j])
  }

  lemma NothingQueuedBehind(config: Config, nodes: seq<Node>, s: nat, c: Client, tp: TopicPartition)
    requires ResolvesFirst(config, nodes, s, c)
    ensures !AppendQueued(nodes[s].mailbox[1..], tp, c.call.producer.id)
  {
    var rest := nodes[s].mailbox[1..];
    forall j | 0 <= j < |rest| ensures !IsAppend(rest[j].command, tp, c.call.producer.id) {
      assert NoAppendBehind(nodes[s].mailbox[0], nodes[s].mailbox[j + 1]);
    }
  }

  /** The resolution decides everything of its producer on its shard. */
  lemma ResolutionDecides(config: Config, nodes: seq<Node>, s: nat, c: Client, tp: TopicPartition)
    requires ResolvesFirst(config, nodes, s, c)
    ensures var node := Stepped(config, nodes, s)[s];
            && !Loose(config, node, tp, c.call.producer.id)
            && Decided(config, node, tp, c.call.producer.id, Log.Outcome(c.call.commit))
  {
    NothingQueuedBehind(config, nodes, s, c, tp);
    ResolveSettles(config.settings, nodes[s].shard, c.call.producer.id, c.call.commit, tp);
  }

  /** Resolving one more shard leaves one partition fewer that may have something undecided. */
  lemma ResolvedLeaves(config: Config, nodes: seq<Node>, s: nat, c: Client)
    requires Placed(config, nodes) && ResolvesFirst(config, nodes, s, c)
    requires LooseOnlyIn(config, nodes, c.call.producer.id, c.stage.completion.partitions[c.stage.index..])
    ensures LooseOnlyIn(config, Stepped(config, nodes, s), c.call.producer.id,
                        c.stage.completion.partitions[c.stage.index + 1..])
  {
    var partitions, i, id := c.stage.completion.partitions, c.stage.index, c.call.producer.id;
    var next := Stepped(config, nodes, s);
    forall t, tp | 0 <= t < |next| && Loose(config, next[t], tp, id) ensures tp in partitions[i + 1..] {
      ResolutionDecides(config, nodes, s, c, tp);
      NothingNewLoose(config, nodes, s, t, tp, id);
      LooseIsPlaced(config, nodes, t, tp, id);
      LooseIsLeft(config, nodes, id, partitions[i..], t, tp);
      assert partitions[i..] == [partitions[i]] + partitions[i + 1..];
    }
  }

  /** Shards resolved earlier stay resolved, and this one joins them. */
  lemma ResolvedSettles(config: Config, nodes: seq<Node>, s: nat, c: Client, p: TopicPartition)
    requires ResolvesFirst(config, nodes, s, c)
    requires config.place(p) == s || SettledWith(config, nodes, c.call.producer.id, p, Log.Outcome(c.call.commit))
    ensures SettledWith(config, Stepped(config, nodes, s), c.call.producer.id, p, Log.Outcome(c.call.commit))
  {
    var next, id, outcome := Stepped(config, nodes, s), c.call.producer.id, Log.Outcome(c.call.commit);
    forall tp | config.place(tp) == config.place(p) && config.place(tp) < |next|
      ensures Decided(config, next[config.place(tp)], tp, id, outcome)
    {
      if config.place(tp) == s {
        ResolutionDecides(config, nodes, s, c, tp);
      } else {
        assert Decided(config, nodes[config.place(tp)], tp, id, outcome);
      }
    }
  }

  lemma ResolveReplyGood(config: Config, nodes: seq<Node>, s: nat, c: Client, position: nat, reply: Reply)
    requires Placed(config, nodes) && ResolvesFirst(config, nodes, s, c) && ClientGood(config, nodes, c)
    ensures var r := Replied(c.call, c.stage, c.since, position, reply);
            ClientGood(config, Stepped(config, nodes, s), r) && GoesOn(c, r)
  {
    var partitions, i, id := c.stage.completion.partitions, c.stage.index, c.call.producer.id;
    var next := Stepped(config, nodes, s);
    ResolvedLeaves(config, nodes, s, c);
    CoordinatorKeeps(config, nodes, s);
    forall j | 0 <= j < i + 1 ensures SettledWith(config, next, id, partitions[j], Log.Outcome(c.call.commit)) {
      ResolvedSettles(config, nodes, s, c, partitions[j]);
    }
  }

  /** A resolution is no concern of callers that act for other producers. */
  lemma ResolveQuietFor(config: Config, nodes: seq<Node>, s: nat, k: nat, clients: seq<Client>, j: nat)
    requires CallersGoodAt(config, nodes, clients, k, s) && j < |clients| && j != k
    ensures QuietFor(config, nodes, Stepped(config, nodes, s), clients[j])
  {
    var c, call := clients[j], clients[k].call;
    assert ClientGood(config, nodes, c) && ClientGood(config, nodes, clients[k]);
    DifferentProducers(config, nodes, clients, k, call.tid, call.producer.id, j);
    if Progress(c).Some? {
      HandleQuiet(config, nodes, s, c.call.producer.id);
    }
    if !c.Idle? && IsInit(c.call) {
      var tid := c.call.request.transactional.tid;
      if tid in CoordinatorOf(nodes).transactions {
        HandleQuiet(config, nodes, s, CoordinatorOf(nodes).transactions[tid].identity.id);
      }
    }
  }

  ghost predicate CallersGoodAt(config: Config, nodes: seq<Node>, clients: seq<Client>, k: nat, s: nat) {
    && |nodes| > 0 && CallersGood(config, nodes, clients) && Exclusive(clients) && DistinctIds(CoordinatorOf(nodes))
    && k < |clients| && ResolvesFirst(config, nodes, s, clients[k])
  }

  lemma ResolveStep(config: Config, nodes: seq<Node>, clients: seq<Client>, k: nat, s: nat, position: nat, reply: Reply)
    requires Placed(config, nodes) && CallersGoodAt(config, nodes, clients, k, s)
    ensures var c := clients[k];
            CallersGood(config, Stepped(config, nodes, s),
                        clients[k := Replied(c.call, c.stage, c.since, position, reply)])
  {
    var c, next := clients[k], Stepped(config, nodes, s);
    var r := Replied(c.call, c.stage, c.since, position, reply);
    var after := clients[k := r];
    assert ClientGood(config, nodes, c);
    ResolveReplyGood(config, nodes, s, c, position, reply);
    CoordinatorKeeps(config, nodes, s);
    forall j | 0 <= j < |after| ensures ClientGood(config, next, after[j]) {
      if j != k {
        ResolveQuietFor(config, nodes, s, k, clients, j);
        ClientKeeps(config, nodes, next, clients[j]);
      }
    }
    forall t, tp, id | 0 <= t < |next| && Loose(config, next[t], tp, id)
      ensures Accounted(after, CoordinatorOf(next), tp, id)
    {
      NothingNewLoose(config, nodes, s, t, tp, id);
      AccountedOnward(config, nodes, clients, k, r, t, tp, id);
    }
  }
}
