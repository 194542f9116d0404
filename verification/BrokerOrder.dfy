/** Every interleaving of callers and shards amounts to one sequence of commands on plain, unsharded objects. */
module BrokerOrder {
  import opened Records
  import opened Log
  import opened Transactions
  import opened Groups
  import opened Shards
  import opened Broker
  import LogRuns
  import TransactionHistory
  import GroupHistory

  // ---------------------------------------------------------------- the sequential reading of a history

  /** What a handled command did to the log of `tp`, as a log operation. */
  function OpFor(config: Config, h: Handled, tp: TopicPartition): seq<LogRuns.Op> {
    match h.command
    case Produce(p, records) =>
      if p == tp && CheckPartition(config.settings.catalog, tp).None? then [LogRuns.Append(records)] else []
    case ProduceTransactional(p, records, id) =>
      if p == tp && CheckPartition(config.settings.catalog, tp).None? then [LogRuns.AppendTransactional(records, id)]
      else []
    case ResolveTransaction(id, commit) => if h.at == config.place(tp) then [LogRuns.Resolve(id, commit)] else []
    case _ => []
  }

  function OpsOf(config: Config, handled: seq<Handled>, tp: TopicPartition): seq<LogRuns.Op> {
    if handled == [] then []
    else OpsOf(config, handled[..|handled| - 1], tp) + OpFor(config, handled[|handled| - 1], tp)
  }

  /** The one log of a partition after these commands. */
  function LogOf(config: Config, handled: seq<Handled>, tp: TopicPartition): LogState {
    LogRuns.Run(EmptyLog(config.settings.limit), OpsOf(config, handled, tp))
  }

  function TransactionRequests(handled: seq<Handled>): seq<Request> {
    if handled == [] then []
    else
      var last := handled[|handled| - 1].command;
      TransactionRequests(handled[..|handled| - 1])
      + if last.Coordinate? && last.request.OfTransaction? then [last.request.transactional] else []
  }

  function GroupRequests(handled: seq<Handled>): seq<GroupRequest> {
    if handled == [] then []
    else
      var last := handled[|handled| - 1].command;
      GroupRequests(handled[..|handled| - 1])
      + if last.Coordinate? && last.request.OfGroup? then [last.request.grouped] else []
  }

  /** The answer of unsharded objects that have seen exactly the commands `before`. */
  function SequentialReply(config: Config, before: seq<Handled>, command: Command): Reply {
    if command.OnLog() then
      match CheckPartition(config.settings.catalog, command.tp)
      case Some(error) => Failed(error)
      case None => HandleOnLog(LogOf(config, before, command.tp), command).1
    else
      match command
      case Coordinate(OfTransaction(r)) =>
        Transacted(Serve(TransactionHistory.After(TransactionRequests(before)), r).1)
      case Coordinate(OfGroup(r)) => Grouped(ServeGroup(GroupHistory.After(GroupRequests(before)), r).1)
      case ResolveTransaction(_, _) => Resolved
      case _ => Stopped
  }

  // ---------------------------------------------------------------- what every step keeps

  predicate Routed(config: Config, s: nat, command: Command) {
    && (command.OnLog() ==> config.place(command.tp) == s)
    && (command.Coordinate? ==> s == 0)
  }

  predicate MailboxRouted(config: Config, s: nat, mailbox: seq<Message>) {
    forall i :: 0 <= i < |mailbox| ==> Routed(config, s, mailbox[i].command)
  }

  predicate LogsPlaced(config: Config, s: nat, shard: Shard) {
    forall tp :: tp in shard.logs ==> config.place(tp) == s
  }

  ghost predicate NodeFolds(config: Config, s: nat, shard: Shard, handled: seq<Handled>) {
    && LogsPlaced(config, s, shard)
    && (forall tp :: config.place(tp) == s ==> LogAt(config.settings, shard, tp) == LogOf(config, handled, tp))
    && (s == 0 ==>
          && shard.transactions == TransactionHistory.After(TransactionRequests(handled))
          && shard.groups == GroupHistory.After(GroupRequests(handled)))
  }

  predicate Agrees(config: Config, handled: seq<Handled>, i: nat)
    requires i < |handled|
  {
    && Routed(config, handled[i].at, handled[i].command)
    && handled[i].reply == SequentialReply(config, handled[..i], handled[i].command)
  }

  ghost predicate Sequential(config: Config, state: State) {
    && |state.nodes| == config.shardCount
    && (forall s :: 0 <= s < |state.nodes| ==> MailboxRouted(config, s, state.nodes[s].mailbox))
    && (forall s :: 0 <= s < |state.nodes| ==> NodeFolds(config, s, state.nodes[s].shard, state.handled))
    && (forall i :: 0 <= i < |state.handled| ==> Agrees(config, state.handled, i))
  }

  lemma {:induction false} RunPush(log: LogState, ops: seq<LogRuns.Op>, more: seq<LogRuns.Op>)
    ensures LogRuns.Run(log, ops + more) == LogRuns.Run(LogRuns.Run(log, ops), more)
    decreases |ops|
  {
    if ops == [] {
      assert ops + more == more;
    } else {
      assert (ops + more)[1..] == ops[1..] + more;
      RunPush(LogRuns.Apply(log, ops[0]), ops[1..], more);
    }
  }

  lemma RunOne(log: LogState, op: LogRuns.Op)
    ensures LogRuns.Run(log, [op]) == LogRuns.Apply(log, op)
  {
    assert [op][1..] == [];
  }

  /** A shard changes a log exactly by the operation the command stands for. */
  lemma HandleIsOp(config: Config, s: nat, shard: Shard, command: Command, tp: TopicPartition)
    requires Routed(config, s, command) && config.place(tp) == s
    ensures var h := Handled(s, command, Handle(config.settings, shard, command).1);
            LogAt(config.settings, Handle(config.settings, shard, command).0, tp)
            == LogRuns.Run(LogAt(config.settings, shard, tp), OpFor(config, h, tp))
  {
    var log := LogAt(config.settings, shard, tp);
    match command
    case Produce(_, records) => RunOne(log, LogRuns.Append(records));
    case ProduceTransactional(_, records, id) => RunOne(log, LogRuns.AppendTransactional(records, id));
    case ResolveTransaction(id, commit) =>
      RunOne(log, LogRuns.Resolve(id, commit));
      assert ResolveBatches([], id, commit) == [];
    case _ =>
  }

  /** A shard leaves the logs of other shards' partitions alone. */
  lemma NotMine(config: Config, s: nat, command: Command, reply: Reply, tp: TopicPartition)
    requires Routed(config, s, command) && config.place(tp) != s
    ensures OpFor(config, Handled(s, command, reply), tp) == []
  {
  }

  lemma LogOfPush(config: Config, handled: seq<Handled>, h: Handled, tp: TopicPartition)
    ensures LogOf(config, handled + [h], tp) == LogRuns.Run(LogOf(config, handled, tp), OpFor(config, h, tp))
  {
    assert (handled + [h])[..|handled|] == handled;
    RunPush(EmptyLog(config.settings.limit), OpsOf(config, handled, tp), OpFor(config, h, tp));
  }

  /** One more command adds itself to the requests of its kind. */
  lemma RequestsGrow(handled: seq<Handled>, h: Handled)
    ensures TransactionRequests(handled + [h])
            == if h.command.Coordinate? && h.command.request.OfTransaction?
               then TransactionRequests(handled) + [h.command.request.transactional] else TransactionRequests(handled)
    ensures GroupRequests(handled + [h])
            == if h.command.Coordinate? && h.command.request.OfGroup?
               then GroupRequests(handled) + [h.command.request.grouped] else GroupRequests(handled)
  {
    assert (handled + [h])[..|handled|] == handled;
  }

  lemma RequestsPush(handled: seq<Handled>, h: Handled)
    ensures TransactionHistory.After(TransactionRequests(handled + [h]))
            == if h.command.Coordinate? && h.command.request.OfTransaction?
               then Serve(TransactionHistory.After(TransactionRequests(handled)), h.command.request.transactional).0
               else TransactionHistory.After(TransactionRequests(handled))
    ensures GroupHistory.After(GroupRequests(handled + [h]))
            == if h.command.Coordinate? && h.command.request.OfGroup?
               then ServeGroup(GroupHistory.After(GroupRequests(handled)), h.command.request.grouped).0
               else GroupHistory.After(GroupRequests(handled))
  {
    RequestsGrow(handled, h);
    if h.command.Coordinate? {
      match h.command.request
      case OfTransaction(r) => TransactionHistory.AfterPush(TransactionRequests(handled), r);
      case OfGroup(r) => GroupHistory.AfterPush(GroupRequests(handled), r);
    }
  }

  lemma ReplyIsSequential(config: Config, s: nat, shard: Shard, handled: seq<Handled>, command: Command)
    requires NodeFolds(config, s, shard, handled) && Routed(config, s, command)
    ensures Handle(config.settings, shard, command).1 == SequentialReply(config, handled, command)
  {
  }

  lemma OwnNodeFolds(config: Config, s: nat, shard: Shard, handled: seq<Handled>, command: Command)
    requires NodeFolds(config, s, shard, handled) && Routed(config, s, command)
    ensures var r := Handle(config.settings, shard, command);
            NodeFolds(config, s, r.0, handled + [Handled(s, command, r.1)])
  {
    var r := Handle(config.settings, shard, command);
    var h := Handled(s, command, r.1);
    forall tp | config.place(tp) == s
      ensures LogAt(config.settings, r.0, tp) == LogOf(config, handled + [h], tp)
    {
      HandleIsOp(config, s, shard, command, tp);
      LogOfPush(config, handled, h, tp);
    }
    RequestsPush(handled, h);
  }

  lemma OtherNodeFolds(config: Config, t: nat, shard: Shard, handled: seq<Handled>, h: Handled)
    requires NodeFolds(config, t, shard, handled) && Routed(config, h.at, h.command) && t != h.at
    ensures NodeFolds(config, t, shard, handled + [h])
  {
    forall tp | config.place(tp) == t ensures LogOf(config, handled + [h], tp) == LogOf(config, handled, tp) {
      NotMine(config, h.at, h.command, h.reply, tp);
      LogOfPush(config, handled, h, tp);
    }
    RequestsPush(handled, h);
  }

  lemma AgreesPush(config: Config, handled: seq<Handled>, h: Handled)
    requires forall i :: 0 <= i < |handled| ==> Agrees(config, handled, i)
    requires Routed(config, h.at, h.command) && h.reply == SequentialReply(config, handled, h.command)
    ensures forall i :: 0 <= i < |handled + [h]| ==> Agrees(config, handled + [h], i)
  {
    var longer := handled + [h];
    forall i | 0 <= i < |longer| ensures Agrees(config, longer, i) {
      if i < |handled| {
        assert longer[..i] == handled[..i] && Agrees(config, handled, i);
      } else {
        assert longer[..i] == handled;
      }
    }
  }

  lemma HandlingKeepsSequential(config: Config, state: State, s: nat)
    requires Sequential(config, state) && Enabled(config, state, Handling(s))
    ensures Sequential(config, ApplyHandling(config, state, s))
  {
    var node, next := state.nodes[s], ApplyHandling(config, state, s);
    var command := node.mailbox[0].command;
    var h := Handled(s, command, Handle(config.settings, node.shard, command).1);
    assert MailboxRouted(config, s, node.mailbox) && NodeFolds(config, s, node.shard, state.handled);
    assert Routed(config, s, command);
    ReplyIsSequential(config, s, node.shard, state.handled, command);
    AgreesPush(config, state.handled, h);
    OwnNodeFolds(config, s, node.shard, state.handled, command);
    forall t | 0 <= t < |next.nodes|
      ensures NodeFolds(config, t, next.nodes[t].shard, next.handled) && MailboxRouted(config, t, next.nodes[t].mailbox)
    {
      if t != s {
        OtherNodeFolds(config, t, state.nodes[t].shard, state.handled, h);
        assert MailboxRouted(config, t, state.nodes[t].mailbox);
      }
    }
  }

  lemma EnqueueKeepsSequential(config: Config, state: State, s: nat, message: Message)
    requires Sequential(config, state) && s < |state.nodes| && Routed(config, s, message.command)
    ensures Sequential(config, Enqueue(state, s, message))
  {
    var next := Enqueue(state, s, message);
    forall t | 0 <= t < |next.nodes|
      ensures NodeFolds(config, t, next.nodes[t].shard, next.handled) && MailboxRouted(config, t, next.nodes[t].mailbox)
    {
      assert MailboxRouted(config, t, state.nodes[t].mailbox);
      assert NodeFolds(config, t, state.nodes[t].shard, state.handled);
    }
  }

  lemma SentIsRouted(config: Config, call: Call, stage: Stage)
    requires StageFits(call, stage)
    ensures Routed(config, TargetOf(config, call, stage), CommandOf(call, stage))
  {
  }

  lemma SendKeepsSequential(config: Config, state: State, k: nat)
    requires Sequential(config, state) && Enabled(config, state, Send(k))
    ensures Sequential(config, ApplySend(config, state, k))
  {
    var c := state.clients[k];
    SentIsRouted(config, c.call, c.stage);
    EnqueueKeepsSequential(config, state, TargetOf(config, c.call, c.stage),
                           Message(k, state.nextChannel, CommandOf(c.call, c.stage)));
  }

  lemma StepKeepsSequential(config: Config, state: State, action: Action)
    requires Sequential(config, state) && Enabled(config, state, action)
    ensures Sequential(config, Apply(config, state, action))
  {
    match action
    case Send(k) => SendKeepsSequential(config, state, k);
    case Handling(s) => HandlingKeepsSequential(config, state, s);
    case RequestShutdown(s) =>
      EnqueueKeepsSequential(config, state, s, Message(|state.clients|, state.nextChannel, Shutdown));
    case _ =>
  }

  lemma StartIsSequential(config: Config, clients: nat)
    ensures Sequential(config, Start(config, clients))
  {
  }

  /** In every reachable state, with any callers giving up at any point, each partition has its one log on the shard
      the hash names, that log and the coordinators are what the handled commands make of unsharded ones, and every
      reply is the one unsharded objects would give. */
  lemma {:induction false} EveryRunIsSequential(config: Config, clients: nat, actions: seq<Action>)
    requires Run(config, Start(config, clients), actions).Some?
    ensures Sequential(config, Run(config, Start(config, clients), actions).value)
  {
    if actions == [] {
      StartIsSequential(config, clients);
    } else {
      EveryRunIsSequential(config, clients, actions[..|actions| - 1]);
      var before := Run(config, Start(config, clients), actions[..|actions| - 1]).value;
      StepKeepsSequential(config, before, actions[|actions| - 1]);
    }
  }

  // ---------------------------------------------------------------- appends tile the log

  /** A command that put records into the log of `tp`. */
  predicate AppendsTo(h: Handled, tp: TopicPartition) {
    (h.command.Produce? || h.command.ProduceTransactional?) && h.command.tp == tp && h.reply.Produced?
  }

  function EndOf(h: Handled): int
    requires h.reply.Produced? && (h.command.Produce? || h.command.ProduceTransactional?)
  {
    h.reply.base + |h.command.records|
  }

  predicate CoveredBy(h: Handled, tp: TopicPartition, offset: int) {
    AppendsTo(h, tp) && h.reply.base <= offset < EndOf(h)
  }

  ghost predicate Covered(handled: seq<Handled>, tp: TopicPartition, offset: int) {
    exists i :: 0 <= i < |handled| && CoveredBy(handled[i], tp, offset)
  }

  /** The ranges of the appends to `tp` lie one behind the other and fill everything below `end`. */
  ghost predicate Tiles(handled: seq<Handled>, tp: TopicPartition, end: int) {
    && (forall i :: 0 <= i < |handled| && AppendsTo(handled[i], tp) ==>
          0 <= handled[i].reply.base < EndOf(handled[i]) <= end)
    && (forall i, j :: 0 <= i < j < |handled| && AppendsTo(handled[i], tp) && AppendsTo(handled[j], tp) ==>
          EndOf(handled[i]) <= handled[j].reply.base)
    && (forall offset :: 0 <= offset < end ==> Covered(handled, tp, offset))
  }

  lemma AppendTakesNext(config: Config, before: seq<Handled>, h: Handled, tp: TopicPartition)
    requires h.reply == SequentialReply(config, before, h.command)
    ensures var log, next := LogOf(config, before, tp), LogOf(config, before + [h], tp);
            if AppendsTo(h, tp) then
              h.reply.base == log.nextOffset && EndOf(h) == next.nextOffset && |h.command.records| > 0
            else next.nextOffset == log.nextOffset
  {
    var log, ops := LogOf(config, before, tp), OpFor(config, h, tp);
    LogOfPush(config, before, h, tp);
    assert AppendsTo(h, tp) ==> ops != [];
    if ops != [] {
      RunOne(log, ops[0]);
      AppendedRange(log, ops[0]);
    }
  }

  lemma AppendedRange(log: LogState, op: LogRuns.Op)
    ensures var reply := LogRuns.Reply(log, op);
            LogRuns.Apply(log, op).nextOffset
            == if reply.Some? && reply.value.Ok? then reply.value.value + |op.inputs| else log.nextOffset
    ensures LogRuns.Reply(log, op).Some? && LogRuns.Reply(log, op).value.Ok? ==>
      LogRuns.Reply(log, op).value.value == log.nextOffset && |op.inputs| > 0
  {
  }

  lemma TilesPush(handled: seq<Handled>, h: Handled, tp: TopicPartition, end: int)
    requires Tiles(handled, tp, end) && 0 <= end
    requires AppendsTo(h, tp) ==> h.reply.base == end && |h.command.records| > 0
    ensures Tiles(handled + [h], tp, if AppendsTo(h, tp) then EndOf(h) else end)
  {
    var longer := handled + [h];
    forall offset | 0 <= offset < if AppendsTo(h, tp) then EndOf(h) else end
      ensures Covered(longer, tp, offset)
    {
      if offset < end {
        assert Covered(handled, tp, offset);
        var i :| 0 <= i < |handled| && CoveredBy(handled[i], tp, offset);
        assert longer[i] == handled[i];
      } else {
        assert CoveredBy(longer[|handled|], tp, offset);
      }
    }
  }

  lemma {:induction false} HistoryTiles(config: Config, handled: seq<Handled>, tp: TopicPartition)
    requires forall i :: 0 <= i < |handled| ==> Agrees(config, handled, i)
    ensures LogOf(config, handled, tp).nextOffset >= 0
    ensures Tiles(handled, tp, LogOf(config, handled, tp).nextOffset)
  {
    if handled != [] {
      var n := |handled| - 1;
      var before, h := handled[..n], handled[n];
      forall i | 0 <= i < n ensures Agrees(config, before, i) {
        assert Agrees(config, handled, i) && before[..i] == handled[..i];
      }
      HistoryTiles(config, before, tp);
      assert Agrees(config, handled, n) && handled == before + [h];
      AppendTakesNext(config, before, h, tp);
      TilesPush(before, h, tp, LogOf(config, before, tp).nextOffset);
    }
  }

  /** Under any interleaving the applied appends of a partition are disjoint, in order, and tile everything below the
      high watermark of its log, which exists on no other shard. */
  lemma AppendsTile(config: Config, clients: nat, actions: seq<Action>, tp: TopicPartition)
    requires ValidConfig(config) && Run(config, Start(config, clients), actions).Some?
    ensures var state := Run(config, Start(config, clients), actions).value;
            && |state.nodes| == config.shardCount
            && Tiles(state.handled, tp, LogAt(config.settings, state.nodes[config.place(tp)].shard, tp).nextOffset)
            && forall s :: 0 <= s < |state.nodes| && tp in state.nodes[s].shard.logs ==> s == config.place(tp)
  {
    EveryRunIsSequential(config, clients, actions);
    var state := Run(config, Start(config, clients), actions).value;
    HistoryTiles(config, state.handled, tp);
    assert NodeFolds(config, config.place(tp), state.nodes[config.place(tp)].shard, state.handled);
    forall s | 0 <= s < |state.nodes| && tp in state.nodes[s].shard.logs ensures s == config.place(tp) {
      assert NodeFolds(config, s, state.nodes[s].shard, state.handled);
    }
  }
}
