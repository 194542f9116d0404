/** The shard's message loop over the objects it owns: one log per partition and the two coordinators. */
module PartitionTasks {
  import opened Records
  import opened Log
  import opened PartitionLogs
  import opened Transactions
  import opened Groups
  import opened Shards

  type LogMap = map<TopicPartition, LogState>

  /** The same logs, with every batch of the producer decided except in those of the partitions `left`. */
  predicate ResolvedBut(before: LogMap, after: LogMap, left: set<TopicPartition>, id: int, commit: bool) {
    && after.Keys == before.Keys && left <= before.Keys
    && forall tp :: tp in before ==> after[tp] == if tp in left then before[tp] else ResolveLog(before[tp], id, commit)
  }

  lemma OneFewer(before: LogMap, after: LogMap, left: set<TopicPartition>, tp: TopicPartition, id: int, commit: bool)
    requires ResolvedBut(before, after, left, id, commit) && tp in left
    ensures ResolvedBut(before, after[tp := ResolveLog(after[tp], id, commit)], left - {tp}, id, commit)
  {
  }

  lemma ResolvedTogether(before: LogMap, after: LogMap, id: int, commit: bool)
    requires ResolvedBut(before, after, {}, id, commit)
    ensures after == map tp | tp in before :: ResolveLog(before[tp], id, commit)
  {
  }

  lemma UpdatedTwice<K, V>(m: map<K, V>, k: K, first: V, second: V)
    ensures m[k := first][k := second] == m[k := second]
  {
  }

  lemma UpdatedSame<K, V>(m: map<K, V>, k: K)
    requires k in m
    ensures m[k := m[k]] == m
  {
  }

  class PartitionTask {
    const settings: Settings
    var logs: map<TopicPartition, PartitionLog>
    const transactions: TransactionCoordinator
    const groups: GroupCoordinator
    var stopped: bool

    ghost function Logs(): set<PartitionLog>
      reads this`logs
    {
      set tp | tp in logs :: logs[tp]
    }

    ghost function Repr(): set<object>
      reads this`logs
    {
      {this, transactions, groups} + Logs()
    }

    /** No two partitions share a log. */
    ghost predicate Valid()
      reads this`logs, Logs()
    {
      && (forall tp :: tp in logs ==> logs[tp].Valid())
      && (forall p, q :: p in logs && q in logs && p != q ==> logs[p] != logs[q])
    }

    ghost function LogStates(): map<TopicPartition, LogState>
      reads this`logs, Logs()
    {
      map tp | tp in logs :: logs[tp].State()
    }

    ghost function State(): Shard
      reads this`logs, Logs(), transactions, groups
    {
      Shard(LogStates(), transactions.State(), groups.groups)
    }

    constructor (s: Settings)
      ensures Valid() && State() == NewShard && settings == s && !stopped
      ensures fresh(Repr())
    {
      settings, logs, stopped := s, map[], false;
      transactions := new TransactionCoordinator();
      groups := new GroupCoordinator();
    }

    /** What changing one log does to the shard. */
    twostate lemma OneLogChanged(tp: TopicPartition)
      requires old(Valid()) && unchanged(this) && tp in logs && logs[tp].Valid()
      requires forall q :: q in logs && q != tp ==> unchanged(logs[q])
      ensures Valid() && LogStates() == old(LogStates())[tp := logs[tp].State()]
    {
      StatesAfterChange(tp);
    }

    twostate lemma StatesAfterChange(tp: TopicPartition)
      requires unchanged(this) && tp in logs && forall q :: q in logs && q != tp ==> unchanged(logs[q])
      ensures LogStates() == old(LogStates())[tp := logs[tp].State()]
    {
      forall q | q in logs && q != tp ensures logs[q].State() == old(logs[q].State()) {}
    }

    twostate lemma LogsUntouched()
      requires unchanged(this`logs) && unchanged(Logs())
      ensures Valid() == old(Valid()) && LogStates() == old(LogStates())
    {
    }

    /** Resolves one producer in one log. */
    method ResolveOne(tp: TopicPartition, id: int, commit: bool)
      requires Valid() && tp in logs
      modifies logs[tp]
      ensures Valid()
      ensures LogStates() == old(LogStates())[tp := ResolveLog(old(LogStates())[tp], id, commit)]
    {
      logs[tp].CommitTransaction(id, commit);
      OneLogChanged(tp);
    }

    /** Resolves one producer in every log the shard owns. */
    method ResolveAll(id: int, commit: bool)
      requires Valid()
      modifies Logs()
      ensures Valid()
      ensures ResolvedBut(old(LogStates()), LogStates(), {}, id, commit)
    {
      ghost var before := LogStates();
      var left := logs.Keys;
      ghost var now := before;
      while left != {}
        invariant left <= logs.Keys && Valid() && now == LogStates()
        invariant ResolvedBut(before, now, left, id, commit)
        decreases left
      {
        var tp :| tp in left;
        ResolveOne(tp, id, commit);
        OneFewer(before, now, left, tp, id, commit);
        now := now[tp := ResolveLog(now[tp], id, commit)];
        left := left - {tp};
      }
    }

    /** Carries out a command on the log of its partition. */
    method ExecuteOnLog(log: PartitionLog, command: Command) returns (reply: Reply)
      requires log.Valid() && command.OnLog()
      modifies log
      ensures log.Valid()
      ensures (log.State(), reply) == HandleOnLog(old(log.State()), command)
    {
      match command
      case Produce(_, records) =>
        var r := log.Append(records);
        reply := Appended(r);
      case ProduceTransactional(_, records, id) =>
        var r := log.AppendTransactional(records, id);
        reply := Appended(r);
      case Fetch(_, offset, maxRecords, maxBytes, readCommitted) =>
        var r := log.Fetch(offset, maxRecords, maxBytes, readCommitted);
        reply := if r.Ok? then Window(r.value) else Failed(r.error);
      case ListOffset(_, earliest) =>
        var offset := log.ListOffset(earliest);
        reply := OffsetIs(offset);
    }

    method ServeTransaction(request: Request) returns (answer: Answer)
      modifies transactions
      ensures (transactions.State(), answer) == Serve(old(transactions.State()), request)
    {
      match request
      case InitProducer(tid) =>
        var r := transactions.InitProducer(tid);
        answer := if r.Ok? then Ok(Producer(r.value)) else Err(r.error);
      case AddPartition(tid, producer, partition) => answer := transactions.AddPartition(tid, producer, partition);
      case ValidateProduce(tid, producer, partition) =>
        answer := transactions.ValidateProduce(tid, producer, partition);
      case AddOffset(tid, producer, offset) => answer := transactions.AddOffset(tid, producer, offset);
      case EndTransaction(tid, producer, commit) => answer := transactions.End(tid, producer, commit);
    }

    method ServeGroupRequest(request: GroupRequest) returns (answer: GroupAnswer)
      modifies groups
      ensures (groups.groups, answer) == ServeGroup(old(groups.groups), request)
    {
      match request
      case Join(group, member, subscriptions, list) => answer := groups.Join(group, member, subscriptions, list);
      case Heartbeat(group, member, generation) => answer := groups.Heartbeat(group, member, generation);
      case Leave(group, member, generation) => answer := groups.Leave(group, member, generation);
      case LeaveAny(group, member) => answer := groups.LeaveAny(group, member);
      case CommitOffset(group, generation, partition, offset) =>
        answer := groups.CommitOffset(group, generation, partition, offset);
      case FetchOffset(group, partition) => answer := groups.Offset(group, partition);
    }

    /** What adding one log does to the shard. */
    twostate lemma OneLogAdded(tp: TopicPartition, new log: PartitionLog)
      requires tp !in old(logs) && logs == old(logs)[tp := log]
      requires forall q :: q in old(logs) ==> unchanged(old(logs[q]))
      ensures LogStates() == old(LogStates())[tp := log.State()]
    {
    }

    /** Makes the log of a partition that has none. */
    method AddLog(tp: TopicPartition) returns (log: PartitionLog)
      requires Valid() && tp !in logs
      modifies this`logs
      ensures logs == old(logs)[tp := log] && Valid() && fresh(log)
      ensures LogStates() == old(LogStates())[tp := EmptyLog(settings.limit)]
    {
      log := new PartitionLog(settings.limit);
      logs := logs[tp := log];
      OneLogAdded(tp, log);
    }

    /** The log of a partition, which is made when it is first needed. */
    method LogFor(tp: TopicPartition) returns (log: PartitionLog)
      requires Valid()
      modifies this`logs
      ensures logs == old(logs)[tp := log] && Valid()
      ensures if tp in old(logs) then log == old(logs[tp]) else fresh(log)
      ensures LogStates() == old(LogStates())[tp := LogAt(settings, old(State()), tp)]
    {
      if tp !in logs {
        log := AddLog(tp);
      } else {
        log := logs[tp];
        UpdatedSame(logs, tp);
        UpdatedSame(LogStates(), tp);
      }
    }

    /** Carries out a command on a log the shard already has. */
    method ExecuteHeld(command: Command) returns (reply: Reply)
      requires Valid() && command.OnLog() && command.tp in logs
      modifies logs[command.tp]
      ensures Valid()
      ensures var r := HandleOnLog(old(LogStates()[command.tp]), command);
              LogStates() == old(LogStates())[command.tp := r.0] && reply == r.1
    {
      reply := ExecuteOnLog(logs[command.tp], command);
      OneLogChanged(command.tp);
    }

    /** Carries out a command about one partition of the catalog. */
    method ExecuteOnPartition(command: Command) returns (reply: Reply)
      requires Valid() && command.OnLog()
      modifies this`logs, Logs()
      ensures Valid()
      ensures forall q :: q in logs ==> fresh(logs[q]) || (q in old(logs) && logs[q] == old(logs[q]))
      ensures var r := HandleOnLog(LogAt(settings, old(State()), command.tp), command);
              LogStates() == old(LogStates())[command.tp := r.0] && reply == r.1
    {
      ghost var before, first := LogStates(), LogAt(settings, State(), command.tp);
      var log := LogFor(command.tp);
      assert LogStates()[command.tp] == first;
      reply := ExecuteHeld(command);
      UpdatedTwice(before, command.tp, first, HandleOnLog(first, command).0);
    }

    /** Carries out a command about one partition, which must be in the catalog. */
    method ExecuteChecked(command: Command) returns (reply: Reply)
      requires Valid() && command.OnLog()
      modifies this`logs, Logs()
      ensures Valid()
      ensures forall q :: q in logs ==> fresh(logs[q]) || (q in old(logs) && logs[q] == old(logs[q]))
      ensures (State(), reply) == Handle(settings, old(State()), command)
    {
      var refused := CheckPartition(settings.catalog, command.tp);
      if refused.Some? {
        reply := Failed(refused.value);
      } else {
        reply := ExecuteOnPartition(command);
      }
    }

    method ExecuteResolution(id: int, commit: bool)
      requires Valid()
      modifies Logs()
      ensures Valid() && State() == Handle(settings, old(State()), ResolveTransaction(id, commit)).0
    {
      ghost var before := LogStates();
      ResolveAll(id, commit);
      ResolvedTogether(before, LogStates(), id, commit);
    }

    /** Carries out a coordination request. */
    method ExecuteCoordination(request: CoordinationRequest) returns (reply: Reply)
      requires Valid()
      modifies transactions, groups
      ensures Valid() && (State(), reply) == HandleCoordination(old(State()), request)
    {
      if request.OfTransaction? {
        var answer := ServeTransaction(request.transactional);
        reply := Transacted(answer);
      } else {
        var answer := ServeGroupRequest(request.grouped);
        reply := Grouped(answer);
      }
      LogsUntouched();
    }

    /** One turn of the message loop. */
    method Execute(command: Command) returns (reply: Reply)
      requires Valid()
      modifies Repr()
      ensures Valid()
      ensures forall q :: q in logs ==> fresh(logs[q]) || (q in old(logs) && logs[q] == old(logs[q]))
      ensures (State(), reply) == Handle(settings, old(State()), command)
      ensures stopped == (old(stopped) || command.Shutdown?)
    {
      if command.OnLog() {
        reply := ExecuteChecked(command);
        return;
      }
      match command
      case ResolveTransaction(id, commit) =>
        ExecuteResolution(id, commit);
        reply := Resolved;
      case Coordinate(request) =>
        reply := ExecuteCoordination(request);
      case Shutdown =>
        stopped, reply := true, Stopped;
    }

    /** Takes commands in mailbox order until a shutdown; what comes behind it is not looked at. */
    method Run(mailbox: seq<Command>) returns (replies: seq<Reply>)
      requires Valid() && !stopped
      modifies Repr()
      ensures Valid()
      ensures (State(), replies) == RunShard(settings, old(State()), mailbox)
    {
      replies := [];
      var i := 0;
      ghost var whole := RunShard(settings, State(), mailbox);
      assert mailbox[0..] == mailbox && [] + whole.1 == whole.1;
      while i < |mailbox| && !stopped
        invariant 0 <= i <= |mailbox| && Valid()
        invariant forall q :: q in logs ==> fresh(logs[q]) || (q in old(logs) && logs[q] == old(logs[q]))
        invariant whole == Behind(replies, Ahead(settings, State(), mailbox[i..], stopped))
      {
        ghost var shard := State();
        var reply := Execute(mailbox[i]);
        OneTurn(settings, shard, mailbox, i, replies);
        replies := replies + [reply];
        i := i + 1;
      }
      assert replies + [] == replies;
    }
  }

  /** What a task has still to do: nothing once it has stopped. */
  ghost function Ahead(settings: Settings, shard: Shard, mailbox: seq<Command>, stopped: bool): (Shard, seq<Reply>) {
    if stopped then (shard, []) else RunShard(settings, shard, mailbox)
  }

  ghost function Behind(replies: seq<Reply>, run: (Shard, seq<Reply>)): (Shard, seq<Reply>) {
    (run.0, replies + run.1)
  }

  lemma OneTurn(settings: Settings, shard: Shard, mailbox: seq<Command>, i: nat, replies: seq<Reply>)
    requires i < |mailbox|
    ensures var r := Handle(settings, shard, mailbox[i]);
            Behind(replies, RunShard(settings, shard, mailbox[i..]))
            == Behind(replies + [r.1], Ahead(settings, r.0, mailbox[i + 1..], mailbox[i].Shutdown?))
  {
    var r := Handle(settings, shard, mailbox[i]);
    var rest := Ahead(settings, r.0, mailbox[i + 1..], mailbox[i].Shutdown?);
    assert mailbox[i..][1..] == mailbox[i + 1..];
    ConcatAssociative(replies, [r.1], rest.1);
    assert [r.1] + [] == [r.1];
  }
}
