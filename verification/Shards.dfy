/** One partition shard: the commands it takes, the state only it may change, and how it answers. */
module Shards {
  import opened Records
  import opened Log
  import opened Transactions
  import opened Groups

  datatype CoordinationRequest = OfTransaction(transactional: Request) | OfGroup(grouped: GroupRequest)

  datatype Command =
    | Produce(tp: TopicPartition, records: seq<RecordData>)
    | ProduceTransactional(tp: TopicPartition, records: seq<RecordData>, id: int)
    | Fetch(tp: TopicPartition, offset: int, maxRecords: nat, maxBytes: nat, readCommitted: bool)
    | ListOffset(tp: TopicPartition, earliest: bool)
    | ResolveTransaction(id: int, commit: bool)
    | Coordinate(request: CoordinationRequest)
    | Shutdown
  {
    /** Whether the command is about one partition's log. */
    predicate OnLog() {
      Produce? || ProduceTransactional? || Fetch? || ListOffset?
    }
  }

  datatype Reply =
    | Produced(base: int)
    | Window(window: FetchWindow)
    | OffsetIs(offset: int)
    | Failed(error: LogError)
    | Transacted(answer: Answer)
    | Grouped(groupAnswer: GroupAnswer)
    | Resolved
    | Stopped

  datatype Shard = Shard(logs: map<TopicPartition, LogState>, transactions: Coordinator, groups: Coordination)

  /** The topic catalog and the byte budget every shard is started with. */
  datatype Settings = Settings(catalog: map<Bytes, int>, limit: Option<nat>)

  const NewShard := Shard(map[], NewCoordinator, map[])

  function CheckPartition(catalog: map<Bytes, int>, tp: TopicPartition): Option<LogError> {
    if tp.0 !in catalog then Some(UnknownTopic)
    else if tp.1 < 0 || tp.1 >= catalog[tp.0] then Some(UnknownPartition)
    else None
  }

  /** The log of a partition, which is created empty when it is first needed. */
  function LogAt(settings: Settings, shard: Shard, tp: TopicPartition): LogState {
    if tp in shard.logs then shard.logs[tp] else EmptyLog(settings.limit)
  }

  function Appended(result: Result<int, LogError>): Reply {
    match result
    case Ok(base) => Produced(base)
    case Err(error) => Failed(error)
  }

  function HandleOnLog(log: LogState, command: Command): (LogState, Reply)
    requires command.OnLog()
  {
    match command
    case Produce(_, records) =>
      var r := AppendBatch(log, records, None);
      (r.0, Appended(r.1))
    case ProduceTransactional(_, records, id) =>
      var r := AppendBatch(log, records, Some(id));
      (r.0, Appended(r.1))
    case Fetch(_, offset, maxRecords, maxBytes, readCommitted) =>
      (log, match Log.Fetch(log, offset, maxRecords, maxBytes, readCommitted)
            case Ok(window) => Window(window)
            case Err(error) => Failed(error))
    case ListOffset(_, earliest) =>
      (log, OffsetIs(if earliest then StartOffset(log) else log.nextOffset))
  }

  function HandleCoordination(shard: Shard, request: CoordinationRequest): (Shard, Reply) {
    match request
    case OfTransaction(r) =>
      var served := Serve(shard.transactions, r);
      (shard.(transactions := served.0), Transacted(served.1))
    case OfGroup(r) =>
      var served := ServeGroup(shard.groups, r);
      (shard.(groups := served.0), Grouped(served.1))
  }

  /** One turn of the shard's message loop. */
  function Handle(settings: Settings, shard: Shard, command: Command): (Shard, Reply) {
    if command.OnLog() then
      match CheckPartition(settings.catalog, command.tp)
      case Some(error) => (shard, Failed(error))
      case None =>
        var r := HandleOnLog(LogAt(settings, shard, command.tp), command);
        (shard.(logs := shard.logs[command.tp := r.0]), r.1)
    else
      match command
      case ResolveTransaction(id, commit) =>
        (shard.(logs := map tp | tp in shard.logs :: ResolveLog(shard.logs[tp], id, commit)), Resolved)
      case Coordinate(request) => HandleCoordination(shard, request)
      case _ => (shard, Stopped)
  }

  /** A whole mailbox: commands in order up to the first shutdown, what comes behind it is not looked at. */
  function RunShard(settings: Settings, shard: Shard, mailbox: seq<Command>): (Shard, seq<Reply>)
    decreases |mailbox|
  {
    if mailbox == [] then (shard, [])
    else
      var r := Handle(settings, shard, mailbox[0]);
      if mailbox[0].Shutdown? then (r.0, [r.1])
      else
        var rest := RunShard(settings, r.0, mailbox[1..]);
        (rest.0, [r.1] + rest.1)
  }
}
