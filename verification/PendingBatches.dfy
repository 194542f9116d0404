/** What log and shard commands do to the pending and resolved batches of one producer. */
module PendingBatches {
  import opened Records
  import opened Log
  import opened Shards

  /** The log holds a batch of producer `id` that is not resolved yet. */
  predicate HasPending(log: LogState, id: int) {
    exists i :: 0 <= i < |log.batches| && log.batches[i].transaction == Some(id) && log.batches[i].state.Pending?
  }

  /** Every batch of producer `id` the log holds has this outcome. */
  predicate AllResolved(log: LogState, id: int, outcome: BatchState) {
    forall i :: 0 <= i < |log.batches| && log.batches[i].transaction == Some(id) ==> log.batches[i].state == outcome
  }

  lemma PushedBatches(log: LogState, b: Batch, i: nat)
    requires i < |PushBatch(log, b).batches|
    ensures PushBatch(log, b).batches[i] == b || PushBatch(log, b).batches[i] in log.batches
  {
    var all := log.batches + [b];
    RetainIsSuffix(all, log.maxBytes);
    var kept := Retain(all, log.maxBytes);
    assert kept[i] == all[|all| - |kept| + i];
  }

  lemma AppendKeeps(log: LogState, inputs: seq<RecordData>, transaction: Option<int>, id: int, outcome: BatchState)
    ensures var next := AppendBatch(log, inputs, transaction).0;
            && (HasPending(next, id) ==> HasPending(log, id) || transaction == Some(id))
            && (AllResolved(log, id, outcome) && transaction != Some(id) ==> AllResolved(next, id, outcome))
  {
    var next := AppendBatch(log, inputs, transaction).0;
    if Rejection(inputs).None? {
      var b := NewBatch(inputs, log.nextOffset, transaction);
      forall i | 0 <= i < |next.batches| ensures next.batches[i] == b || next.batches[i] in log.batches {
        PushedBatches(log, b, i);
      }
    }
  }

  lemma ResolveKeeps(log: LogState, producer: int, commit: bool, id: int, outcome: BatchState)
    ensures var next := ResolveLog(log, producer, commit);
            && (HasPending(next, id) ==> HasPending(log, id) && id != producer)
            && AllResolved(next, producer, Outcome(commit))
            && (AllResolved(log, id, outcome) && id != producer ==> AllResolved(next, id, outcome))
  {
    var next := ResolveLog(log, producer, commit);
    forall i | 0 <= i < |next.batches| ensures next.batches[i] == ResolveBatch(log.batches[i], producer, commit) {}
  }

  // ---------------------------------------------------------------- on a shard

  predicate PendingAt(settings: Settings, shard: Shard, tp: TopicPartition, id: int) {
    HasPending(LogAt(settings, shard, tp), id)
  }

  predicate ResolvedAt(settings: Settings, shard: Shard, tp: TopicPartition, id: int, outcome: BatchState) {
    AllResolved(LogAt(settings, shard, tp), id, outcome)
  }

  /** A transactional append of the producer to the partition. */
  predicate IsAppend(command: Command, tp: TopicPartition, id: int) {
    command.ProduceTransactional? && command.tp == tp && command.id == id
  }

  lemma PendingIsStored(settings: Settings, shard: Shard, tp: TopicPartition, id: int)
    requires PendingAt(settings, shard, tp, id)
    ensures tp in shard.logs
  {
  }

  /** Only a transactional append of the producer makes one of its batches pending, and only its own commands touch
      what is resolved. */
  lemma HandleKeeps(settings: Settings, shard: Shard, command: Command, tp: TopicPartition, id: int,
                    outcome: BatchState)
    ensures var next := Handle(settings, shard, command).0;
            && (PendingAt(settings, next, tp, id) ==> PendingAt(settings, shard, tp, id) || IsAppend(command, tp, id))
            && (ResolvedAt(settings, shard, tp, id, outcome) && !IsAppend(command, tp, id)
                && !(command.ResolveTransaction? && command.id == id) ==>
                  ResolvedAt(settings, next, tp, id, outcome))
  {
    var log := LogAt(settings, shard, tp);
    match command
    case Produce(_, records) => AppendKeeps(log, records, None, id, outcome);
    case ProduceTransactional(_, records, producer) => AppendKeeps(log, records, Some(producer), id, outcome);
    case ResolveTransaction(producer, commit) => ResolveKeeps(log, producer, commit, id, outcome);
    case _ =>
  }

  /** A resolution leaves nothing of its producer pending on its shard, and one outcome on everything. */
  lemma ResolveSettles(settings: Settings, shard: Shard, id: int, commit: bool, tp: TopicPartition)
    ensures var next := Handle(settings, shard, ResolveTransaction(id, commit)).0;
            !PendingAt(settings, next, tp, id) && ResolvedAt(settings, next, tp, id, Outcome(commit))
  {
    ResolveKeeps(LogAt(settings, shard, tp), id, commit, id, Committed);
  }
}
