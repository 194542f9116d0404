/** The transaction coordinator: producer identities, epochs, and what a transaction has enlisted. */
module Transactions {
  import opened Records
  import opened Order

  const I16_MAX := 0x7fff
  const I64_MAX := 0x7fff_ffff_ffff_ffff

  datatype ProducerIdentity = ProducerIdentity(id: int, epoch: int)

  datatype TransactionStatus = Empty | Ongoing | PrepareCommit | PrepareAbort

  datatype TransactionOffset = TransactionOffset(groupId: Bytes, generation: int, topic: Bytes, partition: int,
                                                 offset: int)

  datatype Transaction = Transaction(identity: ProducerIdentity, status: TransactionStatus,
                                     partitions: set<TopicPartition>, offsets: seq<TransactionOffset>)

  /** What has to be resolved once a transaction ends. */
  datatype Completion = Completion(partitions: seq<TopicPartition>, offsets: seq<TransactionOffset>)

  datatype CoordinationError =
    | InvalidId
    | UnknownTransaction
    | ProducerFenced
    | InvalidTransactionState
    | UnknownGroup
    | UnknownMember
    | IllegalGeneration

  datatype Coordinator = Coordinator(nextId: int, transactions: map<Bytes, Transaction>)

  datatype Request =
    | InitProducer(tid: Bytes)
    | AddPartition(tid: Bytes, producer: ProducerIdentity, partition: TopicPartition)
    | ValidateProduce(tid: Bytes, producer: ProducerIdentity, partition: TopicPartition)
    | AddOffset(tid: Bytes, producer: ProducerIdentity, offset: TransactionOffset)
    | EndTransaction(tid: Bytes, producer: ProducerIdentity, commit: bool)

  datatype Response =
    | Producer(identity: ProducerIdentity)
    | Applied
    | Completed(completion: Completion)

  type Answer = Result<Response, CoordinationError>

  const NewCoordinator := Coordinator(1, map[])

  function Saturating(value: int, max: int): int {
    if value <= max then value else max
  }

  function ListPartitions(partitions: set<TopicPartition>): (listing: seq<TopicPartition>)
    ensures forall p :: p in listing <==> p in partitions
    ensures SortedBy(listing, PartitionLess)
  {
    PartitionsOrdered();
    Ascending(partitions, PartitionLess)
  }

  // ---------------------------------------------------------------- the operations

  function Issue(c: Coordinator, tid: Bytes): ProducerIdentity {
    if tid in c.transactions then
      ProducerIdentity(c.transactions[tid].identity.id, Saturating(c.transactions[tid].identity.epoch + 1, I16_MAX))
    else
      ProducerIdentity(c.nextId, 0)
  }

  function Init(c: Coordinator, tid: Bytes): (Coordinator, Answer) {
    if tid == [] then (c, Err(InvalidId))
    else
      var nextId := if tid in c.transactions then c.nextId else Saturating(c.nextId + 1, I64_MAX);
      (Coordinator(nextId, c.transactions[tid := Transaction(Issue(c, tid), Empty, {}, [])]),
       Ok(Producer(Issue(c, tid))))
  }

  /** Why the coordinator refuses to act for this identity, if it does. */
  function Fence(c: Coordinator, tid: Bytes, producer: ProducerIdentity): Option<CoordinationError> {
    if tid !in c.transactions then Some(UnknownTransaction)
    else if c.transactions[tid].identity != producer then Some(ProducerFenced)
    else None
  }

  predicate Malformed(request: Request) {
    match request
    case AddPartition(_, _, partition) => partition.0 == [] || partition.1 < 0
    case AddOffset(_, _, offset) =>
      offset.groupId == [] || offset.topic == [] || offset.generation < 0 || offset.partition < 0 || offset.offset < 0
    case _ => false
  }

  /** The effect of a request on the transaction it is fenced for; `None` when its status forbids it. */
  function Act(t: Transaction, request: Request): Option<(Transaction, Response)>
    requires !request.InitProducer?
  {
    match request
    case AddPartition(_, _, partition) =>
      if t.status.PrepareCommit? || t.status.PrepareAbort? then None
      else Some((t.(status := Ongoing, partitions := t.partitions + {partition}), Applied))
    case ValidateProduce(_, _, partition) =>
      if t.status.Ongoing? && partition in t.partitions then Some((t, Applied)) else None
    case AddOffset(_, _, offset) =>
      if t.status.Ongoing? then Some((t.(offsets := t.offsets + [offset]), Applied)) else None
    case EndTransaction(_, _, _) =>
      if t.status.Ongoing? then
        Some((Transaction(t.identity, Empty, {}, []), Completed(Completion(ListPartitions(t.partitions), t.offsets))))
      else None
  }

  function Serve(c: Coordinator, request: Request): (Coordinator, Answer) {
    if request.InitProducer? then Init(c, request.tid)
    else if Malformed(request) then (c, Err(InvalidId))
    else
      match Fence(c, request.tid, request.producer)
      case Some(error) => (c, Err(error))
      case None =>
        match Act(c.transactions[request.tid], request)
        case None => (c, Err(InvalidTransactionState))
        case Some(done) => (c.(transactions := c.transactions[request.tid := done.0]), Ok(done.1))
  }

  // ---------------------------------------------------------------- the mutable coordinator

  class TransactionCoordinator {
    var nextId: int
    var transactions: map<Bytes, Transaction>

    ghost function State(): Coordinator
      reads this
    {
      Coordinator(nextId, transactions)
    }

    constructor ()
      ensures State() == NewCoordinator
    {
      nextId, transactions := 1, map[];
    }

    method InitProducer(tid: Bytes) returns (r: Result<ProducerIdentity, CoordinationError>)
      modifies this
      ensures State() == Serve(old(State()), Request.InitProducer(tid)).0
      ensures Serve(old(State()), Request.InitProducer(tid)).1 == if r.Ok? then Ok(Producer(r.value)) else Err(r.error)
    {
      if |tid| == 0 {
        return Err(InvalidId);
      }
      var identity;
      if tid in transactions {
        var previous := transactions[tid].identity;
        identity := ProducerIdentity(previous.id, if previous.epoch < I16_MAX then previous.epoch + 1 else I16_MAX);
      } else {
        identity := ProducerIdentity(nextId, 0);
        nextId := if nextId < I64_MAX then nextId + 1 else I64_MAX;
      }
      transactions := transactions[tid := Transaction(identity, Empty, {}, [])];
      r := Ok(identity);
    }

    /** Looks a transaction up and fences every identity but the current one. */
    method Lookup(tid: Bytes, producer: ProducerIdentity) returns (r: Result<Transaction, CoordinationError>)
      ensures r.Err? ==> Fence(State(), tid, producer) == Some(r.error)
      ensures r.Ok? ==> Fence(State(), tid, producer).None? && r.value == transactions[tid]
    {
      if tid !in transactions {
        return Err(UnknownTransaction);
      }
      if transactions[tid].identity != producer {
        return Err(ProducerFenced);
      }
      r := Ok(transactions[tid]);
    }

    method AddPartition(tid: Bytes, producer: ProducerIdentity, partition: TopicPartition) returns (r: Answer)
      modifies this
      ensures (State(), r) == Serve(old(State()), Request.AddPartition(tid, producer, partition))
    {
      if |partition.0| == 0 || partition.1 < 0 {
        return Err(InvalidId);
      }
      var found := Lookup(tid, producer);
      if found.Err? {
        return Err(found.error);
      }
      var transaction := found.value;
      if transaction.status in {PrepareCommit, PrepareAbort} {
        return Err(InvalidTransactionState);
      }
      transaction := transaction.(status := Ongoing);
      transaction := transaction.(partitions := transaction.partitions + {partition});
      transactions := transactions[tid := transaction];
      r := Ok(Applied);
    }

    method ValidateProduce(tid: Bytes, producer: ProducerIdentity, partition: TopicPartition) returns (r: Answer)
      ensures (State(), r) == Serve(State(), Request.ValidateProduce(tid, producer, partition))
    {
      var found := Lookup(tid, producer);
      if found.Err? {
        return Err(found.error);
      }
      if found.value.status != Ongoing || partition !in found.value.partitions {
        return Err(InvalidTransactionState);
      }
      assert transactions == transactions[tid := found.value];
      r := Ok(Applied);
    }

    method AddOffset(tid: Bytes, producer: ProducerIdentity, offset: TransactionOffset) returns (r: Answer)
      modifies this
      ensures (State(), r) == Serve(old(State()), Request.AddOffset(tid, producer, offset))
    {
      if |offset.groupId| == 0 || |offset.topic| == 0
        || offset.generation < 0 || offset.partition < 0 || offset.offset < 0
      {
        return Err(InvalidId);
      }
      var found := Lookup(tid, producer);
      if found.Err? {
        return Err(found.error);
      }
      if found.value.status != Ongoing {
        return Err(InvalidTransactionState);
      }
      transactions := transactions[tid := found.value.(offsets := found.value.offsets + [offset])];
      r := Ok(Applied);
    }

    method End(tid: Bytes, producer: ProducerIdentity, commit: bool) returns (r: Answer)
      modifies this
      ensures (State(), r) == Serve(old(State()), EndTransaction(tid, producer, commit))
    {
      var found := Lookup(tid, producer);
      if found.Err? {
        return Err(found.error);
      }
      var transaction := found.value;
      if transaction.status != Ongoing {
        return Err(InvalidTransactionState);
      }
      transaction := transaction.(status := if commit then PrepareCommit else PrepareAbort);
      var completion := Completion(ListPartitions(transaction.partitions), transaction.offsets);
      transaction := transaction.(partitions := {}, offsets := []);
      transaction := transaction.(status := Empty);
      transactions := transactions[tid := transaction];
      r := Ok(Completed(completion));
    }
  }
}
