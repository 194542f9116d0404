/** Runs that end a transaction and leave a batch pending, or decide one that was discarded. */
module BrokerWitnesses {
  import opened Records
  import opened Log
  import opened Order
  import opened Transactions
  import opened Groups
  import opened Shards
  import opened Broker
  import opened BatchFates
  import opened BrokerRuns
  import opened Walks
  import BrokerTransactions
  import GivingUp
  import OwedResolutions

  /** A transactional id, a partition and records that the broker has no reason to refuse. */
  predicate Proper(tid: Bytes, tp: TopicPartition, records: seq<RecordData>) {
    tid != [] && tp.0 != [] && tp.1 >= 0 && Rejection(records).None?
  }

  /** The identity a first initialisation gives out. */
  const FIRST := ProducerIdentity(1, 0)

  /** The identity a second initialisation of the same id gives out. */
  const SECOND := ProducerIdentity(1, 1)

  function Registered(tid: Bytes, t: Transaction): Coordinator {
    Coordinator(2, map[tid := t])
  }

  function Opened(tid: Bytes, producer: ProducerIdentity, tp: TopicPartition, offsets: seq<TransactionOffset>)
    : Coordinator
  {
    Registered(tid, Transaction(producer, Ongoing, {tp}, offsets))
  }

  function Closed(tid: Bytes, producer: ProducerIdentity): Coordinator {
    Registered(tid, Transaction(producer, Empty, {}, []))
  }

  function Holding(tp: TopicPartition, b: Batch, c: Coordinator): Shard {
    Shard(map[tp := LogState([b], |b.records|, None, Size([b]))], c, map[])
  }

  /** The batch the first append of `FIRST` makes. */
  function Kept(records: seq<RecordData>): Batch {
    NewBatch(records, 0, Some(FIRST.id))
  }

  // ---------------------------------------------------------------- what the shard answers

  lemma OnlyPartition(tp: TopicPartition)
    ensures ListPartitions({tp}) == [tp]
  {
    var listing := ListPartitions({tp});
    assert tp in listing;
    if |listing| > 1 {
      assert listing[0] in listing && listing[1] in listing;
      PartitionsOrdered();
      ListedOnce(listing, PartitionLess, 0, 1);
    }
  }

  lemma EndCloses(tid: Bytes, producer: ProducerIdentity, tp: TopicPartition, offsets: seq<TransactionOffset>,
                  commit: bool)
    ensures Serve(Opened(tid, producer, tp, offsets), EndTransaction(tid, producer, commit))
            == (Closed(tid, producer), Ok(Completed(Completion([tp], offsets))))
  {
    OnlyPartition(tp);
    var t := Opened(tid, producer, tp, offsets).transactions;
    assert t[tid := Transaction(producer, Empty, {}, [])] == Closed(tid, producer).transactions;
  }

  lemma AppendKeeps(tp: TopicPartition, records: seq<RecordData>, c: Coordinator)
    requires tp.1 >= 0 && Rejection(records).None?
    ensures Handle(OneShard(tp).settings, Shard(map[], c, map[]), ProduceTransactional(tp, records, FIRST.id))
            == (Holding(tp, Kept(records), c), Produced(0))
  {
    assert [] + [Kept(records)] == [Kept(records)];
  }

  lemma ResolveDecides(tp: TopicPartition, b: Batch, c: Coordinator, g: Coordination, id: int, commit: bool)
    ensures Handle(OneShard(tp).settings, Holding(tp, b, c).(groups := g), ResolveTransaction(id, commit))
            == (Holding(tp, ResolveBatch(b, id, commit), c).(groups := g), Resolved)
  {
    var decided := ResolveBatch(b, id, commit);
    assert ResolveBatches([b], id, commit) == [decided];
    ResolveKeepsSize([b], id, commit);
    var logs := Holding(tp, b, c).logs;
    assert (map p | p in logs :: ResolveLog(logs[p], id, commit)) == Holding(tp, decided, c).logs;
  }

  lemma ResolveFindsNothing(tp: TopicPartition, c: Coordinator, id: int, commit: bool)
    ensures Handle(OneShard(tp).settings, Shard(map[], c, map[]), ResolveTransaction(id, commit))
            == (Shard(map[], c, map[]), Resolved)
  {
  }

  lemma AddReopens(tid: Bytes, producer: ProducerIdentity, tp: TopicPartition)
    requires tp.0 != [] && tp.1 >= 0
    ensures Serve(Closed(tid, producer), AddPartition(tid, producer, tp))
            == (Opened(tid, producer, tp, []), Ok(Applied))
  {
    var t := Closed(tid, producer).transactions;
    assert {} + {tp} == {tp};
    assert t[tid := Transaction(producer, Ongoing, {tp}, [])] == Opened(tid, producer, tp, []).transactions;
  }

  lemma InitReissues(tid: Bytes, tp: TopicPartition)
    requires tid != []
    ensures Serve(Opened(tid, FIRST, tp, []), InitProducer(tid)) == (Closed(tid, SECOND), Ok(Producer(SECOND)))
  {
    var t := Opened(tid, FIRST, tp, []).transactions;
    assert t[tid := Transaction(SECOND, Empty, {}, [])] == Closed(tid, SECOND).transactions;
  }

  // ---------------------------------------------------------------- opening a transaction

  lemma {:induction false} Opens(tid: Bytes, tp: TopicPartition, clients: nat) returns (state: State)
    requires tid != [] && tp.0 != [] && tp.1 >= 0 && clients > 0
    ensures Quiescent(OneShard(tp), state, Shard(map[], Opened(tid, FIRST, tp, []), map[]))
    ensures state.clients == seq(clients, _ => Idle)
  {
    var config := OneShard(tp);
    state := Starts(config, clients);
    state := Coordinates(config, state, NewShard, 0, OfTransaction(InitProducer(tid)));
    var begun := Shard(map[], Closed(tid, FIRST), map[]);
    assert Quiescent(config, state, begun);
    state := Coordinates(config, state, begun, 0, OfTransaction(AddPartition(tid, FIRST, tp)));
    assert {} + {tp} == {tp};
    assert map[tid := Transaction(FIRST, Empty, {}, [])][tid := Transaction(FIRST, Ongoing, {tp}, [])]
        == map[tid := Transaction(FIRST, Ongoing, {tp}, [])];
  }

  /** Validates a transactional append, whose caller may now append whenever it likes. */
  lemma {:induction false} Validates(tid: Bytes, tp: TopicPartition, records: seq<RecordData>, state: State, k: nat)
    returns (next: State)
    requires tp.1 >= 0 && k < |state.clients| && state.clients[k].Idle?
    requires Quiescent(OneShard(tp), state, Shard(map[], Opened(tid, FIRST, tp, []), map[]))
    ensures Quiescent(OneShard(tp), next, Shard(map[], Opened(tid, FIRST, tp, []), map[]))
    ensures next.clients
            == state.clients[k := Ready(ProduceTransactionalCall(tid, FIRST, tp, records), Append, |state.handled|)]
  {
    var config, shard := OneShard(tp), Shard(map[], Opened(tid, FIRST, tp, []), map[]);
    var call := ProduceTransactionalCall(tid, FIRST, tp, records);
    next := Begins(config, state, shard, k, call);
    var answer := Serve(shard.transactions, ValidateProduce(tid, FIRST, tp));
    assert answer == (shard.transactions, Ok(Applied)) by {
      var t := shard.transactions.transactions;
      assert t[tid := t[tid]] == t;
    }
    next := Asks(config, next, shard, k);
    next := Proceeds(config, next, shard, k, Append);
  }

  /** A transaction that is open and has one batch. */
  lemma {:induction false} Produces(tid: Bytes, tp: TopicPartition, records: seq<RecordData>) returns (state: State)
    requires Proper(tid, tp, records)
    ensures Quiescent(OneShard(tp), state, Holding(tp, Kept(records), Opened(tid, FIRST, tp, [])))
    ensures state.clients == [Idle]
  {
    var config := OneShard(tp);
    state := Opens(tid, tp, 1);
    state := Validates(tid, tp, records, state, 0);
    AppendKeeps(tp, records, Opened(tid, FIRST, tp, []));
    state := Asks(config, state, Shard(map[], Opened(tid, FIRST, tp, []), map[]), 0);
    state := Returns(config, state, Holding(tp, Kept(records), Opened(tid, FIRST, tp, [])), 0, Succeeded(Produced(0)));
  }

  /** Ends an open transaction up to the point where its partition is to be resolved. */
  lemma {:induction false} EndsTo(tid: Bytes, producer: ProducerIdentity, tp: TopicPartition,
                                  offsets: seq<TransactionOffset>, commit: bool, state: State, shard: Shard, k: nat)
    returns (next: State)
    requires Quiescent(OneShard(tp), state, shard) && shard.transactions == Opened(tid, producer, tp, offsets)
    requires k < |state.clients| && state.clients[k].Idle?
    ensures Quiescent(OneShard(tp), next, shard.(transactions := Closed(tid, producer)))
    ensures next.clients
            == state.clients[k := Ready(EndCall(tid, producer, commit), Resolving(Completion([tp], offsets), 0),
                                        |state.handled|)]
    ensures next.finished == state.finished
  {
    var config := OneShard(tp);
    var call, stage := EndCall(tid, producer, commit), Resolving(Completion([tp], offsets), 0);
    EndCloses(tid, producer, tp, offsets, commit);
    next := Begins(config, state, shard, k, call);
    next := Asks(config, next, shard, k);
    next := Proceeds(config, next, shard.(transactions := Closed(tid, producer)), k, stage);
  }

  // ---------------------------------------------------------------- an append behind the end

  /** Nobody is ending for a producer, no message is on its way, and a batch of it is still pending. */
  ghost predicate Orphaned(config: Config, state: State, tp: TopicPartition, b: Batch) {
    && Retained(config, state, tp, b) && IsPending(b)
    && (forall k :: 0 <= k < |state.clients| && !state.clients[k].Idle? ==> !state.clients[k].call.EndCall?)
    && (forall s :: 0 <= s < |state.nodes| ==> state.nodes[s].mailbox == [])
  }

  predicate LastReturn(state: State, call: Call, outcome: Outcome) {
    state.finished != []
    && var f := state.finished[|state.finished| - 1]; f.call == call && f.outcome == outcome
  }

  predicate TransactionClosed(state: State, tid: Bytes) {
    && |state.nodes| > 0
    && var c := BrokerTransactions.CoordinatorOf(state.nodes);
    tid in c.transactions && !c.transactions[tid].status.Ongoing?
  }

  lemma LeavesOrphan(tid: Bytes, producer: ProducerIdentity, tp: TopicPartition, records: seq<RecordData>, state: State)
    requires Quiescent(OneShard(tp), state, Holding(tp, Kept(records), Closed(tid, producer)))
    requires forall k :: 0 <= k < |state.clients| && !state.clients[k].Idle? ==> !state.clients[k].call.EndCall?
    ensures Orphaned(OneShard(tp), state, tp, Kept(records)) && TransactionClosed(state, tid)
  {
  }

  /** An append that was validated before the end and handled behind the resolution stays pending when the end
      returns, while the end reports success and the transaction is closed. */
  lemma {:induction false} AppendBehindTheEnd(tid: Bytes, tp: TopicPartition, records: seq<RecordData>, commit: bool)
    returns (state: State)
    requires Proper(tid, tp, records)
    ensures Reachable(OneShard(tp), state) && LastReturn(state, EndCall(tid, FIRST, commit), Ended)
    ensures Orphaned(OneShard(tp), state, tp, Kept(records)) && TransactionClosed(state, tid)
  {
    var config, ended := OneShard(tp), Shard(map[], Closed(tid, FIRST), map[]);
    state := Opens(tid, tp, 2);
    state := Validates(tid, tp, records, state, 1);
    state := EndsTo(tid, FIRST, tp, [], commit, state, Shard(map[], Opened(tid, FIRST, tp, []), map[]), 0);
    ResolveFindsNothing(tp, Closed(tid, FIRST), FIRST.id, commit);
    state := Asks(config, state, ended, 0);
    AppendKeeps(tp, records, Closed(tid, FIRST));
    state := Asks(config, state, ended, 1);
    state := Returns(config, state, Holding(tp, Kept(records), Closed(tid, FIRST)), 0, Ended);
    LeavesOrphan(tid, FIRST, tp, records, state);
  }

  // ---------------------------------------------------------------- giving up

  /** Giving up on the reply to the end itself: the end is handled all the same and nobody resolves. */
  lemma {:induction false} GivingUpOnTheReply(tid: Bytes, tp: TopicPartition, records: seq<RecordData>, commit: bool)
    returns (state: State)
    requires Proper(tid, tp, records)
    ensures Reachable(OneShard(tp), state) && LastReturn(state, EndCall(tid, FIRST, commit), ReplyTimeout)
    ensures Orphaned(OneShard(tp), state, tp, Kept(records)) && TransactionClosed(state, tid)
  {
    var config, shard := OneShard(tp), Holding(tp, Kept(records), Opened(tid, FIRST, tp, []));
    state := Produces(tid, tp, records);
    state := Begins(config, state, shard, 0, EndCall(tid, FIRST, commit));
    var channel := state.nextChannel;
    state := Sends(config, state, shard, 0);
    state := Abandons(config, state, 0);
    EndCloses(tid, FIRST, tp, [], commit);
    var end := Coordinate(OfTransaction(EndTransaction(tid, FIRST, commit)));
    state := Handles(config, state, shard, Message(0, channel, end));
    LeavesOrphan(tid, FIRST, tp, records, state);
  }

  /** Giving up before the resolution is sent leaves the batch pending. */
  lemma {:induction false} GivingUpUnsent(tid: Bytes, tp: TopicPartition, records: seq<RecordData>, commit: bool)
    returns (state: State)
    requires Proper(tid, tp, records)
    ensures Reachable(OneShard(tp), state) && LastReturn(state, EndCall(tid, FIRST, commit), MailboxUnavailable)
    ensures Orphaned(OneShard(tp), state, tp, Kept(records)) && TransactionClosed(state, tid)
  {
    var config := OneShard(tp);
    state := Produces(tid, tp, records);
    state := EndsTo(tid, FIRST, tp, [], commit, state, Holding(tp, Kept(records), Opened(tid, FIRST, tp, [])), 0);
    ReachableNext(config, state, GiveUpSending(0));
    state := Apply(config, state, GiveUpSending(0));
    LeavesOrphan(tid, FIRST, tp, records, state);
  }

  /** Giving up once the resolution is queued still decides the batch. */
  lemma {:induction false} GivingUpQueued(tid: Bytes, tp: TopicPartition, records: seq<RecordData>, commit: bool)
    returns (state: State)
    requires Proper(tid, tp, records)
    ensures Reachable(OneShard(tp), state) && LastReturn(state, EndCall(tid, FIRST, commit), ReplyTimeout)
    ensures Retained(OneShard(tp), state, tp, Kept(records).(state := Log.Outcome(commit)))
  {
    var config, ended := OneShard(tp), Holding(tp, Kept(records), Closed(tid, FIRST));
    state := Produces(tid, tp, records);
    state := EndsTo(tid, FIRST, tp, [], commit, state, Holding(tp, Kept(records), Opened(tid, FIRST, tp, [])), 0);
    var channel := state.nextChannel;
    state := Sends(config, state, ended, 0);
    state := Abandons(config, state, 0);
    ResolveDecides(tp, Kept(records), Closed(tid, FIRST), map[], FIRST.id, commit);
    state := Handles(config, state, ended, Message(0, channel, ResolveTransaction(FIRST.id, commit)));
  }

  // ---------------------------------------------------------------- re-initialising

  /** Re-initialising drops the open transaction and keeps its batch. */
  lemma {:induction false} Reinitialises(tid: Bytes, tp: TopicPartition, records: seq<RecordData>)
    returns (state: State)
    requires Proper(tid, tp, records)
    ensures Quiescent(OneShard(tp), state, Holding(tp, Kept(records), Closed(tid, SECOND)))
    ensures state.clients == [Idle]
    ensures Orphaned(OneShard(tp), state, tp, Kept(records)) && TransactionClosed(state, tid)
  {
    var config, shard := OneShard(tp), Holding(tp, Kept(records), Opened(tid, FIRST, tp, []));
    state := Produces(tid, tp, records);
    InitReissues(tid, tp);
    state := Coordinates(config, state, shard, 0, OfTransaction(InitProducer(tid)));
    LeavesOrphan(tid, SECOND, tp, records, state);
  }

  /** The next transaction of the producer, which appends nothing itself, publishes the batch that was discarded. */
  lemma {:induction false} DiscardedIsPublished(tid: Bytes, tp: TopicPartition, records: seq<RecordData>)
    returns (state: State)
    requires Proper(tid, tp, records)
    ensures Reachable(OneShard(tp), state) && LastReturn(state, EndCall(tid, SECOND, true), Ended)
    ensures Retained(OneShard(tp), state, tp, Kept(records).(state := Committed))
  {
    var config, discarded := OneShard(tp), Holding(tp, Kept(records), Closed(tid, SECOND));
    state := Reinitialises(tid, tp, records);
    AddReopens(tid, SECOND, tp);
    state := Coordinates(config, state, discarded, 0, OfTransaction(AddPartition(tid, SECOND, tp)));
    state := EndsTo(tid, SECOND, tp, [], true, state, Holding(tp, Kept(records), Opened(tid, SECOND, tp, [])), 0);
    ResolveDecides(tp, Kept(records), Closed(tid, SECOND), map[], SECOND.id, true);
    state := Asks(config, state, discarded, 0);
    var published := ResolveBatch(Kept(records), SECOND.id, true);
    state := Returns(config, state, Holding(tp, published, Closed(tid, SECOND)), 0, Ended);
  }

  /** Another caller enlists the partition of a closed transaction again, under the same identity, and appends. */
  lemma {:induction false} AppendsAgain(tid: Bytes, tp: TopicPartition, records: seq<RecordData>, state: State)
    returns (next: State)
    requires Proper(tid, tp, records) && |state.clients| == 2 && state.clients[1].Idle?
    requires Quiescent(OneShard(tp), state, Shard(map[], Closed(tid, FIRST), map[]))
    ensures Quiescent(OneShard(tp), next, Holding(tp, Kept(records), Opened(tid, FIRST, tp, [])))
    ensures next.clients == state.clients
  {
    var config, begun := OneShard(tp), Shard(map[], Opened(tid, FIRST, tp, []), map[]);
    AddReopens(tid, FIRST, tp);
    next := Coordinates(config, state, Shard(map[], Closed(tid, FIRST), map[]), 1,
                        OfTransaction(AddPartition(tid, FIRST, tp)));
    next := Validates(tid, tp, records, next, 1);
    AppendKeeps(tp, records, Opened(tid, FIRST, tp, []));
    next := Asks(config, next, begun, 1);
    next := Returns(config, next, Holding(tp, Kept(records), Opened(tid, FIRST, tp, [])), 1, Succeeded(Produced(0)));
    assert next.clients == state.clients;
  }

  /** A caller has resolved its only partition and is about to return; another one has appended to it again, and its
      initialisation is next. */
  lemma {:induction false} EnlistedAgain(tid: Bytes, tp: TopicPartition, records: seq<RecordData>, commit: bool)
    returns (state: State, since: nat, position: nat, channel: nat)
    requires Proper(tid, tp, records)
    ensures Reachable(OneShard(tp), state)
    ensures state.nodes == [Node(Holding(tp, Kept(records), Opened(tid, FIRST, tp, [])),
                                 [Message(1, channel, Coordinate(OfTransaction(InitProducer(tid))))], true)]
    ensures |state.clients| == 2
    ensures state.clients[0]
            == Replied(EndCall(tid, FIRST, commit), Resolving(Completion([tp], []), 0), since, position, Resolved)
    ensures state.clients[1].Waiting? && state.clients[1].channel == channel
    ensures state.clients[1].call == CoordinateCall(OfTransaction(InitProducer(tid))) && state.clients[1].stage.First?
  {
    var config, held := OneShard(tp), Holding(tp, Kept(records), Opened(tid, FIRST, tp, []));
    state := Opens(tid, tp, 2);
    since := |state.handled|;
    state := EndsTo(tid, FIRST, tp, [], commit, state, Shard(map[], Opened(tid, FIRST, tp, []), map[]), 0);
    ResolveFindsNothing(tp, Closed(tid, FIRST), FIRST.id, commit);
    position := |state.handled|;
    state := Asks(config, state, Shard(map[], Closed(tid, FIRST), map[]), 0);
    state := AppendsAgain(tid, tp, records, state);
    state := Begins(config, state, held, 1, CoordinateCall(OfTransaction(InitProducer(tid))));
    channel := state.nextChannel;
    state := Sends(config, state, held, 1);
  }

  /** The initialisation is handled, its caller returns, and then the caller that was ending returns Ok. */
  lemma {:induction false} EndsAnyway(tid: Bytes, tp: TopicPartition, records: seq<RecordData>, commit: bool,
                                      before: State, channel: nat) returns (state: State)
    requires Proper(tid, tp, records) && Reachable(OneShard(tp), before) && |before.clients| == 2
    requires before.nodes == [Node(Holding(tp, Kept(records), Opened(tid, FIRST, tp, [])),
                                   [Message(1, channel, Coordinate(OfTransaction(InitProducer(tid))))], true)]
    requires before.clients[0].Replied? && before.clients[0].call == EndCall(tid, FIRST, commit)
    requires before.clients[0].stage == Resolving(Completion([tp], []), 0) && before.clients[0].reply.Resolved?
    requires before.clients[1].Waiting? && before.clients[1].channel == channel && before.clients[1].stage.First?
    requires before.clients[1].call == CoordinateCall(OfTransaction(InitProducer(tid)))
    ensures Reaches(OneShard(tp), before, state) && LastReturn(state, EndCall(tid, FIRST, commit), Ended)
    ensures Quiescent(OneShard(tp), state, Holding(tp, Kept(records), Closed(tid, SECOND)))
    ensures state.clients == [Idle, Idle]
  {
    var config, left := OneShard(tp), Holding(tp, Kept(records), Closed(tid, SECOND));
    InitReissues(tid, tp);
    var m := Message(1, channel, Coordinate(OfTransaction(InitProducer(tid))));
    var initialised := Handles(config, before, Holding(tp, Kept(records), Opened(tid, FIRST, tp, [])), m);
    var returned := Returns(config, initialised, left, 1, Succeeded(Transacted(Ok(Producer(SECOND)))));
    state := Returns(config, returned, left, 0, Ended);
    ReachesOn(config, before, initialised, returned);
    ReachesOn(config, before, returned, state);
  }

  /** Somebody being in the middle of ending does not help: the initialisation is handled when nothing is owed to the
      shard any more, the end returns Ok and the batch stays pending with nobody to resolve it. */
  lemma {:induction false} ReinitialisedBehindTheResolution(tid: Bytes, tp: TopicPartition, records: seq<RecordData>,
                                                            commit: bool) returns (before: State, state: State)
    requires Proper(tid, tp, records)
    ensures Reachable(OneShard(tp), before) && BrokerTransactions.SomeoneEnds(before.clients, tid)
    ensures |before.nodes| > 0 && before.nodes[0].mailbox != []
            && before.nodes[0].mailbox[0].command == Coordinate(OfTransaction(InitProducer(tid)))
    ensures OwedResolutions.Owed(OneShard(tp), before, 0, FIRST.id) == 0
    ensures Reaches(OneShard(tp), before, state) && LastReturn(state, EndCall(tid, FIRST, commit), Ended)
    ensures Orphaned(OneShard(tp), state, tp, Kept(records)) && TransactionClosed(state, tid)
  {
    var since, position, channel;
    before, since, position, channel := EnlistedAgain(tid, tp, records, commit);
    NothingComing(before, tp, FIRST.id);
    assert BrokerTransactions.Ending(before.clients[0], tid);
    state := EndsAnyway(tid, tp, records, commit, before, channel);
    LeavesOrphan(tid, SECOND, tp, records, state);
  }

  lemma NothingComing(state: State, tp: TopicPartition, id: int)
    requires |state.nodes| == 1 && |state.nodes[0].mailbox| == 1 && |state.clients| == 2
    requires state.nodes[0].mailbox[0].command.Coordinate? && state.clients[1].Waiting? && state.clients[1].stage.First?
    requires state.clients[0].Replied? && state.clients[0].stage.Resolving?
    requires state.clients[0].stage.index + 1 == |state.clients[0].stage.completion.partitions|
    ensures OwedResolutions.Owed(OneShard(tp), state, 0, id) == 0
  {
    var config := OneShard(tp);
    GivingUp.NoneQueued(state.nodes[0].mailbox, id);
    OwedResolutions.NobodyOwes(config, state.clients, 0, id);
  }

  // ---------------------------------------------------------------- an offset that has gone stale

  function Joined(group: Bytes, members: seq<Bytes>): Coordination {
    if members == [] then map[]
    else ServeGroup(Joined(group, members[..|members| - 1]), Join(group, members[|members| - 1], [], [])).0
  }

  lemma TwoJoins(group: Bytes, first: Bytes, second: Bytes)
    requires group != [] && first != [] && second != []
    ensures Joined(group, [first]) == ServeGroup(map[], Join(group, first, [], [])).0
    ensures Joined(group, [first, second]) == ServeGroup(Joined(group, [first]), Join(group, second, [], [])).0
    ensures var g := Joined(group, [first, second]); group in g && g[group].generation == 2 && g[group].offsets == map[]
  {
    assert [first][..0] == [] && [first, second][..1] == [first];
  }

  lemma AddOffsetEnlists(tid: Bytes, tp: TopicPartition, o: TransactionOffset)
    requires !Malformed(AddOffset(tid, FIRST, o))
    ensures Serve(Opened(tid, FIRST, tp, []), AddOffset(tid, FIRST, o)) == (Opened(tid, FIRST, tp, [o]), Ok(Applied))
  {
    var t := Opened(tid, FIRST, tp, []).transactions;
    assert [] + [o] == [o];
    assert t[tid := Transaction(FIRST, Ongoing, {tp}, [o])] == Opened(tid, FIRST, tp, [o]).transactions;
  }

  /** An offset enlisted at the group's generation, which then moves on because another member joins. */
  lemma {:induction false} OffsetGoesStale(tid: Bytes, tp: TopicPartition, records: seq<RecordData>, group: Bytes,
                                           first: Bytes, second: Bytes, o: TransactionOffset) returns (state: State)
    requires Proper(tid, tp, records) && group != [] && first != [] && second != []
    requires o == TransactionOffset(group, 1, tp.0, tp.1, o.offset) && o.offset >= 0
    ensures var shard := Holding(tp, Kept(records), Opened(tid, FIRST, tp, [o]));
            Quiescent(OneShard(tp), state, shard.(groups := Joined(group, [first, second])))
    ensures state.clients == [Idle]
  {
    var config, shard := OneShard(tp), Holding(tp, Kept(records), Opened(tid, FIRST, tp, []));
    TwoJoins(group, first, second);
    AddOffsetEnlists(tid, tp, o);
    state := Produces(tid, tp, records);
    state := Coordinates(config, state, shard, 0, OfGroup(Join(group, first, [], [])));
    var joined := shard.(groups := Joined(group, [first]));
    state := Coordinates(config, state, joined, 0, OfTransaction(AddOffset(tid, FIRST, o)));
    var enlisted := joined.(transactions := Opened(tid, FIRST, tp, [o]));
    state := Coordinates(config, state, enlisted, 0, OfGroup(Join(group, second, [], [])));
  }

  lemma StaleCommitRefused(group: Bytes, first: Bytes, second: Bytes, o: TransactionOffset)
    requires group != [] && first != [] && second != [] && o.groupId == group && o.generation == 1
    ensures var g := Joined(group, [first, second]);
            && ServeGroup(g, CommitOffset(group, 1, (o.topic, o.partition), o.offset)) == (g, Err(IllegalGeneration))
            && ServeGroup(g, FetchOffset(group, (o.topic, o.partition))).1 == Ok(Fetched(None))
  {
    TwoJoins(group, first, second);
    var g := Joined(group, [first, second]);
    assert g[group := g[group]] == g;
  }

  /** The end resolves its only partition and goes on to the offset. */
  lemma {:induction false} ResolvesTo(tid: Bytes, tp: TopicPartition, b: Batch, o: TransactionOffset, g: Coordination,
                                      state: State) returns (next: State)
    requires Quiescent(OneShard(tp), state, Holding(tp, b, Opened(tid, FIRST, tp, [o])).(groups := g))
    requires state.clients == [Idle]
    ensures Quiescent(OneShard(tp), next,
                      Holding(tp, ResolveBatch(b, FIRST.id, true), Closed(tid, FIRST)).(groups := g))
    ensures next.clients
            == [Ready(EndCall(tid, FIRST, true), Committing(Completion([tp], [o]), 0), |state.handled|)]
  {
    var config := OneShard(tp);
    next := EndsTo(tid, FIRST, tp, [o], true, state, Holding(tp, b, Opened(tid, FIRST, tp, [o])).(groups := g), 0);
    ResolveDecides(tp, b, Closed(tid, FIRST), g, FIRST.id, true);
    next := Asks(config, next, Holding(tp, b, Closed(tid, FIRST)).(groups := g), 0);
    var resolved := Holding(tp, ResolveBatch(b, FIRST.id, true), Closed(tid, FIRST)).(groups := g);
    next := Proceeds(config, next, resolved, 0, Committing(Completion([tp], [o]), 0));
  }

  /** The end then commits every partition, is refused the offset and returns the refusal. */
  lemma {:induction false} StaleOffsetFailsTheEnd(tid: Bytes, tp: TopicPartition, records: seq<RecordData>,
                                                  group: Bytes, first: Bytes, second: Bytes, o: TransactionOffset)
    returns (state: State)
    requires Proper(tid, tp, records) && group != [] && first != [] && second != []
    requires o == TransactionOffset(group, 1, tp.0, tp.1, o.offset) && o.offset >= 0
    ensures Reachable(OneShard(tp), state)
    ensures LastReturn(state, EndCall(tid, FIRST, true), Refused(IllegalGeneration)) && TransactionClosed(state, tid)
    ensures Retained(OneShard(tp), state, tp, Kept(records).(state := Committed))
    ensures ServeGroup(state.nodes[0].shard.groups, FetchOffset(group, tp)).1 == Ok(Fetched(None))
  {
    var config, g := OneShard(tp), Joined(group, [first, second]);
    var resolved := Holding(tp, ResolveBatch(Kept(records), FIRST.id, true), Closed(tid, FIRST)).(groups := g);
    StaleCommitRefused(group, first, second, o);
    state := OffsetGoesStale(tid, tp, records, group, first, second, o);
    state := ResolvesTo(tid, tp, Kept(records), o, g, state);
    state := Asks(config, state, resolved, 0);
    state := Returns(config, state, resolved, 0, Refused(IllegalGeneration));
  }
}
