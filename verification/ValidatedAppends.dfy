/** Validation and append are two messages: when the transaction that was validated is still open at the append. */
module ValidatedAppends {
  import opened Records
  import opened Transactions
  import opened TransactionHistory
  import opened Shards
  import opened Broker
  import opened BrokerOrder
  import opened BrokerTransactions
  import opened BrokerHandling
  import opened BrokerOffsets
  import opened BatchFates
  import opened Log
  import BrokerRuns

  /** The coordinator after the first `n` handled commands. */
  function CoordinatorAt(handled: seq<Handled>, n: nat): Coordinator
    requires n <= |handled|
  {
    After(TransactionRequests(handled[..n]))
  }

  predicate Asked(h: Handled, q: Request) {
    h.command == Coordinate(OfTransaction(q))
  }

  /** The coordinator accepted an initialisation or an end of `tid`. */
  predicate ClosesTransaction(h: Handled, tid: Bytes) {
    && IsRequest(h.command) && h.command.request.transactional.tid == tid
    && (h.command.request.transactional.InitProducer? || h.command.request.transactional.EndTransaction?)
    && h.reply.Transacted? && h.reply.answer.Ok?
  }

  /** The coordinator accepted the check of a transactional append. */
  predicate Validated(h: Handled, tid: Bytes, producer: ProducerIdentity, tp: TopicPartition) {
    Asked(h, ValidateProduce(tid, producer, tp)) && h.reply == Transacted(Ok(Applied))
  }

  lemma CoordinatorStep(config: Config, handled: seq<Handled>, n: nat)
    requires n < |handled| && Agrees(config, handled, n)
    ensures if IsRequest(handled[n].command)
            then var served := Serve(CoordinatorAt(handled, n), handled[n].command.request.transactional);
              CoordinatorAt(handled, n + 1) == served.0 && handled[n].reply == Transacted(served.1)
            else CoordinatorAt(handled, n + 1) == CoordinatorAt(handled, n)
  {
    assert handled[..n + 1] == handled[..n] + [handled[n]];
    RequestsPush(handled[..n], handled[n]);
  }

  lemma HeldStep(config: Config, handled: seq<Handled>, n: nat, tid: Bytes, producer: ProducerIdentity,
                 tp: TopicPartition)
    requires n < |handled| && Agrees(config, handled, n) && !ClosesTransaction(handled[n], tid)
    requires Enlisted(CoordinatorAt(handled, n), tid, producer, tp)
    ensures Enlisted(CoordinatorAt(handled, n + 1), tid, producer, tp)
  {
    CoordinatorStep(config, handled, n);
    if IsRequest(handled[n].command) {
      var c, q := CoordinatorAt(handled, n), handled[n].command.request.transactional;
      if q.tid != tid {
        ServeTouchesOnlyItsOwnId(c, q, tid);
      } else if q.InitProducer? {
        RefusedLeavesStateUnchanged(c, q);
      } else {
        RequestOnOpen(c, q, tp);
      }
    }
  }

  lemma ClosedStep(config: Config, handled: seq<Handled>, n: nat, tid: Bytes)
    requires n < |handled| && Agrees(config, handled, n) && ClosesTransaction(handled[n], tid)
    ensures var c := CoordinatorAt(handled, n + 1); tid in c.transactions && !c.transactions[tid].status.Ongoing?
  {
    CoordinatorStep(config, handled, n);
  }

  lemma ValidatedIsEnlisted(config: Config, handled: seq<Handled>, v: nat, tid: Bytes, producer: ProducerIdentity,
                            tp: TopicPartition)
    requires v < |handled| && Agrees(config, handled, v) && Validated(handled[v], tid, producer, tp)
    ensures Enlisted(CoordinatorAt(handled, v + 1), tid, producer, tp)
  {
    CoordinatorStep(config, handled, v);
  }

  /** The transaction was open for the producer, with the partition enlisted, at every moment between two positions. */
  ghost predicate HeldThroughout(handled: seq<Handled>, v: nat, p: nat, tid: Bytes, producer: ProducerIdentity,
                                 tp: TopicPartition)
    requires p <= |handled|
  {
    forall n :: v < n <= p ==> Enlisted(CoordinatorAt(handled, n), tid, producer, tp)
  }

  lemma {:induction false} HeldUntil(config: Config, handled: seq<Handled>, v: nat, p: nat, tid: Bytes,
                                     producer: ProducerIdentity, tp: TopicPartition)
    requires v < p <= |handled| && forall i :: 0 <= i < |handled| ==> Agrees(config, handled, i)
    requires Validated(handled[v], tid, producer, tp)
    requires forall q :: v < q < p ==> !ClosesTransaction(handled[q], tid)
    ensures HeldThroughout(handled, v, p, tid, producer, tp)
    decreases p
  {
    if p == v + 1 {
      ValidatedIsEnlisted(config, handled, v, tid, producer, tp);
    } else {
      HeldUntil(config, handled, v, p - 1, tid, producer, tp);
      HeldStep(config, handled, p - 1, tid, producer, tp);
    }
  }

  /** From a validation up to a later position, such as that of the append it was made for, the validated transaction
      stays open exactly when no initialisation and no end of its id was accepted in between. */
  lemma {:induction false} StaysOpenIff(config: Config, state: State, v: nat, p: nat, tid: Bytes,
                                        producer: ProducerIdentity, tp: TopicPartition)
    requires BrokerRuns.Reachable(config, state) && v < p <= |state.handled|
    requires Validated(state.handled[v], tid, producer, tp)
    ensures HeldThroughout(state.handled, v, p, tid, producer, tp)
            <==> forall q :: v < q < p ==> !ClosesTransaction(state.handled[q], tid)
  {
    BrokerRuns.ReachableIsSound(config, state);
    var handled := state.handled;
    if q :| v < q < p && ClosesTransaction(handled[q], tid) {
      assert Agrees(config, handled, q);
      ClosedStep(config, handled, q, tid);
      assert !Enlisted(CoordinatorAt(handled, q + 1), tid, producer, tp);
    } else {
      HeldUntil(config, handled, v, p, tid, producer, tp);
    }
  }

  /** The end of a transaction hands over every partition that was validated while it was open. */
  lemma {:induction false} EndHandsOverValidated(config: Config, state: State, v: nat, e: nat, tid: Bytes,
                                                 producer: ProducerIdentity, tp: TopicPartition, q: Request)
    requires BrokerRuns.Reachable(config, state) && v < e < |state.handled|
    requires Validated(state.handled[v], tid, producer, tp)
    requires forall n :: v < n < e ==> !ClosesTransaction(state.handled[n], tid)
    requires Asked(state.handled[e], q) && q.EndTransaction? && q.tid == tid && ClosesTransaction(state.handled[e], tid)
    ensures var answer := state.handled[e].reply.answer;
            q.producer == producer && answer.value.Completed? && tp in answer.value.completion.partitions
  {
    BrokerRuns.ReachableIsSound(config, state);
    HeldUntil(config, state.handled, v, e, tid, producer, tp);
    assert Enlisted(CoordinatorAt(state.handled, e), tid, producer, tp);
    assert Agrees(config, state.handled, e);
    CoordinatorStep(config, state.handled, e);
    RequestOnOpen(CoordinatorAt(state.handled, e), q, tp);
  }

  // ---------------------------------------------------------------- and the end decides it

  /** The end that a call had handled first. */
  lemma PlayedEnd(config: Config, handled: seq<Handled>, f: Finished, c: Completion, qs: seq<nat>)
    requires f.call.EndCall? && Played(config, handled, f, c, qs)
    ensures var q := EndTransaction(f.call.tid, f.call.producer, f.call.commit);
            && qs[0] < |handled| && Asked(handled[qs[0]], q) && ClosesTransaction(handled[qs[0]], f.call.tid)
            && handled[qs[0]].reply == Transacted(Ok(Completed(c)))
  {
  }

  /** And the resolution of its `j`-th partition. */
  lemma PlayedResolution(config: Config, handled: seq<Handled>, f: Finished, c: Completion, qs: seq<nat>, j: nat)
    requires f.call.EndCall? && Played(config, handled, f, c, qs) && j < |c.partitions|
    ensures qs[0] < qs[j + 1] < |handled|
    ensures ResolvesAt(handled[qs[j + 1]], config.place(c.partitions[j]), f.call.producer.id)
    ensures handled[qs[j + 1]].command.commit == f.call.commit
  {
  }

  lemma {:induction false} ResolvedBehind(config: Config, handled: seq<Handled>, tp: TopicPartition, b: Batch, p: nat,
                                          made: nat, r: nat)
    requires forall i :: 0 <= i < |handled| ==> Agrees(config, handled, i)
    requires MadeAt(config, handled, tp, b, made) && b.transaction.Some?
    requires p < |handled| && AppendsTo(handled[p], tp) && handled[p].reply.base == b.base
    requires p < r < |handled| && ResolvesAt(handled[r], config.place(tp), b.transaction.value)
    ensures !IsPending(b)
  {
    MadeOnce(config, handled, tp, p, made);
    UndecidedIff(handled, p + 1, config.place(tp), b.transaction.value);
  }

  /** A transactional append of the producer was applied to the partition. */
  predicate AppendedAt(h: Handled, producer: ProducerIdentity, tp: TopicPartition) {
    AppendsTo(h, tp) && h.command.ProduceTransactional? && h.command.id == producer.id
  }

  /** Whatever callers do otherwise, an append that is handled while the transaction it was validated for is open is
      decided by the end that next closes that transaction, once that end has had its resolutions acknowledged, as it
      has when it returns Ok. */
  lemma {:induction false} ValidatedIsDecided(config: Config, state: State, f: Finished, c: Completion, qs: seq<nat>,
                                              v: nat, p: nat, producer: ProducerIdentity, tp: TopicPartition, b: Batch)
    returns (j: nat)
    requires BrokerRuns.Reachable(config, state) && f in state.finished && f.call.EndCall?
    requires Played(config, state.handled, f, c, qs) && v < p < qs[0] < |state.handled|
    requires Validated(state.handled[v], f.call.tid, producer, tp) && AppendedAt(state.handled[p], producer, tp)
    requires forall n :: v < n < qs[0] ==> !ClosesTransaction(state.handled[n], f.call.tid)
    requires Retained(config, state, tp, b) && b.base == state.handled[p].reply.base
    ensures j < |c.partitions| && c.partitions[j] == tp && f.call.producer == producer
    ensures b.transaction == Some(producer.id) && !IsPending(b)
  {
    var handled, q := state.handled, EndTransaction(f.call.tid, f.call.producer, f.call.commit);
    PlayedEnd(config, handled, f, c, qs);
    EndHandsOverValidated(config, state, v, qs[0], f.call.tid, producer, tp, q);
    j :| 0 <= j < |c.partitions| && c.partitions[j] == tp;
    PlayedResolution(config, handled, f, c, qs, j);
    BrokerRuns.ReachableIsSound(config, state);
    var made := BatchFate(config, state, tp, b);
    MadeOnce(config, handled, tp, p, made);
    ResolvedBehind(config, handled, tp, b, p, made, qs[j + 1]);
  }
}
