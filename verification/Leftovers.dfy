/** What becomes of pending batches whose transaction is no longer open. */
module Leftovers {
  import opened Records
  import opened Log
  import opened Transactions
  import opened TransactionHistory
  import opened Shards
  import opened Broker
  import opened BrokerOrder
  import opened BatchFates
  import opened BrokerTransactions
  import opened ValidatedAppends
  import opened BrokerOffsets
  import opened OwedResolutions
  import BrokerGuarantee
  import BrokerRuns

  // ---------------------------------------------------------------- at the coordinator

  /** A partition was enlisted for `tid`. */
  predicate EnlistsAt(h: seq<Request>, i: nat, tid: Bytes)
    requires i < |h|
  {
    h[i].AddPartition? && h[i].tid == tid && AcceptedAt(h, i)
  }

  predicate NotOpen(c: Coordinator, tid: Bytes) {
    tid in c.transactions && !c.transactions[tid].status.Ongoing?
  }

  lemma ClosedRequest(c: Coordinator, q: Request, tid: Bytes)
    requires NotOpen(c, tid) && !(q.AddPartition? && q.tid == tid && Serve(c, q).1.Ok?)
    ensures NotOpen(Serve(c, q).0, tid)
    ensures Serve(c, q).0.transactions[tid].identity.id == c.transactions[tid].identity.id
    ensures q.EndTransaction? && q.tid == tid ==> Serve(c, q).1.Err?
  {
    if q.tid != tid {
      ServeTouchesOnlyItsOwnId(c, q, tid);
    } else if Serve(c, q).1.Err? {
      RefusedLeavesStateUnchanged(c, q);
    }
  }

  /** Once an id has been initialised again, whatever its transaction had enlisted before, every identity is refused
      the end until a partition has been enlisted anew. */
  lemma {:induction false} ReinitialisedCannotEnd(h: seq<Request>, more: seq<Request>, tid: Bytes,
                                                  producer: ProducerIdentity, commit: bool)
    requires tid != []
    requires var all := h + [InitProducer(tid)] + more;
             forall i :: |h| < i < |all| ==> !EnlistsAt(all, i, tid)
    ensures var c := After(h + [InitProducer(tid)] + more);
            && NotOpen(c, tid)
            && Serve(c, EndTransaction(tid, producer, commit)).1
               == Err(if producer == c.transactions[tid].identity then InvalidTransactionState else ProducerFenced)
  {
    var base := h + [InitProducer(tid)];
    if more == [] {
      assert base + more == base;
      AfterPush(h, InitProducer(tid));
    } else {
      var front, last := more[..|more| - 1], more[|more| - 1];
      var before := base + front;
      assert base + more == before + [last];
      forall i | |h| < i < |before| ensures !EnlistsAt(before, i, tid) {
        assert !EnlistsAt(base + more, i, tid) && before[..i] == (base + more)[..i];
      }
      ReinitialisedCannotEnd(h, front, tid, producer, commit);
      AfterPush(before, last);
      assert !EnlistsAt(base + more, |before|, tid) && (base + more)[..|before|] == before;
      ClosedRequest(After(before), last, tid);
    }
  }

  // ---------------------------------------------------------------- among the handled commands

  /** The coordinator accepted a partition for `tid`. */
  predicate Enlists(h: Handled, tid: Bytes) {
    && IsRequest(h.command) && h.command.request.transactional.AddPartition?
    && h.command.request.transactional.tid == tid && h.reply.Transacted? && h.reply.answer.Ok?
  }

  ghost predicate NothingEnlisted(state: State, later: State, tid: Bytes) {
    forall q :: |state.handled| <= q < |later.handled| ==> !Enlists(later.handled[q], tid)
  }

  /** The coordinator has not run out of producer ids. */
  ghost predicate FewIds(state: State) {
    |state.nodes| > 0 && |CoordinatorOf(state.nodes).transactions| <= I64_MAX
  }

  lemma KnownStep(c: Coordinator, q: Request, tid: Bytes, id: int)
    requires Known(c, tid, id)
    ensures Known(Serve(c, q).0, tid, id)
  {
    if q.tid != tid {
      ServeTouchesOnlyItsOwnId(c, q, tid);
    }
  }

  lemma KnownNext(config: Config, handled: seq<Handled>, n: nat, tid: Bytes, id: int)
    requires n < |handled| && Agrees(config, handled, n) && Known(CoordinatorAt(handled, n), tid, id)
    ensures Known(CoordinatorAt(handled, n + 1), tid, id)
  {
    CoordinatorStep(config, handled, n);
    if IsRequest(handled[n].command) {
      KnownStep(CoordinatorAt(handled, n), handled[n].command.request.transactional, tid, id);
    }
  }

  lemma {:induction false} KnownLater(config: Config, handled: seq<Handled>, m: nat, n: nat, tid: Bytes, id: int)
    requires m <= n <= |handled| && forall i :: 0 <= i < |handled| ==> Agrees(config, handled, i)
    requires Known(CoordinatorAt(handled, m), tid, id)
    ensures Known(CoordinatorAt(handled, n), tid, id)
    decreases n
  {
    if m < n {
      KnownLater(config, handled, m, n - 1, tid, id);
      assert Agrees(config, handled, n - 1);
      KnownNext(config, handled, n - 1, tid, id);
    }
  }

  /** Ids that are distinct were distinct before. */
  lemma {:induction false} DistinctBefore(config: Config, handled: seq<Handled>, m: nat)
    requires m <= |handled| && forall i :: 0 <= i < |handled| ==> Agrees(config, handled, i)
    requires DistinctIds(CoordinatorAt(handled, |handled|))
    ensures DistinctIds(CoordinatorAt(handled, m))
  {
    var c := CoordinatorAt(handled, m);
    forall s, t | s in c.transactions && t in c.transactions && s != t
      ensures c.transactions[s].identity.id != c.transactions[t].identity.id
    {
      KnownLater(config, handled, m, |handled|, s, c.transactions[s].identity.id);
      KnownLater(config, handled, m, |handled|, t, c.transactions[t].identity.id);
    }
  }

  /** An end that is accepted for the producer of `tid` is one of `tid`, and its transaction was open. */
  lemma AcceptedEndIsOwn(config: Config, handled: seq<Handled>, n: nat, tid: Bytes, id: int)
    requires n < |handled| && Agrees(config, handled, n) && EndAccepted(handled[n], id)
    requires Known(CoordinatorAt(handled, n), tid, id) && DistinctIds(CoordinatorAt(handled, n))
    ensures handled[n].command.request.transactional.tid == tid && !NotOpen(CoordinatorAt(handled, n), tid)
  {
    CoordinatorStep(config, handled, n);
  }

  lemma ClosedNext(config: Config, handled: seq<Handled>, n: nat, tid: Bytes)
    requires n < |handled| && Agrees(config, handled, n) && NotOpen(CoordinatorAt(handled, n), tid)
    requires !Enlists(handled[n], tid)
    ensures NotOpen(CoordinatorAt(handled, n + 1), tid)
  {
    CoordinatorStep(config, handled, n);
    if IsRequest(handled[n].command) {
      ClosedRequest(CoordinatorAt(handled, n), handled[n].command.request.transactional, tid);
    }
  }

  lemma {:induction false} ClosedUntilEnlisted(config: Config, handled: seq<Handled>, m: nat, n: nat, tid: Bytes)
    requires m <= n <= |handled| && forall i :: 0 <= i < |handled| ==> Agrees(config, handled, i)
    requires NotOpen(CoordinatorAt(handled, m), tid)
    requires forall q :: m <= q < n ==> !Enlists(handled[q], tid)
    ensures NotOpen(CoordinatorAt(handled, n), tid)
    decreases n
  {
    if m < n {
      ClosedUntilEnlisted(config, handled, m, n - 1, tid);
      assert Agrees(config, handled, n - 1);
      ClosedNext(config, handled, n - 1, tid);
    }
  }

  /** From `m` on no end is accepted for the producer of a transaction that is not open and enlists nothing. */
  lemma {:induction false} NoEndWhileClosed(config: Config, handled: seq<Handled>, m: nat, q: nat, tid: Bytes, id: int)
    requires m <= q < |handled| && forall i :: 0 <= i < |handled| ==> Agrees(config, handled, i)
    requires NotOpen(CoordinatorAt(handled, m), tid) && Known(CoordinatorAt(handled, m), tid, id)
    requires forall n :: m <= n < |handled| ==> !Enlists(handled[n], tid)
    requires DistinctIds(CoordinatorAt(handled, |handled|))
    ensures !EndAccepted(handled[q], id)
  {
    ClosedUntilEnlisted(config, handled, m, q, tid);
    KnownLater(config, handled, m, q, tid, id);
    DistinctBefore(config, handled, q);
    assert Agrees(config, handled, q);
    if EndAccepted(handled[q], id) {
      AcceptedEndIsOwn(config, handled, q, tid, id);
    }
  }

  // ---------------------------------------------------------------- over runs

  /** The coordinator of a reachable state is the one the handled commands lead to. */
  lemma {:induction false} CoordinatorFolds(config: Config, state: State, later: State)
    requires BrokerRuns.Reachable(config, state) && |state.nodes| > 0 && state.handled <= later.handled
    ensures CoordinatorAt(later.handled, |state.handled|) == CoordinatorOf(state.nodes)
  {
    BrokerRuns.ReachableIsSound(config, state);
    assert NodeFolds(config, 0, state.nodes[0].shard, state.handled);
    assert later.handled[..|state.handled|] == state.handled;
  }

  /** The ids of a state that has not run out of them are distinct at all times up to it. */
  lemma {:induction false} DistinctThroughout(config: Config, state: State)
    requires BrokerRuns.Reachable(config, state) && FewIds(state)
    ensures DistinctIds(CoordinatorAt(state.handled, |state.handled|))
    ensures forall i :: 0 <= i < |state.handled| ==> Agrees(config, state.handled, i)
  {
    BrokerRuns.ReachableIsSound(config, state);
    BrokerGuarantee.IdsAreDistinct(config, state);
    CoordinatorFolds(config, state, state);
  }

  /** The transaction of `tid`, whose producer is `id`, is not open in `state` and enlists nothing up to `later`. */
  ghost predicate ClosedFor(state: State, later: State, tid: Bytes, id: int) {
    && |state.nodes| > 0 && NotOpen(CoordinatorOf(state.nodes), tid) && Known(CoordinatorOf(state.nodes), tid, id)
    && FewIds(later) && NothingEnlisted(state, later, tid)
  }

  lemma {:induction false} ClosedMeansNoEnd(config: Config, state: State, later: State, tid: Bytes, id: int)
    requires BrokerRuns.Reachable(config, state) && BrokerRuns.Reaches(config, state, later)
    requires ClosedFor(state, later, tid, id)
    ensures NoEndSince(state, later, id)
  {
    BrokerRuns.ReachableOn(config, state, later);
    DistinctThroughout(config, later);
    CoordinatorFolds(config, state, later);
    forall q | |state.handled| <= q < |later.handled| ensures !EndAccepted(later.handled[q], id) {
      NoEndWhileClosed(config, later.handled, |state.handled|, q, tid, id);
    }
  }

  /** Once the transaction of a pending batch is not open, be it because the id was initialised again, because the
      append came behind the end or because the end was given up, and as long as nothing is enlisted for it again and
      nobody gives up on an end, the batch is pending exactly when its shard still has as many resolutions coming. */
  lemma {:induction false} LeftoverPendingIff(config: Config, state: State, actions: seq<Action>, tid: Bytes,
                                              tp: TopicPartition, b: Batch, now: Batch)
    requires BrokerRuns.Reachable(config, state) && Run(config, state, actions).Some?
    requires Retained(config, state, tp, b) && IsPending(b)
    requires Retained(config, Run(config, state, actions).value, tp, now) && now.base == b.base
    requires ClosedFor(state, Run(config, state, actions).value, tid, b.transaction.value)
    requires NobodyGivesUp(config, state, actions, b.transaction.value)
    ensures var later, s, id := Run(config, state, actions).value, config.place(tp), b.transaction.value;
            IsPending(now) <==> Owed(config, later, s, id) == Owed(config, state, s, id)
  {
    assert BrokerRuns.Reaches(config, state, Run(config, state, actions).value);
    ClosedMeansNoEnd(config, state, Run(config, state, actions).value, tid, b.transaction.value);
    PendingWhileOwed(config, state, actions, tp, b, now);
  }

  /** If its shard has no resolution of the producer coming, the batch stays pending until something is enlisted for it
      again, whoever gives up and whatever is still to be resolved on other shards. */
  lemma {:induction false} LeftoverStaysPending(config: Config, state: State, actions: seq<Action>, tid: Bytes,
                                                tp: TopicPartition, b: Batch, now: Batch)
    requires BrokerRuns.Reachable(config, state) && Run(config, state, actions).Some?
    requires Retained(config, state, tp, b) && IsPending(b)
    requires Retained(config, Run(config, state, actions).value, tp, now) && now.base == b.base
    requires ClosedFor(state, Run(config, state, actions).value, tid, b.transaction.value)
    requires Owed(config, state, config.place(tp), b.transaction.value) == 0
    ensures IsPending(now)
  {
    assert BrokerRuns.Reaches(config, state, Run(config, state, actions).value);
    ClosedMeansNoEnd(config, state, Run(config, state, actions).value, tid, b.transaction.value);
    PendingIfNothingOwed(config, state, actions, tp, b, now);
  }

  // ---------------------------------------------------------------- the next transaction

  /** An id keeps its producer id, so whoever ends a transaction of it resolves for the same producer. */
  lemma EndsForSameProducer(config: Config, handled: seq<Handled>, m: nat, p: nat, call: Call, c: Completion, id: int)
    requires m <= p < |handled| && forall i :: 0 <= i < |handled| ==> Agrees(config, handled, i)
    requires call.EndCall? && Known(CoordinatorAt(handled, m), call.tid, id)
    requires handled[p].command == CommandOf(call, First) && handled[p].reply == Transacted(Ok(Completed(c)))
    ensures call.producer.id == id
  {
    KnownLater(config, handled, m, p, call.tid, id);
    assert Agrees(config, handled, p);
    CoordinatorStep(config, handled, p);
  }

  lemma {:induction false} LastDecisionAt(handled: seq<Handled>, from: nat, q: nat, s: nat, id: int)
    requires from <= q < |handled| && ResolvesAt(handled[q], s, id)
    requires forall r :: q < r < |handled| ==> !ResolvesAt(handled[r], s, id)
    ensures LastDecision(handled, from, s, id) == Some(handled[q].command.commit)
  {
    if q < |handled| - 1 {
      LastDecisionAt(handled[..|handled| - 1], from, q, s, id);
    }
  }

  /** The `j`-th partition a call handed over is on shard `s`, and nothing of the producer was resolved there since. */
  predicate ResolvesLast(config: Config, handled: seq<Handled>, c: Completion, qs: seq<nat>, j: nat, s: nat, id: int) {
    && 0 < j <= |c.partitions| && j < |qs| && config.place(c.partitions[j - 1]) == s
    && forall r :: qs[j] < r < |handled| ==> !ResolvesAt(handled[r], s, id)
  }

  lemma {:induction false} CallDecides(config: Config, handled: seq<Handled>, m: nat, f: Finished, c: Completion,
                                       qs: seq<nat>, j: nat, s: nat, id: int)
    requires forall i :: 0 <= i < |handled| ==> Agrees(config, handled, i)
    requires f.call.EndCall? && Played(config, handled, f, c, qs) && m <= f.since && m <= |handled|
    requires Known(CoordinatorAt(handled, m), f.call.tid, id) && ResolvesLast(config, handled, c, qs, j, s, id)
    ensures LastDecision(handled, m, s, id) == Some(f.call.commit)
  {
    EndsForSameProducer(config, handled, m, qs[0], f.call, c, id);
    LastDecisionAt(handled, m, qs[j], s, id);
  }

  /** A batch left pending takes the outcome of the later transaction of its id that resolves on its shard: a commit
      publishes it, although that transaction did not append it. */
  lemma {:induction false} NextEndDecides(config: Config, state: State, later: State, tp: TopicPartition, b: Batch,
                                          now: Batch, f: Finished, c: Completion, qs: seq<nat>, j: nat)
    requires BrokerRuns.Reachable(config, state) && BrokerRuns.Reaches(config, state, later) && |state.nodes| > 0
    requires Retained(config, state, tp, b) && IsPending(b)
    requires Retained(config, later, tp, now) && now.base == b.base
    requires f in later.finished && f.call.EndCall? && |state.handled| <= f.since
    requires Known(CoordinatorOf(state.nodes), f.call.tid, b.transaction.value)
    requires Played(config, later.handled, f, c, qs)
    requires ResolvesLast(config, later.handled, c, qs, j, config.place(tp), b.transaction.value)
    ensures now.state == Log.Outcome(f.call.commit)
  {
    PendingUntilResolved(config, state, later, tp, b, now);
    BrokerRuns.ReachableOn(config, state, later);
    CoordinatorFolds(config, state, later);
    BrokerRuns.ReachableIsSound(config, later);
    CallDecides(config, later.handled, |state.handled|, f, c, qs, j, config.place(tp), b.transaction.value);
  }
}
