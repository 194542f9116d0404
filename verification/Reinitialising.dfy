/** What initialising a transactional id again leaves behind, for callers that kept to the discipline until then. */
module Reinitialising {
  import opened Records
  import opened Log
  import opened TransactionHistory
  import opened Broker
  import opened BrokerOrder
  import opened BatchFates
  import opened BrokerTransactions
  import opened BrokerCallers
  import opened GivingUp
  import opened ValidatedAppends
  import opened OwedResolutions
  import opened Leftovers
  import BrokerRuns

  predicate NobodyBusy(clients: seq<Client>, tid: Bytes) {
    forall k :: 0 <= k < |clients| ==> BusyWith(clients[k]) != Some(tid)
  }

  // ---------------------------------------------------------------- nothing is on its way

  /** Whoever has been handed something to resolve for the producer of `tid` is busy with `tid`. */
  lemma EndingIsBusy(config: Config, state: State, k: nat, tid: Bytes, id: int)
    requires Good(config, state) && k < |state.clients| && DistinctIds(CoordinatorOf(state.nodes))
    requires Known(CoordinatorOf(state.nodes), tid, id) && Progress(state.clients[k]).Some?
    requires EndsFor(state.clients[k].call, id)
    ensures BusyWith(state.clients[k]) == Some(tid)
  {
    assert ClientGood(config, state.nodes, state.clients[k]);
  }

  lemma NothingQueuedFor(config: Config, state: State, s: nat, i: nat, tid: Bytes, id: int)
    requires Good(config, state) && NobodyBusy(state.clients, tid) && DistinctIds(CoordinatorOf(state.nodes))
    requires Known(CoordinatorOf(state.nodes), tid, id) && s < |state.nodes| && i < |state.nodes[s].mailbox|
    ensures !Resolves(state.nodes[s].mailbox[i].command, id)
  {
    var m := state.nodes[s].mailbox[i];
    assert MailboxOwned(config, state.clients, s, state.nodes[s].mailbox, state.nextChannel);
    if Resolves(m.command, id) {
      assert Owned(config, state.clients, s, m);
      OnlyEndsResolve(state.clients[m.client].call, state.clients[m.client].stage, id);
      EndingIsBusy(config, state, m.client, tid, id);
    }
  }

  /** While nobody is busy with an id, no shard has a resolution of its producer coming. */
  lemma {:induction false} NothingOwed(config: Config, state: State, s: nat, tid: Bytes, id: int)
    requires Good(config, state) && NobodyBusy(state.clients, tid) && DistinctIds(CoordinatorOf(state.nodes))
    requires Known(CoordinatorOf(state.nodes), tid, id) && s < |state.nodes|
    ensures Owed(config, state, s, id) == 0
  {
    forall i | 0 <= i < |state.nodes[s].mailbox| ensures !Resolves(state.nodes[s].mailbox[i].command, id) {
      NothingQueuedFor(config, state, s, i, tid, id);
    }
    NoneQueued(state.nodes[s].mailbox, id);
    forall k | 0 <= k < |state.clients| ensures Remaining(config, state.clients[k], s, id) == 0 {
      if Remaining(config, state.clients[k], s, id) != 0 {
        EndingIsBusy(config, state, k, tid, id);
      }
    }
    NobodyOwes(config, state.clients, s, id);
  }

  // ---------------------------------------------------------------- re-initialising

  /** The next time the transaction of `tid` is closed is by the initialisation at `p`, and nothing is enlisted for it
      after that. */
  ghost predicate InitialisedAt(state: State, later: State, tid: Bytes, p: nat) {
    && |state.handled| <= p < |later.handled|
    && ClosesTransaction(later.handled[p], tid) && later.handled[p].command.request.transactional.InitProducer?
    && (forall q :: |state.handled| <= q < p ==> !ClosesTransaction(later.handled[q], tid))
    && (forall q :: p < q < |later.handled| ==> !Enlists(later.handled[q], tid))
  }

  lemma {:induction false} NoEndAround(config: Config, handled: seq<Handled>, m: nat, p: nat, q: nat, tid: Bytes,
                                       id: int)
    requires forall i :: 0 <= i < |handled| ==> Agrees(config, handled, i)
    requires m <= p < |handled| && m <= q < |handled|
    requires Known(CoordinatorAt(handled, m), tid, id) && DistinctIds(CoordinatorAt(handled, |handled|))
    requires ClosesTransaction(handled[p], tid) && handled[p].command.request.transactional.InitProducer?
    requires forall n :: m <= n < p ==> !ClosesTransaction(handled[n], tid)
    requires forall n :: p < n < |handled| ==> !Enlists(handled[n], tid)
    ensures !EndAccepted(handled[q], id)
  {
    assert Agrees(config, handled, p) && Agrees(config, handled, q);
    if q < p {
      KnownLater(config, handled, m, q, tid, id);
      DistinctBefore(config, handled, q);
      if EndAccepted(handled[q], id) {
        AcceptedEndIsOwn(config, handled, q, tid, id);
      }
    } else if p < q {
      ClosedStep(config, handled, p, tid);
      KnownLater(config, handled, m, p + 1, tid, id);
      NoEndWhileClosed(config, handled, p + 1, q, tid, id);
    }
  }

  lemma {:induction false} InitialisedMeansNoEnd(config: Config, state: State, later: State, tid: Bytes, id: int,
                                                 p: nat)
    requires BrokerRuns.Reachable(config, state) && BrokerRuns.Reaches(config, state, later) && |state.nodes| > 0
    requires Known(CoordinatorOf(state.nodes), tid, id) && FewIds(later) && InitialisedAt(state, later, tid, p)
    ensures NoEndSince(state, later, id) && DistinctIds(CoordinatorOf(state.nodes))
  {
    BrokerRuns.ReachableOn(config, state, later);
    DistinctThroughout(config, later);
    CoordinatorFolds(config, state, later);
    DistinctBefore(config, later.handled, |state.handled|);
    forall q | |state.handled| <= q < |later.handled| ensures !EndAccepted(later.handled[q], id) {
      NoEndAround(config, later.handled, |state.handled|, p, q, tid, id);
    }
  }

  /** What is pending of a producer whose id nobody is busy with belongs to the open transaction. */
  lemma {:induction false} PendingIsOpen(config: Config, state: State, tid: Bytes, tp: TopicPartition, b: Batch)
    requires Good(config, state) && NobodyBusy(state.clients, tid) && DistinctIds(CoordinatorOf(state.nodes))
    requires Retained(config, state, tp, b) && IsPending(b)
    requires Known(CoordinatorOf(state.nodes), tid, b.transaction.value)
    ensures var t := CoordinatorOf(state.nodes).transactions[tid]; t.status.Ongoing? && tp in t.partitions
  {
    var c, id := CoordinatorOf(state.nodes), b.transaction.value;
    HeldBatchIsPending(config, state, tp, b);
    assert Accounted(state.clients, c, tp, id);
    OwnAccount(state.clients, c, tid, tp, id);
    NobodyBusyEnds(state.clients, tid);
  }

  /** When callers have kept to the discipline and nobody is busy with an id, initialising it again leaves behind
      exactly the batches of its producer that are pending: those stay pending until something is enlisted for it again,
      and all of them are in partitions of its open transaction. So it leaves nothing behind if that is not open. */
  lemma {:induction false} ReinitialisingLeaves(config: Config, state: State, actions: seq<Action>, tid: Bytes, p: nat,
                                                tp: TopicPartition, b: Batch, now: Batch)
    requires ValidConfig(config) && DisciplinedUpTo(config, state) && |state.nodes| > 0
    requires NobodyBusy(state.clients, tid) && Run(config, state, actions).Some?
    requires FewIds(Run(config, state, actions).value)
    requires InitialisedAt(state, Run(config, state, actions).value, tid, p)
    requires Retained(config, state, tp, b) && b.transaction.Some?
    requires Known(CoordinatorOf(state.nodes), tid, b.transaction.value)
    requires Retained(config, Run(config, state, actions).value, tp, now) && now.base == b.base
    ensures IsPending(now) <==> IsPending(b)
    ensures var t := CoordinatorOf(state.nodes).transactions[tid];
            IsPending(b) ==> t.status.Ongoing? && tp in t.partitions
  {
    var later, id := Run(config, state, actions).value, b.transaction.value;
    DisciplinedFacts(config, state);
    assert BrokerRuns.Reaches(config, state, later);
    InitialisedMeansNoEnd(config, state, later, tid, id, p);
    if IsPending(b) {
      PendingIsOpen(config, state, tid, tp, b);
      NothingOwed(config, state, config.place(tp), tid, id);
      PendingIfNothingOwed(config, state, actions, tp, b, now);
    } else {
      DecidedStaysDecided(config, state, later, tp, b, now);
    }
  }
}
