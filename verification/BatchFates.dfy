/** The state of every retained batch, read off the handled commands alone, whatever the callers do. */
module BatchFates {
  import opened Records
  import opened Log
  import opened Shards
  import opened Broker
  import opened BrokerOrder
  import LogRuns
  import BrokerRuns

  /** A command that decided the batches of producer `id` on shard `s`. */
  predicate ResolvesAt(h: Handled, s: nat, id: int) {
    h.at == s && h.command.ResolveTransaction? && h.command.id == id
  }

  /** The last decision about producer `id` on shard `s` from a position on. */
  function LastDecision(handled: seq<Handled>, from: nat, s: nat, id: int): Option<bool> {
    if |handled| <= from then None
    else
      var last := handled[|handled| - 1];
      if ResolvesAt(last, s, id) then Some(last.command.commit)
      else LastDecision(handled[..|handled| - 1], from, s, id)
  }

  function Fate(decision: Option<bool>): BatchState {
    match decision
    case None => Pending
    case Some(commit) => Log.Outcome(commit)
  }

  /** The transaction and the state of the batch that the append at `p` made. */
  function FateOf(config: Config, handled: seq<Handled>, tp: TopicPartition, p: nat): (Option<int>, BatchState)
    requires p < |handled| && AppendsTo(handled[p], tp)
  {
    match handled[p].command
    case ProduceTransactional(_, _, id) => (Some(id), Fate(LastDecision(handled, p + 1, config.place(tp), id)))
    case _ => (None, Committed)
  }

  /** A batch is the one the append at `p` made, with the state the later resolutions leave it in. */
  predicate MadeAt(config: Config, handled: seq<Handled>, tp: TopicPartition, b: Batch, p: nat) {
    && p < |handled|
    && AppendsTo(handled[p], tp)
    && b.base == handled[p].reply.base
    && b.records == Stamp(handled[p].command.records, b.base)
    && (b.transaction, b.state) == FateOf(config, handled, tp, p)
  }

  ghost predicate Made(config: Config, handled: seq<Handled>, tp: TopicPartition, b: Batch) {
    exists p :: MadeAt(config, handled, tp, b, p)
  }

  // ---------------------------------------------------------------- one more command

  lemma LastDecisionPush(handled: seq<Handled>, h: Handled, from: nat, s: nat, id: int)
    requires from <= |handled|
    ensures LastDecision(handled + [h], from, s, id)
            == if ResolvesAt(h, s, id) then Some(h.command.commit) else LastDecision(handled, from, s, id)
  {
    assert (handled + [h])[..|handled|] == handled;
  }

  /** What a command does to a batch that stays in the log. */
  function Moved(config: Config, b: Batch, h: Handled, tp: TopicPartition): Batch {
    if h.at == config.place(tp) && h.command.ResolveTransaction? then ResolveBatch(b, h.command.id, h.command.commit)
    else b
  }

  lemma MadeAtPush(config: Config, handled: seq<Handled>, h: Handled, tp: TopicPartition, b: Batch, p: nat)
    requires MadeAt(config, handled, tp, b, p)
    ensures MadeAt(config, handled + [h], tp, Moved(config, b, h, tp), p)
  {
    if b.transaction.Some? {
      LastDecisionPush(handled, h, p + 1, config.place(tp), b.transaction.value);
    }
  }

  /** Every batch after one more command was there before, or is the one the command appended. */
  lemma BatchComesFrom(config: Config, before: seq<Handled>, h: Handled, tp: TopicPartition, b: Batch)
    requires b in LogOf(config, before + [h], tp).batches
    ensures || (exists a :: a in LogOf(config, before, tp).batches && b == Moved(config, a, h, tp))
            || ((h.command.Produce? || h.command.ProduceTransactional?) && OpFor(config, h, tp) != []
                && Rejection(h.command.records).None?
                && b == NewBatch(h.command.records, LogOf(config, before, tp).nextOffset,
                                 if h.command.ProduceTransactional? then Some(h.command.id) else None))
  {
    var log, ops := LogOf(config, before, tp), OpFor(config, h, tp);
    LogOfPush(config, before, h, tp);
    if ops == [] {
      assert Moved(config, b, h, tp) == b;
    } else {
      RunOne(log, ops[0]);
      AppliedBatch(log, ops[0], b);
    }
  }

  lemma AppliedBatch(log: LogState, op: LogRuns.Op, b: Batch)
    requires b in LogRuns.Apply(log, op).batches
    ensures op.Resolve? ==> exists a :: a in log.batches && b == ResolveBatch(a, op.producer, op.commit)
    ensures !op.Resolve? ==>
      b in log.batches || (op.Accepted() && b == NewBatch(op.inputs, log.nextOffset, op.Transaction()))
  {
    var next := LogRuns.Apply(log, op);
    var i :| 0 <= i < |next.batches| && next.batches[i] == b;
    if op.Resolve? {
      assert b == ResolveBatch(log.batches[i], op.producer, op.commit);
    } else if op.Accepted() {
      var all := log.batches + [NewBatch(op.inputs, log.nextOffset, op.Transaction())];
      RetainIsSuffix(all, log.maxBytes);
      assert b == all[|all| - |next.batches| + i];
    }
  }

  lemma {:induction false} EveryBatchIsMade(config: Config, handled: seq<Handled>, tp: TopicPartition, b: Batch)
    requires forall i :: 0 <= i < |handled| ==> Agrees(config, handled, i)
    requires b in LogOf(config, handled, tp).batches
    ensures Made(config, handled, tp, b)
  {
    if handled != [] {
      var n := |handled| - 1;
      var before, h := handled[..n], handled[n];
      assert handled == before + [h] && Agrees(config, handled, n);
      AgreesPrefix(config, handled, n);
      BatchComesFrom(config, before, h, tp, b);
      if a :| a in LogOf(config, before, tp).batches && b == Moved(config, a, h, tp) {
        EveryBatchIsMade(config, before, tp, a);
        var p :| MadeAt(config, before, tp, a, p);
        MadeAtPush(config, before, h, tp, a, p);
      } else {
        assert MadeAt(config, handled, tp, b, n);
      }
    }
  }

  lemma AgreesPrefix(config: Config, handled: seq<Handled>, n: nat)
    requires n <= |handled| && forall i :: 0 <= i < |handled| ==> Agrees(config, handled, i)
    ensures forall i :: 0 <= i < n ==> Agrees(config, handled[..n], i)
  {
    forall i | 0 <= i < n ensures Agrees(config, handled[..n], i) {
      assert handled[..n][..i] == handled[..i] && Agrees(config, handled, i);
    }
  }

  lemma {:induction false} UndecidedIff(handled: seq<Handled>, from: nat, s: nat, id: int)
    requires from <= |handled|
    ensures LastDecision(handled, from, s, id).None? <==>
      forall q :: from <= q < |handled| ==> !ResolvesAt(handled[q], s, id)
  {
    if from < |handled| {
      UndecidedIff(handled[..|handled| - 1], from, s, id);
    }
  }

  /** Two appends to a partition never start at the same offset. */
  lemma MadeOnce(config: Config, handled: seq<Handled>, tp: TopicPartition, p: nat, q: nat)
    requires forall i :: 0 <= i < |handled| ==> Agrees(config, handled, i)
    requires p < |handled| && AppendsTo(handled[p], tp) && q < |handled| && AppendsTo(handled[q], tp)
    requires handled[p].reply.base == handled[q].reply.base
    ensures p == q
  {
    HistoryTiles(config, handled, tp);
  }

  // ---------------------------------------------------------------- in every reachable state

  /** The one log of a partition in a state of the broker. */
  function LogIn(config: Config, state: State, tp: TopicPartition): LogState
    requires config.place(tp) < |state.nodes|
  {
    LogAt(config.settings, state.nodes[config.place(tp)].shard, tp)
  }

  /** A batch the broker still holds for a partition. */
  predicate Retained(config: Config, state: State, tp: TopicPartition, b: Batch) {
    config.place(tp) < |state.nodes| && b in LogIn(config, state, tp).batches
  }

  /** In every reachable state, with callers doing whatever they like, every retained batch is the one some handled
      append made, and its state is the last decision about its producer that was handled on its shard since. */
  lemma {:induction false} BatchFate(config: Config, state: State, tp: TopicPartition, b: Batch) returns (p: nat)
    requires BrokerRuns.Reachable(config, state) && Retained(config, state, tp, b)
    ensures MadeAt(config, state.handled, tp, b, p)
  {
    BrokerRuns.ReachableIsSound(config, state);
    assert NodeFolds(config, config.place(tp), state.nodes[config.place(tp)].shard, state.handled);
    EveryBatchIsMade(config, state.handled, tp, b);
    p :| MadeAt(config, state.handled, tp, b, p);
  }

  /** A retained batch of a producer is pending exactly when no resolution of that producer was handled on its shard
      after the append. */
  lemma {:induction false} PendingExactly(config: Config, state: State, tp: TopicPartition, b: Batch) returns (p: nat)
    requires BrokerRuns.Reachable(config, state) && Retained(config, state, tp, b) && b.transaction.Some?
    ensures p < |state.handled| && AppendsTo(state.handled[p], tp) && state.handled[p].reply.base == b.base
    ensures state.handled[p].command
            == ProduceTransactional(tp, state.handled[p].command.records, b.transaction.value)
    ensures IsPending(b) <==> forall q :: p < q < |state.handled| ==>
      !ResolvesAt(state.handled[q], config.place(tp), b.transaction.value)
  {
    p := BatchFate(config, state, tp, b);
    UndecidedIff(state.handled, p + 1, config.place(tp), b.transaction.value);
  }

  lemma {:induction false} SameBatchLater(config: Config, past: seq<Handled>, handled: seq<Handled>, tp: TopicPartition,
                                          b: Batch, p: nat, later: Batch, q: nat)
    requires past <= handled && forall i :: 0 <= i < |handled| ==> Agrees(config, handled, i)
    requires MadeAt(config, past, tp, b, p) && MadeAt(config, handled, tp, later, q) && b.base == later.base
    requires IsPending(b)
    ensures later.transaction == b.transaction
    ensures later.state == Fate(LastDecision(handled, |past|, config.place(tp), b.transaction.value))
  {
    assert handled[p] == past[p];
    MadeOnce(config, handled, tp, p, q);
    var s, id := config.place(tp), b.transaction.value;
    UndecidedIff(past, p + 1, s, id);
    DecidedLater(past, handled, p + 1, s, id);
  }

  lemma {:induction false} DecidedLater(past: seq<Handled>, handled: seq<Handled>, from: nat, s: nat, id: int)
    requires past <= handled && from <= |past| && LastDecision(past, from, s, id).None?
    ensures LastDecision(handled, from, s, id) == LastDecision(handled, |past|, s, id)
    decreases |handled|
  {
    if |handled| == |past| {
      assert handled == past;
    } else {
      DecidedLater(past, handled[..|handled| - 1], from, s, id);
    }
  }

  /** However the run goes on, a pending batch that is still retained has the last decision about its producer that was
      handled on its shard in between: it stays pending exactly as long as there is none. */
  lemma {:induction false} PendingUntilResolved(config: Config, state: State, later: State, tp: TopicPartition,
                                                b: Batch, now: Batch)
    requires BrokerRuns.Reachable(config, state) && BrokerRuns.Reaches(config, state, later)
    requires Retained(config, state, tp, b) && IsPending(b)
    requires Retained(config, later, tp, now) && now.base == b.base
    ensures state.handled <= later.handled && now.transaction == b.transaction
    ensures now.state
            == Fate(LastDecision(later.handled, |state.handled|, config.place(tp), b.transaction.value))
    ensures IsPending(now) <==> forall q :: |state.handled| <= q < |later.handled| ==>
      !ResolvesAt(later.handled[q], config.place(tp), b.transaction.value)
  {
    BrokerRuns.ReachableOn(config, state, later);
    BrokerRuns.ReachableIsSound(config, later);
    var p := BatchFate(config, state, tp, b);
    var q := BatchFate(config, later, tp, now);
    SameBatchLater(config, state.handled, later.handled, tp, b, p, now, q);
    UndecidedIff(later.handled, |state.handled|, config.place(tp), b.transaction.value);
  }

  /** What has been decided is never pending again. */
  lemma {:induction false} DecidedStaysDecided(config: Config, state: State, later: State, tp: TopicPartition, b: Batch,
                                               now: Batch)
    requires BrokerRuns.Reachable(config, state) && BrokerRuns.Reaches(config, state, later)
    requires Retained(config, state, tp, b) && b.transaction.Some? && !IsPending(b)
    requires Retained(config, later, tp, now) && now.base == b.base
    ensures now.transaction == b.transaction && !IsPending(now)
  {
    BrokerRuns.ReachableOn(config, state, later);
    BrokerRuns.ReachableIsSound(config, later);
    var p := BatchFate(config, state, tp, b);
    var q := BatchFate(config, later, tp, now);
    DecidedInBoth(config, state.handled, later.handled, tp, b, p, now, q);
  }

  lemma {:induction false} DecidedInBoth(config: Config, past: seq<Handled>, handled: seq<Handled>, tp: TopicPartition,
                                         b: Batch, p: nat, later: Batch, q: nat)
    requires past <= handled && forall i :: 0 <= i < |handled| ==> Agrees(config, handled, i)
    requires MadeAt(config, past, tp, b, p) && MadeAt(config, handled, tp, later, q) && b.base == later.base
    requires b.transaction.Some? && !IsPending(b)
    ensures later.transaction == b.transaction && !IsPending(later)
  {
    assert handled[p] == past[p];
    MadeOnce(config, handled, tp, p, q);
    UndecidedIff(past, p + 1, config.place(tp), b.transaction.value);
    UndecidedIff(handled, p + 1, config.place(tp), b.transaction.value);
  }
}
