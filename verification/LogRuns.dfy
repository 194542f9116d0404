/** Whole runs of log operations: what never moves backwards, and exactly what the byte budget may change. */
module LogRuns {
  import opened Records
  import opened Log
  import opened LogInvariant
  import PartitionLogs

  datatype Op =
    | Append(inputs: seq<RecordData>)
    | AppendTransactional(inputs: seq<RecordData>, producer: int)
    | Resolve(producer: int, commit: bool)
  {
    function Transaction(): Option<int> {
      if AppendTransactional? then Some(producer) else None
    }

    predicate Accepted() {
      !Resolve? && Rejection(inputs).None?
    }
  }

  function Apply(log: LogState, op: Op): LogState {
    if op.Resolve? then ResolveLog(log, op.producer, op.commit) else AppendBatch(log, op.inputs, op.Transaction()).0
  }

  /** What the caller of the operation is told; a resolution returns nothing. */
  function Reply(log: LogState, op: Op): Option<Result<int, LogError>> {
    if op.Resolve? then None else Some(AppendBatch(log, op.inputs, op.Transaction()).1)
  }

  function Run(log: LogState, ops: seq<Op>): LogState
    decreases |ops|
  {
    if ops == [] then log else Run(Apply(log, ops[0]), ops[1..])
  }

  function Replies(log: LogState, ops: seq<Op>): seq<Option<Result<int, LogError>>>
    decreases |ops|
  {
    if ops == [] then [] else [Reply(log, ops[0])] + Replies(Apply(log, ops[0]), ops[1..])
  }

  lemma ApplyKeepsWellFormed(log: LogState, op: Op)
    requires WellFormed(log)
    ensures WellFormed(Apply(log, op)) && Apply(log, op).maxBytes == log.maxBytes
  {
    if op.Resolve? {
      ResolveKeepsWellFormed(log, op.producer, op.commit);
    } else {
      AppendKeepsWellFormed(log, op.inputs, op.Transaction());
    }
  }

  lemma {:induction false} RunKeepsWellFormed(log: LogState, ops: seq<Op>)
    requires WellFormed(log)
    ensures WellFormed(Run(log, ops)) && Run(log, ops).maxBytes == log.maxBytes
    decreases |ops|
  {
    if ops != [] {
      ApplyKeepsWellFormed(log, ops[0]);
      RunKeepsWellFormed(Apply(log, ops[0]), ops[1..]);
    }
  }

  // ---------------------------------------------------------------- nothing moves backwards

  ghost predicate Advanced(before: LogState, after: LogState) {
    && StartOffset(before) <= StartOffset(after)
    && LastStableOffset(before) <= LastStableOffset(after)
    && before.nextOffset <= after.nextOffset
  }

  lemma {:induction false} ResolutionRaisesFirstPending(batches: seq<Batch>, next: int, producer: int, commit: bool)
    requires forall k :: 0 <= k < |batches| ==> BatchWellFormed(batches[k])
    requires Contiguous(batches, next)
    ensures FirstPending(batches, next) <= FirstPending(ResolveBatches(batches, producer, commit), next)
  {
    if batches != [] {
      var resolved := ResolveBatches(batches, producer, commit);
      assert BatchWellFormed(batches[0]) && JoinedAt(batches, next, 0);
      ContiguousSuffix(batches, next, 1);
      ResolutionRaisesFirstPending(batches[1..], next, producer, commit);
      assert resolved[1..] == ResolveBatches(batches[1..], producer, commit);
      ResolveShape(batches, next, producer, commit);
      ContiguousSuffix(resolved, next, 1);
      FirstPendingBounds(resolved, next);
    }
  }

  lemma {:induction false} AppendRaisesFirstPending(batches: seq<Batch>, b: Batch)
    requires Contiguous(batches, b.base) && BatchWellFormed(b)
    ensures FirstPending(batches, b.base) <= FirstPending(batches + [b], b.End())
  {
    if batches == [] {
      assert batches + [b] == [b] && [b][1..] == [];
    } else {
      ContiguousSuffix(batches, b.base, 1);
      AppendRaisesFirstPending(batches[1..], b);
      assert (batches + [b])[1..] == batches[1..] + [b];
    }
  }

  lemma {:induction false} EvictionRaisesFirstPending(batches: seq<Batch>, next: int, k: nat)
    requires forall j :: 0 <= j < |batches| ==> BatchWellFormed(batches[j])
    requires Contiguous(batches, next) && k <= |batches|
    ensures FirstPending(batches, next) <= FirstPending(batches[k..], next)
    ensures BaseAt(batches, next, 0) <= BaseAt(batches[k..], next, 0)
  {
    if k == 0 {
      assert batches[k..] == batches;
    } else {
      assert BatchWellFormed(batches[0]) && JoinedAt(batches, next, 0);
      ContiguousSuffix(batches, next, 1);
      EvictionRaisesFirstPending(batches[1..], next, k - 1);
      assert batches[k..] == batches[1..][k - 1..];
      FirstPendingBounds(batches[1..], next);
    }
  }

  lemma PushAdvances(log: LogState, b: Batch)
    requires WellFormed(log) && BatchWellFormed(b) && b.base == log.nextOffset
    ensures Advanced(log, PushBatch(log, b))
  {
    var all := log.batches + [b];
    var kept := Retain(all, log.maxBytes);
    PushShape(log.batches, b);
    RetainIsSuffix(all, log.maxBytes);
    AppendRaisesFirstPending(log.batches, b);
    EvictionRaisesFirstPending(all, b.End(), |all| - |kept|);
    assert StartOffset(log) == BaseAt(all, b.End(), 0);
    assert StartOffset(PushBatch(log, b)) == BaseAt(kept, b.End(), 0);
  }

  lemma ApplyAdvances(log: LogState, op: Op)
    requires WellFormed(log)
    ensures Advanced(log, Apply(log, op))
  {
    if op.Resolve? {
      ResolutionRaisesFirstPending(log.batches, log.nextOffset, op.producer, op.commit);
    } else if op.Accepted() {
      NewBatchWellFormed(op.inputs, log.nextOffset, op.Transaction());
      PushAdvances(log, NewBatch(op.inputs, log.nextOffset, op.Transaction()));
    }
  }

  /** Over every run start <= last stable <= high watermark, and none of the three moves backwards. */
  lemma {:induction false} RunAdvances(log: LogState, ops: seq<Op>)
    requires WellFormed(log)
    ensures Advanced(log, Run(log, ops))
    ensures var last := Run(log, ops); StartOffset(last) <= LastStableOffset(last) <= last.nextOffset
    decreases |ops|
  {
    RunKeepsWellFormed(log, ops);
    OffsetsOrdered(Run(log, ops));
    if ops != [] {
      ApplyAdvances(log, ops[0]);
      ApplyKeepsWellFormed(log, ops[0]);
      RunAdvances(Apply(log, ops[0]), ops[1..]);
    }
  }

  // ---------------------------------------------------------------- a smaller budget only forgets

  predicate BudgetAtMost(small: Option<nat>, large: Option<nat>) {
    large.None? || (small.Some? && small.value <= large.value)
  }

  predicate IsSuffix(small: seq<Batch>, large: seq<Batch>) {
    |small| <= |large| && small == large[|large| - |small|..]
  }

  ghost predicate Forgets(small: LogState, large: LogState) {
    && WellFormed(small) && WellFormed(large)
    && BudgetAtMost(small.maxBytes, large.maxBytes)
    && small.nextOffset == large.nextOffset
    && IsSuffix(small.batches, large.batches)
  }

  lemma SuffixTransitive(a: seq<Batch>, b: seq<Batch>, c: seq<Batch>)
    requires IsSuffix(a, b) && IsSuffix(b, c)
    ensures IsSuffix(a, c)
  {
  }

  lemma {:induction false} RetainKeepsSuffix(small: seq<Batch>, large: seq<Batch>, smallBudget: Option<nat>,
                                             largeBudget: Option<nat>)
    requires IsSuffix(small, large) && BudgetAtMost(smallBudget, largeBudget)
    ensures IsSuffix(Retain(small, smallBudget), Retain(large, largeBudget))
    decreases |large|
  {
    if |large| > 1 && !WithinBudget(large, largeBudget) {
      if |small| == |large| {
        assert small == large;
        RetainKeepsSuffix(small[1..], large[1..], smallBudget, largeBudget);
      } else {
        RetainKeepsSuffix(small, large[1..], smallBudget, largeBudget);
      }
    } else {
      RetainIsSuffix(small, smallBudget);
      SuffixTransitive(Retain(small, smallBudget), small, large);
    }
  }

  lemma PushKeepsForgets(small: LogState, large: LogState, b: Batch)
    requires Forgets(small, large) && BatchWellFormed(b) && b.base == small.nextOffset
    ensures Forgets(PushBatch(small, b), PushBatch(large, b))
  {
    PushKeepsWellFormed(small, b);
    PushKeepsWellFormed(large, b);
    assert IsSuffix(small.batches + [b], large.batches + [b]);
    RetainKeepsSuffix(small.batches + [b], large.batches + [b], small.maxBytes, large.maxBytes);
  }

  lemma ApplyKeepsForgets(small: LogState, large: LogState, op: Op)
    requires Forgets(small, large)
    ensures Forgets(Apply(small, op), Apply(large, op))
    ensures Reply(small, op) == Reply(large, op)
  {
    if op.Resolve? {
      ApplyKeepsWellFormed(small, op);
      ApplyKeepsWellFormed(large, op);
      assert IsSuffix(ResolveBatches(small.batches, op.producer, op.commit),
                      ResolveBatches(large.batches, op.producer, op.commit));
    } else if op.Accepted() {
      NewBatchWellFormed(op.inputs, small.nextOffset, op.Transaction());
      PushKeepsForgets(small, large, NewBatch(op.inputs, small.nextOffset, op.Transaction()));
    }
  }

  /** A log with a smaller byte budget answers every append of every run exactly as the larger one does,
      and its batches stay a suffix of the larger one's. */
  lemma {:induction false} SmallerBudgetSimulates(small: LogState, large: LogState, ops: seq<Op>)
    requires Forgets(small, large)
    ensures Forgets(Run(small, ops), Run(large, ops))
    ensures Replies(small, ops) == Replies(large, ops)
    decreases |ops|
  {
    if ops != [] {
      ApplyKeepsForgets(small, large, ops[0]);
      SmallerBudgetSimulates(Apply(small, ops[0]), Apply(large, ops[0]), ops[1..]);
    }
  }

  lemma ForgottenBatchesEndBelow(small: LogState, large: LogState, i: nat)
    requires Forgets(small, large) && i < |large.batches| - |small.batches|
    ensures large.batches[i].End() <= StartOffset(small)
  {
    BatchesOrdered(large.batches, large.nextOffset, i, |large.batches| - |small.batches|);
  }

  /** At or above the smaller log's start the two logs serve identical windows; only the last stable offset may differ,
      and then the smaller log's is the higher one. */
  lemma ForgetfulLogServesSameWindows(small: LogState, large: LogState, offset: int, maxRecords: nat, maxBytes: nat,
                                      readCommitted: bool)
    requires Forgets(small, large) && StartOffset(small) <= offset
    ensures Visible(small, offset, readCommitted) == Visible(large, offset, readCommitted)
    ensures var s := Fetch(small, offset, maxRecords, maxBytes, readCommitted);
      var l := Fetch(large, offset, maxRecords, maxBytes, readCommitted);
      && s.Ok? == l.Ok? == (offset <= small.nextOffset)
      && (s.Ok? ==> s.value.records == l.value.records && s.value.highWatermark == l.value.highWatermark)
    ensures LastStableOffset(large) <= LastStableOffset(small)
  {
    var k := |large.batches| - |small.batches|;
    forall i | 0 <= i < k ensures large.batches[i].End() <= offset {
      ForgottenBatchesEndBelow(small, large, i);
    }
    PartitionLogs.SkipBatches(large, k, offset, readCommitted);
    EvictionRaisesFirstPending(large.batches, large.nextOffset, k);
  }

  /** The instance the documentation promises: any bounded log against the unbounded one, over every run. */
  lemma BoundedLogMatchesUnbounded(budget: nat, ops: seq<Op>, offset: int, maxRecords: nat, maxBytes: nat,
                                   readCommitted: bool)
    ensures Replies(EmptyLog(Some(budget)), ops) == Replies(EmptyLog(None), ops)
    ensures var bounded := Run(EmptyLog(Some(budget)), ops);
      var unbounded := Run(EmptyLog(None), ops);
      && bounded.nextOffset == unbounded.nextOffset
      && IsSuffix(bounded.batches, unbounded.batches)
      && LastStableOffset(unbounded) <= LastStableOffset(bounded)
      && (StartOffset(bounded) <= offset <= bounded.nextOffset ==>
            && Fetch(bounded, offset, maxRecords, maxBytes, readCommitted).Ok?
            && Fetch(unbounded, offset, maxRecords, maxBytes, readCommitted).Ok?
            && Fetch(bounded, offset, maxRecords, maxBytes, readCommitted).value.records
               == Fetch(unbounded, offset, maxRecords, maxBytes, readCommitted).value.records)
  {
    SmallerBudgetSimulates(EmptyLog(Some(budget)), EmptyLog(None), ops);
    var bounded, unbounded := Run(EmptyLog(Some(budget)), ops), Run(EmptyLog(None), ops);
    ForgetfulLogServesSameWindows(bounded, unbounded, StartOffset(bounded), maxRecords, maxBytes, readCommitted);
    if StartOffset(bounded) <= offset <= bounded.nextOffset {
      ForgetfulLogServesSameWindows(bounded, unbounded, offset, maxRecords, maxBytes, readCommitted);
    }
  }

  // ---------------------------------------------------------------- which batches a budget leaves

  /** Retaining in between or once at the end comes to the same. */
  lemma {:induction false} RetainAgain(batches: seq<Batch>, b: Batch, maxBytes: Option<nat>)
    ensures Retain(Retain(batches, maxBytes) + [b], maxBytes) == Retain(batches + [b], maxBytes)
  {
    if |batches| > 1 && !WithinBudget(batches, maxBytes) {
      RetainAgain(batches[1..], b, maxBytes);
      SizeConcat(batches, [b]);
      assert (batches + [b])[1..] == batches[1..] + [b];
    }
  }

  lemma {:induction false} RetainThenResolve(batches: seq<Batch>, maxBytes: Option<nat>, producer: int, commit: bool)
    ensures Retain(ResolveBatches(batches, producer, commit), maxBytes)
            == ResolveBatches(Retain(batches, maxBytes), producer, commit)
  {
    ResolveKeepsSize(batches, producer, commit);
    if |batches| > 1 && !WithinBudget(batches, maxBytes) {
      RetainThenResolve(batches[1..], maxBytes, producer, commit);
      assert ResolveBatches(batches, producer, commit)[1..] == ResolveBatches(batches[1..], producer, commit);
    }
  }

  /** Over every run, a log with a byte budget holds exactly what one retention pass leaves of the log without one. */
  lemma {:induction false} BoundedRunIsRetained(bounded: LogState, unbounded: LogState, ops: seq<Op>)
    requires unbounded.maxBytes.None? && bounded.nextOffset == unbounded.nextOffset
    requires bounded.batches == Retain(unbounded.batches, bounded.maxBytes)
    ensures Run(bounded, ops).batches == Retain(Run(unbounded, ops).batches, bounded.maxBytes)
    ensures Run(bounded, ops).nextOffset == Run(unbounded, ops).nextOffset
    decreases |ops|
  {
    if ops != [] {
      var op := ops[0];
      if op.Resolve? {
        RetainThenResolve(unbounded.batches, bounded.maxBytes, op.producer, op.commit);
      } else if op.Accepted() {
        var b := NewBatch(op.inputs, bounded.nextOffset, op.Transaction());
        RetainAgain(unbounded.batches, b, bounded.maxBytes);
      }
      BoundedRunIsRetained(Apply(bounded, op), Apply(unbounded, op), ops[1..]);
    }
  }
}
