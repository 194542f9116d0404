/** Which records a run leaves in the log and with which transaction outcome, read off the operations alone. */
module LogOutcomes {
  import opened Records
  import opened Log
  import opened LogInvariant
  import opened LogRuns
  import LogReaders

  /** The decision of the last resolution of `producer` among `ops`. */
  function LastOutcome(ops: seq<Op>, producer: int): Option<bool> {
    if ops == [] then None
    else
      var last := ops[|ops| - 1];
      if last.Resolve? && last.producer == producer then Some(last.commit)
      else LastOutcome(ops[..|ops| - 1], producer)
  }

  function StateAfter(b: Batch, ops: seq<Op>): BatchState {
    if b.transaction.None? then b.state
    else
      match LastOutcome(ops, b.transaction.value)
      case None => b.state
      case Some(commit) => Outcome(commit)
  }

  function Evolved(batches: seq<Batch>, ops: seq<Op>): seq<Batch> {
    seq(|batches|, i requires 0 <= i < |batches| => batches[i].(state := StateAfter(batches[i], ops)))
  }

  /** The batches `ops` add to a log whose next offset is `base`, in their final states. */
  function Added(ops: seq<Op>, base: int): seq<Batch> {
    if ops == [] then []
    else if ops[0].Accepted() then
      var b := NewBatch(ops[0].inputs, base, ops[0].Transaction());
      [b.(state := StateAfter(b, ops[1..]))] + Added(ops[1..], b.End())
    else Added(ops[1..], base)
  }

  lemma {:induction false} LastOutcomeFromFront(op: Op, rest: seq<Op>, producer: int)
    ensures LastOutcome([op] + rest, producer) ==
      if LastOutcome(rest, producer).Some? then LastOutcome(rest, producer)
      else if op.Resolve? && op.producer == producer then Some(op.commit) else None
  {
    var ops := [op] + rest;
    if rest == [] {
      assert ops[..0] == [];
    } else {
      assert ops[|ops| - 1] == rest[|rest| - 1];
      assert ops[..|ops| - 1] == [op] + rest[..|rest| - 1];
      LastOutcomeFromFront(op, rest[..|rest| - 1], producer);
    }
  }

  lemma StateAfterFromFront(b: Batch, op: Op, rest: seq<Op>)
    ensures StateAfter(b, [op] + rest)
            == StateAfter(if op.Resolve? then ResolveBatch(b, op.producer, op.commit) else b, rest)
  {
    if b.transaction.Some? {
      LastOutcomeFromFront(op, rest, b.transaction.value);
    }
  }

  lemma EvolvedFromFront(batches: seq<Batch>, op: Op, rest: seq<Op>)
    ensures Evolved(batches, [op] + rest)
            == Evolved(if op.Resolve? then ResolveBatches(batches, op.producer, op.commit) else batches, rest)
  {
    forall i | 0 <= i < |batches| ensures StateAfter(batches[i], [op] + rest)
        == StateAfter(if op.Resolve? then ResolveBatch(batches[i], op.producer, op.commit) else batches[i], rest) {
      StateAfterFromFront(batches[i], op, rest);
    }
  }

  /** Without a byte budget a run leaves exactly the old batches in their last outcomes, then the added ones. */
  lemma {:induction false} UnboundedRunContents(log: LogState, ops: seq<Op>)
    requires log.maxBytes.None?
    ensures Run(log, ops).batches == Evolved(log.batches, ops) + Added(ops, log.nextOffset)
    decreases |ops|
  {
    if ops != [] {
      var op, rest := ops[0], ops[1..];
      assert ops == [op] + rest;
      EvolvedFromFront(log.batches, op, rest);
      UnboundedRunContents(Apply(log, op), rest);
      if op.Accepted() {
        var b := NewBatch(op.inputs, log.nextOffset, op.Transaction());
        var settled := b.(state := StateAfter(b, rest));
        assert Apply(log, op).batches == log.batches + [b];
        assert Evolved(log.batches + [b], rest) == Evolved(log.batches, rest) + [settled];
        ConcatAssociative(Evolved(log.batches, rest), [settled], Added(rest, b.End()));
      }
    }
  }

  /** With a byte budget the run leaves what one retention pass keeps of that: the longest suffix within the budget, or
      the newest batch alone. */
  lemma RunContents(log: LogState, ops: seq<Op>)
    requires WellFormed(log)
    ensures Run(log, ops).batches
            == Retain(Evolved(log.batches, ops) + Added(ops, log.nextOffset), log.maxBytes)
  {
    var unbounded := log.(maxBytes := None);
    BoundedRunIsRetained(log, unbounded, ops);
    UnboundedRunContents(unbounded, ops);
  }

  lemma BasesIdentifyBatches(log: LogState, i: nat, j: nat)
    requires WellFormed(log) && i < |log.batches| && j < |log.batches|
    requires log.batches[i].base == log.batches[j].base
    ensures i == j
  {
    assert BatchWellFormed(log.batches[i]) && BatchWellFormed(log.batches[j]);
    if i < j {
      BatchesOrdered(log.batches, log.nextOffset, i, j);
    } else if j < i {
      BatchesOrdered(log.batches, log.nextOffset, j, i);
    }
  }

  /** A batch that is still retained after a run is unchanged but for its state, and that state is the outcome
      of the last resolution of its producer in the run, if there was one. */
  lemma RetainedBatchHasLastOutcome(log: LogState, ops: seq<Op>, i: nat, j: nat)
    requires WellFormed(log)
    requires i < |log.batches| && j < |Run(log, ops).batches|
    requires log.batches[i].base == Run(log, ops).batches[j].base
    ensures Run(log, ops).batches[j] == log.batches[i].(state := StateAfter(log.batches[i], ops))
  {
    var unbounded := log.(maxBytes := None);
    SmallerBudgetSimulates(log, unbounded, ops);
    UnboundedRunContents(unbounded, ops);
    var last := Run(unbounded, ops);
    assert last.batches[i] == log.batches[i].(state := StateAfter(log.batches[i], ops));
    BasesIdentifyBatches(last, i, |last.batches| - |Run(log, ops).batches| + j);
  }

  /** Once resolved, a transactional batch keeps its read-committed visibility exactly when the producer's
      last later resolution, if any, agrees. */
  lemma VisibilityStableIff(log: LogState, ops: seq<Op>, i: nat, j: nat)
    requires WellFormed(log)
    requires i < |log.batches| && j < |Run(log, ops).batches|
    requires log.batches[i].base == Run(log, ops).batches[j].base
    requires log.batches[i].transaction.Some? && !log.batches[i].state.Pending?
    ensures Shown(Run(log, ops).batches[j], true) == Shown(log.batches[i], true)
      <==> LastOutcome(ops, log.batches[i].transaction.value) in {None, Some(log.batches[i].state.Committed?)}
  {
    RetainedBatchHasLastOutcome(log, ops, i, j);
  }

  lemma SingleBatchVisible(log: LogState, b: Batch)
    requires log.batches == [b] && BatchWellFormed(b)
    ensures Visible(log, b.base, true) == ShownRecords(b, true)
  {
    assert log.batches[1..] == [];
    assert Flat(log.batches, true) == ShownRecords(b, true);
    LogReaders.AllAtOrAbove(ShownRecords(b, true), b.base);
  }

  /** "Committed stays committed" fails: a later abort of the same producer hides the batch again. */
  lemma CommittedCanBeHiddenAgain(inputs: seq<RecordData>, producer: int)
    requires Rejection(inputs).None?
    ensures var log := Run(EmptyLog(None), [AppendTransactional(inputs, producer)] + [Resolve(producer, true)]);
      var later := Run(log, [Resolve(producer, false)]);
      && |Visible(log, 0, true)| == |inputs| > 0
      && Visible(later, 0, true) == []
  {
    var start := EmptyLog(None);
    var commit, abort := [Resolve(producer, true)], [Resolve(producer, false)];
    var ops := [AppendTransactional(inputs, producer)] + commit;
    var b := NewBatch(inputs, 0, Some(producer));
    var appended := Apply(start, ops[0]);
    assert start.batches + [b] == [b];
    var log := Apply(appended, commit[0]);
    assert ops[1..] == commit && commit[1..] == [] && abort[1..] == [];
    assert Run(appended, commit) == Run(log, []);
    assert Run(start, ops) == log;
    var later := Apply(log, abort[0]);
    assert Run(log, abort) == Run(later, []);
    NewBatchWellFormed(inputs, 0, Some(producer));
    SingleBatchVisible(log, b.(state := Committed));
    SingleBatchVisible(later, b.(state := Aborted));
  }

  // ---------------------------------------------------------------- the batch of an operation

  /** How many offsets an operation takes. */
  function Taken(op: Op): nat {
    if op.Accepted() then |op.inputs| else 0
  }

  /** The next offset when operation `j` comes to be applied. */
  function OffsetAt(ops: seq<Op>, base: int, j: nat): int
    requires j <= |ops|
  {
    if j == 0 then base else OffsetAt(ops[1..], base + Taken(ops[0]), j - 1)
  }

  /** The batch that operation `j` appends, in the state the operations behind it leave it in. */
  function BatchOf(ops: seq<Op>, base: int, j: nat): Batch
    requires j < |ops| && ops[j].Accepted()
  {
    var b := NewBatch(ops[j].inputs, OffsetAt(ops, base, j), ops[j].Transaction());
    b.(state := StateAfter(b, ops[j + 1..]))
  }

  lemma BatchOfRest(ops: seq<Op>, base: int, j: nat)
    requires 0 < j < |ops| && ops[j].Accepted()
    ensures BatchOf(ops, base, j) == BatchOf(ops[1..], base + Taken(ops[0]), j - 1)
  {
    assert ops[1..][j..] == ops[j + 1..];
  }

  lemma {:induction false} BatchIsAdded(ops: seq<Op>, base: int, j: nat)
    requires j < |ops| && ops[j].Accepted()
    ensures BatchOf(ops, base, j) in Added(ops, base)
  {
    if j > 0 {
      BatchOfRest(ops, base, j);
      BatchIsAdded(ops[1..], base + Taken(ops[0]), j - 1);
    }
  }

  lemma {:induction false} AddedByOperation(ops: seq<Op>, base: int, b: Batch) returns (j: nat)
    requires b in Added(ops, base)
    ensures j < |ops| && ops[j].Accepted() && b == BatchOf(ops, base, j)
  {
    if ops[0].Accepted() && b == BatchOf(ops, base, 0) {
      j := 0;
    } else {
      var i := AddedByOperation(ops[1..], base + Taken(ops[0]), b);
      j := i + 1;
      BatchOfRest(ops, base, j);
    }
  }

  lemma {:induction false} OffsetsGrow(ops: seq<Op>, base: int, i: nat, j: nat)
    requires i <= j <= |ops|
    ensures OffsetAt(ops, base, i) <= OffsetAt(ops, base, j)
    ensures i < j && ops[i].Accepted() ==> OffsetAt(ops, base, i) < OffsetAt(ops, base, j)
  {
    if i > 0 {
      OffsetsGrow(ops[1..], base + Taken(ops[0]), i - 1, j - 1);
    } else if j > 0 {
      OffsetsGrow(ops[1..], base + Taken(ops[0]), 0, j - 1);
    }
  }
}
