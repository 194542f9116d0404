/** Read-committed windows and the last stable offset: a filter, which may look beyond it. */
module StableReads {
  import opened Records
  import opened Log
  import opened LogInvariant
  import opened LogOutcomes
  import LogRuns

  /** A record of the flat sequence belongs to a batch that is shown. */
  lemma {:induction false} ShownBatchOf(batches: seq<Batch>, r: Record) returns (i: nat)
    requires r in Flat(batches, true)
    ensures i < |batches| && Shown(batches[i], true) && r in batches[i].records
  {
    if r in ShownRecords(batches[0], true) {
      i := 0;
    } else {
      var j := ShownBatchOf(batches[1..], r);
      i := j + 1;
    }
  }

  lemma {:induction false} ShownBatchIsFlat(batches: seq<Batch>, i: nat, r: Record)
    requires i < |batches| && Shown(batches[i], true) && r in batches[i].records
    ensures r in Flat(batches, true)
  {
    if i > 0 {
      ShownBatchIsFlat(batches[1..], i - 1, r);
    }
  }

  /** A batch that begins below the last stable offset ends at or below it. */
  lemma BatchesRespectStableOffset(log: LogState, i: nat)
    requires WellFormed(log) && i < |log.batches| && log.batches[i].base < LastStableOffset(log)
    ensures log.batches[i].End() <= LastStableOffset(log)
  {
    LastStableOffsetMeaning(log);
    if LastStableOffset(log) == log.nextOffset {
      BatchesOrdered(log.batches, log.nextOffset, i, |log.batches|);
    } else {
      var j :| 0 <= j < |log.batches| && IsPending(log.batches[j]) && log.batches[j].base == LastStableOffset(log);
      if j < i {
        BatchesOrdered(log.batches, log.nextOffset, j, i);
      } else {
        BatchesOrdered(log.batches, log.nextOffset, i, j);
      }
    }
  }

  /** A read-committed reader sees nothing at or above the last stable offset. */
  ghost predicate ReadsStable(log: LogState) {
    forall r :: r in Flat(log.batches, true) ==> r.offset < LastStableOffset(log)
  }

  lemma StableByBatches(log: LogState)
    requires WellFormed(log)
    ensures ReadsStable(log)
            <==> (forall i :: 0 <= i < |log.batches| && log.batches[i].base >= LastStableOffset(log) ==>
                    !Shown(log.batches[i], true))
  {
    if ReadsStable(log) {
      forall i | 0 <= i < |log.batches| && log.batches[i].base >= LastStableOffset(log)
        ensures !Shown(log.batches[i], true)
      {
        assert BatchWellFormed(log.batches[i]);
        if Shown(log.batches[i], true) {
          ShownBatchIsFlat(log.batches, i, log.batches[i].records[0]);
        }
      }
    } else {
      var r :| r in Flat(log.batches, true) && r.offset >= LastStableOffset(log);
      var i := ShownBatchOf(log.batches, r);
      assert BatchWellFormed(log.batches[i]);
      if log.batches[i].base < LastStableOffset(log) {
        BatchesRespectStableOffset(log, i);
      }
    }
  }

  // ---------------------------------------------------------------- read off the operations

  /** Operation `f` is a transactional append that none of the later operations resolves. */
  predicate Undecided(ops: seq<LogRuns.Op>, f: nat)
    requires f < |ops|
  {
    ops[f].Accepted() && ops[f].AppendTransactional? && LastOutcome(ops[f + 1..], ops[f].producer).None?
  }

  /** Operation `j` is a transactional append whose last later resolution, if any, is an abort. */
  predicate Hidden(ops: seq<LogRuns.Op>, j: nat)
    requires j < |ops|
  {
    ops[j].AppendTransactional? && LastOutcome(ops[j + 1..], ops[j].producer) != Some(true)
  }

  lemma OperationDecides(ops: seq<LogRuns.Op>, j: nat)
    requires j < |ops| && ops[j].Accepted()
    ensures IsPending(BatchOf(ops, 0, j)) <==> Undecided(ops, j)
    ensures Shown(BatchOf(ops, 0, j), true) <==> !Hidden(ops, j)
  {
  }

  lemma StillHeld(log: LogState, whole: LogState, b: Batch)
    requires LogRuns.Forgets(log, whole) && b in whole.batches && b.base >= StartOffset(log)
    ensures b in log.batches
  {
    var i :| 0 <= i < |whole.batches| && whole.batches[i] == b;
    assert BatchWellFormed(whole.batches[i]);
    if i < |whole.batches| - |log.batches| {
      LogRuns.ForgottenBatchesEndBelow(log, whole, i);
    } else {
      assert b == log.batches[i - (|whole.batches| - |log.batches|)];
    }
  }

  lemma WholeIsAdded(ops: seq<LogRuns.Op>)
    ensures LogRuns.Run(EmptyLog(None), ops).batches == Added(ops, 0)
  {
    UnboundedRunContents(EmptyLog(None), ops);
    assert Evolved([], ops) == [];
  }

  /** The log holds the batch of an accepted operation whose offset it still has. */
  lemma StillHasBatch(limit: Option<nat>, ops: seq<LogRuns.Op>, j: nat)
    requires j < |ops| && ops[j].Accepted()
    requires OffsetAt(ops, 0, j) >= StartOffset(LogRuns.Run(EmptyLog(limit), ops))
    ensures BatchOf(ops, 0, j) in LogRuns.Run(EmptyLog(limit), ops).batches
  {
    LogRuns.SmallerBudgetSimulates(EmptyLog(limit), EmptyLog(None), ops);
    WholeIsAdded(ops);
    BatchIsAdded(ops, 0, j);
    StillHeld(LogRuns.Run(EmptyLog(limit), ops), LogRuns.Run(EmptyLog(None), ops), BatchOf(ops, 0, j));
  }

  /** And it holds nothing else. */
  lemma HeldIsAdded(limit: Option<nat>, ops: seq<LogRuns.Op>, b: Batch)
    requires b in LogRuns.Run(EmptyLog(limit), ops).batches
    ensures b in Added(ops, 0)
  {
    LogRuns.SmallerBudgetSimulates(EmptyLog(limit), EmptyLog(None), ops);
    WholeIsAdded(ops);
    var log, whole := LogRuns.Run(EmptyLog(limit), ops), LogRuns.Run(EmptyLog(None), ops);
    var i :| 0 <= i < |log.batches| && log.batches[i] == b;
    assert whole.batches[|whole.batches| - |log.batches| + i] == b;
  }

  lemma PendingBoundsStable(log: LogState, b: Batch)
    requires WellFormed(log) && b in log.batches && IsPending(b)
    ensures LastStableOffset(log) <= b.base
  {
    LastStableOffsetMeaning(log);
  }

  lemma StartIsFirst(log: LogState, i: nat)
    requires WellFormed(log) && i < |log.batches|
    ensures StartOffset(log) <= log.batches[i].base < log.nextOffset
  {
    assert BatchWellFormed(log.batches[i]) && BatchWellFormed(log.batches[0]);
    BatchesOrdered(log.batches, log.nextOffset, i, |log.batches|);
    if i > 0 {
      BatchesOrdered(log.batches, log.nextOffset, 0, i);
    }
  }

  /** Every accepted operation behind an undecided one that is still held stays hidden. */
  ghost predicate AllHiddenBehind(ops: seq<LogRuns.Op>, start: int) {
    forall f, j :: 0 <= f < j < |ops| && Undecided(ops, f) && OffsetAt(ops, 0, f) >= start && ops[j].Accepted() ==>
      Hidden(ops, j)
  }

  lemma {:induction false} HiddenIsUnseen(ops: seq<LogRuns.Op>, log: LogState, i: nat)
    requires WellFormed(log) && (forall b :: b in log.batches ==> b in Added(ops, 0))
    requires AllHiddenBehind(ops, StartOffset(log))
    requires i < |log.batches| && log.batches[i].base >= LastStableOffset(log)
    ensures !Shown(log.batches[i], true)
  {
    LastStableOffsetMeaning(log);
    StartIsFirst(log, i);
    var k :| 0 <= k < |log.batches| && IsPending(log.batches[k]) && log.batches[k].base == LastStableOffset(log);
    StartIsFirst(log, k);
    var f := AddedByOperation(ops, 0, log.batches[k]);
    var j := AddedByOperation(ops, 0, log.batches[i]);
    OperationDecides(ops, f);
    OperationDecides(ops, j);
    if j < f {
      OffsetsGrow(ops, 0, j, f);
    }
  }

  /** After any run on a log with any budget, a read-committed reader sees nothing at or above the last stable offset
      exactly when every accepted operation behind a still held undecided append is itself transactional and the last
      later resolution of its producer, if there is one, is an abort. */
  lemma {:induction false} ReadsStayStableIff(limit: Option<nat>, ops: seq<LogRuns.Op>)
    ensures var log := LogRuns.Run(EmptyLog(limit), ops);
            ReadsStable(log) <==> AllHiddenBehind(ops, StartOffset(log))
  {
    var log := LogRuns.Run(EmptyLog(limit), ops);
    LogRuns.RunKeepsWellFormed(EmptyLog(limit), ops);
    StableByBatches(log);
    if ReadsStable(log) {
      forall f, j | 0 <= f < j < |ops| && Undecided(ops, f) && OffsetAt(ops, 0, f) >= StartOffset(log)
        && ops[j].Accepted() ensures Hidden(ops, j)
      {
        OffsetsGrow(ops, 0, f, j);
        OperationDecides(ops, f);
        OperationDecides(ops, j);
        StillHasBatch(limit, ops, f);
        StillHasBatch(limit, ops, j);
        PendingBoundsStable(log, BatchOf(ops, 0, f));
      }
    } else if AllHiddenBehind(ops, StartOffset(log)) {
      forall b | b in log.batches ensures b in Added(ops, 0) {
        HeldIsAdded(limit, ops, b);
      }
      forall i | 0 <= i < |log.batches| && log.batches[i].base >= LastStableOffset(log)
        ensures !Shown(log.batches[i], true)
      {
        HiddenIsUnseen(ops, log, i);
      }
    }
  }

  /** A plain append behind a pending one is visible above the last stable offset. */
  lemma ReadsPastStableOffset(held: seq<RecordData>, plain: seq<RecordData>, producer: int)
    requires Rejection(held).None? && Rejection(plain).None?
    ensures var log := LogRuns.Run(EmptyLog(None),
                                   [LogRuns.AppendTransactional(held, producer), LogRuns.Append(plain)]);
            && LastStableOffset(log) == 0
            && Flat(log.batches, true) == Stamp(plain, |held|)
  {
    var first, second := LogRuns.AppendTransactional(held, producer), LogRuns.Append(plain);
    var a, b := NewBatch(held, 0, Some(producer)), NewBatch(plain, |held|, None);
    var one := LogRuns.Apply(EmptyLog(None), first);
    assert one.batches == [a];
    var two := LogRuns.Apply(one, second);
    assert two.batches == [a, b];
    assert [first, second][1..] == [second] && [second][1..] == [];
    assert LogRuns.Run(one, [second]) == LogRuns.Run(two, []);
    assert [a, b][1..] == [b] && [b][1..] == [];
    assert Flat([b], true) == Stamp(plain, |held|) + Flat([], true);
    assert Flat([a, b], true) == [] + Flat([b], true);
  }
}
