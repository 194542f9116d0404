/** What every log operation keeps: the shape of the log, its accounting and its retention rule. */
module LogInvariant {
  import opened Records
  import opened Log

  /** The retained batches are the longest suffix within budget, or the newest batch alone. */
  lemma {:induction false} RetainKeepsLongestSuffix(batches: seq<Batch>, maxBytes: Option<nat>)
    requires batches != []
    ensures var kept := Retain(batches, maxBytes);
      && 0 < |kept| <= |batches| && kept == batches[|batches| - |kept|..]
      && (|kept| == 1 || WithinBudget(kept, maxBytes))
      && (forall k :: 0 <= k < |batches| - |kept| ==> !WithinBudget(batches[k..], maxBytes))
  {
    RetainIsSuffix(batches, maxBytes);
    if |batches| > 1 && !WithinBudget(batches, maxBytes) {
      RetainKeepsLongestSuffix(batches[1..], maxBytes);
      var kept := Retain(batches, maxBytes);
      forall k | 0 <= k < |batches| - |kept| ensures !WithinBudget(batches[k..], maxBytes) {
        if k == 0 {
          assert batches[k..] == batches;
        } else {
          assert batches[k..] == batches[1..][k - 1..];
        }
      }
    }
  }

  lemma NewBatchWellFormed(inputs: seq<RecordData>, base: nat, transaction: Option<int>)
    requires Rejection(inputs).None?
    ensures BatchWellFormed(NewBatch(inputs, base, transaction))
    ensures NewBatch(inputs, base, transaction).End() == base + |inputs|
  {
    var b := NewBatch(inputs, base, transaction);
    assert b.records == Stamp(inputs, base);
  }

  lemma RetainShape(batches: seq<Batch>, maxBytes: Option<nat>, next: nat)
    requires batches != []
    requires forall k :: 0 <= k < |batches| ==> BatchWellFormed(batches[k])
    requires Contiguous(batches, next)
    ensures var kept := Retain(batches, maxBytes); WellFormed(LogState(kept, next, maxBytes, Size(kept)))
  {
    RetainKeepsLongestSuffix(batches, maxBytes);
    ContiguousSuffix(batches, next, |batches| - |Retain(batches, maxBytes)|);
  }

  lemma PushShape(batches: seq<Batch>, b: Batch)
    requires forall k :: 0 <= k < |batches| ==> BatchWellFormed(batches[k])
    requires Contiguous(batches, b.base) && BatchWellFormed(b)
    ensures forall k :: 0 <= k < |batches + [b]| ==> BatchWellFormed((batches + [b])[k])
    ensures Contiguous(batches + [b], b.End())
  {
    ContiguousAppend(batches, b.base, b);
  }

  lemma PushKeepsWellFormed(log: LogState, b: Batch)
    requires WellFormed(log) && BatchWellFormed(b) && b.base == log.nextOffset
    ensures WellFormed(PushBatch(log, b))
  {
    PushShape(log.batches, b);
    RetainShape(log.batches + [b], log.maxBytes, b.End());
  }

  lemma AppendKeepsWellFormed(log: LogState, inputs: seq<RecordData>, transaction: Option<int>)
    requires WellFormed(log)
    ensures WellFormed(AppendBatch(log, inputs, transaction).0)
  {
    if Rejection(inputs).None? {
      NewBatchWellFormed(inputs, log.nextOffset, transaction);
      PushKeepsWellFormed(log, NewBatch(inputs, log.nextOffset, transaction));
    }
  }

  lemma ResolveShape(batches: seq<Batch>, next: int, producer: int, commit: bool)
    requires forall k :: 0 <= k < |batches| ==> BatchWellFormed(batches[k])
    requires Contiguous(batches, next)
    ensures forall k :: 0 <= k < |batches| ==> BatchWellFormed(ResolveBatches(batches, producer, commit)[k])
    ensures Contiguous(ResolveBatches(batches, producer, commit), next)
  {
    var resolved := ResolveBatches(batches, producer, commit);
    forall i | 0 <= i < |resolved|
      ensures BatchWellFormed(resolved[i]) && JoinedAt(resolved, next, i)
    {
      assert JoinedAt(batches, next, i);
    }
  }

  lemma ResolveKeepsWellFormed(log: LogState, producer: int, commit: bool)
    requires WellFormed(log)
    ensures WellFormed(ResolveLog(log, producer, commit))
  {
    ResolveKeepsSize(log.batches, producer, commit);
    ResolveShape(log.batches, log.nextOffset, producer, commit);
  }

  // ---------------------------------------------------------------- offsets

  lemma {:induction false} FirstPendingBounds(batches: seq<Batch>, next: int)
    requires forall k :: 0 <= k < |batches| ==> BatchWellFormed(batches[k])
    requires Contiguous(batches, next)
    ensures batches != [] ==> batches[0].base <= FirstPending(batches, next)
    ensures FirstPending(batches, next) <= next
  {
    if batches != [] {
      assert BatchWellFormed(batches[0]) && JoinedAt(batches, next, 0);
      ContiguousSuffix(batches, next, 1);
      FirstPendingBounds(batches[1..], next);
    }
  }

  /** start offset <= last stable offset <= high watermark */
  lemma OffsetsOrdered(log: LogState)
    requires WellFormed(log)
    ensures 0 <= StartOffset(log) <= LastStableOffset(log) <= log.nextOffset
  {
    FirstPendingBounds(log.batches, log.nextOffset);
    if log.batches != [] {
      assert BatchWellFormed(log.batches[0]);
    }
  }

  /** Nothing below the last stable offset is pending, and it sits at a pending batch or at the end. */
  lemma {:induction false} NothingPendingBelow(batches: seq<Batch>, next: int, i: nat)
    requires forall k :: 0 <= k < |batches| ==> BatchWellFormed(batches[k])
    requires Contiguous(batches, next)
    requires i < |batches| && IsPending(batches[i])
    ensures FirstPending(batches, next) <= batches[i].base
  {
    if !IsPending(batches[0]) {
      ContiguousSuffix(batches, next, 1);
      NothingPendingBelow(batches[1..], next, i - 1);
    } else if i > 0 {
      BatchesOrdered(batches, next, 0, i);
    }
  }

  lemma {:induction false} FirstPendingIsAttained(batches: seq<Batch>, next: int)
    ensures FirstPending(batches, next) == next
            || exists i :: 0 <= i < |batches| && IsPending(batches[i]) && batches[i].base == FirstPending(batches, next)
  {
    if batches != [] {
      FirstPendingIsAttained(batches[1..], next);
      if !IsPending(batches[0]) && FirstPending(batches, next) != next {
        var i :| 0 <= i < |batches[1..]| && IsPending(batches[1..][i])
          && batches[1..][i].base == FirstPending(batches[1..], next);
        assert IsPending(batches[i + 1]);
      }
    }
  }

  lemma LastStableOffsetMeaning(log: LogState)
    requires WellFormed(log)
    ensures forall i :: 0 <= i < |log.batches| && log.batches[i].base < LastStableOffset(log) ==>
      !IsPending(log.batches[i])
    ensures LastStableOffset(log) == log.nextOffset
      || exists i :: 0 <= i < |log.batches| && IsPending(log.batches[i]) && log.batches[i].base == LastStableOffset(log)
  {
    FirstPendingIsAttained(log.batches, log.nextOffset);
    forall i | 0 <= i < |log.batches| && IsPending(log.batches[i])
      ensures LastStableOffset(log) <= log.batches[i].base
    {
      NothingPendingBelow(log.batches, log.nextOffset, i);
    }
  }
}
