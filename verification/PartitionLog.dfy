/** The mutable partition log. Every method is tied to the function of module `Log` that
    says what it computes, so the theorems about those functions hold of this object. */
module PartitionLogs {
  import opened Records
  import opened Log
  import opened LogInvariant

  /** A scan that stops at the first record that no longer fits has the longest admissible prefix. */
  lemma StopIsLongest(records: seq<Record>, all: seq<Record>, maxRecords: nat, maxBytes: nat)
    requires records <= all && |records| < |all|
    requires Admissible(records, maxRecords, maxBytes)
    requires !Admissible(all[..|records| + 1], maxRecords, maxBytes)
    ensures LongestAdmissiblePrefix(records, all, maxRecords, maxBytes)
  {
    forall n | |records| < n <= |all| ensures !Admissible(all[..n], maxRecords, maxBytes) {
      if Admissible(all[..n], maxRecords, maxBytes) {
        AdmissibleShrinks(all, |records| + 1, n, maxRecords, maxBytes);
      }
    }
  }

  lemma SizePush(batches: seq<Batch>, b: Batch)
    ensures Size(batches + [b]) == Size(batches) + Charges(b.records)
  {
    SizeConcat(batches, [b]);
    assert [b][1..] == [];
  }

  lemma RetainStep(batches: seq<Batch>, limit: nat)
    requires |batches| > 1 && Size(batches) > limit
    ensures Retain(batches, Some(limit)) == Retain(batches[1..], Some(limit))
    ensures Size(batches[1..]) == Size(batches) - Charges(batches[0].records)
  {
  }

  lemma RetainStops(batches: seq<Batch>, limit: nat)
    requires |batches| <= 1 || Size(batches) <= limit
    ensures Retain(batches, Some(limit)) == batches
  {
  }

  /** Skipping whole batches that end at or below the offset hides nothing from the reader. */
  lemma SkipBatches(log: LogState, start: nat, offset: int, readCommitted: bool)
    requires WellFormed(log) && start <= |log.batches|
    requires forall i :: 0 <= i < start ==> log.batches[i].End() <= offset
    ensures Visible(log, offset, readCommitted) == AtOrAbove(Flat(log.batches[start..], readCommitted), offset)
  {
    assert log.batches == log.batches[..start] + log.batches[start..];
    FlatConcat(log.batches[..start], log.batches[start..], readCommitted);
    AtOrAboveConcat(Flat(log.batches[..start], readCommitted), Flat(log.batches[start..], readCommitted), offset);
    NothingVisible(log.batches[..start], offset, readCommitted);
  }

  // What a scan standing at record `i` of batch `b` has not looked at yet.

  function UnreadHere(b: Batch, i: nat, readCommitted: bool): seq<Record>
    requires i <= |b.records|
  {
    if Shown(b, readCommitted) then b.records[i..] else []
  }

  function Unread(batches: seq<Batch>, b: nat, i: nat, offset: int, readCommitted: bool): seq<Record>
    requires b <= |batches| && i <= if b < |batches| then |batches[b].records| else 0
  {
    if b == |batches| then []
    else AtOrAbove(UnreadHere(batches[b], i, readCommitted), offset)
         + AtOrAbove(Flat(batches[b + 1..], readCommitted), offset)
  }

  lemma UnreadFromBatch(batches: seq<Batch>, b: nat, offset: int, readCommitted: bool)
    requires b <= |batches|
    ensures Unread(batches, b, 0, offset, readCommitted) == AtOrAbove(Flat(batches[b..], readCommitted), offset)
  {
    if b < |batches| {
      assert batches[b..][1..] == batches[b + 1..];
      assert UnreadHere(batches[b], 0, readCommitted) == ShownRecords(batches[b], readCommitted);
      AtOrAboveConcat(ShownRecords(batches[b], readCommitted), Flat(batches[b + 1..], readCommitted), offset);
    }
  }

  lemma ScanStart(log: LogState, start: nat, offset: int, readCommitted: bool)
    requires WellFormed(log) && start <= |log.batches|
    requires forall i :: 0 <= i < start ==> log.batches[i].End() <= offset
    ensures Visible(log, offset, readCommitted) == Unread(log.batches, start, 0, offset, readCommitted)
  {
    SkipBatches(log, start, offset, readCommitted);
    UnreadFromBatch(log.batches, start, offset, readCommitted);
  }

  lemma UnreadStep(batches: seq<Batch>, b: nat, i: nat, offset: int, readCommitted: bool)
    requires b < |batches| && i < |batches[b].records|
    ensures Unread(batches, b, i, offset, readCommitted) ==
      if Shown(batches[b], readCommitted) && batches[b].records[i].offset >= offset
      then [batches[b].records[i]] + Unread(batches, b, i + 1, offset, readCommitted)
      else Unread(batches, b, i + 1, offset, readCommitted)
  {
    if Shown(batches[b], readCommitted) {
      var here := UnreadHere(batches[b], i, readCommitted);
      assert here[1..] == UnreadHere(batches[b], i + 1, readCommitted);
      ConcatAssociative(KeepIfReached(here[0], offset), AtOrAbove(here[1..], offset),
                        AtOrAbove(Flat(batches[b + 1..], readCommitted), offset));
    }
  }

  lemma UnreadNextBatch(batches: seq<Batch>, b: nat, offset: int, readCommitted: bool)
    requires b < |batches|
    ensures Unread(batches, b, |batches[b].records|, offset, readCommitted)
            == Unread(batches, b + 1, 0, offset, readCommitted)
  {
    UnreadFromBatch(batches, b + 1, offset, readCommitted);
    assert UnreadHere(batches[b], |batches[b].records|, readCommitted) == [];
  }

  lemma NextRecord(records: seq<Record>, record: Record, rest: seq<Record>, all: seq<Record>)
    requires all == records + ([record] + rest)
    ensures all == (records + [record]) + rest
    ensures |records| < |all| && records <= all && all[..|records| + 1] == records + [record]
    ensures Charges(records + [record]) == Charges(records) + Charge(record)
  {
    ConcatAssociative(records, [record], rest);
    assert (records + [record])[..|records|] == records;
  }

  lemma NothingVisibleAtEnd(log: LogState, readCommitted: bool)
    requires WellFormed(log)
    ensures Visible(log, log.nextOffset, readCommitted) == []
  {
    forall i | 0 <= i < |log.batches| ensures log.batches[i].End() <= log.nextOffset {
      BatchesOrdered(log.batches, log.nextOffset, i, |log.batches|);
    }
    NothingVisible(log.batches, log.nextOffset, readCommitted);
  }

  /** The inner loop of a fetch: skip, filter, and stop at the first record over a cap. */
  method ScanBatch(batches: seq<Batch>, b: nat, offset: int, maxRecords: nat, maxBytes: nat, readCommitted: bool,
                   taken: seq<Record>, used: nat, ghost all: seq<Record>)
    returns (records: seq<Record>, bytes: nat, full: bool)
    requires b < |batches|
    requires used == Charges(taken) && Admissible(taken, maxRecords, maxBytes)
    requires all == taken + Unread(batches, b, 0, offset, readCommitted)
    ensures full ==> LongestAdmissiblePrefix(records, all, maxRecords, maxBytes)
    ensures !full ==> bytes == Charges(records) && Admissible(records, maxRecords, maxBytes)
    ensures !full ==> all == records + Unread(batches, b + 1, 0, offset, readCommitted)
  {
    records, bytes, full := taken, used, false;
    var batch := batches[b];
    var i := 0;
    while i < |batch.records|
      invariant 0 <= i <= |batch.records|
      invariant bytes == Charges(records) && Admissible(records, maxRecords, maxBytes)
      invariant all == records + Unread(batches, b, i, offset, readCommitted)
    {
      var record := batch.records[i];
      UnreadStep(batches, b, i, offset, readCommitted);
      i := i + 1;
      if record.offset < offset {
        continue;
      }
      if readCommitted && batch.transaction.Some? && !batch.state.Committed? {
        continue;
      }
      NextRecord(records, record, Unread(batches, b, i, offset, readCommitted), all);
      if |records| == maxRecords {
        StopIsLongest(records, all, maxRecords, maxBytes);
        return records, bytes, true;
      }
      var size := Charge(record);
      if |records| > 0 && bytes + size > maxBytes {
        StopIsLongest(records, all, maxRecords, maxBytes);
        return records, bytes, true;
      }
      bytes := bytes + size;
      records := records + [record];
    }
    UnreadNextBatch(batches, b, offset, readCommitted);
  }

  lemma WholeIsLongest(records: seq<Record>, rest: seq<Record>, all: seq<Record>, maxRecords: nat, maxBytes: nat)
    requires all == records + rest && rest == [] && Admissible(records, maxRecords, maxBytes)
    ensures LongestAdmissiblePrefix(records, all, maxRecords, maxBytes)
  {
    assert all == records;
  }

  /** The outer loop of a fetch, from the batch the binary search found. */
  method Scan(batches: seq<Batch>, start: nat, offset: int, maxRecords: nat, maxBytes: nat, readCommitted: bool)
    returns (records: seq<Record>)
    requires start <= |batches|
    ensures LongestAdmissiblePrefix(records, Unread(batches, start, 0, offset, readCommitted), maxRecords, maxBytes)
  {
    ghost var all := Unread(batches, start, 0, offset, readCommitted);
    records := [];
    var bytes := 0;
    for b := start to |batches|
      invariant bytes == Charges(records) && Admissible(records, maxRecords, maxBytes)
      invariant all == records + Unread(batches, b, 0, offset, readCommitted)
    {
      var full;
      records, bytes, full := ScanBatch(batches, b, offset, maxRecords, maxBytes, readCommitted, records, bytes, all);
      if full {
        return;
      }
    }
    WholeIsLongest(records, Unread(batches, |batches|, 0, offset, readCommitted), all, maxRecords, maxBytes);
  }

  class PartitionLog {
    var batches: seq<Batch>
    var nextOffset: int
    const maxBytes: Option<nat>
    var retainedBytes: nat

    ghost function State(): LogState
      reads this
    {
      LogState(batches, nextOffset, maxBytes, retainedBytes)
    }

    ghost predicate Valid()
      reads this
    {
      WellFormed(State())
    }

    constructor (limit: Option<nat>)
      ensures Valid() && State() == EmptyLog(limit)
    {
      batches, nextOffset, maxBytes, retainedBytes := [], 0, limit, 0;
    }

    method StartOffset() returns (offset: int)
      ensures offset == Log.StartOffset(State())
    {
      if |batches| > 0 {
        offset := batches[0].base;
      } else {
        offset := nextOffset;
      }
    }

    method ListOffset(earliest: bool) returns (offset: int)
      requires Valid()
      ensures earliest ==> offset == Log.StartOffset(State()) && forall b :: b in batches ==> offset <= b.base
      ensures !earliest ==> offset == nextOffset && forall b :: b in batches ==> b.End() <= offset
    {
      if earliest {
        offset := StartOffset();
        forall i | 0 < i < |batches| ensures batches[0].base <= batches[i].base {
          BatchesOrdered(batches, nextOffset, 0, i);
        }
      } else {
        offset := nextOffset;
        forall i | 0 <= i < |batches| ensures batches[i].End() <= nextOffset {
          BatchesOrdered(batches, nextOffset, i, |batches|);
        }
      }
    }

    /** Copies the inputs into records numbered from `base`. */
    method StampRecords(inputs: seq<RecordData>, base: int) returns (records: seq<Record>)
      ensures records == Stamp(inputs, base)
    {
      records := [];
      for index := 0 to |inputs|
        invariant records == Stamp(inputs, base)[..index]
      {
        var input := inputs[index];
        records := records + [Record(base + index, input.timestamp, input.key, input.value)];
      }
    }

    method Push(b: Batch)
      requires retainedBytes == Size(batches)
      modifies this
      ensures State() == PushBatch(old(State()), b)
    {
      assert retainedBytes + Charges(b.records) == Size(batches + [b]) by {
        SizePush(batches, b);
      }
      nextOffset := b.base + |b.records|;
      retainedBytes := retainedBytes + Charges(b.records);
      batches := batches + [b];
      EnforceRetention();
    }

    method Append(inputs: seq<RecordData>) returns (r: Result<int, LogError>)
      requires Valid()
      modifies this
      ensures Valid()
      ensures (State(), r) == AppendBatch(old(State()), inputs, None)
    {
      if |inputs| == 0 {
        return Err(EmptyAppend);
      }
      if |inputs| > MAX_APPEND_RECORDS {
        return Err(TooManyRecords);
      }
      var base := nextOffset;
      var records := StampRecords(inputs, base);
      AppendKeepsWellFormed(State(), inputs, None);
      Push(Batch(base, records, None, Committed));
      r := Ok(base);
    }

    method AppendTransactional(inputs: seq<RecordData>, producer: int) returns (r: Result<int, LogError>)
      requires Valid()
      modifies this
      ensures Valid()
      ensures (State(), r) == AppendBatch(old(State()), inputs, Some(producer))
    {
      if |inputs| == 0 {
        return Err(EmptyAppend);
      }
      if |inputs| > MAX_APPEND_RECORDS {
        return Err(TooManyRecords);
      }
      var base := nextOffset;
      var records := StampRecords(inputs, base);
      AppendKeepsWellFormed(State(), inputs, Some(producer));
      Push(Batch(base, records, Some(producer), Pending));
      r := Ok(base);
    }

    method CommitTransaction(producer: int, commit: bool)
      requires Valid()
      modifies this
      ensures Valid()
      ensures State() == ResolveLog(old(State()), producer, commit)
    {
      ResolveKeepsWellFormed(State(), producer, commit);
      var i := 0;
      while i < |batches|
        invariant 0 <= i <= |batches| == |old(batches)|
        invariant forall k :: 0 <= k < i ==> batches[k] == ResolveBatch(old(batches)[k], producer, commit)
        invariant forall k :: i <= k < |batches| ==> batches[k] == old(batches)[k]
        invariant nextOffset == old(nextOffset) && retainedBytes == old(retainedBytes)
      {
        if batches[i].transaction == Some(producer) {
          batches := batches[i := batches[i].(state := if commit then Committed else Aborted)];
        }
        i := i + 1;
      }
      assert batches == ResolveBatches(old(batches), producer, commit);
    }

    /** The saturating subtraction is written out; it never saturates, since the total counts the dropped batch. */
    method EnforceRetention()
      requires batches != [] && retainedBytes == Size(batches)
      modifies this
      ensures batches == Retain(old(batches), maxBytes)
      ensures retainedBytes == Size(batches)
      ensures nextOffset == old(nextOffset)
    {
      match maxBytes
      case None =>
      case Some(limit) =>
        ghost var target := Retain(batches, Some(limit));
        while |batches| > 1 && retainedBytes > limit
          invariant batches != [] && retainedBytes == Size(batches)
          invariant target == Retain(batches, Some(limit))
          invariant nextOffset == old(nextOffset)
          decreases |batches|
        {
          RetainStep(batches, limit);
          var removed := batches[0];
          batches := batches[1..];
          var size := Charges(removed.records);
          retainedBytes := if retainedBytes >= size then retainedBytes - size else 0;
        }
        RetainStops(batches, limit);
    }

    /** Binary search for the last batch whose base offset is at or below `offset`. */
    method BatchIndexFor(offset: int) returns (index: nat)
      requires Valid()
      ensures index < |batches| || index == |batches| == 0
      ensures forall i :: 0 <= i < index ==> batches[i].End() <= offset
      ensures forall i :: index < i < |batches| ==> offset < batches[i].base
    {
      var low, high := 0, |batches|;
      while low < high
        invariant 0 <= low <= high <= |batches|
        invariant low > 0 ==> batches[low - 1].base <= offset
        invariant forall i :: high <= i < |batches| ==> offset < batches[i].base
      {
        var middle := low + (high - low) / 2;
        if batches[middle].base <= offset {
          low := middle + 1;
        } else {
          forall i | middle < i < |batches| ensures offset < batches[i].base {
            BatchesOrdered(batches, nextOffset, middle, i);
          }
          high := middle;
        }
      }
      index := if low == 0 then 0 else low - 1;
      forall i | 0 <= i < index ensures batches[i].End() <= offset {
        BatchesOrdered(batches, nextOffset, i, index);
      }
    }

    method FindLastStableOffset() returns (offset: int)
      ensures offset == LastStableOffset(State())
    {
      for i := 0 to |batches|
        invariant FirstPending(batches, nextOffset) == FirstPending(batches[i..], nextOffset)
      {
        if batches[i].transaction.Some? && batches[i].state == Pending {
          return batches[i].base;
        }
        assert batches[i..][1..] == batches[i + 1..];
      }
      offset := nextOffset;
    }

    method Fetch(offset: int, maxRecords: nat, maxBytes: nat, readCommitted: bool)
      returns (r: Result<FetchWindow, LogError>)
      requires Valid()
      ensures r == Log.Fetch(State(), offset, maxRecords, maxBytes, readCommitted)
    {
      var start := StartOffset();
      if offset < start || offset > nextOffset {
        return Err(OffsetOutOfRange);
      }
      ghost var all := Visible(State(), offset, readCommitted);
      var records := [];
      if maxRecords > 0 && offset < nextOffset {
        var index := BatchIndexFor(offset);
        ScanStart(State(), index, offset, readCommitted);
        records := Scan(batches, index, offset, maxRecords, maxBytes, readCommitted);
      } else if offset == nextOffset {
        NothingVisibleAtEnd(State(), readCommitted);
      }
      LongestUnique(records, Longest(all, 0, maxRecords, maxBytes), all, maxRecords, maxBytes);
      var lastStable := FindLastStableOffset();
      r := Ok(FetchWindow(nextOffset, lastStable, records));
    }
  }
}
