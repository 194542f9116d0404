/** What a reader of one log observes: gap-free windows, progress, and complete consumption. */
module LogReaders {
  import opened Records
  import opened Log

  ghost predicate Increasing(records: seq<Record>, low: int, high: int) {
    && (forall i :: 0 <= i < |records| ==> low <= records[i].offset < high)
    && (forall i, j :: 0 <= i < j < |records| ==> records[i].offset < records[j].offset)
  }

  ghost predicate Consecutive(records: seq<Record>, from: int) {
    forall i :: 0 <= i < |records| ==> records[i].offset == from + i
  }

  // ---------------------------------------------------------------- shape of the flat sequence

  lemma {:induction false} FlatIncreasing(batches: seq<Batch>, next: int, low: int, readCommitted: bool)
    requires forall k :: 0 <= k < |batches| ==> BatchWellFormed(batches[k])
    requires Contiguous(batches, next)
    requires low <= BaseAt(batches, next, 0)
    ensures Increasing(Flat(batches, readCommitted), low, next)
  {
    if batches != [] {
      var b := batches[0];
      assert BatchWellFormed(b) && JoinedAt(batches, next, 0);
      ContiguousSuffix(batches, next, 1);
      FlatIncreasing(batches[1..], next, b.End(), readCommitted);
      BatchesOrdered(batches, next, 0, |batches|);
    }
  }

  lemma {:induction false} FlatConsecutive(batches: seq<Batch>, next: int)
    requires forall k :: 0 <= k < |batches| ==> BatchWellFormed(batches[k])
    requires Contiguous(batches, next)
    ensures Consecutive(Flat(batches, false), BaseAt(batches, next, 0))
    ensures |Flat(batches, false)| == next - BaseAt(batches, next, 0)
  {
    if batches != [] {
      assert BatchWellFormed(batches[0]) && JoinedAt(batches, next, 0);
      ContiguousSuffix(batches, next, 1);
      FlatConsecutive(batches[1..], next);
    }
  }

  lemma {:induction false} AllAtOrAbove(records: seq<Record>, offset: int)
    requires forall i :: 0 <= i < |records| ==> offset <= records[i].offset
    ensures AtOrAbove(records, offset) == records
  {
    if records != [] {
      AllAtOrAbove(records[1..], offset);
      assert records == [records[0]] + records[1..];
    }
  }

  /** Filtering an increasing sequence just above one of its elements drops exactly its prefix. */
  lemma FilterAfter(records: seq<Record>, n: nat, offset: int)
    requires n <= |records|
    requires forall i :: 0 <= i < n ==> records[i].offset < offset
    requires forall i :: n <= i < |records| ==> offset <= records[i].offset
    ensures AtOrAbove(records, offset) == records[n..]
  {
    assert records == records[..n] + records[n..];
    AtOrAboveConcat(records[..n], records[n..], offset);
    NothingAtOrAbove(records[..n], offset);
    AllAtOrAbove(records[n..], offset);
  }

  lemma {:induction false} FilterTwice(records: seq<Record>, low: int, high: int)
    requires low <= high
    ensures AtOrAbove(AtOrAbove(records, low), high) == AtOrAbove(records, high)
  {
    if records != [] {
      FilterTwice(records[1..], low, high);
      AtOrAboveConcat(KeepIfReached(records[0], low), AtOrAbove(records[1..], low), high);
      assert [records[0]][1..] == [];
    }
  }

  lemma {:induction false} FilterMembers(records: seq<Record>, offset: int, low: int, high: int)
    requires Increasing(records, low, high)
    ensures Increasing(AtOrAbove(records, offset), if low <= offset then offset else low, high)
  {
    if records != [] {
      FilterMembers(records[1..], offset, records[0].offset + 1, high);
    }
  }

  lemma VisibleIncreasing(log: LogState, offset: int, readCommitted: bool)
    requires WellFormed(log) && StartOffset(log) <= offset
    ensures Increasing(Visible(log, offset, readCommitted), offset, log.nextOffset)
  {
    FlatIncreasing(log.batches, log.nextOffset, StartOffset(log), readCommitted);
    FilterMembers(Flat(log.batches, readCommitted), offset, StartOffset(log), log.nextOffset);
  }

  // ---------------------------------------------------------------- windows

  /** A read-uncommitted window is gap-free from the requested offset. */
  lemma UncommittedWindowHasNoGaps(log: LogState, offset: int, maxRecords: nat, maxBytes: nat)
    requires WellFormed(log) && StartOffset(log) <= offset <= log.nextOffset
    ensures Fetch(log, offset, maxRecords, maxBytes, false).Ok?
    ensures Consecutive(Fetch(log, offset, maxRecords, maxBytes, false).value.records, offset)
    ensures |Visible(log, offset, false)| == log.nextOffset - offset
  {
    var all := Flat(log.batches, false);
    FlatConsecutive(log.batches, log.nextOffset);
    FilterAfter(all, offset - StartOffset(log), offset);
  }

  /** With a positive record cap a fetch is empty only when nothing at or above the offset is visible. */
  lemma FetchMakesProgress(log: LogState, offset: int, maxRecords: nat, maxBytes: nat, readCommitted: bool)
    requires WellFormed(log) && StartOffset(log) <= offset <= log.nextOffset && maxRecords > 0
    ensures Fetch(log, offset, maxRecords, maxBytes, readCommitted).value.records == [] <==>
      Visible(log, offset, readCommitted) == []
  {
    var all := Visible(log, offset, readCommitted);
    if all != [] {
      assert Admissible(all[..1], maxRecords, maxBytes);
    }
  }

  lemma SplitAtPrefix(all: seq<Record>, window: seq<Record>, low: int, high: int)
    requires Increasing(all, low, high) && window <= all && window != []
    ensures var next := window[|window| - 1].offset + 1;
      low < next <= high && all == window + AtOrAbove(all, next)
  {
    FilterAfter(all, |window|, window[|window| - 1].offset + 1);
  }

  lemma WindowThenRest(flat: seq<Record>, all: seq<Record>, window: seq<Record>, offset: int, high: int)
    requires all == AtOrAbove(flat, offset) && Increasing(all, offset, high) && window <= all && window != []
    ensures var next := window[|window| - 1].offset + 1;
      offset < next <= high && all == window + AtOrAbove(flat, next)
  {
    SplitAtPrefix(all, window, offset, high);
    FilterTwice(flat, offset, window[|window| - 1].offset + 1);
  }

  lemma {:induction false} NextWindow(log: LogState, offset: int, maxRecords: nat, maxBytes: nat, readCommitted: bool)
    requires WellFormed(log) && StartOffset(log) <= offset <= log.nextOffset
    requires Fetch(log, offset, maxRecords, maxBytes, readCommitted).value.records != []
    ensures var window := Fetch(log, offset, maxRecords, maxBytes, readCommitted).value.records;
      var next := window[|window| - 1].offset + 1;
      && offset < next <= log.nextOffset
      && Visible(log, offset, readCommitted) == window + Visible(log, next, readCommitted)
  {
    var window := Fetch(log, offset, maxRecords, maxBytes, readCommitted).value.records;
    VisibleIncreasing(log, offset, readCommitted);
    WindowThenRest(Flat(log.batches, readCommitted), Visible(log, offset, readCommitted), window, offset,
                   log.nextOffset);
  }

  /** A consumer that fetches again from the last offset it received plus one, until a fetch is empty. */
  function Drain(log: LogState, offset: int, maxRecords: nat, maxBytes: nat, readCommitted: bool): seq<Record>
    requires WellFormed(log) && StartOffset(log) <= offset <= log.nextOffset && maxRecords > 0
    decreases log.nextOffset - offset
  {
    var window := Fetch(log, offset, maxRecords, maxBytes, readCommitted).value.records;
    if window == [] then []
    else
      NextWindow(log, offset, maxRecords, maxBytes, readCommitted);
      window + Drain(log, window[|window| - 1].offset + 1, maxRecords, maxBytes, readCommitted)
  }

  lemma DrainStep(log: LogState, offset: int, maxRecords: nat, maxBytes: nat, readCommitted: bool, window: seq<Record>,
                  next: int)
    requires WellFormed(log) && StartOffset(log) <= offset <= log.nextOffset && maxRecords > 0
    requires window == Fetch(log, offset, maxRecords, maxBytes, readCommitted).value.records && window != []
    requires next == window[|window| - 1].offset + 1 && StartOffset(log) <= next <= log.nextOffset
    ensures Drain(log, offset, maxRecords, maxBytes, readCommitted)
            == window + Drain(log, next, maxRecords, maxBytes, readCommitted)
  {
  }

  /** The consumer collects every visible record from its start exactly once, in order, whatever the caps. */
  lemma {:induction false} DrainCollectsEverything(log: LogState, offset: int, maxRecords: nat, maxBytes: nat,
                                                   readCommitted: bool)
    requires WellFormed(log) && StartOffset(log) <= offset <= log.nextOffset && maxRecords > 0
    ensures Drain(log, offset, maxRecords, maxBytes, readCommitted) == Visible(log, offset, readCommitted)
    decreases log.nextOffset - offset
  {
    var window := Fetch(log, offset, maxRecords, maxBytes, readCommitted).value.records;
    FetchMakesProgress(log, offset, maxRecords, maxBytes, readCommitted);
    if window != [] {
      var next := window[|window| - 1].offset + 1;
      NextWindow(log, offset, maxRecords, maxBytes, readCommitted);
      DrainCollectsEverything(log, next, maxRecords, maxBytes, readCommitted);
      DrainStep(log, offset, maxRecords, maxBytes, readCommitted, window, next);
    }
  }
}
