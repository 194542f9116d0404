/** One partition's append-only log: its state, its operations as functions of that state, and the filter a fetch is
    measured against. */
module Log {
  import opened Records

  datatype BatchState = Pending | Committed | Aborted

  datatype Batch = Batch(base: int, records: seq<Record>, transaction: Option<int>, state: BatchState) {
    function End(): int {
      base + |records|
    }
  }

  datatype FetchWindow = FetchWindow(highWatermark: int, lastStableOffset: int, records: seq<Record>)

  datatype LogState = LogState(batches: seq<Batch>, nextOffset: int, maxBytes: Option<nat>, retainedBytes: nat)

  function EmptyLog(maxBytes: Option<nat>): LogState {
    LogState([], 0, maxBytes, 0)
  }

  // ---------------------------------------------------------------- well-formed logs

  predicate BatchWellFormed(b: Batch) {
    && 1 <= |b.records| <= MAX_APPEND_RECORDS
    && 0 <= b.base
    && (forall i :: 0 <= i < |b.records| ==> b.records[i].offset == b.base + i)
    && (b.transaction.None? ==> b.state.Committed?)
  }

  /** Where the batch after index `i` begins; `next` after the last one. */
  function BaseAt(batches: seq<Batch>, next: int, i: nat): int {
    if i < |batches| then batches[i].base else next
  }

  predicate JoinedAt(batches: seq<Batch>, next: int, i: nat)
    requires i < |batches|
  {
    batches[i].End() == BaseAt(batches, next, i + 1)
  }

  /** Every batch ends where the next one begins, and the last one ends at `next`. */
  predicate Contiguous(batches: seq<Batch>, next: int) {
    forall i {:trigger JoinedAt(batches, next, i)} :: 0 <= i < |batches| ==> JoinedAt(batches, next, i)
  }

  function Size(batches: seq<Batch>): nat {
    if batches == [] then 0 else Charges(batches[0].records) + Size(batches[1..])
  }

  predicate WithinBudget(batches: seq<Batch>, maxBytes: Option<nat>) {
    maxBytes.Some? ==> Size(batches) <= maxBytes.value
  }

  predicate WellFormed(log: LogState) {
    && (forall i :: 0 <= i < |log.batches| ==> BatchWellFormed(log.batches[i]))
    && Contiguous(log.batches, log.nextOffset)
    && (log.batches == [] ==> log.nextOffset == 0)
    && 0 <= log.nextOffset
    && log.retainedBytes == Size(log.batches)
    && (|log.batches| <= 1 || WithinBudget(log.batches, log.maxBytes))
  }

  lemma {:induction false} SizeConcat(left: seq<Batch>, right: seq<Batch>)
    ensures Size(left + right) == Size(left) + Size(right)
  {
    if left == [] {
      assert left + right == right;
    } else {
      SizeConcat(left[1..], right);
      assert (left + right)[1..] == left[1..] + right;
    }
  }

  lemma ContiguousSuffix(batches: seq<Batch>, next: int, k: nat)
    requires Contiguous(batches, next) && k <= |batches|
    ensures Contiguous(batches[k..], next)
  {
    forall i | 0 <= i < |batches[k..]| ensures JoinedAt(batches[k..], next, i) {
      assert JoinedAt(batches, next, k + i);
    }
  }

  lemma ContiguousAppend(batches: seq<Batch>, next: int, b: Batch)
    requires Contiguous(batches, next) && b.base == next
    ensures Contiguous(batches + [b], b.End())
  {
    var all := batches + [b];
    forall i | 0 <= i < |all| ensures JoinedAt(all, b.End(), i) {
      assert i < |batches| ==> JoinedAt(batches, next, i);
    }
  }

  /** Earlier batches end at or below the base of later ones. */
  lemma {:induction false} BatchesOrdered(batches: seq<Batch>, next: int, i: nat, j: nat)
    requires forall k :: 0 <= k < |batches| ==> BatchWellFormed(batches[k])
    requires Contiguous(batches, next)
    requires i < j <= |batches|
    ensures batches[i].End() <= BaseAt(batches, next, j)
    decreases j - i
  {
    assert JoinedAt(batches, next, i);
    if i + 1 < j {
      BatchesOrdered(batches, next, i + 1, j);
      assert BatchWellFormed(batches[i + 1]);
    }
  }

  // ---------------------------------------------------------------- offsets a log exposes

  function StartOffset(log: LogState): int {
    if log.batches == [] then log.nextOffset else log.batches[0].base
  }

  predicate IsPending(b: Batch) {
    b.transaction.Some? && b.state.Pending?
  }

  /** Base of the first pending batch, or `next` when nothing is pending. */
  function FirstPending(batches: seq<Batch>, next: int): int {
    if batches == [] then next
    else if IsPending(batches[0]) then batches[0].base
    else FirstPending(batches[1..], next)
  }

  function LastStableOffset(log: LogState): int {
    FirstPending(log.batches, log.nextOffset)
  }

  // ---------------------------------------------------------------- appends and retention

  function Stamp(inputs: seq<RecordData>, base: int): seq<Record> {
    seq(|inputs|, i requires 0 <= i < |inputs| => Record(base + i, inputs[i].timestamp, inputs[i].key, inputs[i].value))
  }

  function Rejection(inputs: seq<RecordData>): Option<LogError> {
    if inputs == [] then Some(EmptyAppend)
    else if |inputs| > MAX_APPEND_RECORDS then Some(TooManyRecords)
    else None
  }

  function NewBatch(inputs: seq<RecordData>, base: int, transaction: Option<int>): Batch {
    Batch(base, Stamp(inputs, base), transaction, if transaction.Some? then Pending else Committed)
  }

  /** What the retention loop leaves: drop oldest batches while more than one is over budget. */
  function Retain(batches: seq<Batch>, maxBytes: Option<nat>): seq<Batch> {
    if |batches| > 1 && !WithinBudget(batches, maxBytes) then Retain(batches[1..], maxBytes) else batches
  }

  lemma {:induction false} RetainIsSuffix(batches: seq<Batch>, maxBytes: Option<nat>)
    ensures var kept := Retain(batches, maxBytes); |kept| <= |batches| && kept == batches[|batches| - |kept|..]
  {
    if |batches| > 1 && !WithinBudget(batches, maxBytes) {
      RetainIsSuffix(batches[1..], maxBytes);
    }
  }

  function PushBatch(log: LogState, b: Batch): LogState {
    var kept := Retain(log.batches + [b], log.maxBytes);
    LogState(kept, b.End(), log.maxBytes, Size(kept))
  }

  function AppendBatch(log: LogState, inputs: seq<RecordData>, transaction: Option<int>)
    : (LogState, Result<int, LogError>)
  {
    match Rejection(inputs)
    case Some(error) => (log, Err(error))
    case None => (PushBatch(log, NewBatch(inputs, log.nextOffset, transaction)), Ok(log.nextOffset))
  }

  // ---------------------------------------------------------------- transaction resolution

  function Outcome(commit: bool): BatchState {
    if commit then Committed else Aborted
  }

  function ResolveBatch(b: Batch, producer: int, commit: bool): Batch {
    if b.transaction == Some(producer) then b.(state := Outcome(commit)) else b
  }

  function ResolveBatches(batches: seq<Batch>, producer: int, commit: bool): seq<Batch> {
    seq(|batches|, i requires 0 <= i < |batches| => ResolveBatch(batches[i], producer, commit))
  }

  function ResolveLog(log: LogState, producer: int, commit: bool): LogState {
    log.(batches := ResolveBatches(log.batches, producer, commit))
  }

  lemma {:induction false} ResolveKeepsSize(batches: seq<Batch>, producer: int, commit: bool)
    ensures Size(ResolveBatches(batches, producer, commit)) == Size(batches)
  {
    if batches != [] {
      ResolveKeepsSize(batches[1..], producer, commit);
      assert ResolveBatches(batches, producer, commit)[1..] == ResolveBatches(batches[1..], producer, commit);
    }
  }

  // ---------------------------------------------------------------- what a reader may see

  /** Whether a reader at this isolation level sees the batch at all. */
  predicate Shown(b: Batch, readCommitted: bool) {
    readCommitted ==> b.transaction.None? || b.state.Committed?
  }

  function ShownRecords(b: Batch, readCommitted: bool): seq<Record> {
    if Shown(b, readCommitted) then b.records else []
  }

  /** All records a reader sees, in log order, ignoring batch structure. */
  function Flat(batches: seq<Batch>, readCommitted: bool): seq<Record> {
    if batches == [] then []
    else ShownRecords(batches[0], readCommitted) + Flat(batches[1..], readCommitted)
  }

  function KeepIfReached(record: Record, offset: int): seq<Record> {
    if record.offset >= offset then [record] else []
  }

  function AtOrAbove(records: seq<Record>, offset: int): seq<Record> {
    if records == [] then [] else KeepIfReached(records[0], offset) + AtOrAbove(records[1..], offset)
  }

  /** The reference a fetch is measured against: a plain filter of the flat record sequence. */
  function Visible(log: LogState, offset: int, readCommitted: bool): seq<Record> {
    AtOrAbove(Flat(log.batches, readCommitted), offset)
  }

  /** The caps of one fetch; the first record is exempt from the byte cap. */
  predicate Admissible(records: seq<Record>, maxRecords: nat, maxBytes: nat) {
    |records| <= maxRecords && (|records| <= 1 || Charges(records) <= maxBytes)
  }

  ghost predicate LongestAdmissiblePrefix(window: seq<Record>, all: seq<Record>, maxRecords: nat, maxBytes: nat) {
    && window <= all
    && Admissible(window, maxRecords, maxBytes)
    && forall n :: |window| < n <= |all| ==> !Admissible(all[..n], maxRecords, maxBytes)
  }

  lemma AdmissibleShrinks(all: seq<Record>, m: nat, n: nat, maxRecords: nat, maxBytes: nat)
    requires m <= n <= |all|
    requires Admissible(all[..n], maxRecords, maxBytes)
    ensures Admissible(all[..m], maxRecords, maxBytes)
  {
    assert all[..n] == all[..m] + all[m..n];
    ChargesConcat(all[..m], all[m..n]);
  }

  function Longest(all: seq<Record>, from: nat, maxRecords: nat, maxBytes: nat): (window: seq<Record>)
    requires from <= |all|
    requires Admissible(all[..from], maxRecords, maxBytes)
    ensures LongestAdmissiblePrefix(window, all, maxRecords, maxBytes)
    decreases |all| - from
  {
    if from < |all| && Admissible(all[..from + 1], maxRecords, maxBytes) then
      Longest(all, from + 1, maxRecords, maxBytes)
    else
      assert forall n :: from < n <= |all| && Admissible(all[..n], maxRecords, maxBytes) ==> false by {
        forall n | from < n <= |all| && Admissible(all[..n], maxRecords, maxBytes) ensures false {
          AdmissibleShrinks(all, from + 1, n, maxRecords, maxBytes);
        }
      }
      all[..from]
  }

  /** The longest admissible prefix is the only one. */
  lemma LongestUnique(a: seq<Record>, b: seq<Record>, all: seq<Record>, maxRecords: nat, maxBytes: nat)
    requires LongestAdmissiblePrefix(a, all, maxRecords, maxBytes)
    requires LongestAdmissiblePrefix(b, all, maxRecords, maxBytes)
    ensures a == b
  {
    assert a == all[..|a|] && b == all[..|b|];
  }

  function Fetch(log: LogState, offset: int, maxRecords: nat, maxBytes: nat, readCommitted: bool)
    : Result<FetchWindow, LogError>
  {
    if offset < StartOffset(log) || offset > log.nextOffset then Err(OffsetOutOfRange)
    else Ok(FetchWindow(log.nextOffset, LastStableOffset(log),
                        Longest(Visible(log, offset, readCommitted), 0, maxRecords, maxBytes)))
  }

  // ---------------------------------------------------------------- facts about the reference

  lemma {:induction false} AtOrAboveConcat(left: seq<Record>, right: seq<Record>, offset: int)
    ensures AtOrAbove(left + right, offset) == AtOrAbove(left, offset) + AtOrAbove(right, offset)
  {
    if left == [] {
      assert left + right == right;
    } else {
      AtOrAboveConcat(left[1..], right, offset);
      var head := KeepIfReached(left[0], offset);
      calc {
        AtOrAbove(left + right, offset);
        { assert (left + right)[1..] == left[1..] + right; }
        head + AtOrAbove(left[1..] + right, offset);
        head + (AtOrAbove(left[1..], offset) + AtOrAbove(right, offset));
        { ConcatAssociative(head, AtOrAbove(left[1..], offset), AtOrAbove(right, offset)); }
        (head + AtOrAbove(left[1..], offset)) + AtOrAbove(right, offset);
      }
    }
  }

  lemma {:induction false} FlatConcat(left: seq<Batch>, right: seq<Batch>, readCommitted: bool)
    ensures Flat(left + right, readCommitted) == Flat(left, readCommitted) + Flat(right, readCommitted)
  {
    if left == [] {
      assert left + right == right;
    } else {
      FlatConcat(left[1..], right, readCommitted);
      var head := ShownRecords(left[0], readCommitted);
      calc {
        Flat(left + right, readCommitted);
        { assert (left + right)[1..] == left[1..] + right; }
        head + Flat(left[1..] + right, readCommitted);
        head + (Flat(left[1..], readCommitted) + Flat(right, readCommitted));
        { ConcatAssociative(head, Flat(left[1..], readCommitted), Flat(right, readCommitted)); }
        (head + Flat(left[1..], readCommitted)) + Flat(right, readCommitted);
      }
    }
  }

  lemma {:induction false} NothingAtOrAbove(records: seq<Record>, offset: int)
    requires forall i :: 0 <= i < |records| ==> records[i].offset < offset
    ensures AtOrAbove(records, offset) == []
  {
    if records != [] {
      NothingAtOrAbove(records[1..], offset);
    }
  }

  lemma {:induction false} NothingVisible(batches: seq<Batch>, offset: int, readCommitted: bool)
    requires forall i :: 0 <= i < |batches| ==> BatchWellFormed(batches[i]) && batches[i].End() <= offset
    ensures AtOrAbove(Flat(batches, readCommitted), offset) == []
  {
    if batches != [] {
      NothingVisible(batches[1..], offset, readCommitted);
      NothingAtOrAbove(batches[0].records, offset);
      AtOrAboveConcat(ShownRecords(batches[0], readCommitted), Flat(batches[1..], readCommitted), offset);
    }
  }
}
