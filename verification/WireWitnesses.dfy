/** Inputs on which a promise about the wire fails. */
module WireWitnesses {
  import opened Records
  import opened Bits
  import opened Log
  import opened LogRuns
  import opened Varint
  import opened RecordBatch
  import opened RecordBatchRoundTrip
  import opened WireGuarantees
  import LogReaders

  // ---------------------------------------------------------------- what a fetch shows

  /** A fetch from the start with caps that admit everything shown shows all of it. */
  lemma ShowsAll(log: LogState, all: seq<Record>, maxRecords: nat, maxBytes: nat)
    requires Flat(log.batches, true) == all && Admissible(all, maxRecords, maxBytes)
    requires forall i :: 0 <= i < |all| ==> 0 <= all[i].offset
    requires StartOffset(log) == 0 <= log.nextOffset
    ensures var window := Log.Fetch(log, 0, maxRecords, maxBytes, true); window.Ok? && window.value.records == all
  {
    LogReaders.AllAtOrAbove(all, 0);
    assert all[..|all|] == all;
    LongestUnique(Longest(all, 0, maxRecords, maxBytes), all, all, maxRecords, maxBytes);
  }

  lemma TwoAppends(first: RecordData, second: RecordData)
    ensures var log := Run(EmptyLog(None), [Append([first]), Append([second])]);
            && Flat(log.batches, true) == Stamp([first, second], 0)
            && StartOffset(log) == 0 && log.nextOffset == 2
  {
    var one, two := Append([first]), Append([second]);
    var a, b := NewBatch([first], 0, None), NewBatch([second], 1, None);
    var held := Apply(EmptyLog(None), one);
    assert [] + [a] == [a] && held.batches == [a];
    var log := Apply(held, two);
    assert [a] + [b] == [a, b] && log.batches == [a, b];
    assert [one, two][1..] == [two] && [two][1..] == [];
    assert Run(held, [two]) == Run(log, []);
    assert [a, b][1..] == [b] && [b][1..] == [];
    assert Flat([b], true) == b.records + Flat([], true);
    assert Flat([a, b], true) == a.records + Flat([b], true);
    assert a.records + b.records == Stamp([first, second], 0);
  }

  /** Under the default caps, a megabyte and 1024 records, a fetch can show a window the encoder refuses: two records
      that were appended one by one and whose charges just fit under the byte cap. */
  lemma DefaultCapsRefused(first: RecordData, second: RecordData)
    requires var records := Stamp([first, second], 0); MAX_FRAME_LEN - 11 < Charges(records) <= MAX_FRAME_LEN
    ensures var log := Run(EmptyLog(None), [Append([first]), Append([second])]);
            var window := Log.Fetch(log, 0, MAX_RECORDS, MAX_FRAME_LEN, true);
            && window.Ok? && window.value.records == Stamp([first, second], 0)
            && Encode(0, window.value.records) == Err(TooLarge)
  {
    var records := Stamp([first, second], 0);
    TwoAppends(first, second);
    ShowsAll(Run(EmptyLog(None), [Append([first]), Append([second])]), records, MAX_RECORDS, MAX_FRAME_LEN);
    EncodesIff(0, records);
    RecordsAtLeast(records, 0, records[0].timestamp);
  }

  // ---------------------------------------------------------------- gaps

  lemma PendingBetween(a: seq<RecordData>, b: seq<RecordData>, c: seq<RecordData>, id: int)
    requires Rejection(a).None? && Rejection(b).None? && Rejection(c).None?
    ensures var log := Run(EmptyLog(None), [Append(a), AppendTransactional(b, id), Append(c)]);
            && Flat(log.batches, true) == Stamp(a, 0) + Stamp(c, |a| + |b|)
            && StartOffset(log) == 0 && log.nextOffset == |a| + |b| + |c|
  {
    var one, two, three := Append(a), AppendTransactional(b, id), Append(c);
    var x, y, z := NewBatch(a, 0, None), NewBatch(b, |a|, Some(id)), NewBatch(c, |a| + |b|, None);
    var first := Apply(EmptyLog(None), one);
    assert [] + [x] == [x] && first.batches == [x];
    var second := Apply(first, two);
    assert [x] + [y] == [x, y] && second.batches == [x, y];
    var log := Apply(second, three);
    assert [x, y] + [z] == [x, y, z] && log.batches == [x, y, z];
    assert [one, two, three][1..] == [two, three] && [two, three][1..] == [three] && [three][1..] == [];
    assert Run(second, [three]) == Run(log, []);
    assert [x, y, z][1..] == [y, z] && [y, z][1..] == [z] && [z][1..] == [];
    assert Flat([z], true) == z.records + Flat([], true);
    assert Flat([y, z], true) == [] + Flat([z], true);
    assert Flat([x, y, z], true) == x.records + Flat([y, z], true);
  }

  /** The last offset delta of an encoded batch, added to the base, points below the last record. */
  predicate MisplacesLast(bytes: Bytes, base: int, records: seq<Record>)
    requires records != []
  {
    |bytes| >= 61 && base + FieldI32(bytes[21..][2..6]) < records[|records| - 1].offset
  }

  lemma GapMisplaces(records: seq<Record>)
    requires 0 < |records| <= MAX_RECORDS && Charges(records) + 61 <= MAX_FRAME_LEN
    requires records[|records| - 1].offset > |records| - 1
    ensures Encode(0, records).Ok? && MisplacesLast(Encode(0, records).value, 0, records)
  {
    ChargedRecordsEncode(0, records);
    HeaderOnWire(0, records);
  }

  /** A read-committed fetch leaves a gap where a transactional batch is not visible, and the last offset delta that is
      written for the window then points below its last record. */
  lemma GapMisplacesLastOffset(a: seq<RecordData>, b: seq<RecordData>, c: seq<RecordData>, id: int)
    requires Rejection(a).None? && Rejection(b).None? && Rejection(c).None? && |a| + |c| <= MAX_RECORDS
    requires Charges(Stamp(a, 0) + Stamp(c, |a| + |b|)) + 61 <= MAX_FRAME_LEN
    ensures var log := Run(EmptyLog(None), [Append(a), AppendTransactional(b, id), Append(c)]);
            var window, shown := Log.Fetch(log, 0, MAX_RECORDS, MAX_FRAME_LEN, true), Stamp(a, 0) + Stamp(c, |a| + |b|);
            && window.Ok? && window.value.records == shown
            && Encode(0, shown).Ok? && MisplacesLast(Encode(0, shown).value, 0, shown)
  {
    var log := Run(EmptyLog(None), [Append(a), AppendTransactional(b, id), Append(c)]);
    var all := Stamp(a, 0) + Stamp(c, |a| + |b|);
    PendingBetween(a, b, c, id);
    ShowsAll(log, all, MAX_RECORDS, MAX_FRAME_LEN);
    GapMisplaces(all);
  }

  // ---------------------------------------------------------------- saturated and truncated differences

  const FIRST_INSTANT: Timestamp := -0x8000_0000_0000_0000
  const LAST_INSTANT: Timestamp := 0x7fff_ffff_ffff_ffff

  /** Two records at the ends of the range of timestamps can be put on the wire, and the second one comes back at the
      wrong time. */
  lemma FarTimestampIsLost(base: int, first: Record, second: Record, legacy: Bytes -> Result<Decoded, WireError>)
    requires first.timestamp == FIRST_INSTANT && second.timestamp == LAST_INSTANT
    requires Charge(first) + Charge(second) + 61 <= MAX_FRAME_LEN
    ensures var bytes := Encode(base, [first, second]);
            && bytes.Ok?
            && Decode(bytes.value, legacy)
               == Ok(Decoded([first.Data(), second.Data().(timestamp := -1)], None))
  {
    ChargesOfTwo(first, second);
    ChargedRecordsEncode(base, [first, second]);
    RoundTripIff(base, [first, second], legacy);
    RestoredFar(first, second);
  }

  lemma ChargesOfTwo(first: Record, second: Record)
    ensures Charges([first, second]) == Charge(first) + Charge(second)
  {
    assert [first] + [second] == [first, second];
    ChargesConcat([first], [second]);
  }

  lemma RestoredFar(first: Record, second: Record)
    requires first.timestamp == FIRST_INSTANT && second.timestamp == LAST_INSTANT
    ensures RestoredAll([first, second], first.timestamp) == [first.Data(), second.Data().(timestamp := -1)]
  {
    var all := RestoredAll([first, second], first.timestamp);
    assert all[0] == Restored(first, first.timestamp) == first.Data();
    assert all[1] == Restored(second, first.timestamp) == second.Data().(timestamp := -1);
    assert all == [all[0], all[1]];
  }

  /** A record too far above the base is read back 2^32 below its offset. */
  lemma FarOffsetWraps(record: Record, base: int, first: Timestamp, rest: Bytes)
    requires |RecordBody(record, base, first)| <= I32_MAX
    requires 0x8000_0000 <= record.offset - base < 0x1_8000_0000
    ensures ReadOffset(RecordBytes(record, base, first) + rest, base) == Parsed(record.offset - 0x1_0000_0000, rest)
  {
    OffsetOnWire(record, base, first, rest);
    WrapsOnce(record.offset - base);
  }

  lemma WrapsOnce(distance: int)
    requires 0x8000_0000 <= distance < 0x1_8000_0000
    ensures AsI32(distance) == distance - 0x1_0000_0000
  {
  }
}
