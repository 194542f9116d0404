/** What an encoded batch promises: its size, its header, its offsets, and that damage to it is noticed. */
module WireGuarantees {
  import opened Records
  import opened Bits
  import opened Varint
  import opened RecordBatch
  import opened RecordBatchRoundTrip
  import Crc
  import Log

  // ---------------------------------------------------------------- size

  lemma FieldSize(field: Option<Bytes>)
    ensures |FieldBytes(field)| <= 5 + FieldLength(field)
  {
    match field
    case Some(bytes) => VarintLengths(AsI32(|bytes|));
    case None => VarintLengths(-1);
  }

  lemma ZeroIsOneByte()
    ensures PutVarint(0) == [0]
  {
  }

  /** The charge the log keeps for a record covers what the record takes on the wire. */
  lemma ChargeCoversRecord(record: Record, base: int, first: Timestamp)
    ensures |RecordBytes(record, base, first)| <= Charge(record)
  {
    VarintLengths(SaturateI64(record.timestamp - first));
    VarintLengths(AsI32(record.offset - base));
    FieldSize(record.key);
    FieldSize(record.value);
    ZeroIsOneByte();
    VarintLengths(AsI32(|RecordBody(record, base, first)|));
  }

  lemma {:induction false} ChargesCoverRecords(records: seq<Record>, base: int, first: Timestamp)
    ensures |RecordsBytes(records, base, first)| <= Charges(records)
  {
    if records != [] {
      ChargeCoversRecord(records[|records| - 1], base, first);
      ChargesCoverRecords(records[..|records| - 1], base, first);
    }
  }

  lemma {:induction false} ChargesCoverEach(records: seq<Record>, i: nat)
    requires i < |records|
    ensures Charge(records[i]) <= Charges(records)
  {
    if i < |records| - 1 {
      ChargesCoverEach(records[..|records| - 1], i);
    }
  }

  /** One to 1024 records whose charges leave room for the 61 fixed bytes are never refused. */
  lemma ChargedRecordsEncode(base: int, records: seq<Record>)
    requires 0 < |records| <= MAX_RECORDS
    requires Charges(records) + 61 <= MAX_FRAME_LEN
    ensures Encode(base, records).Ok?
    ensures |Encode(base, records).value| <= 61 + Charges(records)
  {
    forall i | 0 <= i < |records| ensures FieldsFit(records[i]) {
      ChargesCoverEach(records, i);
    }
    ChargesCoverRecords(records, base, records[0].timestamp);
    EncodedSizes(base, records);
  }

  // ---------------------------------------------------------------- header

  lemma {:induction false} MaxTimestampIsMax(records: seq<Record>)
    requires records != []
    ensures forall i :: 0 <= i < |records| ==> records[i].timestamp <= MaxTimestamp(records)
    ensures exists i :: 0 <= i < |records| && records[i].timestamp == MaxTimestamp(records)
  {
    var n := |records| - 1;
    if n > 0 {
      MaxTimestampIsMax(records[..n]);
      assert forall i :: 0 <= i < n ==> records[i] == records[..n][i];
      assert records[n].timestamp <= MaxTimestamp(records);
    }
  }

  /** The fixed fields of a batch describe these records: base offset, length, attributes, last offset delta, first and
      largest timestamp, no producer id, epoch or sequence, count, and the records behind them. */
  predicate Describes(s: Bytes, base: int, records: seq<Record>)
    requires |s| >= 61 && records != []
  {
    && FieldI64(s[0..8]) == base
    && FieldI32(s[8..12]) == |s| - 12
    && FieldI32(s[12..16]) == -1
    && s[16] == 2
    && FieldI16(s[21..][0..2]) == 0
    && FieldI32(s[21..][2..6]) == |records| - 1
    && FieldI64(s[21..][6..14]) == records[0].timestamp
    && FieldI64(s[21..][14..22]) == MaxTimestamp(records)
    && FieldI64(s[21..][22..30]) == -1
    && FieldI16(s[21..][30..32]) == -1
    && FieldI32(s[21..][32..36]) == -1
    && FieldI32(s[21..][36..40]) == |records|
    && s[21..][40..] == RecordsBytes(records, base, records[0].timestamp)
  }

  lemma HeaderOnWire(base: Timestamp, records: seq<Record>)
    requires 0 < |records| <= MAX_RECORDS && |BatchBytes(records, base)| <= MAX_FRAME_LEN
    ensures |BatchBytes(records, base)| >= 61 && Describes(BatchBytes(records, base), base, records)
  {
    var covered := Covered(records, base);
    var body, first := BatchBody(covered), records[0].timestamp;
    CoveredFields(BigEndian(0, 2), BigEndian(|records| - 1, 4), BigEndian(first, 8),
                  BigEndian(MaxTimestamp(records), 8),
                  BigEndian(-1, 8), BigEndian(-1, 2), BigEndian(-1, 4), BigEndian(|records|, 4),
                  RecordsBytes(records, base, first));
    EncodedSizes(base, records);
    FrameFields(BigEndian(base, 8), BigEndian(|body|, 4), body);
    BodyFields(covered);
    ConstantFields();
    FieldI64RoundTrip(base);
    FieldI32RoundTrip(|body|);
    FieldI32RoundTrip(|records| - 1);
    FieldI64RoundTrip(first);
    FieldI64RoundTrip(MaxTimestamp(records));
    FieldI32RoundTrip(|records|);
  }

  lemma FrameFields(a: Bytes, b: Bytes, body: Bytes)
    requires |a| == 8 && |b| == 4 && |body| >= 9
    ensures var s := a + b + body;
            && s[0..8] == a && s[8..12] == b && s[12..16] == body[0..4] && s[16] == body[4] && s[21..] == body[9..]
  {
  }

  lemma ConstantFields()
    ensures FieldI16(BigEndian(0, 2)) == 0 && FieldI16(BigEndian(-1, 2)) == -1
    ensures FieldI32(BigEndian(-1, 4)) == -1 && FieldI64(BigEndian(-1, 8)) == -1
  {
    FieldI16RoundTrip(0);
    FieldI16RoundTrip(-1);
    FieldI32RoundTrip(-1);
    FieldI64RoundTrip(-1);
  }

  // ---------------------------------------------------------------- offsets as a consumer rebuilds them

  /** The offset delta inside a record body. */
  function DeltaOf(body: Bytes): Result<int, WireError> {
    match Take(body, 1)
    case Failed(error) => Err(error)
    case Parsed(_, s0) =>
      match ReadVarlong(s0)
      case Failed(error) => Err(error)
      case Parsed(_, s1) =>
        match ReadVarint(s1)
        case Failed(error) => Err(error)
        case Parsed(delta, _) => Ok(delta)
  }

  /** The offset of the next record of a batch at `base`. */
  function ReadOffset(s: Bytes, base: int): Parsed<int> {
    match ReadVarint(s)
    case Failed(error) => Failed(error)
    case Parsed(length, rest) =>
      if length < 0 then Failed(Invalid)
      else
        match Take(rest, length)
        case Failed(error) => Failed(error)
        case Parsed(body, after) =>
          match DeltaOf(body)
          case Err(error) => Failed(error)
          case Ok(delta) => Parsed(base + delta, after)
  }

  predicate NearBase(offset: int, base: int) {
    -0x8000_0000 <= offset - base < 0x8000_0000
  }

  lemma NearBaseIff(offset: int, base: int)
    ensures base + AsI32(offset - base) == offset <==> NearBase(offset, base)
  {
    AsI32Range(offset - base);
    CastKeepsValue(offset - base);
  }

  lemma DeltaOnWire(record: Record, base: int, first: Timestamp)
    ensures DeltaOf(RecordBody(record, base, first)) == Ok(AsI32(record.offset - base))
  {
    var s2 := FieldBytes(record.key) + (FieldBytes(record.value) + PutVarint(0));
    var s1 := PutVarint(AsI32(record.offset - base)) + s2;
    var s0 := PutVarlong(SaturateI64(record.timestamp - first)) + s1;
    BodyInParts(record, base, first);
    TakeAll([0], s0);
    VarlongRoundTrip(SaturateI64(record.timestamp - first), s1);
    AsI32Range(record.offset - base);
    VarintRoundTrip(AsI32(record.offset - base), s2);
  }

  lemma OffsetOnWire(record: Record, base: int, first: Timestamp, rest: Bytes)
    requires |RecordBody(record, base, first)| <= I32_MAX
    ensures ReadOffset(RecordBytes(record, base, first) + rest, base)
            == Parsed(base + AsI32(record.offset - base), rest)
  {
    var body := RecordBody(record, base, first);
    CastKeepsValue(|body|);
    ConcatAssociative(PutVarint(|body|), body, rest);
    VarintRoundTrip(|body|, body + rest);
    TakeAll(body, rest);
    DeltaOnWire(record, base, first);
  }

  /** A consumer that adds the delta of a record to the base offset gets the stored offset, and stops where the next
      record starts, exactly when the distance from the base fits in an i32. */
  lemma {:induction false} OffsetRebuiltIff(record: Record, base: int, first: Timestamp, rest: Bytes)
    requires |RecordBody(record, base, first)| <= I32_MAX
    ensures ReadOffset(RecordBytes(record, base, first) + rest, base) == Parsed(record.offset, rest)
            <==> NearBase(record.offset, base)
  {
    OffsetOnWire(record, base, first, rest);
    NearBaseIff(record.offset, base);
  }

  lemma {:induction false} OffsetsSpread(records: seq<Record>, i: nat, j: nat)
    requires forall k, l :: 0 <= k < l < |records| ==> records[k].offset < records[l].offset
    requires i <= j < |records|
    ensures records[j].offset - records[i].offset >= j - i
    decreases j - i
  {
    if i < j {
      OffsetsSpread(records, i, j - 1);
    }
  }

  /** The last offset delta in the header, the count less one, points at the last record exactly when the window has
      no gaps. */
  lemma LastDeltaIff(records: seq<Record>)
    requires records != []
    requires forall k, l :: 0 <= k < l < |records| ==> records[k].offset < records[l].offset
    ensures records[0].offset + (|records| - 1) == records[|records| - 1].offset
            <==> forall i :: 0 <= i < |records| ==> records[i].offset == records[0].offset + i
  {
    forall i | 0 <= i < |records|
      ensures records[i].offset >= records[0].offset + i
      ensures records[|records| - 1].offset - records[i].offset >= |records| - 1 - i
    {
      OffsetsSpread(records, 0, i);
      OffsetsSpread(records, i, |records| - 1);
    }
  }

  // ---------------------------------------------------------------- damage

  /** Equal-length strings that differ, and only inside positions `from` to `to`. */
  predicate DamagedWithin(damaged: Bytes, bytes: Bytes, from: nat, to: nat) {
    && from <= to <= |bytes| == |damaged| && damaged != bytes
    && damaged[..from] == bytes[..from] && damaged[to..] == bytes[to..]
  }

  lemma {:induction false} UnsignedInjective(s: Bytes, t: Bytes)
    requires |s| == |t| && Unsigned(s) == Unsigned(t)
    ensures s == t
  {
    if s != [] {
      var n := |s| - 1;
      UnsignedInjective(s[..n], t[..n]);
      assert s == s[..n] + [s[n]] && t == t[..n] + [t[n]];
    }
  }

  lemma BurstChangesChecksum(damaged: Bytes, bytes: Bytes, from: nat, to: nat)
    requires DamagedWithin(damaged, bytes, from, to) && to - from <= 4
    ensures Crc.Checksum(damaged, Crc.Castagnoli()) != Crc.Checksum(bytes, Crc.Castagnoli())
  {
    var prefix, x, y, suffix := bytes[..from], damaged[from..to], bytes[from..to], bytes[to..];
    assert damaged == prefix + x + suffix && bytes == prefix + y + suffix;
    Crc.PolynomialsAreProper();
    Crc.BurstDetected(prefix, x, y, suffix, Crc.Castagnoli());
  }

  /** The magic is right and the stored checksum is that of what it covers. */
  predicate Sealed(batch: Bytes)
    requires |batch| >= 9
  {
    batch[4] == 2 && Crc.Checksum(batch[9..], Crc.Castagnoli()) == Unsigned(batch[5..9])
  }

  lemma {:induction false} AcceptedIsSealed(batch: Bytes, identity: Identity)
    requires |batch| >= 49
    ensures DecodeBatch(batch, identity).Ok? ==> Sealed(batch)
    ensures batch[4] == 2 && !Sealed(batch) ==> DecodeBatch(batch, identity) == Err(Checksum)
  {
  }

  lemma {:induction false} DamageBreaksSeal(damaged: Bytes, batch: Bytes, from: nat, to: nat)
    requires |batch| >= 9 && Sealed(batch) && DamagedWithin(damaged, batch, from, to)
    requires (5 <= from && to <= 9) || (9 <= from && to - from <= 4)
    ensures damaged[4] == 2 && !Sealed(damaged)
  {
    assert damaged[4] == damaged[..from][4] == batch[..from][4] == batch[4];
    if to <= 9 {
      FieldDamaged(damaged, batch, from, to);
    } else {
      CoveredDamaged(damaged, batch, from, to);
      BurstChangesChecksum(damaged[9..], batch[9..], from - 9, to - 9);
    }
  }

  /** In a batch the decoder would accept, a change inside the checksum field, or inside any four consecutive bytes
      of what the checksum covers, is answered with a checksum error. */
  lemma {:induction false} DamagedBatchRefused(damaged: Bytes, batch: Bytes, identity: Identity, other: Identity,
                                               from: nat, to: nat)
    requires |batch| >= 49 && DecodeBatch(batch, identity).Ok?
    requires DamagedWithin(damaged, batch, from, to)
    requires (5 <= from && to <= 9) || (9 <= from && to - from <= 4)
    ensures DecodeBatch(damaged, other) == Err(Checksum)
  {
    AcceptedIsSealed(batch, identity);
    DamageBreaksSeal(damaged, batch, from, to);
    AcceptedIsSealed(damaged, other);
  }

  lemma FieldDamaged(damaged: Bytes, batch: Bytes, from: nat, to: nat)
    requires DamagedWithin(damaged, batch, from, to) && 5 <= from && to <= 9 <= |batch|
    ensures damaged[9..] == batch[9..] && Unsigned(damaged[5..9]) != Unsigned(batch[5..9])
  {
    assert damaged[9..] == damaged[to..][9 - to..] && batch[9..] == batch[to..][9 - to..];
    assert damaged[..5] == damaged[..from][..5] && batch[..5] == batch[..from][..5];
    assert damaged == damaged[..5] + damaged[5..9] + damaged[9..];
    assert batch == batch[..5] + batch[5..9] + batch[9..];
    if Unsigned(damaged[5..9]) == Unsigned(batch[5..9]) {
      UnsignedInjective(damaged[5..9], batch[5..9]);
    }
  }

  /** Damage at or behind position `n` leaves what is before it alone. */
  lemma TailDamaged(damaged: Bytes, bytes: Bytes, n: nat, from: nat, to: nat)
    requires DamagedWithin(damaged, bytes, from, to) && n <= from
    ensures damaged[..n] == bytes[..n] && DamagedWithin(damaged[n..], bytes[n..], from - n, to - n)
  {
    assert damaged[..n] == damaged[..from][..n] && bytes[..n] == bytes[..from][..n];
    assert damaged[n..][..from - n] == damaged[..from][n..] && bytes[n..][..from - n] == bytes[..from][n..];
    assert damaged[n..][to - n..] == damaged[to..] && bytes[n..][to - n..] == bytes[to..];
    assert damaged == damaged[..n] + damaged[n..] && bytes == bytes[..n] + bytes[n..];
  }

  lemma CoveredDamaged(damaged: Bytes, batch: Bytes, from: nat, to: nat)
    requires DamagedWithin(damaged, batch, from, to) && 9 <= from
    ensures damaged[5..9] == batch[5..9]
    ensures DamagedWithin(damaged[9..], batch[9..], from - 9, to - 9)
  {
    TailDamaged(damaged, batch, 9, from, to);
    assert damaged[5..9] == damaged[..9][5..] && batch[5..9] == batch[..9][5..];
  }

  /** The same inside a record set: whatever decodable batches come before and whatever follows. */
  lemma DamagedSetRefused(before: Bytes, base: int, batch: Bytes, damaged: Bytes, after: Bytes, from: nat, to: nat,
                          identity: Identity)
    requires 49 <= |batch| <= I32_MAX && DecodeBatch(batch, identity).Ok?
    requires DamagedWithin(damaged, batch, from, to)
    requires (5 <= from && to <= 9) || (9 <= from && to - from <= 4)
    requires DecodeFrom(before, [], None).Ok?
    ensures DecodeFrom(before + (Framed(base, damaged) + after), [], None) == Err(Checksum)
  {
    var d := DecodeFrom(before, [], None).value;
    SetsConcatenate(before, Framed(base, damaged) + after, [], None);
    DamagedBatchRefused(damaged, batch, identity, d.producer, from, to);
    FramedDecodes(base, damaged, after, d.records, d.producer);
  }

  lemma EncodedBodyDecodes(base: int, records: seq<Record>)
    requires Encode(base, records).Ok?
    ensures var body := BatchBody(Covered(records, base));
            49 <= |body| <= I32_MAX && DecodeBatch(body, None).Ok? && Encode(base, records).value == Framed(base, body)
  {
    var covered := Covered(records, base);
    EncodedSizes(base, records);
    CoveredRoundTrip(records, base, None);
    BodyFields(covered);
    ChecksumField(covered);
  }

  lemma BodyDamaged(damaged: Bytes, head: Bytes, body: Bytes, from: nat, to: nat)
    requires DamagedWithin(damaged, head + body, from, to) && |head| <= from
    ensures damaged == head + damaged[|head|..]
    ensures DamagedWithin(damaged[|head|..], body, from - |head|, to - |head|)
  {
    TailDamaged(damaged, head + body, |head|, from, to);
    assert (head + body)[..|head|] == head && (head + body)[|head|..] == body;
    assert damaged == damaged[..|head|] + damaged[|head|..];
  }

  /** Damage behind the length of a frame is damage to its body. */
  lemma FrameDamaged(damaged: Bytes, base: int, body: Bytes, from: nat, to: nat)
    requires DamagedWithin(damaged, Framed(base, body), from, to) && 12 <= from
    ensures damaged == Framed(base, damaged[12..]) && DamagedWithin(damaged[12..], body, from - 12, to - 12)
  {
    var head := BigEndian(base, 8) + BigEndian(|body|, 4);
    BodyDamaged(damaged, head, body, from, to);
  }

  lemma DamagedFrameRefused(base: int, body: Bytes, damaged: Bytes, from: nat, to: nat)
    requires 49 <= |body| <= I32_MAX && DecodeBatch(body, None).Ok? && DamagedWithin(damaged, body, from, to)
    requires (5 <= from && to <= 9) || (9 <= from && to - from <= 4)
    ensures DecodeFrom(Framed(base, damaged), [], None) == Err(Checksum)
  {
    DamagedSetRefused([], base, body, damaged, [], from, to, None);
    var frame := Framed(base, damaged);
    assert [] + (frame + []) == frame;
  }

  lemma {:induction false} DamagedBytesRefused(base: int, body: Bytes, damaged: Bytes, from: nat, to: nat,
                                               legacy: Bytes -> Result<Decoded, WireError>)
    requires 49 <= |body| <= I32_MAX && DecodeBatch(body, None).Ok?
    requires DamagedWithin(damaged, Framed(base, body), from, to)
    requires (17 <= from && to <= 21) || (21 <= from && to - from <= 4)
    ensures Decode(damaged, legacy) == Err(Checksum)
  {
    FrameDamaged(damaged, base, body, from, to);
    DamagedFrameRefused(base, body, damaged[12..], from - 12, to - 12);
    AcceptedIsSealed(body, None);
    DamageBreaksSeal(damaged[12..], body, from - 12, to - 12);
    assert damaged[16] == damaged[12..][4];
    DecodeByMagic(damaged, legacy);
  }

  /** Of what the encoder writes, a change inside the checksum, or inside any four consecutive bytes behind it, makes
      the decoder answer with a checksum error. */
  lemma {:induction false} DamagedEncodingRefused(base: int, records: seq<Record>, damaged: Bytes, from: nat, to: nat,
                                                  legacy: Bytes -> Result<Decoded, WireError>)
    requires Encode(base, records).Ok? && DamagedWithin(damaged, Encode(base, records).value, from, to)
    requires (17 <= from && to <= 21) || (21 <= from && to - from <= 4)
    ensures Decode(damaged, legacy) == Err(Checksum)
  {
    EncodedBodyDecodes(base, records);
    DamagedBytesRefused(base, BatchBody(Covered(records, base)), damaged, from, to, legacy);
  }

  /** So no byte from the checksum on can be changed unnoticed. */
  lemma {:induction false} ChangedByteRefused(base: int, records: seq<Record>, i: nat, byte: Byte,
                                              legacy: Bytes -> Result<Decoded, WireError>)
    requires Encode(base, records).Ok? && 17 <= i < |Encode(base, records).value|
    requires byte != Encode(base, records).value[i]
    ensures Decode(Encode(base, records).value[i := byte], legacy) == Err(Checksum)
  {
    var bytes := Encode(base, records).value;
    assert bytes[i := byte][i] != bytes[i];
    DamagedEncodingRefused(base, records, bytes[i := byte], i, i + 1, legacy);
  }

  // ---------------------------------------------------------------- from the log to the wire and back

  lemma FieldAtLeast(field: Option<Bytes>)
    ensures |FieldBytes(field)| >= 1 + FieldLength(field)
  {
    match field
    case Some(bytes) => VarintLengths(AsI32(|bytes|));
    case None => VarintLengths(-1);
  }

  /** Of the 32 bytes a record is charged for its overhead, at least seven are used. */
  lemma RecordAtLeast(record: Record, base: int, first: Timestamp)
    ensures |RecordBytes(record, base, first)| >= Charge(record) - 25
  {
    VarintLengths(SaturateI64(record.timestamp - first));
    VarintLengths(AsI32(record.offset - base));
    FieldAtLeast(record.key);
    FieldAtLeast(record.value);
    ZeroIsOneByte();
    VarintLengths(AsI32(|RecordBody(record, base, first)|));
  }

  lemma {:induction false} RecordsAtLeast(records: seq<Record>, base: int, first: Timestamp)
    ensures |RecordsBytes(records, base, first)| >= Charges(records) - 25 * |records|
  {
    if records != [] {
      RecordAtLeast(records[|records| - 1], base, first);
      RecordsAtLeast(records[..|records| - 1], base, first);
    }
  }

  lemma {:induction false} FieldsFitWithin(records: seq<Record>, base: int, first: Timestamp, i: nat)
    requires |RecordsBytes(records, base, first)| <= I32_MAX && i < |records|
    ensures FieldsFit(records[i])
  {
    var n := |records| - 1;
    if i < n {
      FieldsFitWithin(records[..n], base, first, i);
    } else {
      FieldAtLeast(records[n].key);
      FieldAtLeast(records[n].value);
      assert |RecordBytes(records[n], base, first)| <= |RecordsBytes(records, base, first)|;
    }
  }

  /** Records are refused exactly when there are none or too many of them, or when they do not fit in a frame together
      with the 61 fixed bytes. */
  lemma EncodesIff(base: int, records: seq<Record>)
    requires records != []
    ensures Encode(base, records).Ok? <==>
      |records| <= MAX_RECORDS && 61 + |RecordsBytes(records, base, records[0].timestamp)| <= MAX_FRAME_LEN
  {
    EncodedSizes(base, records);
    if 61 + |RecordsBytes(records, base, records[0].timestamp)| <= MAX_FRAME_LEN {
      forall i | 0 <= i < |records| ensures FieldsFit(records[i]) {
        FieldsFitWithin(records, base, records[0].timestamp, i);
      }
    }
  }

  /** A window travels exactly when its encoding fits in a frame. The log's charges bound that encoding from both sides.
      What comes back is the window exactly when no timestamp difference saturates. */
  ghost predicate Travels(window: seq<Record>, legacy: Bytes -> Result<Decoded, WireError>)
    requires window != []
  {
    var bytes, payload := Encode(window[0].offset, window),
      |RecordsBytes(window, window[0].offset, window[0].timestamp)|;
    && (bytes.Ok? <==> |window| <= MAX_RECORDS && 61 + payload <= MAX_FRAME_LEN)
    && Charges(window) - 25 * |window| <= payload <= Charges(window)
    && (bytes.Ok? ==> (Decode(bytes.value, legacy) == Ok(Decoded(DataOf(window), None)) <==> SpreadFits(window)))
  }

  lemma WindowTravels(window: seq<Record>, legacy: Bytes -> Result<Decoded, WireError>)
    requires window != []
    ensures Travels(window, legacy)
  {
    var base := window[0].offset;
    EncodesIff(base, window);
    RecordsAtLeast(window, base, window[0].timestamp);
    ChargesCoverRecords(window, base, window[0].timestamp);
    if Encode(base, window).Ok? {
      RoundTripIff(base, window, legacy);
    }
  }

  /** What a fetch shows travels like any window, and is never refused when the caps of the fetch and its first record
      leave room for the 61 fixed bytes. */
  lemma FetchedWindowTravels(log: Log.LogState, offset: int, maxRecords: nat, maxBytes: nat, readCommitted: bool,
                             legacy: Bytes -> Result<Decoded, WireError>)
    requires Log.Fetch(log, offset, maxRecords, maxBytes, readCommitted).Ok?
    requires Log.Fetch(log, offset, maxRecords, maxBytes, readCommitted).value.records != []
    ensures var window := Log.Fetch(log, offset, maxRecords, maxBytes, readCommitted).value.records;
            && window <= Log.Visible(log, offset, readCommitted)
            && Travels(window, legacy)
            && (maxRecords <= MAX_RECORDS && maxBytes + 61 <= MAX_FRAME_LEN && Charge(window[0]) + 61 <= MAX_FRAME_LEN
                ==> Encode(window[0].offset, window).Ok?)
  {
    var window := Log.Fetch(log, offset, maxRecords, maxBytes, readCommitted).value.records;
    assert Log.Admissible(window, maxRecords, maxBytes);
    WindowTravels(window, legacy);
    if maxRecords <= MAX_RECORDS && maxBytes + 61 <= MAX_FRAME_LEN && Charge(window[0]) + 61 <= MAX_FRAME_LEN {
      CapsSuffice(window, maxRecords, maxBytes);
    }
  }

  lemma CapsSuffice(window: seq<Record>, maxRecords: nat, maxBytes: nat)
    requires window != [] && Log.Admissible(window, maxRecords, maxBytes)
    requires maxRecords <= MAX_RECORDS && maxBytes + 61 <= MAX_FRAME_LEN && Charge(window[0]) + 61 <= MAX_FRAME_LEN
    ensures Encode(window[0].offset, window).Ok?
  {
    assert |window| == 1 ==> Charges(window) == Charge(window[0]);
    ChargedRecordsEncode(window[0].offset, window);
  }
}
