/** The cursor over received bytes, and the record batch reader and writer built on it, loop by loop. */
module RecordBatchCodec {
  import opened Records
  import opened Bits
  import opened Varint
  import opened RecordBatch
  import opened Repeat
  import Crc

  /** A cursor over a byte string. */
  class Decoder {
    const bytes: Bytes
    var offset: nat

    constructor (input: Bytes)
      ensures Valid() && bytes == input && offset == 0 && Rest() == input
    {
      bytes := input;
      offset := 0;
    }

    ghost predicate Valid()
      reads this
    {
      offset <= |bytes|
    }

    ghost function Rest(): Bytes
      requires Valid()
      reads this
    {
      bytes[offset..]
    }

    /** The outcome of a read is this parse, and the cursor stands where the parse stopped. */
    ghost predicate Reads<T>(parsed: Parsed<T>, outcome: Result<T, WireError>)
      reads this
    {
      && Valid()
      && (parsed.Failed? ==> outcome == Err(parsed.error))
      && (parsed.Parsed? ==> outcome == Ok(parsed.value) && Rest() == parsed.rest)
    }

    method Take(n: nat) returns (outcome: Result<Bytes, WireError>)
      requires Valid()
      modifies this
      ensures Reads(RecordBatch.Take(old(Rest()), n), outcome)
      ensures outcome.Ok? ==> offset == old(offset) + n && outcome.value == bytes[old(offset)..offset]
      ensures outcome.Ok? <==> old(offset) + n <= |bytes|
    {
      var end := offset + n;
      if end > |bytes| {
        return Err(Incomplete);
      }
      assert Rest()[..n] == bytes[offset..end] && Rest()[n..] == bytes[end..];
      outcome := Ok(bytes[offset..end]);
      offset := end;
    }

    method I16() returns (outcome: Result<int, WireError>)
      requires Valid()
      modifies this
      ensures Valid() && if old(offset) + 2 <= |bytes| then outcome.Ok? else outcome == Err(Incomplete)
      ensures outcome.Ok? ==> offset == old(offset) + 2 && outcome.value == FieldI16(bytes[old(offset)..offset])
    {
      var field := Take(2);
      outcome := if field.Ok? then Ok(FieldI16(field.value)) else Err(field.error);
    }

    method I32() returns (outcome: Result<int, WireError>)
      requires Valid()
      modifies this
      ensures Valid() && if old(offset) + 4 <= |bytes| then outcome.Ok? else outcome == Err(Incomplete)
      ensures outcome.Ok? ==> offset == old(offset) + 4 && outcome.value == FieldI32(bytes[old(offset)..offset])
    {
      var field := Take(4);
      outcome := if field.Ok? then Ok(FieldI32(field.value)) else Err(field.error);
    }

    method I64() returns (outcome: Result<Timestamp, WireError>)
      requires Valid()
      modifies this
      ensures Valid() && if old(offset) + 8 <= |bytes| then outcome.Ok? else outcome == Err(Incomplete)
      ensures outcome.Ok? ==> offset == old(offset) + 8 && outcome.value == FieldI64(bytes[old(offset)..offset])
    {
      var field := Take(8);
      outcome := if field.Ok? then Ok(FieldI64(field.value)) else Err(field.error);
    }

    predicate Done()
      reads this
    {
      offset == |bytes|
    }
  }

  // ---------------------------------------------------------------- varints

  method DecodeUvarint(decoder: Decoder, max: nat) returns (outcome: Result<nat, WireError>)
    requires decoder.Valid()
    modifies decoder
    ensures decoder.Reads(ReadUvarint(old(decoder.Rest()), max), outcome)
  {
    var value: nat, k := 0, 0;
    while k < max
      invariant decoder.Valid() && k <= max
      invariant ReadUvarintFrom(decoder.Rest(), value, k, max) == ReadUvarint(old(decoder.Rest()), max)
    {
      ghost var rest := decoder.Rest();
      var byte := decoder.Take(1);
      if byte.Err? {
        return Err(byte.error);
      }
      assert decoder.Rest() == rest[1..] && byte.value[0] == rest[0];
      value := value + ShiftLeft(byte.value[0] % 0x80, k) % U64;
      if byte.value[0] < 0x80 {
        return Ok(value);
      }
      k := k + 1;
    }
    outcome := Err(Invalid);
  }

  method DecodeVarint(decoder: Decoder) returns (outcome: Result<int, WireError>)
    requires decoder.Valid()
    modifies decoder
    ensures decoder.Reads(ReadVarint(old(decoder.Rest())), outcome)
  {
    var raw := DecodeUvarint(decoder, 5);
    outcome := if raw.Ok? then Ok(UnZigZag(raw.value % U32)) else Err(raw.error);
  }

  method DecodeVarlong(decoder: Decoder) returns (outcome: Result<int, WireError>)
    requires decoder.Valid()
    modifies decoder
    ensures decoder.Reads(ReadVarlong(old(decoder.Rest())), outcome)
  {
    var raw := DecodeUvarint(decoder, 10);
    outcome := if raw.Ok? then Ok(UnZigZag(raw.value)) else Err(raw.error);
  }

  // ---------------------------------------------------------------- one record

  method DecodeField(decoder: Decoder) returns (outcome: Result<Option<Bytes>, WireError>)
    requires decoder.Valid()
    modifies decoder
    ensures decoder.Reads(ReadSizedField(old(decoder.Rest())), outcome)
  {
    var length := DecodeVarint(decoder);
    if length.Err? {
      return Err(length.error);
    }
    if length.value == -1 {
      return Ok(None);
    }
    if length.value < 0 {
      return Err(Invalid);
    }
    var field := decoder.Take(length.value);
    outcome := if field.Ok? then Ok(Some(field.value)) else Err(field.error);
  }

  method DecodeHeader(decoder: Decoder) returns (outcome: Result<(), WireError>)
    requires decoder.Valid()
    modifies decoder
    ensures decoder.Reads(SkipHeader(old(decoder.Rest())), outcome)
  {
    var keyLength := DecodeVarint(decoder);
    if keyLength.Err? {
      return Err(keyLength.error);
    }
    if keyLength.value < 0 {
      return Err(Invalid);
    }
    var key := decoder.Take(keyLength.value);
    if key.Err? {
      return Err(key.error);
    }
    var valueLength := DecodeVarint(decoder);
    if valueLength.Err? {
      return Err(valueLength.error);
    }
    if valueLength.value >= 0 {
      var value := decoder.Take(valueLength.value);
      return if value.Ok? then Ok(()) else Err(value.error);
    }
    outcome := if valueLength.value == -1 then Ok(()) else Err(Invalid);
  }

  method DecodeHeaders(decoder: Decoder, count: nat) returns (outcome: Result<(), WireError>)
    requires decoder.Valid()
    modifies decoder
    ensures decoder.Valid()
    ensures var parsed := Many(HeaderSkipper(), old(decoder.Rest()), count);
            if parsed.Failed? then outcome == Err(parsed.error) else outcome == Ok(()) && decoder.Rest() == parsed.rest
  {
    ghost var start := decoder.Rest();
    var i := 0;
    while i < count
      invariant decoder.Valid() && i <= count
      invariant Many(HeaderSkipper(), start, i).Parsed? && Many(HeaderSkipper(), start, i).rest == decoder.Rest()
    {
      var header := DecodeHeader(decoder);
      i := i + 1;
      if header.Err? {
        ManyFails(HeaderSkipper(), start, i, count);
        return header;
      }
    }
    outcome := Ok(());
  }

  /** The header count, the headers, and the end of the record. */
  method DecodeTrailer(decoder: Decoder) returns (error: Option<WireError>)
    requires decoder.Valid()
    modifies decoder
    ensures decoder.Valid() && error == ReadTrailer(old(decoder.Rest()))
  {
    var headers := DecodeVarint(decoder);
    if headers.Err? {
      return Some(headers.error);
    }
    if headers.value < 0 || headers.value > MAX_ARRAY_LEN {
      return Some(Invalid);
    }
    var skipped := DecodeHeaders(decoder, headers.value);
    if skipped.Err? {
      return Some(skipped.error);
    }
    error := if decoder.Done() then None else Some(Invalid);
  }

  method DecodeBody(body: Bytes, first: Timestamp) returns (outcome: Result<RecordData, WireError>)
    ensures outcome == ReadBody(body, first)
  {
    var record := new Decoder(body);
    var attributes := record.Take(1);
    if attributes.Err? {
      return Err(attributes.error);
    }
    var delta := DecodeVarlong(record);
    if delta.Err? {
      return Err(delta.error);
    }
    var offsetDelta := DecodeVarint(record);
    if offsetDelta.Err? {
      return Err(offsetDelta.error);
    }
    var key := DecodeField(record);
    if key.Err? {
      return Err(key.error);
    }
    var value := DecodeField(record);
    if value.Err? {
      return Err(value.error);
    }
    var trailer := DecodeTrailer(record);
    if trailer.Some? {
      return Err(trailer.value);
    }
    outcome := Ok(RecordData(SaturateI64(first + delta.value), key.value, value.value));
  }

  method DecodeRecord(decoder: Decoder, first: Timestamp) returns (outcome: Result<RecordData, WireError>)
    requires decoder.Valid()
    modifies decoder
    ensures decoder.Reads(ReadRecord(old(decoder.Rest()), first), outcome)
  {
    var length := DecodeVarint(decoder);
    if length.Err? {
      return Err(length.error);
    }
    if length.value < 0 {
      return Err(Invalid);
    }
    var body := decoder.Take(length.value);
    if body.Err? {
      return Err(body.error);
    }
    outcome := DecodeBody(body.value, first);
  }

  // ---------------------------------------------------------------- record sets

  method DecodeRecords(decoder: Decoder, count: nat, first: Timestamp)
    returns (outcome: Result<seq<RecordData>, WireError>)
    requires decoder.Valid()
    modifies decoder
    ensures decoder.Reads(Many(RecordReader(first), old(decoder.Rest()), count), outcome)
  {
    ghost var start := decoder.Rest();
    var records: seq<RecordData>, i := [], 0;
    while i < count
      invariant decoder.Valid() && i <= count
      invariant Many(RecordReader(first), start, i) == Parsed(records, decoder.Rest())
    {
      var record := DecodeRecord(decoder, first);
      i := i + 1;
      if record.Err? {
        ManyFails(RecordReader(first), start, i, count);
        return Err(record.error);
      }
      records := records + [record.value];
    }
    outcome := Ok(records);
  }

  method DecodeOneBatch(batch: Bytes, identity: Identity) returns (outcome: Result<Decoded, WireError>)
    requires |batch| >= 49
    ensures outcome == DecodeBatch(batch, identity)
  {
    var decoder := new Decoder(batch);
    var leaderEpoch := decoder.I32();
    var magic := decoder.Take(1);
    if magic.value[0] != 2 {
      return Err(UnsupportedVersion);
    }
    var expected := decoder.Take(4);
    var crc := Crc.ComputeChecksum(batch[9..], Crc.Castagnoli());
    if crc != Unsigned(expected.value) {
      return Err(Checksum);
    }
    outcome := DecodeCoveredPart(decoder, identity);
  }

  /** From the attributes on, with the cursor behind the checksum. */
  method DecodeCoveredPart(decoder: Decoder, identity: Identity) returns (outcome: Result<Decoded, WireError>)
    requires decoder.Valid() && decoder.offset + 40 <= |decoder.bytes|
    modifies decoder
    ensures outcome == DecodeCovered(old(decoder.Rest()), identity)
  {
    ghost var covered := decoder.Rest();
    ghost var start := decoder.offset;
    var attributes := decoder.I16();
    assert decoder.bytes[start..start + 2] == covered[0..2];
    if UnsupportedAttributes(attributes.value) {
      return Err(UnsupportedVersion);
    }
    var lastOffsetDelta := decoder.I32();
    var first := decoder.I64();
    assert decoder.bytes[start + 6..start + 14] == covered[6..14];
    var maxTimestamp := decoder.I64();
    var id := decoder.I64();
    assert decoder.bytes[start + 22..start + 30] == covered[22..30];
    var epoch := decoder.I16();
    assert decoder.bytes[start + 30..start + 32] == covered[30..32];
    var sequence := decoder.I32();
    var count := decoder.I32();
    assert decoder.bytes[start + 36..start + 40] == covered[36..40];
    if count.value < 0 || count.value > MAX_RECORDS {
      return Err(TooLarge);
    }
    var next := identity;
    if Bit(attributes.value, 0x10) {
      if identity.Some? && identity.value != (id.value, epoch.value) {
        return Err(Invalid);
      }
      next := Some((id.value, epoch.value));
    }
    assert decoder.Rest() == covered[40..];
    var records := DecodeRecords(decoder, count.value, first.value);
    if records.Err? {
      return Err(records.error);
    }
    if !decoder.Done() {
      return Err(Invalid);
    }
    outcome := Ok(Decoded(records.value, next));
  }

  /** The next batch of a record set, without its base offset and length. */
  method TakeBatch(decoder: Decoder) returns (outcome: Result<Bytes, WireError>)
    requires decoder.Valid()
    modifies decoder
    ensures decoder.Valid()
    ensures var end := BatchEnd(old(decoder.Rest()));
            if end.Err? then outcome == Err(end.error)
            else outcome == Ok(old(decoder.Rest())[12..end.value]) && decoder.Rest() == old(decoder.Rest())[end.value..]
  {
    ghost var rest, start := decoder.Rest(), decoder.offset;
    if |decoder.bytes| - decoder.offset < 12 {
      return Err(Incomplete);
    }
    var base := decoder.I64();
    var length := decoder.I32();
    assert decoder.bytes[start + 8..start + 12] == rest[8..12];
    if length.value < 49 {
      return Err(Invalid);
    }
    outcome := decoder.Take(length.value);
    if outcome.Ok? {
      assert outcome.value == rest[12..12 + length.value] && decoder.Rest() == rest[12 + length.value..];
    }
  }

  method DecodeRecordSet(bytes: Bytes) returns (outcome: Result<Decoded, WireError>)
    ensures outcome == DecodeFrom(bytes, [], None)
  {
    var decoder := new Decoder(bytes);
    var records: seq<RecordData>, identity: Identity := [], None;
    while !decoder.Done()
      invariant decoder.Valid() && decoder.bytes == bytes
      invariant DecodeFrom(decoder.Rest(), records, identity) == DecodeFrom(bytes, [], None)
      decreases |decoder.Rest()|
    {
      var batch := TakeBatch(decoder);
      if batch.Err? {
        return Err(batch.error);
      }
      var decoded := DecodeOneBatch(batch.value, identity);
      if decoded.Err? {
        return Err(decoded.error);
      }
      records, identity := records + decoded.value.records, decoded.value.producer;
    }
    outcome := Ok(Decoded(records, identity));
  }

  // ---------------------------------------------------------------- writing

  method EncodeField(output: Bytes, field: Option<Bytes>) returns (outcome: Result<Bytes, WireError>)
    ensures outcome == if FieldFits(field) then Ok(output + FieldBytes(field)) else Err(TooLarge)
  {
    match field
    case Some(bytes) =>
      if |bytes| > I32_MAX {
        return Err(TooLarge);
      }
      CastKeepsValue(|bytes|);
      var prefixed := WriteVarint(output, |bytes|);
      ConcatAssociative(output, PutVarint(|bytes|), bytes);
      outcome := Ok(prefixed + bytes);
    case None =>
      var written := WriteVarint(output, -1);
      outcome := Ok(written);
  }

  method EncodeBody(record: Record, base: int, first: Timestamp) returns (outcome: Result<Bytes, WireError>)
    ensures outcome == if FieldsFit(record) then Ok(RecordBody(record, base, first)) else Err(TooLarge)
  {
    var body := WriteVarlong([0], SaturateI64(record.timestamp - first));
    body := WriteVarint(body, AsI32(record.offset - base));
    var keyed := EncodeField(body, record.key);
    if keyed.Err? {
      return Err(keyed.error);
    }
    var valued := EncodeField(keyed.value, record.value);
    if valued.Err? {
      return Err(valued.error);
    }
    body := WriteVarint(valued.value, 0);
    outcome := Ok(body);
  }

  /** A name for what the record writer prints. */
  ghost predicate Prints(put: Record -> Bytes, base: int, first: Timestamp) {
    forall record: Record {:trigger RecordBytes(record, base, first)} :: put(record) == RecordBytes(record, base, first)
  }

  /** One record behind its length. */
  method AppendRecord(output: Bytes, record: Record, base: int, first: Timestamp, ghost put: Record -> Bytes)
    returns (outcome: Result<Bytes, WireError>)
    requires Prints(put, base, first)
    ensures outcome == if FieldsFit(record) then Ok(output + put(record)) else Err(TooLarge)
  {
    var body := EncodeBody(record, base, first);
    if body.Err? {
      return body;
    }
    ConcatAssociative(output, PutVarint(AsI32(|body.value|)), body.value);
    var prefixed := WriteVarint(output, AsI32(|body.value|));
    outcome := Ok(prefixed + body.value);
    assert put(record) == RecordBytes(record, base, first);
  }

  method EncodeRecords(records: seq<Record>, base: int, first: Timestamp, ghost put: Record -> Bytes)
    returns (outcome: Result<Bytes, WireError>)
    requires Prints(put, base, first)
    ensures outcome == if forall i :: 0 <= i < |records| ==> FieldsFit(records[i])
                       then Ok(Laid(put, records)) else Err(TooLarge)
  {
    var encoded: Bytes, i := [], 0;
    while i < |records|
      invariant 0 <= i <= |records|
      invariant forall j :: 0 <= j < i ==> FieldsFit(records[j])
      invariant encoded == Laid(put, records[..i])
    {
      var appended := AppendRecord(encoded, records[i], base, first, put);
      if appended.Err? {
        return appended;
      }
      LaidNext(put, records, i);
      encoded := appended.value;
      i := i + 1;
    }
    assert records[..i] == records;
    outcome := Ok(encoded);
  }

  method LargestTimestamp(records: seq<Record>) returns (largest: Timestamp)
    requires records != []
    ensures largest == MaxTimestamp(records)
  {
    largest := records[0].timestamp;
    var i := 1;
    while i < |records|
      invariant 1 <= i <= |records|
      invariant largest == MaxTimestamp(records[..i])
    {
      assert records[..i + 1][..i] == records[..i];
      if records[i].timestamp >= largest {
        largest := records[i].timestamp;
      }
      i := i + 1;
    }
    assert records[..i] == records;
  }

  /** The fixed fields behind the checksum, and the records. */
  method EncodeCovered(base: int, records: seq<Record>) returns (outcome: Result<Bytes, WireError>)
    requires records != []
    ensures outcome == if forall i :: 0 <= i < |records| ==> FieldsFit(records[i])
                       then Ok(Covered(records, base)) else Err(TooLarge)
  {
    var first := records[0].timestamp;
    var encoded := EncodeRecords(records, base, first, RecordWriter(base, first));
    if encoded.Err? {
      return encoded;
    }
    var largest := LargestTimestamp(records);
    outcome := Ok(BigEndian(0, 2) + BigEndian(|records| - 1, 4) + BigEndian(first, 8) + BigEndian(largest, 8)
                  + BigEndian(-1, 8) + BigEndian(-1, 2) + BigEndian(-1, 4) + BigEndian(|records|, 4) + encoded.value);
  }

  /** Computes the checksum of everything behind the checksum field and copies it into the field. */
  method Seal(body: Bytes, ghost covered: Bytes) returns (sealed: Bytes)
    requires body == BigEndian(-1, 4) + [2] + BigEndian(0, 4) + covered
    ensures sealed == BatchBody(covered)
  {
    assert body[9..] == covered && body[..5] == BigEndian(-1, 4) + [2];
    var crc := Crc.ComputeChecksum(body[9..], Crc.Castagnoli());
    sealed := body[..5] + BigEndian(crc, 4) + body[9..];
  }

  /** The body is written with a zero checksum that is filled in once the rest is known. */
  method EncodeRecordBatch(base: int, records: seq<Record>) returns (outcome: Result<Bytes, WireError>)
    ensures outcome == Encode(base, records)
  {
    if records == [] || |records| > MAX_RECORDS {
      return Err(Invalid);
    }
    var covered := EncodeCovered(base, records);
    if covered.Err? {
      return covered;
    }
    var body := Seal(BigEndian(-1, 4) + [2] + BigEndian(0, 4) + covered.value, covered.value);
    var batch := BigEndian(base, 8) + BigEndian(|body|, 4) + body;
    if |batch| > MAX_FRAME_LEN {
      return Err(TooLarge);
    }
    outcome := Ok(batch);
  }
}
