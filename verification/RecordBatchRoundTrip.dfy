/** Decoding undoes encoding, exactly as far as the saturating timestamp arithmetic allows. */
module RecordBatchRoundTrip {
  import opened Records
  import opened Bits
  import opened Varint
  import opened RecordBatch
  import opened Repeat
  import Crc

  /** What a record becomes on the way through the wire: its timestamp is saved as a saturated difference. */
  function Restored(record: Record, first: Timestamp): RecordData {
    RecordData(SaturateI64(first + SaturateI64(record.timestamp - first)), record.key, record.value)
  }

  function RestoredAll(records: seq<Record>, first: Timestamp): (all: seq<RecordData>)
    ensures |all| == |records|
    ensures forall i :: 0 <= i < |records| ==> all[i] == Restored(records[i], first)
  {
    seq(|records|, i requires 0 <= i < |records| => Restored(records[i], first))
  }

  // ---------------------------------------------------------------- one record

  lemma TakeAll(s: Bytes, rest: Bytes)
    ensures Take(s + rest, |s|) == Parsed(s, rest)
  {
  }

  lemma FieldRoundTrip(field: Option<Bytes>, rest: Bytes)
    requires FieldFits(field)
    ensures ReadSizedField(FieldBytes(field) + rest) == Parsed(field, rest)
  {
    match field
    case Some(bytes) =>
      CastKeepsValue(|bytes|);
      ConcatAssociative(PutVarint(|bytes|), bytes, rest);
      VarintRoundTrip(|bytes|, bytes + rest);
      TakeAll(bytes, rest);
    case None =>
      VarintRoundTrip(-1, rest);
  }

  lemma EmptyTrailer()
    ensures ReadTrailer(PutVarint(0)) == None
  {
    assert PutVarint(0) + [] == PutVarint(0);
    VarintRoundTrip(0, []);
  }

  /** A record body with what follows each field named. */
  lemma BodyInParts(record: Record, base: int, first: Timestamp)
    ensures
      var s4 := PutVarint(0);
      var s3 := FieldBytes(record.value) + s4;
      var s2 := FieldBytes(record.key) + s3;
      var s1 := PutVarint(AsI32(record.offset - base)) + s2;
      RecordBody(record, base, first) == [0] + (PutVarlong(SaturateI64(record.timestamp - first)) + s1)
  {
    var t, o := PutVarlong(SaturateI64(record.timestamp - first)), PutVarint(AsI32(record.offset - base));
    var k, v, h := FieldBytes(record.key), FieldBytes(record.value), PutVarint(0);
    ConcatAssociative([0] + t + o + k, v, h);
    ConcatAssociative([0] + t + o, k, v + h);
    ConcatAssociative([0] + t, o, k + (v + h));
    ConcatAssociative([0], t, o + (k + (v + h)));
  }

  lemma AsI32Range(n: int)
    ensures -0x8000_0000 <= AsI32(n) < 0x8000_0000
  {
  }

  lemma BodyRoundTrip(record: Record, base: int, first: Timestamp)
    requires FieldsFit(record)
    ensures ReadBody(RecordBody(record, base, first), first) == Ok(Restored(record, first))
  {
    var s4 := PutVarint(0);
    var s3 := FieldBytes(record.value) + s4;
    var s2 := FieldBytes(record.key) + s3;
    var s1 := PutVarint(AsI32(record.offset - base)) + s2;
    var s0 := PutVarlong(SaturateI64(record.timestamp - first)) + s1;
    BodyInParts(record, base, first);
    TakeAll([0], s0);
    VarlongRoundTrip(SaturateI64(record.timestamp - first), s1);
    AsI32Range(record.offset - base);
    VarintRoundTrip(AsI32(record.offset - base), s2);
    FieldRoundTrip(record.key, s3);
    FieldRoundTrip(record.value, s4);
    EmptyTrailer();
  }

  lemma RecordRoundTrip(record: Record, base: int, first: Timestamp, rest: Bytes)
    requires FieldsFit(record) && |RecordBody(record, base, first)| <= I32_MAX
    ensures ReadRecord(RecordBytes(record, base, first) + rest, first) == Parsed(Restored(record, first), rest)
  {
    var body := RecordBody(record, base, first);
    CastKeepsValue(|body|);
    ConcatAssociative(PutVarint(|body|), body, rest);
    VarintRoundTrip(|body|, body + rest);
    TakeAll(body, rest);
    BodyRoundTrip(record, base, first);
  }

  predicate AllFit(records: seq<Record>) {
    forall i :: 0 <= i < |records| ==> FieldsFit(records[i])
  }

  lemma PartsAreShorter(records: seq<Record>, base: int, first: Timestamp)
    requires records != []
    ensures var n := |records| - 1;
            && |RecordBody(records[n], base, first)| <= |RecordsBytes(records, base, first)|
            && |RecordsBytes(records[..n], base, first)| <= |RecordsBytes(records, base, first)|
  {
  }

  lemma RestoredPush(records: seq<Record>, first: Timestamp)
    requires records != []
    ensures var n := |records| - 1;
            RestoredAll(records, first) == RestoredAll(records[..n], first) + [Restored(records[n], first)]
  {
  }

  lemma {:induction false} RecordsRoundTrip(records: seq<Record>, base: int, first: Timestamp, rest: Bytes)
    requires AllFit(records) && |RecordsBytes(records, base, first)| <= I32_MAX
    ensures Many(RecordReader(first), RecordsBytes(records, base, first) + rest, |records|)
            == Parsed(RestoredAll(records, first), rest)
  {
    var n := |records| - 1;
    if n < 0 {
      assert RecordsBytes(records, base, first) + rest == rest;
    } else {
      var front, last := RecordsBytes(records[..n], base, first), RecordBytes(records[n], base, first);
      PartsAreShorter(records, base, first);
      RecordsRoundTrip(records[..n], base, first, last + rest);
      ConcatAssociative(front, last, rest);
      RecordRoundTrip(records[n], base, first, rest);
      OneMore(RecordReader(first), front + (last + rest), RestoredAll(records[..n], first), n,
              last + rest, Restored(records[n], first), rest);
      RestoredPush(records, first);
    }
  }

  // ---------------------------------------------------------------- one batch

  /** The fixed fields of a covered part, by position. */
  lemma CoveredFields(a: Bytes, b: Bytes, c: Bytes, d: Bytes, e: Bytes, f: Bytes, g: Bytes, h: Bytes, records: Bytes)
    requires |a| == 2 && |b| == 4 && |c| == 8 && |d| == 8 && |e| == 8 && |f| == 2 && |g| == 4 && |h| == 4
    ensures var s := a + b + c + d + e + f + g + h + records;
            && |s| == 40 + |records|
            && s[0..2] == a && s[2..6] == b && s[6..14] == c && s[14..22] == d && s[22..30] == e && s[30..32] == f
            && s[32..36] == g && s[36..40] == h && s[40..] == records
  {
  }

  /** Where the body keeps the magic, the checksum and the covered part. */
  lemma BodyFields(covered: Bytes)
    ensures var b := BatchBody(covered);
            && |b| == 9 + |covered|
            && b[0..4] == BigEndian(-1, 4)
            && b[4] == 2
            && b[5..9] == BigEndian(Crc.Checksum(covered, Crc.Castagnoli()), 4)
            && b[9..] == covered
  {
  }

  lemma WordRoundTrip(n: nat)
    requires n < U32
    ensures Unsigned(BigEndian(n, 4)) == n
  {
    UnsignedOfBigEndian(n, 4);
    assert Power256(4) == U32;
  }

  lemma ChecksumField(covered: Bytes)
    ensures |BatchBody(covered)| == 9 + |covered|
    ensures Unsigned(BatchBody(covered)[5..9]) == Crc.Checksum(covered, Crc.Castagnoli())
  {
    BodyFields(covered);
    Crc.ChecksumRange(covered, Crc.Castagnoli());
    WordRoundTrip(Crc.Checksum(covered, Crc.Castagnoli()));
  }

  lemma PlainAttributes(identity: Identity, id: int, epoch: int)
    ensures !UnsupportedAttributes(0) && NextIdentity(0, id, epoch, identity) == Ok(identity)
  {
  }

  /** Reading fixed fields of a plain batch whose payload parses to the end. */
  lemma DecodePlain(a: Bytes, b: Bytes, c: Bytes, d: Bytes, e: Bytes, f: Bytes, g: Bytes, h: Bytes, payload: Bytes,
                    identity: Identity, records: seq<RecordData>)
    requires |a| == 2 && |b| == 4 && |c| == 8 && |d| == 8 && |e| == 8 && |f| == 2 && |g| == 4 && |h| == 4
    requires FieldI16(a) == 0 && 0 <= FieldI32(h) <= MAX_RECORDS
    requires Many(RecordReader(FieldI64(c)), payload, FieldI32(h)) == Parsed(records, [])
    ensures var s := a + b + c + d + e + f + g + h + payload;
            |s| >= 40 && DecodeCovered(s, identity) == Ok(Decoded(records, identity))
  {
    CoveredFields(a, b, c, d, e, f, g, h, payload);
    var s := a + b + c + d + e + f + g + h + payload;
    PlainAttributes(identity, FieldI64(s[22..30]), FieldI16(s[30..32]));
  }

  lemma CoveredRoundTrip(records: seq<Record>, base: int, identity: Identity)
    requires 0 < |records| <= MAX_RECORDS && AllFit(records)
    requires |RecordsBytes(records, base, records[0].timestamp)| <= I32_MAX
    ensures |Covered(records, base)| >= 40
    ensures DecodeCovered(Covered(records, base), identity)
            == Ok(Decoded(RestoredAll(records, records[0].timestamp), identity))
  {
    var first := records[0].timestamp;
    var payload := RecordsBytes(records, base, first);
    FieldI16RoundTrip(0);
    FieldI64RoundTrip(first);
    FieldI32RoundTrip(|records|);
    assert payload + [] == payload;
    RecordsRoundTrip(records, base, first, []);
    DecodePlain(BigEndian(0, 2), BigEndian(|records| - 1, 4), BigEndian(first, 8), BigEndian(MaxTimestamp(records), 8),
                BigEndian(-1, 8), BigEndian(-1, 2), BigEndian(-1, 4), BigEndian(|records|, 4), payload,
                identity, RestoredAll(records, first));
  }

  // ---------------------------------------------------------------- record sets

  /** One turn of the decoder's loop over a framed body. */
  lemma FramedDecodes(base: int, body: Bytes, rest: Bytes, records: seq<RecordData>, identity: Identity)
    requires 49 <= |body| <= I32_MAX
    ensures var batch := DecodeBatch(body, identity);
            DecodeFrom(Framed(base, body) + rest, records, identity)
            == if batch.Err? then Err(batch.error)
               else DecodeFrom(rest, records + batch.value.records, batch.value.producer)
  {
    FieldI32RoundTrip(|body|);
    SplitFrame(BigEndian(base, 8), BigEndian(|body|, 4), body, rest);
  }

  lemma SplitFrame(a: Bytes, b: Bytes, body: Bytes, rest: Bytes)
    requires |a| == 8 && |b| == 4
    ensures var s := a + b + body + rest;
            && |s| == 12 + |body| + |rest| && s[8..12] == b
            && s[12..12 + |body|] == body && s[12 + |body|..] == rest
  {
  }

  /** What the encoder writes, the decoder reads back in front of whatever follows. */
  lemma BatchRoundTrip(base: int, records: seq<Record>, rest: Bytes, before: seq<RecordData>, identity: Identity)
    requires Encode(base, records).Ok?
    ensures DecodeFrom(Encode(base, records).value + rest, before, identity)
            == DecodeFrom(rest, before + RestoredAll(records, records[0].timestamp), identity)
  {
    var covered := Covered(records, base);
    EncodedSizes(base, records);
    CoveredRoundTrip(records, base, identity);
    BodyFields(covered);
    ChecksumField(covered);
    FramedDecodes(base, BatchBody(covered), rest, before, identity);
  }

  /** The fixed fields of an encoded batch take 61 bytes. */
  lemma EncodedSizes(base: int, records: seq<Record>)
    requires records != []
    ensures var payload := |RecordsBytes(records, base, records[0].timestamp)|;
            && |Covered(records, base)| == 40 + payload
            && |BatchBody(Covered(records, base))| == 49 + payload
            && |BatchBytes(records, base)| == 61 + payload
  {
    var first := records[0].timestamp;
    CoveredFields(BigEndian(0, 2), BigEndian(|records| - 1, 4), BigEndian(first, 8),
                  BigEndian(MaxTimestamp(records), 8),
                  BigEndian(-1, 8), BigEndian(-1, 2), BigEndian(-1, 4), BigEndian(|records|, 4),
                  RecordsBytes(records, base, first));
    BodyFields(Covered(records, base));
  }

  lemma BatchEndStays(s: Bytes, t: Bytes)
    requires BatchEnd(s).Ok?
    ensures var n := BatchEnd(s).value;
            BatchEnd(s + t) == Ok(n) && (s + t)[12..n] == s[12..n] && (s + t)[n..] == s[n..] + t
  {
    assert (s + t)[8..12] == s[8..12];
  }

  /** Record sets concatenate: decoding carries on behind a set that decodes. */
  lemma {:induction false} SetsConcatenate(s: Bytes, t: Bytes, records: seq<RecordData>, identity: Identity)
    requires DecodeFrom(s, records, identity).Ok?
    ensures var d := DecodeFrom(s, records, identity).value;
            DecodeFrom(s + t, records, identity) == DecodeFrom(t, d.records, d.producer)
    decreases |s|
  {
    if s == [] {
      assert s + t == t;
    } else {
      BatchEndStays(s, t);
      var n := BatchEnd(s).value;
      var batch := DecodeBatch(s[12..n], identity).value;
      SetsConcatenate(s[n..], t, records + batch.records, batch.producer);
    }
  }

  /** The difference of every timestamp from the first one fits in an i64. */
  predicate SpreadFits(records: seq<Record>)
    requires records != []
  {
    forall i :: 0 <= i < |records| ==>
      SaturateI64(records[i].timestamp - records[0].timestamp) == records[i].timestamp - records[0].timestamp
  }

  function DataOf(records: seq<Record>): (data: seq<RecordData>)
    ensures |data| == |records|
    ensures forall i :: 0 <= i < |records| ==> data[i] == records[i].Data()
  {
    seq(|records|, i requires 0 <= i < |records| => records[i].Data())
  }

  lemma RestoredExactlyIff(records: seq<Record>)
    requires records != []
    ensures RestoredAll(records, records[0].timestamp) == DataOf(records) <==> SpreadFits(records)
  {
    var first := records[0].timestamp;
    var restored, data := RestoredAll(records, first), DataOf(records);
    forall i | 0 <= i < |records|
      ensures restored[i] == data[i] <==> SaturateI64(records[i].timestamp - first) == records[i].timestamp - first
    {
      DifferenceRestoresIff(records[i].timestamp, first);
    }
    if SpreadFits(records) {
      assert restored == data;
    } else {
      var i :| 0 <= i < |records| && SaturateI64(records[i].timestamp - first) != records[i].timestamp - first;
      assert restored[i] != data[i];
    }
  }

  lemma MagicByte(base: int, records: seq<Record>)
    requires records != []
    ensures |BatchBytes(records, base)| >= 61 && BatchBytes(records, base)[16] == 2
  {
    EncodedSizes(base, records);
    var body := BatchBody(Covered(records, base));
    BodyFields(Covered(records, base));
    assert BatchBytes(records, base)[12 + 4] == body[4];
  }

  /** One encoded batch on its own. */
  lemma BatchAlone(base: int, records: seq<Record>)
    requires Encode(base, records).Ok?
    ensures DecodeFrom(Encode(base, records).value, [], None)
            == Ok(Decoded(RestoredAll(records, records[0].timestamp), None))
  {
    var bytes := Encode(base, records).value;
    var restored := RestoredAll(records, records[0].timestamp);
    assert bytes + [] == bytes && [] + restored == restored;
    BatchRoundTrip(base, records, [], [], None);
  }

  lemma DecodeByMagic(s: Bytes, legacy: Bytes -> Result<Decoded, WireError>)
    requires |s| > 16 && s[16] == 2
    ensures Decode(s, legacy) == DecodeFrom(s, [], None)
  {
  }

  /** The round trip gives back every key, value and timestamp, and no producer, exactly when no difference from
      the first timestamp saturates. */
  lemma RoundTripIff(base: int, records: seq<Record>, legacy: Bytes -> Result<Decoded, WireError>)
    requires Encode(base, records).Ok?
    ensures Decode(Encode(base, records).value, legacy)
            == Ok(Decoded(RestoredAll(records, records[0].timestamp), None))
    ensures Decode(Encode(base, records).value, legacy) == Ok(Decoded(DataOf(records), None)) <==> SpreadFits(records)
  {
    BatchAlone(base, records);
    MagicByte(base, records);
    DecodeByMagic(Encode(base, records).value, legacy);
    RestoredExactlyIff(records);
  }
}
