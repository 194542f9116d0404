/** Record batch v2 as a printer and a parser of byte strings, and what holds between them. */
module RecordBatch {
  import opened Records
  import opened Bits
  import opened Varint
  import opened Repeat
  import Crc

  const MAX_FRAME_LEN: nat := 0x10_0000
  const MAX_RECORDS: nat := 1024
  const MAX_ARRAY_LEN: nat := 0x4000
  const I32_MAX: int := 0x7fff_ffff

  /** A producer id and epoch carried by a transactional batch. */
  type Identity = Option<(int, int)>

  datatype Decoded = Decoded(records: seq<RecordData>, producer: Identity)

  // ---------------------------------------------------------------- printing

  function FieldBytes(field: Option<Bytes>): Bytes {
    match field
    case Some(bytes) => PutVarint(AsI32(|bytes|)) + bytes
    case None => PutVarint(-1)
  }

  function RecordBody(record: Record, base: int, first: Timestamp): Bytes {
    [0] + PutVarlong(SaturateI64(record.timestamp - first)) + PutVarint(AsI32(record.offset - base))
    + FieldBytes(record.key) + FieldBytes(record.value) + PutVarint(0)
  }

  function RecordBytes(record: Record, base: int, first: Timestamp): Bytes {
    PutVarint(AsI32(|RecordBody(record, base, first)|)) + RecordBody(record, base, first)
  }

  function RecordWriter(base: int, first: Timestamp): Record -> Bytes {
    (record: Record) => RecordBytes(record, base, first)
  }

  function RecordsBytes(records: seq<Record>, base: int, first: Timestamp): Bytes {
    Laid(RecordWriter(base, first), records)
  }

  function MaxTimestamp(records: seq<Record>): Timestamp
    requires records != []
  {
    if |records| == 1 then records[0].timestamp
    else
      var rest := MaxTimestamp(records[..|records| - 1]);
      var last := records[|records| - 1].timestamp;
      if last >= rest then last else rest
  }

  /** Everything the checksum covers: attributes, the fixed fields and the records. */
  function Covered(records: seq<Record>, base: int): Bytes
    requires records != []
  {
    BigEndian(0, 2) + BigEndian(|records| - 1, 4) + BigEndian(records[0].timestamp, 8)
    + BigEndian(MaxTimestamp(records), 8)
    + BigEndian(-1, 8) + BigEndian(-1, 2) + BigEndian(-1, 4) + BigEndian(|records|, 4)
    + RecordsBytes(records, base, records[0].timestamp)
  }

  /** Leader epoch, magic, checksum, and what the checksum covers. */
  function BatchBody(covered: Bytes): Bytes {
    BigEndian(-1, 4) + [2] + BigEndian(Crc.Checksum(covered, Crc.Castagnoli()), 4) + covered
  }

  /** Base offset, length, body. */
  function Framed(base: int, body: Bytes): Bytes {
    BigEndian(base, 8) + BigEndian(|body|, 4) + body
  }

  function BatchBytes(records: seq<Record>, base: int): Bytes
    requires records != []
  {
    Framed(base, BatchBody(Covered(records, base)))
  }

  predicate FieldFits(field: Option<Bytes>) {
    FieldLength(field) <= I32_MAX
  }

  predicate FieldsFit(record: Record) {
    FieldFits(record.key) && FieldFits(record.value)
  }

  function Encode(base: int, records: seq<Record>): Result<Bytes, WireError> {
    if records == [] || |records| > MAX_RECORDS then Err(Invalid)
    else if exists i :: 0 <= i < |records| && !FieldsFit(records[i]) then Err(TooLarge)
    else if |BatchBytes(records, base)| > MAX_FRAME_LEN then Err(TooLarge)
    else Ok(BatchBytes(records, base))
  }

  // ---------------------------------------------------------------- parsing

  function Take(s: Bytes, n: nat): Parsed<Bytes> {
    if n <= |s| then Parsed(s[..n], s[n..]) else Failed(Incomplete)
  }

  /** An optional field whose length has been read already. */
  function ReadField(s: Bytes, length: int): Parsed<Option<Bytes>> {
    if length == -1 then Parsed(None, s)
    else if length >= 0 then
      match Take(s, length)
      case Failed(error) => Failed(error)
      case Parsed(bytes, rest) => Parsed(Some(bytes), rest)
    else Failed(Invalid)
  }

  function ReadSizedField(s: Bytes): Parsed<Option<Bytes>> {
    match ReadVarint(s)
    case Failed(error) => Failed(error)
    case Parsed(length, rest) => ReadField(rest, length)
  }

  function SkipHeader(s: Bytes): Parsed<()> {
    match ReadVarint(s)
    case Failed(error) => Failed(error)
    case Parsed(keyLength, afterKeyLength) =>
      if keyLength < 0 then Failed(Invalid)
      else
        match Take(afterKeyLength, keyLength)
        case Failed(error) => Failed(error)
        case Parsed(_, afterKey) =>
          match ReadVarint(afterKey)
          case Failed(error) => Failed(error)
          case Parsed(valueLength, afterValueLength) =>
            if valueLength >= 0 then
              match Take(afterValueLength, valueLength)
              case Failed(error) => Failed(error)
              case Parsed(_, rest) => Parsed((), rest)
            else if valueLength == -1 then Parsed((), afterValueLength)
            else Failed(Invalid)
  }

  function HeaderSkipper(): Bytes -> Parsed<()> {
    (s: Bytes) => SkipHeader(s)
  }

  /** The header count, the headers, and nothing after them. */
  function ReadTrailer(s: Bytes): Option<WireError> {
    match ReadVarint(s)
    case Failed(error) => Some(error)
    case Parsed(headers, rest) =>
      if headers < 0 || headers > MAX_ARRAY_LEN then Some(Invalid)
      else
        match Many(HeaderSkipper(), rest, headers)
        case Failed(error) => Some(error)
        case Parsed(_, end) => if end == [] then None else Some(Invalid)
  }

  function ReadBody(body: Bytes, first: Timestamp): Result<RecordData, WireError> {
    match Take(body, 1)
    case Failed(error) => Err(error)
    case Parsed(_, s0) =>
      match ReadVarlong(s0)
      case Failed(error) => Err(error)
      case Parsed(delta, s1) =>
        match ReadVarint(s1)
        case Failed(error) => Err(error)
        case Parsed(_, s2) =>
          match ReadSizedField(s2)
          case Failed(error) => Err(error)
          case Parsed(key, s3) =>
            match ReadSizedField(s3)
            case Failed(error) => Err(error)
            case Parsed(value, s4) =>
              match ReadTrailer(s4)
              case Some(error) => Err(error)
              case None => Ok(RecordData(SaturateI64(first + delta), key, value))
  }

  function ReadRecord(s: Bytes, first: Timestamp): Parsed<RecordData> {
    match ReadVarint(s)
    case Failed(error) => Failed(error)
    case Parsed(length, rest) =>
      if length < 0 then Failed(Invalid)
      else
        match Take(rest, length)
        case Failed(error) => Failed(error)
        case Parsed(body, after) =>
          match ReadBody(body, first)
          case Err(error) => Failed(error)
          case Ok(record) => Parsed(record, after)
  }

  function RecordReader(first: Timestamp): Bytes -> Parsed<RecordData> {
    (s: Bytes) => ReadRecord(s, first)
  }

  predicate Bit(attributes: int, weight: int)
    requires weight > 0
  {
    attributes / weight % 2 == 1
  }

  /** Compression in the low three bits, and the control flag, are not supported. */
  predicate UnsupportedAttributes(attributes: int) {
    attributes % 8 != 0 || Bit(attributes, 0x20)
  }

  /** The identity after a batch: unchanged, newly set, or contradictory. */
  function NextIdentity(attributes: int, id: int, epoch: int, identity: Identity): Result<Identity, WireError> {
    if !Bit(attributes, 0x10) then Ok(identity)
    else if identity.Some? && identity.value != (id, epoch) then Err(Invalid)
    else Ok(Some((id, epoch)))
  }

  /** What the checksum covers: attributes, the fixed fields and the records. */
  function DecodeCovered(covered: Bytes, identity: Identity): Result<Decoded, WireError>
    requires |covered| >= 40
  {
    var attributes, count := FieldI16(covered[0..2]), FieldI32(covered[36..40]);
    if UnsupportedAttributes(attributes) then Err(UnsupportedVersion)
    else if count < 0 || count > MAX_RECORDS then Err(TooLarge)
    else
      match NextIdentity(attributes, FieldI64(covered[22..30]), FieldI16(covered[30..32]), identity)
      case Err(error) => Err(error)
      case Ok(next) =>
        match Many(RecordReader(FieldI64(covered[6..14])), covered[40..], count)
        case Failed(error) => Err(error)
        case Parsed(records, end) => if end == [] then Ok(Decoded(records, next)) else Err(Invalid)
  }

  /** One batch without its base offset and length, and at least as long as its fixed fields. */
  function DecodeBatch(batch: Bytes, identity: Identity): Result<Decoded, WireError>
    requires |batch| >= 49
  {
    if batch[4] != 2 then Err(UnsupportedVersion)
    else if Crc.Checksum(batch[9..], Crc.Castagnoli()) != Unsigned(batch[5..9]) then Err(Checksum)
    else DecodeCovered(batch[9..], identity)
  }

  /** Where the batch at the front of a record set ends. */
  function BatchEnd(s: Bytes): (end: Result<nat, WireError>)
    ensures end.Ok? ==> 61 <= end.value <= |s|
  {
    if |s| < 12 then Err(Incomplete)
    else
      var length := FieldI32(s[8..12]);
      if length < 49 then Err(Invalid)
      else if |s| - 12 < length then Err(Incomplete)
      else Ok(12 + length)
  }

  /** The decoder's outer loop over the batches of a record set. */
  function DecodeFrom(s: Bytes, records: seq<RecordData>, identity: Identity): Result<Decoded, WireError>
    decreases |s|
  {
    if s == [] then Ok(Decoded(records, identity))
    else
      match BatchEnd(s)
      case Err(error) => Err(error)
      case Ok(end) =>
        match DecodeBatch(s[12..end], identity)
        case Err(error) => Err(error)
        case Ok(batch) => DecodeFrom(s[end..], records + batch.records, batch.producer)
  }

  /** The format is told by the seventeenth byte; the reader of legacy message sets is a parameter. */
  function Decode(s: Bytes, legacy: Bytes -> Result<Decoded, WireError>): Result<Decoded, WireError> {
    if s == [] then Err(Invalid)
    else if |s| <= 16 then Err(UnsupportedVersion)
    else if s[16] == 2 then DecodeFrom(s, [], None)
    else if s[16] <= 1 then legacy(s)
    else Err(UnsupportedVersion)
  }
}
