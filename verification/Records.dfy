/** Bytes, records and the outcome types shared by the log, the coordinators and the wire codec. */
module Records {

  /** An octet. */
  type Byte = b: int | 0 <= b < 0x100

  type Bytes = seq<Byte>

  /** A partition of a topic, as the runtime keys its logs. */
  type TopicPartition = (Bytes, int)

  datatype Option<+T> = None | Some(value: T)

  datatype Result<+T, +E> = Ok(value: T) | Err(error: E)

  datatype LogError =
    | UnknownTopic
    | UnknownPartition
    | InvalidTopic
    | DuplicateTopic
    | EmptyAppend
    | TooManyRecords
    | OffsetOutOfRange

  /** Milliseconds as an i64. */
  type Timestamp = t: int | -0x8000_0000_0000_0000 <= t < 0x8000_0000_0000_0000

  /** A record as a producer hands it over. */
  datatype RecordData = RecordData(timestamp: Timestamp, key: Option<Bytes>, value: Option<Bytes>)

  /** A stored record with the offset the log gave it. */
  datatype Record = Record(offset: int, timestamp: Timestamp, key: Option<Bytes>, value: Option<Bytes>) {
    function Data(): RecordData {
      RecordData(timestamp, key, value)
    }
  }

  lemma ConcatAssociative<T>(a: seq<T>, b: seq<T>, c: seq<T>)
    ensures a + (b + c) == (a + b) + c
  {
  }

  const MAX_APPEND_RECORDS: nat := 1024
  const RECORD_OVERHEAD_BYTES: nat := 32

  function FieldLength(field: Option<Bytes>): nat {
    match field
    case Some(bytes) => |bytes|
    case None => 0
  }

  /** The byte charge of one record, used by retention and by the fetch budget. */
  function Charge(record: Record): nat {
    RECORD_OVERHEAD_BYTES + FieldLength(record.key) + FieldLength(record.value)
  }

  function Charges(records: seq<Record>): nat {
    if records == [] then 0
    else Charges(records[..|records| - 1]) + Charge(records[|records| - 1])
  }

  lemma {:induction false} ChargesConcat(left: seq<Record>, right: seq<Record>)
    ensures Charges(left + right) == Charges(left) + Charges(right)
  {
    if right == [] {
      assert left + right == left;
    } else {
      ChargesConcat(left, right[..|right| - 1]);
      assert (left + right)[..|left + right| - 1] == left + right[..|right| - 1];
    }
  }
}
