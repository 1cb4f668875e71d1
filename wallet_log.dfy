/**
 * The wallet LOG: the append-only file of wallet events (checkpoints,
 * received funds, spent funds) a wallet state is rebuilt from. Each event is
 * one record: a fixed 64-byte header ("EVT1", the block hash, epoch, slot,
 * a type tag and a reserved word) followed, for funds, by the UTxO in YAML.
 */
module WalletLog {
  import opened Types

  /** The bytes of "EVT1". */
  const MAGIC: seq<byte> := [0x45, 0x56, 0x54, 0x31]

  const HEADER_SIZE: nat := 64

  /** Type tags, shared by the writer and the reader. */
  const TAG_CHECKPOINT: u32 := 1
  const TAG_RECEIVED_FUND: u32 := 2
  const TAG_SPENT_FUND: u32 := 3

  /** A failure to take the log's lock: already held by a process, or anything else. */
  datatype LockFailure = AlreadyLocked(pid: nat) | OtherLockFailure

  datatype LogError =
    | LogNotFound
    | IoError
    | LogFormatError
    | LockError(lock: LockFailure)
    | AppendError(appendError: Types.AppendError)
    | UnsupportedLogFormat(magic: seq<byte>)

  /** `From<append::Error>`: a missing file is `LogNotFound`, anything else is wrapped. */
  function FromAppendError(e: Types.AppendError): (r: LogError)
    ensures r == LogNotFound <==> e == NotFound
    ensures r.AppendError? <==> e != NotFound
    ensures r.AppendError? ==> r.appendError == e
  {
    match e
    case NotFound => LogNotFound
    case _ => AppendError(e)
  }

  /** One wallet event; every event carries the state pointer it was recorded at. */
  datatype Log<A> =
    | Checkpoint(ptr: StatePtr)
    | ReceivedFund(ptr: StatePtr, utxo: UTxO<A>)
    | SpentFund(ptr: StatePtr, utxo: UTxO<A>)
  {
    /** `map`: converts the UTxO's addressing, keeping the variant and the pointer. */
    function Map<B>(f: A -> B): (r: Log<B>)
      ensures r.ptr == ptr
      ensures r.Checkpoint? == Checkpoint? && r.ReceivedFund? == ReceivedFund? && r.SpentFund? == SpentFund?
      ensures !Checkpoint? ==> r.utxo.ExtractTxin() == utxo.ExtractTxin()
      ensures !Checkpoint? ==> r.utxo.creditedValue == utxo.creditedValue
    {
      match this
      case Checkpoint(p) => Checkpoint(p)
      case ReceivedFund(p, u) => ReceivedFund(p, u.Map(f))
      case SpentFund(p, u) => SpentFund(p, u.Map(f))
    }

    function Tag(): u32 {
      match this
      case Checkpoint(_) => TAG_CHECKPOINT
      case ReceivedFund(_, _) => TAG_RECEIVED_FUND
      case SpentFund(_, _) => TAG_SPENT_FUND
    }
  }

  /** The YAML encoding of a UTxO payload; its format is not part of this model. */
  datatype YamlCodec<!A> = YamlCodec(toYaml: UTxO<A> -> Option<seq<byte>>, fromYaml: seq<byte> -> Option<UTxO<A>>)

  /** Parsing what was written gives the UTxO back. */
  ghost predicate Sound<A(!new)>(codec: YamlCodec<A>) {
    forall u :: codec.toYaml(u).Some? ==> codec.fromYaml(codec.toYaml(u).value) == Some(u)
  }

  // ---------------------------------------------------------------------------
  // The 64-byte header
  // ---------------------------------------------------------------------------

  /** The (epoch, slot) words of a date; a boundary block's slot word is u64::MAX. */
  function DateWords(d: BlockDate): (u64, u64) {
    match d
    case Boundary(e) => (e, U64_MAX)
    case Normal(s) => (s.epoch, s.slotid)
  }

  /** The date a reader makes of the two words: u64::MAX is a boundary, anything else a slot cast to u16. */
  function DateOfWords(epoch: u64, slot: u64): BlockDate {
    if slot == U64_MAX then Boundary(epoch) else Normal(EpochSlotId(epoch, slot % 0x1_0000))
  }

  lemma DateWordsRoundTrip(d: BlockDate)
    ensures DateOfWords(DateWords(d).0, DateWords(d).1) == d
  {
  }

  /** The first 52 bytes of the header: the magic, the block hash and the date words. */
  function PointerBytes(ptr: StatePtr): (r: seq<byte>)
    ensures |r| == 52
  {
    var (epoch, slot) := DateWords(ptr.LatestBlockDate());
    MAGIC + ptr.latestKnownHash + EncodeU64(epoch) + EncodeU64(slot)
  }

  function HeaderBytes(ptr: StatePtr, tag: u32): (r: seq<byte>)
    ensures |r| == HEADER_SIZE
  {
    PointerBytes(ptr) + EncodeU32(tag) + EncodeU64(0)
  }

  /** The header's fields, at their byte offsets. */
  lemma HeaderFields(ptr: StatePtr, tag: u32, rest: seq<byte>)
    ensures var r := HeaderBytes(ptr, tag) + rest;
      && r[..4] == MAGIC
      && r[4..36] == ptr.latestKnownHash
      && DecodeBE(r[36..44]) == DateWords(ptr.LatestBlockDate()).0
      && DecodeBE(r[44..52]) == DateWords(ptr.LatestBlockDate()).1
      && DecodeBE(r[52..56]) == tag
      && DecodeBE(r[56..64]) == 0
      && r[64..] == rest
  {
    var (epoch, slot) := DateWords(ptr.LatestBlockDate());
    var r := HeaderBytes(ptr, tag) + rest;
    assert r == MAGIC + ptr.latestKnownHash + EncodeU64(epoch) + EncodeU64(slot) + EncodeU32(tag) + EncodeU64(0) + rest;
    assert r[36..44] == EncodeU64(epoch);
    assert r[44..52] == EncodeU64(slot);
    assert r[52..56] == EncodeU32(tag);
    assert r[56..64] == EncodeU64(0);
  }

  // ---------------------------------------------------------------------------
  // serialise / deserisalise
  // ---------------------------------------------------------------------------

  /** The record `serialise` produces: the header, then the YAML payload for funds. */
  function Encode<A>(log: Log<A>, codec: YamlCodec<A>): (r: Result<seq<byte>, LogError>)
    ensures r.Ok? ==> |r.value| >= HEADER_SIZE && r.value[..HEADER_SIZE] == HeaderBytes(log.ptr, log.Tag())
    ensures r.Ok? && log.Checkpoint? ==> |r.value| == HEADER_SIZE
    ensures r.Err? ==> r.error == LogFormatError && !log.Checkpoint?
  {
    match log
    case Checkpoint(p) => Ok(HeaderBytes(p, TAG_CHECKPOINT))
    case ReceivedFund(p, u) =>
      (match codec.toYaml(u)
       case None => Err(LogFormatError)
       case Some(y) => Ok(HeaderBytes(p, TAG_RECEIVED_FUND) + y))
    case SpentFund(p, u) =>
      (match codec.toYaml(u)
       case None => Err(LogFormatError)
       case Some(y) => Ok(HeaderBytes(p, TAG_SPENT_FUND) + y))
  }

  /** What reading one record gives: an event, an error, or a panic on an unknown type tag. */
  datatype Decoded<A> = Decoded(log: Log<A>) | DecodeFailed(error: LogError) | UnknownTag(tag: u32)

  /** `deserisalise`: magic first, then the rest of the header, then the payload. */
  function Decode<A>(bytes: seq<byte>, codec: YamlCodec<A>): (r: Decoded<A>)
    ensures |bytes| < 4 ==> r == DecodeFailed(LogError.IoError)
    ensures |bytes| >= 4 && bytes[..4] != MAGIC ==> r == DecodeFailed(UnsupportedLogFormat(bytes[..4]))
    ensures 4 <= |bytes| < HEADER_SIZE && bytes[..4] == MAGIC ==> r == DecodeFailed(LogError.IoError)
    ensures r.Decoded? ==> |bytes| >= HEADER_SIZE && r.log.ptr.latestKnownHash == bytes[4..36]
    ensures r.Decoded? ==> r.log.Tag() == DecodeBE(bytes[52..56])
    ensures r.UnknownTag? ==> r.tag !in {TAG_CHECKPOINT, TAG_RECEIVED_FUND, TAG_SPENT_FUND}
  {
    if |bytes| < 4 then DecodeFailed(LogError.IoError)
    else if bytes[..4] != MAGIC then DecodeFailed(UnsupportedLogFormat(bytes[..4]))
    else if |bytes| < HEADER_SIZE then DecodeFailed(LogError.IoError)
    else
      var hash: Hash := bytes[4..36];
      var ptr := NewStatePtr(DateOfWords(DecodeU64(bytes[36..44]), DecodeU64(bytes[44..52])), hash);
      var t := DecodeU32(bytes[52..56]);
      if t == TAG_CHECKPOINT then Decoded(Checkpoint(ptr))
      else if t == TAG_RECEIVED_FUND || t == TAG_SPENT_FUND then
        match codec.fromYaml(bytes[HEADER_SIZE..])
        case None => DecodeFailed(LogFormatError)
        case Some(u) => Decoded(if t == TAG_RECEIVED_FUND then ReceivedFund(ptr, u) else SpentFund(ptr, u))
      else UnknownTag(t)
  }

  /**
   * The pointer as stored: its date (epoch 0's boundary when it has none) and
   * its hash. A pointer without a date reads back with one.
   */
  function Stored(ptr: StatePtr): (r: StatePtr)
    ensures r == ptr <==> ptr.latestAddr.Some?
    ensures r.latestKnownHash == ptr.latestKnownHash && r.LatestBlockDate() == ptr.LatestBlockDate()
  {
    NewStatePtr(ptr.LatestBlockDate(), ptr.latestKnownHash)
  }

  /** The event as it reads back: same variant and UTxO, pointer as stored. */
  function Normalised<A>(log: Log<A>): Log<A> {
    match log
    case Checkpoint(p) => Checkpoint(Stored(p))
    case ReceivedFund(p, u) => ReceivedFund(Stored(p), u)
    case SpentFund(p, u) => SpentFund(Stored(p), u)
  }

  /** Round trip: decoding what `serialise` wrote gives the same event, its pointer as stored. */
  lemma DecodeEncode<A(!new)>(log: Log<A>, codec: YamlCodec<A>)
    requires Sound(codec) && Encode(log, codec).Ok?
    ensures Decode(Encode(log, codec).value, codec) == Decoded(Normalised(log))
  {
    var rest := Encode(log, codec).value[HEADER_SIZE..];
    assert Encode(log, codec).value == HeaderBytes(log.ptr, log.Tag()) + rest;
    HeaderFields(log.ptr, log.Tag(), rest);
    DateWordsRoundTrip(log.ptr.LatestBlockDate());
  }

  /** The first part of `serialise`: the magic, the hash, then the date as two u64 words. */
  method WritePointer(ptr: StatePtr) returns (writer: seq<byte>)
    ensures writer == PointerBytes(ptr)
  {
    writer := [];
    var date := ptr.LatestBlockDate();
    writer := writer + MAGIC;
    writer := writer + ptr.latestKnownHash;
    match date {
      case Boundary(i) =>
        writer := writer + EncodeU64(i);
        writer := writer + EncodeU64(U64_MAX);
      case Normal(s) =>
        writer := writer + EncodeU64(s.epoch);
        writer := writer + EncodeU64(s.slotid);
    }
  }

  /** `serialise`: the pointer, the type tag, the reserved zero word, then the payload for funds. */
  method Serialise<A>(log: Log<A>, codec: YamlCodec<A>) returns (r: Result<seq<byte>, LogError>)
    ensures r == Encode(log, codec)
  {
    var writer := WritePointer(log.ptr);
    writer := writer + EncodeU32(log.Tag());
    writer := writer + EncodeU64(0);
    if !log.Checkpoint? {
      var payload := codec.toYaml(log.utxo);
      if payload.None? {
        return Err(LogFormatError);
      }
      writer := writer + payload.value;
    }
    r := Ok(writer);
  }

  /** Reads `n` bytes off the front of the slice, as `read_exact` does. */
  method ReadExact(reader: seq<byte>, n: nat) returns (r: Result<seq<byte>, LogError>, rest: seq<byte>)
    ensures r.Ok? <==> |reader| >= n
    ensures r.Ok? ==> r.value == reader[..n] && rest == reader[n..]
    ensures r.Err? ==> r.error == LogError.IoError
  {
    if |reader| < n {
      return Err(LogError.IoError), reader;
    }
    r, rest := Ok(reader[..n]), reader[n..];
  }

  /** `deserisalise`, advancing a cursor over the record; an unknown tag is a panic. */
  method Deserialise<A>(bytes: seq<byte>, codec: YamlCodec<A>) returns (r: Result<Log<A>, LogError>)
    requires !Decode(bytes, codec).UnknownTag?
    ensures r.Ok? ==> Decode(bytes, codec) == Decoded(r.value)
    ensures r.Err? ==> Decode(bytes, codec) == DecodeFailed(r.error)
  {
    var reader := bytes;
    var magic;
    magic, reader := ReadExact(reader, 4);
    if magic.Err? {
      return Err(magic.error);
    }
    if magic.value != MAGIC {
      return Err(UnsupportedLogFormat(magic.value));
    }
    var hash, gen, slot, tag, reserved;
    hash, reader := ReadExact(reader, 32);
    gen, reader := ReadExact(reader, 8);
    slot, reader := ReadExact(reader, 8);
    tag, reader := ReadExact(reader, 4);
    reserved, reader := ReadExact(reader, 8);
    if hash.Err? || gen.Err? || slot.Err? || tag.Err? || reserved.Err? {
      return Err(LogError.IoError);
    }
    assert bytes[4..36] == hash.value && bytes[36..44] == gen.value && bytes[44..52] == slot.value;
    assert bytes[52..56] == tag.value && bytes[HEADER_SIZE..] == reader;
    var ptr := NewStatePtr(DateOfWords(DecodeU64(gen.value), DecodeU64(slot.value)), hash.value);
    var t := DecodeU32(tag.value);
    if t == TAG_CHECKPOINT {
      return Ok(Checkpoint(ptr));
    }
    var payload := codec.fromYaml(reader);
    if payload.None? {
      return Err(LogFormatError);
    }
    if t == TAG_RECEIVED_FUND {
      r := Ok(ReceivedFund(ptr, payload.value));
    } else {
      r := Ok(SpentFund(ptr, payload.value));
    }
  }

  // ---------------------------------------------------------------------------
  // Reading and writing the whole log
  // ---------------------------------------------------------------------------

  /** What `LogReader::next` gives at record `pos`: the event, an error, or the end as `Ok(None)`. */
  function NextAt<A>(f: RecordFile, codec: YamlCodec<A>, pos: nat): (r: Result<Option<Log<A>>, LogError>)
    requires pos < |f.records| ==> !Decode(f.records[pos], codec).UnknownTag?
    ensures r == Ok(None) <==> pos >= |f.records| && f.failure.None?
    ensures r.Ok? && r.value.Some? ==> pos < |f.records| && Decode(f.records[pos], codec) == Decoded(r.value.value)
    ensures r.Err? && pos >= |f.records| ==> r.error == FromAppendError(f.failure.value)
  {
    if pos < |f.records| then
      match Decode(f.records[pos], codec)
      case Decoded(l) => Ok(Some(l))
      case DecodeFailed(e) => Err(e)
    else if f.failure.Some? then Err(FromAppendError(f.failure.value))
    else Ok(None)
  }

  /** `LogIterator::next`: an error is an item, the end of the records is the end of iteration. */
  function IteratorItem<A>(r: Result<Option<Log<A>>, LogError>): (item: Option<Result<Log<A>, LogError>>)
    ensures item.None? <==> r == Ok(None)
    ensures item.Some? && item.value.Ok? <==> r.Ok? && r.value.Some?
    ensures r.Err? ==> item == Some(Err(r.error))
  {
    match r
    case Err(e) => Some(Err(e))
    case Ok(None) => None
    case Ok(Some(l)) => Some(Ok(l))
  }

  datatype StreamEnd = Ended | ReadFailed(error: LogError) | BadTag(tag: u32)

  /** The events a reader yields, in file order, up to the first error, and how the stream ends. */
  datatype LogStream<A> = LogStream(logs: seq<Log<A>>, end: StreamEnd)

  function ReadLogs<A>(records: seq<Record>, failure: Option<Types.AppendError>, codec: YamlCodec<A>): (s: LogStream<A>)
    ensures |s.logs| <= |records|
    ensures s.end == Ended ==> failure.None? && |s.logs| == |records|
  {
    if records == [] then
      LogStream([], if failure.Some? then ReadFailed(FromAppendError(failure.value)) else Ended)
    else match Decode(records[0], codec)
      case DecodeFailed(e) => LogStream([], ReadFailed(e))
      case UnknownTag(t) => LogStream([], BadTag(t))
      case Decoded(l) =>
        var s := ReadLogs(records[1..], failure, codec);
        LogStream([l] + s.logs, s.end)
  }

  /** The records successive `LogWriter::append` calls write, stopping at the first encoding error. */
  function WriteLogs<A>(logs: seq<Log<A>>, codec: YamlCodec<A>): (r: Result<seq<Record>, LogError>)
    ensures r.Ok? ==> |r.value| == |logs|
  {
    if logs == [] then Ok([])
    else match Encode(logs[0], codec)
      case Err(e) => Err(e)
      case Ok(b) =>
        match WriteLogs(logs[1..], codec)
        case Err(e) => Err(e)
        case Ok(bs) => Ok([b] + bs)
  }

  function NormalisedAll<A>(logs: seq<Log<A>>): (r: seq<Log<A>>)
    ensures |r| == |logs|
    ensures forall i :: 0 <= i < |logs| ==> r[i] == Normalised(logs[i])
  {
    if logs == [] then [] else [Normalised(logs[0])] + NormalisedAll(logs[1..])
  }

  /** A log file written by `LogWriter::append` reads back as the same events, pointers as stored. */
  lemma {:induction false} ReadWrittenLogs<A(!new)>(logs: seq<Log<A>>, codec: YamlCodec<A>)
    requires Sound(codec) && WriteLogs(logs, codec).Ok?
    ensures ReadLogs(WriteLogs(logs, codec).value, None, codec) == LogStream(NormalisedAll(logs), Ended)
  {
    if logs != [] {
      DecodeEncode(logs[0], codec);
      ReadWrittenLogs(logs[1..], codec);
    }
  }
}
