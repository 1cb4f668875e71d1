/**
 * The staging transaction: an event-sourced aggregate. Every operation is
 * first appended to the staging file (after a "TRANSACTION_V1" record and a
 * protocol-magic record), then folded into the live `Transaction`, then
 * pushed to the in-memory operation list. Reading the file back runs the
 * same fold; the class invariant `Valid` says that reading the file gives
 * back exactly the live state.
 */
module StagingTransactionCore {
  import opened Types
  import opened TransactionCore

  /** The bytes of "TRANSACTION_V1", the first record of every staging file. */
  const MAGIC_TRANSACTION_V1: seq<byte> :=
    [0x54, 0x52, 0x41, 0x4E, 0x53, 0x41, 0x43, 0x54, 0x49, 0x4F, 0x4E, 0x5F, 0x56, 0x31]

  /** The staging transaction's identifier (opaque). */
  datatype StagingId = StagingId(value: nat)

  /** A failure decoding one operation record (opaque). */
  datatype ParsingOperationError = ParsingOperationError(code: nat)

  /** The operation's binary encoding; its format is not part of this model. */
  datatype OpCodec = OpCodec(
    serialize: Operation -> Record,
    deserialize: Record -> Result<Operation, ParsingOperationError>)

  /** Decoding an encoded operation gives it back. */
  ghost predicate Sound(codec: OpCodec) {
    forall op :: codec.deserialize(codec.serialize(op)) == Ok(op)
  }

  datatype ParseError =
    | AppendFile(appendError: AppendError)
    | NoMagic
    | MissingProtocolMagic
    | InvalidMagic(bytes: seq<byte>)
    | Operation(operationError: ParsingOperationError)

  /** The two records `new_with` writes: the magic, then the protocol magic as a u32. */
  function Header(protocolMagic: u32): seq<Record> {
    [MAGIC_TRANSACTION_V1, EncodeU32(protocolMagic)]
  }

  function EncodeOps(codec: OpCodec, ops: seq<TransactionCore.Operation>): (r: seq<Record>)
    ensures |r| == |ops|
  {
    seq(|ops|, i requires 0 <= i < |ops| => codec.serialize(ops[i]))
  }

  lemma EncodeOpsSnoc(codec: OpCodec, ops: seq<TransactionCore.Operation>, op: TransactionCore.Operation)
    ensures EncodeOps(codec, ops + [op]) == EncodeOps(codec, ops) + [codec.serialize(op)]
  {
    assert (ops + [op])[..|ops|] == ops;
  }

  /** `read_u32` on a record: its first four bytes, big-endian; a shorter record is an I/O error. */
  function ReadU32(bytes: Record): (r: Result<u32, ParseError>)
    ensures r.Ok? <==> |bytes| >= 4
  {
    if |bytes| < 4 then Err(AppendFile(IoError)) else Ok(DecodeBE(bytes[..4]))
  }

  /** The state of the replay loop of `read_from_file`. */
  datatype Replaying =
    | Replaying(operations: seq<TransactionCore.Operation>, tx: Tx)
    | BadOperation(error: ParsingOperationError)
    | ReplayPanicked

  /** Decodes and applies the operation records in order, stopping at the first bad record or panic. */
  function ReplayRecords(codec: OpCodec, records: seq<Record>): Replaying
  {
    if records == [] then Replaying([], Empty())
    else match ReplayRecords(codec, records[..|records| - 1])
      case Replaying(ops, tx) =>
        (match codec.deserialize(records[|records| - 1])
         case Err(e) => BadOperation(e)
         case Ok(op) =>
           var s := Apply(tx, op);
           if s.outcome.Panicked? then ReplayPanicked else Replaying(ops + [op], s.tx))
      case stopped => stopped
  }

  /** What `read_from_file` makes of a staging file. */
  datatype ReadOutcome =
    | Read(protocolMagic: u32, operations: seq<TransactionCore.Operation>, tx: Tx)
    | Failed(error: ParseError)
    | Panics

  function ReadSpec(f: RecordFile, codec: OpCodec): (r: ReadOutcome)
    ensures f.records == [] && f.failure.None? ==> r == Failed(NoMagic)
    ensures f.records != [] && f.records[0] != MAGIC_TRANSACTION_V1 ==> r == Failed(InvalidMagic(f.records[0]))
    ensures f.records == [MAGIC_TRANSACTION_V1] && f.failure.None? ==> r == Failed(MissingProtocolMagic)
    ensures r.Read? ==> f.failure.None? && |f.records| >= 2 && f.records[0] == MAGIC_TRANSACTION_V1
  {
    var recs := f.records;
    if recs == [] then
      Failed(if f.failure.Some? then AppendFile(f.failure.value) else NoMagic)
    else if recs[0] != MAGIC_TRANSACTION_V1 then Failed(InvalidMagic(recs[0]))
    else if |recs| == 1 then
      Failed(if f.failure.Some? then AppendFile(f.failure.value) else MissingProtocolMagic)
    else match ReadU32(recs[1])
      case Err(e) => Failed(e)
      case Ok(pm) =>
        match ReplayRecords(codec, recs[2..])
        case BadOperation(e) => Failed(Operation(e))
        case ReplayPanicked => Panics
        case Replaying(ops, tx) =>
          if f.failure.Some? then Failed(AppendFile(f.failure.value)) else Read(pm, ops, tx)
  }

  // ---------------------------------------------------------------------------
  // Replay equals live
  // ---------------------------------------------------------------------------

  /** The replay loop computes the fold of `update_with` over the operations it decoded. */
  lemma {:induction false} ReplayRecordsIsReplay(codec: OpCodec, records: seq<Record>)
    requires ReplayRecords(codec, records).Replaying?
    ensures Replay(ReplayRecords(codec, records).operations) == Some(ReplayRecords(codec, records).tx)
  {
    if records != [] {
      var init := records[..|records| - 1];
      ReplayRecordsIsReplay(codec, init);
      var ops := ReplayRecords(codec, init).operations;
      var op := ReplayRecords(codec, records).operations[|ops|];
      assert ReplayRecords(codec, records).operations == ops + [op];
      assert (ops + [op])[..|ops|] == ops;
    }
  }

  /**
   * The records are a staging file that reads back, without error, as
   * protocol magic `pm`, operations `ops` and transaction `tx`.
   */
  ghost predicate ReadsBack(records: seq<Record>, codec: OpCodec, pm: u32, ops: seq<TransactionCore.Operation>, tx: Tx) {
    |records| >= 2 && records[0] == MAGIC_TRANSACTION_V1 && ReadU32(records[1]) == Ok(pm)
    && ReplayRecords(codec, records[2..]) == Replaying(ops, tx)
  }

  lemma ReadsBackIsRead(records: seq<Record>, codec: OpCodec, pm: u32, ops: seq<TransactionCore.Operation>, tx: Tx)
    ensures ReadsBack(records, codec, pm, ops, tx) <==> ReadSpec(RecordFile(records, None), codec) == Read(pm, ops, tx)
  {
  }

  /** A freshly created staging file reads back as an empty transaction. */
  lemma ReadHeader(codec: OpCodec, protocolMagic: u32)
    ensures ReadsBack(Header(protocolMagic), codec, protocolMagic, [], Empty())
  {
    var h := Header(protocolMagic);
    assert h[2..] == [];
    assert EncodeU32(protocolMagic)[..4] == EncodeU32(protocolMagic);
  }

  /**
   * Appending an operation's record to a file that reads back as `(ops, tx)`
   * gives a file that reads back as `(ops + [op], update_with(tx, op))`.
   */
  lemma ReadAppended(codec: OpCodec, records: seq<Record>, op: TransactionCore.Operation,
                     pm: u32, ops: seq<TransactionCore.Operation>, tx: Tx)
    requires Sound(codec) && ReadsBack(records, codec, pm, ops, tx)
    requires !Apply(tx, op).outcome.Panicked?
    ensures ReadsBack(records + [codec.serialize(op)], codec, pm, ops + [op], Apply(tx, op).tx)
  {
    var more := records + [codec.serialize(op)];
    assert more[0] == records[0] && more[1] == records[1];
    assert more[2..] == records[2..] + [codec.serialize(op)];
    assert more[2..][..|more[2..]| - 1] == records[2..];
  }

  /** Reading back the header and the records of `ops` replays `ops`. */
  lemma {:induction false} ReadWritten(codec: OpCodec, protocolMagic: u32, ops: seq<TransactionCore.Operation>)
    requires Sound(codec) && Replay(ops).Some?
    ensures ReadsBack(Header(protocolMagic) + EncodeOps(codec, ops), codec, protocolMagic, ops, Replay(ops).value)
    ensures ReadSpec(RecordFile(Header(protocolMagic) + EncodeOps(codec, ops), None), codec)
         == Read(protocolMagic, ops, Replay(ops).value)
  {
    if ops == [] {
      ReadHeader(codec, protocolMagic);
      assert Header(protocolMagic) + EncodeOps(codec, ops) == Header(protocolMagic);
    } else {
      var init := ops[..|ops| - 1];
      var op := ops[|ops| - 1];
      assert init + [op] == ops;
      RunSnoc(Empty(), init, op);
      ReadWritten(codec, protocolMagic, init);
      var prev := Header(protocolMagic) + EncodeOps(codec, init);
      ReadAppended(codec, prev, op, protocolMagic, init, Replay(init).value);
      assert Header(protocolMagic) + EncodeOps(codec, ops) == prev + [codec.serialize(op)];
    }
    ReadsBackIsRead(Header(protocolMagic) + EncodeOps(codec, ops), codec, protocolMagic, ops, Replay(ops).value);
  }

  /** One more record: the step the replay loop takes. */
  lemma ReplayRecordsStep(codec: OpCodec, records: seq<Record>, k: nat)
    requires k < |records|
    ensures ReplayRecords(codec, records[..k + 1]) == match ReplayRecords(codec, records[..k])
      case Replaying(ops, tx) =>
        (match codec.deserialize(records[k])
         case Err(e) => BadOperation(e)
         case Ok(op) => if Apply(tx, op).outcome.Panicked? then ReplayPanicked else Replaying(ops + [op], Apply(tx, op).tx))
      case stopped => stopped
  {
    assert records[..k + 1][..k] == records[..k];
  }

  /** Once the replay loop stops at a bad record or a panic, later records change nothing. */
  lemma {:induction false} ReplayStopped(codec: OpCodec, records: seq<Record>, k: nat)
    requires k <= |records| && !ReplayRecords(codec, records[..k]).Replaying?
    ensures ReplayRecords(codec, records) == ReplayRecords(codec, records[..k])
    decreases |records| - k
  {
    if k < |records| {
      assert records[..k + 1][..k] == records[..k];
      ReplayStopped(codec, records, k + 1);
    } else {
      assert records[..k] == records;
    }
  }

  // ---------------------------------------------------------------------------
  // remove_outputs_for
  // ---------------------------------------------------------------------------

  /**
   * The operations `remove_outputs_for` appends: one `RemoveOutput` per
   * output with the address, at the position it has once the earlier
   * matches are gone.
   */
  function RemovalOps(outputs: seq<Output>, address: ExtendedAddr): seq<TransactionCore.Operation>
    requires |outputs| <= U32_MAX as int + 1
  {
    if outputs == [] then []
    else
      var init := outputs[..|outputs| - 1];
      RemovalOps(init, address)
        + (if outputs[|outputs| - 1].address == address
           then [RemoveOutput(|Without(init, OutputAddress, address)|)] else [])
  }

  /** The removal operations delete exactly the outputs with the address, keeping the others in order. */
  lemma {:induction false} RemovalOpsRemoveExactly(t: Tx, outputs: seq<Output>, rest: seq<Output>, address: ExtendedAddr)
    requires |outputs| <= U32_MAX as int + 1
    requires t.outputs == outputs + rest
    ensures Run(t, RemovalOps(outputs, address))
         == Some(t.(outputs := Without(outputs, OutputAddress, address) + rest))
  {
    if outputs != [] {
      var init := outputs[..|outputs| - 1];
      var last := outputs[|outputs| - 1];
      assert outputs == init + [last];
      RemovalOpsRemoveExactly(t, init, [last] + rest, address);
      var kept := Without(init, OutputAddress, address);
      assert kept + ([last] + rest) == kept + [last] + rest;
      var u := t.(outputs := kept + [last] + rest);
      if last.address == address {
        var op := RemoveOutput(|kept|);
        assert RemovalOps(outputs, address) == RemovalOps(init, address) + [op];
        assert Without(outputs, OutputAddress, address) == kept;
        RunSnoc(t, RemovalOps(init, address), op);
        RemoveOutputSplices(u, kept, last, rest);
      } else {
        assert RemovalOps(outputs, address) == RemovalOps(init, address);
        assert Without(outputs, OutputAddress, address) == kept + [last];
      }
    }
  }

  /** Removing the output at `|kept|` splices it out. */
  lemma RemoveOutputSplices(u: Tx, kept: seq<Output>, last: Output, rest: seq<Output>)
    requires |kept| <= U32_MAX as int
    requires u.outputs == kept + [last] + rest
    ensures Apply(u, RemoveOutput(|kept|)) == Step(u.(outputs := kept + rest), Applied)
  {
    assert u.outputs[..|kept|] + u.outputs[|kept| + 1..] == kept + rest;
  }

  /** One more output considered: a `RemoveOutput` is added exactly when it has the address. */
  lemma RemovalOpsStep(orig: seq<Output>, address: ExtendedAddr, done: nat)
    requires done < |orig| <= U32_MAX as int + 1
    ensures RemovalOps(orig[..done + 1], address) == RemovalOps(orig[..done], address)
      + (if orig[done].address == address
         then [RemoveOutput(|Without(orig[..done], OutputAddress, address)|)] else [])
  {
    assert orig[..done + 1][..done] == orig[..done];
  }

  /** Where `remove_outputs_for` stands: the transaction, the operation list, the file and the index. */
  datatype Removal = Removal(tx: Tx, ops: seq<TransactionCore.Operation>, file: seq<Record>, index: nat)

  /** One iteration of `remove_outputs_for` on output `o`, the one at `s.index`. */
  function Consider(s: Removal, o: Output, address: ExtendedAddr, codec: OpCodec): (n: Removal)
    requires s.index <= U32_MAX
    ensures n.index == s.index || n.index == s.index + 1
  {
    if o.address != address then s.(index := s.index + 1)
    else
      var op := RemoveOutput(s.index);
      Removal(Apply(s.tx, op).tx, s.ops + [op], s.file + [codec.serialize(op)], s.index)
  }

  /** The loop of `remove_outputs_for` after looking at the first `done` outputs of `orig`. */
  ghost function RemovalAfter(orig: seq<Output>, address: ExtendedAddr, codec: OpCodec, init: Removal, done: nat): (s: Removal)
    requires done <= |orig| <= U32_MAX as int + 1
    requires init.index == 0
    ensures s.index <= done
    decreases done
  {
    if done == 0 then init
    else Consider(RemovalAfter(orig, address, codec, init, done - 1), orig[done - 1], address, codec)
  }

  /** The state after the first `done` outputs: their matches removed, their `RemovalOps` recorded and written. */
  ghost function Removed(orig: seq<Output>, address: ExtendedAddr, codec: OpCodec,
                         start: Tx, ops0: seq<TransactionCore.Operation>, file0: seq<Record>, done: nat): Removal
    requires done <= |orig| <= U32_MAX as int + 1
  {
    Removal(start.(outputs := Without(orig[..done], OutputAddress, address) + orig[done..]),
            ops0 + RemovalOps(orig[..done], address),
            file0 + EncodeOps(codec, RemovalOps(orig[..done], address)),
            |Without(orig[..done], OutputAddress, address)|)
  }

  /** Considering the next output takes the state after `k` outputs to the state after `k + 1`. */
  lemma ConsiderNext(orig: seq<Output>, address: ExtendedAddr, codec: OpCodec,
                     start: Tx, ops0: seq<TransactionCore.Operation>, file0: seq<Record>, k: nat)
    requires k < |orig| <= U32_MAX as int + 1
    ensures Removed(orig, address, codec, start, ops0, file0, k).index <= U32_MAX
    ensures Consider(Removed(orig, address, codec, start, ops0, file0, k), orig[k], address, codec)
         == Removed(orig, address, codec, start, ops0, file0, k + 1)
  {
    if orig[k].address == address {
      ConsiderMatch(orig, address, codec, start, ops0, file0, k);
    } else {
      ConsiderSkip(orig, address, codec, start, ops0, file0, k);
    }
  }

  lemma ConsiderMatch(orig: seq<Output>, address: ExtendedAddr, codec: OpCodec,
                      start: Tx, ops0: seq<TransactionCore.Operation>, file0: seq<Record>, k: nat)
    requires k < |orig| <= U32_MAX as int + 1
    requires orig[k].address == address
    ensures Removed(orig, address, codec, start, ops0, file0, k).index <= U32_MAX
    ensures Consider(Removed(orig, address, codec, start, ops0, file0, k), orig[k], address, codec)
         == Removed(orig, address, codec, start, ops0, file0, k + 1)
  {
    var kept := Without(orig[..k], OutputAddress, address);
    var ops := RemovalOps(orig[..k], address);
    ConsiderRemoves(start, kept, orig[k..], ops0 + ops, file0 + EncodeOps(codec, ops), address, codec);
    RemovedMatch(orig, address, codec, start, ops0, file0, k);
  }

  /** After an output with the address, the state is the one before with that output spliced out and one more operation. */
  lemma RemovedMatch(orig: seq<Output>, address: ExtendedAddr, codec: OpCodec,
                     start: Tx, ops0: seq<TransactionCore.Operation>, file0: seq<Record>, k: nat)
    requires k < |orig| <= U32_MAX as int + 1
    requires orig[k].address == address
    ensures var kept := Without(orig[..k], OutputAddress, address);
      var ops := RemovalOps(orig[..k], address);
      var op := RemoveOutput(|kept|);
      Removed(orig, address, codec, start, ops0, file0, k + 1)
        == Removal(start.(outputs := kept + orig[k..][1..]), ops0 + ops + [op],
                   file0 + EncodeOps(codec, ops) + [codec.serialize(op)], |kept|)
  {
    var kept := Without(orig[..k], OutputAddress, address);
    var ops := RemovalOps(orig[..k], address);
    var op := RemoveOutput(|kept|);
    WithoutStep(orig, OutputAddress, address, k);
    assert OutputAddress(orig[k]) == address;
    assert orig[k..][1..] == orig[k + 1..];
    RemovalOpsStep(orig, address, k);
    EncodeOpsSnoc(codec, ops, op);
    assert ops0 + ops + [op] == ops0 + (ops + [op]);
    assert file0 + EncodeOps(codec, ops) + [codec.serialize(op)] == file0 + (EncodeOps(codec, ops) + [codec.serialize(op)]);
  }

  lemma ConsiderSkip(orig: seq<Output>, address: ExtendedAddr, codec: OpCodec,
                     start: Tx, ops0: seq<TransactionCore.Operation>, file0: seq<Record>, k: nat)
    requires k < |orig| <= U32_MAX as int + 1
    requires orig[k].address != address
    ensures Removed(orig, address, codec, start, ops0, file0, k).index <= U32_MAX
    ensures Consider(Removed(orig, address, codec, start, ops0, file0, k), orig[k], address, codec)
         == Removed(orig, address, codec, start, ops0, file0, k + 1)
  {
    var kept := Without(orig[..k], OutputAddress, address);
    var ops := RemovalOps(orig[..k], address);
    WithoutStep(orig, OutputAddress, address, k);
    assert OutputAddress(orig[k]) != address;
    var kept1 := Without(orig[..k + 1], OutputAddress, address);
    assert kept1 == kept + [orig[k]];
    assert kept1 + orig[k + 1..] == kept + orig[k..];
    RemovalOpsStep(orig, address, k);
    assert RemovalOps(orig[..k + 1], address) == ops;
  }

  /** Considering an output with the address removes it from the transaction and records one `RemoveOutput`. */
  lemma ConsiderRemoves(start: Tx, kept: seq<Output>, rest: seq<Output>, ops: seq<TransactionCore.Operation>,
                        file: seq<Record>, address: ExtendedAddr, codec: OpCodec)
    requires |kept| <= U32_MAX && rest != [] && rest[0].address == address
    ensures Consider(Removal(start.(outputs := kept + rest), ops, file, |kept|), rest[0], address, codec)
         == Removal(start.(outputs := kept + rest[1..]), ops + [RemoveOutput(|kept|)],
                    file + [codec.serialize(RemoveOutput(|kept|))], |kept|)
  {
    assert kept + rest == kept + [rest[0]] + rest[1..];
    RemoveOutputSplices(start.(outputs := kept + rest), kept, rest[0], rest[1..]);
  }

  /**
   * After `done` outputs the matches among them are gone from the
   * transaction, and the operations recorded and written are those of
   * `RemovalOps`.
   */
  lemma {:induction false} RemovalAfterIs(orig: seq<Output>, address: ExtendedAddr, codec: OpCodec,
                                          start: Tx, ops0: seq<TransactionCore.Operation>, file0: seq<Record>, done: nat)
    requires done <= |orig| <= U32_MAX as int + 1
    requires start.outputs == orig
    ensures RemovalAfter(orig, address, codec, Removal(start, ops0, file0, 0), done)
         == Removed(orig, address, codec, start, ops0, file0, done)
  {
    if done == 0 {
      RemovedNone(orig, address, codec, start, ops0, file0);
    } else {
      RemovalAfterIs(orig, address, codec, start, ops0, file0, done - 1);
      ConsiderNext(orig, address, codec, start, ops0, file0, done - 1);
    }
  }

  /** Before any output is looked at, nothing has changed. */
  lemma RemovedNone(orig: seq<Output>, address: ExtendedAddr, codec: OpCodec,
                    start: Tx, ops0: seq<TransactionCore.Operation>, file0: seq<Record>)
    requires |orig| <= U32_MAX as int + 1
    requires start.outputs == orig
    ensures Removed(orig, address, codec, start, ops0, file0, 0) == Removal(start, ops0, file0, 0)
  {
    assert orig[..0] == [] && orig[0..] == orig;
    assert ops0 + [] == ops0 && file0 + [] == file0;
  }

  /** `s` is where the loop stands after looking at `done` outputs of `orig`, starting from `init`. */
  ghost predicate Tracks(orig: seq<Output>, address: ExtendedAddr, codec: OpCodec, init: Removal, done: nat, s: Removal) {
    done <= |orig| <= U32_MAX as int + 1 && init.index == 0 && init.tx.outputs == orig
    && s == Removed(orig, address, codec, init.tx, init.ops, init.file, done)
  }

  /** Inside the loop: the output at `index` is the next one of `orig`. */
  lemma RemovalLooking(orig: seq<Output>, address: ExtendedAddr, codec: OpCodec, init: Removal, done: nat, s: Removal)
    requires Tracks(orig, address, codec, init, done, s) && s.index != |s.tx.outputs|
    ensures done < |orig| && s.index < |s.tx.outputs| && s.tx.outputs[s.index] == orig[done]
  {
    var kept := Without(orig[..done], OutputAddress, address);
    assert |kept + orig[done..]| == |kept| + |orig| - done;
    assert (kept + orig[done..])[|kept|] == orig[done];
  }

  /**
   * When the index reaches the end of the outputs, every output of `orig`
   * has been looked at and the removals are exactly those of `RemovalOps`.
   */
  lemma RemovalDone(orig: seq<Output>, address: ExtendedAddr, codec: OpCodec, init: Removal, done: nat, s: Removal)
    requires Tracks(orig, address, codec, init, done, s) && s.index == |s.tx.outputs|
    ensures done == |orig|
    ensures s.tx == init.tx.(outputs := Without(orig, OutputAddress, address))
    ensures s.ops == init.ops + RemovalOps(orig, address)
    ensures s.file == init.file + EncodeOps(codec, RemovalOps(orig, address))
  {
    var kept := Without(orig[..done], OutputAddress, address);
    assert |kept + orig[done..]| == |kept| + |orig| - done;
    assert orig[..done] == orig;
    assert kept + orig[done..] == kept;
  }

  /**
   * From `(t0, ops0, file0)`, a prefix of the removal operations for `outputs`
   * has been logged: the list and the file gained exactly those operations,
   * and replaying them on `t0` gives `t`.
   */
  ghost predicate LoggedPrefix(outputs: seq<Output>, address: ExtendedAddr, codec: OpCodec,
                               t0: Tx, ops0: seq<TransactionCore.Operation>, file0: seq<Record>,
                               t: Tx, ops: seq<TransactionCore.Operation>, file: seq<Record>)
    requires |outputs| <= U32_MAX as int + 1
  {
    |file0| <= |file| <= |file0| + |RemovalOps(outputs, address)|
    && var logged := RemovalOps(outputs, address)[..|file| - |file0|];
       ops == ops0 + logged && file == file0 + EncodeOps(codec, logged) && Run(t0, logged) == Some(t)
  }

  /** The removal operations for the first `d` outputs are a prefix of those for all of them. */
  lemma {:induction false} RemovalOpsPrefix(orig: seq<Output>, address: ExtendedAddr, d: nat)
    requires d <= |orig| <= U32_MAX as int + 1
    ensures RemovalOps(orig[..d], address) <= RemovalOps(orig, address)
    decreases |orig| - d
  {
    if d == |orig| {
      assert orig[..d] == orig;
    } else {
      RemovalOpsPrefix(orig, address, d + 1);
      RemovalOpsStep(orig, address, d);
      var shorter := RemovalOps(orig[..d], address);
      var longer := RemovalOps(orig[..d + 1], address);
      var all := RemovalOps(orig, address);
      assert longer[..|shorter|] == shorter;
      assert all[..|shorter|] == longer[..|longer|][..|shorter|];
    }
  }

  /**
   * Wherever the loop stops, what it has logged is a prefix of `RemovalOps`:
   * those operations are in the list and the file, and they alone have been
   * applied. Stopping at an output with the address leaves at least one out.
   */
  lemma RemovalPartial(orig: seq<Output>, address: ExtendedAddr, codec: OpCodec, init: Removal, done: nat, s: Removal)
    requires Tracks(orig, address, codec, init, done, s)
    ensures LoggedPrefix(orig, address, codec, init.tx, init.ops, init.file, s.tx, s.ops, s.file)
    ensures done < |orig| && orig[done].address == address ==>
      |s.file| - |init.file| < |RemovalOps(orig, address)|
  {
    RemovalOpsPrefix(orig, address, done);
    RemovalOpsRemoveExactly(init.tx, orig[..done], orig[done..], address);
    assert orig[..done] + orig[done..] == orig;
    var pre := RemovalOps(orig[..done], address);
    assert |s.file| == |init.file| + |pre|;
    assert RemovalOps(orig, address)[..|pre|] == pre;
    if done < |orig| && orig[done].address == address {
      RemovalOpsStep(orig, address, done);
      RemovalOpsPrefix(orig, address, done + 1);
    }
  }

  /** With no output at the address, nothing is appended. */
  lemma {:induction false} RemovalOpsNone(outputs: seq<Output>, address: ExtendedAddr)
    requires |outputs| <= U32_MAX as int + 1
    requires forall i :: 0 <= i < |outputs| ==> outputs[i].address != address
    ensures RemovalOps(outputs, address) == []
  {
    if outputs != [] {
      RemovalOpsNone(outputs[..|outputs| - 1], address);
    }
  }

  // ---------------------------------------------------------------------------
  // import / export
  // ---------------------------------------------------------------------------

  /** What `export` hands out: no operation history, only the transaction. */
  datatype Export = Export(stagingId: StagingId, magic: string, protocolMagic: u32, transaction: Tx)

  /** The operations `import` replays: the inputs, then the outputs, then `Finalize` if flagged. */
  function ImportOps(t: Tx): seq<TransactionCore.Operation> {
    AddInputs(t.inputs) + AddOutputs(t.outputs) + (if t.finalized then [TransactionCore.Finalize] else [])
  }

  function AddInputs(ins: seq<Input>): (r: seq<TransactionCore.Operation>)
    ensures |r| == |ins|
  {
    seq(|ins|, i requires 0 <= i < |ins| => AddInput(ins[i]))
  }

  function AddOutputs(outs: seq<Output>): (r: seq<TransactionCore.Operation>)
    ensures |r| == |outs|
  {
    seq(|outs|, i requires 0 <= i < |outs| => AddOutput(outs[i]))
  }

  /**
   * One step of `import`'s input loop: the next input is not yet spent
   * when the inputs are distinct, and the prefix grows by it.
   */
  lemma ImportStep(ins: seq<Input>, k: nat)
    requires k < |ins|
    requires forall i, j :: 0 <= i < j < |ins| ==> ins[i].ExtractTxin() != ins[j].ExtractTxin()
    ensures LookupInput(ins[..k], ins[k].ExtractTxin()).None?
    ensures ins[..k + 1] == ins[..k] + [ins[k]]
    ensures AddInputs(ins[..k + 1]) == AddInputs(ins[..k]) + [AddInput(ins[k])]
  {
    assert forall j :: 0 <= j < k ==> ins[..k][j].ExtractTxin() != ins[k].ExtractTxin();
  }

  lemma AddOutputsStep(outs: seq<Output>, k: nat)
    requires k < |outs|
    ensures outs[..k + 1] == outs[..k] + [outs[k]]
    ensures AddOutputs(outs[..k + 1]) == AddOutputs(outs[..k]) + [AddOutput(outs[k])]
  {
  }

  /** Replaying the additions of `ins` to an open transaction appends them. */
  lemma {:induction false} ReplayInputs(t: Tx, ins: seq<Input>)
    requires !t.finalized
    ensures Run(t, AddInputs(ins)) == Some(t.(inputs := t.inputs + ins))
  {
    var ops := AddInputs(ins);
    if ins != [] {
      var init := ins[..|ins| - 1];
      ReplayInputs(t, init);
      assert ops[..|ops| - 1] == AddInputs(init);
      assert t.inputs + init + [ins[|ins| - 1]] == t.inputs + ins;
    } else {
      assert t.inputs + ins == t.inputs;
    }
  }

  /** Replaying the additions of `outs` to an open transaction appends them. */
  lemma {:induction false} ReplayOutputs(t: Tx, outs: seq<Output>)
    requires !t.finalized
    ensures Run(t, AddOutputs(outs)) == Some(t.(outputs := t.outputs + outs))
  {
    var ops := AddOutputs(outs);
    if outs != [] {
      var init := outs[..|outs| - 1];
      ReplayOutputs(t, init);
      assert ops[..|ops| - 1] == AddOutputs(init);
      assert t.outputs + init + [outs[|outs| - 1]] == t.outputs + outs;
    } else {
      assert t.outputs + outs == t.outputs;
    }
  }

  /** Replaying the additions of the inputs, then of the outputs, builds the open transaction holding them. */
  lemma ImportOpen(t: Tx)
    ensures Run(Empty(), AddInputs(t.inputs) + AddOutputs(t.outputs)) == Some(Tx(t.inputs, t.outputs, [], [], false))
  {
    ReplayInputs(Empty(), t.inputs);
    var t1 := Tx(t.inputs, [], [], [], false);
    assert Empty().(inputs := Empty().inputs + t.inputs) == t1;
    ReplayOutputs(t1, t.outputs);
    assert t1.(outputs := t1.outputs + t.outputs) == Tx(t.inputs, t.outputs, [], [], false);
    RunAppend(Empty(), AddInputs(t.inputs), AddOutputs(t.outputs));
  }

  /**
   * Importing an export restores its inputs, outputs and finalized flag;
   * its changes and witnesses are not restored.
   */
  lemma ImportRestores(t: Tx)
    ensures Replay(ImportOps(t)) == Some(Tx(t.inputs, t.outputs, [], [], t.finalized))
  {
    ImportOpen(t);
    var open := AddInputs(t.inputs) + AddOutputs(t.outputs);
    if t.finalized {
      RunSnoc(Empty(), open, TransactionCore.Finalize);
    } else {
      assert ImportOps(t) == open;
    }
  }

  // ---------------------------------------------------------------------------
  // The staging transaction object
  // ---------------------------------------------------------------------------

  /** What opening a staging file gives: the object, an error, or a panic. */
  datatype Opening = Opened(staging: StagingTransaction) | OpenFailed(error: ParseError) | OpenPanicked

  /**
   * The storage behind a staging file: it takes records until the file
   * holds `capacity` of them (without bound when `None`); from then on every
   * write fails with `error`. A lock or open failure is a capacity of zero.
   */
  datatype Disk = Disk(capacity: Option<nat>, error: AppendError)

  /** A write to a file of `size` records succeeds. */
  predicate Accepts(disk: Disk, size: nat) {
    disk.capacity.None? || size < disk.capacity.value
  }

  class StagingTransaction {
    const id: StagingId
    const protocolMagic: u32
    const codec: OpCodec
    /** Where the staging file is written. */
    const disk: Disk
    const transaction: Transaction
    var operations: seq<TransactionCore.Operation>
    /** The records written to the staging file so far. */
    var file: seq<Record>

    /** Reading the staging file back gives exactly the live state. */
    ghost predicate Valid()
      reads this, transaction
    {
      Sound(codec) && ReadsBack(file, codec, protocolMagic, operations, transaction.Model())
    }

    /** `append`'s effect: on a failed write nothing changes, otherwise file, projection and list all advance. */
    twostate predicate Appended(op: TransactionCore.Operation, new r: Result<(), AppendError>)
      reads this, transaction
    {
      if !Accepts(disk, |old(file)|) then
        r == Err(disk.error) && file == old(file) && operations == old(operations)
        && transaction.Model() == old(transaction.Model())
      else
        r == Ok(()) && file == old(file) + [codec.serialize(op)] && operations == old(operations) + [op]
        && transaction.Model() == Apply(old(transaction.Model()), op).tx
    }

    constructor Init(id: StagingId, protocolMagic: u32, codec: OpCodec, disk: Disk,
                     operations: seq<TransactionCore.Operation>, file: seq<Record>, transaction: Transaction)
      ensures this.id == id && this.protocolMagic == protocolMagic && this.codec == codec
      ensures this.disk == disk && this.operations == operations
      ensures this.file == file && this.transaction == transaction
    {
      this.id := id;
      this.protocolMagic := protocolMagic;
      this.codec := codec;
      this.disk := disk;
      this.operations := operations;
      this.file := file;
      this.transaction := transaction;
    }

    /** `new_with`: writes the magic and protocol-magic records; no operations yet. */
    static method NewWith(protocolMagic: u32, id: StagingId, codec: OpCodec, disk: Disk)
      returns (r: Result<StagingTransaction, AppendError>)
      requires Sound(codec)
      ensures r.Err? <==> !Accepts(disk, 1)
      ensures r.Err? ==> r.error == disk.error
      ensures r.Ok? ==> fresh(r.value) && fresh(r.value.transaction) && r.value.Valid()
      ensures r.Ok? ==> r.value.id == id && r.value.protocolMagic == protocolMagic && r.value.codec == codec
      ensures r.Ok? ==> r.value.disk == disk && r.value.file == Header(protocolMagic)
      ensures r.Ok? ==> r.value.operations == [] && r.value.transaction.Model() == Empty()
    {
      if !Accepts(disk, 0) {
        return Err(disk.error);
      }
      var file := [MAGIC_TRANSACTION_V1];
      if !Accepts(disk, 1) {
        return Err(disk.error);
      }
      file := file + [EncodeU32(protocolMagic)];
      var tx := new Transaction();
      var st := new StagingTransaction.Init(id, protocolMagic, codec, disk, [], file, tx);
      ReadHeader(codec, protocolMagic);
      r := Ok(st);
    }

    /** `append`: the file first, then the projection (its result discarded), then the operation list. */
    method Append(op: TransactionCore.Operation) returns (r: Result<(), AppendError>)
      requires Valid()
      requires !(op.RemoveOutput? && op.index == |transaction.outputs|)
      modifies this, transaction
      ensures Valid() && Appended(op, r)
    {
      if !Accepts(disk, |file|) {
        return Err(disk.error);
      }
      ReadAppended(codec, file, op, protocolMagic, operations, transaction.Model());
      file := file + [codec.serialize(op)];
      var _ := transaction.UpdateWith(op);
      operations := operations + [op];
      r := Ok(());
    }

    method Finalize() returns (r: Result<(), AppendError>)
      requires Valid()
      modifies this, transaction
      ensures Valid() && Appended(TransactionCore.Finalize, r)
    {
      r := Append(TransactionCore.Finalize);
    }

    method AddSignature(signature: Witness) returns (r: Result<(), AppendError>)
      requires Valid()
      modifies this, transaction
      ensures Valid() && Appended(Signature(signature), r)
    {
      r := Append(Signature(signature));
    }

    /** Adding an input already spent by the transaction is a double spend, which panics. */
    method AddInput(input: Input) returns (r: Result<(), AppendError>)
      requires Valid()
      requires LookupInput(transaction.inputs, input.ExtractTxin()).None?
      modifies this, transaction
      ensures Valid() && Appended(TransactionCore.AddInput(input), r)
    {
      r := Append(TransactionCore.AddInput(input));
    }

    /** A second change address panics. */
    method AddChange(change: Change) returns (r: Result<(), AppendError>)
      requires Valid()
      requires transaction.changes == []
      modifies this, transaction
      ensures Valid() && Appended(TransactionCore.AddChange(change), r)
    {
      r := Append(TransactionCore.AddChange(change));
    }

    method AddOutput(output: Output) returns (r: Result<(), AppendError>)
      requires Valid()
      modifies this, transaction
      ensures Valid() && Appended(TransactionCore.AddOutput(output), r)
    {
      r := Append(TransactionCore.AddOutput(output));
    }

    /** Removing an input the transaction does not spend panics. */
    method RemoveInput(txin: TxoPointer) returns (r: Result<(), AppendError>)
      requires Valid()
      requires LookupInput(transaction.inputs, txin).Some?
      modifies this, transaction
      ensures Valid() && Appended(TransactionCore.RemoveInput(txin), r)
    {
      r := Append(TransactionCore.RemoveInput(txin));
    }

    method RemoveChange(address: ExtendedAddr) returns (r: Result<(), AppendError>)
      requires Valid()
      modifies this, transaction
      ensures Valid() && Appended(TransactionCore.RemoveChange(address), r)
    {
      r := Append(TransactionCore.RemoveChange(address));
    }

    /** Removing an output at an index with no output panics. */
    method RemoveOutput(index: u32) returns (r: Result<(), AppendError>)
      requires Valid()
      requires index < |transaction.outputs|
      modifies this, transaction
      ensures Valid() && Appended(TransactionCore.RemoveOutput(index), r)
    {
      r := Append(TransactionCore.RemoveOutput(index));
    }

    /**
     * Removes every output with the given address, one `RemoveOutput`
     * operation each; stops at the first write error. The operations logged
     * up to that point are a prefix of `RemovalOps`: each of them is in the
     * file and the list and has been applied, and none after it.
     */
    method RemoveOutputsFor(address: ExtendedAddr) returns (r: Result<(), AppendError>)
      requires Valid()
      requires |transaction.outputs| <= U32_MAX
      modifies this, transaction
      ensures Valid()
      ensures LoggedPrefix(old(transaction.outputs), address, codec, old(transaction.Model()), old(operations), old(file),
                           transaction.Model(), operations, file)
      ensures r.Ok? <==> |file| - |old(file)| == |RemovalOps(old(transaction.outputs), address)|
      ensures r.Ok? ==>
        transaction.Model() == old(transaction.Model()).(outputs := Without(old(transaction.outputs), OutputAddress, address))
      ensures r.Err? ==> r.error == disk.error && !Accepts(disk, |file|)
      ensures |file| > |old(file)| ==> Accepts(disk, |file| - 1)
    {
      ghost var orig := transaction.outputs;
      ghost var init := Removal(transaction.Model(), operations, file, 0);
      ghost var done := 0;
      var index := 0;
      r := Ok(());
      while index != |transaction.outputs|
        invariant Valid() && Tracks(orig, address, codec, init, done, Removal(transaction.Model(), operations, file, index))
        invariant |file| > |init.file| ==> Accepts(disk, |file| - 1)
        invariant r == Ok(())
        decreases |orig| - done
      {
        ghost var s := Removal(transaction.Model(), operations, file, index);
        RemovalLooking(orig, address, codec, init, done, s);
        ConsiderNext(orig, address, codec, init.tx, init.ops, init.file, done);
        if transaction.outputs[index].address == address {
          r := RemoveOutput(index);
          if r.Err? {
            break;
          }
        } else {
          index := index + 1;
        }
        done := done + 1;
      }
      ghost var s := Removal(transaction.Model(), operations, file, index);
      if r.Ok? {
        RemovalDone(orig, address, codec, init, done, s);
      }
      RemovalPartial(orig, address, codec, init, done, s);
    }

    /** `export`: the identifiers, the hex magic and the transaction, without the history. */
    function ExportOf(): (e: Export)
      reads this, transaction
      ensures HexDecode(e.magic) == Some(MAGIC_TRANSACTION_V1)
      ensures e.transaction == transaction.Model()
    {
      HexRoundTrip(MAGIC_TRANSACTION_V1);
      Export(id, HexEncode(MAGIC_TRANSACTION_V1), protocolMagic, transaction.Model())
    }

    /**
     * `import`: a new staging file replaying the export's inputs, outputs and
     * finalization. Two inputs spending the same output panic as a double spend.
     */
    static method Import(exported: Export, codec: OpCodec, disk: Disk)
      returns (r: Result<StagingTransaction, AppendError>)
      requires Sound(codec)
      requires forall i, j :: 0 <= i < j < |exported.transaction.inputs| ==>
        exported.transaction.inputs[i].ExtractTxin() != exported.transaction.inputs[j].ExtractTxin()
      ensures r.Err? <==> !Accepts(disk, 1 + |ImportOps(exported.transaction)|)
      ensures r.Err? ==> r.error == disk.error
      ensures r.Ok? ==> fresh(r.value) && fresh(r.value.transaction) && r.value.Valid()
      ensures r.Ok? ==> r.value.operations == ImportOps(exported.transaction)
      ensures r.Ok? ==> r.value.transaction.Model() == Tx(exported.transaction.inputs, exported.transaction.outputs, [], [], exported.transaction.finalized)
    {
      var t := exported.transaction;
      r := NewWith(exported.protocolMagic, exported.stagingId, codec, disk);
      if r.Err? {
        return;
      }
      var st := r.value;
      var w := st.ImportInputs(t.inputs);
      if w.Err? {
        return Err(w.error);
      }
      w := st.ImportOutputs(t.inputs, t.outputs);
      if w.Err? {
        return Err(w.error);
      }
      if t.finalized {
        w := st.Finalize();
        if w.Err? {
          return Err(w.error);
        }
      }
      r := Ok(st);
    }

    /** `import`'s first loop: one `AddInput` per input of the export, on the new staging file. */
    method ImportInputs(ins: seq<Input>) returns (r: Result<(), AppendError>)
      requires Valid()
      requires operations == [] && transaction.Model() == Empty()
      requires forall i, j :: 0 <= i < j < |ins| ==> ins[i].ExtractTxin() != ins[j].ExtractTxin()
      modifies this, transaction
      ensures Valid()
      ensures r.Ok? <==> ins == [] || Accepts(disk, |old(file)| + |ins| - 1)
      ensures r.Err? ==> r.error == disk.error
      ensures r.Ok? ==> |file| == |old(file)| + |ins|
      ensures r.Ok? ==> transaction.Model() == Tx(ins, [], [], [], false)
      ensures r.Ok? ==> operations == AddInputs(ins)
    {
      assert ins[..0] == [];
      for k := 0 to |ins|
        invariant Valid() && |file| == |old(file)| + k
        invariant k > 0 ==> Accepts(disk, |file| - 1)
        invariant transaction.Model() == Tx(ins[..k], [], [], [], false)
        invariant operations == AddInputs(ins[..k])
      {
        ImportStep(ins, k);
        r := AddInput(ins[k]);
        if r.Err? {
          return;
        }
      }
      assert ins[..|ins|] == ins;
      r := Ok(());
    }

    /** `import`'s second loop: one `AddOutput` per output of the export. */
    method ImportOutputs(ins: seq<Input>, outs: seq<Output>) returns (r: Result<(), AppendError>)
      requires Valid()
      requires transaction.Model() == Tx(ins, [], [], [], false)
      requires operations == AddInputs(ins)
      modifies this, transaction
      ensures Valid()
      ensures r.Ok? <==> outs == [] || Accepts(disk, |old(file)| + |outs| - 1)
      ensures r.Err? ==> r.error == disk.error
      ensures r.Ok? ==> |file| == |old(file)| + |outs|
      ensures r.Ok? ==> transaction.Model() == Tx(ins, outs, [], [], false)
      ensures r.Ok? ==> operations == AddInputs(ins) + AddOutputs(outs)
    {
      assert outs[..0] == [];
      for k := 0 to |outs|
        invariant Valid() && |file| == |old(file)| + k
        invariant k > 0 ==> Accepts(disk, |file| - 1)
        invariant transaction.Model() == Tx(ins, outs[..k], [], [], false)
        invariant operations == AddInputs(ins) + AddOutputs(outs[..k])
      {
        AddOutputsStep(outs, k);
        r := AddOutput(outs[k]);
        if r.Err? {
          return;
        }
      }
      assert outs[..|outs|] == outs;
      r := Ok(());
    }

    /**
     * `read_from_file`: checks the two header records, then decodes and
     * applies every operation record in turn.
     */
    static method ReadFromFile(id: StagingId, f: RecordFile, codec: OpCodec, disk: Disk)
      returns (r: Opening)
      ensures ReadSpec(f, codec).Failed? ==> r == OpenFailed(ReadSpec(f, codec).error)
      ensures ReadSpec(f, codec).Panics? <==> r.OpenPanicked?
      ensures ReadSpec(f, codec).Read? ==> r.Opened? && fresh(r.staging) && fresh(r.staging.transaction)
      ensures ReadSpec(f, codec).Read? ==>
        r.staging.id == id && r.staging.codec == codec && r.staging.disk == disk
      ensures ReadSpec(f, codec).Read? ==>
        r.staging.file == f.records && r.staging.protocolMagic == ReadSpec(f, codec).protocolMagic
      ensures ReadSpec(f, codec).Read? ==>
        r.staging.operations == ReadSpec(f, codec).operations && r.staging.transaction.Model() == ReadSpec(f, codec).tx
      ensures ReadSpec(f, codec).Read? && Sound(codec) ==> r.staging.Valid()
    {
      var recs := f.records;
      if |recs| == 0 {
        return OpenFailed(if f.failure.Some? then AppendFile(f.failure.value) else NoMagic);
      }
      if recs[0] != MAGIC_TRANSACTION_V1 {
        return OpenFailed(InvalidMagic(recs[0]));
      }
      if |recs| == 1 {
        return OpenFailed(if f.failure.Some? then AppendFile(f.failure.value) else MissingProtocolMagic);
      }
      var pm := ReadU32(recs[1]);
      if pm.Err? {
        return OpenFailed(pm.error);
      }
      var operations: seq<TransactionCore.Operation> := [];
      var transaction := new Transaction();
      ghost var body := recs[2..];
      var pos := 2;
      while pos < |recs|
        invariant 2 <= pos <= |recs| && fresh(transaction)
        invariant ReplayRecords(codec, body[..pos - 2]) == Replaying(operations, transaction.Model())
      {
        var op := codec.deserialize(recs[pos]);
        ReplayRecordsStep(codec, body, pos - 2);
        if op.Err? {
          ReplayStopped(codec, body, pos - 1);
          return OpenFailed(Operation(op.error));
        }
        if op.value.RemoveOutput? && op.value.index == |transaction.outputs| {
          ReplayStopped(codec, body, pos - 1);
          return OpenPanicked;
        }
        operations := operations + [op.value];
        var _ := transaction.UpdateWith(op.value);
        pos := pos + 1;
      }
      assert body[..pos - 2] == body;
      if f.failure.Some? {
        return OpenFailed(AppendFile(f.failure.value));
      }
      var st := new StagingTransaction.Init(id, pm.value, codec, disk, operations, recs, transaction);
      r := Opened(st);
    }
  }
}
