/**
 * The wallet utilities that drive the state: synchronising the wallet with
 * the blockchain (which entries are appended to the wallet log, and in what
 * order) and loading the wallet state from its log, falling back to a fresh
 * state before genesis when the log is empty.
 *
 * The blocks come from the blockchain iterator as a sequence of
 * (pointer, transaction) pairs, the transaction identifier (a hash) is a
 * parameter, and the log writer is the sequence of entries appended.
 */
module WalletSync {
  import opened Types
  import opened WalletLog
  import opened WalletState

  /** The parts of a transaction the wallet reads. */
  datatype Tx = Tx(inputs: seq<TxoPointer>, outputs: seq<TxOut>)

  /** Every input of a transaction, paired with the transaction's pointer. */
  function InputsAt(p: StatePtr, inputs: seq<TxoPointer>): (r: seq<(StatePtr, TxoPointer)>)
    ensures |r| == |inputs|
    ensures forall i :: 0 <= i < |r| ==> r[i] == (p, inputs[i])
  {
    seq(|inputs|, i requires 0 <= i < |inputs| => (p, inputs[i]))
  }

  /**
   * Output `i` of a transaction as an unspent output: its pointer is the
   * transaction identifier and `i` cast to 32 bits, and both its credited
   * address and its addressing are the output's address.
   */
  function OutputsAt(p: StatePtr, id: TxId, outputs: seq<TxOut>): (r: seq<(StatePtr, UTxO<ExtendedAddr>)>)
    ensures |r| == |outputs|
    ensures forall i :: 0 <= i < |r| ==>
      && r[i].0 == p
      && r[i].1.ExtractTxin() == TxoPointer(id, i % 0x1_0000_0000)
      && r[i].1.creditedAddress == outputs[i].address && r[i].1.creditedAddressing == outputs[i].address
      && r[i].1.creditedValue == outputs[i].value
  {
    seq(|outputs|, i requires 0 <= i < |outputs| =>
      (p, UTxO(id, i % 0x1_0000_0000, outputs[i].address, outputs[i].value, outputs[i].address)))
  }

  // ---------------------------------------------------------------------------
  // Synchronisation (`update_wallet_state_with_utxos`)
  // ---------------------------------------------------------------------------

  /** The state of a synchronisation: the wallet state, the last block date seen and the entries written. */
  datatype SyncRun = SyncRun(
    ptr: StatePtr,
    engine: Engine,
    utxos: UTxOs,
    lastDate: BlockDate,
    written: seq<Log<Address>>,
    failure: Option<LookupError>)

  /** The block starts an epoch other than the last one seen. */
  predicate NewEpoch(lastDate: BlockDate, p: StatePtr) {
    p.latestAddr.Some? && lastDate.EpochId() != p.latestAddr.value.EpochId()
  }

  /** The entries and state of a transaction that is not skipped, with its checkpoint entries and date already decided. */
  function ForwardTx(s: SyncRun, checkpoint: seq<Log<Address>>, lastDate: BlockDate, id: TxId, p: StatePtr, tx: Tx): (r: SyncRun)
    ensures s.written <= r.written
  {
    var spent := SpendAll(s.utxos, InputsAt(p, tx.inputs));
    var rec := ReceiveAll(s.ptr, s.engine, spent.0, OutputsAt(p, id, tx.outputs));
    var written := s.written + checkpoint + spent.1;
    SyncRun(rec.ptr, rec.engine, rec.utxos, lastDate,
            if rec.failure.Some? then written else written + rec.events, rec.failure)
  }

  /**
   * One transaction: skipped when its block date is the start date;
   * otherwise a checkpoint when its epoch is new, then the spent entries,
   * then the received entries (none when the lookup fails).
   */
  function SyncTx(s: SyncRun, fromDate: BlockDate, txid: Tx -> TxId, p: StatePtr, tx: Tx): (r: SyncRun)
    requires s.failure.None?
    ensures s.written <= r.written
  {
    if p.latestAddr == Some(fromDate) then s
    else
      ForwardTx(s, if NewEpoch(s.lastDate, p) then [Checkpoint(p)] else [],
                if p.latestAddr.Some? then p.latestAddr.value else s.lastDate, txid(tx), p, tx)
  }

  /** The synchronisation over a sequence of blocks, which ends at the first lookup error. */
  function SyncAll(start: SyncRun, fromDate: BlockDate, txid: Tx -> TxId, blocks: seq<(StatePtr, Tx)>): (r: SyncRun)
    ensures start.written <= r.written
  {
    if blocks == [] then start
    else
      var r := SyncAll(start, fromDate, txid, blocks[..|blocks| - 1]);
      if r.failure.Some? then r
      else SyncTx(r, fromDate, txid, blocks[|blocks| - 1].0, blocks[|blocks| - 1].1)
  }

  /** The start of a synchronisation: the last block seen is the state's date, Boundary(0) when it has none. */
  function SyncStart(ptr: StatePtr, engine: Engine, utxos: UTxOs): (r: SyncRun)
    ensures r.lastDate == (if ptr.latestAddr.Some? then ptr.latestAddr.value else Boundary(0))
    ensures r.written == [] && r.failure.None?
  {
    SyncRun(ptr, engine, utxos, ptr.LatestBlockDate(), [], None)
  }

  /** Checkpoints come first, then spent entries, then received entries. */
  function Rank(e: Log<Address>): nat {
    match e
    case Checkpoint(_) => 0
    case SpentFund(_, _) => 1
    case ReceivedFund(_, _) => 2
  }

  /** A transaction in a block dated at the start date writes nothing and changes nothing. */
  lemma SyncTxSkips(s: SyncRun, fromDate: BlockDate, txid: Tx -> TxId, p: StatePtr, tx: Tx)
    requires s.failure.None? && p.latestAddr == Some(fromDate)
    ensures SyncTx(s, fromDate, txid, p, tx) == s
  {
  }

  /**
   * A transaction outside the start date writes a checkpoint exactly when its
   * block starts a new epoch, and a block with no date is never skipped and
   * never checkpointed.
   */
  lemma SyncTxCheckpoint(s: SyncRun, fromDate: BlockDate, txid: Tx -> TxId, p: StatePtr, tx: Tx)
    requires s.failure.None? && p.latestAddr != Some(fromDate)
    ensures var r := SyncTx(s, fromDate, txid, p, tx);
      var entries := r.written[|s.written|..];
      && ((|entries| > 0 && entries[0].Checkpoint?) <==> NewEpoch(s.lastDate, p))
      && (NewEpoch(s.lastDate, p) ==> entries[0] == Checkpoint(p))
      && r.lastDate == (if p.latestAddr.Some? then p.latestAddr.value else s.lastDate)
  {
    var checkpoint := if NewEpoch(s.lastDate, p) then [Checkpoint(p)] else [];
    var lastDate := if p.latestAddr.Some? then p.latestAddr.value else s.lastDate;
    ForwardTxEntries(s, checkpoint, lastDate, txid(tx), p, tx);
    var w := SyncTx(s, fromDate, txid, p, tx).written;
    if NewEpoch(s.lastDate, p) {
      assert w[|s.written|] == Checkpoint(p);
    } else if |s.written| < |w| {
      assert !w[|s.written|].Checkpoint?;
    }
  }

  /** After its checkpoint entries, a transaction writes only spent and received entries. */
  lemma ForwardTxEntries(s: SyncRun, checkpoint: seq<Log<Address>>, lastDate: BlockDate, id: TxId, p: StatePtr, tx: Tx)
    ensures var w := ForwardTx(s, checkpoint, lastDate, id, p, tx).written;
      && |s.written| + |checkpoint| <= |w|
      && w[..|s.written| + |checkpoint|] == s.written + checkpoint
      && forall i :: |s.written| + |checkpoint| <= i < |w| ==> !w[i].Checkpoint?
  {
    var spent := SpendAll(s.utxos, InputsAt(p, tx.inputs));
    var rec := ReceiveAll(s.ptr, s.engine, spent.0, OutputsAt(p, id, tx.outputs));
    var tail := if rec.failure.Some? then [] else rec.events;
    var w := ForwardTx(s, checkpoint, lastDate, id, p, tx).written;
    assert w == (s.written + checkpoint) + (spent.1 + tail);
    var n := |s.written| + |checkpoint|;
    forall i | n <= i < |w|
      ensures !w[i].Checkpoint?
    {
      if i < n + |spent.1| {
        assert w[i] == spent.1[i - n];
      } else {
        assert w[i] == tail[i - n - |spent.1|];
      }
    }
  }

  /** The entries of one transaction are all at its pointer. */
  lemma SyncTxPointers(s: SyncRun, fromDate: BlockDate, txid: Tx -> TxId, p: StatePtr, tx: Tx)
    requires s.failure.None?
    ensures var r := SyncTx(s, fromDate, txid, p, tx);
      forall e :: e in r.written[|s.written|..] ==> e.ptr == p
  {
    var r := SyncTx(s, fromDate, txid, p, tx);
    if p.latestAddr != Some(fromDate) {
      var inputs := InputsAt(p, tx.inputs);
      var outputs := OutputsAt(p, txid(tx), tx.outputs);
      var spent := SpendAll(s.utxos, inputs);
      var rec := ReceiveAll(s.ptr, s.engine, spent.0, outputs);
      SpendAllAt(s.utxos, inputs, p);
      ReceiveAllAt(s.ptr, s.engine, spent.0, outputs, p);
      var checkpoint := if NewEpoch(s.lastDate, p) then [Checkpoint(p)] else [];
      var tail := if rec.failure.Some? then [] else rec.events;
      assert r.written[|s.written|..] == checkpoint + spent.1 + tail;
    } else {
      assert r.written[|s.written|..] == [];
    }
  }

  lemma ForwardTxOrder(s: SyncRun, checkpoint: seq<Log<Address>>, lastDate: BlockDate, id: TxId, p: StatePtr, tx: Tx)
    requires |checkpoint| <= 1 && forall e :: e in checkpoint ==> e.Checkpoint?
    ensures var entries := ForwardTx(s, checkpoint, lastDate, id, p, tx).written[|s.written|..];
      forall i :: 0 <= i < |entries| ==>
        Rank(entries[i]) == (if i < |checkpoint| then 0 else if i < |checkpoint| + |SpendAll(s.utxos, InputsAt(p, tx.inputs)).1| then 1 else 2)
  {
    var spent := SpendAll(s.utxos, InputsAt(p, tx.inputs)).1;
    var rec := ReceiveAll(s.ptr, s.engine, SpendAll(s.utxos, InputsAt(p, tx.inputs)).0, OutputsAt(p, id, tx.outputs));
    var tail := if rec.failure.Some? then [] else rec.events;
    var entries := ForwardTx(s, checkpoint, lastDate, id, p, tx).written[|s.written|..];
    assert entries == checkpoint + spent + tail;
    forall i | 0 <= i < |entries|
      ensures Rank(entries[i]) == (if i < |checkpoint| then 0 else if i < |checkpoint| + |spent| then 1 else 2)
    {
      if i < |checkpoint| {
        assert entries[i] == checkpoint[i];
      } else if i < |checkpoint| + |spent| {
        assert entries[i] == spent[i - |checkpoint|];
      } else {
        assert entries[i] == tail[i - |checkpoint| - |spent|];
      }
    }
  }

  /** The entries of one transaction are ordered: at most one checkpoint, first, then spent, then received. */
  lemma SyncTxOrder(s: SyncRun, fromDate: BlockDate, txid: Tx -> TxId, p: StatePtr, tx: Tx)
    requires s.failure.None?
    ensures var entries := SyncTx(s, fromDate, txid, p, tx).written[|s.written|..];
      forall i, j :: 0 <= i < j < |entries| ==> Rank(entries[i]) <= Rank(entries[j]) && Rank(entries[j]) != 0
  {
    if p.latestAddr != Some(fromDate) {
      var checkpoint := if NewEpoch(s.lastDate, p) then [Checkpoint(p)] else [];
      ForwardTxOrder(s, checkpoint, if p.latestAddr.Some? then p.latestAddr.value else s.lastDate, txid(tx), p, tx);
    } else {
      assert SyncTx(s, fromDate, txid, p, tx).written[|s.written|..] == [];
    }
  }

  /** After a lookup error, later blocks are not processed. */
  lemma {:induction false} SyncStopsAtFailure(start: SyncRun, fromDate: BlockDate, txid: Tx -> TxId,
                                              blocks: seq<(StatePtr, Tx)>, more: seq<(StatePtr, Tx)>)
    requires SyncAll(start, fromDate, txid, blocks).failure.Some?
    ensures SyncAll(start, fromDate, txid, blocks + more) == SyncAll(start, fromDate, txid, blocks)
    decreases |more|
  {
    if more != [] {
      var all := blocks + more;
      var front := more[..|more| - 1];
      assert all[..|all| - 1] == blocks + front;
      SyncStopsAtFailure(start, fromDate, txid, blocks, front);
    } else {
      assert blocks + more == blocks;
    }
  }

  /** Spending then receiving for one transaction, proved against `ForwardTx`. */
  method ForwardTransaction(state: State, checkpoint: seq<Log<Address>>, lastDate: BlockDate,
                            written: seq<Log<Address>>, id: TxId, p: StatePtr, tx: Tx)
    returns (newWritten: seq<Log<Address>>, failure: Option<LookupError>)
    requires state.Valid()
    modifies state
    ensures state.Valid()
    ensures ForwardTx(SyncRun(old(state.ptr), old(state.lookupStruct), old(state.utxos), lastDate, written, None), checkpoint, lastDate, id, p, tx)
      == SyncRun(state.ptr, state.lookupStruct, state.utxos, lastDate, newWritten, failure)
  {
    var spent := state.ForwardWithTxins(InputsAt(p, tx.inputs));
    newWritten := written + checkpoint + spent.value;
    var received := state.ForwardWithUtxos(OutputsAt(p, id, tx.outputs));
    if received.Err? {
      failure := Some(received.error);
    } else {
      newWritten := newWritten + received.value;
      failure := None;
    }
  }

  /**
   * `update_wallet_state_with_utxos`: the blocks are read from the state's
   * own block hash onwards and the state and the appended entries follow
   * `SyncAll` from the state's date. A lookup error ends the run (the source
   * exits the process), with what was appended before it kept.
   */
  method UpdateWalletStateWithUtxos(state: State, txid: Tx -> TxId, blocksFrom: Hash -> seq<(StatePtr, Tx)>)
    returns (written: seq<Log<Address>>, failure: Option<LookupError>)
    requires state.Valid()
    modifies state
    ensures state.Valid()
    ensures var from := old(state.ptr);
      var run := SyncAll(SyncStart(from, old(state.lookupStruct), old(state.utxos)), from.LatestBlockDate(),
                         txid, blocksFrom(from.latestKnownHash));
      && state.ptr == run.ptr && state.lookupStruct == run.engine && state.utxos == run.utxos
      && written == run.written && failure == run.failure
  {
    var fromPtr := state.ptr;
    var fromDate := fromPtr.LatestBlockDate();
    var blocks := blocksFrom(fromPtr.latestKnownHash);
    ghost var start := SyncStart(fromPtr, state.lookupStruct, state.utxos);
    var lastBlockDate := fromDate;
    written := [];
    for i := 0 to |blocks|
      invariant state.Valid()
      invariant SyncAll(start, fromDate, txid, blocks[..i]) == SyncRun(state.ptr, state.lookupStruct, state.utxos, lastBlockDate, written, None)
    {
      assert blocks[..i + 1][..i] == blocks[..i];
      var (p, tx) := blocks[i];
      var checkpoint := [];
      if p.latestAddr.Some? {
        var addr := p.latestAddr.value;
        if addr == fromDate {
          continue;
        }
        if lastBlockDate.EpochId() != addr.EpochId() {
          checkpoint := [Checkpoint(p)];
        }
        lastBlockDate := addr;
      }
      written, failure := ForwardTransaction(state, checkpoint, lastBlockDate, written, txid(tx), p, tx);
      if failure.Some? {
        assert blocks[..i + 1] + blocks[i + 1..] == blocks;
        SyncStopsAtFailure(start, fromDate, txid, blocks[..i + 1], blocks[i + 1..]);
        return;
      }
    }
    assert blocks[..|blocks|] == blocks;
    failure := None;
  }

  // ---------------------------------------------------------------------------
  // Loading the state (`create_wallet_state_from_logs`)
  // ---------------------------------------------------------------------------

  datatype WalletError =
    | WalletLogNotFound
    | WalletLogAlreadyLocked(pid: nat)
    | WalletLogError(logError: LogError)
    | AddressLookupFailed(lookupError: LookupError)
    | NotAttachedToBlockchain

  /** The conversion of a log error into a wallet error. */
  function FromLogError(e: LogError): (r: WalletError)
    ensures r == WalletLogNotFound <==> e == LogNotFound
    ensures r.WalletLogAlreadyLocked? <==> e.LockError? && e.lock.AlreadyLocked?
    ensures r.WalletLogAlreadyLocked? ==> r.pid == e.lock.pid
    ensures r.WalletLogError? <==> !(e == LogNotFound || (e.LockError? && e.lock.AlreadyLocked?))
    ensures r.WalletLogError? ==> r.logError == e
  {
    match e
    case LogNotFound => WalletLogNotFound
    case LockError(AlreadyLocked(pid)) => WalletLogAlreadyLocked(pid)
    case _ => WalletLogError(e)
  }

  datatype Loaded =
    | Loaded(ptr: StatePtr, engine: Engine, utxos: UTxOs)
    | LoadFailed(error: WalletError)
    /** An unknown entry tag or a corrupted log: the source panics. */
    | LoadPanics

  /**
   * What loading yields: the entries read before the first read error are
   * replayed, so a lookup error among them wins over the read error; an
   * empty log gives a state before the attached blockchain's genesis.
   */
  function LoadSpec(reader: Result<RecordFile, LogError>, codec: YamlCodec<Address>, engine: Engine, genesis: Option<Hash>): Loaded {
    match reader
    case Err(e) => LoadFailed(FromLogError(e))
    case Ok(file) =>
      var stream := ReadLogs(file.records, file.failure, codec);
      match ReplayLogs(engine, stream.logs)
      case Corrupted => LoadPanics
      case LookupFailed(e) => LoadFailed(AddressLookupFailed(e))
      case Replaying(ptr, engine1, utxos) =>
        if stream.end.BadTag? then LoadPanics
        else if stream.end.ReadFailed? then LoadFailed(FromLogError(stream.end.error))
        else if ptr.Some? then Loaded(ptr.value, engine1, utxos)
        else if genesis.None? then LoadFailed(NotAttachedToBlockchain)
        else Loaded(BeforeGenesis(genesis.value), engine1, map[])
  }

  /** An empty log gives a fresh state before genesis with no outputs and the engine untouched. */
  lemma LoadEmpty(codec: YamlCodec<Address>, engine: Engine, genesis: Hash)
    ensures LoadSpec(Ok(RecordFile([], None)), codec, engine, Some(genesis)) == Loaded(BeforeGenesis(genesis), engine, map[])
  {
  }

  /** A log written by the log writer loads as the replay of its entries, pointers as stored. */
  lemma LoadWritten(logs: seq<Log<Address>>, codec: YamlCodec<Address>, engine: Engine, genesis: Option<Hash>)
    requires Sound(codec) && WriteLogs(logs, codec).Ok? && logs != []
    requires ReplayLogs(engine, NormalisedAll(logs)).Replaying?
    ensures var replay := ReplayLogs(engine, NormalisedAll(logs));
      LoadSpec(Ok(RecordFile(WriteLogs(logs, codec).value, None)), codec, engine, genesis)
        == Loaded(replay.ptr.value, replay.engine, replay.utxos)
  {
    ReadWrittenLogs(logs, codec);
  }

  /** `create_wallet_state_from_logs`, for logs that do not make the source panic. */
  method CreateWalletStateFromLogs(reader: Result<RecordFile, LogError>, codec: YamlCodec<Address>, engine: Engine, genesis: Option<Hash>)
    returns (r: Result<State, WalletError>)
    requires !LoadSpec(reader, codec, engine, genesis).LoadPanics?
    ensures LoadSpec(reader, codec, engine, genesis).LoadFailed? ==> r == Err(LoadSpec(reader, codec, engine, genesis).error)
    ensures LoadSpec(reader, codec, engine, genesis).Loaded? ==>
      var loaded := LoadSpec(reader, codec, engine, genesis);
      && r.Ok? && fresh(r.value) && r.value.Valid()
      && r.value.ptr == loaded.ptr && r.value.lookupStruct == loaded.engine && r.value.utxos == loaded.utxos
  {
    if reader.Err? {
      return Err(FromLogError(reader.error));
    }
    var file := reader.value;
    var stream := ReadLogs(file.records, file.failure, codec);
    var fromLogs := State.FromLogs(engine, stream.logs);
    match fromLogs
    case Err(e) =>
      r := Err(AddressLookupFailed(e));
    case Ok(res) =>
      if stream.end.ReadFailed? {
        return Err(FromLogError(stream.end.error));
      }
      match res
      case Ok(state) =>
        r := Ok(state);
      case Err(engine1) =>
        match genesis
        case None =>
          r := Err(NotAttachedToBlockchain);
        case Some(g) =>
          var state := new State(BeforeGenesis(g), engine1);
          r := Ok(state);
  }
}
