/**
 * The wallet state: a pointer to the last block seen, the address lookup
 * engine and the map of unspent outputs the wallet owns, keyed by the output
 * pointer. It is rebuilt by replaying the wallet log and moved forward by
 * spending known inputs and receiving recognised outputs.
 *
 * The replay and the two forward operations are specified by pure folds
 * (`ReplayLogs`, `SpendAll`, `ReceiveAll`); the class `State` performs the
 * same loops in place and is proved against them.
 */
module WalletState {
  import opened Types
  import opened WalletLog
  import SequentialIndex
  import RandomIndexLookup
  import AccumLookup

  // ---------------------------------------------------------------------------
  // The lookup engine, one of the three implementations
  // ---------------------------------------------------------------------------

  datatype Engine =
    | SequentialEngine(derive: SequentialIndex.Derivation, sequential: SequentialIndex.Sequential)
    | RandomIndexEngine(generator: RandomIndexLookup.Generator)
    | AccumEngine

  /** `lookup` on whichever engine the wallet uses. Only the sequential engine has state to change. */
  function EngineLookup(e: Engine, utxo: UTxO<ExtendedAddr>): (r: (Engine, Result<Option<UTxO<Address>>, LookupError>))
    ensures r.1.Ok? && r.1.value.Some? ==>
      r.1.value.value.ExtractTxin() == utxo.ExtractTxin() && r.1.value.value.creditedValue == utxo.creditedValue
    ensures !e.SequentialEngine? ==> r.0 == e
    ensures e.SequentialEngine? ==> r.0.SequentialEngine? && r.0.derive == e.derive
    ensures e.AccumEngine? ==> r.1.Ok? && r.1.value.Some?
  {
    match e
    case SequentialEngine(derive, s) =>
      var (s1, res) := SequentialIndex.LookupStep(s, derive, utxo);
      (SequentialEngine(derive, s1), res)
    case RandomIndexEngine(g) => (e, RandomIndexLookup.Lookup(g, utxo))
    case AccumEngine => (e, AccumLookup.Lookup(utxo))
  }

  /** `acknowledge` on whichever engine the wallet uses: only the sequential engine can fail or change. */
  function EngineAcknowledge(e: Engine, address: Address): (r: (Engine, Result<(), LookupError>))
    ensures !e.SequentialEngine? ==> r == (e, Ok(()))
    ensures e.SequentialEngine? ==> r.0.SequentialEngine? && r.0.derive == e.derive
    ensures e.SequentialEngine? && !address.Bip44? ==> r.1 == Err(SequentialBip44(InvalidType(0)))
  {
    match e
    case SequentialEngine(derive, s) =>
      var (s1, res) := SequentialIndex.AcknowledgeStep(s, derive, address);
      (SequentialEngine(derive, s1), res)
    case RandomIndexEngine(g) =>
      var res := RandomIndexLookup.Acknowledge(g, address);
      (e, res)
    case AccumEngine =>
      var res := AccumLookup.Acknowledge(address);
      (e, res)
  }

  // ---------------------------------------------------------------------------
  // Unspent outputs
  // ---------------------------------------------------------------------------

  type UTxOs = map<TxoPointer, UTxO<Address>>

  /** Every entry is stored under its own output pointer. */
  ghost predicate KeyedByTxin(m: UTxOs) {
    forall k :: k in m ==> m[k].ExtractTxin() == k
  }

  ghost function Pick(m: UTxOs): (k: TxoPointer)
    requires m != map[]
    ensures k in m
  {
    assert m.Keys != {} by {
      var e :| e in m.Items;
      assert e.0 in m;
    }
    var k :| k in m; k
  }

  /** The sum of the credited values, with no overflow check. */
  ghost function MapSum(m: UTxOs): nat
    decreases |m|
  {
    if m == map[] then 0
    else
      var k := Pick(m);
      assert |m - {k}| < |m| by { assert (m - {k}).Keys == m.Keys - {k}; }
      m[k].creditedValue + MapSum(m - {k})
  }

  /** The sum does not depend on the order the entries are taken in. */
  lemma {:induction false} MapSumRemove(m: UTxOs, k: TxoPointer)
    requires k in m
    ensures MapSum(m) == m[k].creditedValue + MapSum(m - {k})
    decreases |m|
  {
    var j := Pick(m);
    assert (m - {j}).Keys == m.Keys - {j};
    if j != k {
      assert (m - {k}).Keys == m.Keys - {k};
      MapSumRemove(m - {j}, k);
      MapSumRemove(m - {k}, j);
      assert m - {j} - {k} == m - {k} - {j};
    }
  }

  // ---------------------------------------------------------------------------
  // Replaying the log (`from_logs`)
  // ---------------------------------------------------------------------------

  datatype Replay =
    | Replaying(ptr: Option<StatePtr>, engine: Engine, utxos: UTxOs)
    | LookupFailed(error: LookupError)
    /** The log contradicts itself; the source panics. */
    | Corrupted

  /** One entry of the log applied to the replay so far. */
  function ReplayEntry(r: Replay, log: Log<Address>): Replay {
    match r
    case Replaying(_, engine, utxos) =>
      (match log
       case Checkpoint(p) => Replaying(Some(p), engine, utxos)
       case ReceivedFund(p, u) =>
         var (engine1, ack) := EngineAcknowledge(engine, u.creditedAddressing);
         if ack.Err? then LookupFailed(ack.error)
         else if u.ExtractTxin() in utxos then Corrupted
         else Replaying(Some(p), engine1, utxos[u.ExtractTxin() := u])
       case SpentFund(p, u) =>
         if u.ExtractTxin() !in utxos then Corrupted
         else
           var (engine1, ack) := EngineAcknowledge(engine, u.creditedAddressing);
           if ack.Err? then LookupFailed(ack.error)
           else Replaying(Some(p), engine1, utxos - {u.ExtractTxin()}))
    case _ => r
  }

  /**
   * The replay of a whole log. Every kind of entry sets the pointer, so the
   * pointer is the last entry's, and it is absent only for an empty log;
   * every output is stored under its own pointer.
   */
  function ReplayLogs(engine: Engine, logs: seq<Log<Address>>): (r: Replay)
    ensures r.Replaying? ==> (r.ptr.None? <==> logs == [])
    ensures r.Replaying? && logs != [] ==> r.ptr == Some(logs[|logs| - 1].ptr)
    ensures r.Replaying? ==> KeyedByTxin(r.utxos)
    ensures logs == [] ==> r == Replaying(None, engine, map[])
  {
    if logs == [] then Replaying(None, engine, map[])
    else ReplayEntry(ReplayLogs(engine, logs[..|logs| - 1]), logs[|logs| - 1])
  }

  /** Once the replay fails or finds corruption, later entries change nothing. */
  lemma {:induction false} ReplayStopsAtFailure(engine: Engine, logs: seq<Log<Address>>, j: nat)
    requires j <= |logs| && !ReplayLogs(engine, logs[..j]).Replaying?
    ensures ReplayLogs(engine, logs) == ReplayLogs(engine, logs[..j])
  {
    if j < |logs| {
      var prefix := logs[..|logs| - 1];
      assert prefix[..j] == logs[..j];
      ReplayStopsAtFailure(engine, prefix, j);
    } else {
      assert logs[..j] == logs;
    }
  }

  /** With an engine whose acknowledgement cannot fail, replay never reports a lookup error and leaves the engine as it was. */
  lemma {:induction false} StatelessReplay(engine: Engine, logs: seq<Log<Address>>)
    requires !engine.SequentialEngine?
    ensures !ReplayLogs(engine, logs).LookupFailed?
    ensures ReplayLogs(engine, logs).Replaying? ==> ReplayLogs(engine, logs).engine == engine
  {
    if logs != [] {
      StatelessReplay(engine, logs[..|logs| - 1]);
    }
  }

  /** An output received and then spent leaves the map as it was before. */
  lemma ReceiveThenSpend(engine: Engine, logs: seq<Log<Address>>, p: StatePtr, q: StatePtr, u: UTxO<Address>)
    requires !engine.SequentialEngine?
    requires ReplayLogs(engine, logs).Replaying? && u.ExtractTxin() !in ReplayLogs(engine, logs).utxos
    ensures var r := ReplayLogs(engine, logs + [ReceivedFund(p, u), SpentFund(q, u)]);
      r.Replaying? && r.utxos == ReplayLogs(engine, logs).utxos && r.ptr == Some(q)
  {
    var logs1 := logs + [ReceivedFund(p, u)];
    var logs2 := logs1 + [SpentFund(q, u)];
    assert logs + [ReceivedFund(p, u), SpentFund(q, u)] == logs2;
    assert logs2[..|logs2| - 1] == logs1;
    assert logs1[..|logs1| - 1] == logs;
    StatelessReplay(engine, logs);
    var m := ReplayLogs(engine, logs).utxos;
    assert m[u.ExtractTxin() := u] - {u.ExtractTxin()} == m;
  }

  // ---------------------------------------------------------------------------
  // What a replay holds
  // ---------------------------------------------------------------------------

  /** Entry `i` receives output `k` and no later entry spends it. */
  ghost predicate UnspentAt(logs: seq<Log<Address>>, k: TxoPointer, i: int) {
    0 <= i < |logs| && logs[i].ReceivedFund? && logs[i].utxo.ExtractTxin() == k
    && forall j :: i < j < |logs| ==> !(logs[j].SpentFund? && logs[j].utxo.ExtractTxin() == k)
  }

  /** Some `ReceivedFund` of output `k` is not followed by a `SpentFund` of it. */
  ghost predicate Outstanding(logs: seq<Log<Address>>, k: TxoPointer) {
    exists i :: UnspentAt(logs, k, i)
  }

  /** Below the last entry, an output is unspent in the whole log iff it is in the log without it and the last entry does not spend it. */
  lemma UnspentBeforeLast(logs: seq<Log<Address>>, k: TxoPointer, i: int)
    requires logs != [] && 0 <= i < |logs| - 1
    ensures var e := logs[|logs| - 1];
      UnspentAt(logs, k, i) <==> UnspentAt(logs[..|logs| - 1], k, i) && !(e.SpentFund? && e.utxo.ExtractTxin() == k)
  {
    var prefix := logs[..|logs| - 1];
    assert forall j :: 0 <= j < |prefix| ==> prefix[j] == logs[j];
    if !UnspentAt(logs, k, i) && UnspentAt(prefix, k, i) {
      var j :| i < j < |logs| && logs[j].SpentFund? && logs[j].utxo.ExtractTxin() == k;
      assert j == |logs| - 1;
    }
  }

  /**
   * A replay that ends without failure or corruption holds exactly the
   * outputs some `ReceivedFund` brought in and no later `SpentFund` took
   * out, each as the entry that brought it in recorded it.
   */
  lemma {:induction false} ReplayHolds(engine: Engine, logs: seq<Log<Address>>)
    requires ReplayLogs(engine, logs).Replaying?
    ensures forall k :: k in ReplayLogs(engine, logs).utxos <==> Outstanding(logs, k)
    ensures forall k, i :: UnspentAt(logs, k, i) ==>
      k in ReplayLogs(engine, logs).utxos && ReplayLogs(engine, logs).utxos[k] == logs[i].utxo
  {
    if logs != [] {
      var prefix := logs[..|logs| - 1];
      var e := logs[|logs| - 1];
      var before := ReplayLogs(engine, prefix);
      var after := ReplayLogs(engine, logs);
      assert after == ReplayEntry(before, e);
      assert before.Replaying?;
      ReplayHolds(engine, prefix);
      forall k, i | UnspentAt(logs, k, i)
        ensures k in after.utxos && after.utxos[k] == logs[i].utxo
      {
        if i < |logs| - 1 {
          UnspentBeforeLast(logs, k, i);
        }
      }
      forall k | Outstanding(logs, k) ensures k in after.utxos {
        var i :| UnspentAt(logs, k, i);
      }
      forall k | k in after.utxos ensures Outstanding(logs, k) {
        if e.ReceivedFund? && e.utxo.ExtractTxin() == k {
          assert UnspentAt(logs, k, |logs| - 1);
        } else {
          var i :| UnspentAt(prefix, k, i);
          UnspentBeforeLast(logs, k, i);
          assert UnspentAt(logs, k, i);
        }
      }
    }
  }

  /** The credited values the log's `ReceivedFund` entries bring in. */
  function ReceivedTotal(logs: seq<Log<Address>>): nat {
    if logs == [] then 0
    else
      var e := logs[|logs| - 1];
      ReceivedTotal(logs[..|logs| - 1]) + (if e.ReceivedFund? then e.utxo.creditedValue else 0)
  }

  /** The credited values the log's `SpentFund` entries take out. */
  function SpentTotal(logs: seq<Log<Address>>): nat {
    if logs == [] then 0
    else
      var e := logs[|logs| - 1];
      SpentTotal(logs[..|logs| - 1]) + (if e.SpentFund? then e.utxo.creditedValue else 0)
  }

  /**
   * Every `SpentFund` entry carries the value of the output the replay
   * holds under its pointer, as `forward_with_txins` writes it. The replay
   * itself removes by pointer only and does not look at the value.
   */
  ghost predicate SpendsHeld(engine: Engine, logs: seq<Log<Address>>) {
    forall i :: 0 <= i < |logs| && logs[i].SpentFund? ==>
      var before := ReplayLogs(engine, logs[..i]);
      before.Replaying? && logs[i].utxo.ExtractTxin() in before.utxos ==>
        before.utxos[logs[i].utxo.ExtractTxin()].creditedValue == logs[i].utxo.creditedValue
  }

  /**
   * The balance of a replay: what the wallet holds plus what the log spent
   * is what the log received.
   */
  lemma {:induction false} ReplayBalance(engine: Engine, logs: seq<Log<Address>>)
    requires ReplayLogs(engine, logs).Replaying? && SpendsHeld(engine, logs)
    ensures MapSum(ReplayLogs(engine, logs).utxos) + SpentTotal(logs) == ReceivedTotal(logs)
  {
    if logs != [] {
      var prefix := logs[..|logs| - 1];
      var e := logs[|logs| - 1];
      var before := ReplayLogs(engine, prefix);
      var after := ReplayLogs(engine, logs);
      assert after == ReplayEntry(before, e);
      assert before.Replaying?;
      forall i | 0 <= i < |prefix| && prefix[i].SpentFund?
        ensures var b := ReplayLogs(engine, prefix[..i]);
          b.Replaying? && prefix[i].utxo.ExtractTxin() in b.utxos ==>
            b.utxos[prefix[i].utxo.ExtractTxin()].creditedValue == prefix[i].utxo.creditedValue
      {
        assert prefix[..i] == logs[..i] && prefix[i] == logs[i];
      }
      ReplayBalance(engine, prefix);
      match e
      case Checkpoint(_) =>
      case ReceivedFund(_, u) =>
        var t := u.ExtractTxin();
        MapSumRemove(after.utxos, t);
        assert after.utxos - {t} == before.utxos;
      case SpentFund(_, u) =>
        var t := u.ExtractTxin();
        MapSumRemove(before.utxos, t);
        assert logs[..|logs| - 1] == prefix;
    }
  }

  // ---------------------------------------------------------------------------
  // Spending known inputs (`forward_with_txins`)
  // ---------------------------------------------------------------------------

  function TxinsOf(txins: seq<(StatePtr, TxoPointer)>): set<TxoPointer> {
    set i | 0 <= i < |txins| :: txins[i].1
  }

  /** Removes every known input, in order, with a `SpentFund` event for each one removed; unknown inputs are skipped. */
  function SpendAll(utxos: UTxOs, txins: seq<(StatePtr, TxoPointer)>): (r: (UTxOs, seq<Log<Address>>))
    ensures forall i :: 0 <= i < |r.1| ==> r.1[i].SpentFund?
  {
    if txins == [] then (utxos, [])
    else
      var r := SpendAll(utxos, txins[..|txins| - 1]);
      var (p, t) := txins[|txins| - 1];
      if t in r.0 then (r.0 - {t}, r.1 + [SpentFund(p, r.0[t])])
      else r
  }

  lemma TxinsOfStep(txins: seq<(StatePtr, TxoPointer)>)
    requires txins != []
    ensures TxinsOf(txins) == TxinsOf(txins[..|txins| - 1]) + {txins[|txins| - 1].1}
  {
    var prefix := txins[..|txins| - 1];
    forall k | k in TxinsOf(txins) ensures k in TxinsOf(prefix) + {txins[|txins| - 1].1} {
      var i :| 0 <= i < |txins| && txins[i].1 == k;
      if i < |prefix| { assert prefix[i] == txins[i]; }
    }
    forall k | k in TxinsOf(prefix) ensures k in TxinsOf(txins) {
      var i :| 0 <= i < |prefix| && prefix[i].1 == k;
      assert txins[i] == prefix[i];
    }
  }

  /** The map loses exactly the spent inputs. */
  lemma {:induction false} SpendAllRemoves(utxos: UTxOs, txins: seq<(StatePtr, TxoPointer)>)
    ensures SpendAll(utxos, txins).0 == utxos - TxinsOf(txins)
  {
    if txins != [] {
      var prefix := txins[..|txins| - 1];
      SpendAllRemoves(utxos, prefix);
      TxinsOfStep(txins);
    }
  }

  /** One event is emitted per output removed. */
  lemma {:induction false} SpendAllCounts(utxos: UTxOs, txins: seq<(StatePtr, TxoPointer)>)
    ensures |SpendAll(utxos, txins).1| + |SpendAll(utxos, txins).0| == |utxos|
  {
    if txins != [] {
      var prefix := txins[..|txins| - 1];
      SpendAllCounts(utxos, prefix);
      var m := SpendAll(utxos, prefix).0;
      var t := txins[|txins| - 1].1;
      if t in m {
        assert (m - {t}).Keys == m.Keys - {t};
      }
    }
  }

  /** Every event carries the output exactly as it was stored under its pointer. */
  lemma {:induction false} SpendAllEvents(utxos: UTxOs, txins: seq<(StatePtr, TxoPointer)>, i: nat)
    requires KeyedByTxin(utxos) && i < |SpendAll(utxos, txins).1|
    ensures var u := SpendAll(utxos, txins).1[i].utxo;
      u.ExtractTxin() in utxos && utxos[u.ExtractTxin()] == u
  {
    if txins != [] {
      var prefix := txins[..|txins| - 1];
      SpendAllRemoves(utxos, prefix);
      if i < |SpendAll(utxos, prefix).1| {
        SpendAllEvents(utxos, prefix, i);
      }
    }
  }

  /** Inputs all spent at one pointer give events all at that pointer. */
  lemma {:induction false} SpendAllAt(utxos: UTxOs, txins: seq<(StatePtr, TxoPointer)>, p: StatePtr)
    requires forall i :: 0 <= i < |txins| ==> txins[i].0 == p
    ensures forall e :: e in SpendAll(utxos, txins).1 ==> e.ptr == p
  {
    if txins != [] {
      SpendAllAt(utxos, txins[..|txins| - 1], p);
    }
  }

  // ---------------------------------------------------------------------------
  // Receiving recognised outputs (`forward_with_utxos`)
  // ---------------------------------------------------------------------------

  datatype Receiving = Receiving(
    ptr: StatePtr,
    engine: Engine,
    utxos: UTxOs,
    events: seq<Log<Address>>,
    failure: Option<LookupError>)

  function EventKeys(events: seq<Log<Address>>): set<TxoPointer>
    requires forall i :: 0 <= i < |events| ==> !events[i].Checkpoint?
  {
    set i | 0 <= i < |events| :: events[i].utxo.ExtractTxin()
  }

  /**
   * Looks every output up in order and stops at the first lookup error.
   * A recognised output sets the pointer to its own, is inserted under its
   * pointer (overwriting, with no duplicate check) and yields a
   * `ReceivedFund` event.
   */
  function ReceiveAll(ptr: StatePtr, engine: Engine, utxos: UTxOs, items: seq<(StatePtr, UTxO<ExtendedAddr>)>): (r: Receiving)
    ensures forall i :: 0 <= i < |r.events| ==> r.events[i].ReceivedFund?
  {
    if items == [] then Receiving(ptr, engine, utxos, [], None)
    else
      var r := ReceiveAll(ptr, engine, utxos, items[..|items| - 1]);
      if r.failure.Some? then r
      else ReceiveOne(r, items[|items| - 1].0, items[|items| - 1].1)
  }

  /** One output looked up and, when recognised, received. */
  function ReceiveOne(r: Receiving, p: StatePtr, u: UTxO<ExtendedAddr>): (r1: Receiving)
    requires r.failure.None? && forall i :: 0 <= i < |r.events| ==> r.events[i].ReceivedFund?
    ensures forall i :: 0 <= i < |r1.events| ==> r1.events[i].ReceivedFund?
    ensures |r1.events| == |r.events| ==> r1.events == r.events && r1.ptr == r.ptr && r1.utxos == r.utxos
    ensures |r1.events| != |r.events| ==> |r1.events| == |r.events| + 1
    ensures |r1.events| != |r.events| ==>
      var v := r1.events[|r.events|].utxo;
      && r1.failure.None? && r1.events == r.events + [ReceivedFund(p, v)]
      && r1.ptr == p && r1.utxos == r.utxos[v.ExtractTxin() := v]
      && v.ExtractTxin() == u.ExtractTxin()
  {
    var (engine1, found) := EngineLookup(r.engine, u);
    match found
    case Err(e) => r.(engine := engine1, failure := Some(e))
    case Ok(None) => r.(engine := engine1)
    case Ok(Some(v)) => Receiving(p, engine1, r.utxos[v.ExtractTxin() := v], r.events + [ReceivedFund(p, v)], None)
  }

  /** The pointer is that of the last output received, or unchanged when none was. */
  lemma {:induction false} ReceivePointer(ptr: StatePtr, engine: Engine, utxos: UTxOs, items: seq<(StatePtr, UTxO<ExtendedAddr>)>)
    ensures var r := ReceiveAll(ptr, engine, utxos, items);
      && (r.events == [] ==> r.ptr == ptr)
      && (r.events != [] ==> r.ptr == r.events[|r.events| - 1].ptr)
      && |r.events| <= |items|
  {
    if items != [] {
      ReceivePointer(ptr, engine, utxos, items[..|items| - 1]);
    }
  }

  lemma EventKeysStep(events: seq<Log<Address>>, p: StatePtr, v: UTxO<Address>)
    requires forall i :: 0 <= i < |events| ==> events[i].ReceivedFund?
    ensures EventKeys(events + [ReceivedFund(p, v)]) == EventKeys(events) + {v.ExtractTxin()}
  {
    var all := events + [ReceivedFund(p, v)];
    assert all[|all| - 1].utxo == v;
    forall k | k in EventKeys(all) ensures k in EventKeys(events) + {v.ExtractTxin()} {
      var i :| 0 <= i < |all| && all[i].utxo.ExtractTxin() == k;
      if i < |events| { assert all[i] == events[i]; }
    }
    forall k | k in EventKeys(events) ensures k in EventKeys(all) {
      var i :| 0 <= i < |events| && events[i].utxo.ExtractTxin() == k;
      assert all[i] == events[i];
    }
  }

  /** The map gains exactly the pointers of the received outputs. */
  lemma {:induction false} ReceiveKeys(ptr: StatePtr, engine: Engine, utxos: UTxOs, items: seq<(StatePtr, UTxO<ExtendedAddr>)>)
    ensures var r := ReceiveAll(ptr, engine, utxos, items);
      r.utxos.Keys == utxos.Keys + EventKeys(r.events)
  {
    if items != [] {
      var r := ReceiveAll(ptr, engine, utxos, items[..|items| - 1]);
      ReceiveKeys(ptr, engine, utxos, items[..|items| - 1]);
      if r.failure.None? {
        var r1 := ReceiveOne(r, items[|items| - 1].0, items[|items| - 1].1);
        if |r1.events| != |r.events| {
          EventKeysStep(r.events, items[|items| - 1].0, r1.events[|r.events|].utxo);
        }
      }
    }
  }

  /** Received outputs are stored under their own pointers. */
  lemma {:induction false} ReceiveKeepsKeying(ptr: StatePtr, engine: Engine, utxos: UTxOs, items: seq<(StatePtr, UTxO<ExtendedAddr>)>)
    requires KeyedByTxin(utxos)
    ensures KeyedByTxin(ReceiveAll(ptr, engine, utxos, items).utxos)
  {
    if items != [] {
      ReceiveKeepsKeying(ptr, engine, utxos, items[..|items| - 1]);
    }
  }

  /** Outputs all received at one pointer give events all at that pointer. */
  lemma {:induction false} ReceiveAllAt(ptr: StatePtr, engine: Engine, utxos: UTxOs, items: seq<(StatePtr, UTxO<ExtendedAddr>)>, p: StatePtr)
    requires forall i :: 0 <= i < |items| ==> items[i].0 == p
    ensures forall e :: e in ReceiveAll(ptr, engine, utxos, items).events ==> e.ptr == p
  {
    if items != [] {
      var prefix := items[..|items| - 1];
      ReceiveAllAt(ptr, engine, utxos, prefix, p);
      assert items[|items| - 1].0 == p;
    }
  }

  /** After the first lookup error, further outputs are not looked at. */
  lemma {:induction false} ReceiveStopsAtFailure(ptr: StatePtr, engine: Engine, utxos: UTxOs,
                                                  items: seq<(StatePtr, UTxO<ExtendedAddr>)>, more: seq<(StatePtr, UTxO<ExtendedAddr>)>)
    requires ReceiveAll(ptr, engine, utxos, items).failure.Some?
    ensures ReceiveAll(ptr, engine, utxos, items + more) == ReceiveAll(ptr, engine, utxos, items)
    decreases |more|
  {
    if more != [] {
      var all := items + more;
      var front := more[..|more| - 1];
      assert all[..|all| - 1] == items + front;
      ReceiveStopsAtFailure(ptr, engine, utxos, items, front);
    } else {
      assert items + more == items;
    }
  }

  /** With the accumulating engine every output is taken: one event per output, in order. */
  lemma {:induction false} ReceiveAllAccum(ptr: StatePtr, utxos: UTxOs, items: seq<(StatePtr, UTxO<ExtendedAddr>)>)
    ensures var r := ReceiveAll(ptr, AccumEngine, utxos, items);
      && r.failure.None? && r.engine == AccumEngine && |r.events| == |items|
      && forall i :: 0 <= i < |items| ==>
           r.events[i] == ReceivedFund(items[i].0, AccumLookup.Lookup(items[i].1).value.value)
  {
    if items != [] {
      ReceiveAllAccum(ptr, utxos, items[..|items| - 1]);
    }
  }

  // ---------------------------------------------------------------------------
  // The state object
  // ---------------------------------------------------------------------------

  class State {
    var ptr: StatePtr
    var lookupStruct: Engine
    var utxos: UTxOs

    ghost predicate Valid()
      reads this
    {
      KeyedByTxin(utxos)
    }

    /** `new`: a state at the given pointer with no outputs. */
    constructor (ptr: StatePtr, lookupStruct: Engine)
      ensures Valid()
      ensures this.ptr == ptr && this.lookupStruct == lookupStruct && utxos == map[]
    {
      this.ptr := ptr;
      this.lookupStruct := lookupStruct;
      utxos := map[];
    }

    /**
     * `from_logs`: replays the log. A lookup error aborts the replay; an empty
     * log gives the engine back; otherwise the state is at the last entry's
     * pointer. A corrupted log (the source panics) is excluded.
     */
    static method FromLogs(lookupStruct: Engine, logs: seq<Log<Address>>) returns (r: Result<Result<State, Engine>, LookupError>)
      requires !ReplayLogs(lookupStruct, logs).Corrupted?
      ensures ReplayLogs(lookupStruct, logs).LookupFailed? ==> r == Err(ReplayLogs(lookupStruct, logs).error)
      ensures logs == [] ==> r == Ok(Err(lookupStruct))
      ensures ReplayLogs(lookupStruct, logs).Replaying? && logs != [] ==>
        var replay := ReplayLogs(lookupStruct, logs);
        && r.Ok? && r.value.Ok? && fresh(r.value.value) && r.value.value.Valid()
        && Some(r.value.value.ptr) == replay.ptr
        && r.value.value.lookupStruct == replay.engine && r.value.value.utxos == replay.utxos
    {
      var ptr: Option<StatePtr> := None;
      var engine := lookupStruct;
      var utxos: UTxOs := map[];
      for i := 0 to |logs|
        invariant ReplayLogs(lookupStruct, logs[..i]) == Replaying(ptr, engine, utxos)
      {
        assert logs[..i + 1][..i] == logs[..i];
        match logs[i]
        case Checkpoint(p) =>
          ptr := Some(p);
        case ReceivedFund(p, u) =>
          var (engine1, ack) := EngineAcknowledge(engine, u.creditedAddressing);
          if ack.Err? {
            ReplayStopsAtFailure(lookupStruct, logs, i + 1);
            return Err(ack.error);
          }
          if u.ExtractTxin() in utxos {
            ReplayStopsAtFailure(lookupStruct, logs, i + 1);
            assert false;
          }
          engine := engine1;
          ptr := Some(p);
          utxos := utxos[u.ExtractTxin() := u];
        case SpentFund(p, u) =>
          if u.ExtractTxin() !in utxos {
            ReplayStopsAtFailure(lookupStruct, logs, i + 1);
            assert false;
          }
          utxos := utxos - {u.ExtractTxin()};
          var (engine1, ack) := EngineAcknowledge(engine, u.creditedAddressing);
          if ack.Err? {
            ReplayStopsAtFailure(lookupStruct, logs, i + 1);
            return Err(ack.error);
          }
          engine := engine1;
          ptr := Some(p);
      }
      assert logs[..|logs|] == logs;
      match ptr
      case Some(p) =>
        var state := new State(p, engine);
        state.utxos := utxos;
        r := Ok(Ok(state));
      case None =>
        r := Ok(Err(engine));
    }

    /** `total`: the sum of the credited values, an error exactly when it exceeds the coin bound. */
    method Total() returns (r: Result<Coin, CoinError>)
      ensures r.Ok? <==> MapSum(utxos) <= MAX_COIN
      ensures r.Ok? ==> r.value == MapSum(utxos)
    {
      var rest := utxos;
      r := Ok(0);
      while rest != map[]
        invariant r.Ok? ==> r.value + MapSum(rest) == MapSum(utxos)
        invariant r.Err? ==> MapSum(utxos) > MAX_COIN
        decreases |rest|
      {
        var k :| k in rest;
        MapSumRemove(rest, k);
        if r.Ok? {
          r := CoinAdd(r.value, rest[k].creditedValue);
        }
        assert (rest - {k}).Keys == rest.Keys - {k};
        rest := rest - {k};
      }
    }

    /** `forward_with_txins`: spends the known inputs; the pointer and the engine are untouched. */
    method ForwardWithTxins(txins: seq<(StatePtr, TxoPointer)>) returns (r: Result<seq<Log<Address>>, LookupError>)
      requires Valid()
      modifies this
      ensures Valid()
      ensures r.Ok? && (utxos, r.value) == SpendAll(old(utxos), txins)
      ensures ptr == old(ptr) && lookupStruct == old(lookupStruct)
    {
      var events: seq<Log<Address>> := [];
      for i := 0 to |txins|
        invariant (utxos, events) == SpendAll(old(utxos), txins[..i])
        invariant ptr == old(ptr) && lookupStruct == old(lookupStruct)
      {
        assert txins[..i + 1][..i] == txins[..i];
        var (p, t) := txins[i];
        if t in utxos {
          var u := utxos[t];
          utxos := utxos - {t};
          events := events + [SpentFund(p, u)];
        }
      }
      assert txins[..|txins|] == txins;
      SpendAllRemoves(old(utxos), txins);
      r := Ok(events);
    }

    /** `forward_with_utxos`: receives the recognised outputs, stopping at the first lookup error. */
    method ForwardWithUtxos(items: seq<(StatePtr, UTxO<ExtendedAddr>)>) returns (r: Result<seq<Log<Address>>, LookupError>)
      requires Valid()
      modifies this
      ensures Valid()
      ensures var rec := ReceiveAll(old(ptr), old(lookupStruct), old(utxos), items);
        && ptr == rec.ptr && lookupStruct == rec.engine && utxos == rec.utxos
        && r == if rec.failure.Some? then Err(rec.failure.value) else Ok(rec.events)
    {
      var events: seq<Log<Address>> := [];
      for i := 0 to |items|
        invariant ReceiveAll(old(ptr), old(lookupStruct), old(utxos), items[..i]) == Receiving(ptr, lookupStruct, utxos, events, None)
      {
        assert items[..i + 1][..i] == items[..i];
        var (p, u) := items[i];
        var (engine1, found) := EngineLookup(lookupStruct, u);
        lookupStruct := engine1;
        if found.Err? {
          assert items[..i + 1] + items[i + 1..] == items;
          ReceiveStopsAtFailure(old(ptr), old(lookupStruct), old(utxos), items[..i + 1], items[i + 1..]);
          ReceiveKeepsKeying(old(ptr), old(lookupStruct), old(utxos), items);
          return Err(found.error);
        }
        if found.value.Some? {
          var v := found.value.value;
          ptr := p;
          events := events + [ReceivedFund(p, v)];
          utxos := utxos[v.ExtractTxin() := v];
        }
      }
      assert items[..|items|] == items;
      ReceiveKeepsKeying(old(ptr), old(lookupStruct), old(utxos), items);
      r := Ok(events);
    }
  }
}
