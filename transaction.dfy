/**
 * The staging transaction's projection: a transaction under construction,
 * made of inputs, outputs, at most one change address and witnesses, plus
 * a `finalized` flag. Every edit is an `Operation`; `Apply` is the
 * specification of one `update_with` step, and the `Transaction` class is
 * the in-place object whose methods are proved against it.
 */
module TransactionCore {
  import opened Types

  /** An input being spent: the output it points at and the value it is expected to hold. */
  datatype Input = Input(transactionId: TxId, indexInTransaction: u32, expectedValue: Coin)
  {
    function ExtractTxin(): TxoPointer {
      TxoPointer(transactionId, indexInTransaction)
    }
  }

  datatype Output = Output(address: ExtendedAddr, amount: Coin)

  datatype Change = Change(address: ExtendedAddr)

  /** A signature over one input (opaque). */
  type Witness = seq<byte>

  datatype Operation =
    | AddInput(input: Input)
    | AddOutput(output: Output)
    | AddChange(change: Change)
    | RemoveInput(txin: TxoPointer)
    | RemoveOutput(index: u32)
    | RemoveChange(address: ExtendedAddr)
    | Signature(signature: Witness)
    | Finalize

  /** A failure reported by the external transaction builder (opaque). */
  datatype BuildError = BuildError(code: nat)

  datatype TxError =
    | CannotFinalizeAFinalizedTransaction
    | CannotAddWitnessesToAnOpenedTransaction
    | CannotAddMoreWitnessesThanInputs
    | CannotAddInputsToAFinalizedTransaction
    | CannotAddOutputToAFinalizedTransaction
    | CannotAddChangeToAFinalizedTransaction
    | TransactionNotFinalized
    | DoubleSpend
    | CannotRemoveInputInputNotFound
    | CannotRemoveOutput
    | CannotRemoveChangeChangeNotFound
    | MoreThanOneChangeAddressIsNotSupportedYet
    | ErrorWhenApplyingOutputPolicy(policyError: BuildError)
    | CannotBuildTxFromBuilder(buildError: BuildError)

  /** The value of a transaction under construction. */
  datatype Tx = Tx(
    inputs: seq<Input>,
    outputs: seq<Output>,
    changes: seq<Change>,
    witnesses: seq<Witness>,
    finalized: bool)

  function Empty(): (t: Tx)
    ensures t.inputs == [] && t.outputs == [] && t.changes == [] && t.witnesses == []
    ensures !t.finalized
  {
    Tx([], [], [], [], false)
  }

  function TxinOf(i: Input): TxoPointer { i.ExtractTxin() }

  function ChangeAddress(c: Change): ExtendedAddr { c.address }

  function OutputAddress(o: Output): ExtendedAddr { o.address }

  /**
   * `s` without every element whose key is `k`, the others kept in order.
   */
  function Without<T(!new), K(==)>(s: seq<T>, key: T -> K, k: K): (r: seq<T>)
    ensures |r| <= |s|
  {
    if s == [] then []
    else
      var last := s[|s| - 1];
      Without(s[..|s| - 1], key, k) + (if key(last) == k then [] else [last])
  }

  /** `Without` removes nothing exactly when no element has key `k`, and then returns `s` itself. */
  lemma {:induction false} WithoutNothing<T(!new), K>(s: seq<T>, key: T -> K, k: K)
    ensures |Without(s, key, k)| == |s| <==> forall i :: 0 <= i < |s| ==> key(s[i]) != k
    ensures |Without(s, key, k)| == |s| ==> Without(s, key, k) == s
  {
    if s != [] {
      var init := s[..|s| - 1];
      WithoutNothing(init, key, k);
      if |Without(s, key, k)| == |s| {
        assert s == init + [s[|s| - 1]];
      }
    }
  }

  /** `Without` over one more element of `s`. */
  lemma WithoutStep<T(!new), K>(s: seq<T>, key: T -> K, k: K, j: nat)
    requires j < |s|
    ensures Without(s[..j + 1], key, k) == Without(s[..j], key, k) + (if key(s[j]) == k then [] else [s[j]])
  {
    assert s[..j + 1][..j] == s[..j];
  }

  /**
   * One iteration of the in-place removal loops: `cs` is `orig` with the
   * matches among its first `done` elements removed, and `index` points at
   * `orig[done]`; removing it or stepping over it advances `done`.
   */
  lemma RemovalStep<T(!new), K>(orig: seq<T>, key: T -> K, k: K, done: nat, cs: seq<T>, index: nat)
    requires done < |orig|
    requires cs == Without(orig[..done], key, k) + orig[done..]
    requires index == |Without(orig[..done], key, k)|
    ensures index < |cs| && cs[index] == orig[done]
    ensures key(orig[done]) == k ==>
      cs[..index] + cs[index + 1..] == Without(orig[..done + 1], key, k) + orig[done + 1..]
      && index == |Without(orig[..done + 1], key, k)|
    ensures key(orig[done]) != k ==>
      cs == Without(orig[..done + 1], key, k) + orig[done + 1..]
      && index + 1 == |Without(orig[..done + 1], key, k)|
  {
    WithoutStep(orig, key, k, done);
    var kept := Without(orig[..done], key, k);
    assert orig[done..] == [orig[done]] + orig[done + 1..];
    if key(orig[done]) == k {
      assert cs[..index] == kept && cs[index + 1..] == orig[done + 1..];
    } else {
      assert cs == (kept + [orig[done]]) + orig[done + 1..];
    }
  }

  /**
   * The removal loop of `remove_input` and `remove_change`: walks the
   * sequence with a manual index, deleting each match in place and stepping
   * over the rest; `removed` says whether anything matched.
   */
  method RemoveMatching<T(!new), K(==)>(s: seq<T>, key: T -> K, k: K) returns (r: seq<T>, removed: bool)
    ensures r == Without(s, key, k)
    ensures removed <==> exists i :: 0 <= i < |s| && key(s[i]) == k
  {
    r := s;
    ghost var done := 0;
    var index := 0;
    removed := false;
    while index != |r|
      invariant 0 <= done <= |s|
      invariant r == Without(s[..done], key, k) + s[done..]
      invariant index == |Without(s[..done], key, k)|
      invariant removed <==> index < done
      decreases |r| - index
    {
      RemovalStep(s, key, k, done, r, index);
      if key(r[index]) == k {
        r := r[..index] + r[index + 1..];
        removed := true;
      } else {
        index := index + 1;
      }
      done := done + 1;
    }
    assert s[..done] == s;
    WithoutNothing(s, key, k);
  }

  /** `Without` keeps exactly the elements whose key differs from `k`. */
  lemma {:induction false} WithoutMembers<T(!new), K>(s: seq<T>, key: T -> K, k: K)
    ensures forall x :: x in Without(s, key, k) <==> x in s && key(x) != k
  {
    if s != [] {
      var init := s[..|s| - 1];
      WithoutMembers(init, key, k);
      assert s == init + [s[|s| - 1]];
    }
  }

  /** The position of the first input spending `txin`, if any (`lookup_input`). */
  function LookupInput(inputs: seq<Input>, txin: TxoPointer): (r: Option<nat>)
    ensures r.Some? ==> r.value < |inputs| && inputs[r.value].ExtractTxin() == txin
    ensures r.Some? ==> forall j :: 0 <= j < r.value ==> inputs[j].ExtractTxin() != txin
    ensures r.None? <==> forall j :: 0 <= j < |inputs| ==> inputs[j].ExtractTxin() != txin
  {
    if inputs == [] then None
    else if inputs[0].ExtractTxin() == txin then Some(0)
    else match LookupInput(inputs[1..], txin)
      case None => None
      case Some(p) => Some(p + 1)
  }

  /**
   * `remove_input` finds nothing to remove exactly when `lookup_input` finds
   * no input spending `txin`.
   */
  lemma LookupFailsIffNothingRemoved(inputs: seq<Input>, txin: TxoPointer)
    ensures LookupInput(inputs, txin).None? <==> |Without(inputs, TxinOf, txin)| == |inputs|
  {
    WithoutNothing(inputs, TxinOf, txin);
    assert forall i :: 0 <= i < |inputs| ==> TxinOf(inputs[i]) == inputs[i].ExtractTxin();
  }

  /**
   * What `update_with` did: changed the transaction, reported an error
   * (leaving it as it was), or panicked.
   */
  datatype Outcome = Applied | Rejected(error: TxError) | Panicked

  datatype Step = Step(tx: Tx, outcome: Outcome)

  /** The `Result` an `update_with` call returns for a non-panicking outcome. */
  function Report(o: Outcome): (r: Result<(), TxError>)
    requires !o.Panicked?
    ensures r.Ok? <==> o.Applied?
  {
    match o
    case Applied => Ok(())
    case Rejected(e) => Err(e)
  }

  /** One `update_with(op)` on the transaction `t`. */
  function Apply(t: Tx, op: Operation): (s: Step)
    ensures s.outcome.Applied? || s.tx == t
    ensures t.finalized ==> s.tx.finalized
    ensures |t.changes| <= 1 ==> |s.tx.changes| <= 1
    ensures t.finalized && (op.AddInput? || op.AddOutput? || op.AddChange?) ==> s.outcome.Rejected?
    ensures s.outcome.Panicked? <==> op.RemoveOutput? && op.index == |t.outputs|
  {
    match op
    case AddInput(input) =>
      if t.finalized then Step(t, Rejected(CannotAddInputsToAFinalizedTransaction))
      else Step(t.(inputs := t.inputs + [input]), Applied)
    case AddOutput(output) =>
      if t.finalized then Step(t, Rejected(CannotAddOutputToAFinalizedTransaction))
      else Step(t.(outputs := t.outputs + [output]), Applied)
    case AddChange(change) =>
      if t.finalized then Step(t, Rejected(CannotAddChangeToAFinalizedTransaction))
      else if t.changes != [] then Step(t, Rejected(MoreThanOneChangeAddressIsNotSupportedYet))
      else Step(t.(changes := t.changes + [change]), Applied)
    case RemoveInput(txin) =>
      var kept := Without(t.inputs, TxinOf, txin);
      if |kept| == |t.inputs| then Step(t, Rejected(CannotRemoveInputInputNotFound))
      else Step(t.(inputs := kept), Applied)
    case RemoveOutput(index) =>
      // the guard only rejects an index past the end; `index == len` reaches
      // `Vec::remove`, which panics
      if |t.outputs| < index then Step(t, Rejected(CannotRemoveOutput))
      else if index == |t.outputs| then Step(t, Panicked)
      else Step(t.(outputs := t.outputs[..index] + t.outputs[index + 1..]), Applied)
    case RemoveChange(address) =>
      var kept := Without(t.changes, ChangeAddress, address);
      if |kept| == |t.changes| then Step(t, Rejected(CannotRemoveChangeChangeNotFound))
      else Step(t.(changes := kept), Applied)
    case Signature(w) =>
      if !t.finalized then Step(t, Rejected(CannotAddWitnessesToAnOpenedTransaction))
      else if |t.inputs| <= |t.witnesses| then Step(t, Rejected(CannotAddMoreWitnessesThanInputs))
      else Step(t.(witnesses := t.witnesses + [w]), Applied)
    case Finalize =>
      if t.finalized then Step(t, Rejected(CannotFinalizeAFinalizedTransaction))
      else Step(t.(finalized := true), Applied)
  }

  /**
   * The guards of the individual operations: a second change is refused,
   * a witness needs a finalized transaction with an unsigned input left,
   * finalizing works once, and removals delete every entry with the key,
   * succeeding exactly when there was one (whether finalized or not).
   */
  lemma ApplyRules(t: Tx, op: Operation)
    ensures var s := Apply(t, op);
      && (op.AddChange? ==> (s.outcome.Applied? <==> !t.finalized && t.changes == []))
      && (op.Signature? ==> (s.outcome.Applied? <==> t.finalized && |t.witnesses| < |t.inputs|))
      && (op.Signature? && s.outcome.Applied? ==> s.tx.witnesses == t.witnesses + [op.signature] && s.tx.inputs == t.inputs)
      && (op.Finalize? ==> (s.outcome.Applied? <==> !t.finalized) && s.tx.finalized)
      && (op.RemoveInput? ==> (s.outcome.Applied? <==> LookupInput(t.inputs, op.txin).Some?))
      && (op.RemoveInput? ==> forall x :: x in s.tx.inputs <==> x in t.inputs && x.ExtractTxin() != op.txin)
      && (op.RemoveChange? ==> (s.outcome.Applied? <==> exists c :: c in t.changes && c.address == op.address))
      && (op.RemoveChange? ==> forall c :: c in s.tx.changes <==> c in t.changes && c.address != op.address)
  {
    if op.RemoveInput? {
      LookupFailsIffNothingRemoved(t.inputs, op.txin);
      WithoutMembers(t.inputs, TxinOf, op.txin);
    } else if op.RemoveChange? {
      WithoutMembers(t.changes, ChangeAddress, op.address);
      WithoutNothing(t.changes, ChangeAddress, op.address);
    }
  }

  /**
   * Folds `update_with` over `ops` from `t`, ignoring the errors it reports;
   * `None` when one of the steps panics.
   */
  function Run(t: Tx, ops: seq<Operation>): Option<Tx>
  {
    if ops == [] then Some(t)
    else match Run(t, ops[..|ops| - 1])
      case None => None
      case Some(u) =>
        var s := Apply(u, ops[|ops| - 1]);
        if s.outcome.Panicked? then None else Some(s.tx)
  }

  /** The transaction a sequence of operations builds from `Transaction::new`. */
  function Replay(ops: seq<Operation>): Option<Tx> {
    Run(Empty(), ops)
  }

  lemma {:induction false} RunAppend(t: Tx, ops: seq<Operation>, more: seq<Operation>)
    ensures Run(t, ops + more) == match Run(t, ops) case None => None case Some(u) => Run(u, more)
    decreases |more|
  {
    if more == [] {
      assert ops + more == ops;
    } else {
      var init := more[..|more| - 1];
      assert (ops + more)[..|ops + more| - 1] == ops + init;
      assert (ops + more)[|ops + more| - 1] == more[|more| - 1];
      RunAppend(t, ops, init);
    }
  }

  /** `remove_output` at an index holding an output splices that output out. */
  lemma RemoveOutputApplied(t: Tx, index: u32)
    requires index < |t.outputs|
    ensures Apply(t, RemoveOutput(index)) == Step(t.(outputs := t.outputs[..index] + t.outputs[index + 1..]), Applied)
  {
  }

  /** Running one more operation: the step `Run` takes at the end. */
  lemma RunSnoc(t: Tx, ops: seq<Operation>, op: Operation)
    ensures Run(t, ops + [op]) == match Run(t, ops)
      case None => None
      case Some(u) => if Apply(u, op).outcome.Panicked? then None else Some(Apply(u, op).tx)
  {
    assert (ops + [op])[..|ops|] == ops;
  }

  // ---------------------------------------------------------------------------
  // Properties of replayed operation sequences
  // ---------------------------------------------------------------------------

  /** `update_with` never lets a transaction hold more than one change address. */
  lemma {:induction false} ReplayAtMostOneChange(ops: seq<Operation>)
    requires Replay(ops).Some?
    ensures |Replay(ops).value.changes| <= 1
  {
    if ops != [] {
      ReplayAtMostOneChange(ops[..|ops| - 1]);
    }
  }

  /** Once finalized, a transaction stays finalized whatever operations follow. */
  lemma {:induction false} FinalizedPersists(t: Tx, ops: seq<Operation>)
    requires t.finalized && Run(t, ops).Some?
    ensures Run(t, ops).value.finalized
  {
    if ops != [] {
      FinalizedPersists(t, ops[..|ops| - 1]);
    }
  }

  /** Once finalized, no later operation adds an input, an output or a change. */
  lemma {:induction false} FinalizedFreezesAdditions(t: Tx, ops: seq<Operation>)
    requires t.finalized && Run(t, ops).Some?
    requires forall i :: 0 <= i < |ops| ==> ops[i].AddInput? || ops[i].AddOutput? || ops[i].AddChange?
    ensures Run(t, ops) == Some(t)
  {
    if ops != [] {
      FinalizedFreezesAdditions(t, ops[..|ops| - 1]);
    }
  }

  /**
   * Removals carry no finalized check: removing an input after signing
   * leaves a finalized transaction with more witnesses than inputs.
   */
  lemma RemoveInputAfterSigning(i: Input, w: Witness)
    ensures Replay([AddInput(i), Finalize, Signature(w), RemoveInput(i.ExtractTxin())])
         == Some(Tx([], [], [], [w], true))
  {
    var t1 := Empty().(inputs := [i]);
    var t2 := t1.(finalized := true);
    var t3 := t2.(witnesses := [w]);
    var o1 := [AddInput(i)];
    var o2 := o1 + [Finalize];
    var o3 := o2 + [Signature(w)];
    var o4 := o3 + [RemoveInput(i.ExtractTxin())];
    assert o1[..0] == [] && o2[..1] == o1 && o3[..2] == o2 && o4[..3] == o3;
    assert Run(Empty(), o1[..0]) == Some(Empty());
    assert Apply(Empty(), AddInput(i)).tx == t1;
    assert Run(Empty(), o1) == Some(t1);
    assert Run(Empty(), o2) == Some(t2);
    assert t2.witnesses + [w] == [w];
    assert Run(Empty(), o3) == Some(t3);
    assert o4 == [AddInput(i), Finalize, Signature(w), RemoveInput(i.ExtractTxin())];
    assert Without([i], TxinOf, i.ExtractTxin()) == [];
  }

  // ---------------------------------------------------------------------------
  // The transaction builder (the `TxBuilder` itself is external)
  // ---------------------------------------------------------------------------

  /** The inputs (pointer and expected value) and outputs handed to the builder. */
  datatype Builder = Builder(inputs: seq<(TxoPointer, Coin)>, outputs: seq<TxOut>)

  /** A built, not yet signed, transaction (opaque). */
  type TxPayload = seq<byte>

  /**
   * The external builder's two decisions: the change outputs the output policy
   * adds for a change address (under the default linear fee), and `make_tx`.
   */
  datatype TxBuild = TxBuild(
    outputPolicy: (Builder, ExtendedAddr) -> Result<seq<TxOut>, BuildError>,
    makeTx: Builder -> Result<TxPayload, BuildError>)

  /** The builder after its inputs and outputs are added, before the output policy runs. */
  function BaseBuilder(t: Tx): Builder {
    Builder(
      seq(|t.inputs|, i requires 0 <= i < |t.inputs| => (t.inputs[i].ExtractTxin(), t.inputs[i].expectedValue)),
      seq(|t.outputs|, i requires 0 <= i < |t.outputs| => TxOut(t.outputs[i].address, t.outputs[i].amount)))
  }

  /** `mk_txbuilder`: the builder holding every input and output, plus the change outputs. */
  function BuilderFor(t: Tx, build: TxBuild): (r: Result<(Builder, seq<TxOut>), TxError>)
    ensures r.Ok? ==> |r.value.0.inputs| == |t.inputs|
    ensures r.Ok? ==> forall i :: 0 <= i < |t.inputs| ==>
      r.value.0.inputs[i] == (t.inputs[i].ExtractTxin(), t.inputs[i].expectedValue)
    ensures r.Ok? ==> |r.value.0.outputs| == |t.outputs| + |r.value.1|
    ensures r.Ok? ==> forall i :: 0 <= i < |t.outputs| ==>
      r.value.0.outputs[i] == TxOut(t.outputs[i].address, t.outputs[i].amount)
    ensures r.Ok? ==> r.value.0.outputs[|t.outputs|..] == r.value.1
    ensures |t.changes| != 1 ==> r.Ok? && r.value.1 == []
    ensures r.Err? ==> |t.changes| == 1 && r.error.ErrorWhenApplyingOutputPolicy?
  {
    var base := BaseBuilder(t);
    if |t.changes| == 1 then
      match build.outputPolicy(base, t.changes[0].address)
      case Err(e) => Err(ErrorWhenApplyingOutputPolicy(e))
      case Ok(used) => Ok((Builder(base.inputs, base.outputs + used), used))
    else Ok((base, []))
  }

  /** `mk_finalized`: builder errors first, then the finalized check, then `make_tx`. */
  function Finalized(t: Tx, build: TxBuild): (r: Result<(TxPayload, seq<TxOut>), TxError>)
    ensures r.Ok? ==> t.finalized && BuilderFor(t, build).Ok?
    ensures r.Ok? ==> r.value.1 == BuilderFor(t, build).value.1
    ensures BuilderFor(t, build).Err? ==> r == Err(BuilderFor(t, build).error)
    ensures BuilderFor(t, build).Ok? && !t.finalized ==> r == Err(TransactionNotFinalized)
  {
    match BuilderFor(t, build)
    case Err(e) => Err(e)
    case Ok((builder, used)) =>
      if !t.finalized then Err(TransactionNotFinalized)
      else match build.makeTx(builder)
        case Err(e) => Err(CannotBuildTxFromBuilder(e))
        case Ok(tx) => Ok((tx, used))
  }

  // ---------------------------------------------------------------------------
  // The in-place transaction object
  // ---------------------------------------------------------------------------

  class Transaction {
    var inputs: seq<Input>
    var outputs: seq<Output>
    var changes: seq<Change>
    var witnesses: seq<Witness>
    var finalized: bool

    function Model(): Tx
      reads this
    {
      Tx(inputs, outputs, changes, witnesses, finalized)
    }

    constructor ()
      ensures Model() == Empty()
    {
      inputs, outputs, changes, witnesses, finalized := [], [], [], [], false;
    }

    method LookupInputOf(txin: TxoPointer) returns (r: Option<nat>)
      ensures r.Some? ==> r.value < |inputs| && inputs[r.value].ExtractTxin() == txin
      ensures r.Some? ==> forall j :: 0 <= j < r.value ==> inputs[j].ExtractTxin() != txin
      ensures r.None? <==> forall j :: 0 <= j < |inputs| ==> inputs[j].ExtractTxin() != txin
    {
      r := LookupInput(inputs, txin);
    }

    method MkTxBuilder(build: TxBuild) returns (r: Result<(Builder, seq<TxOut>), TxError>)
      ensures r == BuilderFor(Model(), build)
    {
      var ins: seq<(TxoPointer, Coin)> := [];
      for i := 0 to |inputs|
        invariant |ins| == i
        invariant forall j :: 0 <= j < i ==> ins[j] == (inputs[j].ExtractTxin(), inputs[j].expectedValue)
      {
        ins := ins + [(inputs[i].ExtractTxin(), inputs[i].expectedValue)];
      }
      var outs: seq<TxOut> := [];
      for i := 0 to |outputs|
        invariant |outs| == i
        invariant forall j :: 0 <= j < i ==> outs[j] == TxOut(outputs[j].address, outputs[j].amount)
      {
        outs := outs + [TxOut(outputs[i].address, outputs[i].amount)];
      }
      var builder := Builder(ins, outs);
      assert builder == BaseBuilder(Model());
      if |changes| == 1 {
        var used := build.outputPolicy(builder, changes[0].address);
        if used.Err? {
          return Err(ErrorWhenApplyingOutputPolicy(used.error));
        }
        r := Ok((Builder(ins, outs + used.value), used.value));
      } else {
        r := Ok((builder, []));
      }
    }

    method MkFinalized(build: TxBuild) returns (r: Result<(TxPayload, seq<TxOut>), TxError>)
      ensures r == Finalized(Model(), build)
    {
      var b := MkTxBuilder(build);
      if b.Err? {
        return Err(b.error);
      }
      if !finalized {
        return Err(TransactionNotFinalized);
      }
      var tx := build.makeTx(b.value.0);
      if tx.Err? {
        return Err(CannotBuildTxFromBuilder(tx.error));
      }
      r := Ok((tx.value, b.value.1));
    }

    method UpdateWith(op: Operation) returns (res: Result<(), TxError>)
      requires !Apply(Model(), op).outcome.Panicked?
      modifies this
      ensures Model() == Apply(old(Model()), op).tx
      ensures res == Report(Apply(old(Model()), op).outcome)
    {
      match op
      case AddInput(input) => res := AddInput(input);
      case AddOutput(output) => res := AddOutput(output);
      case AddChange(change) => res := AddChange(change);
      case RemoveInput(txin) => res := RemoveInput(txin);
      case RemoveOutput(index) => res := RemoveOutput(index);
      case RemoveChange(address) => res := RemoveChange(address);
      case Signature(w) => res := AddWitness(w);
      case Finalize => res := Finalize();
    }

    method AddOutput(output: Output) returns (res: Result<(), TxError>)
      modifies this
      ensures Model() == Apply(old(Model()), Operation.AddOutput(output)).tx
      ensures res == Report(Apply(old(Model()), Operation.AddOutput(output)).outcome)
    {
      if finalized {
        return Err(CannotAddOutputToAFinalizedTransaction);
      }
      outputs := outputs + [output];
      res := Ok(());
    }

    method AddInput(input: Input) returns (res: Result<(), TxError>)
      modifies this
      ensures Model() == Apply(old(Model()), Operation.AddInput(input)).tx
      ensures res == Report(Apply(old(Model()), Operation.AddInput(input)).outcome)
    {
      if finalized {
        return Err(CannotAddInputsToAFinalizedTransaction);
      }
      inputs := inputs + [input];
      res := Ok(());
    }

    method AddChange(change: Change) returns (res: Result<(), TxError>)
      modifies this
      ensures Model() == Apply(old(Model()), Operation.AddChange(change)).tx
      ensures res == Report(Apply(old(Model()), Operation.AddChange(change)).outcome)
    {
      if finalized {
        return Err(CannotAddChangeToAFinalizedTransaction);
      }
      if changes != [] {
        return Err(MoreThanOneChangeAddressIsNotSupportedYet);
      }
      changes := changes + [change];
      res := Ok(());
    }

    method AddWitness(w: Witness) returns (res: Result<(), TxError>)
      modifies this
      ensures Model() == Apply(old(Model()), Signature(w)).tx
      ensures res == Report(Apply(old(Model()), Signature(w)).outcome)
    {
      if !finalized {
        return Err(CannotAddWitnessesToAnOpenedTransaction);
      }
      if |inputs| <= |witnesses| {
        return Err(CannotAddMoreWitnessesThanInputs);
      }
      witnesses := witnesses + [w];
      res := Ok(());
    }

    /** Removes, in place, every input spending `txin`. */
    method RemoveInput(txin: TxoPointer) returns (res: Result<(), TxError>)
      modifies this
      ensures Model() == Apply(old(Model()), Operation.RemoveInput(txin)).tx
      ensures res == Report(Apply(old(Model()), Operation.RemoveInput(txin)).outcome)
    {
      var kept, removed := RemoveMatching(inputs, TxinOf, txin);
      WithoutNothing(inputs, TxinOf, txin);
      if !removed {
        return Err(CannotRemoveInputInputNotFound);
      }
      inputs := kept;
      res := Ok(());
    }

    method RemoveOutput(index: u32) returns (res: Result<(), TxError>)
      requires index != |outputs|
      modifies this
      ensures Model() == Apply(old(Model()), Operation.RemoveOutput(index)).tx
      ensures res == Report(Apply(old(Model()), Operation.RemoveOutput(index)).outcome)
    {
      if |outputs| < index {
        return Err(CannotRemoveOutput);
      }
      outputs := outputs[..index] + outputs[index + 1..];
      res := Ok(());
    }

    /** Removes, in place, every change with address `address`. */
    method RemoveChange(address: ExtendedAddr) returns (res: Result<(), TxError>)
      modifies this
      ensures Model() == Apply(old(Model()), Operation.RemoveChange(address)).tx
      ensures res == Report(Apply(old(Model()), Operation.RemoveChange(address)).outcome)
    {
      var kept, removed := RemoveMatching(changes, ChangeAddress, address);
      WithoutNothing(changes, ChangeAddress, address);
      if !removed {
        return Err(CannotRemoveChangeChangeNotFound);
      }
      changes := kept;
      res := Ok(());
    }

    method Finalize() returns (res: Result<(), TxError>)
      modifies this
      ensures Model() == Apply(old(Model()), Operation.Finalize).tx
      ensures res == Report(Apply(old(Model()), Operation.Finalize).outcome)
    {
      if finalized {
        return Err(CannotFinalizeAFinalizedTransaction);
      }
      finalized := true;
      res := Ok(());
    }
  }
}
