/**
 * The sequential (BIP-44) address lookup engine. It keeps a map from every
 * address it expects to see to the derivation path that produces it, and a
 * pair of thresholds per account (external and internal chain). New
 * addresses are generated a gap-limit window at a time, following the
 * "Address gap limit" section of BIP-44.
 *
 * The engine's state is described by the value `Sequential` and the step
 * functions below; the class `SequentialBip44Lookup` performs the same steps
 * in place and is proved to follow them. `threshold_generate` stores its new
 * threshold in a copy, so the thresholds stay at zero; the step functions
 * named `...Intended` store it, and the gap-limit invariant is proved of them.
 */
module SequentialIndex {
  import opened Types

  const DEFAULT_GAP_LIMIT: u32 := 20

  /** The derivation of an address from its path (key derivation and address construction). */
  type Derivation = Bip44Addressing -> ExtendedAddr

  /** The map key of the address a path derives. */
  function Key(derive: Derivation, a: Bip44Addressing): Addr {
    ToAddress(derive(a))
  }

  /** `Index::incr`: the index `n` further on, failing outside the non-hardened range. */
  function Incr(i: Index, n: u32): (r: Result<Index, Bip44Error>)
    ensures r.Ok? <==> i + n < BIP44_SOFT_UPPER_BOUND
    ensures r.Ok? ==> r.value == i + n
  {
    if n >= BIP44_SOFT_UPPER_BOUND then Err(IndexOutOfBound(n))
    else if i + n >= BIP44_SOFT_UPPER_BOUND then Err(IndexOutOfBound(i + n))
    else Ok(i + n)
  }

  // ---------------------------------------------------------------------------
  // Generating a window of addresses
  // ---------------------------------------------------------------------------

  /**
   * The expected map after inserting the addresses of indices `lo` .. `hi - 1`
   * of one chain, in increasing order (a later index overwrites an earlier
   * one that derives the same address).
   */
  function Fill(m: map<Addr, Bip44Addressing>, derive: Derivation, account: Index, change: u32, lo: nat, hi: nat)
    : map<Addr, Bip44Addressing>
    requires hi <= BIP44_SOFT_UPPER_BOUND
  {
    if hi <= lo then m
    else
      var a := Bip44Addressing(account, change, hi - 1);
      Fill(m, derive, account, change, lo, hi - 1)[Key(derive, a) := a]
  }

  /** `k` is the address of some index of the window `lo` .. `hi - 1`. */
  ghost predicate InWindow(derive: Derivation, account: Index, change: u32, lo: nat, hi: nat, k: Addr)
    requires hi <= BIP44_SOFT_UPPER_BOUND
  {
    exists i :: lo <= i < hi && Key(derive, Bip44Addressing(account, change, i)) == k
  }

  /** `a` is the last path of the window whose address is `k`. */
  ghost predicate LastOfWindow(derive: Derivation, account: Index, change: u32, lo: nat, hi: nat, k: Addr, a: Bip44Addressing)
    requires hi <= BIP44_SOFT_UPPER_BOUND
  {
    && a.account == account && a.change == change && lo <= a.index < hi && Key(derive, a) == k
    && forall j :: a.index < j < hi ==> Key(derive, Bip44Addressing(account, change, j)) != k
  }

  /** Growing the window by its last index adds exactly that index's address. */
  lemma InWindowStep(derive: Derivation, account: Index, change: u32, lo: nat, hi: nat, k: Addr)
    requires lo < hi <= BIP44_SOFT_UPPER_BOUND
    ensures InWindow(derive, account, change, lo, hi, k) <==>
      InWindow(derive, account, change, lo, hi - 1, k) || k == Key(derive, Bip44Addressing(account, change, hi - 1))
  {
    if InWindow(derive, account, change, lo, hi, k) && k != Key(derive, Bip44Addressing(account, change, hi - 1)) {
      var i :| lo <= i < hi && Key(derive, Bip44Addressing(account, change, i)) == k;
      assert i < hi - 1;
    }
  }

  /** A fill adds exactly the window's addresses. */
  lemma {:induction false} FillKeys(m: map<Addr, Bip44Addressing>, derive: Derivation, account: Index, change: u32, lo: nat, hi: nat)
    requires hi <= BIP44_SOFT_UPPER_BOUND
    ensures forall k :: k in Fill(m, derive, account, change, lo, hi) <==> k in m || InWindow(derive, account, change, lo, hi, k)
  {
    if hi > lo {
      FillKeys(m, derive, account, change, lo, hi - 1);
      forall k {
        InWindowStep(derive, account, change, lo, hi, k);
      }
    }
  }

  /** A fill leaves every entry outside the window alone. */
  lemma {:induction false} FillKeeps(m: map<Addr, Bip44Addressing>, derive: Derivation, account: Index, change: u32, lo: nat, hi: nat)
    requires hi <= BIP44_SOFT_UPPER_BOUND
    ensures forall k :: k in m && !InWindow(derive, account, change, lo, hi, k) ==>
      k in Fill(m, derive, account, change, lo, hi) && Fill(m, derive, account, change, lo, hi)[k] == m[k]
  {
    if hi > lo {
      FillKeeps(m, derive, account, change, lo, hi - 1);
      forall k {
        InWindowStep(derive, account, change, lo, hi, k);
      }
    }
  }

  /** A fill maps each window address to the last path of the window that derives it. */
  lemma {:induction false} FillLast(m: map<Addr, Bip44Addressing>, derive: Derivation, account: Index, change: u32, lo: nat, hi: nat)
    requires hi <= BIP44_SOFT_UPPER_BOUND
    ensures forall k :: InWindow(derive, account, change, lo, hi, k) ==>
      k in Fill(m, derive, account, change, lo, hi)
      && LastOfWindow(derive, account, change, lo, hi, k, Fill(m, derive, account, change, lo, hi)[k])
  {
    if hi > lo {
      FillLast(m, derive, account, change, lo, hi - 1);
      forall k | InWindow(derive, account, change, lo, hi, k)
        ensures k in Fill(m, derive, account, change, lo, hi)
        ensures LastOfWindow(derive, account, change, lo, hi, k, Fill(m, derive, account, change, lo, hi)[k])
      {
        InWindowStep(derive, account, change, lo, hi, k);
      }
    }
  }

  /**
   * What a fill does: it adds exactly the window's addresses, leaves every
   * other entry alone, and maps each window address to the last path of the
   * window that derives it.
   */
  lemma FillShape(m: map<Addr, Bip44Addressing>, derive: Derivation, account: Index, change: u32, lo: nat, hi: nat)
    requires hi <= BIP44_SOFT_UPPER_BOUND
    ensures forall k :: k in Fill(m, derive, account, change, lo, hi) <==> k in m || InWindow(derive, account, change, lo, hi, k)
    ensures forall k :: k in m && !InWindow(derive, account, change, lo, hi, k) ==>
      Fill(m, derive, account, change, lo, hi)[k] == m[k]
    ensures forall k :: InWindow(derive, account, change, lo, hi, k) ==>
      LastOfWindow(derive, account, change, lo, hi, k, Fill(m, derive, account, change, lo, hi)[k])
  {
    FillKeys(m, derive, account, change, lo, hi);
    FillKeeps(m, derive, account, change, lo, hi);
    FillLast(m, derive, account, change, lo, hi);
  }

  /** The last path of a window with a given address is unique. */
  lemma LastOfWindowUnique(derive: Derivation, account: Index, change: u32, lo: nat, hi: nat, k: Addr,
                           a: Bip44Addressing, b: Bip44Addressing)
    requires hi <= BIP44_SOFT_UPPER_BOUND
    requires LastOfWindow(derive, account, change, lo, hi, k, a)
    requires LastOfWindow(derive, account, change, lo, hi, k, b)
    ensures a == b
  {
    assert a == Bip44Addressing(account, change, a.index);
    assert b == Bip44Addressing(account, change, b.index);
  }

  /** Filling the same window twice is filling it once. */
  lemma FillIdempotent(m: map<Addr, Bip44Addressing>, derive: Derivation, account: Index, change: u32, lo: nat, hi: nat)
    requires hi <= BIP44_SOFT_UPPER_BOUND
    ensures Fill(Fill(m, derive, account, change, lo, hi), derive, account, change, lo, hi)
         == Fill(m, derive, account, change, lo, hi)
  {
    var once := Fill(m, derive, account, change, lo, hi);
    var twice := Fill(once, derive, account, change, lo, hi);
    FillShape(m, derive, account, change, lo, hi);
    FillShape(once, derive, account, change, lo, hi);
    forall k | k in twice
      ensures twice[k] == once[k]
    {
      if InWindow(derive, account, change, lo, hi, k) {
        LastOfWindowUnique(derive, account, change, lo, hi, k, twice[k], once[k]);
      }
    }
  }

  /** Every address of the window is expected after a fill, with a path of that window. */
  lemma FillCovers(m: map<Addr, Bip44Addressing>, derive: Derivation, account: Index, change: u32, lo: nat, hi: nat, i: nat)
    requires lo <= i < hi <= BIP44_SOFT_UPPER_BOUND
    ensures Key(derive, Bip44Addressing(account, change, i)) in Fill(m, derive, account, change, lo, hi)
    ensures var a := Fill(m, derive, account, change, lo, hi)[Key(derive, Bip44Addressing(account, change, i))];
      a.account == account && a.change == change && i <= a.index < hi
  {
    FillShape(m, derive, account, change, lo, hi);
    var k := Key(derive, Bip44Addressing(account, change, i));
    assert InWindow(derive, account, change, lo, hi, k);
  }

  /** Fills only add entries. */
  lemma FillGrows(m: map<Addr, Bip44Addressing>, derive: Derivation, account: Index, change: u32, lo: nat, hi: nat)
    requires hi <= BIP44_SOFT_UPPER_BOUND
    ensures m.Keys <= Fill(m, derive, account, change, lo, hi).Keys
  {
    FillShape(m, derive, account, change, lo, hi);
  }

  // ---------------------------------------------------------------------------
  // The engine's steps, on values
  // ---------------------------------------------------------------------------

  /** Each account's thresholds, for the external (change 0) and internal (change 1) chains. */
  type Thresholds = (Index, Index)

  function Limit(t: Thresholds, change: u32): Index
    requires change < 2
  {
    if change == 0 then t.0 else t.1
  }

  /** The engine's state: the expected addresses and the accounts' thresholds. */
  datatype Sequential = Sequential(expected: map<Addr, Bip44Addressing>, accounts: seq<Thresholds>)

  /** `mut_generate_from`: fails before inserting anything when `start + nb` leaves the range. */
  function GenerateStep(s: Sequential, derive: Derivation, account: Index, change: u32, start: Index, nb: u32)
    : (r: (Sequential, Result<(), Bip44Error>))
    ensures r.1.Ok? <==> start + nb < BIP44_SOFT_UPPER_BOUND
    ensures r.1.Err? ==> r.0 == s
    ensures r.0.accounts == s.accounts
    ensures s.expected.Keys <= r.0.expected.Keys
  {
    match Incr(start, nb)
    case Err(e) => (s, Err(e))
    case Ok(max) =>
      FillGrows(s.expected, derive, account, change, start, max);
      (s.(expected := Fill(s.expected, derive, account, change, start, max)), Ok(()))
  }

  /**
   * `prepare_next_account`: the next account number is the number of accounts
   * (as a u32); both chains get the window [0, gap limit), and the account
   * starts with thresholds [0, 0].
   */
  function PrepareStep(s: Sequential, derive: Derivation): (r: (Sequential, Result<(), Bip44Error>))
    ensures r.1.Ok? <==> |s.accounts| % 0x1_0000_0000 < BIP44_SOFT_UPPER_BOUND
    ensures r.1.Err? ==> r == (s, Err(AccountOutOfBound(|s.accounts| % 0x1_0000_0000)))
    ensures r.1.Ok? ==> r.0.accounts == s.accounts + [(0, 0)]
    ensures s.expected.Keys <= r.0.expected.Keys
  {
    var n := |s.accounts| % 0x1_0000_0000;
    if n >= BIP44_SOFT_UPPER_BOUND then (s, Err(AccountOutOfBound(n)))
    else
      match GenerateStep(s, derive, n, 0, 0, DEFAULT_GAP_LIMIT)
      case (s1, Err(e)) => (s1, Err(e))
      case (s1, Ok(_)) =>
        match GenerateStep(s1, derive, n, 1, 0, DEFAULT_GAP_LIMIT)
        case (s2, Err(e)) => (s2, Err(e))
        case (s2, Ok(_)) => (s2.(accounts := s2.accounts + [(0, 0)]), Ok(()))
  }

  /** A found path is past its chain's threshold: the only case in which `threshold_generate` acts. */
  predicate Triggers(s: Sequential, a: Bip44Addressing) {
    a.account < |s.accounts| && a.change < 2 && a.index > Limit(s.accounts[a.account], a.change)
  }

  /** The thresholds with the one of chain `change` replaced by `v`. */
  function Raise(t: Thresholds, change: u32, v: Index): (r: Thresholds)
    requires change < 2
    ensures forall c :: c < 2 ==> Limit(r, c) == if c == change then v else Limit(t, c)
  {
    if change == 0 then (v, t.1) else (t.0, v)
  }

  /**
   * `threshold_generate`: for a path past its chain's threshold, generate the
   * window [threshold + gap, threshold + 2 gap) of its chain. The new
   * threshold is written into a copy of the account's thresholds, so the
   * stored thresholds never change.
   */
  function ThresholdStep(s: Sequential, derive: Derivation, a: Bip44Addressing): (r: (Sequential, Result<(), Bip44Error>))
    ensures r.0.accounts == s.accounts
    ensures !Triggers(s, a) ==> r == (s, Ok(()))
    ensures r.1.Ok? <==> !Triggers(s, a) || Limit(s.accounts[a.account], a.change) + 2 * DEFAULT_GAP_LIMIT < BIP44_SOFT_UPPER_BOUND
    ensures r.1.Err? ==> r.0 == s
    ensures s.expected.Keys <= r.0.expected.Keys
  {
    if a.account >= |s.accounts| then (s, Ok(()))
    else
      var limits := s.accounts[a.account];
      if a.change != 0 && a.change != 1 then (s, Ok(()))
      else
        var current := Limit(limits, a.change);
        if a.index <= current then (s, Ok(()))
        else match Incr(current, DEFAULT_GAP_LIMIT)
          case Err(e) => (s, Err(e))
          case Ok(newThreshold) => GenerateStep(s, derive, a.account, a.change, newThreshold, DEFAULT_GAP_LIMIT)
  }

  /** A triggering path generates the window just past its chain's threshold. */
  lemma ThresholdWindow(s: Sequential, derive: Derivation, a: Bip44Addressing, i: nat)
    requires Triggers(s, a)
    requires ThresholdStep(s, derive, a).1.Ok?
    requires Limit(s.accounts[a.account], a.change) + DEFAULT_GAP_LIMIT <= i
    requires i < Limit(s.accounts[a.account], a.change) + 2 * DEFAULT_GAP_LIMIT
    ensures Key(derive, Bip44Addressing(a.account, a.change, i)) in ThresholdStep(s, derive, a).0.expected
    ensures var b := ThresholdStep(s, derive, a).0.expected[Key(derive, Bip44Addressing(a.account, a.change, i))];
      b.account == a.account && b.change == a.change && i <= b.index
  {
    var t := Limit(s.accounts[a.account], a.change);
    FillCovers(s.expected, derive, a.account, a.change, t + DEFAULT_GAP_LIMIT, t + 2 * DEFAULT_GAP_LIMIT, i);
  }

  /** Triggering the same path again changes nothing more: the window never moves. */
  lemma ThresholdRepeats(s: Sequential, derive: Derivation, a: Bip44Addressing)
    ensures ThresholdStep(ThresholdStep(s, derive, a).0, derive, a) == ThresholdStep(s, derive, a)
  {
    if Triggers(s, a) && ThresholdStep(s, derive, a).1.Ok? {
      var t := Limit(s.accounts[a.account], a.change);
      FillIdempotent(s.expected, derive, a.account, a.change, t + DEFAULT_GAP_LIMIT, t + 2 * DEFAULT_GAP_LIMIT);
    }
  }

  /** `lookup`: an unexpected address is not ours; an expected one runs the threshold check first. */
  function LookupStep(s: Sequential, derive: Derivation, utxo: UTxO<ExtendedAddr>)
    : (r: (Sequential, Result<Option<UTxO<Address>>, LookupError>))
    ensures ToAddress(utxo.creditedAddress) !in s.expected ==> r == (s, Ok(None))
    ensures ToAddress(utxo.creditedAddress) in s.expected ==> r.1 != Ok(None)
    ensures r.1.Ok? && r.1.value.Some? ==>
      var u := r.1.value.value;
      && u.creditedAddressing == Bip44(s.expected[ToAddress(utxo.creditedAddress)])
      && u.ExtractTxin() == utxo.ExtractTxin() && u.creditedAddress == utxo.creditedAddress
      && u.creditedValue == utxo.creditedValue
    ensures r.1.Err? ==> r.1.error.SequentialBip44? && r.0 == s
    ensures r.0.accounts == s.accounts && s.expected.Keys <= r.0.expected.Keys
  {
    var key := ToAddress(utxo.creditedAddress);
    if key in s.expected then
      var a := s.expected[key];
      match ThresholdStep(s, derive, a)
      case (s1, Err(e)) => (s1, Err(SequentialBip44(e)))
      case (s1, Ok(_)) => (s1, Ok(Some(utxo.Map(_ => Address.Bip44(a)))))
    else (s, Ok(None))
  }

  /** `acknowledge`: a BIP-44 path runs the threshold check; any other kind of address is refused. */
  function AcknowledgeStep(s: Sequential, derive: Derivation, address: Address): (r: (Sequential, Result<(), LookupError>))
    ensures !address.Bip44? ==> r == (s, Err(SequentialBip44(InvalidType(0))))
    ensures address.Bip44? && !Triggers(s, address.bip44) ==> r == (s, Ok(()))
    ensures address.Bip44? ==> r.0 == ThresholdStep(s, derive, address.bip44).0
    ensures r.0.accounts == s.accounts && s.expected.Keys <= r.0.expected.Keys
  {
    match address
    case Bip44(a) =>
      (match ThresholdStep(s, derive, a)
       case (s1, Err(e)) => (s1, Err(SequentialBip44(e)))
       case (s1, Ok(_)) => (s1, Ok(())))
    case _ => (s, Err(SequentialBip44(InvalidType(0))))
  }

  // ---------------------------------------------------------------------------
  // What the engine keeps: thresholds at zero, two windows per chain
  // ---------------------------------------------------------------------------

  /** Every address below its chain's threshold plus the gap limit is expected. */
  ghost predicate Covered(s: Sequential, derive: Derivation) {
    forall n: Index, c: u32, i: Index | n < |s.accounts| && c < 2 && i < Limit(s.accounts[n], c) + DEFAULT_GAP_LIMIT ::
      Key(derive, Bip44Addressing(n, c, i)) in s.expected
  }

  /** All thresholds are zero. */
  predicate ThresholdsAtZero(s: Sequential) {
    forall i :: 0 <= i < |s.accounts| ==> s.accounts[i] == (0, 0)
  }

  /** Every expected path is of an existing account and chain, below twice the gap limit. */
  ghost predicate WithinTwoWindows(s: Sequential) {
    forall k | k in s.expected ::
      s.expected[k].account < |s.accounts| && s.expected[k].change < 2 && s.expected[k].index < 2 * DEFAULT_GAP_LIMIT
  }

  /** Every expected address is the address of the path it is mapped to. */
  ghost predicate Consistent(s: Sequential, derive: Derivation) {
    forall k | k in s.expected :: Key(derive, s.expected[k]) == k
  }

  /**
   * The invariant the engine keeps from `new` on: every threshold stays at
   * zero, the first gap-limit window of every chain is expected, and no
   * expected path reaches twice the gap limit.
   */
  ghost predicate Stalled(s: Sequential, derive: Derivation) {
    ThresholdsAtZero(s) && Covered(s, derive) && WithinTwoWindows(s) && Consistent(s, derive)
  }

  /** Distinct paths derive distinct addresses. */
  ghost predicate Injective(derive: Derivation) {
    forall a: Bip44Addressing, b: Bip44Addressing :: Key(derive, a) == Key(derive, b) ==> a == b
  }

  /**
   * What `prepare_next_account` adds: one account with thresholds [0, 0] and
   * entries for indices below the gap limit of the account numbered by the
   * old account count, each mapped from its own address.
   */
  lemma PrepareShape(s: Sequential, derive: Derivation)
    requires PrepareStep(s, derive).1.Ok?
    ensures var r := PrepareStep(s, derive).0;
      && r.accounts == s.accounts + [(0, 0)]
      && forall k | k in r.expected ::
        || (k in s.expected && r.expected[k] == s.expected[k])
        || (&& r.expected[k].account == |s.accounts| % 0x1_0000_0000 && r.expected[k].change < 2
            && r.expected[k].index < DEFAULT_GAP_LIMIT && Key(derive, r.expected[k]) == k)
  {
    var n := |s.accounts| % 0x1_0000_0000;
    var s1 := GenerateStep(s, derive, n, 0, 0, DEFAULT_GAP_LIMIT).0;
    FillShape(s.expected, derive, n, 0, 0, DEFAULT_GAP_LIMIT);
    FillShape(s1.expected, derive, n, 1, 0, DEFAULT_GAP_LIMIT);
  }

  /** `prepare_next_account` creates the account numbered by the old account count, with both first windows. */
  lemma PrepareCovers(s: Sequential, derive: Derivation, change: u32, i: nat)
    requires PrepareStep(s, derive).1.Ok?
    requires change < 2 && i < DEFAULT_GAP_LIMIT
    ensures Key(derive, Bip44Addressing(|s.accounts| % 0x1_0000_0000, change, i)) in PrepareStep(s, derive).0.expected
  {
    var n := |s.accounts| % 0x1_0000_0000;
    var s1 := GenerateStep(s, derive, n, 0, 0, DEFAULT_GAP_LIMIT).0;
    var s2 := GenerateStep(s1, derive, n, 1, 0, DEFAULT_GAP_LIMIT).0;
    FillCovers(s.expected, derive, n, 0, 0, DEFAULT_GAP_LIMIT, i);
    FillCovers(s1.expected, derive, n, 1, 0, DEFAULT_GAP_LIMIT, i);
    FillGrows(s1.expected, derive, n, 1, 0, DEFAULT_GAP_LIMIT);
  }

  /** `prepare_next_account` keeps every window the thresholds call for, and adds the new account's. */
  lemma PrepareKeepsCovered(s: Sequential, derive: Derivation)
    requires Covered(s, derive)
    ensures Covered(PrepareStep(s, derive).0, derive)
  {
    var r := PrepareStep(s, derive).0;
    if PrepareStep(s, derive).1.Ok? {
      assert r.accounts == s.accounts + [(0, 0)];
      forall m: Index, c: u32, i: Index | m < |r.accounts| && c < 2 && i < Limit(r.accounts[m], c) + DEFAULT_GAP_LIMIT
        ensures Key(derive, Bip44Addressing(m, c, i)) in r.expected
      {
        if m < |s.accounts| {
          assert r.accounts[m] == s.accounts[m];
        } else {
          PrepareCovers(s, derive, c, i);
        }
      }
      assert |s.accounts| % 0x1_0000_0000 <= |s.accounts|;
    }
  }

  /** `prepare_next_account` keeps the invariant. */
  lemma PrepareKeepsStall(s: Sequential, derive: Derivation)
    requires Stalled(s, derive)
    ensures Stalled(PrepareStep(s, derive).0, derive)
  {
    PrepareKeepsCovered(s, derive);
    if PrepareStep(s, derive).1.Ok? {
      PrepareShape(s, derive);
      assert |s.accounts| % 0x1_0000_0000 <= |s.accounts|;
    }
  }

  /** More entries under the same thresholds keep every window covered. */
  lemma GrowKeepsCovered(s: Sequential, r: Sequential, derive: Derivation)
    requires Covered(s, derive) && r.accounts == s.accounts && s.expected.Keys <= r.expected.Keys
    ensures Covered(r, derive)
  {
    forall n: Index, c: u32, i: Index | n < |r.accounts| && c < 2 && i < Limit(r.accounts[n], c) + DEFAULT_GAP_LIMIT
      ensures Key(derive, Bip44Addressing(n, c, i)) in r.expected
    {
      assert Key(derive, Bip44Addressing(n, c, i)) in s.expected;
    }
  }

  /**
   * What a triggering path past a zero threshold adds: entries of its chain
   * below twice the gap limit, each mapped from its own address.
   */
  lemma SecondWindowShape(s: Sequential, derive: Derivation, a: Bip44Addressing)
    requires Triggers(s, a) && ThresholdStep(s, derive, a).1.Ok? && s.accounts[a.account] == (0, 0)
    ensures var r := ThresholdStep(s, derive, a).0;
      forall k | k in r.expected ::
        || (k in s.expected && r.expected[k] == s.expected[k])
        || (&& r.expected[k].account == a.account && r.expected[k].change == a.change
            && r.expected[k].index < 2 * DEFAULT_GAP_LIMIT && Key(derive, r.expected[k]) == k)
  {
    FillShape(s.expected, derive, a.account, a.change, DEFAULT_GAP_LIMIT, 2 * DEFAULT_GAP_LIMIT);
  }

  /** `threshold_generate` keeps the invariant: the window it generates is the second one. */
  lemma ThresholdKeepsStall(s: Sequential, derive: Derivation, a: Bip44Addressing)
    requires Stalled(s, derive)
    ensures Stalled(ThresholdStep(s, derive, a).0, derive)
  {
    var r := ThresholdStep(s, derive, a).0;
    GrowKeepsCovered(s, r, derive);
    if Triggers(s, a) && ThresholdStep(s, derive, a).1.Ok? {
      SecondWindowShape(s, derive, a);
    }
  }

  /** Starting from `new`, preparing accounts, lookups and acknowledgements keep the invariant. */
  lemma StepsKeepStall(s: Sequential, derive: Derivation, a: Bip44Addressing, address: Address, utxo: UTxO<ExtendedAddr>)
    requires Stalled(s, derive)
    ensures Stalled(PrepareStep(s, derive).0, derive)
    ensures Stalled(ThresholdStep(s, derive, a).0, derive)
    ensures Stalled(LookupStep(s, derive, utxo).0, derive)
    ensures Stalled(AcknowledgeStep(s, derive, address).0, derive)
  {
    PrepareKeepsStall(s, derive);
    ThresholdKeepsStall(s, derive, a);
    if address.Bip44? {
      ThresholdKeepsStall(s, derive, address.bip44);
    }
    var key := ToAddress(utxo.creditedAddress);
    if key in s.expected {
      ThresholdKeepsStall(s, derive, s.expected[key]);
    }
  }

  /**
   * A path found at index gap limit or below keeps the gap limit: every
   * address of its chain up to a gap limit past it is expected afterwards.
   */
  lemma FoundEarlyKeepsGap(s: Sequential, derive: Derivation, a: Bip44Addressing, i: Index)
    requires Stalled(s, derive)
    requires a.account < |s.accounts| && a.change < 2 && a.index <= DEFAULT_GAP_LIMIT
    requires i < a.index + DEFAULT_GAP_LIMIT
    ensures Key(derive, Bip44Addressing(a.account, a.change, i)) in ThresholdStep(s, derive, a).0.expected
  {
    assert s.accounts[a.account] == (0, 0);
    if i >= DEFAULT_GAP_LIMIT {
      ThresholdWindow(s, derive, a, i);
    } else {
      assert Key(derive, Bip44Addressing(a.account, a.change, i)) in s.expected;
    }
  }

  /** With distinct addresses for distinct paths, no path of index twice the gap limit or more is expected. */
  lemma NeverPastSecondWindow(s: Sequential, derive: Derivation, a: Bip44Addressing)
    requires Stalled(s, derive) && Injective(derive)
    requires a.index >= 2 * DEFAULT_GAP_LIMIT
    ensures Key(derive, a) !in s.expected
  {
  }

  /**
   * A path found past index gap limit loses the gap limit: with distinct
   * addresses for distinct paths, the address of its chain a gap limit
   * past it (the last the gap limit calls for) is not expected afterwards.
   */
  lemma FoundLateLosesGap(s: Sequential, derive: Derivation, a: Bip44Addressing)
    requires Stalled(s, derive) && Injective(derive)
    requires a.index > DEFAULT_GAP_LIMIT && a.index + DEFAULT_GAP_LIMIT <= BIP44_SOFT_UPPER_BOUND
    ensures Key(derive, Bip44Addressing(a.account, a.change, a.index + DEFAULT_GAP_LIMIT - 1)) !in ThresholdStep(s, derive, a).0.expected
  {
    ThresholdKeepsStall(s, derive, a);
    NeverPastSecondWindow(ThresholdStep(s, derive, a).0, derive, Bip44Addressing(a.account, a.change, a.index + DEFAULT_GAP_LIMIT - 1));
  }

  // ---------------------------------------------------------------------------
  // `threshold_generate` as intended
  // ---------------------------------------------------------------------------

  /**
   * `threshold_generate` as intended: the same window is generated, and the
   * chain's stored threshold advances by the gap limit.
   */
  function ThresholdStepIntended(s: Sequential, derive: Derivation, a: Bip44Addressing): (r: (Sequential, Result<(), Bip44Error>))
    ensures r.1 == ThresholdStep(s, derive, a).1 && r.0.expected == ThresholdStep(s, derive, a).0.expected
    ensures !(Triggers(s, a) && r.1.Ok?) ==> r.0.accounts == s.accounts
    ensures Triggers(s, a) && r.1.Ok? ==>
      var t := Limit(s.accounts[a.account], a.change);
      r.0.accounts == s.accounts[a.account := Raise(s.accounts[a.account], a.change, t + DEFAULT_GAP_LIMIT)]
  {
    var (s1, res) := ThresholdStep(s, derive, a);
    if Triggers(s, a) && res.Ok? then
      var t := Limit(s.accounts[a.account], a.change);
      (s1.(accounts := s.accounts[a.account := Raise(s.accounts[a.account], a.change, t + DEFAULT_GAP_LIMIT)]), res)
    else (s1, res)
  }

  /** `lookup` as intended: the same answer, through the intended threshold check. */
  function LookupStepIntended(s: Sequential, derive: Derivation, utxo: UTxO<ExtendedAddr>)
    : (r: (Sequential, Result<Option<UTxO<Address>>, LookupError>))
    ensures r.1 == LookupStep(s, derive, utxo).1 && r.0.expected == LookupStep(s, derive, utxo).0.expected
    ensures ToAddress(utxo.creditedAddress) !in s.expected ==> r == (s, Ok(None))
    ensures ToAddress(utxo.creditedAddress) in s.expected ==>
      r.0 == ThresholdStepIntended(s, derive, s.expected[ToAddress(utxo.creditedAddress)]).0
  {
    var key := ToAddress(utxo.creditedAddress);
    if key in s.expected then
      var a := s.expected[key];
      match ThresholdStepIntended(s, derive, a)
      case (s1, Err(e)) => (s1, Err(SequentialBip44(e)))
      case (s1, Ok(_)) => (s1, Ok(Some(utxo.Map(_ => Address.Bip44(a)))))
    else (s, Ok(None))
  }

  /** `acknowledge` as intended: the same answer, through the intended threshold check. */
  function AcknowledgeStepIntended(s: Sequential, derive: Derivation, address: Address): (r: (Sequential, Result<(), LookupError>))
    ensures r.1 == AcknowledgeStep(s, derive, address).1 && r.0.expected == AcknowledgeStep(s, derive, address).0.expected
    ensures !address.Bip44? ==> r == (s, Err(SequentialBip44(InvalidType(0))))
    ensures address.Bip44? ==> r.0 == ThresholdStepIntended(s, derive, address.bip44).0
  {
    match address
    case Bip44(a) =>
      (match ThresholdStepIntended(s, derive, a)
       case (s1, Err(e)) => (s1, Err(SequentialBip44(e)))
       case (s1, Ok(_)) => (s1, Ok(())))
    case _ => (s, Err(SequentialBip44(InvalidType(0))))
  }

  /** Every expected path is of an existing account and chain, below its chain's threshold plus the gap limit. */
  ghost predicate Bounded(s: Sequential) {
    forall k | k in s.expected ::
      && s.expected[k].account < |s.accounts| && s.expected[k].change < 2
      && s.expected[k].index < Limit(s.accounts[s.expected[k].account], s.expected[k].change) + DEFAULT_GAP_LIMIT
  }

  /**
   * The gap-limit invariant of section "Address gap limit" of BIP-44: the
   * engine expects exactly a window that reaches a gap limit past every
   * threshold, and no path beyond it.
   */
  ghost predicate GapKept(s: Sequential, derive: Derivation) {
    Covered(s, derive) && Bounded(s)
  }

  /** `prepare_next_account`, which is the same in both variants, establishes the windows of the new account. */
  lemma PrepareKeepsGap(s: Sequential, derive: Derivation)
    requires GapKept(s, derive)
    ensures GapKept(PrepareStep(s, derive).0, derive)
  {
    PrepareKeepsCovered(s, derive);
    if PrepareStep(s, derive).1.Ok? {
      PrepareShape(s, derive);
      assert |s.accounts| % 0x1_0000_0000 <= |s.accounts|;
    }
  }

  /** The intended `threshold_generate` keeps the gap-limit invariant. */
  lemma IntendedThresholdKeepsGap(s: Sequential, derive: Derivation, a: Bip44Addressing)
    requires GapKept(s, derive)
    ensures GapKept(ThresholdStepIntended(s, derive, a).0, derive)
  {
    var r := ThresholdStepIntended(s, derive, a).0;
    if Triggers(s, a) && ThresholdStep(s, derive, a).1.Ok? {
      var t := Limit(s.accounts[a.account], a.change);
      forall m: Index, c: u32, i: Index | m < |r.accounts| && c < 2 && i < Limit(r.accounts[m], c) + DEFAULT_GAP_LIMIT
        ensures Key(derive, Bip44Addressing(m, c, i)) in r.expected
      {
        if m == a.account && c == a.change && t + DEFAULT_GAP_LIMIT <= i {
          ThresholdWindow(s, derive, a, i);
        } else {
          assert Key(derive, Bip44Addressing(m, c, i)) in s.expected;
        }
      }
      IntendedKeepsBounded(s, derive, a);
    }
  }

  /** As intended, the entries a triggering path adds lie below its chain's raised threshold plus the gap limit. */
  lemma IntendedKeepsBounded(s: Sequential, derive: Derivation, a: Bip44Addressing)
    requires Bounded(s) && Triggers(s, a) && ThresholdStep(s, derive, a).1.Ok?
    ensures Bounded(ThresholdStepIntended(s, derive, a).0)
  {
    var r := ThresholdStepIntended(s, derive, a).0;
    var t := Limit(s.accounts[a.account], a.change);
    FillShape(s.expected, derive, a.account, a.change, t + DEFAULT_GAP_LIMIT, t + 2 * DEFAULT_GAP_LIMIT);
    forall k | k in r.expected
      ensures r.expected[k].account < |r.accounts| && r.expected[k].change < 2
      ensures r.expected[k].index < Limit(r.accounts[r.expected[k].account], r.expected[k].change) + DEFAULT_GAP_LIMIT
    {
      var b := r.expected[k];
      if k in s.expected && b == s.expected[k] {
        assert Limit(s.accounts[b.account], b.change) <= Limit(r.accounts[b.account], b.change);
      } else {
        assert b.account == a.account && b.change == a.change && b.index < t + 2 * DEFAULT_GAP_LIMIT;
      }
    }
  }

  /**
   * The point of the thresholds, as intended: once a path that the engine
   * expects is found, every address of its chain up to a gap limit past it
   * is expected.
   */
  lemma {:induction false} IntendedFoundKeepsGap(s: Sequential, derive: Derivation, a: Bip44Addressing, i: Index)
    requires GapKept(s, derive)
    requires a.account < |s.accounts| && a.change < 2
    requires a.index < Limit(s.accounts[a.account], a.change) + DEFAULT_GAP_LIMIT
    requires ThresholdStepIntended(s, derive, a).1.Ok?
    requires i < a.index + DEFAULT_GAP_LIMIT
    ensures Key(derive, Bip44Addressing(a.account, a.change, i)) in ThresholdStepIntended(s, derive, a).0.expected
  {
    var r := ThresholdStepIntended(s, derive, a).0;
    IntendedThresholdKeepsGap(s, derive, a);
    assert i < Limit(r.accounts[a.account], a.change) + DEFAULT_GAP_LIMIT;
  }

  /**
   * What a successful intended lookup of one of our addresses leaves behind:
   * the gap-limit invariant still holds and every address of the found
   * path's chain, up to a gap limit past it, is expected.
   */
  lemma IntendedLookupKeepsGap(s: Sequential, derive: Derivation, utxo: UTxO<ExtendedAddr>, i: Index)
    requires GapKept(s, derive)
    requires LookupStepIntended(s, derive, utxo).1.Ok?
    ensures GapKept(LookupStepIntended(s, derive, utxo).0, derive)
    ensures ToAddress(utxo.creditedAddress) in s.expected ==>
      var a := s.expected[ToAddress(utxo.creditedAddress)];
      i < a.index + DEFAULT_GAP_LIMIT ==> Key(derive, Bip44Addressing(a.account, a.change, i)) in LookupStepIntended(s, derive, utxo).0.expected
  {
    var key := ToAddress(utxo.creditedAddress);
    if key in s.expected {
      var a := s.expected[key];
      IntendedThresholdKeepsGap(s, derive, a);
      if i < a.index + DEFAULT_GAP_LIMIT {
        IntendedFoundKeepsGap(s, derive, a, i);
      }
    }
  }

  /** As intended, preparing accounts, lookups and acknowledgements keep the gap-limit invariant. */
  lemma IntendedStepsKeepGap(s: Sequential, derive: Derivation, a: Bip44Addressing, address: Address, utxo: UTxO<ExtendedAddr>)
    requires GapKept(s, derive)
    ensures GapKept(PrepareStep(s, derive).0, derive)
    ensures GapKept(ThresholdStepIntended(s, derive, a).0, derive)
    ensures GapKept(LookupStepIntended(s, derive, utxo).0, derive)
    ensures GapKept(AcknowledgeStepIntended(s, derive, address).0, derive)
  {
    PrepareKeepsGap(s, derive);
    IntendedThresholdKeepsGap(s, derive, a);
    if address.Bip44? {
      IntendedThresholdKeepsGap(s, derive, address.bip44);
    }
    var key := ToAddress(utxo.creditedAddress);
    if key in s.expected {
      IntendedThresholdKeepsGap(s, derive, s.expected[key]);
    }
  }

  // ---------------------------------------------------------------------------
  // One input, both ways
  // ---------------------------------------------------------------------------

  /** The first path of the external chain of account 0 with index `i`. */
  function External0(i: Index): Bip44Addressing {
    Bip44Addressing(0, 0, i)
  }

  /** Account 0 prepared on an empty engine: both its thresholds are zero. */
  lemma PrepareFirst(derive: Derivation)
    ensures PrepareStep(Sequential(map[], []), derive).1.Ok?
    ensures PrepareStep(Sequential(map[], []), derive).0.accounts == [(0, 0)]
  {
  }

  /** A new engine with account 0 prepared keeps the invariant. */
  lemma PreparedFirstStalled(derive: Derivation)
    ensures Stalled(PrepareStep(Sequential(map[], []), derive).0, derive)
  {
    PrepareKeepsStall(Sequential(map[], []), derive);
  }

  /** The lookup of an address that a path of the engine's map derives finds it and keeps the invariant. */
  lemma LookupFoundKeepsStall(s: Sequential, derive: Derivation, u: UTxO<ExtendedAddr>, a: Bip44Addressing)
    requires Stalled(s, derive) && Injective(derive)
    requires ToAddress(u.creditedAddress) == Key(derive, a) && Key(derive, a) in s.expected
    ensures LookupStep(s, derive, u).0 == ThresholdStep(s, derive, a).0
    ensures LookupStep(s, derive, u).1.Ok? && LookupStep(s, derive, u).1.value.Some?
    ensures Stalled(LookupStep(s, derive, u).0, derive)
  {
    assert s.expected[Key(derive, a)] == a;
    assert s.accounts[a.account] == (0, 0);
    ThresholdKeepsStall(s, derive, a);
  }

  /** With account 0 alone, the lookups of the external addresses of indices 1 and then 21 find both. */
  lemma FindsOneThenTwentyOne(s: Sequential, derive: Derivation, u1: UTxO<ExtendedAddr>, u21: UTxO<ExtendedAddr>)
    requires Stalled(s, derive) && Injective(derive) && s.accounts == [(0, 0)]
    requires ToAddress(u1.creditedAddress) == Key(derive, External0(1))
    requires ToAddress(u21.creditedAddress) == Key(derive, External0(21))
    ensures var s1 := LookupStep(s, derive, u1);
      var s2 := LookupStep(s1.0, derive, u21);
      && s1.1.Ok? && s1.1.value.Some? && s2.1.Ok? && s2.1.value.Some? && Stalled(s2.0, derive)
  {
    assert Key(derive, External0(1)) in s.expected;
    LookupFoundKeepsStall(s, derive, u1, External0(1));
    ThresholdWindow(s, derive, External0(1), 21);
    LookupFoundKeepsStall(LookupStep(s, derive, u1).0, derive, u21, External0(21));
  }

  /**
   * The discrepancy on one input: with account 0 prepared, the lookups of
   * the external addresses of indices 1 and 21 find them, and then no
   * expected path has index 40 or more: the address of index 45 is not
   * ours, although 21 was found and the gap limit is 20.
   */
  lemma GapLimitExampleAsWritten(derive: Derivation, u1: UTxO<ExtendedAddr>, u21: UTxO<ExtendedAddr>, u45: UTxO<ExtendedAddr>)
    requires Injective(derive)
    requires ToAddress(u1.creditedAddress) == Key(derive, External0(1))
    requires ToAddress(u21.creditedAddress) == Key(derive, External0(21))
    requires ToAddress(u45.creditedAddress) == Key(derive, External0(45))
    ensures var s0 := PrepareStep(Sequential(map[], []), derive).0;
      var s1 := LookupStep(s0, derive, u1);
      var s2 := LookupStep(s1.0, derive, u21);
      && s1.1.Ok? && s1.1.value.Some? && s2.1.Ok? && s2.1.value.Some?
      && (forall k | k in s2.0.expected :: s2.0.expected[k].index < 40)
      && LookupStep(s2.0, derive, u45) == (s2.0, Ok(None))
  {
    var s0 := PrepareStep(Sequential(map[], []), derive).0;
    PrepareFirst(derive);
    PreparedFirstStalled(derive);
    FindsOneThenTwentyOne(s0, derive, u1, u21);
    var s2 := LookupStep(LookupStep(s0, derive, u1).0, derive, u21).0;
    NeverPastSecondWindow(s2, derive, External0(45));
  }

  /** Finding index 1 of the external chain of an only account with thresholds [0, 0] raises that threshold to 20, as intended. */
  lemma IntendedFindsOne(s: Sequential, derive: Derivation)
    requires s.accounts == [(0, 0)]
    ensures ThresholdStepIntended(s, derive, External0(1)).0.accounts == [(20, 0)]
  {
    assert Triggers(s, External0(1));
  }

  /** Finding indices 1 and then 21 of the external chain of an only account with thresholds [0, 0], as intended. */
  lemma IntendedFindsOneThenTwentyOne(s: Sequential, derive: Derivation)
    requires GapKept(s, derive) && s.accounts == [(0, 0)]
    ensures var c := ThresholdStepIntended(ThresholdStepIntended(s, derive, External0(1)).0, derive, External0(21)).0;
      Key(derive, External0(40)) in c.expected && Key(derive, External0(45)) in c.expected
  {
    var s1 := ThresholdStepIntended(s, derive, External0(1)).0;
    IntendedThresholdKeepsGap(s, derive, External0(1));
    IntendedFindsOne(s, derive);
    IntendedFoundKeepsGap(s1, derive, External0(21), 40);
    ThresholdWindow(s1, derive, External0(21), 45);
  }

  /** The same input as intended: the addresses of indices 40 and 45 are expected. */
  lemma GapLimitExampleIntended(derive: Derivation)
    ensures var s0 := PrepareStep(Sequential(map[], []), derive).0;
      var c := ThresholdStepIntended(ThresholdStepIntended(s0, derive, External0(1)).0, derive, External0(21)).0;
      Key(derive, External0(40)) in c.expected && Key(derive, External0(45)) in c.expected
  {
    var empty := Sequential(map[], []);
    PrepareFirst(derive);
    PrepareKeepsGap(empty, derive);
    IntendedFindsOneThenTwentyOne(PrepareStep(empty, derive).0, derive);
  }

  // ---------------------------------------------------------------------------
  // The engine object
  // ---------------------------------------------------------------------------

  class SequentialBip44Lookup {
    const derive: Derivation
    const gapLimit: u32 := DEFAULT_GAP_LIMIT
    var expected: map<Addr, Bip44Addressing>
    var accounts: seq<Thresholds>

    function Model(): Sequential
      reads this
    {
      Sequential(expected, accounts)
    }

    /** `new`: nothing expected, no accounts, the default gap limit. */
    constructor (derive: Derivation)
      ensures Model() == Sequential(map[], []) && Stalled(Model(), derive) && GapKept(Model(), derive)
      ensures this.derive == derive && gapLimit == 20
    {
      this.derive := derive;
      expected := map[];
      accounts := [];
    }

    /** `get_address`: the address a path derives. */
    function GetAddress(a: Bip44Addressing): ExtendedAddr {
      derive(a)
    }

    method MutGenerateFrom(account: Index, change: u32, start: Index, nb: u32) returns (r: Result<(), Bip44Error>)
      modifies this
      ensures (Model(), r) == GenerateStep(old(Model()), derive, account, change, start, nb)
    {
      var max := Incr(start, nb);
      if max.Err? {
        return Err(max.error);
      }
      var index: Index := start;
      while index < max.value
        invariant start <= index <= max.value
        invariant expected == Fill(old(expected), derive, account, change, start, index)
        invariant accounts == old(accounts)
      {
        var addressing := Bip44Addressing(account, change, index);
        var addr := GetAddress(addressing);
        expected := expected[ToAddress(addr) := addressing];
        // the increment cannot fail: index + 1 <= max is in range
        index := Incr(index, 1).value;
      }
      r := Ok(());
    }

    method PrepareNextAccount() returns (r: Result<(), Bip44Error>)
      modifies this
      ensures (Model(), r) == PrepareStep(old(Model()), derive)
    {
      var accountNb := |accounts| % 0x1_0000_0000;
      if accountNb >= BIP44_SOFT_UPPER_BOUND {
        return Err(AccountOutOfBound(accountNb));
      }
      // neither generation can fail: 0 + gap limit is in range
      var _ := MutGenerateFrom(accountNb, 0, 0, gapLimit);
      var _ := MutGenerateFrom(accountNb, 1, 0, gapLimit);
      accounts := accounts + [(0, 0)];
      r := Ok(());
    }

    method ThresholdGenerate(addressing: Bip44Addressing) returns (r: Result<(), Bip44Error>)
      modifies this
      ensures (Model(), r) == ThresholdStep(old(Model()), derive, addressing)
    {
      if addressing.account >= |accounts| {
        return Ok(());
      }
      var limits := accounts[addressing.account];
      if addressing.change != 0 && addressing.change != 1 {
        return Ok(());
      }
      var currentThreshold := Limit(limits, addressing.change);
      if addressing.index <= currentThreshold {
        return Ok(());
      }
      var newThreshold := Incr(currentThreshold, gapLimit);
      if newThreshold.Err? {
        return Err(newThreshold.error);
      }
      r := MutGenerateFrom(addressing.account, addressing.change, newThreshold.value, gapLimit);
      if r.Err? {
        return;
      }
      // the new threshold goes into the copy `limits` only: the stored thresholds stay as they were
      limits := Raise(limits, addressing.change, newThreshold.value);
    }

    method Lookup(utxo: UTxO<ExtendedAddr>) returns (r: Result<Option<UTxO<Address>>, LookupError>)
      modifies this
      ensures (Model(), r) == LookupStep(old(Model()), derive, utxo)
    {
      var key := ToAddress(utxo.creditedAddress);
      if key !in expected {
        return Ok(None);
      }
      var addressing := expected[key];
      var t := ThresholdGenerate(addressing);
      if t.Err? {
        return Err(SequentialBip44(t.error));
      }
      r := Ok(Some(utxo.Map(_ => Address.Bip44(addressing))));
    }

    method Acknowledge(address: Address) returns (r: Result<(), LookupError>)
      modifies this
      ensures (Model(), r) == AcknowledgeStep(old(Model()), derive, address)
    {
      match address {
        case Bip44(a) =>
          var t := ThresholdGenerate(a);
          if t.Err? {
            return Err(SequentialBip44(t.error));
          }
          r := Ok(());
        case _ =>
          r := Err(SequentialBip44(InvalidType(0)));
      }
    }
  }
}
