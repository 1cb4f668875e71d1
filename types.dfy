/**
 * Vocabulary shared by the wallet, staging-transaction and blockchain models:
 * result wrappers, fixed-width integers and their big-endian byte encodings,
 * block hashes and dates, state pointers, coins, transaction output pointers,
 * unspent outputs, the three kinds of wallet address, and the append-only
 * record files both the wallet LOG and the staging files are stored in.
 */
module Types {

  datatype Option<+T> = None | Some(value: T)

  datatype Result<+T, +E> = Ok(value: T) | Err(error: E)

  type byte = b: int | 0 <= b < 0x100
  type u16 = n: int | 0 <= n < 0x1_0000
  type u32 = n: int | 0 <= n < 0x1_0000_0000
  type u64 = n: int | 0 <= n < 0x1_0000_0000_0000_0000

  const U32_MAX: u32 := 0xFFFF_FFFF
  const U64_MAX: u64 := 0xFFFF_FFFF_FFFF_FFFF

  // ---------------------------------------------------------------------------
  // Big-endian fixed-width integers (write_u32 / write_u64 and their readers)
  // ---------------------------------------------------------------------------

  function Pow256(width: nat): (r: nat)
    ensures r >= 1
  {
    if width == 0 then 1 else 256 * Pow256(width - 1)
  }

  /** The `width` bytes of `n`, most significant first. */
  function EncodeBE(n: nat, width: nat): (r: seq<byte>)
    requires n < Pow256(width)
    ensures |r| == width
  {
    if width == 0 then [] else EncodeBE(n / 256, width - 1) + [n % 256]
  }

  /** The number whose big-endian bytes are `s`. */
  function DecodeBE(s: seq<byte>): (r: nat)
    ensures r < Pow256(|s|)
  {
    if s == [] then 0 else DecodeBE(s[..|s| - 1]) * 256 + s[|s| - 1]
  }

  lemma {:induction false} DecodeEncodeBE(n: nat, width: nat)
    requires n < Pow256(width)
    ensures DecodeBE(EncodeBE(n, width)) == n
  {
    if width > 0 {
      var prefix := EncodeBE(n / 256, width - 1);
      assert EncodeBE(n, width)[..width - 1] == prefix;
      DecodeEncodeBE(n / 256, width - 1);
    }
  }

  lemma {:induction false} EncodeDecodeBE(s: seq<byte>)
    ensures EncodeBE(DecodeBE(s), |s|) == s
  {
    if s != [] {
      var init := s[..|s| - 1];
      EncodeDecodeBE(init);
      assert DecodeBE(s) / 256 == DecodeBE(init);
      assert s == init + [s[|s| - 1]];
    }
  }

  function EncodeU32(n: u32): (r: seq<byte>)
    ensures |r| == 4 && DecodeBE(r) == n
  {
    DecodeEncodeBE(n, 4);
    EncodeBE(n, 4)
  }

  function EncodeU64(n: u64): (r: seq<byte>)
    ensures |r| == 8 && DecodeBE(r) == n
  {
    DecodeEncodeBE(n, 8);
    EncodeBE(n, 8)
  }

  function DecodeU32(s: seq<byte>): (r: u32)
    requires |s| == 4
    ensures EncodeU32(r) == s
  {
    EncodeDecodeBE(s);
    DecodeBE(s)
  }

  function DecodeU64(s: seq<byte>): (r: u64)
    requires |s| == 8
    ensures EncodeU64(r) == s
  {
    EncodeDecodeBE(s);
    DecodeBE(s)
  }

  // ---------------------------------------------------------------------------
  // Block hashes, dates and the state pointer
  // ---------------------------------------------------------------------------

  /** A 32-byte block header hash (also used for transaction ids). */
  type Hash = h: seq<byte> | |h| == 32 witness seq(32, i => 0)

  datatype EpochSlotId = EpochSlotId(epoch: u64, slotid: u16)

  /** A block's date: the boundary (epoch-start) block of an epoch, or a slot in it. */
  datatype BlockDate = Boundary(epochNumber: u64) | Normal(slot: EpochSlotId)
  {
    function EpochId(): u64 {
      match this
      case Boundary(e) => e
      case Normal(s) => s.epoch
    }
  }

  /**
   * The order of block dates: by epoch, the boundary block before every slot
   * of its epoch, then by slot.
   */
  predicate DateLess(a: BlockDate, b: BlockDate) {
    if a.EpochId() != b.EpochId() then a.EpochId() < b.EpochId()
    else match (a, b)
      case (Boundary(_), Boundary(_)) => false
      case (Boundary(_), Normal(_)) => true
      case (Normal(_), Boundary(_)) => false
      case (Normal(x), Normal(y)) => x.slotid < y.slotid
  }

  lemma DateLessIsStrictTotal(a: BlockDate, b: BlockDate, c: BlockDate)
    ensures !DateLess(a, a)
    ensures DateLess(a, b) && DateLess(b, c) ==> DateLess(a, c)
    ensures a != b ==> DateLess(a, b) || DateLess(b, a)
  {
  }

  /** The last block whose effects a wallet state reflects. */
  datatype StatePtr = StatePtr(latestAddr: Option<BlockDate>, latestKnownHash: Hash)
  {
    /** The pointer's date; the pointer before genesis has none and reads as epoch 0's boundary. */
    function LatestBlockDate(): BlockDate {
      match latestAddr
      case Some(d) => d
      case None => Boundary(0)
    }
  }

  function NewStatePtr(date: BlockDate, hash: Hash): StatePtr {
    StatePtr(Some(date), hash)
  }

  function BeforeGenesis(genesis: Hash): StatePtr {
    StatePtr(None, genesis)
  }

  // ---------------------------------------------------------------------------
  // Coins, addresses, outputs
  // ---------------------------------------------------------------------------

  const MAX_COIN: nat := 45_000_000_000_000_000

  type Coin = c: int | 0 <= c <= MAX_COIN

  datatype CoinError = OutOfBound(value: nat)

  /** Checked coin addition: fails when the sum exceeds the coin supply. */
  function CoinAdd(a: Coin, b: Coin): (r: Result<Coin, CoinError>)
    ensures r.Ok? <==> a + b <= MAX_COIN
    ensures r.Ok? ==> r.value == a + b
  {
    if a + b <= MAX_COIN then Ok(a + b) else Err(OutOfBound(a + b))
  }

  /** A chain address (opaque bytes); `Addr` is its compact form used as a map key. */
  datatype ExtendedAddr = ExtendedAddr(bytes: seq<byte>)

  type Addr = seq<byte>

  function ToAddress(a: ExtendedAddr): Addr {
    a.bytes
  }

  type TxId = Hash

  datatype TxoPointer = TxoPointer(id: TxId, index: u32)

  datatype TxOut = TxOut(address: ExtendedAddr, value: Coin)

  /** An unspent output, generic over how the credited address is resolved. */
  datatype UTxO<A> = UTxO(
    transactionId: TxId,
    indexInTransaction: u32,
    creditedAddress: ExtendedAddr,
    creditedValue: Coin,
    creditedAddressing: A)
  {
    function ExtractTxin(): TxoPointer {
      TxoPointer(transactionId, indexInTransaction)
    }

    function Map<B>(f: A -> B): (r: UTxO<B>)
      ensures r.ExtractTxin() == ExtractTxin()
      ensures r.creditedAddress == creditedAddress && r.creditedValue == creditedValue
      ensures r.creditedAddressing == f(creditedAddressing)
    {
      UTxO(transactionId, indexInTransaction, creditedAddress, creditedValue, f(creditedAddressing))
    }
  }

  /** Account numbers and address indices stay below 2^31 (BIP-44's non-hardened range). */
  const BIP44_SOFT_UPPER_BOUND: nat := 0x8000_0000

  type Index = i: int | 0 <= i < BIP44_SOFT_UPPER_BOUND

  /** A BIP-44 derivation path below the wallet root: account, change chain, index. */
  datatype Bip44Addressing = Bip44Addressing(account: Index, change: u32, index: Index)

  /** A random-index (two-level) derivation path. */
  datatype RIndexAddressing = RIndexAddressing(account: u32, index: u32)

  /** How a wallet knows one of its addresses. */
  datatype Address =
    | Short(address: ExtendedAddr)
    | RIndex(rindex: RIndexAddressing)
    | Bip44(bip44: Bip44Addressing)

  datatype Bip44Error = IndexOutOfBound(index: nat) | AccountOutOfBound(account: nat) | InvalidType(code: nat)

  datatype RIndexError = CannotReconstructAddress(address: ExtendedAddr) | PayloadError(code: nat)

  datatype LookupError = SequentialBip44(bip44Error: Bip44Error) | RandomIndex(rindexError: RIndexError)

  // ---------------------------------------------------------------------------
  // Append-only record files
  // ---------------------------------------------------------------------------

  type Record = seq<byte>

  datatype AppendError = NotFound | IoError | LockError

  /**
   * What a reader of an append-only file sees: the intact records in write
   * order, then either a clean end or the error met when reading further.
   */
  datatype RecordFile = RecordFile(records: seq<Record>, failure: Option<AppendError>)

  // ---------------------------------------------------------------------------
  // Hexadecimal text
  // ---------------------------------------------------------------------------

  function HexDigit(n: nat): (c: char)
    requires n < 16
  {
    if n < 10 then '0' + n as char else 'a' + (n - 10) as char
  }

  function HexValue(c: char): (r: Option<nat>)
    ensures r.Some? ==> r.value < 16
    ensures r.Some? && !('A' <= c <= 'F') ==> HexDigit(r.value) == c
  {
    if '0' <= c <= '9' then Some(c as nat - '0' as nat)
    else if 'a' <= c <= 'f' then Some(c as nat - 'a' as nat + 10)
    else if 'A' <= c <= 'F' then Some(c as nat - 'A' as nat + 10)
    else None
  }

  /** Lower-case hexadecimal, two digits per byte. */
  function HexEncode(bytes: seq<byte>): (s: string)
    ensures |s| == 2 * |bytes|
  {
    if bytes == [] then []
    else [HexDigit(bytes[0] / 16), HexDigit(bytes[0] % 16)] + HexEncode(bytes[1..])
  }

  /** Hexadecimal text to bytes; fails on an odd length or a non-hex character. */
  function HexDecode(s: string): (r: Option<seq<byte>>)
    ensures r.Some? ==> 2 * |r.value| == |s|
  {
    if s == [] then Some([])
    else if |s| == 1 then None
    else match (HexValue(s[0]), HexValue(s[1]), HexDecode(s[2..]))
      case (Some(hi), Some(lo), Some(rest)) => Some([hi * 16 + lo] + rest)
      case _ => None
  }

  lemma HexDigitValue(n: nat)
    requires n < 16
    ensures HexValue(HexDigit(n)) == Some(n)
  {
  }

  lemma {:induction false} HexRoundTrip(bytes: seq<byte>)
    ensures HexDecode(HexEncode(bytes)) == Some(bytes)
  {
    if bytes != [] {
      HexRoundTrip(bytes[1..]);
      HexDigitValue(bytes[0] / 16);
      HexDigitValue(bytes[0] % 16);
      var s := HexEncode(bytes);
      assert s[2..] == HexEncode(bytes[1..]);
      assert [bytes[0]] + bytes[1..] == bytes;
    }
  }
}
