/**
 * The block iterator over a local blockchain: it walks the packed epochs from
 * the epoch of the starting block on, then switches to the loose blocks up
 * to the target, and stops once the target block was returned. Its first
 * call returns the first block of that walk, which for a packed starting
 * block is the first block of its epoch; `NextStepIntended` skips to the
 * starting block instead.
 *
 * The storage (epoch packs, loose blocks, tag-independent block lookups and
 * block decoding) is not part of this model: it is a record of functions.
 */
module BlockIter {
  import opened Types

  /** The iterator's errors. */
  datatype IterError =
    | IoFailure
    | CborFailure
    | StorageFailure(code: nat)
    | InvalidBlockHash(hash: Hash)

  /** A block as stored: its undecoded bytes. */
  type RawBlock = seq<byte>

  /** The parts of a decoded block's header used here: its computed hash, the previous hash and its date. */
  datatype Block = Block(hash: Hash, previous: Hash, date: BlockDate)

  /** Where the storage keeps a block. */
  datatype BlockLocation = LooseBlock | PackedBlock

  type RawItem = Result<RawBlock, IterError>

  /** An epoch pack as an iterator of raw blocks. */
  type EpochPack = seq<RawItem>

  datatype Storage = Storage(
    /** `block_location`: where a block is stored, if it is. */
    location: Hash -> Option<BlockLocation>,
    /** `block_read_location`: the raw block at a location, if it can be read. */
    read: (BlockLocation, Hash) -> Option<RawBlock>,
    /** Decoding a raw block. */
    decode: RawBlock -> Result<Block, IterError>,
    /** The epoch packs from an epoch on; opening one pack may fail. */
    epochsFrom: u64 -> seq<Result<EpochPack, IterError>>,
    /** `Range::new`: the loose block hashes from one block to another, both
        included; `None` when the range cannot be built. */
    range: (Hash, Hash) -> Option<seq<Hash>>)

  /** The two phases of the iterator (`IteratorType`). */
  datatype SubIter =
    | EpochIter(epochs: seq<Result<EpochPack, IterError>>, current: Option<EpochPack>)
    | LooseIter(range: seq<Hash>)

  function IsLoose(it: SubIter): bool {
    match it
    case LooseIter(_) => true
    case _ => false
  }

  /**
   * Takes the next epoch pack: none left clears the current pack, an error
   * leaves it as it was and is reported.
   */
  function PullEpoch(epochs: seq<Result<EpochPack, IterError>>, current: Option<EpochPack>)
    : (r: (seq<Result<EpochPack, IterError>>, Option<EpochPack>, Option<IterError>))
    ensures epochs == [] ==> r == ([], None, None)
    ensures epochs != [] ==> r.0 == epochs[1..]
    ensures r.2.Some? <==> epochs != [] && epochs[0].Err?
  {
    if epochs == [] then ([], None, None)
    else match epochs[0]
      case Ok(pack) => (epochs[1..], Some(pack), None)
      case Err(e) => (epochs[1..], current, Some(e))
  }

  /** The first block of a pack, with the rest of the pack. */
  function TakeBlock(epochs: seq<Result<EpochPack, IterError>>, current: Option<EpochPack>)
    : (SubIter, Option<RawItem>)
  {
    if current.Some? && current.value != [] then
      (EpochIter(epochs, Some(current.value[1..])), Some(current.value[0]))
    else (EpochIter(epochs, current), None)
  }

  /**
   * One step of the phase iterator. The epoch phase opens a pack when it has
   * none, and moves to the next pack when the current one is exhausted; the
   * loose phase reads the next block of its range, and ends when a block
   * cannot be read.
   */
  function SubNext(s: Storage, it: SubIter): (r: (SubIter, Option<RawItem>))
    ensures IsLoose(r.0) == IsLoose(it)
    ensures it.LooseIter? && it.range == [] ==> r == (it, None)
    ensures it.LooseIter? && it.range != [] ==>
      r.0.range == it.range[1..] && (r.1.None? <==> s.read(LooseBlock, it.range[0]).None?)
    ensures it.EpochIter? ==> r.0.EpochIter? && |r.0.epochs| <= |it.epochs|
    ensures it.EpochIter? ==>
      r.0.epochs == it.epochs[|it.epochs| - |r.0.epochs|..] &&
      |it.epochs| - |r.0.epochs| <= (if it.current.None? then 2 else 1)
    ensures it.EpochIter? && r.1.None? ==> r.0.epochs == [] || r.0.current == Some([])
  {
    match it
    case LooseIter(range) =>
      if range == [] then (it, None)
      else
        var raw := s.read(LooseBlock, range[0]);
        (LooseIter(range[1..]), if raw.Some? then Some(Ok(raw.value)) else None)
    case EpochIter(epochs, current) =>
      var (epochs1, current1, failure1) :=
        if current.None? then PullEpoch(epochs, current) else (epochs, current, None);
      if failure1.Some? then (EpochIter(epochs1, current1), Some(Err(failure1.value)))
      else if current1.Some? && current1.value != [] then TakeBlock(epochs1, current1)
      else
        var (epochs2, current2, failure2) := PullEpoch(epochs1, current1);
        if failure2.Some? then (EpochIter(epochs2, current2), Some(Err(failure2.value)))
        else TakeBlock(epochs2, current2)
  }

  /** The header date of the packed block `from`: unreadable is `None`. */
  function PackedDate(s: Storage, from: Hash): Option<Result<BlockDate, IterError>> {
    match s.read(PackedBlock, from)
    case None => None
    case Some(raw) =>
      match s.decode(raw)
      case Ok(b) => Some(Ok(b.date))
      case Err(e) => Some(Err(e))
  }

  datatype Opening = Opened(phase: SubIter) | OpenFailed(error: IterError) | OpenPanics

  /**
   * `Iter::new`: an unknown starting block is an error; a loose one starts the
   * loose phase over the range to the target; a packed one starts the epoch
   * phase at the epoch holding it. An unbuildable range or an unreadable
   * packed block panics.
   */
  function Open(s: Storage, from: Hash, to: Hash): (r: Opening)
    ensures s.location(from).None? ==> r == OpenFailed(InvalidBlockHash(from))
    ensures r.Opened? ==> (IsLoose(r.phase) <==> s.location(from) == Some(LooseBlock))
    ensures r.Opened? && r.phase.LooseIter? ==> Some(r.phase.range) == s.range(from, to)
    ensures r.Opened? && r.phase.EpochIter? ==>
      r.phase.current.None? &&
      PackedDate(s, from).Some? && PackedDate(s, from).value.Ok? &&
      r.phase.epochs == s.epochsFrom(PackedDate(s, from).value.value.EpochId())
    ensures r.OpenPanics? ==> s.location(from).Some?
  {
    match s.location(from)
    case None => OpenFailed(InvalidBlockHash(from))
    case Some(LooseBlock) =>
      (match s.range(from, to)
       case None => OpenPanics
       case Some(range) => Opened(LooseIter(range)))
    case Some(PackedBlock) =>
      match PackedDate(s, from)
      case None => OpenPanics
      case Some(Err(e)) => OpenFailed(e)
      case Some(Ok(date)) => Opened(EpochIter(s.epochsFrom(date.EpochId()), None))
  }

  /** The iterator's changing state. */
  datatype IterState = IterState(initialised: bool, lastKnown: Option<Hash>, phase: SubIter)

  /** What one call of `next` gives: an item, the end, or a panic. */
  datatype Step = Yield(item: Result<(RawBlock, Block), IterError>) | Done | Panics

  /** A raw block was read: it is decoded (a failure panics) and becomes the last known block. */
  function Received(s: Storage, st: IterState, raw: RawBlock): (r: (IterState, Step))
    ensures r.1.Yield? ==>
      r.1.item.Ok? && r.1.item.value.0 == raw && r.0 == st.(lastKnown := Some(r.1.item.value.1.hash))
    ensures r.1.Yield? || r.1.Panics?
  {
    match s.decode(raw)
    case Err(_) => (st, Panics)
    case Ok(b) => (st.(lastKnown := Some(b.hash)), Yield(Ok((raw, b))))
  }

  /** The range without its first hash, which names a block already returned. */
  function Drop1(range: seq<Hash>): seq<Hash> {
    if range == [] then [] else range[1..]
  }

  /**
   * A later call of `next`: it takes the next block, and when the epoch phase
   * is exhausted it switches to the loose blocks after the last block
   * returned and tries again.
   */
  function LaterStep(s: Storage, to: Hash, st: IterState): (r: (IterState, Step))
    decreases if IsLoose(st.phase) then 0 else 1
    ensures r.0.initialised == st.initialised
    ensures r.1.Yield? && r.1.item.Ok? ==> r.0.lastKnown == Some(r.1.item.value.1.hash)
    ensures !(r.1.Yield? && r.1.item.Ok?) ==> r.0.lastKnown == st.lastKnown
    ensures IsLoose(st.phase) ==> IsLoose(r.0.phase) && r.0.phase.range == Drop1(st.phase.range)
    ensures IsLoose(r.0.phase) && !IsLoose(st.phase) ==> st.lastKnown.Some?
  {
    var (it1, item) := SubNext(s, st.phase);
    var st1 := st.(phase := it1);
    match item
    case Some(Err(e)) => (st1, Yield(Err(e)))
    case Some(Ok(raw)) => Received(s, st1, raw)
    case None =>
      if IsLoose(it1) then (st1, Done)
      else if st.lastKnown.None? then (st1, Panics)
      else
        match s.range(st.lastKnown.value, to)
        case None => (st1, Panics)
        case Some(range) => LaterStep(s, to, st1.(phase := LooseIter(Drop1(range))))
  }

  // ---------------------------------------------------------------------------
  // The items of a phase iterator
  // ---------------------------------------------------------------------------

  /** Epoch packs not yet opened. */
  function PacksLeft(it: SubIter): nat {
    if it.EpochIter? then |it.epochs| else 0
  }

  /** Blocks left in the open pack (one more while a pack is open) or in the loose range. */
  function BlocksLeft(it: SubIter): nat {
    match it
    case EpochIter(_, current) => if current.None? then 0 else |current.value| + 1
    case LooseIter(range) => |range|
  }

  /** Every step that gives an item consumes a pack or a block. */
  lemma SubNextAdvances(s: Storage, it: SubIter)
    requires SubNext(s, it).1.Some?
    ensures var it1 := SubNext(s, it).0;
      PacksLeft(it1) < PacksLeft(it) || (PacksLeft(it1) == PacksLeft(it) && BlocksLeft(it1) < BlocksLeft(it))
  {
  }

  /** The items a phase iterator gives until it first reports its end. */
  function Items(s: Storage, it: SubIter): seq<RawItem>
    decreases PacksLeft(it), BlocksLeft(it)
  {
    var (it1, item) := SubNext(s, it);
    if item.None? then []
    else
      SubNextAdvances(s, it);
      [item.value] + Items(s, it1)
  }

  /** A raw item is the block with hash `from`. */
  predicate IsBlock(s: Storage, x: RawItem, from: Hash) {
    x.Ok? && s.decode(x.value).Ok? && s.decode(x.value).value.hash == from
  }

  /** A raw item is some other block that decodes. */
  predicate IsOtherBlock(s: Storage, x: RawItem, from: Hash) {
    x.Ok? && s.decode(x.value).Ok? && s.decode(x.value).value.hash != from
  }

  /** The starting block is item `j`, and every item before it is another block that decodes. */
  predicate FirstHit(s: Storage, items: seq<RawItem>, from: Hash, j: int) {
    0 <= j < |items| && IsBlock(s, items[j], from) && forall i :: 0 <= i < j ==> IsOtherBlock(s, items[i], from)
  }

  /** The starting block is the first item, or a later one after another block. */
  lemma FirstHitShift(s: Storage, items: seq<RawItem>, from: Hash, j: int)
    requires FirstHit(s, items, from, j)
    ensures items[0].Ok? && s.decode(items[0].value).Ok?
    ensures j == 0 <==> s.decode(items[0].value).value.hash == from
    ensures j > 0 ==> FirstHit(s, items[1..], from, j - 1)
  {
    if j > 0 {
      assert IsOtherBlock(s, items[0], from);
      forall i | 0 <= i < j - 1
        ensures IsOtherBlock(s, items[1..][i], from)
      {
        assert items[1..][i] == items[i + 1];
      }
    }
  }

  /** The items of a phase iterator that gives an item: that item, then the rest. */
  lemma ItemsHead(s: Storage, it: SubIter)
    requires SubNext(s, it).1.Some?
    ensures Items(s, it) == [SubNext(s, it).1.value] + Items(s, SubNext(s, it).0)
  {
    SubNextAdvances(s, it);
  }

  // ---------------------------------------------------------------------------
  // The first call of `next`
  // ---------------------------------------------------------------------------

  /** The answer of a first call that has read the block `next` so far (`Done` if none). */
  ghost predicate Pending(st: IterState, next: Step) {
    next.Done? || (next.Yield? && next.item.Ok? && st.lastKnown == Some(next.item.value.1.hash))
  }

  /**
   * The first call of `next` as intended: blocks are read until the starting
   * block `from` is met, and that block is returned. An error ends the call;
   * when the phase iterator ends first, the last block read is returned.
   */
  function SkipTo(s: Storage, from: Hash, st: IterState, next: Step): (r: (IterState, Step))
    requires Pending(st, next)
    decreases PacksLeft(st.phase), BlocksLeft(st.phase)
    ensures r.0.initialised == st.initialised && IsLoose(r.0.phase) == IsLoose(st.phase)
    ensures r.1.Yield? && r.1.item.Ok? ==> r.0.lastKnown == Some(r.1.item.value.1.hash)
    ensures r.1.Done? ==> next.Done? && r.0.lastKnown == st.lastKnown
  {
    var (it1, item) := SubNext(s, st.phase);
    var st1 := st.(phase := it1);
    match item
    case None => (st1, next)
    case Some(x) =>
      SubNextAdvances(s, st.phase);
      match x
      case Err(e) => (st1, Yield(Err(e)))
      case Ok(raw) =>
        var (st2, step) := Received(s, st1, raw);
        if step.Panics? || step.item.value.1.hash == from then (st2, step)
        else SkipTo(s, from, st2, step)
  }

  /**
   * The first call finds the starting block: when it is among the items
   * before any error, that block is returned.
   */
  lemma {:induction false} SkipToFinds(s: Storage, from: Hash, st: IterState, next: Step, j: int)
    requires Pending(st, next)
    requires FirstHit(s, Items(s, st.phase), from, j)
    ensures var raw := Items(s, st.phase)[j].value;
      SkipTo(s, from, st, next).1 == Yield(Ok((raw, s.decode(raw).value)))
    ensures SkipTo(s, from, st, next).0.lastKnown == Some(from)
    decreases j
  {
    ItemsHead(s, st.phase);
    FirstHitShift(s, Items(s, st.phase), from, j);
    if j > 0 {
      var (it1, item) := SubNext(s, st.phase);
      var (st2, step) := Received(s, st.(phase := it1), item.value.value);
      SkipToPasses(s, from, st, next);
      SkipToFinds(s, from, st2, step, j - 1);
    }
  }

  /** A block other than the starting block is passed over. */
  lemma SkipToPasses(s: Storage, from: Hash, st: IterState, next: Step)
    requires Pending(st, next)
    requires SubNext(s, st.phase).1.Some? && IsOtherBlock(s, SubNext(s, st.phase).1.value, from)
    ensures var (st2, step) := Received(s, st.(phase := SubNext(s, st.phase).0), SubNext(s, st.phase).1.value.value);
      Pending(st2, step) && SkipTo(s, from, st, next) == SkipTo(s, from, st2, step)
  {
    var (it1, item) := SubNext(s, st.phase);
    var raw := item.value.value;
    var (st2, step) := Received(s, st.(phase := it1), raw);
    assert step == Yield(Ok((raw, s.decode(raw).value)));
  }

  /**
   * The first call of `next`. Its loop runs over the phase iterator's next
   * item, an optional value, so it runs at most once: the first item is
   * returned whatever block it is, and the test against the starting block
   * has no effect.
   */
  function FirstStep(s: Storage, st: IterState): (r: (IterState, Step))
    ensures r.0.initialised == st.initialised && IsLoose(r.0.phase) == IsLoose(st.phase)
    ensures r.1.Yield? && r.1.item.Ok? ==> r.0.lastKnown == Some(r.1.item.value.1.hash)
    ensures !(r.1.Yield? && r.1.item.Ok?) ==> r.0.lastKnown == st.lastKnown
    ensures Items(s, st.phase) == [] <==> r.1.Done?
    ensures Items(s, st.phase) != [] && Items(s, st.phase)[0].Err? ==> r.1 == Yield(Err(Items(s, st.phase)[0].error))
    ensures Items(s, st.phase) != [] && Items(s, st.phase)[0].Ok? && s.decode(Items(s, st.phase)[0].value).Ok? ==>
      var raw := Items(s, st.phase)[0].value;
      r.1 == Yield(Ok((raw, s.decode(raw).value))) && r.0.phase == SubNext(s, st.phase).0
  {
    var (it1, item) := SubNext(s, st.phase);
    var st1 := st.(phase := it1);
    match item
    case None => (st1, Done)
    case Some(Err(e)) => (st1, Yield(Err(e)))
    case Some(Ok(raw)) => Received(s, st1, raw)
  }

  /**
   * `Iter::next`. Once the target block was returned, nothing more is; the
   * first call is `FirstStep`; later calls are `LaterStep`.
   */
  function NextStep(s: Storage, to: Hash, st: IterState): (r: (IterState, Step))
    ensures st.lastKnown == Some(to) ==> r == (st, Done)
    ensures st.lastKnown != Some(to) ==> r.0.initialised
    ensures r.1.Yield? && r.1.item.Ok? ==> r.0.lastKnown == Some(r.1.item.value.1.hash)
    ensures r.1.Done? ==> r.0.lastKnown == st.lastKnown
    ensures IsLoose(st.phase) ==> IsLoose(r.0.phase)
    ensures IsLoose(r.0.phase) && !IsLoose(st.phase) ==> st.initialised && st.lastKnown.Some?
    ensures st.initialised && IsLoose(st.phase) && st.lastKnown != Some(to) ==>
      r.0.phase.range == Drop1(st.phase.range)
    ensures !st.initialised && st.lastKnown != Some(to) ==> r == FirstStep(s, st.(initialised := true))
  {
    if st.lastKnown == Some(to) then (st, Done)
    else if !st.initialised then FirstStep(s, st.(initialised := true))
    else LaterStep(s, to, st)
  }

  /**
   * `Iter::next` as intended: only its first call differs, which skips to
   * the starting block `from`.
   */
  function NextStepIntended(s: Storage, from: Hash, to: Hash, st: IterState): (r: (IterState, Step))
    ensures st.initialised || st.lastKnown == Some(to) ==> r == NextStep(s, to, st)
    ensures !st.initialised && st.lastKnown != Some(to) ==> r == SkipTo(s, from, st.(initialised := true), Done)
    ensures r.1.Yield? && r.1.item.Ok? ==> r.0.lastKnown == Some(r.1.item.value.1.hash)
    ensures r.1.Done? ==> r.0.lastKnown == st.lastKnown
  {
    if st.lastKnown == Some(to) then (st, Done)
    else if !st.initialised then SkipTo(s, from, st.(initialised := true), Done)
    else LaterStep(s, to, st)
  }

  /**
   * From `from` to `from`: when the phase iterator begins with a block other
   * than `from` (a packed `from` that is not the first block of its epoch)
   * followed by another block, the first call returns that other block and
   * the second call returns one more, instead of a single block.
   */
  lemma AsWrittenOverruns(s: Storage, from: Hash, phase: SubIter)
    requires |Items(s, phase)| >= 2
    requires IsOtherBlock(s, Items(s, phase)[0], from)
    requires Items(s, phase)[1].Ok? && s.decode(Items(s, phase)[1].value).Ok?
    ensures var first := NextStep(s, from, IterState(false, None, phase));
      var raw0 := Items(s, phase)[0].value;
      var raw1 := Items(s, phase)[1].value;
      && first.1 == Yield(Ok((raw0, s.decode(raw0).value)))
      && s.decode(raw0).value.hash != from
      && NextStep(s, from, first.0).1 == Yield(Ok((raw1, s.decode(raw1).value)))
  {
    var st := IterState(true, None, phase);
    var first := FirstStep(s, st);
    var it1 := SubNext(s, phase).0;
    assert Items(s, phase)[1..] == Items(s, it1) by {
      SubNextAdvances(s, phase);
    }
    assert first.0.initialised && first.0.phase == it1;
    assert first.0.lastKnown == Some(s.decode(Items(s, phase)[0].value).value.hash);
  }

  /**
   * From `from` to `from`, as intended: when `from` is among the items before
   * any error, the first call returns exactly that block and the second call
   * reports the end.
   */
  lemma SingleBlockRangeIntended(s: Storage, from: Hash, phase: SubIter, j: int)
    requires FirstHit(s, Items(s, phase), from, j)
    ensures var first := NextStepIntended(s, from, from, IterState(false, None, phase));
      var raw := Items(s, phase)[j].value;
      && first.1 == Yield(Ok((raw, s.decode(raw).value)))
      && NextStepIntended(s, from, from, first.0) == (first.0, Done)
  {
    SkipToFinds(s, from, IterState(true, None, phase), Done, j);
  }

  /** The state after `n` calls of `next`. */
  function Run(s: Storage, to: Hash, st: IterState, n: nat): IterState
    decreases n
  {
    if n == 0 then st else Run(s, to, NextStep(s, to, st).0, n - 1)
  }

  /** Once the target block was returned, the state no longer changes. */
  lemma {:induction false} RunStaysAtEnd(s: Storage, to: Hash, st: IterState, n: nat)
    requires st.lastKnown == Some(to)
    ensures Run(s, to, st, n) == st
    ensures NextStep(s, to, Run(s, to, st, n)).1.Done?
  {
    if n > 0 {
      RunStaysAtEnd(s, to, NextStep(s, to, st).0, n - 1);
    }
  }

  /**
   * The loose phase ends: a started loose iterator over `k` hashes reports the
   * end by its `k + 1`-th call at the latest.
   */
  lemma {:induction false} LooseRunEnds(s: Storage, to: Hash, st: IterState)
    requires st.initialised && st.phase.LooseIter?
    ensures NextStep(s, to, Run(s, to, st, |st.phase.range|)).1.Done?
    decreases |st.phase.range|
  {
    if st.lastKnown == Some(to) {
      RunStaysAtEnd(s, to, st, |st.phase.range|);
    } else if st.phase.range != [] {
      var next := NextStep(s, to, st).0;
      LooseRunEnds(s, to, next);
    }
  }

  /** An iterator over the blocks of a local blockchain, from one block to another. */
  class Iter {
    const storage: Storage
    const startingFrom: Hash
    const endingAt: Hash
    var initialised: bool
    var lastKnown: Option<Hash>
    var phase: SubIter

    function State(): IterState
      reads this
    {
      IterState(initialised, lastKnown, phase)
    }

    constructor(storage: Storage, from: Hash, to: Hash, phase: SubIter)
      ensures this.storage == storage && startingFrom == from && endingAt == to
      ensures State() == IterState(false, None, phase)
    {
      this.storage := storage;
      startingFrom := from;
      endingAt := to;
      initialised := false;
      lastKnown := None;
      this.phase := phase;
    }

    /** `Iter::new`, proved against `Open`. */
    static method New(storage: Storage, from: Hash, to: Hash) returns (r: Result<Iter, IterError>)
      requires !Open(storage, from, to).OpenPanics?
      ensures Open(storage, from, to).OpenFailed? ==> r == Err(Open(storage, from, to).error)
      ensures Open(storage, from, to).Opened? ==>
        r.Ok? && fresh(r.value) &&
        r.value.storage == storage && r.value.startingFrom == from && r.value.endingAt == to &&
        r.value.State() == IterState(false, None, Open(storage, from, to).phase)
    {
      var it: SubIter;
      match storage.location(from) {
        case None =>
          return Err(InvalidBlockHash(from));
        case Some(LooseBlock) =>
          var range := storage.range(from, to);
          it := LooseIter(range.value);
        case Some(PackedBlock) =>
          var raw := storage.read(PackedBlock, from);
          var decoded := storage.decode(raw.value);
          if decoded.Err? {
            return Err(decoded.error);
          }
          it := EpochIter(storage.epochsFrom(decoded.value.date.EpochId()), None);
      }
      var iter := new Iter(storage, from, to, it);
      r := Ok(iter);
    }

    /** `Iter::next`, proved against `NextStep`; a call that would panic is excluded. */
    method Next() returns (r: Option<Result<(RawBlock, Block), IterError>>)
      requires !NextStep(storage, endingAt, State()).1.Panics?
      modifies this
      decreases if initialised && IsLoose(phase) then 0 else 1
      ensures NextStep(storage, endingAt, old(State())) ==
        (State(), if r.None? then Done else Yield(r.value))
    {
      if lastKnown == Some(endingAt) {
        return None;
      }
      if !initialised {
        initialised := true;
        // a loop over the optional next item: its body runs at most once,
        // so its stop at the starting block never skips anything
        var (it0, first) := SubNext(storage, phase);
        phase := it0;
        match first {
          case None =>
            r := None;
          case Some(Err(e)) =>
            r := Some(Err(e));
          case Some(Ok(raw)) =>
            var block := storage.decode(raw);
            lastKnown := Some(block.value.hash);
            r := Some(Ok((raw, block.value)));
        }
        return;
      }
      var (it1, item) := SubNext(storage, phase);
      phase := it1;
      match item
      case Some(Err(e)) =>
        r := Some(Err(e));
      case Some(Ok(raw)) =>
        var block := storage.decode(raw);
        lastKnown := Some(block.value.hash);
        r := Some(Ok((raw, block.value)));
      case None =>
        if IsLoose(phase) {
          r := None;
        } else {
          var range := storage.range(lastKnown.value, endingAt);
          phase := LooseIter(Drop1(range.value));
          r := Next();
        }
    }
  }
}
