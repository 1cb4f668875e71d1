/**
 * A local blockchain's bookkeeping: its configured peers, its tags (the local
 * tip `tip` and one `remote/<alias>` per peer, each naming a block hash), the
 * tip it reports, and the `forward`, `remote-fetch` and `remote-ls` commands'
 * decisions over them.
 *
 * Blocks are read through the block iterator's storage record; a peer's own
 * local tip comes from code that is not part of this model and is a parameter.
 */
module Chain {
  import opened Types
  import BlockIter

  /** The tag naming the local tip. */
  const LOCAL_BLOCKCHAIN_TIP_TAG: string := "tip"

  /** A configured peer: its alias and its endpoint. */
  datatype NamedPeer = NamedPeer(name: string, endpoint: string)

  /** A block as the tip bookkeeping sees it. */
  datatype BlockRef = BlockRef(hash: Hash, parent: Hash, date: BlockDate)

  /** The tag holding what is known of a peer's chain. */
  function MkRemoteTag(alias: string): (r: string)
    ensures |r| == 7 + |alias| && r[..7] == "remote/" && r[7..] == alias
  {
    "remote/" + alias
  }

  /** Different peers have different tags, and none of them is the tip tag. */
  lemma RemoteTagsDistinct(a: string, b: string)
    ensures MkRemoteTag(a) == MkRemoteTag(b) <==> a == b
    ensures MkRemoteTag(a) != LOCAL_BLOCKCHAIN_TIP_TAG
  {
    if MkRemoteTag(a) == MkRemoteTag(b) {
      assert a == MkRemoteTag(a)[7..];
    }
    assert |MkRemoteTag(a)| >= 7 > |LOCAL_BLOCKCHAIN_TIP_TAG|;
  }

  // ---------------------------------------------------------------------------
  // Tags written when a blockchain is created
  // ---------------------------------------------------------------------------

  /** The tags of all the peers in a list. */
  ghost function RemoteTagSet(peers: seq<NamedPeer>): set<string> {
    set p | p in peers :: MkRemoteTag(p.name)
  }

  /** `tags` after pointing the remote tag of each peer, in turn, at `genesis`. */
  function WriteRemoteTags(tags: map<string, Hash>, peers: seq<NamedPeer>, genesis: Hash)
    : map<string, Hash>
  {
    if peers == [] then tags
    else WriteRemoteTags(tags, peers[..|peers| - 1], genesis)[MkRemoteTag(peers[|peers| - 1].name) := genesis]
  }

  /** Every peer's tag names the genesis block; every other tag is as it was. */
  lemma {:induction false} WriteRemoteTagsSpec(tags: map<string, Hash>, peers: seq<NamedPeer>, genesis: Hash)
    ensures forall p :: p in peers ==>
      MkRemoteTag(p.name) in WriteRemoteTags(tags, peers, genesis) &&
      WriteRemoteTags(tags, peers, genesis)[MkRemoteTag(p.name)] == genesis
    ensures forall t :: t !in RemoteTagSet(peers) ==>
      (t in WriteRemoteTags(tags, peers, genesis) <==> t in tags) &&
      (t in tags ==> WriteRemoteTags(tags, peers, genesis)[t] == tags[t])
  {
    if peers != [] {
      var front := peers[..|peers| - 1];
      WriteRemoteTagsSpec(tags, front, genesis);
      assert forall p :: p in front ==> p in peers;
      assert peers == front + [peers[|peers| - 1]];
    }
  }

  /** The tags of a new blockchain: the remote tags and the tip all name the genesis block. */
  function TagsAfterNew(existing: map<string, Hash>, peers: seq<NamedPeer>, genesis: Hash)
    : map<string, Hash>
  {
    WriteRemoteTags(existing, peers, genesis)[LOCAL_BLOCKCHAIN_TIP_TAG := genesis]
  }

  /**
   * A new blockchain's tip and every configured peer's remote tag name the
   * genesis block; the other tags already in the storage are kept.
   */
  lemma NewTags(existing: map<string, Hash>, peers: seq<NamedPeer>, genesis: Hash)
    ensures LOCAL_BLOCKCHAIN_TIP_TAG in TagsAfterNew(existing, peers, genesis)
    ensures TagsAfterNew(existing, peers, genesis)[LOCAL_BLOCKCHAIN_TIP_TAG] == genesis
    ensures forall p :: p in peers ==>
      MkRemoteTag(p.name) in TagsAfterNew(existing, peers, genesis) &&
      TagsAfterNew(existing, peers, genesis)[MkRemoteTag(p.name)] == genesis
    ensures forall t :: t != LOCAL_BLOCKCHAIN_TIP_TAG && t !in RemoteTagSet(peers) ==>
      (t in TagsAfterNew(existing, peers, genesis) <==> t in existing) &&
      (t in existing ==> TagsAfterNew(existing, peers, genesis)[t] == existing[t])
  {
    WriteRemoteTagsSpec(existing, peers, genesis);
    forall p | p in peers
      ensures MkRemoteTag(p.name) != LOCAL_BLOCKCHAIN_TIP_TAG
    {
      RemoteTagsDistinct(p.name, p.name);
    }
  }

  // ---------------------------------------------------------------------------
  // Peers
  // ---------------------------------------------------------------------------

  /** The peers whose alias differs from `alias`, in their order. */
  function WithoutPeer(peers: seq<NamedPeer>, alias: string): seq<NamedPeer> {
    if peers == [] then []
    else (if peers[0].name != alias then [peers[0]] else []) + WithoutPeer(peers[1..], alias)
  }

  /** `remove_peer` keeps exactly the other peers. */
  lemma {:induction false} WithoutPeerMembers(peers: seq<NamedPeer>, alias: string)
    ensures forall p :: p in WithoutPeer(peers, alias) <==> p in peers && p.name != alias
  {
    if peers != [] {
      WithoutPeerMembers(peers[1..], alias);
      assert peers == [peers[0]] + peers[1..];
    }
  }

  /** ... and keeps their order: filtering a concatenation filters each part. */
  lemma {:induction false} WithoutPeerAppend(a: seq<NamedPeer>, b: seq<NamedPeer>, alias: string)
    ensures WithoutPeer(a + b, alias) == WithoutPeer(a, alias) + WithoutPeer(b, alias)
  {
    if a != [] {
      WithoutPeerAppend(a[1..], b, alias);
      assert (a + b)[1..] == a[1..] + b;
    } else {
      assert a + b == b;
    }
  }

  /** Removing a peer just added leaves the peers as they were, less that alias. */
  lemma AddThenRemove(peers: seq<NamedPeer>, alias: string, endpoint: string)
    ensures WithoutPeer(peers + [NamedPeer(alias, endpoint)], alias) == WithoutPeer(peers, alias)
  {
    WithoutPeerAppend(peers, [NamedPeer(alias, endpoint)], alias);
    assert WithoutPeer([NamedPeer(alias, endpoint)], alias) == [];
  }

  /** Removing a peer that is not configured changes nothing. */
  lemma {:induction false} RemoveAbsentPeer(peers: seq<NamedPeer>, alias: string)
    requires forall p :: p in peers ==> p.name != alias
    ensures WithoutPeer(peers, alias) == peers
  {
    if peers != [] {
      assert forall p :: p in peers[1..] ==> p in peers;
      RemoveAbsentPeer(peers[1..], alias);
      assert peers == [peers[0]] + peers[1..];
    }
  }

  // ---------------------------------------------------------------------------
  // The local tip
  // ---------------------------------------------------------------------------

  /** The genesis settings of a blockchain. */
  datatype Genesis = Genesis(hash: Hash, previous: Hash, epochStart: u64)

  /** A block by hash: located, read and decoded; `None` when any of those fails. */
  function BlockByHash(s: BlockIter.Storage, h: Hash): Option<BlockIter.Block> {
    match s.location(h)
    case None => None
    case Some(loc) =>
      match s.read(loc, h)
      case None => None
      case Some(raw) =>
        match s.decode(raw)
        case Ok(b) => Some(b)
        case Err(_) => None
  }

  /** `load_tip`: the block and whether it is the genesis block; a storage error panics. */
  datatype TipRead = Tip(block: BlockRef, isGenesis: bool) | TipPanics

  function LoadTipOf(g: Genesis, s: BlockIter.Storage, tags: map<string, Hash>): (r: TipRead)
    ensures LOCAL_BLOCKCHAIN_TIP_TAG !in tags ==>
      r == Tip(BlockRef(g.hash, g.previous, Boundary(g.epochStart)), true)
    ensures LOCAL_BLOCKCHAIN_TIP_TAG in tags ==>
      (r.TipPanics? <==> BlockByHash(s, tags[LOCAL_BLOCKCHAIN_TIP_TAG]).None?)
    ensures LOCAL_BLOCKCHAIN_TIP_TAG in tags && r.Tip? ==>
      var b := BlockByHash(s, tags[LOCAL_BLOCKCHAIN_TIP_TAG]).value;
      r.block == BlockRef(b.hash, b.previous, b.date) && (r.isGenesis <==> b.hash == g.hash)
  {
    if LOCAL_BLOCKCHAIN_TIP_TAG !in tags then
      Tip(BlockRef(g.hash, g.previous, Boundary(g.epochStart)), true)
    else
      match BlockByHash(s, tags[LOCAL_BLOCKCHAIN_TIP_TAG])
      case None => TipPanics
      case Some(b) => Tip(BlockRef(b.hash, b.previous, b.date), b.hash == g.hash)
  }

  /** After `save_tip(h)` the tip read is the block stored under `h`. */
  lemma LoadSavedTip(g: Genesis, s: BlockIter.Storage, tags: map<string, Hash>, h: Hash)
    requires BlockByHash(s, h).Some?
    ensures LoadTipOf(g, s, tags[LOCAL_BLOCKCHAIN_TIP_TAG := h]).Tip?
    ensures LoadTipOf(g, s, tags[LOCAL_BLOCKCHAIN_TIP_TAG := h]).block.date == BlockByHash(s, h).value.date
  {
  }

  // ---------------------------------------------------------------------------
  // `forward`: choosing the new local tip
  // ---------------------------------------------------------------------------

  /**
   * The fold over the peers' tips, from the local tip: a candidate replaces
   * the current choice only when its date is strictly later.
   */
  function SelectTip(initial: BlockRef, tips: seq<BlockRef>): (r: BlockRef)
    ensures tips == [] ==> r == initial
    ensures r == initial || r in tips
  {
    if tips == [] then initial
    else
      var current := SelectTip(initial, tips[..|tips| - 1]);
      var tip := tips[|tips| - 1];
      if DateLess(current.date, tip.date) then tip else current
  }

  /** The chosen tip is at least as late as the local tip and as every peer's tip. */
  lemma {:induction false} SelectTipLatest(initial: BlockRef, tips: seq<BlockRef>)
    ensures !DateLess(SelectTip(initial, tips).date, initial.date)
    ensures forall t :: t in tips ==> !DateLess(SelectTip(initial, tips).date, t.date)
  {
    var r := SelectTip(initial, tips);
    DateLessIsStrictTotal(r.date, r.date, r.date);
    if tips != [] {
      var front := tips[..|tips| - 1];
      var current := SelectTip(initial, front);
      SelectTipLatest(initial, front);
      assert tips == front + [tips[|tips| - 1]];
      forall t | t in tips || t == initial
        ensures !DateLess(r.date, t.date)
      {
        if t != tips[|tips| - 1] || t == initial {
          DateLessIsStrictTotal(r.date, current.date, t.date);
          DateLessIsStrictTotal(current.date, r.date, current.date);
          DateLessIsStrictTotal(r.date, t.date, current.date);
        }
        DateLessIsStrictTotal(r.date, t.date, r.date);
        DateLessIsStrictTotal(tips[|tips| - 1].date, current.date, r.date);
      }
    }
  }

  /**
   * `tips[i]` is strictly later than the local tip and than every peer tip
   * before it: the first candidate the fold would keep.
   */
  predicate FirstLater(initial: BlockRef, tips: seq<BlockRef>, i: int) {
    0 <= i < |tips| && DateLess(initial.date, tips[i].date) &&
    forall j :: 0 <= j < i ==> DateLess(tips[j].date, tips[i].date)
  }

  lemma FirstLaterExtends(initial: BlockRef, tips: seq<BlockRef>, i: int)
    requires tips != [] && FirstLater(initial, tips[..|tips| - 1], i)
    ensures FirstLater(initial, tips, i)
  {
    assert forall j :: 0 <= j < i ==> tips[j] == tips[..|tips| - 1][j];
  }

  /** The last tip replaces the choice so far: it is then later than everything before it. */
  lemma LastReplaces(initial: BlockRef, tips: seq<BlockRef>)
    requires tips != []
    requires DateLess(SelectTip(initial, tips[..|tips| - 1]).date, tips[|tips| - 1].date)
    ensures FirstLater(initial, tips, |tips| - 1)
  {
    var n := |tips| - 1;
    var front := tips[..n];
    var current := SelectTip(initial, front);
    SelectTipLatest(initial, front);
    DateLessIsStrictTotal(initial.date, current.date, tips[n].date);
    DateLessIsStrictTotal(initial.date, initial.date, tips[n].date);
    forall j | 0 <= j < n
      ensures DateLess(tips[j].date, tips[n].date)
    {
      assert tips[j] in front;
      DateLessIsStrictTotal(tips[j].date, current.date, tips[n].date);
    }
  }

  /**
   * Ties keep the earlier candidate: the local tip stays unless some peer's
   * tip is strictly later, and a chosen peer tip is strictly later than the
   * local tip and than every peer tip before it.
   */
  lemma {:induction false} SelectTipFirst(initial: BlockRef, tips: seq<BlockRef>)
    ensures SelectTip(initial, tips) == initial ||
      exists i :: FirstLater(initial, tips, i) && SelectTip(initial, tips) == tips[i]
  {
    if tips != [] {
      var n := |tips| - 1;
      var front := tips[..n];
      var current := SelectTip(initial, front);
      if DateLess(current.date, tips[n].date) {
        LastReplaces(initial, tips);
      } else if current != initial {
        SelectTipFirst(initial, front);
        var i :| FirstLater(initial, front, i) && current == front[i];
        FirstLaterExtends(initial, tips, i);
      }
    }
  }

  /** The reasons `forward` exits before saving a tip. */
  datatype ForwardError = InvalidHexadecimal | NotABlockHash | NotInLocalBlockchain

  /** An explicit target: it must be hexadecimal, 32 bytes long and a stored block. */
  function ExplicitTarget(s: BlockIter.Storage, hex: string): (r: Result<Hash, ForwardError>)
    ensures HexDecode(hex).None? <==> r == Err(InvalidHexadecimal)
    ensures HexDecode(hex).Some? && |HexDecode(hex).value| != 32 <==> r == Err(NotABlockHash)
    ensures r.Ok? ==> HexDecode(hex) == Some(r.value) && s.location(r.value).Some?
    ensures HexDecode(hex).Some? && |HexDecode(hex).value| == 32 ==>
      (r == Err(NotInLocalBlockchain) <==> s.location(HexDecode(hex).value).None?)
  {
    match HexDecode(hex)
    case None => Err(InvalidHexadecimal)
    case Some(bytes) =>
      if |bytes| != 32 then Err(NotABlockHash)
      else if s.location(bytes).None? then Err(NotInLocalBlockchain)
      else Ok(bytes)
  }

  /** The hexadecimal form of a stored block's hash is accepted as that block. */
  lemma ExplicitTargetOfHex(s: BlockIter.Storage, h: Hash)
    requires s.location(h).Some?
    ensures ExplicitTarget(s, HexEncode(h)) == Ok(h)
  {
    HexRoundTrip(h);
  }

  /** Each peer's own local tip, in the order of the peers. */
  function PeerTips(peers: seq<NamedPeer>, peerTip: string -> BlockRef): (r: seq<BlockRef>)
    ensures |r| == |peers| && forall i :: 0 <= i < |peers| ==> r[i] == peerTip(peers[i].name)
  {
    if peers == [] then [] else PeerTips(peers[..|peers| - 1], peerTip) + [peerTip(peers[|peers| - 1].name)]
  }

  /** The hash `forward` saves as the tip, or why it exits. */
  function ForwardTarget(s: BlockIter.Storage, local: BlockRef, peers: seq<NamedPeer>,
                         peerTip: string -> BlockRef, to: Option<string>): (r: Result<Hash, ForwardError>)
    ensures to.Some? ==> r == ExplicitTarget(s, to.value)
    ensures to.None? ==>
      r.Ok? && (r.value == local.hash ||
        exists p :: p in peers && r.value == peerTip(p.name).hash && DateLess(local.date, peerTip(p.name).date))
    ensures to.None? && peers == [] ==> r == Ok(local.hash)
  {
    match to
    case Some(hex) => ExplicitTarget(s, hex)
    case None =>
      var tips := PeerTips(peers, peerTip);
      var chosen := SelectTip(local, tips);
      SelectTipFirst(local, tips);
      if chosen != local then
        var i :| FirstLater(local, tips, i) && chosen == tips[i];
        assert peers[i] in peers;
        Ok(chosen.hash)
      else Ok(chosen.hash)
  }

  // ---------------------------------------------------------------------------
  // `remote-fetch` and `remote-ls`
  // ---------------------------------------------------------------------------

  /** The peers `remote-fetch` syncs, in order: all of them, or only the named ones. */
  function FetchSelection(peers: seq<NamedPeer>, names: seq<string>): seq<NamedPeer> {
    if peers == [] then []
    else
      var last := peers[|peers| - 1];
      FetchSelection(peers[..|peers| - 1], names) + (if names == [] || last.name in names then [last] else [])
  }

  /** With no names every peer is fetched; otherwise exactly the named ones are. */
  lemma {:induction false} FetchSelectionMembers(peers: seq<NamedPeer>, names: seq<string>)
    ensures names == [] ==> FetchSelection(peers, names) == peers
    ensures forall p :: p in FetchSelection(peers, names) <==>
      p in peers && (names == [] || p.name in names)
  {
    if peers != [] {
      var front := peers[..|peers| - 1];
      FetchSelectionMembers(front, names);
      assert peers == front + [peers[|peers| - 1]];
    }
  }

  /** How much `remote-ls` shows: `Short < Local < Remote`. */
  datatype RemoteDetail = Short | Local | Remote

  function DetailRank(d: RemoteDetail): nat {
    if d == RemoteDetail.Short then 0 else if d == Local then 1 else 2
  }

  /** `detailed >= other` in the derived order. */
  predicate AtLeast(detailed: RemoteDetail, other: RemoteDetail) {
    DetailRank(detailed) >= DetailRank(other)
  }

  /** The local tag's details are shown from `Local` on. */
  function ShowsLocal(detailed: RemoteDetail): (r: bool)
    ensures r <==> detailed != RemoteDetail.Short
  {
    AtLeast(detailed, Local)
  }

  /** The peer is queried for its tip only at `Remote`, which also shows the local details. */
  function QueriesRemote(detailed: RemoteDetail): (r: bool)
    ensures r <==> detailed == Remote
    ensures r ==> ShowsLocal(detailed)
  {
    AtLeast(detailed, Remote)
  }

  // ---------------------------------------------------------------------------
  // The blockchain
  // ---------------------------------------------------------------------------

  class Blockchain {
    const genesis: Genesis
    const storage: BlockIter.Storage
    var peers: seq<NamedPeer>
    var tags: map<string, Hash>

    /**
     * `Blockchain::new`: every configured peer's remote tag, then the tip,
     * name the genesis block; `existing` are the tags already in the storage.
     */
    constructor(genesis: Genesis, storage: BlockIter.Storage, peers: seq<NamedPeer>,
                existing: map<string, Hash>)
      ensures this.genesis == genesis && this.storage == storage && this.peers == peers
      ensures tags == TagsAfterNew(existing, peers, genesis.hash)
    {
      this.genesis := genesis;
      this.storage := storage;
      this.peers := peers;
      tags := existing;
      new;
      for i := 0 to |peers|
        invariant this.peers == peers
        invariant tags == WriteRemoteTags(existing, peers[..i], genesis.hash)
      {
        assert peers[..i + 1][..i] == peers[..i];
        tags := tags[MkRemoteTag(peers[i].name) := genesis.hash];
      }
      assert peers[..|peers|] == peers;
      SaveTip(genesis.hash);
    }

    function LoadTip(): (r: TipRead)
      reads this
    {
      LoadTipOf(genesis, storage, tags)
    }

    /** `add_peer`: appended, its remote tag names the genesis block. */
    method AddPeer(alias: string, endpoint: string)
      modifies this
      ensures peers == old(peers) + [NamedPeer(alias, endpoint)]
      ensures tags == old(tags)[MkRemoteTag(alias) := genesis.hash]
    {
      peers := peers + [NamedPeer(alias, endpoint)];
      tags := tags[MkRemoteTag(alias) := genesis.hash];
    }

    /** `remove_peer`: the other peers stay in order, its remote tag is removed. */
    method RemovePeer(alias: string)
      modifies this
      ensures peers == WithoutPeer(old(peers), alias)
      ensures tags == old(tags) - {MkRemoteTag(alias)}
    {
      peers := WithoutPeer(peers, alias);
      tags := tags - {MkRemoteTag(alias)};
    }

    /** `save_tip`: only the tip tag changes. */
    method SaveTip(hh: Hash)
      modifies this
      ensures peers == old(peers)
      ensures tags == old(tags)[LOCAL_BLOCKCHAIN_TIP_TAG := hh]
    {
      tags := tags[LOCAL_BLOCKCHAIN_TIP_TAG := hh];
    }

    /** `iter_to_tip`: an iterator from `from` up to the current tip. */
    method IterToTip(from: Hash) returns (r: Result<BlockIter.Iter, BlockIter.IterError>)
      requires LoadTip().Tip?
      requires !BlockIter.Open(storage, from, LoadTip().block.hash).OpenPanics?
      ensures BlockIter.Open(storage, from, LoadTip().block.hash).OpenFailed? ==>
        r == Err(BlockIter.Open(storage, from, LoadTip().block.hash).error)
      ensures r.Ok? ==>
        fresh(r.value) && r.value.storage == storage &&
        r.value.startingFrom == from && r.value.endingAt == LoadTip().block.hash
    {
      var to := LoadTip().block.hash;
      r := BlockIter.Iter.New(storage, from, to);
    }

    /** `remote-fetch`: the peers synced, in order (the sync itself is not modelled). */
    method RemoteFetch(names: seq<string>) returns (fetched: seq<NamedPeer>)
      ensures fetched == FetchSelection(peers, names)
    {
      fetched := [];
      for i := 0 to |peers|
        invariant fetched == FetchSelection(peers[..i], names)
      {
        assert peers[..i + 1][..i] == peers[..i];
        var np := peers[i];
        if names == [] || np.name in names {
          fetched := fetched + [np];
        }
      }
      assert peers[..|peers|] == peers;
    }

    /**
     * `forward`: to an explicit, stored block, or to the latest of the local
     * tip and the peers' tips; the tip is saved only when the target is valid.
     */
    method Forward(to: Option<string>, peerTip: string -> BlockRef) returns (r: Result<Hash, ForwardError>)
      requires to.None? ==> LoadTip().Tip?
      modifies this
      ensures to.None? ==>
        r == ForwardTarget(storage, old(LoadTip()).block, old(peers), peerTip, to)
      ensures to.Some? ==> r == ExplicitTarget(storage, to.value)
      ensures peers == old(peers)
      ensures r.Ok? ==> tags == old(tags)[LOCAL_BLOCKCHAIN_TIP_TAG := r.value]
      ensures r.Err? ==> tags == old(tags)
    {
      if to.Some? {
        r := ExplicitTarget(storage, to.value);
        if r.Err? {
          return;
        }
      } else {
        var initial := LoadTip().block;
        var tip := SelectTip(initial, PeerTips(peers, peerTip));
        r := Ok(tip.hash);
      }
      SaveTip(r.value);
    }
  }
}
