/**
 * The random-index address lookup engine. A random-index address carries
 * its derivation path, encrypted, in its payload; the engine decrypts it and
 * rebuilds the address from the path to check that the address is really
 * the wallet's own. The engine keeps no state of its own.
 */
module RandomIndexLookup {
  import opened Types

  /**
   * The wallet's address generator: payload decryption (which may fail, or
   * find no path) and address reconstruction from a path. Both are external.
   */
  datatype Generator = Generator(
    tryGetAddressing: ExtendedAddr -> Result<Option<RIndexAddressing>, RIndexError>,
    address: RIndexAddressing -> ExtendedAddr)

  /** `get_address`: a pure delegation to the generator. */
  function GetAddress(g: Generator, a: RIndexAddressing): ExtendedAddr {
    g.address(a)
  }

  /** The UTxO is the wallet's: its payload holds a path that rebuilds exactly its address. */
  predicate Ours(g: Generator, utxo: UTxO<ExtendedAddr>) {
    var found := g.tryGetAddressing(utxo.creditedAddress);
    found.Ok? && found.value.Some? && GetAddress(g, found.value.value) == utxo.creditedAddress
  }

  /**
   * `lookup`: a decryption error is propagated; no path means not ours; a
   * path whose address differs is a fatal mismatch, never "not ours".
   */
  function Lookup(g: Generator, utxo: UTxO<ExtendedAddr>): (r: Result<Option<UTxO<Address>>, LookupError>)
    ensures g.tryGetAddressing(utxo.creditedAddress).Err? ==>
      r == Err(RandomIndex(g.tryGetAddressing(utxo.creditedAddress).error))
    ensures r == Ok(None) <==> g.tryGetAddressing(utxo.creditedAddress) == Ok(None)
    ensures r.Ok? && r.value.Some? <==> Ours(g, utxo)
    ensures Ours(g, utxo) ==>
      var u := r.value.value;
      && u.creditedAddressing == RIndex(g.tryGetAddressing(utxo.creditedAddress).value.value)
      && u.ExtractTxin() == utxo.ExtractTxin() && u.creditedAddress == utxo.creditedAddress
      && u.creditedValue == utxo.creditedValue
    ensures g.tryGetAddressing(utxo.creditedAddress).Ok? && r.Err? ==>
      var a := g.tryGetAddressing(utxo.creditedAddress).value.value;
      r.error == RandomIndex(CannotReconstructAddress(GetAddress(g, a))) && GetAddress(g, a) != utxo.creditedAddress
  {
    match g.tryGetAddressing(utxo.creditedAddress)
    case Err(e) => Err(RandomIndex(e))
    case Ok(None) => Ok(None)
    case Ok(Some(addressing)) =>
      var address := GetAddress(g, addressing);
      if address != utxo.creditedAddress then Err(RandomIndex(CannotReconstructAddress(address)))
      else Ok(Some(utxo.Map(_ => RIndex(addressing))))
  }

  /** `acknowledge`: there is nothing to record, so it always succeeds. */
  function Acknowledge(g: Generator, address: Address): (r: Result<(), LookupError>)
    ensures r.Ok?
  {
    Ok(())
  }
}
