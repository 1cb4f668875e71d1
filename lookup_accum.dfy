/**
 * The accumulating lookup engine: it holds no state and takes every output
 * as the wallet's own, addressed by the output's address itself.
 */
module AccumLookup {
  import opened Types

  /** `lookup`: always recognised, never an error. */
  function Lookup(utxo: UTxO<ExtendedAddr>): (r: Result<Option<UTxO<Address>>, LookupError>)
    ensures r.Ok? && r.value.Some?
    ensures var u := r.value.value;
      && u.creditedAddressing == Short(utxo.creditedAddressing)
      && u.ExtractTxin() == utxo.ExtractTxin() && u.creditedAddress == utxo.creditedAddress
      && u.creditedValue == utxo.creditedValue
  {
    Ok(Some(utxo.Map(a => Short(a))))
  }

  /** `acknowledge`: always succeeds. */
  function Acknowledge(address: Address): (r: Result<(), LookupError>)
    ensures r.Ok?
  {
    Ok(())
  }
}
