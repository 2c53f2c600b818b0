/** The gas a block still offers, a 64-bit counter. */
module GasPool {

  const MAX_UINT64: nat := 0xFFFF_FFFF_FFFF_FFFF

  type uint64 = x: nat | x <= MAX_UINT64

  class GasPool {
    var gas: uint64

    constructor (limit: uint64)
      ensures gas == limit
    {
      gas := limit;
    }

    /** Returns gas to the pool; a sum above 64 bits panics. */
    method AddGas(amount: uint64) returns (panicked: bool)
      modifies this
      ensures panicked <==> old(gas) + amount > MAX_UINT64
      ensures gas == if panicked then old(gas) else old(gas) + amount
    {
      if gas > MAX_UINT64 - amount {
        return true;
      }
      gas := gas + amount;
      return false;
    }

    /** Takes gas from the pool if there is enough. */
    method SubGas(amount: uint64) returns (ok: bool)
      modifies this
      ensures ok <==> amount <= old(gas)
      ensures gas == if ok then old(gas) - amount else old(gas)
    {
      if gas < amount {
        return false;
      }
      gas := gas - amount;
      return true;
    }
  }
}
