/**
  The Aztec chain as its readers see it: blocks with a timestamp and the nullifiers they emit. Poseidon
  hashes are injective constructors, one per domain separator. Blocks are only ever appended.
 */
module Ledger {
  import opened Wrappers

  datatype Field = Value(n: int) | Poseidon(separator: int, inputs: seq<Field>) | Siloed(contract: Field, inner: Field)

  datatype Block = Block(timestamp: nat, nullifiers: set<Field>)

  type Chain = seq<Block>

  function Nullifiers(chain: Chain): set<Field> {
    if chain == [] then {} else Nullifiers(chain[..|chain| - 1]) + chain[|chain| - 1].nullifiers
  }

  ghost predicate Orderly(chain: Chain) {
    && chain != []
    && forall i, j :: 0 <= i <= j < |chain| ==> chain[i].timestamp <= chain[j].timestamp
  }

  function Tip(chain: Chain): nat
    requires chain != []
  {
    chain[|chain| - 1].timestamp
  }

  ghost predicate Extends(later: Chain, earlier: Chain) {
    Orderly(later) && Orderly(earlier) && earlier <= later
  }

  /** Nullifiers and time only grow. */
  lemma {:induction false} ChainGrows(later: Chain, earlier: Chain)
    requires Extends(later, earlier)
    ensures Nullifiers(earlier) <= Nullifiers(later) && Tip(earlier) <= Tip(later)
    decreases |later|
  {
    if later != earlier {
      var before := later[..|later| - 1];
      ChainGrows(before, earlier);
    }
  }

  /** A node: between any two calls, and during them, others may append blocks. */
  class Node {
    const keepsBlocks: bool  // whether the data of old blocks is still served
    var chain: Chain

    ghost predicate Valid()
      reads this
    {
      Orderly(chain)
    }

    constructor (chain: Chain, keepsBlocks: bool)
      requires Orderly(chain)
      ensures Valid() && this.chain == chain && this.keepsBlocks == keepsBlocks
    {
      this.chain, this.keepsBlocks := chain, keepsBlocks;
    }

    /** The number of the latest block; the first block has number 1. */
    method GetBlockNumber() returns (n: nat)
      requires Valid()
      modifies this
      ensures Extends(chain, old(chain)) && n == |chain|
    {
      n := |chain|;
    }

    /** The header of a block, when the node still has it. */
    method GetBlockData(n: nat) returns (block: Option<Block>)
      requires Valid() && 1 <= n <= |chain|
      modifies this
      ensures Extends(chain, old(chain)) && chain[..n] == old(chain)[..n]
      ensures (block.Some? ==> block.value == chain[n - 1]) && (keepsBlocks ==> block.Some?)
    {
      block := if keepsBlocks then Some(chain[n - 1]) else None;
    }

    /** Whether a nullifier is a member of the tree at the latest block. */
    method HasNullifierNow(nullifier: Field) returns (member: bool)
      requires Valid()
      modifies this
      ensures Extends(chain, old(chain)) && (member <==> nullifier in Nullifiers(chain))
    {
      member := nullifier in Nullifiers(chain);
    }

    /** Whether a nullifier is a member of the tree at a block. */
    method HasNullifier(n: nat, nullifier: Field) returns (member: bool)
      requires Valid() && n <= |chain|
      modifies this
      ensures Extends(chain, old(chain)) && chain[..n] == old(chain)[..n]
      ensures member <==> nullifier in Nullifiers(chain[..n])
    {
      member := nullifier in Nullifiers(chain[..n]);
    }
  }
}
