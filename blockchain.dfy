/**
 * The `Blockchain` class of `basic_transactions_gp/blockchain.py`: an object
 * whose `chain` list grows by `append` and whose `current_transactions` list
 * is appended to and rebound to a fresh empty list; and the decision logic of
 * the `/mine` handler, which receives the ledger it works on.
 *
 * Each method's effect is stated through the value functions of `Ledger`.
 */
module BlockchainNode {
  import opened Wrappers
  import opened Ledger

  class Blockchain {
    /** The hash, JSON encoder and guess formatter this ledger uses. */
    const prims: Primitives
    var chain: seq<Block>
    var currentTransactions: seq<Transaction>

    function Snapshot(): State
      reads this
    {
      State(chain, currentTransactions)
    }

    /** Holds from the end of construction on. */
    ghost predicate Valid()
      reads this
    {
      Wellformed(Snapshot())
    }

    /** `__init__`: start empty, then add the genesis block with `previous_hash=1, proof=100`. */
    constructor (prims: Primitives, now: real)
      ensures this.prims == prims
      ensures Snapshot() == Genesis(prims, now)
      ensures Valid()
      ensures |chain| == 1 && chain[0].index == 1 && chain[0].previousHash == Number(1)
      ensures chain[0].proof == 100 && chain[0].transactions == [] && currentTransactions == []
    {
      this.prims := prims;
      chain := [];
      currentTransactions := [];
      new;
      var genesis := NewBlock(GenesisProof, Some(GenesisPreviousHash), now);
    }

    /**
     * `new_block(proof, previous_hash=None)`: the block holds the pool as it
     * was, the pool field is rebound to an empty list, and the block is
     * appended to the chain and returned.
     */
    method NewBlock(proof: int, previousHash: Option<HashRef>, now: real) returns (block: Block)
      requires CanAppend(Snapshot(), previousHash)
      modifies this
      ensures Snapshot() == AppendBlock(old(Snapshot()), prims, proof, previousHash, now)
      ensures block == Last(chain)
      ensures chain == old(chain) + [block]
      ensures old(Indexed(chain)) ==> Valid()
    {
      var linkedTo: HashRef;
      if IsFalsyHash(previousHash) {
        linkedTo := Text(Hash(prims, LastBlock()));
      } else {
        linkedTo := previousHash.value;
      }
      block := Block(|chain| + 1, now, currentTransactions, proof, linkedTo);
      currentTransactions := [];
      chain := chain + [block];
      if old(Indexed(chain)) {
        AppendBlockKeepsIndexed(old(Snapshot()), prims, proof, previousHash, now);
      }
    }

    /**
     * `new_transactions(sender, recipient, amount)`: append one transaction to
     * the pool and return the index of the block that will hold it.
     */
    method NewTransactions(sender: string, recipient: string, amount: int) returns (index: int)
      requires Valid()
      modifies this
      ensures Snapshot() == AddTransaction(old(Snapshot()), sender, recipient, amount)
      ensures chain == old(chain)
      ensures currentTransactions == old(currentTransactions) + [Transaction(sender, recipient, amount)]
      ensures index == old(LastBlock().index) + 1 == |chain| + 1
      ensures Valid()
    {
      currentTransactions := currentTransactions + [Transaction(sender, recipient, amount)];
      index := LastBlock().index + 1;
    }

    /** The `last_block` property: `self.chain[-1]`. */
    function LastBlock(): (b: Block)
      reads this
      requires |chain| > 0
      ensures Valid() ==> b.index == |chain|
    {
      Last(chain)
    }

    /**
     * `proof_of_work(block)` as intended: try the proofs 0, 1, 2, ... against
     * the last block's string (the `block` argument is ignored, as in the
     * source) and return the first valid one. The source's search has no
     * bound; this one gives up after `bound` candidates.
     */
    method ProofOfWork(block: Block, bound: nat) returns (proof: Option<nat>)
      requires |chain| > 0
      ensures proof.Some? ==> proof.value < bound
      ensures proof.Some? ==> ValidProof(prims, BlockString(prims, LastBlock()), proof.value)
      ensures proof.Some? ==> forall q :: 0 <= q < proof.value ==> !ValidProof(prims, BlockString(prims, LastBlock()), q)
      ensures proof.None? ==> forall q :: 0 <= q < bound ==> !ValidProof(prims, BlockString(prims, LastBlock()), q)
    {
      var blockString := BlockString(prims, LastBlock());
      var candidate: nat := 0;
      while candidate < bound && !ValidProof(prims, blockString, candidate)
        invariant candidate <= bound
        invariant forall q :: 0 <= q < candidate ==> !ValidProof(prims, blockString, q)
      {
        candidate := candidate + 1;
      }
      if candidate < bound {
        proof := Some(candidate);
      } else {
        proof := None;
      }
    }
  }

  /**
   * The decision logic of the `/mine` handler on the ledger it is given:
   * refuse a request without a truthy id and proof, refuse a proof that is
   * not valid against the last block, and otherwise forge a block with it.
   */
  method Mine(ledger: Blockchain, id: Option<string>, proof: Option<int>, now: real) returns (outcome: MineOutcome)
    requires ledger.Valid()
    modifies ledger
    ensures MineResult(ledger.Snapshot(), outcome) == Ledger.Mine(old(ledger.Snapshot()), ledger.prims, id, proof, now)
    ensures ledger.Valid()
  {
    if IsFalsyId(id) || IsFalsyProof(proof) {
      return MissingFields;
    }
    var lastBlockString := BlockString(ledger.prims, ledger.LastBlock());
    var isValid := ValidProof(ledger.prims, lastBlockString, proof.value);
    if isValid {
      var block := ledger.NewBlock(proof.value, None, now);
      outcome := Forged(block);
    } else {
      outcome := InvalidProof;
    }
  }
}
