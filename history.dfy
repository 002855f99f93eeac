/**
 * Whole histories of a ledger: the operations its callers perform, one after
 * another, starting from the genesis block. What holds after every history is
 * what the ledger guarantees: blocks are numbered by position, each is linked
 * by hash to its predecessor, existing blocks are never rewritten, and when
 * blocks come only through `/mine` every proof is valid.
 */
module History {
  import opened Wrappers
  import opened Ledger

  /** A call on the ledger: `new_transactions`, `new_block(proof)` or the `/mine` handler. */
  datatype Op =
    | Submit(sender: string, recipient: string, amount: int)
    | Append(proof: int, now: real)
    | MineRequest(id: Option<string>, suppliedProof: Option<int>, now: real)

  function Apply(s: State, p: Primitives, op: Op): (r: State)
    requires Wellformed(s)
    ensures Wellformed(r)
  {
    match op
    case Submit(sender, recipient, amount) =>
      AddTransaction(s, sender, recipient, amount)
    case Append(proof, now) =>
      AppendBlockKeepsIndexed(s, p, proof, None, now);
      AppendBlock(s, p, proof, None, now)
    case MineRequest(id, proof, now) =>
      MineKeepsInvariants(s, p, id, proof, now);
      Mine(s, p, id, proof, now).state
  }

  /** The state after performing `ops` in order. */
  function Run(s: State, p: Primitives, ops: seq<Op>): (r: State)
    requires Wellformed(s)
    ensures Wellformed(r)
    decreases |ops|
  {
    if ops == [] then s else Run(Apply(s, p, ops[0]), p, ops[1..])
  }

  /** Every call grows the chain by at most one block, keeps the old ones, and empties the pool when it grows. */
  lemma ApplyAppendsAtMostOne(s: State, p: Primitives, op: Op)
    requires Wellformed(s)
    ensures s.chain <= Apply(s, p, op).chain
    ensures |Apply(s, p, op).chain| <= |s.chain| + 1
    ensures |Apply(s, p, op).chain| == |s.chain| + 1 ==> Apply(s, p, op).pending == []
    ensures |Apply(s, p, op).chain| == |s.chain| ==> Apply(s, p, op).pending == if op.Submit? then s.pending + [Transaction(op.sender, op.recipient, op.amount)] else s.pending
  {
  }

  /** Existing blocks are never modified: the chain before a history is a prefix of the chain after it. */
  lemma {:induction false} RunExtends(s: State, p: Primitives, ops: seq<Op>)
    requires Wellformed(s)
    ensures s.chain <= Run(s, p, ops).chain
    ensures |Run(s, p, ops).chain| <= |s.chain| + |ops|
    decreases |ops|
  {
    if ops != [] {
      ApplyAppendsAtMostOne(s, p, ops[0]);
      RunExtends(Apply(s, p, ops[0]), p, ops[1..]);
    }
  }

  lemma ApplyKeepsLinked(s: State, p: Primitives, op: Op)
    requires Wellformed(s) && Linked(p, s.chain)
    ensures Linked(p, Apply(s, p, op).chain)
  {
    match op
    case Submit(_, _, _) =>
    case Append(proof, now) =>
      AppendBlockKeepsLinked(s, p, proof, None, now);
    case MineRequest(id, proof, now) =>
      MineKeepsInvariants(s, p, id, proof, now);
  }

  /** Hash linkage survives every history: no caller supplies a previous hash. */
  lemma {:induction false} RunKeepsLinked(s: State, p: Primitives, ops: seq<Op>)
    requires Wellformed(s) && Linked(p, s.chain)
    ensures Linked(p, Run(s, p, ops).chain)
    decreases |ops|
  {
    if ops != [] {
      ApplyKeepsLinked(s, p, ops[0]);
      RunKeepsLinked(Apply(s, p, ops[0]), p, ops[1..]);
    }
  }

  /** No call of the history appends a block without checking its proof. */
  predicate OnlyMined(ops: seq<Op>)
  {
    forall k :: 0 <= k < |ops| ==> !ops[k].Append?
  }

  /** When blocks come only through `/mine`, every proof in the chain stays valid. */
  lemma {:induction false} RunKeepsMined(s: State, p: Primitives, ops: seq<Op>)
    requires Wellformed(s) && Mined(p, s.chain) && OnlyMined(ops)
    ensures Mined(p, Run(s, p, ops).chain)
    decreases |ops|
  {
    if ops != [] {
      if ops[0].MineRequest? {
        MineKeepsInvariants(s, p, ops[0].id, ops[0].suppliedProof, ops[0].now);
      }
      assert OnlyMined(ops[1..]) by {
        forall k | 0 <= k < |ops[1..]| ensures !ops[1..][k].Append? {
          assert ops[1..][k] == ops[k + 1];
        }
      }
      RunKeepsMined(Apply(s, p, ops[0]), p, ops[1..]);
    }
  }

  /**
   * A ledger built from its genesis block by any history: the genesis block
   * stays first and unchanged, `chain[i].index == i + 1`, each block's
   * `previous_hash` is the hash of the block before it, and when no block was
   * appended without `/mine` every non-genesis proof is valid.
   */
  lemma LedgerFromGenesis(p: Primitives, now: real, ops: seq<Op>)
    ensures var r := Run(Genesis(p, now), p, ops);
      Wellformed(r) && r.chain[0] == Block(1, now, [], GenesisProof, GenesisPreviousHash) &&
      Linked(p, r.chain) && (OnlyMined(ops) ==> Mined(p, r.chain))
  {
    var g := Genesis(p, now);
    GenesisWellformed(p, now);
    RunExtends(g, p, ops);
    RunKeepsLinked(g, p, ops);
    if OnlyMined(ops) {
      RunKeepsMined(g, p, ops);
    }
  }
}
