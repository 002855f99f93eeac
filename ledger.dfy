/**
 * The ledger of `basic_transactions_gp/blockchain.py` as values: blocks,
 * transactions, the canonical block string and its hash, the proof-of-work
 * predicate, and the state transitions that the `Blockchain` class performs
 * in place (`new_block`, `new_transactions`, the genesis block) together with
 * the admission rule of the `/mine` handler.
 *
 * SHA-256, `json.dumps(..., sort_keys=True)` and the f-string that forms a
 * proof guess are not computed: they are the three functions of a
 * `Primitives` value, and everything below is stated for every choice of them.
 */
module Ledger {
  import opened Wrappers

  newtype Byte = b: int | 0 <= b < 256

  type Bytes = seq<Byte>

  /** `{'sender': ..., 'recipient': ..., 'amount': ...}`; no field is validated. */
  datatype Transaction = Transaction(sender: string, recipient: string, amount: int)

  /**
   * The value held in a block's `previous_hash` key: a hex digest string for
   * blocks linked by `new_block`, the integer sentinel `1` for the genesis block.
   */
  datatype HashRef = Number(n: int) | Text(s: string)

  /** The dictionary built by `new_block`; `timestamp` is the value `time()` returned. */
  datatype Block = Block(
    index: int,
    timestamp: real,
    transactions: seq<Transaction>,
    proof: int,
    previousHash: HashRef)

  /**
   * The foreign computations the ledger relies on:
   *  - `encode`: `json.dumps(block, sort_keys=True).encode()`, the block string;
   *  - `sha256Hex`: `hashlib.sha256(bytes).hexdigest()`;
   *  - `guess`: `f"{block_string}{proof}".encode()`, which formats the repr of
   *    the bytes object followed by the decimal digits of the proof.
   */
  datatype Primitives = Primitives(
    encode: Block -> Bytes,
    sha256Hex: Bytes -> string,
    guess: (Bytes, int) -> Bytes)

  /** The two fields of a `Blockchain` object: `chain` and `current_transactions`. */
  datatype State = State(chain: seq<Block>, pending: seq<Transaction>)

  /** The fixed values the constructor passes to `new_block` for the genesis block. */
  const GenesisProof: int := 100
  const GenesisPreviousHash: HashRef := Number(1)

  /** The prefix a valid proof's guess hash must start with (three zero characters). */
  const ProofPrefix: string := "000"

  function Last(chain: seq<Block>): Block
    requires |chain| > 0
  {
    chain[|chain| - 1]
  }

  /** The canonical block string that both `hash` and `valid_proof` start from. */
  function BlockString(p: Primitives, b: Block): Bytes
  {
    p.encode(b)
  }

  /** `Blockchain.hash`: the hex SHA-256 digest of the canonical block string. */
  function Hash(p: Primitives, b: Block): string
  {
    p.sha256Hex(BlockString(p, b))
  }

  /**
   * The hash commits to the block string and nothing else: blocks with the
   * same canonical string have the same hash.
   */
  lemma SameBlockStringSameHash(p: Primitives, a: Block, b: Block)
    requires BlockString(p, a) == BlockString(p, b)
    ensures Hash(p, a) == Hash(p, b)
  {
  }

  /** Python's slice `s[:n]`, which clamps at the end of the string. */
  function Take(s: string, n: nat): (r: string)
    ensures |r| == if |s| < n then |s| else n
    ensures r <= s
  {
    if |s| <= n then s else s[..n]
  }

  /**
   * `Blockchain.valid_proof(block_string, proof)`: the hash of the guess formed
   * from the block string and the proof starts with three zero characters.
   * A digest shorter than three characters is never valid.
   */
  function ValidProof(p: Primitives, blockString: Bytes, proof: int): (valid: bool)
    ensures valid <==>
      var h := p.sha256Hex(p.guess(blockString, proof));
      |h| >= 3 && h[0] == '0' && h[1] == '0' && h[2] == '0'
  {
    var guessHash := p.sha256Hex(p.guess(blockString, proof));
    Take(guessHash, |ProofPrefix|) == ProofPrefix
  }

  /** Python truthiness of an optional `previous_hash` argument: `None`, `0` and `""` are false. */
  function IsFalsyHash(h: Option<HashRef>): (falsy: bool)
    ensures falsy <==> h == None || h == Some(Number(0)) || h == Some(Text(""))
  {
    match h
    case None => true
    case Some(Number(n)) => n == 0
    case Some(Text(s)) => s == ""
  }

  /**
   * What `new_block` needs of its object: `previous_hash or self.hash(self.chain[-1])`
   * reads the last block only when the supplied hash is falsy, and an empty
   * chain there raises an IndexError.
   */
  predicate CanAppend(s: State, previousHash: Option<HashRef>)
  {
    !IsFalsyHash(previousHash) || |s.chain| > 0
  }

  /**
   * `Blockchain.new_block(proof, previous_hash)`: the pending transactions go,
   * in order, into a block numbered one past the chain's length and linked to
   * the last block unless a truthy hash is supplied; the pool is then empty
   * and the chain grows by that one block.
   */
  function AppendBlock(s: State, p: Primitives, proof: int, previousHash: Option<HashRef>, now: real): (r: State)
    requires CanAppend(s, previousHash)
    ensures |r.chain| == |s.chain| + 1
    ensures r.chain[..|s.chain|] == s.chain
    ensures Last(r.chain).index == |s.chain| + 1
    ensures Last(r.chain).timestamp == now && Last(r.chain).proof == proof
    ensures Last(r.chain).transactions == s.pending
    ensures r.pending == []
    ensures IsFalsyHash(previousHash) ==> Last(r.chain).previousHash == Text(Hash(p, Last(s.chain)))
    ensures !IsFalsyHash(previousHash) ==> Last(r.chain).previousHash == previousHash.value
  {
    var linkedTo := if IsFalsyHash(previousHash) then Text(Hash(p, Last(s.chain))) else previousHash.value;
    var block := Block(|s.chain| + 1, now, s.pending, proof, linkedTo);
    State(s.chain + [block], [])
  }

  /** `Blockchain.__init__`: an empty chain and pool, then the genesis block. */
  function Genesis(p: Primitives, now: real): (r: State)
    ensures r.chain == [Block(1, now, [], GenesisProof, GenesisPreviousHash)]
    ensures r.pending == []
  {
    AppendBlock(State([], []), p, GenesisProof, Some(GenesisPreviousHash), now)
  }

  /** The pool update of `Blockchain.new_transactions`. */
  function AddTransaction(s: State, sender: string, recipient: string, amount: int): (r: State)
    ensures r.chain == s.chain
    ensures |r.pending| == |s.pending| + 1 && r.pending[..|s.pending|] == s.pending
    ensures r.pending[|s.pending|] == Transaction(sender, recipient, amount)
  {
    State(s.chain, s.pending + [Transaction(sender, recipient, amount)])
  }

  /** What `new_transactions` returns: `self.last_block['index'] + 1`. */
  function NextIndex(s: State): (index: int)
    requires |s.chain| > 0
    ensures Wellformed(s) ==> index == |s.chain| + 1
  {
    Last(s.chain).index + 1
  }

  // ---------------------------------------------------------------------------
  // Invariants of the chain
  // ---------------------------------------------------------------------------

  /** Every block's `index` is its 1-based position. */
  predicate Indexed(chain: seq<Block>)
  {
    forall i :: 0 <= i < |chain| ==> chain[i].index == i + 1
  }

  /** The state of a constructed ledger: a non-empty chain numbered by position. */
  predicate Wellformed(s: State)
  {
    |s.chain| > 0 && Indexed(s.chain)
  }

  /** Every non-genesis block's `previous_hash` is the hash of its predecessor. */
  predicate Linked(p: Primitives, chain: seq<Block>)
  {
    forall i :: 0 < i < |chain| ==> chain[i].previousHash == Text(Hash(p, chain[i - 1]))
  }

  /** Every non-genesis block's proof is valid against its predecessor's block string. */
  predicate Mined(p: Primitives, chain: seq<Block>)
  {
    forall i :: 0 < i < |chain| ==> ValidProof(p, BlockString(p, chain[i - 1]), chain[i].proof)
  }

  lemma GenesisWellformed(p: Primitives, now: real)
    ensures Wellformed(Genesis(p, now))
    ensures Linked(p, Genesis(p, now).chain) && Mined(p, Genesis(p, now).chain)
  {
  }

  /** `new_block` keeps `chain[i].index == i + 1`, whatever the supplied hash. */
  lemma AppendBlockKeepsIndexed(s: State, p: Primitives, proof: int, previousHash: Option<HashRef>, now: real)
    requires CanAppend(s, previousHash) && Indexed(s.chain)
    ensures Indexed(AppendBlock(s, p, proof, previousHash, now).chain)
  {
    var r := AppendBlock(s, p, proof, previousHash, now);
    forall i | 0 <= i < |r.chain| ensures r.chain[i].index == i + 1 {
      if i < |s.chain| {
        assert r.chain[i] == r.chain[..|s.chain|][i];
      }
    }
  }

  /** `new_block(proof)` without a (truthy) previous hash keeps the hash linkage. */
  lemma AppendBlockKeepsLinked(s: State, p: Primitives, proof: int, previousHash: Option<HashRef>, now: real)
    requires |s.chain| > 0 && IsFalsyHash(previousHash) && Linked(p, s.chain)
    ensures Linked(p, AppendBlock(s, p, proof, previousHash, now).chain)
  {
    var r := AppendBlock(s, p, proof, previousHash, now);
    var n := |s.chain|;
    forall i | 0 < i < |r.chain| ensures r.chain[i].previousHash == Text(Hash(p, r.chain[i - 1])) {
      assert r.chain[i - 1] == r.chain[..n][i - 1];
      if i < n {
        assert r.chain[i] == r.chain[..n][i];
      }
    }
  }

  /** Appending a block whose proof is valid against the last block keeps every proof valid. */
  lemma AppendBlockKeepsMined(s: State, p: Primitives, proof: int, previousHash: Option<HashRef>, now: real)
    requires |s.chain| > 0 && Mined(p, s.chain)
    requires ValidProof(p, BlockString(p, Last(s.chain)), proof)
    ensures Mined(p, AppendBlock(s, p, proof, previousHash, now).chain)
  {
    var r := AppendBlock(s, p, proof, previousHash, now);
    var n := |s.chain|;
    forall i | 0 < i < |r.chain| ensures ValidProof(p, BlockString(p, r.chain[i - 1]), r.chain[i].proof) {
      assert r.chain[i - 1] == r.chain[..n][i - 1];
      if i < n {
        assert r.chain[i] == r.chain[..n][i];
      }
    }
  }

  // ---------------------------------------------------------------------------
  // The `/mine` handler's decision rule
  // ---------------------------------------------------------------------------

  /** The three responses of `/mine`: 400 for a missing field, 400 for a bad proof, 201 with the block. */
  datatype MineOutcome = MissingFields | InvalidProof | Forged(block: Block)

  datatype MineResult = MineResult(state: State, outcome: MineOutcome)

  /** `not data.get("id")`: an absent or empty id. */
  function IsFalsyId(id: Option<string>): (falsy: bool)
    ensures falsy <==> id == None || id == Some("")
  {
    id.None? || id.value == ""
  }

  /** `not data.get("proof")`: an absent proof or the proof `0`. */
  function IsFalsyProof(proof: Option<int>): (falsy: bool)
    ensures falsy <==> proof == None || proof == Some(0)
  {
    proof.None? || proof.value == 0
  }

  /**
   * The body of `mine()`: refuse a request without a truthy id and proof,
   * check the proof against the last block's string, and append a block with
   * that proof (linked to the last block) only when it is valid.
   */
  function Mine(s: State, p: Primitives, id: Option<string>, proof: Option<int>, now: real): (r: MineResult)
    requires Wellformed(s)
    ensures IsFalsyId(id) || IsFalsyProof(proof) ==> r == MineResult(s, MissingFields)
    ensures !IsFalsyId(id) && !IsFalsyProof(proof) && !ValidProof(p, BlockString(p, Last(s.chain)), proof.value)
      ==> r == MineResult(s, InvalidProof)
    ensures r.outcome.Forged? <==>
      !IsFalsyId(id) && !IsFalsyProof(proof) && ValidProof(p, BlockString(p, Last(s.chain)), proof.value)
    ensures r.outcome.Forged? ==>
      r.state == AppendBlock(s, p, proof.value, None, now) && r.outcome.block == Last(r.state.chain)
    ensures r.outcome.Forged? ==> |r.state.chain| == |s.chain| + 1 && r.state.pending == []
  {
    if IsFalsyId(id) || IsFalsyProof(proof) then
      MineResult(s, MissingFields)
    else
      var lastBlockString := BlockString(p, Last(s.chain));
      if ValidProof(p, lastBlockString, proof.value) then
        var s' := AppendBlock(s, p, proof.value, None, now);
        MineResult(s', Forged(Last(s'.chain)))
      else
        MineResult(s, InvalidProof)
  }

  /** A proof of `0` is refused at the boundary even when it is a valid proof. */
  lemma ZeroProofRefused(s: State, p: Primitives, id: Option<string>, now: real)
    requires Wellformed(s)
    ensures Mine(s, p, id, Some(0), now) == MineResult(s, MissingFields)
  {
  }

  /**
   * `proof_of_work` and `/mine` derive the same block string from the last
   * block, so a non-zero proof valid against it is accepted with any
   * non-empty id, and the forged block links to the last block's hash.
   */
  lemma MineAcceptsValidProof(s: State, p: Primitives, id: string, proof: int, now: real)
    requires Wellformed(s) && id != "" && proof != 0
    requires ValidProof(p, BlockString(p, Last(s.chain)), proof)
    ensures Mine(s, p, Some(id), Some(proof), now).outcome.Forged?
    ensures var r := Mine(s, p, Some(id), Some(proof), now).state;
      r.chain[..|s.chain|] == s.chain && Last(r.chain).proof == proof &&
      Last(r.chain).previousHash == Text(Hash(p, Last(s.chain)))
  {
  }

  /** Whatever `/mine` is sent, the ledger stays well formed, linked and mined. */
  lemma MineKeepsInvariants(s: State, p: Primitives, id: Option<string>, proof: Option<int>, now: real)
    requires Wellformed(s)
    ensures Wellformed(Mine(s, p, id, proof, now).state)
    ensures Linked(p, s.chain) ==> Linked(p, Mine(s, p, id, proof, now).state.chain)
    ensures Mined(p, s.chain) ==> Mined(p, Mine(s, p, id, proof, now).state.chain)
  {
    if !IsFalsyId(id) && !IsFalsyProof(proof) && ValidProof(p, BlockString(p, Last(s.chain)), proof.value) {
      AppendBlockKeepsIndexed(s, p, proof.value, None, now);
      if Linked(p, s.chain) {
        AppendBlockKeepsLinked(s, p, proof.value, None, now);
      }
      if Mined(p, s.chain) {
        AppendBlockKeepsMined(s, p, proof.value, None, now);
      }
    }
  }

  // ---------------------------------------------------------------------------
  // `proof_of_work` as written
  // ---------------------------------------------------------------------------

  datatype PyError = TypeError(message: string)

  /**
   * `proof_of_work` as the source has it: the loop guard calls
   * `valid_proof(block_string)` with one argument, so its first evaluation
   * raises a TypeError and no proof is ever returned, whatever the ledger.
   */
  function ProofOfWorkAsWritten(s: State, p: Primitives): (r: Result<nat, PyError>)
    requires |s.chain| > 0
    ensures r.Failure?
  {
    var blockString := BlockString(p, Last(s.chain));
    Failure(TypeError("Blockchain.valid_proof() missing 1 required positional argument: 'proof'"))
  }
}
