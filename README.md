# Blockchain ledger with proof-of-work admission, in Dafny

This project models the `Blockchain` class of `basic_transactions_gp/blockchain.py`, an in-memory ledger that only ever grows, and the decision rule of its `/mine` request handler. The ledger has two fields. `chain` is a list of blocks. `current_transactions` is the pool of transactions waiting for the next block.

- `new_block(proof, previous_hash=None)` builds a block numbered `len(chain) + 1`. The block takes the pool as it is and links to the hash of the last block unless a truthy hash is supplied. The method then empties the pool and appends the block.
- `new_transactions(sender, recipient, amount)` appends one transaction to the pool and returns the index of the block that will hold it.
- The constructor creates the genesis block with `previous_hash = 1` and `proof = 100`.
- `hash` is the hex SHA-256 digest of the block's key-sorted JSON dump.
- `valid_proof(block_string, proof)` holds when the hash of the guess formed from the block string and the proof starts with `"000"`.
- `proof_of_work` is meant to search the proofs 0, 1, 2, … against the last block (its docstring, lines 109-114). As written it raises on its first loop test (see Findings).
- `/mine` refuses a request without a truthy `id` and `proof`. It then checks the proof against the last block's string and forges a block only when the proof is valid.

Layout:

- `wrappers.dfy` (module `Wrappers`): `Option` stands for Python's `None`, `Result` for a raised exception.
- `ledger.dfy` (module `Ledger`): blocks, transactions and the ledger state as values. It also holds the proof predicate, the transitions `AppendBlock` (`new_block`), `AddTransaction` and `Genesis`, the `/mine` rule `Mine`, the chain invariants (`Indexed`, `Linked`, `Mined`) and the lemmas that each transition keeps them.
- `blockchain.dfy` (module `BlockchainNode`): the class `Blockchain` with the fields `chain` and `currentTransactions`, its constructor and its methods. Each state-changing method's postcondition ties the new state to the `Ledger` function of the old state. The same module holds the handler method `Mine`, which receives the ledger it works on.
- `history.dfy` (module `History`): histories of calls replayed from the genesis block, and the theorems about every such history.

SHA-256, `json.dumps(..., sort_keys=True).encode()` and the f-string `f"{block_string}{proof}".encode()` are not computed. They are the three fields of a `Primitives` value: `encode`, `sha256Hex` and `guess`. The class keeps that value as a constant, and every lemma holds for every choice of the three functions. Hash linkage and proof validity are therefore stated relative to the hash and the encoder, not to real digests. Each of these functions is a total Dafny function, so `valid_proof` and `hash` are deterministic by construction.

Where the code and its own comments and docstrings differ, the model follows the code:

- `new_block` replaces any falsy `previous_hash` (`None`, `0`, `""`) with the hash of the last block, because line 42 uses `or`. Its docstring (line 33) only calls the argument optional ("(Optional) <str> Hash of previous Block").
- `/mine` refuses an empty `id` and a proof of `0`, because line 167 tests truthiness. The comment at line 165 only speaks of fields being present ("check that proof and id are present in the data"). So a search result of `0` is refused at the boundary (`Ledger.ZeroProofRefused`).
- `proof_of_work` ignores its `block` argument and always works on the last block (line 117).
- As written, `proof_of_work` can never return (line 123; see Findings). The class method models the evident intent.

In the source the new block holds the very list object that was the pool. Line 46 then rebinds the field to a fresh empty list, so nothing mutates the old list afterwards. Modelling the pool as a `seq` value loses nothing.

## Model

| member | source | states |
|---|---|---|
| `Ledger.Take` | basic_transactions_gp/blockchain.py:149 | the slice `s[:3]` is the prefix of `s` of length `min(3, len(s))` |
| `Ledger.ValidProof` | basic_transactions_gp/blockchain.py:130-149 | a proof is valid iff the digest of the guess built from the block string and the proof has at least three characters and its first three are `'0'` |
| `Ledger.AppendBlock` | basic_transactions_gp/blockchain.py:21-50 | new_block adds exactly one block and keeps every earlier block unchanged; the new block has index old length + 1, the given timestamp and proof, and exactly the pre-call pool, in order; the pool is empty afterwards; `previous_hash` is the hash of the old last block when the supplied one is falsy, and the supplied value otherwise |
| `Ledger.Genesis` | basic_transactions_gp/blockchain.py:14-19 | a fresh ledger has exactly one block, with index 1, no transactions, proof 100 and previous hash 1, and an empty pool |
| `Ledger.GenesisWellformed` | basic_transactions_gp/blockchain.py:14-19 | the fresh ledger is non-empty, numbered by position, linked and mined |
| `Ledger.AppendBlockKeepsIndexed` | basic_transactions_gp/blockchain.py:38-48 | whatever hash is supplied, new_block keeps `chain[i].index == i + 1` for all i |
| `Ledger.AppendBlockKeepsLinked` | basic_transactions_gp/blockchain.py:42 | without a truthy supplied hash, new_block keeps `chain[i].previous_hash == hash(chain[i-1])` for every non-genesis block |
| `Ledger.AppendBlockKeepsMined` | basic_transactions_gp/blockchain.py:173-180 | appending a block whose proof is valid against the last block string keeps every non-genesis proof valid against its predecessor |
| `Ledger.BlockString` | basic_transactions_gp/blockchain.py:86-89 | the canonical block string is `encode(block)`, i.e. `json.dumps(block, sort_keys=True).encode()`; the same function gives the string at lines 117 and 173 |
| `Ledger.Hash` | basic_transactions_gp/blockchain.py:71-102 | a block's hash is `sha256Hex` of its canonical block string |
| `Ledger.SameBlockStringSameHash` | basic_transactions_gp/blockchain.py:86-99 | blocks with the same canonical string have the same hash: the hash depends on nothing but the block string |
| `Ledger.IsFalsyHash` | basic_transactions_gp/blockchain.py:42 | a supplied previous hash is falsy exactly when it is `None`, `0` or `""` |
| `Ledger.AddTransaction` | basic_transactions_gp/blockchain.py:62-66 | the pool gains exactly one transaction `{sender, recipient, amount}` at its end, keeps the earlier ones in order, and the chain is unchanged |
| `Ledger.NextIndex` | basic_transactions_gp/blockchain.py:69 | on a constructed ledger `last_block['index'] + 1` equals `len(chain) + 1` |
| `Ledger.IsFalsyId` | basic_transactions_gp/blockchain.py:167 | `not data.get("id")` holds exactly when the id is absent or `""` |
| `Ledger.IsFalsyProof` | basic_transactions_gp/blockchain.py:167 | `not data.get("proof")` holds exactly when the proof is absent or `0` |
| `Ledger.MineAcceptsValidProof` | basic_transactions_gp/blockchain.py:173-180 | a non-zero proof valid against the last block's string (the string `proof_of_work` also uses, line 117) is accepted with any non-empty id; the forged block keeps the old chain, carries that proof and links to the last block's hash |
| `Ledger.Mine` | basic_transactions_gp/blockchain.py:163-189 | a falsy id or proof yields "missing fields" with the state unchanged; a proof invalid against the last block string yields a rejection with chain and pool unchanged; otherwise, and only then, a block is forged: the state is `new_block(proof)`'s, the chain grows by one, the pool is empty and the returned block is the new last block |
| `Ledger.ZeroProofRefused` | basic_transactions_gp/blockchain.py:167 | a proof of 0 is refused with no state change, even when it is a valid proof |
| `Ledger.MineKeepsInvariants` | basic_transactions_gp/blockchain.py:173-180 | every mining request keeps the ledger numbered by position, and keeps it linked and mined when it was |
| `Ledger.ProofOfWorkAsWritten` | basic_transactions_gp/blockchain.py:117-128 | as written, the search raises a TypeError on its first guard evaluation and never yields a proof |
| `BlockchainNode.Blockchain.constructor` | basic_transactions_gp/blockchain.py:14-19 | the new object's state is the genesis state: one block with index 1, previous hash 1, proof 100 and no transactions, and an empty pool |
| `BlockchainNode.Blockchain.NewBlock` | basic_transactions_gp/blockchain.py:21-50 | the new state is `AppendBlock` of the old one: the chain is the old chain plus the returned block, and the pool is empty; a chain numbered by position stays so |
| `BlockchainNode.Blockchain.NewTransactions` | basic_transactions_gp/blockchain.py:52-69 | the pool gains exactly `{sender, recipient, amount}` at its end; the chain is unchanged; the result is the last block's index + 1, which is `len(chain) + 1` |
| `BlockchainNode.Blockchain.LastBlock` | basic_transactions_gp/blockchain.py:104-106 | on a constructed ledger the last block's index is the chain's length |
| `BlockchainNode.Blockchain.ProofOfWork` | basic_transactions_gp/blockchain.py:108-128 | a returned proof is valid against the last block's string and no smaller non-negative proof is; no result means none of the first `bound` proofs is valid |
| `BlockchainNode.Mine` | basic_transactions_gp/blockchain.py:163-189 | the handler's response and the ledger's new state are those `Ledger.Mine` gives for the old state; the ledger stays well formed |
| `History.Apply` | basic_transactions_gp/blockchain.py:21-189 | each call, whether new_transactions (lines 52-69), new_block(proof) (lines 21-50) or a mining request (lines 163-189), keeps the ledger non-empty and numbered by position |
| `History.Run` | basic_transactions_gp/blockchain.py:21-69 | any sequence of those calls keeps the ledger non-empty and numbered by position |
| `History.ApplyAppendsAtMostOne` | basic_transactions_gp/blockchain.py:40-62 | a call keeps the old chain as a prefix and adds at most one block; the pool is empty when a block was added; otherwise the pool changes only by the one transaction of new_transactions |
| `History.RunExtends` | basic_transactions_gp/blockchain.py:48 | existing blocks are never modified: any history keeps the earlier chain as a prefix, adding at most one block per call |
| `History.ApplyKeepsLinked` | basic_transactions_gp/blockchain.py:42 | every call keeps the hash linkage between neighbouring blocks |
| `History.RunKeepsLinked` | basic_transactions_gp/blockchain.py:42 | every history keeps the hash linkage between neighbouring blocks |
| `History.RunKeepsMined` | basic_transactions_gp/blockchain.py:173-180 | when blocks are added only through `/mine`, every non-genesis proof stays valid against its predecessor's block string |
| `History.LedgerFromGenesis` | basic_transactions_gp/blockchain.py:14-19 | after any history from construction, the genesis block is still first and unchanged, `chain[i].index == i + 1`, `chain[i+1].previous_hash == hash(chain[i])`, and every non-genesis proof is valid when no block bypassed `/mine` |

## Left out

- The Flask application, the routes, `request.get_json`, `jsonify`, `print` and `app.run` are HTTP plumbing. The outcome `MissingFields` stands for the 400 "Request body must have id and proof" response, `InvalidProof` for the 400 "Unable to forge block!" response, and `Forged(block)` for the 201 response. The `/chain` and `/last_block` handlers only read `chain` and `last_block` and have no model of their own.
- The request body is dynamic JSON. `id` is modelled as an optional string and `proof` as an optional integer; other JSON types are not modelled.
- `new_block`'s `previous_hash` may be any Python value. It is modelled as an integer or a string, which covers the genesis sentinel `1` and every hex digest.
- Transaction amounts are integers (the docstring's `<int>`). Float amounts are not modelled.
- SHA-256 and `json.dumps(sort_keys=True)` are foreign library calls and are uninterpreted. That the encoding does not depend on key insertion order is a property of `json.dumps` and is not proved.
- `time()` is the wall clock. The timestamp is a `real` parameter of every call that makes a block.
- The `uuid4` node identifier is random and the core never uses it.
- The module-level `blockchain` instance is a global. The handler method receives the ledger as an argument instead. There is no concurrency in the source.
- BlockchainNode.Blockchain.ProofOfWork: the source's search loop has no bound, and its termination cannot be proved against an uninterpreted hash. The model stops after `bound` candidates and then returns `None`.

## Findings

| source | as written | input that shows it | evidently intended | confidence | as-written member | corrected member |
|---|---|---|---|---|---|---|
| basic_transactions_gp/blockchain.py:123 | the loop guard calls `self.valid_proof(block_string)` without the proof argument, and never passes the incremented `proof` | any ledger, e.g. a fresh one: the first evaluation of the guard raises TypeError (missing positional argument `proof`), so `proof_of_work` never returns a proof | `while self.valid_proof(block_string, proof) is False`, testing the proofs 0, 1, 2, … and returning the first valid one | high; not executed | `Ledger.ProofOfWorkAsWritten` | `BlockchainNode.Blockchain.ProofOfWork` |
