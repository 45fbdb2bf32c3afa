# BlockScope ledger in Dafny

This project models the in-memory ledger of the BlockScope demonstration app (`app.py`, the
classes `Block` and `Blockchain`). A chain is a list of block objects. Every block stores its
index, a creation timestamp, a list of transactions, its predecessor's hash, a nonce and its
own hash. The hash is SHA-256 over the JSON text of the first five fields. The chain can:

- append a block, mining a nonce until the hash has `difficulty` leading zeros;
- validate the links;
- tamper with a block and forge the rest of the chain to match;
- reset itself to a single genesis block.

Modules, in dependency order:

- `Payload` (`payload.dfy`): JSON payloads, and the "ensure list" normalisation.
- `Digest` (`digest.dfy`):
  - the covered attributes of a block (`Header`);
  - its whole attribute dictionary (`BlockData`);
  - the two SHA-256 digests the code computes, as an uninterpreted pair of functions (`Hasher`);
  - the proof-of-work target, written out with Python's slice and string-repeat semantics.
- `Blocks` (`block.dfy`): the `Block` class. Its constructor builds a block, and `MineBlock`
  updates the nonce and hash in place.
- `Ledger` (`ledger.dfy`): the chain as a value. It holds:
  - the well-formedness invariant: genesis first, the index equals the position, no stale
    hash, and every link in place;
  - the effect of a tamper as a function (`Tampered`);
  - the two link checks: the one the code performs (`ValidAsWritten`) and the one it
    evidently intends (`ValidRecomputed`);
  - the lemmas about all of these.
- `Chain` (`blockchain.dfy`): the `Blockchain` class over a `seq<Block>` field.
  - Its object invariant `Valid()` ties the blocks' current attributes to a ghost value
    `view`, and requires `view` to be well formed.
  - Every operation is proved to keep `Valid()`, and to change `view` exactly as the
    `Ledger` functions say.

The key hypotheses are explicit predicates. A lemma uses them only where it needs them:

- `DigestsDiffer`: the digest of a block's whole dictionary never equals the digest of its
  five covered fields. That would take a SHA-256 collision, since the texts differ.
- `ContentDigestLength64`: every content digest (the `find_hash` value) has 64 characters,
  the length of a SHA-256 hexdigest. Nothing is assumed about the characters themselves, or
  about the dictionary digest.

### What validation evidently means, and what it does

The code states its intent itself:

- app.py:59 says validation will "Recalculate the hash of the previous block".
- app.py:62 says a mismatch means the chain was tampered with.
- `tamper_block` then forges every later link again (app.py:76-79), so that a block's stored
  `previous_hash` is once more its predecessor's `find_hash`.

What the code does differs:

- `is_chain_valid` does not recompute `find_hash` of the previous block. It hashes
  `prev_block.__dict__`, and that dictionary also contains the stored `hash` attribute
  (app.py:60).
- So every stored `previous_hash`, which is a `find_hash` digest (app.py:49, app.py:78), is
  compared with a different digest. Every chain of two or more blocks fails validation, even
  right after an append or a tamper.

The model follows the code: `Chain.Blockchain.IsChainValid` computes `ValidAsWritten`. The
discrepancy is recorded under Findings. The check the comments describe is `ValidRecomputed`,
performed by `Chain.Blockchain.IsChainValidRecomputed`. It is proved to hold after every
append and every tamper, and `Chain.TamperDemonstration` walks through both checks on one
chain.

## Model

| member | source | states |
|---|---|---|
| `Payload.AsListIdempotent` | app.py:13 | Normalising twice, as the append path does (app.py:48 and app.py:13), stores the same list as normalising once. |
| `Digest.Repeat` | app.py:31 | `"0" * d` has length `d`, or 0 when `d <= 0`, and every character is the repeated one. |
| `Digest.PrefixSlice` | app.py:31 | `hash[:d]` is a prefix of `hash`: `min(d, len)` characters for `d >= 0`, and all but the last `-d` for negative `d`. |
| `Digest.TargetMeaning` | app.py:31 | The mining exit test holds exactly when the hash is at least `d` long and its first `d` characters are all '0'. For a negative `d`, it holds exactly when the hash has at most `-d` characters. |
| `Digest.ZeroDifficultyMet` | app.py:31 | At difficulty 0 every hash meets the target. |
| `Digest.TargetBeyondDigest` | app.py:27-33 | With 64-character content digests, a difficulty above 64 is met by no nonce, so mining at that difficulty never stops. |
| `Blocks.Block.constructor` | app.py:10-16 | A new block holds the given index, timestamp, previous hash and nonce, and the payload normalised to a list. Its stored hash is `find_hash` of those five fields. |
| `Blocks.Block.MineBlock` | app.py:29-33 | Mining raises only the nonce. It ends with a current hash that meets the target, at the first nonce (from the starting one) that does, and it leaves a block that already meets the target untouched. |
| `Ledger.Relink` | app.py:76-79 | The repair pass keeps the chain's length. |
| `Ledger.RelinkFacts` | app.py:76-79 | Relinking from position `i` leaves the earlier blocks unchanged. Each later block keeps every covered field except its previous hash, which becomes its predecessor's new hash, and it gets a current hash. |
| `Ledger.TamperedFacts` | app.py:70-79 | A successful tamper of block `k` keeps the length and every block before `k`. It replaces block `k`'s payload unnormalised, rehashes every block from `k` on, and relinks every later block to its predecessor's new hash. No index, timestamp or nonce changes. |
| `Ledger.TamperPreservesWellFormed` | app.py:68-81 | A successful tamper keeps the chain well formed: genesis first, the index equals the position, current hashes and every link in place. |
| `Ledger.RelinkLinkedUnchanged` | app.py:76-79 | Relinking a chain that is already linked and has current hashes changes nothing. |
| `Ledger.TamperSamePayloadUnchanged` | app.py:73-79 | Tampering a block with the payload it already holds leaves a well formed chain as it was. |
| `Ledger.TamperIdempotent` | app.py:68-81 | Repeating a tamper with the same index and payload changes nothing more. |
| `Ledger.AppendPreservesWellFormed` | app.py:47-51 | Appending a block whose index is the length, whose payload is normalised and whose previous hash is the tail's hash, at any mined nonce and with a current hash, keeps the chain well formed. |
| `Ledger.RecomputedIffLinked` | app.py:55-66 | In a chain whose hashes are current, the intended check passes exactly when every block stores its predecessor's hash. |
| `Ledger.WellFormedValidates` | app.py:55-66 | The intended check passes on every well formed chain. |
| `Ledger.LinkedChainFailsValidation` | app.py:55-66 | As written, validation rejects every linked chain of two or more blocks with current hashes, whenever the two digests differ. |
| `Ledger.TamperThenValidateAsWritten` | app.py:53-81 | After a successful tamper of a well formed chain, validation as written reports the chain invalid, whenever the two digests differ. |
| `Ledger.TamperThenValidateRecomputed` | app.py:53-81 | After a successful tamper, the tampered block holds the new payload, the length is unchanged, and the intended check passes. |
| `Ledger.GenesisChain` | app.py:37-42 | A one-block genesis chain is well formed, and passes both checks. |
| `Chain.Blockchain.CreateGenesisBlock` | app.py:41-42 | The genesis block is fresh, has index 0, payload `["Genesis Block"]`, previous hash "0" and nonce 0, and stores its `find_hash`. |
| `Chain.Blockchain.constructor` | app.py:37-39 | A new chain holds exactly one newly allocated genesis block and the given difficulty (3 by default), and satisfies the object invariant. |
| `Chain.Blockchain.GetLatestBlock` | app.py:44-45 | The result is the block in the chain with the highest index, `length - 1`, and its attributes are the last entry of the chain's value. |
| `Chain.Blockchain.AddBlock` | app.py:47-51 | The chain grows by exactly one fresh block and keeps the earlier blocks and the difficulty. The new block has the next index, the normalised payload and the tail's hash. Its nonce is the first that meets the target, and its hash meets that target. The invariant is kept. |
| `Chain.Blockchain.IsChainValid` | app.py:53-66 | The result is `true` exactly when every block from position 1 on stores the digest of its predecessor's whole attribute dictionary. A one-block chain always passes. Whenever the two digests differ, it passes exactly on a one-block chain. |
| `Chain.Blockchain.IsChainValidRecomputed` | app.py:55-66 | The corrected check: the same walk, comparing each previous hash with `find_hash` of its predecessor. Its result is `true` exactly when `ValidRecomputed` holds, so it always passes on a chain satisfying the invariant. |
| `Chain.Blockchain.RelinkFrom` | app.py:76-79 | The repair loop leaves every block's attributes equal to `Relink` of their values before the loop. |
| `Chain.Blockchain.TamperBlock` | app.py:68-81 | The result is `true` exactly when `0 < index < length`. On `false`, nothing changes. On `true`, the chain's value becomes `Tampered` of its old value. The block list and the invariant are kept either way. |
| `Chain.Blockchain.ResetChain` | app.py:84-86 | After a reset the chain holds a single fresh genesis block and keeps the difficulty and the invariant. |
| `Chain.TamperDemonstration` | app.py:47-81 | On a fresh chain at difficulty 0 with two appended blocks, a tamper of block 1 succeeds. The intended check passes afterwards. Validation as written fails both before and after the tamper, whenever the two digests differ. |

## Left out

- The Flask routes, request parsing, page rendering and the global chain instance (`app.py` from line 88 on) are outside the ledger core.
- SHA-256 and the JSON serialisation are not modelled bit for bit. Both digests are parameters (`Hasher`). Where a lemma relies on the digests differing, or on their length, it says so as a hypothesis.
- `time.time()` is a parameter: the constructors, `AddBlock` and `ResetChain` take the clock reading. Timestamps are reals, not floating-point values.
- The status messages of `tamper_block` are left out. The model returns only the boolean.
- `Blocks.Block.MineBlock`: requires that some nonce from the current one on meets the target. Where none exists, the source loops for ever, which the model does not represent. `Chain.Blockchain.AddBlock` inherits this requirement.
- `Payload.Json`: numbers are integers or reals. Python's float rounding, and the `NaN` and `Infinity` values that `json.dumps` writes for such floats, are not modelled. The JSON text of a real is not modelled either, only that a float is a different value from an integer.
- `Chain.Blockchain.TamperBlock`: its index is an integer and its payload a JSON value. Python's dynamic typing would let through other kinds of index, for example a float or a bool, and the model does not cover them.
- `Blocks.Block.FindHash` has no contract of its own. It is the `content` digest of the five covered attributes, and the constructor, `MineBlock` and the tamper contracts state its use.

## Findings

| source | as written | input that shows it | evidently intended | confidence | as-written member | corrected member |
|---|---|---|---|---|---|---|
| app.py:60-63 | Each `previous_hash` is compared with SHA-256 of the predecessor's whole `__dict__`, which also contains the stored `hash`. It is never compared with `find_hash`. | A genesis block and one appended block, or that chain after `tamper_block(1, ...)`. Validation returns `false`, because the digest of a six-key dictionary is not the digest of the five-key text stored as `previous_hash`. | Validation recomputes `find_hash` of the previous block, so that it passes after appends and after a fully propagated tamper. | high; not executed | `Ledger.TamperThenValidateAsWritten` | `Ledger.TamperThenValidateRecomputed` |
