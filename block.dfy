/** A block of the ledger: an object whose nonce and hash the miner updates in place. */
module Blocks {
  import opened Payload
  import opened Digest

  class Block {
    /** The digest functions, shared with the chain that owns the block. */
    const hasher: Hasher

    var index: nat
    var timestamp: real
    var transactions: Json
    var previousHash: string
    var nonce: nat
    var hash: string

    /** The five attributes the stored hash covers, at their current values. */
    function Covered(): Header
      reads this
    {
      Header(index, timestamp, transactions, previousHash, nonce)
    }

    /** The whole attribute dictionary, stored hash included. */
    function Data(): BlockData
      reads this
    {
      BlockData(Covered(), hash)
    }

    /** `find_hash`: the content digest of the current covered attributes. */
    function FindHash(): string
      reads this
    {
      hasher.content(Covered())
    }

    /** The stored hash is not stale. */
    ghost predicate HashCurrent()
      reads this
    {
      hash == FindHash()
    }

    /** Builds a block at clock reading `timestamp`, normalising the payload to a list
        and storing the digest of the result. */
    constructor (hasher: Hasher, index: nat, transactions: Json, previousHash: string,
                 timestamp: real, nonce: nat := 0)
      ensures this.hasher == hasher
      ensures Covered() == Header(index, timestamp, JArr(AsList(transactions)), previousHash, nonce)
      ensures HashCurrent()
    {
      this.hasher := hasher;
      this.index := index;
      this.timestamp := timestamp;
      this.transactions := JArr(AsList(transactions));
      this.previousHash := previousHash;
      this.nonce := nonce;
      new;
      hash := FindHash();
    }

    /** Proof of work: raises the nonce one step at a time, rehashing after each step,
        until the hash meets the target. The source loops for ever when no nonce
        works; the model is called only when one exists. It stops at the first
        nonce that works, so a hash that already meets the target (always the case
        for difficulty 0) leaves the nonce as it was. */
    method MineBlock(difficulty: int)
      requires HashCurrent()
      requires exists n: nat :: n >= nonce && MinedAt(hasher, Covered(), n, difficulty)
      modifies this`nonce, this`hash
      ensures HashCurrent() && MeetsTarget(hash, difficulty)
      ensures old(nonce) <= nonce
      ensures forall n: nat :: old(nonce) <= n < nonce ==> !MinedAt(hasher, Covered(), n, difficulty)
      ensures MeetsTarget(old(hash), difficulty) ==> nonce == old(nonce)
    {
      ghost var w: nat :| w >= nonce && MinedAt(hasher, Covered(), w, difficulty);
      while PrefixSlice(hash, difficulty) != Repeat('0', difficulty)
        invariant HashCurrent()
        invariant old(nonce) <= nonce <= w
        invariant MinedAt(hasher, Covered(), w, difficulty)
        invariant forall n: nat :: old(nonce) <= n < nonce ==> !MinedAt(hasher, Covered(), n, difficulty)
        invariant nonce != old(nonce) ==> !MeetsTarget(old(hash), difficulty)
        decreases w - nonce
      {
        ghost var before := Covered();
        assert before.(nonce := nonce) == before;
        assert !MinedAt(hasher, before, nonce, difficulty);
        assert forall n: nat :: old(nonce) <= n <= nonce ==> !MinedAt(hasher, before, n, difficulty);
        nonce := nonce + 1;
        hash := FindHash();
        forall n: nat | old(nonce) <= n < nonce
          ensures !MinedAt(hasher, Covered(), n, difficulty)
        {
          assert MinedAt(hasher, Covered(), n, difficulty) == MinedAt(hasher, before, n, difficulty);
          assert !MinedAt(hasher, before, n, difficulty);
        }
      }
    }
  }
}
