/** The chain object: a never-empty list of block objects and a difficulty, with the
    operations that append, validate, tamper and reset. */
module Chain {
  import opened Payload
  import opened Digest
  import opened Ledger
  import opened Blocks

  /** No block object occurs twice in the list. */
  predicate Distinct(bs: seq<Block>)
  {
    forall i, j :: 0 <= i < j < |bs| ==> bs[i] != bs[j]
  }

  class Blockchain {
    /** SHA-256 over the canonical JSON texts, shared with every block. */
    const hasher: Hasher
    var chain: seq<Block>
    var difficulty: int

    /** The chain as a value: its blocks' attribute dictionaries in order. */
    ghost var view: seq<BlockData>

    /** The object invariant: the blocks are distinct objects using the chain's digest
        functions, `view` holds their current attribute dictionaries, and these form a
        well formed chain. */
    ghost predicate Valid()
      reads this, chain
    {
      Distinct(chain) && |view| == |chain| &&
      (forall i :: 0 <= i < |chain| ==> chain[i].hasher == hasher && chain[i].Data() == view[i]) &&
      WellFormed(hasher, view)
    }

    /** `create_genesis_block`: a fresh block holding the fixed genesis payload. */
    static method CreateGenesisBlock(hasher: Hasher, timestamp: real) returns (g: Block)
      ensures fresh(g) && g.hasher == hasher
      ensures g.Data() == Genesis(hasher, timestamp)
    {
      g := new Block(hasher, 0, JArr([JStr("Genesis Block")]), "0", timestamp);
    }

    /** A chain holding only a genesis block stamped `timestamp`. */
    constructor (hasher: Hasher, timestamp: real, difficulty: int := 3)
      ensures Valid()
      ensures this.hasher == hasher && this.difficulty == difficulty
      ensures |chain| == 1 && fresh(chain[0])
      ensures view == [Genesis(hasher, timestamp)]
    {
      this.hasher := hasher;
      var g := CreateGenesisBlock(hasher, timestamp);
      chain := [g];
      this.difficulty := difficulty;
      view := [g.Data()];
    }

    /** `get_latest_block`: the tail, the block with the highest index. */
    function GetLatestBlock(): (b: Block)
      requires Valid()
      reads this, chain
      ensures b in chain && b.index == |chain| - 1
      ensures b.Data() == view[|view| - 1]
    {
      chain[|chain| - 1]
    }

    /** `add_block`: builds a block over the tail's hash, mines it at the chain's
        difficulty and appends it. Mining must be able to succeed (the source would
        otherwise loop for ever). The chain grows by exactly one block, the earlier
        blocks are untouched, and the new block carries the next index, the
        normalised payload, the tail's hash and the first nonce meeting the target. */
    method AddBlock(transactions: Json, timestamp: real)
      requires Valid()
      requires exists n: nat :: MinedAt(hasher, NextHeader(view, transactions, timestamp), n, difficulty)
      modifies this
      ensures Valid() && difficulty == old(difficulty)
      ensures |chain| == old(|chain|) + 1 && chain[..old(|chain|)] == old(chain)
      ensures fresh(chain[old(|chain|)])
      ensures |view| == |old(view)| + 1 && view[..|old(view)|] == old(view)
      ensures var b := view[|old(view)|];
        b.header == NextHeader(old(view), transactions, timestamp).(nonce := b.header.nonce) &&
        MeetsTarget(b.hash, difficulty) &&
        forall n: nat :: n < b.header.nonce ==>
          !MinedAt(hasher, NextHeader(old(view), transactions, timestamp), n, difficulty)
    {
      ghost var hd := NextHeader(view, transactions, timestamp);
      var txs := JArr(AsList(transactions));
      AsListIdempotent(transactions);
      var tail := GetLatestBlock();
      var b := new Block(hasher, |chain|, txs, tail.hash, timestamp);
      assert b.Covered() == hd;
      b.MineBlock(difficulty);
      assert b.Covered() == hd.(nonce := b.nonce);
      forall n: nat | n < b.nonce ensures !MinedAt(hasher, hd, n, difficulty) {
        assert b.Covered().(nonce := n) == hd.(nonce := n);
        assert !MinedAt(hasher, b.Covered(), n, difficulty);
      }
      AppendPreservesWellFormed(hasher, view, transactions, timestamp, b.nonce);
      chain := chain + [b];
      view := view + [b.Data()];
    }

    /** `is_chain_valid`: walks the links from block 1 on and stops at the first block
        whose previous hash differs from the digest of its predecessor's whole
        attribute dictionary. A chain of one block always passes. */
    method IsChainValid() returns (valid: bool)
      requires Valid()
      ensures valid == ValidAsWritten(hasher, view)
      ensures |chain| == 1 ==> valid
      ensures DigestsDiffer(hasher) ==> (valid <==> |chain| == 1)
    {
      if DigestsDiffer(hasher) && |view| >= 2 {
        LinkedChainFailsValidation(hasher, view);
      }
      var i := 1;
      while i < |chain|
        invariant 1 <= i <= |chain|
        invariant forall p, j :: 0 <= p < |view| && 0 <= j < i && j == p + 1 ==>
          view[j].header.previousHash == hasher.attributes(view[p])
      {
        var prevBlock := chain[i - 1];
        var currentBlock := chain[i];
        var recalculated := hasher.attributes(prevBlock.Data());
        if currentBlock.previousHash != recalculated {
          return false;
        }
        i := i + 1;
      }
      return true;
    }

    /** The check `is_chain_valid` evidently means to perform: the same walk, comparing
        each previous hash with `find_hash` of the predecessor. Every chain the
        operations can produce passes it. */
    method IsChainValidRecomputed() returns (valid: bool)
      requires Valid()
      ensures valid == ValidRecomputed(hasher, view)
      ensures valid
    {
      WellFormedValidates(hasher, view);
      var i := 1;
      while i < |chain|
        invariant 1 <= i <= |chain|
        invariant forall p, j :: 0 <= p < |view| && 0 <= j < i && j == p + 1 ==>
          view[j].header.previousHash == hasher.content(view[p].header)
      {
        var prevBlock := chain[i - 1];
        var currentBlock := chain[i];
        var recalculated := prevBlock.FindHash();
        if currentBlock.previousHash != recalculated {
          return false;
        }
        i := i + 1;
      }
      return true;
    }

    /** The repair loop of `tamper_block`: from position `from` on, each block takes
        its predecessor's stored hash as previous hash and is rehashed, in order. */
    static method RelinkFrom(hasher: Hasher, blocks: seq<Block>, from: nat, ghost s: seq<BlockData>)
      requires 1 <= from
      requires Distinct(blocks) && |blocks| == |s|
      requires forall j :: 0 <= j < |blocks| ==> blocks[j].hasher == hasher && blocks[j].Data() == s[j]
      modifies blocks
      ensures forall j :: 0 <= j < |blocks| ==> blocks[j].Data() == Relink(hasher, s, from)[j]
    {
      ghost var cur := s;
      var i := from;
      while i < |blocks|
        invariant from <= i && |cur| == |blocks|
        invariant Relink(hasher, cur, i) == Relink(hasher, s, from)
        invariant forall j :: 0 <= j < |blocks| ==> blocks[j].Data() == cur[j]
      {
        var prevBlock := blocks[i - 1];
        var currentBlock := blocks[i];
        currentBlock.previousHash := prevBlock.hash;
        currentBlock.hash := currentBlock.FindHash();
        cur := cur[i := Rehash(hasher, cur[i].header.(previousHash := cur[i - 1].hash))];
        i := i + 1;
      }
    }

    /** `tamper_block`: an index outside 1 .. length-1 is refused and nothing changes
        (so the genesis block is never tampered); otherwise the block takes the new
        payload as given (not normalised) and is rehashed, and every later block is
        relinked and rehashed in order. The chain stays well formed. */
    method TamperBlock(index: int, newTransactions: Json) returns (ok: bool)
      requires Valid()
      modifies this`view, chain
      ensures Valid() && chain == old(chain)
      ensures ok <==> 0 < index < |chain|
      ensures !ok ==> view == old(view)
      ensures ok ==> view == Tampered(hasher, old(view), index, newTransactions)
    {
      if index <= 0 || index >= |chain| {
        return false;
      }
      ghost var s := view;
      var target := chain[index];
      target.transactions := newTransactions;
      target.hash := target.FindHash();
      ghost var t := s[index := Rehash(hasher, s[index].header.(transactions := newTransactions))];
      RelinkFrom(hasher, chain, index + 1, t);
      TamperPreservesWellFormed(hasher, s, index, newTransactions);
      view := Tampered(hasher, s, index, newTransactions);
      return true;
    }

    /** `reset_chain`: back to a single, freshly stamped genesis block. */
    method ResetChain(timestamp: real)
      modifies this
      ensures Valid() && difficulty == old(difficulty)
      ensures |chain| == 1 && fresh(chain[0])
      ensures view == [Genesis(hasher, timestamp)]
    {
      var g := CreateGenesisBlock(hasher, timestamp);
      chain := [g];
      view := [g.Data()];
    }
  }

  /** The tamper demonstration on a fresh chain at difficulty 0: two appends, a
      validation, a tamper of block 1, and validation again both ways. As written, validation fails before and after the
      tamper whenever the two digests differ; the intended check passes afterwards. */
  method TamperDemonstration(h: Hasher, ts: real, forged: Json)
    returns (before: bool, tampered: bool, after: bool, afterRecomputed: bool)
    ensures DigestsDiffer(h) ==> !before && !after
    ensures tampered && afterRecomputed
  {
    var c := new Blockchain(h, ts, 0);
    var hd := NextHeader(c.view, JArr([JStr("first")]), ts);
    ZeroDifficultyMet(h.content(hd.(nonce := 0)));
    assert MinedAt(c.hasher, hd, 0, c.difficulty);
    c.AddBlock(JArr([JStr("first")]), ts);
    hd := NextHeader(c.view, JArr([JStr("second")]), ts);
    ZeroDifficultyMet(h.content(hd.(nonce := 0)));
    assert MinedAt(c.hasher, hd, 0, c.difficulty);
    c.AddBlock(JArr([JStr("second")]), ts);
    before := c.IsChainValid();
    tampered := c.TamperBlock(1, forged);
    after := c.IsChainValid();
    afterRecomputed := c.IsChainValidRecomputed();
  }
}
