/** The ledger as a value: the sequence of attribute dictionaries of its blocks, the
    invariants the operations keep, the effect of a tamper, and the two link checks
    (the one validation performs and the one it evidently means to perform). */
module Ledger {
  import opened Payload
  import opened Digest

  /** A block whose stored hash is the content digest of `hd`. */
  function Rehash(h: Hasher, hd: Header): BlockData
  {
    BlockData(hd, h.content(hd))
  }

  /** The genesis block built at clock reading `ts`: index 0, the fixed payload, the
      sentinel previous hash "0", nonce 0, never mined. */
  function Genesis(h: Hasher, ts: real): BlockData
  {
    Rehash(h, Header(0, ts, JArr([JStr("Genesis Block")]), "0", 0))
  }

  /** The covered attributes of the block an append builds, before mining. */
  function NextHeader(s: seq<BlockData>, transactions: Json, ts: real): Header
    requires |s| > 0
  {
    Header(|s|, ts, JArr(AsList(transactions)), s[|s| - 1].hash, 0)
  }

  /** Every stored hash is the content digest of its block's current attributes. */
  ghost predicate HashesCurrent(h: Hasher, s: seq<BlockData>)
  {
    forall i :: 0 <= i < |s| ==> s[i].hash == h.content(s[i].header)
  }

  /** Every block after the first stores its predecessor's stored hash. */
  predicate Linked(s: seq<BlockData>)
  {
    forall i, j :: 0 <= i < |s| && 0 <= j < |s| && j == i + 1 ==> s[j].header.previousHash == s[i].hash
  }

  /** Every block's index is its position. */
  predicate Indexed(s: seq<BlockData>)
  {
    forall i :: 0 <= i < |s| ==> s[i].header.index == i
  }

  /** The state every operation keeps: a genesis block first, positions as indices,
      no stale hash, and every link in place. */
  ghost predicate WellFormed(h: Hasher, s: seq<BlockData>)
  {
    |s| >= 1 && s[0] == Genesis(h, s[0].header.timestamp) &&
    Indexed(s) && HashesCurrent(h, s) && Linked(s)
  }

  /** The check `is_chain_valid` performs: each block's previous hash against the
      digest of its predecessor's whole attribute dictionary, stored hash included. */
  ghost predicate ValidAsWritten(h: Hasher, s: seq<BlockData>)
  {
    forall i, j :: 0 <= i < |s| && 0 <= j < |s| && j == i + 1 ==> s[j].header.previousHash == h.attributes(s[i])
  }

  /** The check validation is meant to perform: each block's previous hash against
      `find_hash` of its predecessor, recomputed from its current attributes. */
  ghost predicate ValidRecomputed(h: Hasher, s: seq<BlockData>)
  {
    forall i, j :: 0 <= i < |s| && 0 <= j < |s| && j == i + 1 ==> s[j].header.previousHash == h.content(s[i].header)
  }

  /** The repair loop of a tamper from position `i` on: each later block takes its
      predecessor's (possibly new) hash as previous hash and is rehashed. */
  function Relink(h: Hasher, s: seq<BlockData>, i: nat): (r: seq<BlockData>)
    requires 1 <= i
    decreases |s| - i
    ensures |r| == |s|
  {
    if i >= |s| then s
    else Relink(h, s[i := Rehash(h, s[i].header.(previousHash := s[i - 1].hash))], i + 1)
  }

  /** A successful tamper of block `k`: its payload is replaced by `t` and it is
      rehashed, then every later block is relinked. */
  function Tampered(h: Hasher, s: seq<BlockData>, k: nat, t: Json): seq<BlockData>
    requires 0 < k < |s|
  {
    Relink(h, s[k := Rehash(h, s[k].header.(transactions := t))], k + 1)
  }

  /** Relinking from `i` leaves the blocks before `i` alone and, from `i` on, changes
      only previous hashes and hashes, leaving each block linked and its hash current. */
  lemma {:induction false} RelinkFacts(h: Hasher, s: seq<BlockData>, i: nat)
    requires 1 <= i
    decreases |s| - i
    ensures var r := Relink(h, s, i);
      |r| == |s| &&
      (forall j :: 0 <= j < i && j < |s| ==> r[j] == s[j]) &&
      (forall p, j :: 0 <= p < |s| && i <= j < |s| && j == p + 1 ==>
        r[j].header == s[j].header.(previousHash := r[p].hash)) &&
      (forall j :: i <= j < |s| ==> r[j].hash == h.content(r[j].header))
  {
    if i < |s| {
      var s' := s[i := Rehash(h, s[i].header.(previousHash := s[i - 1].hash))];
      RelinkFacts(h, s', i + 1);
    }
  }

  /** What a successful tamper of block `k` does, attribute by attribute: the length
      and the blocks before `k` (the genesis block among them) are unchanged; block
      `k` gets payload `t` and a fresh hash; every later block gets its
      predecessor's new hash as previous hash and a fresh hash; no index, timestamp
      or nonce changes anywhere. */
  lemma {:induction false} TamperedFacts(h: Hasher, s: seq<BlockData>, k: nat, t: Json)
    requires 0 < k < |s|
    ensures var r := Tampered(h, s, k, t);
      |r| == |s| &&
      (forall j :: 0 <= j < k ==> r[j] == s[j]) &&
      r[k].header == s[k].header.(transactions := t) &&
      (forall p, j :: 0 <= p < |s| && k < j < |s| && j == p + 1 ==>
        r[j].header == s[j].header.(previousHash := r[p].hash)) &&
      (forall j :: k <= j < |s| ==> r[j].hash == h.content(r[j].header))
  {
    var s' := s[k := Rehash(h, s[k].header.(transactions := t))];
    RelinkFacts(h, s', k + 1);
    var r := Tampered(h, s, k, t);
    assert r[..k] == s[..k] by {
      forall j | 0 <= j < k ensures r[j] == s[j] { assert r[j] == s'[j]; }
    }
    assert r[k] == s'[k];
  }

  /** A successful tamper keeps the chain well formed: in particular every link is in
      place afterwards. */
  lemma {:induction false} TamperPreservesWellFormed(h: Hasher, s: seq<BlockData>, k: nat, t: Json)
    requires WellFormed(h, s)
    requires 0 < k < |s|
    ensures WellFormed(h, Tampered(h, s, k, t))
  {
    TamperedFacts(h, s, k, t);
    var r := Tampered(h, s, k, t);
    assert r[0] == s[0] by { assert r[..k][0] == s[..k][0]; }
    forall j | 0 <= j < k ensures r[j] == s[j] { assert r[..k][j] == s[..k][j]; }
    assert Indexed(r) by {
      forall j | k < j < |r| ensures r[j].header.index == j {
        assert r[j].header == s[j].header.(previousHash := r[j - 1].hash);
      }
    }
    assert HashesCurrent(h, r);
    assert Linked(r) by {
      assert r[k].header.previousHash == s[k].header.previousHash == s[k - 1].hash == r[k - 1].hash;
    }
  }

  /** Relinking a chain that is already linked, with current hashes, changes nothing. */
  lemma {:induction false} RelinkLinkedUnchanged(h: Hasher, s: seq<BlockData>, i: nat)
    requires 1 <= i
    requires HashesCurrent(h, s) && Linked(s)
    decreases |s| - i
    ensures Relink(h, s, i) == s
  {
    if i < |s| {
      assert s[i].header.(previousHash := s[i - 1].hash) == s[i].header;
      assert s[i := Rehash(h, s[i].header.(previousHash := s[i - 1].hash))] == s;
      RelinkLinkedUnchanged(h, s, i + 1);
    }
  }

  /** Tampering a block of a well formed chain with the payload it already holds
      leaves the chain as it was. */
  lemma {:induction false} TamperSamePayloadUnchanged(h: Hasher, s: seq<BlockData>, k: nat)
    requires WellFormed(h, s)
    requires 0 < k < |s|
    ensures Tampered(h, s, k, s[k].header.transactions) == s
  {
    assert s[k].header.(transactions := s[k].header.transactions) == s[k].header;
    assert s[k := Rehash(h, s[k].header)] == s;
    RelinkLinkedUnchanged(h, s, k + 1);
  }

  /** Repeating a tamper with the same block and payload changes nothing more. */
  lemma {:induction false} TamperIdempotent(h: Hasher, s: seq<BlockData>, k: nat, t: Json)
    requires WellFormed(h, s)
    requires 0 < k < |s|
    ensures Tampered(h, Tampered(h, s, k, t), k, t) == Tampered(h, s, k, t)
  {
    TamperPreservesWellFormed(h, s, k, t);
    TamperedFacts(h, s, k, t);
    TamperSamePayloadUnchanged(h, Tampered(h, s, k, t), k);
  }

  /** Appending a block built over the tail's hash, with any mined nonce, keeps the
      chain well formed. */
  lemma {:induction false} AppendPreservesWellFormed(h: Hasher, s: seq<BlockData>, t: Json, ts: real, n: nat)
    requires WellFormed(h, s)
    ensures WellFormed(h, s + [Rehash(h, NextHeader(s, t, ts).(nonce := n))])
  {
  }

  /** In a chain whose hashes are current, the intended check reduces to the links. */
  lemma {:induction false} RecomputedIffLinked(h: Hasher, s: seq<BlockData>)
    requires HashesCurrent(h, s)
    ensures ValidRecomputed(h, s) <==> Linked(s)
  {
  }

  /** As written, validation rejects every linked chain of two or more blocks whose
      hashes are current, as long as the two digests differ: the first link is
      compared with a digest of the predecessor's dictionary, which holds the
      stored hash as well. */
  lemma {:induction false} LinkedChainFailsValidation(h: Hasher, s: seq<BlockData>)
    requires DigestsDiffer(h)
    requires HashesCurrent(h, s) && Linked(s)
    requires |s| >= 2
    ensures !ValidAsWritten(h, s)
  {
    assert s[1].header.previousHash == s[0].hash == h.content(s[0].header);
    assert h.attributes(s[0]) != h.content(s[0].header);
  }

  /** The tamper-then-validate round trip, as written: after a successful tamper of a
      well formed chain, validation as written reports the chain invalid. */
  lemma {:induction false} TamperThenValidateAsWritten(h: Hasher, s: seq<BlockData>, k: nat, t: Json)
    requires DigestsDiffer(h)
    requires WellFormed(h, s)
    requires 0 < k < |s|
    ensures !ValidAsWritten(h, Tampered(h, s, k, t))
  {
    TamperPreservesWellFormed(h, s, k, t);
    TamperedFacts(h, s, k, t);
    LinkedChainFailsValidation(h, Tampered(h, s, k, t));
  }

  /** The tamper-then-validate round trip with the intended check: after a successful
      tamper of a well formed chain the block holds the forged payload and the chain
      validates again. */
  lemma {:induction false} TamperThenValidateRecomputed(h: Hasher, s: seq<BlockData>, k: nat, t: Json)
    requires WellFormed(h, s)
    requires 0 < k < |s|
    ensures |Tampered(h, s, k, t)| == |s|
    ensures Tampered(h, s, k, t)[k].header.transactions == t
    ensures ValidRecomputed(h, Tampered(h, s, k, t))
  {
    TamperPreservesWellFormed(h, s, k, t);
    TamperedFacts(h, s, k, t);
    RecomputedIffLinked(h, Tampered(h, s, k, t));
  }

  /** With the intended check, every well formed chain validates: the fresh chain,
      and every chain reached by appends and tampers. */
  lemma {:induction false} WellFormedValidates(h: Hasher, s: seq<BlockData>)
    requires WellFormed(h, s)
    ensures ValidRecomputed(h, s)
  {
  }

  /** A fresh chain is well formed and, holding one block, passes validation both as
      written and as intended. */
  lemma GenesisChain(h: Hasher, ts: real)
    ensures WellFormed(h, [Genesis(h, ts)])
    ensures ValidAsWritten(h, [Genesis(h, ts)]) && ValidRecomputed(h, [Genesis(h, ts)])
  {
  }
}
