/** Block contents, the two digests computed over them, and the proof-of-work target. */
module Digest {
  import opened Payload

  /** The five attributes `find_hash` serialises (with sorted keys, so only their
      values matter). The timestamp is the clock reading taken at construction. */
  datatype Header = Header(
    index: nat,
    timestamp: real,
    transactions: Json,
    previousHash: string,
    nonce: nat)

  /** A block's whole attribute dictionary: the five covered attributes and the
      stored `hash` itself. */
  datatype BlockData = BlockData(header: Header, hash: string)

  /** The hash functions the ledger uses, left uninterpreted.
      `content` is SHA-256 of the canonical JSON text of the five covered attributes
      (the digest a block stores); `attributes` is SHA-256 of the canonical JSON
      text of the whole attribute dictionary (the digest validation recomputes).
      Both are deterministic functions of values, which is all the ledger relies on. */
  datatype Hasher = Hasher(content: Header -> string, attributes: BlockData -> string)

  /** The two digests never agree on a block: the dictionary text carries one key
      more than the five-attribute text, so equal digests would be a SHA-256
      collision. Used only as an explicit hypothesis. */
  ghost predicate DigestsDiffer(h: Hasher)
  {
    forall b: BlockData :: h.attributes(b) != h.content(b.header)
  }

  /** Every content digest has 64 characters, the length of a SHA-256 hexdigest. */
  ghost predicate ContentDigestLength64(h: Hasher)
  {
    forall hd: Header :: |h.content(hd)| == 64
  }

  /** Python's `c * n` for a one-character string `c`: empty when `n <= 0`. */
  function Repeat(c: char, n: int): (r: string)
    ensures |r| == if n <= 0 then 0 else n
    ensures forall i :: 0 <= i < |r| ==> r[i] == c
  {
    if n <= 0 then "" else [c] + Repeat(c, n - 1)
  }

  /** Python's slice `s[:d]`: the first `d` characters (all of `s` when `d` is
      larger), and for a negative `d` all but the last `-d` characters. */
  function PrefixSlice(s: string, d: int): (r: string)
    ensures r <= s
    ensures d >= 0 ==> |r| == if d <= |s| then d else |s|
    ensures d < 0 ==> |r| == if |s| + d > 0 then |s| + d else 0
  {
    if d >= 0 then (if d <= |s| then s[..d] else s)
    else if |s| + d > 0 then s[..|s| + d]
    else ""
  }

  /** The exit test of the mining loop: `hash[:difficulty] == "0" * difficulty`. */
  predicate MeetsTarget(hash: string, difficulty: int)
  {
    PrefixSlice(hash, difficulty) == Repeat('0', difficulty)
  }

  /** Mining a block whose covered attributes are `hd` succeeds at nonce `n`. */
  predicate MinedAt(h: Hasher, hd: Header, n: nat, difficulty: int)
  {
    MeetsTarget(h.content(hd.(nonce := n)), difficulty)
  }

  /** What the target means: for a non-negative difficulty `d`, the hash is at least
      `d` long and its first `d` characters are all '0'; for a negative one the test
      only passes on a hash of at most `-d` characters. */
  lemma TargetMeaning(hash: string, d: int)
    ensures d >= 0 ==>
      (MeetsTarget(hash, d) <==> d <= |hash| && forall i :: 0 <= i < d ==> hash[i] == '0')
    ensures d < 0 ==> (MeetsTarget(hash, d) <==> |hash| <= -d)
  {
  }

  /** Difficulty 0 is met by every hash. */
  lemma ZeroDifficultyMet(hash: string)
    ensures MeetsTarget(hash, 0)
  {
  }

  /** A difficulty beyond the digest length can never be met: with 64-character
      digests and a difficulty above 64, no nonce makes mining stop. */
  lemma TargetBeyondDigest(h: Hasher, hd: Header, d: int)
    requires ContentDigestLength64(h)
    requires d > 64
    ensures forall n: nat :: !MinedAt(h, hd, n, d)
  {
  }
}
