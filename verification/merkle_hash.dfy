/**
 Thirty-two byte hashes, their lexicographic order (Rust's array order) and the
 hashing helpers of core/src/merkle_tree.rs.  SHA-256 itself is a parameter of
 everything below: an arbitrary function from byte strings to hashes.
 */
module MerkleHash {
  type Byte = b: int | 0 <= b < 256

  type Bytes = seq<Byte>

  function ZeroBytes(n: nat): (bs: Bytes)
    ensures |bs| == n && forall k :: 0 <= k < n ==> bs[k] == 0
  {
    if n == 0 then [] else [0] + ZeroBytes(n - 1)
  }

  type Hash = h: Bytes | |h| == 32 witness ZeroBytes(32)

  type Digest = Bytes -> Hash

  const ZERO_HASH: Hash := ZeroBytes(32)

  /** Lexicographic order on byte strings. */
  predicate LexLe(a: Bytes, b: Bytes) {
    a == [] || (b != [] && (a[0] < b[0] || (a[0] == b[0] && LexLe(a[1..], b[1..]))))
  }

  lemma {:induction false} LexTotal(a: Bytes, b: Bytes)
    ensures LexLe(a, b) || LexLe(b, a)
  {
    if a != [] && b != [] && a[0] == b[0] {
      LexTotal(a[1..], b[1..]);
    }
  }

  lemma {:induction false} LexAntisymmetric(a: Bytes, b: Bytes)
    requires LexLe(a, b) && LexLe(b, a)
    ensures a == b
  {
    if a != [] {
      LexAntisymmetric(a[1..], b[1..]);
      assert a == [a[0]] + a[1..] && b == [b[0]] + b[1..];
    }
  }

  /** The double SHA-256 of a leaf payload. */
  function HashLeaf(sha: Digest, data: Bytes): Hash {
    sha(sha(data))
  }

  /** The hash of the 64-byte buffer `left ‖ right`. */
  function HashConcat(sha: Digest, left: Hash, right: Hash): Hash {
    sha(left + right)
  }

  datatype Pair = Pair(left: Hash, right: Hash)

  function HashOf(sha: Digest, p: Pair): Hash {
    HashConcat(sha, p.left, p.right)
  }

  /** min ‖ max */
  function Sorted(left: Hash, right: Hash): Pair {
    if LexLe(left, right) then Pair(left, right) else Pair(right, left)
  }

  lemma SortedSymmetric(left: Hash, right: Hash)
    ensures Sorted(left, right) == Sorted(right, left)
  {
    LexTotal(left, right);
    if LexLe(left, right) && LexLe(right, left) {
      LexAntisymmetric(left, right);
    }
  }

  function HashPair(sha: Digest, left: Hash, right: Hash): Hash {
    HashOf(sha, Sorted(left, right))
  }

  /** Two distinct inputs of `hash_concat` with one output. */
  predicate IsCollision(sha: Digest, c: (Pair, Pair)) {
    c.0 != c.1 && HashOf(sha, c.0) == HashOf(sha, c.1)
  }

  // ---- The order in numbers -----------------------------------------------

  /** `a` and `b` agree before byte `k`, where `a` is smaller. */
  predicate SmallerAt(a: Bytes, b: Bytes, k: nat) {
    k < |a| && k < |b| && a[..k] == b[..k] && a[k] < b[k]
  }

  lemma {:induction false} SmallerIsLess(a: Bytes, b: Bytes, k: nat)
    requires SmallerAt(a, b, k)
    ensures LexLe(a, b) && !LexLe(b, a)
    decreases k
  {
    if k > 0 {
      assert a[0] == a[..k][0] == b[..k][0] == b[0];
      assert a[1..][..k - 1] == a[..k][1..] && b[1..][..k - 1] == b[..k][1..];
      SmallerIsLess(a[1..], b[1..], k - 1);
    }
  }

  /** Whatever the argument order, the hash with the smaller first differing byte comes first. */
  lemma PairHashesSmallerFirst(sha: Digest, left: Hash, right: Hash, k: nat)
    requires SmallerAt(left, right, k)
    ensures HashPair(sha, left, right) == sha(left + right)
    ensures HashPair(sha, right, left) == sha(left + right)
  {
    SmallerIsLess(left, right, k);
  }

  lemma TwinPairHash(sha: Digest, h: Hash)
    ensures HashPair(sha, h, h) == sha(h + h)
  {
  }
}
