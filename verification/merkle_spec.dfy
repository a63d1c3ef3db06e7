/** What the levels, proofs and verification of core/src/merkle_tree.rs compute. */
module MerkleSpec {
  import opened Numbers
  import opened MerkleHash

  type Level = seq<Hash>

  datatype ProofNode = ProofNode(hash: Hash, isLeft: bool)

  datatype MerkleProof = MerkleProof(leafIndex: nat, leaf: Bytes, leafHash: Hash, root: Hash, proof: seq<ProofNode>)

  function LeafHashes(sha: Digest, leaves: seq<Bytes>): (hs: Level)
    ensures |hs| == |leaves|
  {
    seq(|leaves|, i requires 0 <= i < |leaves| => HashLeaf(sha, leaves[i]))
  }

  /** The right-hand partner of an even node: itself when the level is odd. */
  function RightOf(level: Level, i: nat): Hash
    requires i < |level|
  {
    if i + 1 < |level| then level[i + 1] else level[i]
  }

  function Parents(sha: Digest, level: Level): (up: Level)
    ensures |up| == (|level| + 1) / 2
  {
    seq((|level| + 1) / 2, i requires 0 <= i < (|level| + 1) / 2 =>
      HashPair(sha, level[2 * i], RightOf(level, 2 * i)))
  }

  function Levels(sha: Digest, level: Level): (ls: seq<Level>)
    requires level != []
    ensures ls != [] && ls[0] == level && |ls[|ls| - 1]| == 1
    ensures forall k :: 0 <= k < |ls| ==> ls[k] != []
    decreases |level|
  {
    if |level| == 1 then [level] else [level] + Levels(sha, Parents(sha, level))
  }

  /** `levels` are the levels built over their own first row. */
  predicate IsTree(sha: Digest, levels: seq<Level>) {
    levels != [] && levels[0] != [] && levels == Levels(sha, levels[0])
  }

  function Root(levels: seq<Level>): Hash
    requires levels != [] && levels[|levels| - 1] != []
  {
    levels[|levels| - 1][0]
  }

  lemma UpperTree(sha: Digest, levels: seq<Level>)
    requires IsTree(sha, levels) && |levels| > 1
    ensures IsTree(sha, levels[1..]) && levels[1] == Parents(sha, levels[0]) && |levels[0]| > 1
    ensures Root(levels[1..]) == Root(levels)
  {
    assert levels[1..] == Levels(sha, Parents(sha, levels[0]));
  }

  function Sibling(level: Level, i: nat): Hash
    requires i < |level|
  {
    var s := if i % 2 == 0 then i + 1 else i - 1;
    if s < |level| then level[s] else level[i]
  }

  function NodeAt(level: Level, i: nat): ProofNode
    requires i < |level|
  {
    ProofNode(Sibling(level, i), LexLe(level[i], Sibling(level, i)))
  }

  /** The path of siblings from node `i` of the lowest given level up to the root. */
  function Path(sha: Digest, levels: seq<Level>, i: nat): (p: seq<ProofNode>)
    requires IsTree(sha, levels) && i < |levels[0]|
    ensures |p| == |levels| - 1
    decreases |levels|
  {
    if |levels| == 1 then []
    else
      UpperTree(sha, levels);
      [NodeAt(levels[0], i)] + Path(sha, levels[1..], i / 2)
  }

  /** After `l` levels the walk from leaf `start` stands at node `i` with `done` collected. */
  ghost predicate OnTrack(sha: Digest, levels: seq<Level>, start: nat, l: nat, i: nat, done: seq<ProofNode>) {
    && IsTree(sha, levels) && start < |levels[0]|
    && l < |levels| && IsTree(sha, levels[l..]) && i < |levels[l]|
    && done + Path(sha, levels[l..], i) == Path(sha, levels, start)
  }

  lemma TrackStart(sha: Digest, levels: seq<Level>, start: nat)
    requires IsTree(sha, levels) && start < |levels[0]|
    ensures OnTrack(sha, levels, start, 0, start, [])
  {
    assert levels[0..] == levels;
  }

  lemma TrackStep(sha: Digest, levels: seq<Level>, start: nat, l: nat, i: nat, done: seq<ProofNode>)
    requires OnTrack(sha, levels, start, l, i, done) && l + 1 < |levels|
    ensures i < |levels[l]|
    ensures OnTrack(sha, levels, start, l + 1, i / 2, done + [NodeAt(levels[l], i)])
  {
    UpperTree(sha, levels[l..]);
    assert levels[l..][1..] == levels[l + 1..];
    assert done + Path(sha, levels[l..], i) == done + [NodeAt(levels[l], i)] + Path(sha, levels[l + 1..], i / 2);
  }

  lemma TrackEnd(sha: Digest, levels: seq<Level>, start: nat, i: nat, done: seq<ProofNode>)
    requires levels != [] && OnTrack(sha, levels, start, |levels| - 1, i, done)
    ensures done == Path(sha, levels, start)
  {
  }

  /** The pair of hashes that one verification step concatenates. */
  function StepInput(current: Hash, node: ProofNode): Pair {
    if node.isLeft then Pair(current, node.hash) else Pair(node.hash, current)
  }

  /** Folding a proof from a starting hash. */
  function Climb(sha: Digest, current: Hash, proof: seq<ProofNode>): Hash
    decreases |proof|
  {
    if proof == [] then current
    else Climb(sha, HashOf(sha, StepInput(current, proof[0])), proof[1..])
  }

  function StartHash(sha: Digest, p: MerkleProof): Hash {
    if p.leafHash == ZERO_HASH then HashLeaf(sha, p.leaf) else p.leafHash
  }

  predicate Accepts(sha: Digest, p: MerkleProof, root: Hash) {
    Climb(sha, StartHash(sha, p), p.proof) == root
  }

  /** The proof object handed out for leaf `i` of a tree over `leaves`. */
  function ProofOf(sha: Digest, leaves: seq<Bytes>, i: nat): MerkleProof
    requires i < |leaves|
  {
    var levels := Levels(sha, LeafHashes(sha, leaves));
    MerkleProof(i, leaves[i], levels[0][i], Root(levels), Path(sha, levels, i))
  }

  const USIZE_MAX: nat := U64 - 1

  /** How many leaves a tree configured with `levels` levels may hold. */
  function Capacity(levels: nat): nat {
    if levels >= 64 then USIZE_MAX else Pow2(levels)
  }
}
