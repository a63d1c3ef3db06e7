/** The mutable tree of core/src/merkle_tree.rs and its loops. */
module MerkleTrees {
  import opened Wrappers
  import opened Numbers
  import opened MerkleHash
  import opened MerkleSpec

  method BuildLevels(sha: Digest, leafHashes: Level) returns (levels: seq<Level>)
    requires leafHashes != []
    ensures levels == Levels(sha, leafHashes)
  {
    levels := [];
    var current := leafHashes;
    while true
      invariant current != []
      invariant levels + Levels(sha, current) == Levels(sha, leafHashes)
      decreases |current|
    {
      ghost var before := levels;
      levels := levels + [current];
      if |current| == 1 {
        break;
      }
      var next := NextLevel(sha, current);
      assert levels + Levels(sha, next) == before + ([current] + Levels(sha, next));
      current := next;
    }
  }

  /** The inner loop of `build_levels`. */
  method NextLevel(sha: Digest, level: Level) returns (next: Level)
    ensures next == Parents(sha, level)
  {
    next := [];
    var i := 0;
    while i < |level|
      invariant 0 <= i <= |level| + 1 && i % 2 == 0
      invariant next == Parents(sha, level)[..i / 2]
    {
      var left := level[i];
      var right := if i + 1 < |level| then level[i + 1] else left;
      next := next + [HashPair(sha, left, right)];
      i := i + 2;
    }
  }

  /** MerkleProof::verify and MerkleTree::verify_proof share one loop. */
  method VerifyProof(sha: Digest, p: MerkleProof, root: Hash) returns (ok: bool)
    ensures ok <==> Accepts(sha, p, root)
  {
    var current: Hash := if p.leafHash == ZERO_HASH then HashLeaf(sha, p.leaf) else p.leafHash;
    for k := 0 to |p.proof|
      invariant Climb(sha, current, p.proof[k..]) == Climb(sha, StartHash(sha, p), p.proof)
    {
      var node := p.proof[k];
      assert p.proof[k..][1..] == p.proof[k + 1..];
      current := if node.isLeft then HashConcat(sha, current, node.hash) else HashConcat(sha, node.hash, current);
    }
    ok := current == root;
  }

  method Verify(sha: Digest, p: MerkleProof) returns (ok: bool)
    ensures ok <==> Accepts(sha, p, p.root)
  {
    ok := VerifyProof(sha, p, p.root);
  }

  /** The inner loop of `generate_proofs_batch`: one level for every requested path. */
  method AdvancePaths(sha: Digest, nodes: seq<Level>, ghost indices: seq<nat>, level: nat,
                      pathIndices: seq<nat>, proofs: seq<seq<ProofNode>>)
    returns (paths': seq<nat>, proofs': seq<seq<ProofNode>>)
    requires level + 1 < |nodes| && |pathIndices| == |proofs| == |indices|
    requires forall k :: 0 <= k < |indices| ==> OnTrack(sha, nodes, indices[k], level, pathIndices[k], proofs[k])
    ensures |paths'| == |proofs'| == |indices|
    ensures forall k :: 0 <= k < |indices| ==> OnTrack(sha, nodes, indices[k], level + 1, paths'[k], proofs'[k])
  {
    hide OnTrack, LexLe;
    paths', proofs' := pathIndices, proofs;
    var levelNodes := nodes[level];
    for k := 0 to |pathIndices|
      invariant |paths'| == |proofs'| == |indices|
      invariant forall j :: 0 <= j < k ==> OnTrack(sha, nodes, indices[j], level + 1, paths'[j], proofs'[j])
      invariant paths'[k..] == pathIndices[k..] && proofs'[k..] == proofs[k..]
    {
      var p := paths'[k];
      assert p == pathIndices[k] && proofs'[k] == proofs[k];
      TrackStep(sha, nodes, indices[k], level, p, proofs[k]);
      var siblingIndex := if p % 2 == 0 then p + 1 else p - 1;
      var siblingHash := if siblingIndex < |levelNodes| then levelNodes[siblingIndex] else levelNodes[p];
      var isLeft := LexLe(levelNodes[p], siblingHash);
      proofs' := proofs'[k := proofs'[k] + [ProofNode(siblingHash, isLeft)]];
      paths' := paths'[k := p / 2];
    }
  }

  datatype MerkleError = NoLeaves | OverCapacity | NotBuilt | OutOfBounds

  class MerkleTree {
    const sha: Digest
    const levels: nat
    var root: Hash
    var leafCount: nat
    var dataLeaves: seq<Bytes>
    var nodes: seq<Level>

    constructor (sha: Digest, levels: nat)
      ensures this.sha == sha && this.levels == levels
      ensures Valid() && nodes == [] && dataLeaves == []
    {
      this.sha := sha;
      this.levels := levels;
      root, leafCount, dataLeaves, nodes := ZERO_HASH, 0, [], [];
    }

    /** Either nothing was built, or every field agrees with the levels over `dataLeaves`. */
    ghost predicate Valid()
      reads this
    {
      && leafCount == |dataLeaves|
      && (nodes == [] <==> dataLeaves == [])
      && (nodes == [] ==> root == ZERO_HASH)
      && (nodes != [] ==>
            && leafCount <= Capacity(levels)
            && nodes == Levels(sha, LeafHashes(sha, dataLeaves))
            && root == Root(nodes))
    }

    method Build(leaves: seq<Bytes>) returns (r: Result<(), MerkleError>)
      requires Valid()
      modifies this
      ensures Valid()
      ensures r == if leaves == [] then Err(NoLeaves)
                   else if |leaves| > Capacity(levels) then Err(OverCapacity)
                   else Ok(())
      ensures r.Ok? ==> dataLeaves == leaves && nodes != []
      ensures r.Err? ==> root == old(root) && leafCount == old(leafCount)
                         && dataLeaves == old(dataLeaves) && nodes == old(nodes)
    {
      if leaves == [] {
        return Err(NoLeaves);
      }
      var maxLeaves := if levels >= 64 then USIZE_MAX else Pow2(levels);
      if |leaves| > maxLeaves {
        return Err(OverCapacity);
      }
      var leafHashes := LeafHashes(sha, leaves);
      nodes := BuildLevels(sha, leafHashes);
      root := nodes[|nodes| - 1][0];
      dataLeaves := leaves;
      leafCount := |dataLeaves|;
      return Ok(());
    }

    function Depth(): nat
      reads this
    {
      if nodes == [] then 0 else |nodes| - 1
    }

    /** What one call of `generate_proof` answers. */
    ghost function ProofResult(leafIndex: nat): Result<MerkleProof, MerkleError>
      requires Valid()
      reads this
    {
      if nodes == [] then Err(NotBuilt)
      else if leafIndex >= leafCount then Err(OutOfBounds)
      else Ok(ProofOf(sha, dataLeaves, leafIndex))
    }

    method GenerateProof(leafIndex: nat) returns (r: Result<MerkleProof, MerkleError>)
      requires Valid()
      ensures r == ProofResult(leafIndex)
    {
      if nodes == [] {
        return Err(NotBuilt);
      }
      if leafIndex >= leafCount {
        return Err(OutOfBounds);
      }
      var depth := Depth();
      var proof: seq<ProofNode> := [];
      var pathIndex: nat := leafIndex;
      TrackStart(sha, nodes, leafIndex);
      for level := 0 to depth
        invariant OnTrack(sha, nodes, leafIndex, level, pathIndex, proof)
      {
        TrackStep(sha, nodes, leafIndex, level, pathIndex, proof);
        var levelNodes := nodes[level];
        var siblingIndex := if pathIndex % 2 == 0 then pathIndex + 1 else pathIndex - 1;
        var siblingHash := if siblingIndex < |levelNodes| then levelNodes[siblingIndex] else levelNodes[pathIndex];
        var isLeft := LexLe(levelNodes[pathIndex], siblingHash);
        proof := proof + [ProofNode(siblingHash, isLeft)];
        pathIndex := pathIndex / 2;
      }
      TrackEnd(sha, nodes, leafIndex, pathIndex, proof);
      return Ok(MerkleProof(leafIndex, dataLeaves[leafIndex], nodes[0][leafIndex], root, proof));
    }

    /** All requested proofs in one walk up the tree. */
    method GenerateProofsBatch(indices: seq<nat>) returns (r: Result<seq<MerkleProof>, MerkleError>)
      requires Valid()
      ensures r.Ok? ==> |r.value| == |indices|
                        && forall k :: 0 <= k < |indices| ==> ProofResult(indices[k]) == Ok(r.value[k])
      ensures r.Err? <==> nodes == [] || exists k :: 0 <= k < |indices| && ProofResult(indices[k]).Err?
      ensures r.Err? ==> r.error == if nodes == [] then NotBuilt else OutOfBounds
    {
      if nodes == [] {
        return Err(NotBuilt);
      }
      for k := 0 to |indices|
        invariant forall j :: 0 <= j < k ==> indices[j] < leafCount
      {
        if indices[k] >= leafCount {
          assert ProofResult(indices[k]).Err?;
          return Err(OutOfBounds);
        }
      }
      var depth := Depth();
      var pathIndices: seq<nat> := indices;
      var proofs: seq<seq<ProofNode>> := seq(|indices|, _ => []);
      forall k | 0 <= k < |indices| {
        TrackStart(sha, nodes, indices[k]);
      }
      for level := 0 to depth
        invariant |pathIndices| == |proofs| == |indices|
        invariant forall k :: 0 <= k < |indices| ==> OnTrack(sha, nodes, indices[k], level, pathIndices[k], proofs[k])
      {
        pathIndices, proofs := AdvancePaths(sha, nodes, indices, level, pathIndices, proofs);
      }
      forall k | 0 <= k < |indices| {
        TrackEnd(sha, nodes, indices[k], pathIndices[k], proofs[k]);
      }
      var bottom, leaves, root := nodes[0], dataLeaves, root;
      return Ok(seq(|indices|, k requires 0 <= k < |indices| =>
        MerkleProof(indices[k], leaves[indices[k]], bottom[indices[k]], root, proofs[k])));
    }
  }
}
