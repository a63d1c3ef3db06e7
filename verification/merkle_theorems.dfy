/** What the tree of core/src/merkle_tree.rs is for: completeness, soundness, commitment and shape. */
module MerkleTheorems {
  import opened Numbers
  import opened MerkleHash
  import opened MerkleSpec
  import opened MerkleTrees

  // ---- Small trees and single steps in bytes --------------------------------

  /** A tree of one leaf is its double digest. */
  lemma OneLeafRoot(sha: Digest, a: Bytes)
    ensures Root(Levels(sha, LeafHashes(sha, [a]))) == sha(sha(a))
  {
  }

  /** A tree of two leaves digests the smaller leaf hash before the greater, whatever the order of the leaves. */
  lemma TwoLeafRoot(sha: Digest, a: Bytes, b: Bytes, k: nat)
    requires SmallerAt(sha(sha(a)), sha(sha(b)), k)
    ensures Root(Levels(sha, LeafHashes(sha, [a, b]))) == sha(sha(sha(a)) + sha(sha(b)))
    ensures Root(Levels(sha, LeafHashes(sha, [b, a]))) == sha(sha(sha(a)) + sha(sha(b)))
  {
    PairHashesSmallerFirst(sha, sha(sha(a)), sha(sha(b)), k);
    TwoNodes(sha, LeafHashes(sha, [a, b]));
    TwoNodes(sha, LeafHashes(sha, [b, a]));
  }

  lemma TwoNodes(sha: Digest, level: Level)
    requires |level| == 2
    ensures Root(Levels(sha, level)) == HashPair(sha, level[0], level[1])
  {
    var up := Parents(sha, level);
    assert |up| == 1 && up[0] == HashPair(sha, level[0], level[1]);
    assert Levels(sha, level) == [level, up];
  }

  /** An odd last node is digested with itself; every other one with its neighbour, the smaller hash first. */
  lemma ParentIs(sha: Digest, level: Level, i: nat, k: nat)
    requires 2 * i < |level|
    ensures |Parents(sha, level)| == (|level| + 1) / 2
    ensures var left: Bytes := level[2 * i];
            2 * i + 1 == |level| ==> Parents(sha, level)[i] == sha(left + left)
    ensures 2 * i + 1 < |level| ==>
              var left: Bytes, right: Bytes := level[2 * i], level[2 * i + 1];
              && (SmallerAt(left, right, k) ==> Parents(sha, level)[i] == sha(left + right))
              && (SmallerAt(right, left, k) ==> Parents(sha, level)[i] == sha(right + left))
              && (left == right ==> Parents(sha, level)[i] == sha(left + left))
  {
    if 2 * i + 1 < |level| {
      if SmallerAt(level[2 * i], level[2 * i + 1], k) {
        PairHashesSmallerFirst(sha, level[2 * i], level[2 * i + 1], k);
      }
      if SmallerAt(level[2 * i + 1], level[2 * i], k) {
        PairHashesSmallerFirst(sha, level[2 * i + 1], level[2 * i], k);
      }
    }
  }

  /** The built object's root for one and for two leaves. */
  lemma BuiltRoot(tree: MerkleTree, a: Bytes, b: Bytes, k: nat)
    requires tree.Valid() && tree.nodes != []
    ensures tree.dataLeaves == [a] ==> tree.root == tree.sha(tree.sha(a))
    ensures SmallerAt(tree.sha(tree.sha(a)), tree.sha(tree.sha(b)), k)
            && (tree.dataLeaves == [a, b] || tree.dataLeaves == [b, a]) ==>
              tree.root == tree.sha(tree.sha(tree.sha(a)) + tree.sha(tree.sha(b)))
  {
    if tree.dataLeaves == [a] {
      OneLeafRoot(tree.sha, a);
    } else if SmallerAt(tree.sha(tree.sha(a)), tree.sha(tree.sha(b)), k) {
      TwoLeafRoot(tree.sha, a, b, k);
    }
  }

  /** A proof node flagged left puts the running hash to the left of its own, any other to the right. */
  lemma ClimbInBytes(sha: Digest, current: Hash, hash: Hash, rest: seq<ProofNode>)
    ensures Climb(sha, current, []) == current
    ensures Climb(sha, current, [ProofNode(hash, true)] + rest) == Climb(sha, sha(current + hash), rest)
    ensures Climb(sha, current, [ProofNode(hash, false)] + rest) == Climb(sha, sha(hash + current), rest)
  {
    assert ([ProofNode(hash, true)] + rest)[1..] == rest;
    assert ([ProofNode(hash, false)] + rest)[1..] == rest;
  }

  /** Verification starts from the proof's leaf hash, or from the payload's double digest if that hash is all zeros. */
  lemma StartInBytes(sha: Digest, p: MerkleProof)
    ensures (forall k :: 0 <= k < 32 ==> p.leafHash[k] == 0) ==> StartHash(sha, p) == sha(sha(p.leaf))
    ensures (exists k :: 0 <= k < 32 && p.leafHash[k] != 0) ==> StartHash(sha, p) == p.leafHash
    ensures p.proof == [] ==> (Accepts(sha, p, p.root) <==> p.root == StartHash(sha, p))
  {
    if forall k :: 0 <= k < 32 ==> p.leafHash[k] == 0 {
      assert p.leafHash == ZERO_HASH;
    }
  }

  /** One level holds one leaf, each further level twice as many, up to the word size. */
  lemma CapacityIs(levels: nat)
    ensures Capacity(0) == 1
    ensures levels < 63 ==> Capacity(levels + 1) == 2 * Capacity(levels)
    ensures levels >= 64 ==> Capacity(levels) == 0xFFFF_FFFF_FFFF_FFFF
  {
  }

  // ---- Completeness -------------------------------------------------------

  /** One verification step over an honest sibling computes the parent. */
  lemma HonestStep(sha: Digest, level: Level, i: nat)
    requires i < |level|
    ensures HashOf(sha, StepInput(level[i], NodeAt(level, i))) == Parents(sha, level)[i / 2]
  {
    var sib := Sibling(level, i);
    LexTotal(level[i], sib);
    SortedSymmetric(level[i], sib);
    assert StepInput(level[i], NodeAt(level, i)) == Sorted(level[i], sib);
    if i % 2 == 0 {
      assert sib == RightOf(level, i) && i == 2 * (i / 2);
    } else {
      assert i - 1 == 2 * (i / 2);
    }
  }

  /** From every node of every level the honest path climbs to the root. */
  lemma {:induction false} HonestClimb(sha: Digest, levels: seq<Level>, i: nat)
    requires IsTree(sha, levels) && i < |levels[0]|
    ensures Climb(sha, levels[0][i], Path(sha, levels, i)) == Root(levels)
    decreases |levels|
  {
    if |levels| > 1 {
      UpperTree(sha, levels);
      HonestStep(sha, levels[0], i);
      HonestClimb(sha, levels[1..], i / 2);
      assert Path(sha, levels, i)[1..] == Path(sha, levels[1..], i / 2);
    }
  }

  /** Every generated proof is accepted, the all-zero leaf hash included. */
  lemma Completeness(sha: Digest, leaves: seq<Bytes>, i: nat)
    requires i < |leaves|
    ensures var p := ProofOf(sha, leaves, i);
            Accepts(sha, p, p.root) && p.root == Root(Levels(sha, LeafHashes(sha, leaves)))
  {
    HonestClimb(sha, Levels(sha, LeafHashes(sha, leaves)), i);
  }

  /** A built tree proves each of its leaves to both verifiers, with a path no longer than the configured levels. */
  lemma BuiltTreeProvesItsLeaves(tree: MerkleTree, i: nat)
    requires tree.Valid() && tree.nodes != []
    ensures tree.Depth() <= tree.levels
    ensures tree.ProofResult(i).Ok? <==> i < tree.leafCount
    ensures i < tree.leafCount ==>
              var p := tree.ProofResult(i).value;
              && p.leaf == tree.dataLeaves[i] && p.root == tree.root && |p.proof| == tree.Depth()
              && Accepts(tree.sha, p, p.root) && Accepts(tree.sha, p, tree.root)
  {
    CapacityBoundsDepth(tree.sha, tree.nodes, tree.levels);
    if i < tree.leafCount {
      Completeness(tree.sha, tree.dataLeaves, i);
    }
  }

  // ---- Soundness ----------------------------------------------------------

  function IndexIn(level: Level, h: Hash): (i: nat)
    requires h in level
    ensures i < |level| && level[i] == h
  {
    if level[0] == h then 0 else 1 + IndexIn(level[1..], h)
  }

  /** The inputs that `hash_pair` combined into node `j` of the level above `level`. */
  function NodeInput(level: Level, j: nat): Pair
    requires j < (|level| + 1) / 2
  {
    Sorted(level[2 * j], RightOf(level, 2 * j))
  }

  /** Two hash inputs read off a proof and a tree: the first step of the proof whose
      output lies in the tree, against the node it lands on. */
  function Extract(sha: Digest, levels: seq<Level>, start: Hash, proof: seq<ProofNode>): (Pair, Pair)
    requires IsTree(sha, levels) && |proof| == |levels| - 1
    decreases |levels|
  {
    if proof == [] then (Pair(start, start), Pair(start, start))
    else
      var input := StepInput(start, proof[0]);
      var up := HashOf(sha, input);
      UpperTree(sha, levels);
      if up in levels[1] then (input, NodeInput(levels[0], IndexIn(levels[1], up)))
      else Extract(sha, levels[1..], up, proof[1..])
  }

  /** An accepted climb of full length starts in the bottom level, or the extracted inputs collide. */
  lemma {:induction false} Soundness(sha: Digest, levels: seq<Level>, start: Hash, proof: seq<ProofNode>)
    requires IsTree(sha, levels) && |proof| == |levels| - 1
    requires Climb(sha, start, proof) == Root(levels)
    ensures start in levels[0] || IsCollision(sha, Extract(sha, levels, start, proof))
    decreases |levels|
  {
    if proof != [] {
      UpperTree(sha, levels);
      var input := StepInput(start, proof[0]);
      var up := HashOf(sha, input);
      if up in levels[1] {
        var j := IndexIn(levels[1], up);
        assert HashOf(sha, NodeInput(levels[0], j)) == up;
        assert NodeInput(levels[0], j).left in levels[0] && NodeInput(levels[0], j).right in levels[0];
      } else {
        Soundness(sha, levels[1..], up, proof[1..]);
      }
    }
  }

  /** The verifiers' statement: an accepted proof of the tree's depth names a leaf of the tree. */
  lemma AcceptedProofNamesALeaf(sha: Digest, leaves: seq<Bytes>, p: MerkleProof)
    requires leaves != []
    requires var levels := Levels(sha, LeafHashes(sha, leaves));
             |p.proof| == |levels| - 1 && Accepts(sha, p, Root(levels))
    ensures var levels := Levels(sha, LeafHashes(sha, leaves));
            || (exists i :: 0 <= i < |leaves| && StartHash(sha, p) == HashLeaf(sha, leaves[i]))
            || IsCollision(sha, Extract(sha, levels, StartHash(sha, p), p.proof))
  {
    var levels := Levels(sha, LeafHashes(sha, leaves));
    Soundness(sha, levels, StartHash(sha, p), p.proof);
    if StartHash(sha, p) in levels[0] {
      var i := IndexIn(levels[0], StartHash(sha, p));
      assert StartHash(sha, p) == HashLeaf(sha, leaves[i]);
    }
  }

  /** The length condition is needed: an inner node is accepted from its own, shorter path. */
  lemma InnerNodesClimbToo(sha: Digest, levels: seq<Level>, l: nat, i: nat)
    requires IsTree(sha, levels) && l < |levels| && i < |levels[l]|
    ensures IsTree(sha, levels[l..]) && |Path(sha, levels[l..], i)| == |levels| - 1 - l
    ensures Climb(sha, levels[l][i], Path(sha, levels[l..], i)) == Root(levels)
  {
    SuffixIsTree(sha, levels, l);
    HonestClimb(sha, levels[l..], i);
  }

  lemma {:induction false} SuffixIsTree(sha: Digest, levels: seq<Level>, l: nat)
    requires IsTree(sha, levels) && l < |levels|
    ensures IsTree(sha, levels[l..]) && Root(levels[l..]) == Root(levels)
    decreases l
  {
    if l == 0 {
      assert levels[0..] == levels;
    } else {
      SuffixIsTree(sha, levels, l - 1);
      UpperTree(sha, levels[l - 1..]);
      assert levels[l - 1..][1..] == levels[l..];
    }
  }

  // ---- Payloads -----------------------------------------------------------

  /** Two distinct byte strings with one digest. */
  predicate IsByteCollision(sha: Digest, c: (Bytes, Bytes)) {
    c.0 != c.1 && sha(c.0) == sha(c.1)
  }

  function PairBytes(p: Pair): (bs: Bytes)
    ensures |bs| == 64
  {
    p.left + p.right
  }

  lemma PairBytesInjective(p: Pair, q: Pair)
    requires PairBytes(p) == PairBytes(q)
    ensures p == q
  {
    assert PairBytes(p)[..32] == p.left && PairBytes(q)[..32] == q.left;
    assert PairBytes(p)[32..] == p.right && PairBytes(q)[32..] == q.right;
  }

  lemma {:induction false} ClimbLast(sha: Digest, start: Hash, proof: seq<ProofNode>)
    requires proof != []
    ensures var m := |proof| - 1;
            Climb(sha, start, proof) == HashOf(sha, StepInput(Climb(sha, start, proof[..m]), proof[m]))
    decreases |proof|
  {
    var m := |proof| - 1;
    if m > 0 {
      var next := HashOf(sha, StepInput(start, proof[0]));
      ClimbLast(sha, next, proof[1..]);
      assert proof[1..][..m - 1] == proof[..m][1..];
    }
  }

  lemma LevelAbove(sha: Digest, levels: seq<Level>, l: nat)
    requires IsTree(sha, levels) && 0 < l < |levels|
    ensures levels[l] == Parents(sha, levels[l - 1])
  {
    SuffixIsTree(sha, levels, l - 1);
    UpperTree(sha, levels[l - 1..]);
  }

  /** From node `j` of level `l` down a proof: the first two inputs that differ, or the payloads. */
  function ExtractBytes(sha: Digest, leaves: seq<Bytes>, levels: seq<Level>, l: nat, j: nat, leaf: Bytes,
                        proof: seq<ProofNode>): (Bytes, Bytes)
    requires leaves != [] && levels == Levels(sha, LeafHashes(sha, leaves)) && l < |levels| && j < |levels[l]|
    decreases |proof|
  {
    var m := |proof|;
    if m == 0 then
      if l == 0 then
        if sha(leaf) == sha(leaves[j]) then (leaf, leaves[j]) else (sha(leaf), sha(leaves[j]))
      else
        LevelAbove(sha, levels, l);
        (sha(leaf), PairBytes(NodeInput(levels[l - 1], j)))
    else
      var current := Climb(sha, HashLeaf(sha, leaf), proof[..m - 1]);
      var input := StepInput(current, proof[m - 1]);
      if l == 0 then (PairBytes(input), sha(leaves[j]))
      else
        LevelAbove(sha, levels, l);
        var node := NodeInput(levels[l - 1], j);
        if input == node && current in levels[l - 1] then
          ExtractBytes(sha, leaves, levels, l - 1, IndexIn(levels[l - 1], current), leaf, proof[..m - 1])
        else (PairBytes(input), PairBytes(node))
  }

  /** A payload that climbs to a leaf is that leaf's payload, or its digests collide with the last input. */
  lemma ClimbsToLeaf(sha: Digest, leaves: seq<Bytes>, levels: seq<Level>, j: nat, leaf: Bytes, proof: seq<ProofNode>)
    requires leaves != [] && levels == Levels(sha, LeafHashes(sha, leaves)) && j < |levels[0]|
    requires Climb(sha, HashLeaf(sha, leaf), proof) == levels[0][j]
    ensures leaf in leaves || IsByteCollision(sha, ExtractBytes(sha, leaves, levels, 0, j, leaf, proof))
  {
    hide Levels, Climb;
    assert levels[0][j] == HashLeaf(sha, leaves[j]);
    if proof != [] {
      ClimbLast(sha, HashLeaf(sha, leaf), proof);
    } else {
      ClimbNone(sha, HashLeaf(sha, leaf));
    }
  }

  lemma ClimbNone(sha: Digest, start: Hash)
    ensures Climb(sha, start, []) == start
  {
  }

  /** The inputs of a node above the leaves and of the last step that reaches it. */
  lemma NodeInputs(sha: Digest, levels: seq<Level>, l: nat, j: nat)
    requires IsTree(sha, levels) && 0 < l < |levels| && j < |levels[l]|
    ensures j < (|levels[l - 1]| + 1) / 2
    ensures var node := NodeInput(levels[l - 1], j);
            sha(PairBytes(node)) == levels[l][j] && node.left in levels[l - 1] && node.right in levels[l - 1]
  {
    LevelAbove(sha, levels, l);
  }

  /** A payload that climbs to a node of the tree, by a proof of any length, is a payload of the tree. */
  lemma {:induction false} PayloadClimbs(sha: Digest, leaves: seq<Bytes>, levels: seq<Level>, l: nat, j: nat,
                                         leaf: Bytes, proof: seq<ProofNode>)
    requires leaves != [] && levels == Levels(sha, LeafHashes(sha, leaves)) && l < |levels| && j < |levels[l]|
    requires Climb(sha, HashLeaf(sha, leaf), proof) == levels[l][j]
    ensures leaf in leaves || IsByteCollision(sha, ExtractBytes(sha, leaves, levels, l, j, leaf, proof))
    decreases |proof|
  {
    hide Levels, Climb, NodeInput;
    if l == 0 {
      ClimbsToLeaf(sha, leaves, levels, j, leaf, proof);
    } else {
      NodeInputs(sha, levels, l, j);
      var m, node := |proof|, NodeInput(levels[l - 1], j);
      if m == 0 {
        ClimbNone(sha, HashLeaf(sha, leaf));
      } else {
        ClimbLast(sha, HashLeaf(sha, leaf), proof);
        var current := Climb(sha, HashLeaf(sha, leaf), proof[..m - 1]);
        var input := StepInput(current, proof[m - 1]);
        if input == node {
          PayloadClimbs(sha, leaves, levels, l - 1, IndexIn(levels[l - 1], current), leaf, proof[..m - 1]);
        } else if PairBytes(input) == PairBytes(node) {
          PairBytesInjective(input, node);
        }
      }
    }
  }

  /** An accepted proof of any length binds its payload exactly when its leaf hash is all zeros: then the payload
      is one of the tree's, or two byte strings with equal digests are found; else any payload at all is accepted. */
  lemma PayloadBinding(sha: Digest, leaves: seq<Bytes>, p: MerkleProof)
    requires leaves != [] && Accepts(sha, p, Root(Levels(sha, LeafHashes(sha, leaves))))
    ensures var levels := Levels(sha, LeafHashes(sha, leaves));
            if p.leafHash == ZERO_HASH then
              p.leaf in leaves
              || IsByteCollision(sha, ExtractBytes(sha, leaves, levels, |levels| - 1, 0, p.leaf, p.proof))
            else
              forall other: Bytes :: Accepts(sha, p.(leaf := other), Root(levels))
  {
    var levels := Levels(sha, LeafHashes(sha, leaves));
    if p.leafHash == ZERO_HASH {
      PayloadClimbs(sha, leaves, levels, |levels| - 1, 0, p.leaf, p.proof);
    }
  }

  // ---- Commitment ---------------------------------------------------------

  /** A leaf hash of one tree is a leaf hash of the other tree of the same depth and root,
      or the first tree's own proof of it collides inside the second. */
  lemma LeafIsShared(sha: Digest, a: seq<Level>, b: seq<Level>, i: nat)
    requires IsTree(sha, a) && IsTree(sha, b) && |a| == |b| && Root(a) == Root(b) && i < |a[0]|
    ensures a[0][i] in b[0] || IsCollision(sha, Extract(sha, b, a[0][i], Path(sha, a, i)))
  {
    HonestClimb(sha, a, i);
    Soundness(sha, b, a[0][i], Path(sha, a, i));
  }

  function HashSet(level: Level): set<Hash> {
    set h | h in level
  }

  /** No honest path of either tree collides inside the other. */
  ghost predicate NoCrossCollision(sha: Digest, a: seq<Level>, b: seq<Level>)
    requires IsTree(sha, a) && IsTree(sha, b) && |a| == |b|
  {
    && (forall i: nat :: i < |a[0]| ==> !IsCollision(sha, Extract(sha, b, a[0][i], Path(sha, a, i))))
    && (forall i: nat :: i < |b[0]| ==> !IsCollision(sha, Extract(sha, a, b[0][i], Path(sha, b, i))))
  }

  /** Depth and root determine the set of leaf hashes, whatever the leaf counts,
      unless one of the trees' own paths exhibits a collision. */
  lemma RootCommitsToLeafSet(sha: Digest, a: seq<Level>, b: seq<Level>)
    requires IsTree(sha, a) && IsTree(sha, b) && |a| == |b| && Root(a) == Root(b)
    ensures HashSet(a[0]) == HashSet(b[0]) || !NoCrossCollision(sha, a, b)
  {
    if NoCrossCollision(sha, a, b) {
      forall h | h in a[0] ensures h in b[0] {
        LeafIsShared(sha, a, b, IndexIn(a[0], h));
      }
      forall h | h in b[0] ensures h in a[0] {
        LeafIsShared(sha, b, a, IndexIn(b[0], h));
      }
    }
  }

  // ---- Shape --------------------------------------------------------------

  function CeilDiv(n: nat, d: nat): nat
    requires d > 0
  {
    (n + d - 1) / d
  }

  lemma CeilDivHalf(n: nat, d: nat)
    requires d > 0
    ensures CeilDiv((n + 1) / 2, d) == CeilDiv(n, 2 * d)
  {
    var q := CeilDiv(n, 2 * d);
    CeilDivBounds(n, 2 * d);
    CeilDivUnique((n + 1) / 2, d, q);
  }

  lemma CeilDivBounds(n: nat, d: nat)
    requires d > 0
    ensures n <= CeilDiv(n, d) * d < n + d
  {
    var m := n + d - 1;
    assert m == (m / d) * d + m % d;
  }

  lemma CeilDivUnique(n: nat, d: nat, q: nat)
    requires d > 0 && n <= q * d < n + d
    ensures CeilDiv(n, d) == q
  {
    var c := CeilDiv(n, d);
    CeilDivBounds(n, d);
    if c < q {
      MulMonotone(c + 1, q, d);
    } else if q < c {
      MulMonotone(q + 1, c, d);
    }
  }

  /** Level l has ceil(n / 2^l) nodes. */
  lemma {:induction false} LevelSize(sha: Digest, levels: seq<Level>, l: nat)
    requires IsTree(sha, levels) && l < |levels|
    ensures |levels[l]| == CeilDiv(|levels[0]|, Pow2(l))
    decreases l
  {
    var n := |levels[0]|;
    if l == 0 {
      assert CeilDiv(n, 1) == n;
    } else {
      UpperTree(sha, levels);
      LevelSize(sha, levels[1..], l - 1);
      assert levels[1..][l - 1] == levels[l];
      CeilDivHalf(n, Pow2(l - 1));
    }
  }

  /** The depth is the least d with 2^d at least the leaf count. */
  lemma {:induction false} DepthIsLeast(sha: Digest, levels: seq<Level>)
    requires IsTree(sha, levels)
    ensures |levels[0]| <= Pow2(|levels| - 1)
    ensures |levels| > 1 ==> Pow2(|levels| - 2) < |levels[0]|
    decreases |levels|
  {
    if |levels| > 1 {
      UpperTree(sha, levels);
      DepthIsLeast(sha, levels[1..]);
    }
  }

  /** The capacity check keeps the depth within the configured number of levels. */
  lemma CapacityBoundsDepth(sha: Digest, levels: seq<Level>, configured: nat)
    requires IsTree(sha, levels) && |levels[0]| <= Capacity(configured)
    ensures |levels| - 1 <= configured
  {
    DepthIsLeast(sha, levels);
    if |levels| - 1 > configured {
      TwoTo64();
      Pow2Monotone(if configured >= 64 then 64 else configured, |levels| - 2);
    }
  }

  lemma TwoTo64()
    ensures Pow2(64) == U64
  {
    assert Pow2(2) == 4;
    Pow2Add(2, 2);
    assert Pow2(4) == 16;
    hide Pow2;
    Pow2Add(4, 4);
    Pow2Add(8, 8);
    Pow2Add(16, 16);
    Pow2Add(32, 32);
  }

}
