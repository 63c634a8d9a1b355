/**
 The key transparency tree (native-crypto/src/key_transparency.rs): leaves pushed in order, the root
 and the inclusion proofs computed level by level, proofs verified by replaying the level sizes.
*/
module KeyTransparency {
  import opened MerkleTree
  import opened MerkleHash

  datatype Error = IndexOutOfBounds | InsufficientSiblings

  datatype Result<T> = Ok(value: T) | Err(error: Error)

  datatype InclusionProof = InclusionProof(index: nat, treeSize: nat, siblings: seq<Digest>)

  const ZERO_DIGEST: Digest :=
    [0, 0, 0, 0, 0, 0, 0, 0, 0, 0, 0, 0, 0, 0, 0, 0, 0, 0, 0, 0, 0, 0, 0, 0, 0, 0, 0, 0, 0, 0, 0, 0]

  // ----- what the methods compute -----

  /** The root of the tree; 32 zero bytes when it is empty. */
  ghost function RootOf(hash: Hash, entries: seq<Bytes>): Digest {
    if entries == [] then ZERO_DIGEST else MerkleRoot(hash, entries)
  }

  /** The proof of section 2.1.1 of RFC 6962 for entry m. */
  ghost function ProofOf(hash: Hash, entries: seq<Bytes>, m: nat): InclusionProof
    requires m < |entries|
  {
    InclusionProof(m, |entries|, Path(JoinOf(hash), m, LeafHashes(hash, entries), 0, |entries|))
  }

  /** What verification answers for a proof against a root. */
  function Verdict(hash: Hash, root: Digest, entry: Bytes, proof: InclusionProof): Result<bool>
    requires proof.treeSize <= USIZE_MAX
  {
    if proof.index >= proof.treeSize then Ok(false) else
    match Replay(hash, HashLeaf(hash, entry), proof.index, proof.treeSize, proof.siblings)
    case OutOfSiblings => Err(InsufficientSiblings)
    case Root(digest) => Ok(digest == root)
  }

  // ----- what they are worth -----

  /** The generated proof is accepted for its entry. */
  lemma ProofComplete(hash: Hash, entries: seq<Bytes>, m: nat)
    requires m < |entries| < USIZE_MAX
    ensures Verdict(hash, RootOf(hash, entries), entries[m], ProofOf(hash, entries, m)) == Ok(true)
  {
    var hs := LeafHashes(hash, entries);
    ReplayFolds(hash, hs[m], m, |entries|, ProofOf(hash, entries, m).siblings);
    ReplaySidesAreSides(m, |entries|);
    PathFolds(JoinOf(hash), m, hs, 0, |entries|);
    MthIsTree(hash, entries, 0, |entries|);
  }

  /** A proof has at most ceil(log2 n) siblings. */
  lemma ProofShort(hash: Hash, entries: seq<Bytes>, m: nat, e: nat)
    requires m < |entries| <= Pow2(e)
    ensures |ProofOf(hash, entries, m).siblings| <= e
  {
    PathFolds(JoinOf(hash), m, LeafHashes(hash, entries), 0, |entries|);
    SidesShort(m, |entries|, e);
  }

  /**
   An accepted proof, whatever tree size it claims: the entry is some leaf of the tree, or two hashed inputs
   collide.
  */
  lemma ProofSound(hash: Hash, entries: seq<Bytes>, entry: Bytes, proof: InclusionProof)
    requires entries != [] && proof.treeSize <= USIZE_MAX
    requires Verdict(hash, RootOf(hash, entries), entry, proof) == Ok(true)
    ensures var sides := ReplaySides(proof.index, proof.treeSize);
            && |proof.siblings| >= |sides|
            && LeafOrCollision(hash, entries, 0, |entries|, entry, sides, proof.siblings)
  {
    var sides := ReplaySides(proof.index, proof.treeSize);
    ReplayFolds(hash, HashLeaf(hash, entry), proof.index, proof.treeSize, proof.siblings);
    FoldReachesLeaf(hash, entries, 0, |entries|, entry, sides, proof.siblings);
  }

  /**
   An accepted proof of the right tree size: the entry is the leaf at the proof's index, or two hashed inputs
   collide.
  */
  lemma ProofSoundAtIndex(hash: Hash, entries: seq<Bytes>, entry: Bytes, proof: InclusionProof)
    requires entries != [] && proof.treeSize == |entries| < USIZE_MAX
    requires Verdict(hash, RootOf(hash, entries), entry, proof) == Ok(true)
    ensures var sides := ReplaySides(proof.index, proof.treeSize);
            && proof.index < |entries| && |proof.siblings| >= |sides|
            && ( || entries[proof.index] == entry
                 || ProofCollides(hash, entry, sides, proof.siblings, entries, 0, |entries|))
  {
    ProofSound(hash, entries, entry, proof);
    ReplaySidesAreSides(proof.index, |entries|);
    var sides := Sides(proof.index, |entries|);
    if IsLeaf(entries, 0, |entries|, entry, sides) {
      var p: nat :| LeafAt(entries, 0, |entries|, entry, sides, p);
      SidesInjective(proof.index, p, |entries|);
    }
  }

  /**
   The verifier is bound to the sides it replays, not to the index: the path of leaf m is accepted for that
   leaf under any claimed index and size whose sides are those of m.
  */
  lemma SameSidesAccepted(hash: Hash, entries: seq<Bytes>, m: nat, index: nat, size: nat)
    requires m < |entries| < USIZE_MAX && index < size <= USIZE_MAX
    requires ReplaySides(index, size) == Sides(m, |entries|)
    ensures Verdict(hash, RootOf(hash, entries), entries[m],
                    InclusionProof(index, size, ProofOf(hash, entries, m).siblings)) == Ok(true)
  {
    var hs := LeafHashes(hash, entries);
    ReplayFolds(hash, hs[m], index, size, ProofOf(hash, entries, m).siblings);
    PathFolds(JoinOf(hash), m, hs, 0, |entries|);
    MthIsTree(hash, entries, 0, |entries|);
  }

  /** In a tree of three, the third entry is accepted under the claim that it is the second of two. */
  lemma WrongIndexAccepted(hash: Hash, entries: seq<Bytes>)
    requires |entries| == 3
    ensures Verdict(hash, RootOf(hash, entries), entries[2],
                    InclusionProof(1, 2, ProofOf(hash, entries, 2).siblings)) == Ok(true)
  {
    assert ReplaySides(0, 1) == [];
    assert ReplaySides(1, 2) == [false];
    assert Sides(0, 1) == [] && Sides(2, 3) == Sides(0, 1) + [false];
    SameSidesAccepted(hash, entries, 2, 1, 2);
  }

  /** The claimed index is a leaf of the tree, and replaying the claim takes that leaf's sides. */
  predicate ClaimFits(proof: InclusionProof, n: nat)
    requires proof.treeSize <= USIZE_MAX
  {
    proof.index < n && ReplaySides(proof.index, proof.treeSize) == Sides(proof.index, n)
  }

  /**
   Without a collision an accepted proof shows exactly one leaf, the one with the replayed sides, and that is
   the leaf at the proof's index exactly when the claim fits the tree.
  */
  lemma ShownLeaf(hash: Hash, entries: seq<Bytes>, entry: Bytes, proof: InclusionProof) returns (p: nat)
    requires entries != [] && proof.treeSize <= USIZE_MAX
    requires Verdict(hash, RootOf(hash, entries), entry, proof) == Ok(true)
    requires var sides := ReplaySides(proof.index, proof.treeSize);
             |proof.siblings| >= |sides| ==> !ProofCollides(hash, entry, sides, proof.siblings, entries, 0, |entries|)
    ensures p < |entries| && entries[p] == entry && ReplaySides(proof.index, proof.treeSize) == Sides(p, |entries|)
    ensures forall q: nat :: q < |entries| && ReplaySides(proof.index, proof.treeSize) == Sides(q, |entries|) ==> q == p
    ensures p == proof.index <==> ClaimFits(proof, |entries|)
  {
    ProofSound(hash, entries, entry, proof);
    var sides := ReplaySides(proof.index, proof.treeSize);
    p :| LeafAt(entries, 0, |entries|, entry, sides, p);
    forall q: nat | q < |entries| && sides == Sides(q, |entries|) ensures q == p {
      SidesInjective(q, p, |entries|);
    }
  }

  // ----- the loops -----

  /** The loop that builds the next level. */
  method NextLevel(hash: Hash, current: seq<Digest>) returns (next: seq<Digest>)
    ensures next == PairUp(JoinOf(hash), current)
  {
    next := [];
    var i := 0;
    while i < |current|
      invariant i == 2 * |next| && |next| <= (|current| + 1) / 2
      invariant next == PairUp(JoinOf(hash), current)[..|next|]
    {
      if i + 1 < |current| {
        next := next + [HashNode(hash, current[i], current[i + 1])];
      } else {
        next := next + [current[i]];
      }
      i := i + 2;
    }
  }

  /** A level above keeps the tree hash of the whole level. */
  lemma LevelKeepsTree(hash: Hash, current: seq<Digest>)
    requires |current| >= 1
    ensures var up := PairUp(JoinOf(hash), current);
            Tree(JoinOf(hash), up, 0, |up|) == Tree(JoinOf(hash), current, 0, |current|)
  {
    var up := PairUp(JoinOf(hash), current);
    PairUpKeepsTree(JoinOf(hash), current, up, 0, |current|, |up|);
  }

  method ComputeRoot(hash: Hash, hashes: seq<Digest>) returns (root: Digest)
    ensures root == if hashes == [] then ZERO_DIGEST else Tree(JoinOf(hash), hashes, 0, |hashes|)
  {
    if |hashes| == 0 {
      return ZERO_DIGEST;
    }
    if |hashes| == 1 {
      return hashes[0];
    }
    var current := hashes;
    while |current| > 1
      invariant |current| >= 1
      invariant Tree(JoinOf(hash), current, 0, |current|) == Tree(JoinOf(hash), hashes, 0, |hashes|)
      decreases |current|
    {
      LevelKeepsTree(hash, current);
      current := NextLevel(hash, current);
    }
    root := current[0];
  }

  /** The path through one level is the sibling found there and the path through the level above. */
  lemma LevelPath(hash: Hash, current: seq<Digest>, idx: nat)
    requires idx < |current|
    ensures var up := PairUp(JoinOf(hash), current);
            && idx / 2 < |up|
            && Path(JoinOf(hash), idx, current, 0, |current|) ==
               Sibling(idx, idx / 2, current) + Path(JoinOf(hash), idx / 2, up, 0, |up|)
  {
    var up := PairUp(JoinOf(hash), current);
    PathByLevels(JoinOf(hash), idx, idx / 2, current, up, 0, |current|, |up|);
  }

  /** One round of the generator: what is collected and what is still to come make the same path. */
  lemma PathProgress(hash: Hash, current: seq<Digest>, idx: nat, siblings: seq<Digest>, path: seq<Digest>)
    requires idx < |current| && siblings + Path(JoinOf(hash), idx, current, 0, |current|) == path
    ensures var up := PairUp(JoinOf(hash), current);
            && idx / 2 < |up|
            && (siblings + Sibling(idx, idx / 2, current)) + Path(JoinOf(hash), idx / 2, up, 0, |up|) == path
  {
    LevelPath(hash, current, idx);
  }

  /** A promoted node contributes no sibling. */
  method AppendSibling(siblings: seq<Digest>, current: seq<Digest>, idx: nat) returns (more: seq<Digest>)
    requires idx < |current|
    ensures more == siblings + Sibling(idx, idx / 2, current)
  {
    if idx % 2 == 0 && idx + 1 >= |current| {
      more := siblings;
    } else {
      var sibling := if idx % 2 == 0 then idx + 1 else idx - 1;
      more := siblings + [current[sibling]];
    }
  }

  /** The loop that collects the siblings of a leaf. */
  method CollectSiblings(hash: Hash, hashes: seq<Digest>, index: nat) returns (siblings: seq<Digest>)
    requires index < |hashes|
    ensures siblings == Path(JoinOf(hash), index, hashes, 0, |hashes|)
  {
    siblings := [];
    var current, idx: nat := hashes, index;
    while |current| > 1
      invariant idx < |current|
      invariant siblings + Path(JoinOf(hash), idx, current, 0, |current|) ==
                Path(JoinOf(hash), index, hashes, 0, |hashes|)
      decreases |current|
    {
      PathProgress(hash, current, idx, siblings, Path(JoinOf(hash), index, hashes, 0, |hashes|));
      siblings := AppendSibling(siblings, current, idx);
      current := NextLevel(hash, current);
      idx := idx / 2;
    }
    assert Path(JoinOf(hash), idx, current, 0, 1) == [];
  }

  class KeyTransparencyTree {
    const hash: Hash
    var leaves: seq<Bytes>
    var leafHashes: seq<Digest>

    /** The cached leaf hashes are those of the leaves, which fit in memory. */
    ghost predicate Valid()
      reads this
    {
      leafHashes == LeafHashes(hash, leaves) && |leaves| < USIZE_MAX
    }

    constructor (hash: Hash)
      ensures Valid() && leaves == [] && this.hash == hash
    {
      this.hash := hash;
      leaves, leafHashes := [], [];
    }

    method AddLeaf(entry: Bytes)
      requires Valid() && |leaves| + 1 < USIZE_MAX
      modifies this
      ensures Valid() && leaves == old(leaves) + [entry]
    {
      leaves := leaves + [entry];
      leafHashes := leafHashes + [HashLeaf(hash, entry)];
    }

    method RootHash() returns (root: Digest)
      requires Valid()
      ensures root == RootOf(hash, leaves)
    {
      root := ComputeRoot(hash, leafHashes);
      if leaves != [] {
        MthIsTree(hash, leaves, 0, |leaves|);
      }
    }

    method GenerateInclusionProof(index: nat) returns (r: Result<InclusionProof>)
      requires Valid()
      ensures r == if index >= |leaves| then Err(IndexOutOfBounds) else Ok(ProofOf(hash, leaves, index))
    {
      if index >= |leafHashes| {
        return Err(IndexOutOfBounds);
      }
      var siblings := CollectSiblings(hash, leafHashes, index);
      r := Ok(InclusionProof(index, |leafHashes|, siblings));
    }

    /** The index argument is ignored, as is any surplus of siblings. */
    method VerifyInclusionProof(index: nat, entry: Bytes, proof: InclusionProof) returns (r: Result<bool>)
      requires Valid() && proof.treeSize <= USIZE_MAX
      ensures r == Verdict(hash, RootOf(hash, leaves), entry, proof)
    {
      if proof.index >= proof.treeSize {
        return Ok(false);
      }
      var digest: Digest := HashLeaf(hash, entry);
      var idx: nat, levelSize: nat, used := proof.index, proof.treeSize, 0;
      while levelSize > 1
        invariant levelSize <= USIZE_MAX && used <= |proof.siblings|
        invariant Replay(hash, digest, idx, levelSize, proof.siblings[used..]) ==
                  Replay(hash, HashLeaf(hash, entry), proof.index, proof.treeSize, proof.siblings)
        decreases levelSize
      {
        if !(idx % 2 == 0 && idx + 1 >= levelSize) {
          if used == |proof.siblings| {
            return Err(InsufficientSiblings);
          }
          var sibling := proof.siblings[used];
          used := used + 1;
          digest := if idx % 2 == 0 then HashNode(hash, digest, sibling) else HashNode(hash, sibling, digest);
        }
        idx := idx / 2;
        levelSize := NextSize(levelSize);
      }
      var root := RootHash();
      r := Ok(digest == root);
    }
  }
}
