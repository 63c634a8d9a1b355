/**
 The Merkle tree of RFC 6962 over byte strings, the verifier's replay of an inclusion proof, and what
 an accepted proof or a root is worth.

 The hash is a parameter and nothing is assumed of it. Where security rests on collisions being hard to
 find, the theorem says between which inputs, among those that were actually hashed, the collision is.
*/
module MerkleHash {
  import opened MerkleTree

  type Bytes = seq<bv8>
  type Digest = d: Bytes | |d| == 32 witness seq(32, i => 0)
  type Hash = Bytes -> Digest

  const USIZE_MAX: nat := 0xFFFF_FFFF_FFFF_FFFF

  // ----- hashing -----

  function LeafInput(data: Bytes): Bytes {
    [0] + data
  }

  function NodeInput(left: Digest, right: Digest): Bytes {
    [1] + left + right
  }

  function HashLeaf(hash: Hash, data: Bytes): Digest {
    hash(LeafInput(data))
  }

  function HashNode(hash: Hash, left: Digest, right: Digest): Digest {
    hash(NodeInput(left, right))
  }

  function JoinOf(hash: Hash): Join<Digest> {
    (left: Digest, right: Digest) => HashNode(hash, left, right)
  }

  /** The prefix byte keeps leaves and inner nodes apart. */
  lemma InputsApart(data: Bytes, left: Digest, right: Digest)
    ensures LeafInput(data) != NodeInput(left, right)
  {
    assert LeafInput(data)[0] != NodeInput(left, right)[0];
  }

  lemma LeafInputInjective(a: Bytes, b: Bytes)
    requires LeafInput(a) == LeafInput(b)
    ensures a == b
  {
    assert a == LeafInput(a)[1..] && b == LeafInput(b)[1..];
  }

  lemma NodeInputInjective(l1: Digest, r1: Digest, l2: Digest, r2: Digest)
    requires NodeInput(l1, r1) == NodeInput(l2, r2)
    ensures l1 == l2 && r1 == r2
  {
    assert l1 == NodeInput(l1, r1)[1..33] && l2 == NodeInput(l2, r2)[1..33];
    assert r1 == NodeInput(l1, r1)[33..] && r2 == NodeInput(l2, r2)[33..];
  }

  // ----- section 2.1 of RFC 6962 -----

  /** MTH(D[lo:hi]). */
  ghost function Mth(hash: Hash, entries: seq<Bytes>, lo: nat, hi: nat): Digest
    requires lo < hi <= |entries|
    decreases hi - lo
  {
    if hi == lo + 1 then HashLeaf(hash, entries[lo]) else
    var mid := lo + SplitPoint(hi - lo);
    HashNode(hash, Mth(hash, entries, lo, mid), Mth(hash, entries, mid, hi))
  }

  ghost function MerkleRoot(hash: Hash, entries: seq<Bytes>): Digest
    requires |entries| >= 1
  {
    Mth(hash, entries, 0, |entries|)
  }

  function LeafHashes(hash: Hash, entries: seq<Bytes>): (hs: seq<Digest>)
    ensures |hs| == |entries|
    ensures forall i :: 0 <= i < |hs| ==> hs[i] == HashLeaf(hash, entries[i])
  {
    seq(|entries|, i requires 0 <= i < |entries| => HashLeaf(hash, entries[i]))
  }

  lemma {:induction false} MthIsTree(hash: Hash, entries: seq<Bytes>, lo: nat, hi: nat)
    requires lo < hi <= |entries|
    ensures Mth(hash, entries, lo, hi) == Tree(JoinOf(hash), LeafHashes(hash, entries), lo, hi)
    decreases hi - lo
  {
    if hi > lo + 1 {
      var mid := lo + SplitPoint(hi - lo);
      MthIsTree(hash, entries, lo, mid);
      MthIsTree(hash, entries, mid, hi);
      TreeSplits(JoinOf(hash), LeafHashes(hash, entries), lo, hi, mid);
    }
  }

  // ----- the verifier -----

  /** Size of the level above, with the 64-bit sum of the code. */
  function NextSize(size: nat): nat {
    if size == USIZE_MAX then 0 else (size + 1) / 2
  }

  /** The replay of level sizes; None when the proof runs out of siblings. Surplus siblings are ignored. */
  datatype Replayed = OutOfSiblings | Root(digest: Digest)

  function Replay(hash: Hash, h: Digest, idx: nat, size: nat, siblings: seq<Digest>): Replayed
    requires size <= USIZE_MAX
    decreases size
  {
    if size <= 1 then Root(h)
    else if idx % 2 == 0 && idx + 1 >= size then Replay(hash, h, idx / 2, NextSize(size), siblings)
    else if siblings == [] then OutOfSiblings
    else
      var up := if idx % 2 == 0 then HashNode(hash, h, siblings[0]) else HashNode(hash, siblings[0], h);
      Replay(hash, up, idx / 2, NextSize(size), siblings[1..])
  }

  /** The sides the verifier takes its siblings on. */
  function ReplaySides(idx: nat, size: nat): seq<bool>
    requires size <= USIZE_MAX
    decreases size
  {
    if size <= 1 then [] else Side(idx, idx / 2, size) + ReplaySides(idx / 2, NextSize(size))
  }

  /** The replay is a fold along those sides. */
  lemma {:induction false} ReplayFolds(hash: Hash, h: Digest, idx: nat, size: nat, siblings: seq<Digest>)
    requires size <= USIZE_MAX
    ensures Replay(hash, h, idx, size, siblings) ==
            if |siblings| < |ReplaySides(idx, size)| then OutOfSiblings
            else Root(FoldUp(JoinOf(hash), h, ReplaySides(idx, size), siblings))
    decreases size
  {
    if size > 1 {
      var rest := ReplaySides(idx / 2, NextSize(size));
      if idx % 2 == 0 && idx + 1 >= size {
        assert ReplaySides(idx, size) == rest;
        ReplayFolds(hash, h, idx / 2, NextSize(size), siblings);
      } else if siblings != [] {
        var left := idx % 2 == 0;
        var up := if left then HashNode(hash, h, siblings[0]) else HashNode(hash, siblings[0], h);
        assert ReplaySides(idx, size) == [left] + rest;
        ReplayFolds(hash, up, idx / 2, NextSize(size), siblings[1..]);
        if |siblings| >= 1 + |rest| {
          FoldUpBottom(JoinOf(hash), h, left, rest, siblings);
        }
      }
    }
  }

  /** For an index in range the replay takes the sides of section 2.1.1. */
  lemma {:induction false} ReplaySidesAreSides(m: nat, n: nat)
    requires m < n < USIZE_MAX
    ensures ReplaySides(m, n) == Sides(m, n)
    decreases n
  {
    if n > 1 {
      ReplaySidesAreSides(m / 2, (n + 1) / 2);
      SidesByLevels(m, n, m / 2, (n + 1) / 2);
    }
  }

  // ----- what an accepted proof is worth -----

  predicate Collision(hash: Hash, x: Bytes, y: Bytes) {
    x != y && hash(x) == hash(y)
  }

  /** x is hashed to compute the root of entries lo..hi. */
  ghost predicate HashedInTree(hash: Hash, entries: seq<Bytes>, lo: nat, hi: nat, x: Bytes)
    requires lo < hi <= |entries|
    decreases hi - lo
  {
    if hi == lo + 1 then x == LeafInput(entries[lo]) else
    var mid := lo + SplitPoint(hi - lo);
    || HashedInTree(hash, entries, lo, mid, x)
    || HashedInTree(hash, entries, mid, hi, x)
    || x == NodeInput(Mth(hash, entries, lo, mid), Mth(hash, entries, mid, hi))
  }

  /** x is hashed to replay a proof for the entry. */
  ghost predicate HashedInProof(hash: Hash, entry: Bytes, sides: seq<bool>, siblings: seq<Digest>, x: Bytes)
    requires |siblings| >= |sides|
    decreases |sides|
  {
    if sides == [] then x == LeafInput(entry) else
    var i := |sides| - 1;
    var below := FoldUp(JoinOf(hash), HashLeaf(hash, entry), sides[..i], siblings);
    || HashedInProof(hash, entry, sides[..i], siblings, x)
    || x == if sides[i] then NodeInput(below, siblings[i]) else NodeInput(siblings[i], below)
  }

  /** Two different inputs with one hash, one hashed by the replay and one by the tree. */
  ghost predicate ProofCollides(hash: Hash, entry: Bytes, sides: seq<bool>, siblings: seq<Digest>,
                                entries: seq<Bytes>, lo: nat, hi: nat)
    requires |siblings| >= |sides| && lo < hi <= |entries|
  {
    exists x, y ::
      && HashedInProof(hash, entry, sides, siblings, x)
      && HashedInTree(hash, entries, lo, hi, y)
      && Collision(hash, x, y)
  }

  /** Two different inputs with one hash, each hashed by one of two trees. */
  ghost predicate TreesCollide(hash: Hash, a: seq<Bytes>, lo: nat, hi: nat, b: seq<Bytes>, from: nat, to: nat)
    requires lo < hi <= |a| && from < to <= |b|
  {
    exists x, y ::
      && HashedInTree(hash, a, lo, hi, x)
      && HashedInTree(hash, b, from, to, y)
      && Collision(hash, x, y)
  }

  /** The last thing hashed by a replay and by a tree, whose hashes are the two roots. */
  ghost function ProofTop(hash: Hash, entry: Bytes, sides: seq<bool>, siblings: seq<Digest>): (top: Bytes)
    requires |siblings| >= |sides|
    ensures HashedInProof(hash, entry, sides, siblings, top)
    ensures hash(top) == FoldUp(JoinOf(hash), HashLeaf(hash, entry), sides, siblings)
  {
    if sides == [] then LeafInput(entry) else
    var i := |sides| - 1;
    var below := FoldUp(JoinOf(hash), HashLeaf(hash, entry), sides[..i], siblings);
    if sides[i] then NodeInput(below, siblings[i]) else NodeInput(siblings[i], below)
  }

  ghost function TreeTop(hash: Hash, entries: seq<Bytes>, lo: nat, hi: nat): (top: Bytes)
    requires lo < hi <= |entries|
    ensures HashedInTree(hash, entries, lo, hi, top) && hash(top) == Mth(hash, entries, lo, hi)
  {
    if hi == lo + 1 then LeafInput(entries[lo]) else
    var mid := lo + SplitPoint(hi - lo);
    NodeInput(Mth(hash, entries, lo, mid), Mth(hash, entries, mid, hi))
  }

  ghost predicate LeafAt(entries: seq<Bytes>, lo: nat, hi: nat, entry: Bytes, sides: seq<bool>, p: nat) {
    lo <= p < hi <= |entries| && entries[p] == entry && Sides(p - lo, hi - lo) == sides
  }

  /** The entry stands at a leaf of lo..hi whose way up takes exactly these sides. */
  ghost predicate IsLeaf(entries: seq<Bytes>, lo: nat, hi: nat, entry: Bytes, sides: seq<bool>) {
    exists p: nat :: LeafAt(entries, lo, hi, entry, sides, p)
  }

  /** Either the entry is a leaf of lo..hi on these sides, or two hashed inputs collide. */
  ghost predicate LeafOrCollision(hash: Hash, entries: seq<Bytes>, lo: nat, hi: nat, entry: Bytes, sides: seq<bool>,
                                  siblings: seq<Digest>)
    requires lo < hi <= |entries| && |siblings| >= |sides|
  {
    || IsLeaf(entries, lo, hi, entry, sides)
    || ProofCollides(hash, entry, sides, siblings, entries, lo, hi)
  }

  lemma FoldBaseReachesLeaf(hash: Hash, entries: seq<Bytes>, lo: nat, hi: nat, entry: Bytes)
    requires lo < hi <= |entries| && LeafInput(entry) == TreeTop(hash, entries, lo, hi)
    ensures IsLeaf(entries, lo, hi, entry, [])
  {
    if hi > lo + 1 {
      var mid := lo + SplitPoint(hi - lo);
      InputsApart(entry, Mth(hash, entries, lo, mid), Mth(hash, entries, mid, hi));
    } else {
      LeafInputInjective(entry, entries[lo]);
      assert LeafAt(entries, lo, hi, entry, [], lo);
    }
  }

  lemma LeafRises(entries: seq<Bytes>, lo: nat, hi: nat, mid: nat, entry: Bytes, below: seq<bool>, sides: seq<bool>,
                  left: bool)
    requires lo + 1 < hi <= |entries| && mid == lo + SplitPoint(hi - lo) && sides == below + [left]
    requires IsLeaf(entries, if left then lo else mid, if left then mid else hi, entry, below)
    ensures IsLeaf(entries, lo, hi, entry, sides)
  {
    var p: nat :| LeafAt(entries, if left then lo else mid, if left then mid else hi, entry, below, p);
    SidesSplit(p - lo, hi - lo, mid - lo);
    assert LeafAt(entries, lo, hi, entry, sides, p);
  }

  lemma ProofCollisionRises(hash: Hash, entries: seq<Bytes>, lo: nat, hi: nat, mid: nat, entry: Bytes,
                            below: seq<bool>, sides: seq<bool>, siblings: seq<Digest>, left: bool)
    requires lo + 1 < hi <= |entries| && mid == lo + SplitPoint(hi - lo)
    requires sides == below + [left] && |siblings| >= |sides|
    requires ProofCollides(hash, entry, below, siblings, entries, if left then lo else mid, if left then mid else hi)
    ensures ProofCollides(hash, entry, sides, siblings, entries, lo, hi)
  {
  }

  /** What equal last inputs of a replay and a tree say about the step below. */
  lemma TopStep(hash: Hash, entries: seq<Bytes>, lo: nat, hi: nat, entry: Bytes, sides: seq<bool>,
                siblings: seq<Digest>) returns (mid: nat, below: seq<bool>, left: bool)
    requires lo < hi <= |entries| && |siblings| >= |sides| > 0
    requires ProofTop(hash, entry, sides, siblings) == TreeTop(hash, entries, lo, hi)
    ensures lo + 1 < hi && mid == lo + SplitPoint(hi - lo) && sides == below + [left]
    ensures FoldUp(JoinOf(hash), HashLeaf(hash, entry), below, siblings) ==
            Mth(hash, entries, if left then lo else mid, if left then mid else hi)
  {
    var i := |sides| - 1;
    below, left := sides[..i], sides[i];
    var d := FoldUp(JoinOf(hash), HashLeaf(hash, entry), below, siblings);
    var l, r := if left then d else siblings[i], if left then siblings[i] else d;
    assert ProofTop(hash, entry, sides, siblings) == NodeInput(l, r);
    if hi == lo + 1 {
      InputsApart(entries[lo], l, r);
    }
    mid := lo + SplitPoint(hi - lo);
    NodeInputInjective(l, r, Mth(hash, entries, lo, mid), Mth(hash, entries, mid, hi));
  }

  /** A fold that reaches the tree hash started at a leaf of the tree, or two hashed inputs collide. */
  lemma {:induction false} FoldReachesLeaf(hash: Hash, entries: seq<Bytes>, lo: nat, hi: nat, entry: Bytes,
                                           sides: seq<bool>, siblings: seq<Digest>)
    requires lo < hi <= |entries| && |siblings| >= |sides|
    requires FoldUp(JoinOf(hash), HashLeaf(hash, entry), sides, siblings) == Mth(hash, entries, lo, hi)
    ensures LeafOrCollision(hash, entries, lo, hi, entry, sides, siblings)
    decreases |sides|
  {
    var x, y := ProofTop(hash, entry, sides, siblings), TreeTop(hash, entries, lo, hi);
    if x != y {
      assert Collision(hash, x, y);
    } else if sides == [] {
      FoldBaseReachesLeaf(hash, entries, lo, hi, entry);
    } else {
      var mid, below, left := TopStep(hash, entries, lo, hi, entry, sides, siblings);
      FoldReachesLeaf(hash, entries, if left then lo else mid, if left then mid else hi, entry, below, siblings);
      if IsLeaf(entries, if left then lo else mid, if left then mid else hi, entry, below) {
        LeafRises(entries, lo, hi, mid, entry, below, sides, left);
      } else {
        ProofCollisionRises(hash, entries, lo, hi, mid, entry, below, sides, siblings, left);
      }
    }
  }

  /** The same entries in two ranges, possibly of two lists. */
  predicate SameEntries(a: seq<Bytes>, lo: nat, hi: nat, b: seq<Bytes>, from: nat, to: nat)
    requires lo < hi <= |a| && from < to <= |b|
  {
    hi - lo == to - from && forall i :: lo <= i < hi ==> a[i] == b[i - lo + from]
  }

  ghost predicate SameOrCollision(hash: Hash, a: seq<Bytes>, lo: nat, hi: nat, b: seq<Bytes>, from: nat, to: nat)
    requires lo < hi <= |a| && from < to <= |b|
  {
    || SameEntries(a, lo, hi, b, from, to)
    || TreesCollide(hash, a, lo, hi, b, from, to)
  }

  lemma SameOrCollisionRises(hash: Hash, a: seq<Bytes>, lo: nat, hi: nat, m: nat,
                             b: seq<Bytes>, from: nat, to: nat, n: nat)
    requires lo + 1 < hi <= |a| && m == lo + SplitPoint(hi - lo)
    requires from + 1 < to <= |b| && n == from + SplitPoint(to - from)
    requires SameOrCollision(hash, a, lo, m, b, from, n) && SameOrCollision(hash, a, m, hi, b, n, to)
    ensures SameOrCollision(hash, a, lo, hi, b, from, to)
  {
  }

  lemma {:induction false} MthBinds(hash: Hash, a: seq<Bytes>, lo: nat, hi: nat, b: seq<Bytes>, from: nat, to: nat)
    requires lo < hi <= |a| && from < to <= |b| && Mth(hash, a, lo, hi) == Mth(hash, b, from, to)
    ensures SameOrCollision(hash, a, lo, hi, b, from, to)
    decreases hi - lo
  {
    var x, y := TreeTop(hash, a, lo, hi), TreeTop(hash, b, from, to);
    if x != y {
      assert Collision(hash, x, y);
    } else if hi == lo + 1 && to == from + 1 {
      LeafInputInjective(a[lo], b[from]);
    } else if hi == lo + 1 {
      var n := from + SplitPoint(to - from);
      InputsApart(a[lo], Mth(hash, b, from, n), Mth(hash, b, n, to));
    } else if to == from + 1 {
      var m := lo + SplitPoint(hi - lo);
      InputsApart(b[from], Mth(hash, a, lo, m), Mth(hash, a, m, hi));
    } else {
      var m, n := lo + SplitPoint(hi - lo), from + SplitPoint(to - from);
      NodeInputInjective(Mth(hash, a, lo, m), Mth(hash, a, m, hi), Mth(hash, b, from, n), Mth(hash, b, n, to));
      MthBinds(hash, a, lo, m, b, from, n);
      MthBinds(hash, a, m, hi, b, n, to);
      SameOrCollisionRises(hash, a, lo, hi, m, b, from, to, n);
    }
  }

  /** The root binds the whole list: equal roots, equal lists, or two inputs hashed for them collide. */
  lemma RootBinds(hash: Hash, a: seq<Bytes>, b: seq<Bytes>)
    requires |a| >= 1 && |b| >= 1 && MerkleRoot(hash, a) == MerkleRoot(hash, b)
    ensures a == b || TreesCollide(hash, a, 0, |a|, b, 0, |b|)
  {
    MthBinds(hash, a, 0, |a|, b, 0, |b|);
  }
}
