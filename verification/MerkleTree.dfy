/**
 Merkle trees over leaf hashes of any kind: the recursive definitions of sections 2.1 and 2.1.1 of
 RFC 6962, the level-by-level computation that the code uses instead, and why the two agree.
*/
module MerkleTree {

  /** How two nodes make their parent. */
  type Join<!D> = (D, D) -> D

  // ----- section 2.1: the tree hash -----

  predicate IsPowerOfTwo(k: nat) {
    k == 1 || (k > 0 && k % 2 == 0 && IsPowerOfTwo(k / 2))
  }

  /** The largest power of two smaller than n, searched upwards from one that is small enough. */
  function PowerBelow(n: nat, p: nat): (k: nat)
    requires 1 <= p < n
    ensures p <= k < n <= 2 * k
    decreases n - p
  {
    if n <= 2 * p then p else PowerBelow(n, 2 * p)
  }

  function SplitPoint(n: nat): (k: nat)
    requires n >= 2
    ensures 1 <= k < n <= 2 * k
  {
    PowerBelow(n, 1)
  }

  /** n nodes make h nodes on the level above. */
  predicate Halves(n: nat, h: nat) {
    n <= 2 * h <= n + 1
  }

  predicate IsParent(p: nat, m: nat) {
    2 * p <= m <= 2 * p + 1
  }

  lemma {:induction false} PowerBelowHalves(n: nat, h: nat, p: nat)
    requires Halves(n, h) && 1 <= p && 2 * p < n
    ensures PowerBelow(n, 2 * p) == 2 * PowerBelow(h, p)
    decreases n - p
  {
    if n > 4 * p {
      PowerBelowHalves(n, h, 2 * p);
    }
  }

  /** The split point halves when the level does. */
  lemma SplitPointHalves(n: nat, h: nat)
    requires n > 2 && Halves(n, h)
    ensures SplitPoint(n) == 2 * SplitPoint(h)
  {
    PowerBelowHalves(n, h, 1);
  }

  /** SplitPoint is the k of section 2.1 of RFC 6962: the power of two with k < n <= 2k, of which there is one. */
  lemma {:induction false} SplitPointIsRight(n: nat, k: nat)
    requires n >= 2
    ensures (IsPowerOfTwo(k) && k < n <= 2 * k) <==> k == SplitPoint(n)
  {
    if n > 2 {
      SplitPointHalves(n, (n + 1) / 2);
      SplitPointIsRight((n + 1) / 2, k / 2);
    }
  }

  /** Extending both sides of s + a at the end. */
  lemma ExtendBoth<T>(x: seq<T>, s: seq<T>, y: seq<T>, a: seq<T>, t: T)
    requires x == (s + a) + [t] && y == a + [t]
    ensures x == s + y
  {
  }

  /** MTH(D[lo:hi]), over the leaf hashes. */
  function Tree<D>(join: Join<D>, hs: seq<D>, lo: nat, hi: nat): D
    requires lo < hi <= |hs|
    decreases hi - lo
  {
    if hi == lo + 1 then hs[lo] else
    var k := SplitPoint(hi - lo);
    join(Tree(join, hs, lo, lo + k), Tree(join, hs, lo + k, hi))
  }

  // ----- the level-by-level computation -----

  /** One level up: neighbours are paired, an odd last node is promoted unchanged. */
  function Parent<D>(join: Join<D>, hs: seq<D>, i: nat): D
    requires 2 * i < |hs|
  {
    if 2 * i + 1 < |hs| then join(hs[2 * i], hs[2 * i + 1]) else hs[2 * i]
  }

  function PairUp<D>(join: Join<D>, hs: seq<D>): (up: seq<D>)
    ensures IsLevelAbove(join, hs, up)
  {
    seq((|hs| + 1) / 2, i requires 0 <= i < (|hs| + 1) / 2 => Parent(join, hs, i))
  }

  ghost predicate IsLevelAbove<D>(join: Join<D>, hs: seq<D>, up: seq<D>) {
    && Halves(|hs|, |up|)
    && forall i {:trigger up[i]} :: 0 <= i < |up| ==> up[i] == Parent(join, hs, i)
  }

  /** The range 2a..hi of a level of n nodes is the range a..b of the level above. */
  predicate Aligned(a: nat, hi: nat, b: nat, n: nat) {
    2 * a < hi <= n && Halves(hi, b) && (hi < n ==> hi == 2 * b)
  }

  ghost predicate KeepsTree<D>(join: Join<D>, hs: seq<D>, up: seq<D>, a: nat, hi: nat, b: nat)
    requires 2 * a < hi <= |hs| && a < b <= |up|
  {
    Tree(join, up, a, b) == Tree(join, hs, 2 * a, hi)
  }

  lemma TreeSplits<D>(join: Join<D>, hs: seq<D>, lo: nat, hi: nat, mid: nat)
    requires lo + 1 < hi <= |hs| && mid == lo + SplitPoint(hi - lo)
    ensures Tree(join, hs, lo, hi) == join(Tree(join, hs, lo, mid), Tree(join, hs, mid, hi))
  {
  }

  /** The split of a range and the split of the range above it. */
  lemma MidDoubles(a: nat, hi: nat, b: nat, n: nat, mid: nat)
    requires Aligned(a, hi, b, n) && 2 * a + 2 < hi && mid == a + SplitPoint(b - a)
    ensures 2 * mid == 2 * a + SplitPoint(hi - 2 * a)
    ensures a < mid < b && 2 * mid < hi && Aligned(a, 2 * mid, mid, n) && Aligned(mid, hi, b, n)
  {
    SplitPointHalves(hi - 2 * a, b - a);
  }

  lemma KeepsTreeStep<D>(join: Join<D>, hs: seq<D>, up: seq<D>, a: nat, hi: nat, b: nat, mid: nat)
    requires IsLevelAbove(join, hs, up) && Aligned(a, hi, b, |hs|) && 2 * a + 2 < hi && mid == a + SplitPoint(b - a)
    requires 2 * mid < hi && KeepsTree(join, hs, up, a, 2 * mid, mid) && KeepsTree(join, hs, up, mid, hi, b)
    ensures KeepsTree(join, hs, up, a, hi, b)
  {
    MidDoubles(a, hi, b, |hs|, mid);
    TreeSplits(join, hs, 2 * a, hi, 2 * mid);
    TreeSplits(join, up, a, b, mid);
  }

  /** Pairing a level does not change the tree hash. */
  lemma {:induction false} PairUpKeepsTree<D>(join: Join<D>, hs: seq<D>, up: seq<D>, a: nat, hi: nat, b: nat)
    requires IsLevelAbove(join, hs, up) && Aligned(a, hi, b, |hs|)
    ensures KeepsTree(join, hs, up, a, hi, b)
    decreases hi - 2 * a
  {
    if hi == 2 * a + 2 {
      TreeSplits(join, hs, 2 * a, hi, 2 * a + 1);
    } else if hi > 2 * a + 2 {
      var mid := a + SplitPoint(b - a);
      MidDoubles(a, hi, b, |hs|, mid);
      PairUpKeepsTree(join, hs, up, a, 2 * mid, mid);
      PairUpKeepsTree(join, hs, up, mid, hi, b);
      KeepsTreeStep(join, hs, up, a, hi, b, mid);
    }
  }

  // ----- section 2.1.1: audit paths -----

  /** PATH of leaf m within D[lo:hi], over the leaf hashes. */
  function Path<D>(join: Join<D>, m: nat, hs: seq<D>, lo: nat, hi: nat): seq<D>
    requires lo <= m < hi <= |hs|
    decreases hi - lo
  {
    if hi == lo + 1 then [] else
    var k := SplitPoint(hi - lo);
    if m < lo + k then Path(join, m, hs, lo, lo + k) + [Tree(join, hs, lo + k, hi)]
    else Path(join, m, hs, lo + k, hi) + [Tree(join, hs, lo, lo + k)]
  }

  /** The sibling of node m, a child of node p, in a level; none for a promoted node. */
  function Sibling<D>(m: nat, p: nat, hs: seq<D>): seq<D>
    requires m < |hs|
  {
    if m == 2 * p + 1 then [hs[2 * p]] else if m + 1 < |hs| then [hs[m + 1]] else []
  }

  lemma PathSplits<D>(join: Join<D>, m: nat, hs: seq<D>, lo: nat, hi: nat, mid: nat)
    requires lo <= m < hi <= |hs| && lo + 1 < hi && mid == lo + SplitPoint(hi - lo)
    ensures Path(join, m, hs, lo, hi) ==
            if m < mid then Path(join, m, hs, lo, mid) + [Tree(join, hs, mid, hi)]
            else Path(join, m, hs, mid, hi) + [Tree(join, hs, lo, mid)]
  {
  }

  /** The bottom level of a path is the sibling; the rest is the path one level up. */
  ghost predicate PathRises<D>(join: Join<D>, m: nat, p: nat, hs: seq<D>, up: seq<D>, a: nat, hi: nat, b: nat)
    requires 2 * a <= m < hi <= |hs| && a <= p < b <= |up|
  {
    Path(join, m, hs, 2 * a, hi) == Sibling(m, p, hs) + Path(join, p, up, a, b)
  }

  lemma PathRisesBase<D>(join: Join<D>, m: nat, p: nat, hs: seq<D>, up: seq<D>, a: nat, hi: nat)
    requires IsLevelAbove(join, hs, up) && Aligned(a, hi, a + 1, |hs|) && 2 * a <= m < hi && IsParent(p, m)
    ensures PathRises(join, m, p, hs, up, a, hi, a + 1)
  {
  }

  lemma PathRisesLeft<D>(join: Join<D>, m: nat, p: nat, hs: seq<D>, up: seq<D>, a: nat, hi: nat, b: nat, mid: nat)
    requires IsLevelAbove(join, hs, up) && Aligned(a, hi, b, |hs|) && 2 * a + 2 < hi && mid == a + SplitPoint(b - a)
    requires 2 * a <= m && IsParent(p, m) && p < mid && 2 * mid < hi
    requires PathRises(join, m, p, hs, up, a, 2 * mid, mid) && KeepsTree(join, hs, up, mid, hi, b)
    ensures PathRises(join, m, p, hs, up, a, hi, b)
  {
    MidDoubles(a, hi, b, |hs|, mid);
    PathSplits(join, m, hs, 2 * a, hi, 2 * mid);
    PathSplits(join, p, up, a, b, mid);
    ExtendBoth(Path(join, m, hs, 2 * a, hi), Sibling(m, p, hs), Path(join, p, up, a, b),
               Path(join, p, up, a, mid), Tree(join, up, mid, b));
  }

  lemma PathRisesRight<D>(join: Join<D>, m: nat, p: nat, hs: seq<D>, up: seq<D>, a: nat, hi: nat, b: nat, mid: nat)
    requires IsLevelAbove(join, hs, up) && Aligned(a, hi, b, |hs|) && 2 * a + 2 < hi && mid == a + SplitPoint(b - a)
    requires m < hi && IsParent(p, m) && mid <= p < b && 2 * mid < hi
    requires PathRises(join, m, p, hs, up, mid, hi, b) && KeepsTree(join, hs, up, a, 2 * mid, mid)
    ensures PathRises(join, m, p, hs, up, a, hi, b)
  {
    MidDoubles(a, hi, b, |hs|, mid);
    PathSplits(join, m, hs, 2 * a, hi, 2 * mid);
    PathSplits(join, p, up, a, b, mid);
    ExtendBoth(Path(join, m, hs, 2 * a, hi), Sibling(m, p, hs), Path(join, p, up, a, b),
               Path(join, p, up, mid, b), Tree(join, up, a, mid));
  }

  lemma {:induction false} PathByLevels<D>(join: Join<D>, m: nat, p: nat, hs: seq<D>, up: seq<D>,
                                           a: nat, hi: nat, b: nat)
    requires IsLevelAbove(join, hs, up) && Aligned(a, hi, b, |hs|) && 2 * a <= m < hi && IsParent(p, m)
    ensures PathRises(join, m, p, hs, up, a, hi, b)
    decreases hi - 2 * a
  {
    if hi - 2 * a <= 2 {
      PathRisesBase(join, m, p, hs, up, a, hi);
    } else {
      var mid := a + SplitPoint(b - a);
      MidDoubles(a, hi, b, |hs|, mid);
      if p < mid {
        PathByLevels(join, m, p, hs, up, a, 2 * mid, mid);
        PairUpKeepsTree(join, hs, up, mid, hi, b);
        PathRisesLeft(join, m, p, hs, up, a, hi, b, mid);
      } else {
        PathByLevels(join, m, p, hs, up, mid, hi, b);
        PairUpKeepsTree(join, hs, up, a, 2 * mid, mid);
        PathRisesRight(join, m, p, hs, up, a, hi, b, mid);
      }
    }
  }

  // ----- directions: on which side of its sibling each node of a path stands -----

  /** Section 2.1.1, bottom up: true where the node is the left one. */
  function Sides(m: nat, n: nat): seq<bool>
    requires m < n
    decreases n
  {
    if n == 1 then [] else
    var k := SplitPoint(n);
    if m < k then Sides(m, k) + [true] else Sides(m - k, n - k) + [false]
  }

  /** The side of node m, a child of node p, in a level of n nodes; none for a promoted node. */
  function Side(m: nat, p: nat, n: nat): seq<bool> {
    if m == 2 * p + 1 then [false] else if m + 1 < n then [true] else []
  }

  lemma SidesSplit(m: nat, n: nat, k: nat)
    requires m < n && n >= 2 && k == SplitPoint(n)
    ensures Sides(m, n) == if m < k then Sides(m, k) + [true] else Sides(m - k, n - k) + [false]
  {
  }

  lemma SnocInjective<T>(a: seq<T>, x: T, b: seq<T>, y: T)
    requires a + [x] == b + [y]
    ensures a == b && x == y
  {
    assert |a + [x]| == |b + [y]|;
    assert a == (a + [x])[..|a|] && b == (b + [y])[..|b|];
    assert x == (a + [x])[|a|] && y == (b + [y])[|b|];
  }

  /** In a tree of given size a leaf is determined by its sides. */
  lemma {:induction false} SidesInjective(m: nat, p: nat, n: nat)
    requires m < n && p < n && Sides(m, n) == Sides(p, n)
    ensures m == p
    decreases n
  {
    if n > 1 {
      var k := SplitPoint(n);
      SidesSplit(m, n, k);
      SidesSplit(p, n, k);
      SnocInjective(if m < k then Sides(m, k) else Sides(m - k, n - k), m < k,
                    if p < k then Sides(p, k) else Sides(p - k, n - k), p < k);
      if m < k {
        SidesInjective(m, p, k);
      } else {
        SidesInjective(m - k, p - k, n - k);
      }
    }
  }

  /** The bottom level of the sides is the leaf's; the rest are the sides one level up. */
  predicate SidesRise(m: nat, n: nat, p: nat, h: nat)
    requires m < n && p < h
  {
    Sides(m, n) == Side(m, p, n) + Sides(p, h)
  }

  lemma SidesRiseBase(m: nat, n: nat, p: nat, h: nat)
    requires m < n <= 2 && Halves(n, h) && IsParent(p, m)
    ensures SidesRise(m, n, p, h)
  {
  }

  lemma SidesRiseLeft(m: nat, n: nat, p: nat, h: nat, half: nat)
    requires m < n && n > 2 && Halves(n, h) && IsParent(p, m) && half == SplitPoint(h) && p < half
    requires SidesRise(m, 2 * half, p, half)
    ensures SidesRise(m, n, p, h)
  {
    SplitPointHalves(n, h);
    SidesSplit(m, n, 2 * half);
    SidesSplit(p, h, half);
    ExtendBoth(Sides(m, n), Side(m, p, n), Sides(p, h), Sides(p, half), true);
  }

  lemma SidesRiseRight(m: nat, n: nat, p: nat, h: nat, half: nat)
    requires m < n && 2 < n && Halves(n, h) && IsParent(p, m) && half == SplitPoint(h) && p >= half && 2 * half < n
    requires SidesRise(m - 2 * half, n - 2 * half, p - half, h - half)
    ensures SidesRise(m, n, p, h)
  {
    SplitPointHalves(n, h);
    SidesSplit(m, n, 2 * half);
    SidesSplit(p, h, half);
    ExtendBoth(Sides(m, n), Side(m, p, n), Sides(p, h), Sides(p - half, h - half), false);
  }

  lemma {:induction false} SidesByLevels(m: nat, n: nat, p: nat, h: nat)
    requires m < n && Halves(n, h) && IsParent(p, m)
    ensures SidesRise(m, n, p, h)
    decreases n
  {
    if n <= 2 {
      SidesRiseBase(m, n, p, h);
    } else {
      var half := SplitPoint(h);
      SplitPointHalves(n, h);
      if p < half {
        SidesByLevels(m, 2 * half, p, half);
        SidesRiseLeft(m, n, p, h, half);
      } else {
        SidesByLevels(m - 2 * half, n - 2 * half, p - half, h - half);
        SidesRiseRight(m, n, p, h, half);
      }
    }
  }

  function Pow2(e: nat): nat {
    if e == 0 then 1 else 2 * Pow2(e - 1)
  }

  /** With n nodes, n <= 2^e, there are at most e steps to the root. */
  lemma {:induction false} SidesShort(m: nat, n: nat, e: nat)
    requires m < n <= Pow2(e)
    ensures |Sides(m, n)| <= e
    decreases n
  {
    if n > 1 {
      SidesByLevels(m, n, m / 2, (n + 1) / 2);
      SidesShort(m / 2, (n + 1) / 2, e - 1);
    }
  }

  /** A path folded up from a leaf. */
  function FoldUp<D>(join: Join<D>, h: D, sides: seq<bool>, siblings: seq<D>): D
    requires |siblings| >= |sides|
    decreases |sides|
  {
    if sides == [] then h else
    var i := |sides| - 1;
    var below := FoldUp(join, h, sides[..i], siblings);
    if sides[i] then join(below, siblings[i]) else join(siblings[i], below)
  }

  lemma {:induction false} FoldUpPrefix<D>(join: Join<D>, h: D, sides: seq<bool>, a: seq<D>, b: seq<D>)
    requires |sides| <= |a| && |sides| <= |b| && a[..|sides|] == b[..|sides|]
    ensures FoldUp(join, h, sides, a) == FoldUp(join, h, sides, b)
    decreases |sides|
  {
    if |sides| > 0 {
      var i := |sides| - 1;
      assert a[i] == a[..|sides|][i] && a[..i] == a[..|sides|][..i] && b[..i] == b[..|sides|][..i];
      FoldUpPrefix(join, h, sides[..i], a, b);
    }
  }

  /** The top step of a fold. */
  lemma FoldUpTop<D>(join: Join<D>, h: D, sides: seq<bool>, siblings: seq<D>, below: seq<bool>, side: bool,
                     lower: seq<D>, top: D)
    requires |lower| == |below| && sides == below + [side] && siblings == lower + [top]
    ensures FoldUp(join, h, sides, siblings) ==
            var d := FoldUp(join, h, below, lower);
            if side then join(d, top) else join(top, d)
  {
    FoldUpPrefix(join, h, below, siblings, lower);
    assert sides[..|below|] == below;
  }

  /** A path leads from its leaf to the tree hash. */
  ghost predicate LeadsUp<D>(join: Join<D>, m: nat, hs: seq<D>, lo: nat, hi: nat)
    requires lo <= m < hi <= |hs|
  {
    && |Path(join, m, hs, lo, hi)| == |Sides(m - lo, hi - lo)|
    && FoldUp(join, hs[m], Sides(m - lo, hi - lo), Path(join, m, hs, lo, hi)) == Tree(join, hs, lo, hi)
  }

  lemma LeadsUpStep<D>(join: Join<D>, m: nat, hs: seq<D>, lo: nat, hi: nat, a: nat, b: nat, side: bool, other: D)
    requires lo <= a <= m < b <= hi <= |hs| && LeadsUp(join, m, hs, a, b)
    requires Path(join, m, hs, lo, hi) == Path(join, m, hs, a, b) + [other]
    requires Sides(m - lo, hi - lo) == Sides(m - a, b - a) + [side]
    requires Tree(join, hs, lo, hi) ==
             if side then join(Tree(join, hs, a, b), other) else join(other, Tree(join, hs, a, b))
    ensures LeadsUp(join, m, hs, lo, hi)
  {
    FoldUpTop(join, hs[m], Sides(m - lo, hi - lo), Path(join, m, hs, lo, hi),
              Sides(m - a, b - a), side, Path(join, m, hs, a, b), other);
  }

  lemma LeadsUpLeft<D>(join: Join<D>, m: nat, hs: seq<D>, lo: nat, hi: nat, mid: nat)
    requires lo <= m < mid < hi <= |hs| && mid == lo + SplitPoint(hi - lo) && LeadsUp(join, m, hs, lo, mid)
    ensures LeadsUp(join, m, hs, lo, hi)
  {
    SidesSplit(m - lo, hi - lo, mid - lo);
    PathSplits(join, m, hs, lo, hi, mid);
    TreeSplits(join, hs, lo, hi, mid);
    LeadsUpStep(join, m, hs, lo, hi, lo, mid, true, Tree(join, hs, mid, hi));
  }

  lemma LeadsUpRight<D>(join: Join<D>, m: nat, hs: seq<D>, lo: nat, hi: nat, mid: nat)
    requires lo + 1 < hi && lo < mid <= m < hi <= |hs| && mid == lo + SplitPoint(hi - lo)
    requires LeadsUp(join, m, hs, mid, hi)
    ensures LeadsUp(join, m, hs, lo, hi)
  {
    SidesSplit(m - lo, hi - lo, mid - lo);
    PathSplits(join, m, hs, lo, hi, mid);
    TreeSplits(join, hs, lo, hi, mid);
    LeadsUpStep(join, m, hs, lo, hi, mid, hi, false, Tree(join, hs, lo, mid));
  }

  /** An audit path leads from its leaf to the tree hash. */
  lemma {:induction false} PathFolds<D>(join: Join<D>, m: nat, hs: seq<D>, lo: nat, hi: nat)
    requires lo <= m < hi <= |hs|
    ensures LeadsUp(join, m, hs, lo, hi)
    decreases hi - lo
  {
    if hi > lo + 1 {
      var mid := lo + SplitPoint(hi - lo);
      if m < mid {
        PathFolds(join, m, hs, lo, mid);
        LeadsUpLeft(join, m, hs, lo, hi, mid);
      } else {
        PathFolds(join, m, hs, mid, hi);
        LeadsUpRight(join, m, hs, lo, hi, mid);
      }
    }
  }

  /** The bottom step of a fold. */
  lemma {:induction false} FoldUpBottom<D>(join: Join<D>, h: D, side: bool, sides: seq<bool>, siblings: seq<D>)
    requires |siblings| >= 1 + |sides|
    ensures FoldUp(join, h, [side] + sides, siblings) ==
            FoldUp(join, if side then join(h, siblings[0]) else join(siblings[0], h), sides, siblings[1..])
    decreases |sides|
  {
    if |sides| > 0 {
      var i := |sides| - 1;
      assert ([side] + sides)[..|sides|] == [side] + sides[..i];
      FoldUpBottom(join, h, side, sides[..i], siblings);
    } else {
      assert [side] + sides == [side] && [side][..0] == [];
    }
  }
}
