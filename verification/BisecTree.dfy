/** The nearly-complete binary tree of src/redecomp/utils/BisecTree.hpp.

    Levels are stored from the top (level 0) to the bottom, as the source does.  Specifications
    speak of heights instead: height 0 is the bottom level, which holds one node for each part. */
module BisecTree {

  function Pow2(m: nat): (p: nat)
    ensures p >= 1
  {
    if m == 0 then 1 else 2 * Pow2(m - 1)
  }

  /** Number of nodes at height h of a tree with n parts: the constructor's repeated halving. */
  function LevelSize(n: nat, h: nat): nat {
    if h == 0 then n else (LevelSize(n, h - 1) + 1) / 2
  }

  /** The exponent ceil(log2(n - 1/4)) of the constructor's level formula, characterised without
      logarithms: 2^(m-1) < n - 1/4 <= 2^m, multiplied by four. */
  predicate IsCeilLog2(n: nat, m: nat) {
    2 * Pow2(m) < 4 * n - 1 <= 4 * Pow2(m)
  }

  /** The level count computed by the constructor. */
  function NumLevels(n: nat): (levels: nat)
    requires n >= 1
    ensures levels >= 1
  {
    if n == 1 then 1 else 1 + NumLevels((n + 1) / 2)
  }

  /** Index at height h of the node above bottom node j: `root` applied h times. */
  function Anc(j: nat, h: nat): nat {
    if h == 0 then j else Anc(j, h - 1) / 2
  }

  /** Left-most bottom node below node k of height h: `left` applied h times. */
  function First(h: nat, k: nat): nat {
    if h == 0 then k else First(h - 1, 2 * k)
  }

  lemma {:induction false} Pow2Monotone(a: nat, b: nat)
    requires a < b
    ensures 2 * Pow2(a) <= Pow2(b)
  {
    if a + 1 < b { Pow2Monotone(a, b - 1); }
  }

  /** The level formula has exactly one solution, and it is one less than the level count. */
  lemma {:induction false} LevelFormula(n: nat, m: nat)
    requires n >= 1
    ensures IsCeilLog2(n, m) <==> m == NumLevels(n) - 1
  {
    LevelFormulaSolved(n);
    var top := NumLevels(n) - 1;
    if m < top {
      Pow2Monotone(m, top);
    } else if top < m {
      Pow2Monotone(top, m);
    }
  }

  lemma {:induction false} LevelFormulaSolved(n: nat)
    requires n >= 1
    ensures IsCeilLog2(n, NumLevels(n) - 1)
  {
    if n > 1 {
      var m := (n + 1) / 2;
      var top := NumLevels(m) - 1;
      LevelFormulaSolved(m);
      FormulaStep(n, m, Pow2(top), if top > 0 then Pow2(top - 1) else 0);
      assert NumLevels(n) - 1 == top + 1;
    }
  }

  /** One more level: p is 2^top for a tree of m parts, and half its half unless top is 0. */
  lemma FormulaStep(n: nat, m: nat, p: nat, half: nat)
    requires n > 1 && m == (n + 1) / 2 && (p == 2 * half || p == 1)
    requires 2 * p < 4 * m - 1 <= 4 * p
    ensures 2 * (2 * p) < 4 * n - 1 <= 4 * (2 * p)
  {
    assert n == 2 * m || n == 2 * m - 1;
    if p == 1 {
      assert m == 1;
    } else {
      assert 4 * half <= 4 * m - 2;
      assert half <= m - 1;
    }
  }

  lemma TimesMonotone(a: int, b: int, p: nat)
    requires a <= b
    ensures a * p <= b * p
  {
    assert (b - a) * p >= 0;
  }

  /** Level sizes are the ceilings of n / 2^h. */
  lemma {:induction false} LevelSizeIsCeiling(n: nat, h: nat)
    requires n >= 1
    ensures LevelSize(n, h) >= 1
    ensures (LevelSize(n, h) - 1) * Pow2(h) < n <= LevelSize(n, h) * Pow2(h)
  {
    if h > 0 {
      LevelSizeIsCeiling(n, h - 1);
      CeilingStep(n, LevelSize(n, h - 1), Pow2(h - 1));
    }
  }

  lemma CeilingStep(n: nat, s: nat, p: nat)
    requires (s - 1) * p < n <= s * p
    ensures ((s + 1) / 2 - 1) * (2 * p) < n <= ((s + 1) / 2) * (2 * p)
  {
    var r := 2 * ((s + 1) / 2) - s;
    assert ((s + 1) / 2) * (2 * p) == (s + r) * p == s * p + r * p;
    assert ((s + 1) / 2 - 1) * (2 * p) == (s + r - 2) * p == (s - 1) * p - (1 - r) * p;
  }

  lemma {:induction false} LevelSizeShift(n: nat, h: nat)
    requires h >= 1
    ensures LevelSize(n, h) == LevelSize((n + 1) / 2, h - 1)
  {
    if h > 1 { LevelSizeShift(n, h - 1); }
  }

  /** The tree narrows to a single node at the top level and nowhere below it. */
  lemma {:induction false} OneRoot(n: nat, h: nat)
    requires n >= 1
    ensures LevelSize(n, h) == 1 <==> h >= NumLevels(n) - 1
  {
    if n == 1 {
      if h > 0 { OneRoot(n, h - 1); }
    } else if h > 0 {
      LevelSizeShift(n, h);
      OneRoot((n + 1) / 2, h - 1);
    }
  }

  /** Climbing from a bottom node stays inside every level, and reaches the single root. */
  lemma {:induction false} AncInLevel(n: nat, j: nat, h: nat)
    requires j < n
    ensures Anc(j, h) < LevelSize(n, h)
  {
    if h > 0 { AncInLevel(n, j, h - 1); }
  }

  /** The left-most leaf of a node is one of the parts, and lies below the node. */
  lemma {:induction false} FirstBelow(n: nat, h: nat, k: nat)
    requires k < LevelSize(n, h)
    ensures First(h, k) < n && Anc(First(h, k), h) == k
  {
    if h > 0 {
      FirstBelow(n, h - 1, 2 * k);
    }
  }

  /** Position of the left child, the right child and the root of node k. */
  function Left(k: nat): nat { 2 * k }

  function Right(k: nat): nat { 2 * k + 1 }

  function Root(k: nat): nat { k / 2 }

  /** Links between height h and height h - 1: `root` undoes `left` and `right`, every node is one of
      the two children of its root, every inner node has a left child, and a right child is missing
      exactly at the last node of a level above one of odd size. */
  lemma TreeLinks(n: nat, h: nat, k: nat)
    requires h >= 1 && k < LevelSize(n, h)
    ensures Root(Left(k)) == k && Root(Right(k)) == k
    ensures Left(k) < LevelSize(n, h - 1)
    ensures Right(k) >= LevelSize(n, h - 1)
            <==> k == LevelSize(n, h) - 1 && LevelSize(n, h - 1) % 2 == 1
    ensures forall c: nat :: Root(c) == k <==> c == Left(k) || c == Right(k)
  {
  }

  class BisecTree<T> {
    const nParts: nat
    const nLevels: nat
    var nodes: seq<seq<T>>

    ghost predicate Valid()
      reads this
    {
      && nParts >= 1
      && nLevels == NumLevels(nParts)
      && |nodes| == nLevels
      && forall l :: 0 <= l < nLevels ==> |nodes[l]| == LevelSize(nParts, nLevels - 1 - l)
    }

    constructor (n: nat, empty: T)
      requires n >= 1
      ensures Valid() && nParts == n
      ensures forall l, k :: 0 <= l < nLevels && 0 <= k < |nodes[l]| ==> nodes[l][k] == empty
    {
      var levels := NumLevels(n);
      var all: seq<seq<T>> := [];
      var size := n;
      while |all| < levels
        invariant |all| <= levels
        invariant size == LevelSize(n, |all|)
        invariant forall l :: 0 <= l < |all| ==> |all[l]| == LevelSize(n, |all| - 1 - l)
        invariant forall l, k :: 0 <= l < |all| && 0 <= k < |all[l]| ==> all[l][k] == empty
        decreases levels - |all|
      {
        all := [seq(size, _ => empty)] + all;
        size := (size + 1) / 2;
      }
      nParts, nLevels, nodes := n, levels, all;
    }

    /** Writes one node and leaves every other node as it was. */
    method Set(level: nat, node: nat, value: T)
      requires Valid() && level < nLevels && node < |nodes[level]|
      modifies this`nodes
      ensures Valid()
      ensures nodes[level][node] == value
      ensures forall l, k :: 0 <= l < nLevels && 0 <= k < |nodes[l]| && (l != level || k != node)
                             ==> nodes[l][k] == old(nodes[l][k])
    {
      nodes := nodes[level := nodes[level][node := value]];
    }
  }
}
