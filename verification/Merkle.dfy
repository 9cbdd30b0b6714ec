/** The Merkle commitment of a block, with the duplicated last node of an odd level (gamecoin/utils.py). */
module Merkle {
  import opened Types

  function Padded(level: seq<Hash>): (p: seq<Hash>)
    requires level != []
    ensures |p| % 2 == 0 && |p| / 2 == (|level| + 1) / 2
  {
    if |level| % 2 == 1 then level + [level[|level| - 1]] else level
  }

  function Parents(c: Crypto, level: seq<Hash>): (p: seq<Hash>)
    requires |level| % 2 == 0
    ensures |p| == |level| / 2
    ensures forall i :: 0 <= i < |p| ==> p[i] == c.Pair(level[2 * i], level[2 * i + 1])
  {
    seq(|level| / 2, i requires 0 <= i < |level| / 2 => c.Pair(level[2 * i], level[2 * i + 1]))
  }

  function MerkleRoot(c: Crypto, level: seq<Hash>): Hash
    decreases |level|
  {
    if level == [] then c.emptyHash
    else if |level| == 1 then level[0]
    else MerkleRoot(c, Parents(c, Padded(level)))
  }

  method ComputeParents(c: Crypto, level: seq<Hash>) returns (parents: seq<Hash>)
    requires |level| % 2 == 0
    ensures parents == Parents(c, level)
  {
    parents := [];
    for i := 0 to |level| / 2
      invariant |parents| == i
      invariant forall j :: 0 <= j < i ==> parents[j] == c.Pair(level[2 * j], level[2 * j + 1])
    {
      parents := parents + [c.Pair(level[2 * i], level[2 * i + 1])];
    }
  }

  method ComputeMerkleRoot(c: Crypto, txids: seq<Hash>) returns (root: Hash)
    ensures root == MerkleRoot(c, txids)
  {
    var level := txids;
    if level == [] {
      return c.emptyHash;
    }
    while |level| > 1
      invariant level != [] && MerkleRoot(c, level) == MerkleRoot(c, txids)
      decreases |level|
    {
      ghost var before := level;
      if |level| % 2 == 1 {
        level := level + [level[|level| - 1]];
      }
      assert level == Padded(before);
      level := ComputeParents(c, level);
    }
    return level[0];
  }

  // The tree from above

  /** How many nodes level `k` has above `leaves` leaves: each level halves, rounding up. */
  function Width(leaves: nat, k: nat): nat {
    if k == 0 then leaves else (Width(leaves, k - 1) + 1) / 2
  }

  /** The second child of node `i`, or the last node of the level below once more where that level ends. */
  function RightChild(below: nat, i: nat): nat
    requires 2 * i < below
  {
    if 2 * i + 1 < below then 2 * i + 1 else below - 1
  }

  /** Node `i` of level `k`: a leaf, or the hash of its two children. */
  ghost function TreeNode(c: Crypto, leaves: seq<Hash>, k: nat, i: nat): Hash
    requires i < Width(|leaves|, k)
    decreases k
  {
    if k == 0 then leaves[i]
    else
      var right := RightChild(Width(|leaves|, k - 1), i);
      c.Pair(TreeNode(c, leaves, k - 1, 2 * i), TreeNode(c, leaves, k - 1, right))
  }

  lemma {:induction false} WidthAbove(leaves: nat, k: nat)
    requires leaves > 0
    ensures Width(leaves, k) > 0 && Width((leaves + 1) / 2, k) == Width(leaves, k + 1)
  {
    if k > 0 {
      WidthAbove(leaves, k - 1);
    }
  }

  lemma {:induction false} ParentAt(c: Crypto, level: seq<Hash>, i: nat)
    requires level != [] && i < (|level| + 1) / 2
    ensures var above := Parents(c, Padded(level));
            |above| == (|level| + 1) / 2 && above[i] == c.Pair(level[2 * i], level[RightChild(|level|, i)])
  {
  }

  lemma {:induction false} FirstLevel(c: Crypto, level: seq<Hash>, i: nat)
    requires level != [] && i < (|level| + 1) / 2
    ensures Width(|level|, 1) == (|level| + 1) / 2
    ensures TreeNode(c, level, 1, i) == c.Pair(level[2 * i], level[RightChild(|level|, i)])
  {
    assert TreeNode(c, level, 0, 2 * i) == level[2 * i];
  }

  lemma {:induction false} TreeAbove(c: Crypto, level: seq<Hash>, k: nat, i: nat)
    requires level != [] && i < Width(|level|, k + 1)
    ensures var above := Parents(c, Padded(level));
            |above| == (|level| + 1) / 2 && i < Width(|above|, k)
            && TreeNode(c, above, k, i) == TreeNode(c, level, k + 1, i)
    decreases k
  {
    hide Parents, Padded;
    var above := Parents(c, Padded(level));
    ParentAt(c, level, 0);
    WidthAbove(|level|, k);
    if k == 0 {
      ParentAt(c, level, i);
      FirstLevel(c, level, i);
    } else {
      WidthAbove(|level|, k - 1);
      var below := Width(|level|, k);
      TreeAbove(c, level, k - 1, 2 * i);
      TreeAbove(c, level, k - 1, RightChild(below, i));
    }
  }

  /** The level loop computes the top of the tree: the one node of the first level that has just one. */
  lemma {:induction false} RootIsTopOfTree(c: Crypto, leaves: seq<Hash>)
    requires leaves != []
    ensures Width(|leaves|, Height(|leaves|)) == 1
    ensures forall k :: 0 <= k < Height(|leaves|) ==> Width(|leaves|, k) > 1
    ensures MerkleRoot(c, leaves) == TreeNode(c, leaves, Height(|leaves|), 0)
    decreases |leaves|
  {
    TopIsFirstAlone(|leaves|);
    hide Parents, Padded, Width, TreeNode;
    if |leaves| == 1 {
      LeafIsNode(c, leaves);
    } else {
      ParentAt(c, leaves, 0);
      RootIsTopOfTree(c, Parents(c, Padded(leaves)));
      TreeAbove(c, leaves, Height(|leaves|) - 1, 0);
    }
  }

  lemma {:induction false} LeafIsNode(c: Crypto, leaves: seq<Hash>)
    requires |leaves| == 1
    ensures Width(1, 0) == 1 && TreeNode(c, leaves, 0, 0) == leaves[0]
  {
  }

  lemma {:induction false} TopIsFirstAlone(leaves: nat)
    requires leaves > 0
    ensures Width(leaves, Height(leaves)) == 1 && forall k :: 0 <= k < Height(leaves) ==> Width(leaves, k) > 1
  {
    if leaves > 1 {
      TopIsFirstAlone((leaves + 1) / 2);
      WidthAbove(leaves, Height(leaves) - 1);
      forall k | 0 <= k < Height(leaves) ensures Width(leaves, k) > 1 {
        if k > 0 {
          WidthAbove(leaves, k - 1);
        }
      }
    }
  }

  /** The roots of no, one, two and three txids. */
  lemma {:induction false} SmallRoots(c: Crypto, x: Hash, y: Hash, z: Hash)
    ensures MerkleRoot(c, []) == c.emptyHash && MerkleRoot(c, [x]) == x && MerkleRoot(c, [x, y]) == c.Pair(x, y)
    ensures MerkleRoot(c, [x, y, z]) == c.Pair(c.Pair(x, y), c.Pair(z, z))
  {
    hide Padded;
    PaddedSmall(x, y, z);
    PaddedSmall(c.Pair(x, y), c.Pair(z, z), z);
    assert Parents(c, [x, y]) == [c.Pair(x, y)];
    assert Parents(c, [x, y, z, z]) == [c.Pair(x, y), c.Pair(z, z)];
    assert Parents(c, [c.Pair(x, y), c.Pair(z, z)]) == [c.Pair(c.Pair(x, y), c.Pair(z, z))];
    assert MerkleRoot(c, [c.Pair(x, y), c.Pair(z, z)]) == c.Pair(c.Pair(x, y), c.Pair(z, z));
    assert MerkleRoot(c, [x, y, z]) == MerkleRoot(c, [c.Pair(x, y), c.Pair(z, z)]);
  }

  lemma {:induction false} PaddedSmall(x: Hash, y: Hash, z: Hash)
    ensures Padded([x, y]) == [x, y] && Padded([x, y, z]) == [x, y, z, z]
  {
  }

  ghost predicate Distinct(ids: seq<Hash>) {
    forall i, j :: 0 <= i < j < |ids| ==> ids[i] != ids[j]
  }

  ghost predicate NoInnerNodes(c: Crypto, ids: seq<Hash>) {
    forall i, x, y :: 0 <= i < |ids| ==> ids[i] != c.Pair(x, y)
  }

  ghost function Height(leaves: nat): nat {
    if leaves <= 1 then 0 else 1 + Height((leaves + 1) / 2)
  }

  lemma {:induction false} ParentsDistinct(c: Crypto, level: seq<Hash>)
    requires c.PairInjective() && level != [] && Distinct(level)
    ensures Distinct(Parents(c, Padded(level)))
  {
    var padded := Padded(level);
    var parents := Parents(c, padded);
    forall i, j | 0 <= i < j < |parents| ensures parents[i] != parents[j] {
      assert padded[2 * i] == level[2 * i];
      assert padded[2 * j] == level[2 * j];
    }
  }

  lemma {:induction false} ParentsDetermineLevel(c: Crypto, a: seq<Hash>, b: seq<Hash>)
    requires c.PairInjective() && a != [] && b != [] && Distinct(a) && Distinct(b)
    requires Parents(c, Padded(a)) == Parents(c, Padded(b))
    ensures a == b
  {
    var pa, pb := Padded(a), Padded(b);
    var parents := Parents(c, pa);
    forall k | 0 <= k < |pa| ensures pa[k] == pb[k] {
      assert parents[k / 2] == Parents(c, pb)[k / 2];
      assert k == 2 * (k / 2) || k == 2 * (k / 2) + 1;
    }
    assert pa == pb;
    UnpadPadded(a);
    UnpadPadded(b);
  }

  function Unpad(p: seq<Hash>): seq<Hash> {
    if |p| >= 2 && p[|p| - 1] == p[|p| - 2] then p[..|p| - 1] else p
  }

  lemma {:induction false} UnpadPadded(level: seq<Hash>)
    requires level != [] && Distinct(level)
    ensures Unpad(Padded(level)) == level
  {
  }

  /** Trees of equal height: the root determines the leaves. */
  lemma {:induction false} SameHeightSameRoot(c: Crypto, a: seq<Hash>, b: seq<Hash>)
    requires c.PairInjective() && a != [] && b != [] && Distinct(a) && Distinct(b)
    requires Height(|a|) == Height(|b|) && MerkleRoot(c, a) == MerkleRoot(c, b)
    ensures a == b
    decreases |a|
  {
    if |a| > 1 {
      ParentsDistinct(c, a);
      ParentsDistinct(c, b);
      SameHeightSameRoot(c, Parents(c, Padded(a)), Parents(c, Padded(b)));
      ParentsDetermineLevel(c, a, b);
    }
  }

  lemma {:induction false} TallerTreesDiffer(c: Crypto, low: seq<Hash>, tall: seq<Hash>)
    requires c.PairInjective() && low != [] && Distinct(low) && Distinct(tall) && NoInnerNodes(c, low)
    requires Height(|low|) < Height(|tall|)
    ensures MerkleRoot(c, low) != MerkleRoot(c, tall)
    decreases |tall|
  {
    var above := Parents(c, Padded(tall));
    ParentsDistinct(c, tall);
    assert low[0] != above[0];
    if Height(|low|) < Height(|above|) {
      TallerTreesDiffer(c, low, above);
    } else if MerkleRoot(c, low) == MerkleRoot(c, above) {
      SameHeightSameRoot(c, low, above);
    }
  }

  /** Duplicate-free txid lists of any two lengths with one root are one list. */
  lemma {:induction false} RootDeterminesTxids(c: Crypto, a: seq<Hash>, b: seq<Hash>)
    requires c.PairInjective() && a != [] && b != [] && Distinct(a) && Distinct(b)
    requires NoInnerNodes(c, a) && NoInnerNodes(c, b)
    requires MerkleRoot(c, a) == MerkleRoot(c, b)
    ensures a == b
  {
    if Height(|a|) < Height(|b|) {
      TallerTreesDiffer(c, a, b);
    } else if Height(|b|) < Height(|a|) {
      TallerTreesDiffer(c, b, a);
    } else {
      SameHeightSameRoot(c, a, b);
    }
  }

  /** Without the duplicate check an odd level is ambiguous: repeating its last txid keeps the root. */
  lemma {:induction false} DuplicatedLastTxidKeepsRoot(c: Crypto, ids: seq<Hash>)
    requires |ids| % 2 == 1 && |ids| > 1
    ensures MerkleRoot(c, ids + [ids[|ids| - 1]]) == MerkleRoot(c, ids)
  {
  }
}
