/** The padded Merkle tree as mathematics: the recursive reference, the node at each height, the
    dummy region, authentication paths and the climb from a leaf to the root. */
module MerkleTree {
  import opened ByteCodec
  import opened RequestLeaf

  const MAX_TREE_DEPTH: nat := 16
  const MAX_BATCH: nat := 65536

  function Pow2(n: nat): (p: nat)
    ensures p > 0
  {
    if n == 0 then 1 else 2 * Pow2(n - 1)
  }

  lemma {:induction false} Pow2Monotone(a: nat, b: nat)
    requires a <= b
    ensures Pow2(a) <= Pow2(b)
    decreases b - a
  {
    if a < b {
      Pow2Monotone(a + 1, b);
    }
  }

  lemma MaxBatchIsTreeCapacity()
    ensures Pow2(MAX_TREE_DEPTH) == MAX_BATCH
  {
    assert Pow2(8) == 256;
    assert Pow2(12) == 4096;
  }

  // ---- depth and padded size ------------------------------------------------------------------

  /** `usize::next_power_of_two`. */
  function NextPowerOfTwo(n: nat): (p: nat)
    ensures p > 0
  {
    if n <= 1 then 1 else 2 * NextPowerOfTwo((n + 1) / 2)
  }

  /** `usize::trailing_zeros` of a non-zero number. */
  function TrailingZeros(n: nat): (z: nat)
    requires n > 0
  {
    if n % 2 == 1 then 0 else 1 + TrailingZeros(n / 2)
  }

  datatype Shape = Shape(depth: nat, paddedSize: nat)

  function ComputeDepthAndSize(nLeaves: nat): (s: Shape) {
    if nLeaves == 0 || nLeaves == 1 then Shape(0, 1)
    else
      var paddedSize := NextPowerOfTwo(nLeaves);
      Shape(TrailingZeros(paddedSize), paddedSize)
  }

  lemma {:induction false} TrailingZerosOfPow2(d: nat)
    ensures TrailingZeros(Pow2(d)) == d
  {
    if d > 0 {
      TrailingZerosOfPow2(d - 1);
    }
  }

  lemma {:induction false} NextPowerOfTwoIsLeast(n: nat) returns (d: nat)
    ensures NextPowerOfTwo(n) == Pow2(d) && n <= Pow2(d)
    ensures forall e: nat | n <= Pow2(e) :: d <= e
  {
    if n <= 1 {
      d := 0;
    } else {
      var d' := NextPowerOfTwoIsLeast((n + 1) / 2);
      d := d' + 1;
      forall e: nat | n <= Pow2(e)
        ensures d <= e
      {
        assert e > 0;
        assert (n + 1) / 2 <= Pow2(e - 1);
      }
    }
  }

  /** The padded size is the least power of two that holds the leaves, the depth is its exact
      logarithm, and a batch within `MAX_BATCH` never needs more than `MAX_TREE_DEPTH` levels. */
  lemma DepthAndSizeAreLeast(nLeaves: nat)
    ensures var s := ComputeDepthAndSize(nLeaves);
            && s.paddedSize == Pow2(s.depth)
            && nLeaves <= s.paddedSize
            && (forall e: nat | nLeaves <= Pow2(e) :: s.depth <= e)
            && (nLeaves <= MAX_BATCH <==> s.depth <= MAX_TREE_DEPTH)
  {
    var d := NextPowerOfTwoIsLeast(nLeaves);
    TrailingZerosOfPow2(d);
    MaxBatchIsTreeCapacity();
    var s := ComputeDepthAndSize(nLeaves);
    assert nLeaves <= 1 ==> nLeaves <= Pow2(0);
    assert s.depth == d;
    if s.depth <= MAX_TREE_DEPTH {
      Pow2Monotone(s.depth, MAX_TREE_DEPTH);
    }
  }

  // ---- reference and nodes --------------------------------------------------------------------

  function LeafAt(leaves: seq<Fp>, i: nat): (x: Fp) {
    if i < |leaves| then leaves[i] else 0
  }

  /** The recursive reference: the root over `size` positions starting at `offset`, padding with
      zero and hashing every pair. */
  function Subtree(h: Hasher, leaves: seq<Fp>, offset: nat, size: nat): (x: Fp)
    requires size > 0
    decreases size
  {
    if size == 1 then LeafAt(leaves, offset)
    else
      var half := size / 2;
      h([Subtree(h, leaves, offset, half), Subtree(h, leaves, offset + half, half)])
  }

  function ReferenceRoot(h: Hasher, leaves: seq<Fp>): (x: Fp) {
    Subtree(h, leaves, 0, ComputeDepthAndSize(|leaves|).paddedSize)
  }

  /** The reference on the smallest trees: nothing hashes to zero, one leaf is its own root, left children
      come first, and the missing leaf of three is zero. */
  lemma SmallestTrees(h: Hasher, a: Fp, b: Fp, c: Fp)
    ensures ReferenceRoot(h, []) == 0 && ReferenceRoot(h, [a]) == a && ReferenceRoot(h, [a, b]) == h([a, b])
    ensures ReferenceRoot(h, [a, b, c]) == h([h([a, b]), h([c, 0])])
  {
    assert ComputeDepthAndSize(2).paddedSize == 2;
    assert NextPowerOfTwo(3) == 4;
    assert Subtree(h, [a, b, c], 0, 2) == h([a, b]) && Subtree(h, [a, b, c], 2, 2) == h([c, 0]);
  }

  /** Node `i` of the layer `height` edges above the leaves. */
  function Node(h: Hasher, leaves: seq<Fp>, height: nat, i: nat): (x: Fp)
    decreases height
  {
    if height == 0 then LeafAt(leaves, i)
    else h([Node(h, leaves, height - 1, 2 * i), Node(h, leaves, height - 1, 2 * i + 1)])
  }

  lemma {:induction false} SubtreeIsNode(h: Hasher, leaves: seq<Fp>, height: nat, i: nat, offset: nat)
    requires offset == i * Pow2(height)
    ensures Subtree(h, leaves, offset, Pow2(height)) == Node(h, leaves, height, i)
    decreases height
  {
    if height > 0 {
      var half := Pow2(height - 1);
      assert offset == (2 * i) * half && offset + half == (2 * i + 1) * half by {
        assert i * (2 * half) == (2 * i) * half;
      }
      SubtreeIsNode(h, leaves, height - 1, 2 * i, offset);
      SubtreeIsNode(h, leaves, height - 1, 2 * i + 1, offset + half);
      assert Pow2(height) / 2 == half;
    }
  }

  lemma ReferenceRootIsTopNode(h: Hasher, leaves: seq<Fp>)
    ensures ReferenceRoot(h, leaves) == Node(h, leaves, ComputeDepthAndSize(|leaves|).depth, 0)
  {
    var s := ComputeDepthAndSize(|leaves|);
    DepthAndSizeAreLeast(|leaves|);
    SubtreeIsNode(h, leaves, s.depth, 0, 0);
  }

  // ---- dummies --------------------------------------------------------------------------------

  function ZeroHash(h: Hasher, height: nat): (x: Fp) {
    if height == 0 then 0 else h([ZeroHash(h, height - 1), ZeroHash(h, height - 1)])
  }

  /** A precomputed table of zero hashes, as `calculate_zeros` fills it. */
  ghost predicate IsZeroTable(h: Hasher, zeros: seq<Fp>) {
    forall k | 0 <= k < |zeros| :: zeros[k] == ZeroHash(h, k)
  }

  /** Nodes of a layer that have a real leaf below them: halved, rounding up, at every level. */
  function Live(n: nat, height: nat): (m: nat) {
    if height == 0 then n else (Live(n, height - 1) + 1) / 2
  }

  lemma {:induction false} DummyNode(h: Hasher, leaves: seq<Fp>, height: nat, i: nat)
    requires i >= Live(|leaves|, height)
    ensures Node(h, leaves, height, i) == ZeroHash(h, height)
    decreases height
  {
    if height > 0 {
      DummyNode(h, leaves, height - 1, 2 * i);
      DummyNode(h, leaves, height - 1, 2 * i + 1);
    }
  }

  /** The padded tree over no leaves at all, at any depth, is the zero hash of that depth. */
  lemma EmptyTreeIsZeroHash(h: Hasher, depth: nat)
    ensures Subtree(h, [], 0, Pow2(depth)) == ZeroHash(h, depth)
  {
    SubtreeIsNode(h, [], depth, 0, 0);
    LiveOfNothing(depth);
    DummyNode(h, [], depth, 0);
  }

  lemma {:induction false} LiveOfNothing(height: nat)
    ensures Live(0, height) == 0
  {
    if height > 0 {
      LiveOfNothing(height - 1);
    }
  }

  /** A hash and a depth at which the tree over no leaves is not zero. */
  lemma EmptyTreeNeedNotBeZero()
    ensures Subtree(_ => 1, [], 0, Pow2(1)) == 1
  {
    EmptyTreeIsZeroHash(_ => 1, 1);
  }

  /** One parent computed the fast way from the layer below it. */
  function FastParent(h: Hasher, layer: seq<Fp>, live: nat, zero: Fp, i: nat): (x: Fp)
    requires 2 * i + 1 < |layer|
  {
    if 2 * i >= live then zero else h([layer[2 * i], layer[2 * i + 1]])
  }

  ghost predicate IsLayer(h: Hasher, leaves: seq<Fp>, height: nat, layer: seq<Fp>) {
    forall i | 0 <= i < |layer| :: layer[i] == Node(h, leaves, height, i)
  }

  /** The shortcut is exact: one fast parent of a true layer is the true parent. */
  lemma FastParentIsNode(h: Hasher, leaves: seq<Fp>, zeros: seq<Fp>, height: nat, layer: seq<Fp>, i: nat)
    requires IsLayer(h, leaves, height, layer) && 2 * i + 1 < |layer|
    requires IsZeroTable(h, zeros) && height + 1 < |zeros|
    ensures FastParent(h, layer, Live(|leaves|, height), zeros[height + 1], i) == Node(h, leaves, height + 1, i)
  {
    if 2 * i >= Live(|leaves|, height) {
      DummyNode(h, leaves, height + 1, i);
    }
  }

  // ---- paths ----------------------------------------------------------------------------------

  /** Position of the ancestor of leaf `index` in the layer at `height`. */
  function Position(index: nat, height: nat): (p: nat) {
    if height == 0 then index else Position(index, height - 1) / 2
  }

  /** `index ^ 1`. */
  function Flip(i: nat): (j: nat) {
    if i % 2 == 1 then i - 1 else i + 1
  }

  lemma {:induction false} PositionInLayer(index: nat, height: nat, depth: nat)
    requires height <= depth && index < Pow2(depth)
    ensures Position(index, height) < Pow2(depth - height)
    ensures height < depth ==> Flip(Position(index, height)) < Pow2(depth - height)
  {
    if height > 0 {
      PositionInLayer(index, height - 1, depth);
    }
  }

  lemma DivTwice(n: nat, d: nat)
    requires d > 0
    ensures n / d / 2 == n / (2 * d)
  {
    var q, r := n / d, n % d;
    var half := q / 2;
    assert n == d * q + r;
    if q % 2 == 0 {
      assert d * q == (2 * d) * half by {
        assert q == 2 * half;
      }
      DivUnique(n, 2 * d, half, r);
    } else {
      assert d * q == (2 * d) * half + d by {
        assert q == 2 * half + 1;
      }
      DivUnique(n, 2 * d, half, d + r);
    }
  }

  /** The sibling of the ancestor of leaf `index` at `height`. */
  function SiblingAt(h: Hasher, leaves: seq<Fp>, index: nat, height: nat): (x: Fp) {
    Node(h, leaves, height, Flip(Position(index, height)))
  }

  /** The siblings of the ancestors of leaf `index`, from the leaf layer up. */
  function SiblingPath(h: Hasher, leaves: seq<Fp>, depth: nat, index: nat): (path: seq<Fp>)
    ensures |path| == depth
  {
    seq(depth, k requires 0 <= k < depth => SiblingAt(h, leaves, index, k))
  }

  ghost predicate IsPathPrefix(h: Hasher, leaves: seq<Fp>, index: nat, path: seq<Fp>) {
    forall k | 0 <= k < |path| :: path[k] == SiblingAt(h, leaves, index, k)
  }

  lemma PathPrefixGrows(h: Hasher, leaves: seq<Fp>, index: nat, path: seq<Fp>)
    requires IsPathPrefix(h, leaves, index, path)
    ensures IsPathPrefix(h, leaves, index, path + [SiblingAt(h, leaves, index, |path|)])
  {
  }

  lemma WholePrefixIsPath(h: Hasher, leaves: seq<Fp>, depth: nat, index: nat, path: seq<Fp>)
    requires IsPathPrefix(h, leaves, index, path) && |path| == depth
    ensures path == SiblingPath(h, leaves, depth, index)
  {
  }

  function Joined(x: Fp, sibling: Fp, index: nat): (pair: seq<Fp>)
    ensures |pair| == 2
  {
    if index % 2 == 1 then [sibling, x] else [x, sibling]
  }

  /** Hashes upward from `x`, taking one sibling and one index bit per level. */
  function Climb(h: Hasher, x: Fp, index: nat, path: seq<Fp>): (root: Fp)
    decreases |path|
  {
    if path == [] then x else Climb(h, h(Joined(x, path[0], index)), index / 2, path[1..])
  }

  /** One level of the climb along the rest of a path. */
  lemma ClimbStep(h: Hasher, x: Fp, index: nat, path: seq<Fp>, level: nat)
    requires level < |path|
    ensures Climb(h, x, index, path[level..])
         == Climb(h, h(Joined(x, path[level], index)), index / 2, path[level + 1..])
  {
    assert path[level..][1..] == path[level + 1..];
  }

  /** Shifting an index right once per level finds the ancestor's position. */
  lemma {:induction false} ShiftIsPosition(index: nat, level: nat)
    ensures index / Pow2(level) == Position(index, level)
  {
    if level > 0 {
      ShiftIsPosition(index, level - 1);
      DivTwice(index, Pow2(level - 1));
    }
  }

  lemma JoinedIsChildren(h: Hasher, leaves: seq<Fp>, height: nat, i: nat)
    ensures h(Joined(Node(h, leaves, height, i), Node(h, leaves, height, Flip(i)), i))
         == Node(h, leaves, height + 1, i / 2)
  {
    assert i == 2 * (i / 2) + i % 2;
  }

  lemma {:induction false} ClimbFromHeight(h: Hasher, leaves: seq<Fp>, depth: nat, index: nat, height: nat)
    requires height <= depth
    ensures Climb(h, Node(h, leaves, height, Position(index, height)), Position(index, height),
                  SiblingPath(h, leaves, depth, index)[height..])
         == Node(h, leaves, depth, Position(index, depth))
    decreases depth - height
  {
    var path := SiblingPath(h, leaves, depth, index);
    if height < depth {
      ClimbFromHeight(h, leaves, depth, index, height + 1);
      assert path[height..][1..] == path[height + 1..];
      assert path[height..][0] == Node(h, leaves, height, Flip(Position(index, height)));
      JoinedIsChildren(h, leaves, height, Position(index, height));
    }
  }

  /** Completeness of paths: every leaf position below the padded size, dummies included, climbs to
      the root along its sibling path. */
  lemma PathClimbsToRoot(h: Hasher, leaves: seq<Fp>, depth: nat, index: nat)
    requires index < Pow2(depth)
    ensures Climb(h, LeafAt(leaves, index), index, SiblingPath(h, leaves, depth, index))
         == Node(h, leaves, depth, 0)
  {
    ClimbFromHeight(h, leaves, depth, index, 0);
    PositionInLayer(index, depth, depth);
    var path := SiblingPath(h, leaves, depth, index);
    assert path[0..] == path;
  }

  /** At the computed depth, every leaf climbs to the reference root. */
  lemma LeafClimbsToReference(h: Hasher, leaves: seq<Fp>, i: nat)
    requires i < |leaves|
    ensures Climb(h, leaves[i], i, SiblingPath(h, leaves, ComputeDepthAndSize(|leaves|).depth, i))
         == ReferenceRoot(h, leaves)
  {
    DepthAndSizeAreLeast(|leaves|);
    PathClimbsToRoot(h, leaves, ComputeDepthAndSize(|leaves|).depth, i);
    ReferenceRootIsTopNode(h, leaves);
  }
}
