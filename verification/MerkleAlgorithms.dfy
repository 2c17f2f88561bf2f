/** The fast algorithms over the padded tree, in the imperative form of `merkle_poseidon_fixed.rs`,
    each proved against the recursive reference. */
module MerkleAlgorithms {
  import opened RequestLeaf
  import opened MerkleTree

  /** A growable vector of nodes; growing it moves the contents to a new buffer. */
  class NodeVec {
    var items: array<Fp>

    constructor (leaves: seq<Fp>)
      ensures fresh(items) && items[..] == leaves
    {
      items := new Fp[|leaves|](i requires 0 <= i < |leaves| => leaves[i]);
    }

    /** `extend(repeat_n(0, missing))`. */
    method PadTo(size: nat)
      requires items.Length <= size
      modifies this
      ensures fresh(items) && items.Length == size
      ensures forall i | 0 <= i < size :: items[i] == LeafAt(old(items[..]), i)
    {
      var leaves := items[..];
      items := new Fp[size](i => LeafAt(leaves, i));
    }
  }

  /** One level folded leftward in place: parents overwrite the left half of the layer being read. */
  method FoldLevel(h: Hasher, nodes: array<Fp>, parentWidth: nat, live: nat, zero: Fp)
    requires 2 * parentWidth <= nodes.Length
    modifies nodes
    ensures forall i | 0 <= i < parentWidth :: nodes[i] == FastParent(h, old(nodes[..]), live, zero, i)
  {
    ghost var layer := nodes[..];
    for i := 0 to parentWidth
      invariant forall j | 0 <= j < i :: nodes[j] == FastParent(h, layer, live, zero, j)
      invariant forall j | i <= j < nodes.Length :: nodes[j] == layer[j]
    {
      if 2 * i >= live {
        nodes[i] := zero;
      } else {
        nodes[i] := h([nodes[2 * i], nodes[2 * i + 1]]);
      }
    }
  }

  /** Folding a true layer leaves the true parent layer in the left half. */
  lemma FoldedLayer(h: Hasher, leaves: seq<Fp>, zeros: seq<Fp>, height: nat, layer: seq<Fp>, parents: seq<Fp>)
    requires 2 * |parents| <= |layer| && IsZeroTable(h, zeros) && height + 1 < |zeros|
    requires IsLayer(h, leaves, height, layer[..2 * |parents|])
    requires forall i | 0 <= i < |parents| ::
               parents[i] == FastParent(h, layer, Live(|leaves|, height), zeros[height + 1], i)
    ensures IsLayer(h, leaves, height + 1, parents)
  {
    var read := layer[..2 * |parents|];
    forall i | 0 <= i < |parents|
      ensures parents[i] == Node(h, leaves, height + 1, i)
    {
      FastParentIsNode(h, leaves, zeros, height, read, i);
    }
  }

  /** One step of both in-place algorithms: the layer at `level` becomes the layer above it. */
  method FoldTrueLevel(h: Hasher, nodes: array<Fp>, ghost leaves: seq<Fp>, depth: nat, level: nat, live: nat,
                       zeros: seq<Fp>)
    requires 0 < level <= depth < |zeros| && IsZeroTable(h, zeros) && Pow2(level) <= nodes.Length
    requires live == Live(|leaves|, depth - level)
    requires IsLayer(h, leaves, depth - level, nodes[..Pow2(level)])
    modifies nodes
    ensures IsLayer(h, leaves, depth - level + 1, nodes[..Pow2(level - 1)])
  {
    ghost var layer := nodes[..];
    FoldLevel(h, nodes, Pow2(level) / 2, live, zeros[depth + 1 - level]);
    FoldedLayer(h, leaves, zeros, depth - level, layer, nodes[..Pow2(level - 1)]);
  }

  /** The in-place left fold with the zero-hash shortcut returns the root of the recursive padded
      reference, and leaves it in the first cell. An empty vector short-circuits to zero, which is the
      reference exactly when the table's entry for the depth is zero, as it is at depth zero. */
  method FoldMerkleLeft(h: Hasher, vec: NodeVec, paddedSize: nat, depth: nat, zeros: seq<Fp>) returns (root: Fp)
    requires paddedSize == Pow2(depth) && vec.items.Length <= paddedSize
    requires IsZeroTable(h, zeros) && depth < |zeros|
    modifies vec
    ensures old(vec.items.Length) == 0 ==> root == 0 && vec.items == old(vec.items)
    ensures old(vec.items.Length) > 0 ==>
              && root == Subtree(h, old(vec.items[..]), 0, paddedSize)
              && fresh(vec.items) && vec.items.Length == paddedSize && vec.items[0] == root
    ensures root == Subtree(h, old(vec.items[..]), 0, paddedSize) <==> old(vec.items.Length) > 0 || zeros[depth] == 0
  {
    if vec.items.Length == 0 {
      EmptyTreeIsZeroHash(h, depth);
      assert vec.items[..] == [];
      return 0;
    }
    ghost var leaves := vec.items[..];
    var live := vec.items.Length;
    vec.PadTo(paddedSize);
    var nodes := vec.items;
    var level := depth;
    while level > 0
      invariant 0 <= level <= depth && vec.items == nodes && fresh(nodes) && nodes.Length == paddedSize
      invariant Pow2(level) <= nodes.Length
      invariant live == Live(|leaves|, depth - level)
      invariant IsLayer(h, leaves, depth - level, nodes[..Pow2(level)])
    {
      FoldTrueLevel(h, nodes, leaves, depth, level, live, zeros);
      live := (live + 1) / 2;
      level := level - 1;
    }
    SubtreeIsNode(h, leaves, depth, 0, 0);
    root := nodes[0];
  }

  /** One level built by pushing each parent onto a fresh vector. */
  method BuildParentLevel(h: Hasher, childLevel: seq<Fp>, parentWidth: nat, live: nat, zero: Fp)
    returns (parentLevel: seq<Fp>)
    requires 2 * parentWidth <= |childLevel|
    ensures |parentLevel| == parentWidth
    ensures forall i | 0 <= i < parentWidth :: parentLevel[i] == FastParent(h, childLevel, live, zero, i)
  {
    parentLevel := [];
    for i := 0 to parentWidth
      invariant |parentLevel| == i
      invariant forall j | 0 <= j < i :: parentLevel[j] == FastParent(h, childLevel, live, zero, j)
    {
      if 2 * i >= live {
        parentLevel := parentLevel + [zero];
      } else {
        parentLevel := parentLevel + [h([childLevel[2 * i], childLevel[2 * i + 1]])];
      }
    }
  }

  /** Layers `from` and below are the true layers of a tree of the given depth. */
  ghost predicate HoldsLayers(h: Hasher, leaves: seq<Fp>, tree: seq<seq<Fp>>, from: nat) {
    forall l | from <= l < |tree| :: |tree[l]| == Pow2(l) && IsLayer(h, leaves, |tree| - 1 - l, tree[l])
  }

  lemma LayerPlaced(h: Hasher, leaves: seq<Fp>, tree: seq<seq<Fp>>, level: nat, layer: seq<Fp>)
    requires 0 < level < |tree| && HoldsLayers(h, leaves, tree, level)
    requires |layer| == Pow2(level - 1) && IsLayer(h, leaves, |tree| - level, layer)
    ensures HoldsLayers(h, leaves, tree[level - 1 := layer], level - 1)
  {
  }

  /** Builds every layer, root first. Each layer is the true one, so the tree holds the padded leaves
      last and the reference root first. */
  method BuildMerkleTree(h: Hasher, leaves: seq<Fp>, paddedSize: nat, depth: nat, zeros: seq<Fp>)
    returns (tree: seq<seq<Fp>>)
    requires paddedSize == Pow2(depth) && |leaves| <= paddedSize
    requires IsZeroTable(h, zeros) && depth < |zeros|
    ensures |tree| == depth + 1
    ensures HoldsLayers(h, leaves, tree, 0)
    ensures tree[depth] == leaves + seq(paddedSize - |leaves|, _ => 0)
    ensures |tree[0]| == 1 && tree[0][0] == Subtree(h, leaves, 0, paddedSize)
  {
    var padded := leaves + seq(paddedSize - |leaves|, _ => 0);
    var live := |leaves|;
    tree := seq(depth + 1, _ => [])[depth := padded];
    var level := depth;
    while level > 0
      invariant 0 <= level <= depth && |tree| == depth + 1 && tree[depth] == padded
      invariant live == Live(|leaves|, depth - level)
      invariant HoldsLayers(h, leaves, tree, level)
    {
      var childLevel := tree[level];
      var parentLevel := BuildParentLevel(h, childLevel, Pow2(level - 1), live, zeros[depth + 1 - level]);
      assert childLevel[..2 * |parentLevel|] == childLevel;
      FoldedLayer(h, leaves, zeros, depth - level, childLevel, parentLevel);
      live := (live + 1) / 2;
      LayerPlaced(h, leaves, tree, level, parentLevel);
      tree := tree[level - 1 := parentLevel];
      level := level - 1;
    }
    SubtreeIsNode(h, leaves, depth, 0, 0);
  }

  /** Collects the sibling of every ancestor of `index` while folding the same vector in place. */
  method GetMerklePathFromLeaves(h: Hasher, vec: NodeVec, paddedSize: nat, depth: nat, index: nat, zeros: seq<Fp>)
    returns (path: seq<Fp>)
    requires paddedSize == Pow2(depth) && vec.items.Length <= paddedSize && index < paddedSize
    requires IsZeroTable(h, zeros) && depth < |zeros|
    modifies vec
    ensures path == if old(vec.items.Length) == 0 then [] else SiblingPath(h, old(vec.items[..]), depth, index)
    ensures path == SiblingPath(h, old(vec.items[..]), depth, index) <==> old(vec.items.Length) > 0 || depth == 0
  {
    if vec.items.Length == 0 {
      return [];
    }
    ghost var leaves := vec.items[..];
    var live := vec.items.Length;
    vec.PadTo(paddedSize);
    path := CollectSiblings(h, vec.items, leaves, live, depth, index, zeros);
  }

  /** The loop of `GetMerklePathFromLeaves`, on the padded nodes. */
  method CollectSiblings(h: Hasher, nodes: array<Fp>, ghost leaves: seq<Fp>, live: nat, depth: nat, index: nat,
                         zeros: seq<Fp>)
    returns (path: seq<Fp>)
    requires nodes.Length == Pow2(depth) && IsLayer(h, leaves, 0, nodes[..]) && live == |leaves| && index < Pow2(depth)
    requires IsZeroTable(h, zeros) && depth < |zeros|
    modifies nodes
    ensures path == SiblingPath(h, leaves, depth, index)
  {
    path := [];
    var position, nonDummy, level := index, live, depth;
    assert nodes[..Pow2(depth)] == nodes[..];
    while level > 0
      invariant 0 <= level <= depth && Pow2(level) <= nodes.Length && |path| == depth - level
      invariant nonDummy == Live(|leaves|, depth - level)
      invariant IsLayer(h, leaves, depth - level, nodes[..Pow2(level)])
      invariant position == Position(index, depth - level)
      invariant IsPathPrefix(h, leaves, index, path)
    {
      PositionInLayer(index, depth - level, depth);
      var siblingIndex := Flip(position);
      assert nodes[siblingIndex] == nodes[..Pow2(level)][siblingIndex] == SiblingAt(h, leaves, index, |path|);
      PathPrefixGrows(h, leaves, index, path);
      path := path + [nodes[siblingIndex]];
      FoldTrueLevel(h, nodes, leaves, depth, level, nonDummy, zeros);
      position := position / 2;
      nonDummy := (nonDummy + 1) / 2;
      level := level - 1;
    }
    WholePrefixIsPath(h, leaves, depth, index, path);
  }

  predicate PicksSibling(layer: seq<Fp>, position: nat, x: Fp) {
    Flip(position) < |layer| && x == layer[Flip(position)]
  }

  /** Entry `k` of the path is the sibling of the ancestor `k` layers above the leaves. */
  ghost predicate ReadsSiblings(tree: seq<seq<Fp>>, index: nat, path: seq<Fp>) {
    && |path| < |tree|
    && forall k | 0 <= k < |path| :: PicksSibling(tree[|tree| - 1 - k], Position(index, k), path[k])
  }

  /** Reads the siblings out of a built tree by flipping the low bit of the index at each layer. */
  method GetMerklePathFromTree(tree: seq<seq<Fp>>, index: nat) returns (path: seq<Fp>)
    requires |tree| > 0 && (forall l | 0 <= l < |tree| :: |tree[l]| == Pow2(l))
    requires index < Pow2(|tree| - 1)
    ensures |path| == |tree| - 1 && ReadsSiblings(tree, index, path)
  {
    var depth := |tree| - 1;
    path := [];
    var i := index;
    var level := depth;
    while level > 0
      invariant 0 <= level <= depth && |path| == depth - level
      invariant i == Position(index, depth - level)
      invariant ReadsSiblings(tree, index, path)
    {
      PositionInLayer(index, depth - level, depth);
      path := path + [tree[level][Flip(i)]];
      i := i / 2;
      level := level - 1;
    }
  }

  /** The path read from a built tree is the sibling path of its leaves. */
  lemma TreePathIsSiblingPath(h: Hasher, leaves: seq<Fp>, tree: seq<seq<Fp>>, index: nat, path: seq<Fp>)
    requires |tree| > 0 && HoldsLayers(h, leaves, tree, 0)
    requires |path| == |tree| - 1 && ReadsSiblings(tree, index, path)
    ensures path == SiblingPath(h, leaves, |tree| - 1, index)
  {
  }

  /** Recomputes a root from a leaf, the bits of its index and a path. */
  method ComputeMerkleRootFromPath(h: Hasher, leafHash: Fp, index: nat, path: seq<Fp>) returns (root: Fp)
    ensures root == Climb(h, leafHash, index, path)
  {
    root := leafHash;
    assert path[0..] == path;
    for level := 0 to |path|
      invariant Climb(h, leafHash, index, path) == Climb(h, root, Position(index, level), path[level..])
    {
      var bit := (index / Pow2(level)) % 2;
      ShiftIsPosition(index, level);
      ClimbStep(h, root, Position(index, level), path, level);
      root := h(if bit == 1 then [path[level], root] else [root, path[level]]);
    }
  }

  /** Folding and building, at the computed depth, give the reference root for every leaf count. */
  method FoldAndBuild(h: Hasher, leaves: seq<Fp>, zeros: seq<Fp>) returns (root: Fp, tree: seq<seq<Fp>>)
    requires IsZeroTable(h, zeros) && ComputeDepthAndSize(|leaves|).depth < |zeros|
    ensures root == ReferenceRoot(h, leaves)
    ensures |tree| == ComputeDepthAndSize(|leaves|).depth + 1 && HoldsLayers(h, leaves, tree, 0)
    ensures tree[0] == [root]
  {
    DepthAndSizeAreLeast(|leaves|);
    var shape := ComputeDepthAndSize(|leaves|);
    var vec := new NodeVec(leaves);
    root := FoldMerkleLeft(h, vec, shape.paddedSize, shape.depth, zeros);
    tree := BuildMerkleTree(h, leaves, shape.paddedSize, shape.depth, zeros);
  }

  /** The whole life of one leaf: the path taken while folding equals the path read from the built
      tree, and climbing it from the leaf gives the root of both the fold and the build. */
  method MerkleLifecycle(h: Hasher, leaves: seq<Fp>, index: nat, zeros: seq<Fp>)
    returns (root: Fp, recomputed: Fp, foldPath: seq<Fp>, treePath: seq<Fp>)
    requires IsZeroTable(h, zeros) && ComputeDepthAndSize(|leaves|).depth < |zeros|
    requires index < ComputeDepthAndSize(|leaves|).paddedSize
    ensures root == recomputed == ReferenceRoot(h, leaves)
    ensures foldPath == treePath == SiblingPath(h, leaves, ComputeDepthAndSize(|leaves|).depth, index)
  {
    var tree;
    root, tree := FoldAndBuild(h, leaves, zeros);
    DepthAndSizeAreLeast(|leaves|);
    var shape := ComputeDepthAndSize(|leaves|);
    treePath := GetMerklePathFromTree(tree, index);
    TreePathIsSiblingPath(h, leaves, tree, index, treePath);
    var vec := new NodeVec(leaves);
    foldPath := GetMerklePathFromLeaves(h, vec, shape.paddedSize, shape.depth, index, zeros);
    recomputed := ComputeMerkleRootFromPath(h, LeafAt(leaves, index), index, foldPath);
    PathClimbsToRoot(h, leaves, shape.depth, index);
    ReferenceRootIsTopNode(h, leaves);
  }
}
