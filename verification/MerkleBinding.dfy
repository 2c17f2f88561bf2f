/** What a committed root binds. Poseidon is not assumed injective: each result says "the data are
    the same, or here are two different inputs with the same hash", and computes the two inputs. */
module MerkleBinding {
  import opened ByteCodec
  import opened RequestLeaf
  import opened MerkleTree

  datatype Collision = Collision(left: seq<Fp>, right: seq<Fp>)

  predicate Collides(h: Hasher, c: Collision) {
    c.left != c.right && h(c.left) == h(c.right)
  }

  /** The two trees agree on every leaf below node `i` of the layer at `height`. */
  ghost predicate SameBelow(a: seq<Fp>, b: seq<Fp>, height: nat, i: nat) {
    forall j: nat | Position(j, height) == i :: LeafAt(a, j) == LeafAt(b, j)
  }

  function Children(h: Hasher, leaves: seq<Fp>, height: nat, i: nat): (pair: seq<Fp>)
    requires height > 0
    ensures h(pair) == Node(h, leaves, height, i)
  {
    [Node(h, leaves, height - 1, 2 * i), Node(h, leaves, height - 1, 2 * i + 1)]
  }

  lemma SameBelowBoth(a: seq<Fp>, b: seq<Fp>, height: nat, i: nat)
    requires height > 0 && SameBelow(a, b, height - 1, 2 * i) && SameBelow(a, b, height - 1, 2 * i + 1)
    ensures SameBelow(a, b, height, i)
  {
  }

  /** Descends two trees with equal nodes until their children differ, which is a collision. */
  function FindTreeCollision(h: Hasher, a: seq<Fp>, b: seq<Fp>, height: nat, i: nat): (r: Option<Collision>)
    requires Node(h, a, height, i) == Node(h, b, height, i)
    ensures r.Some? ==> Collides(h, r.value)
    ensures r.None? ==> SameBelow(a, b, height, i)
    decreases height
  {
    if height == 0 then None
    else if Children(h, a, height, i) != Children(h, b, height, i) then
      Some(Collision(Children(h, a, height, i), Children(h, b, height, i)))
    else
      assert Children(h, a, height, i)[0] == Children(h, b, height, i)[0];
      assert Children(h, a, height, i)[1] == Children(h, b, height, i)[1];
      match FindTreeCollision(h, a, b, height - 1, 2 * i)
      case Some(c) => Some(c)
      case None =>
        match FindTreeCollision(h, a, b, height - 1, 2 * i + 1)
        case Some(c) => Some(c)
        case None => SameBelowBoth(a, b, height, i); None
  }

  lemma LeafPositions(leaves: seq<Fp>, depth: nat, j: nat)
    requires |leaves| <= Pow2(depth) && j < |leaves|
    ensures Position(j, depth) == 0
  {
    PositionInLayer(j, depth, depth);
  }

  /** Two leaf vectors of one length with the same root are the same vector, or a collision. */
  function FindLeafCollision(h: Hasher, a: seq<Fp>, b: seq<Fp>): (r: Option<Collision>)
    requires |a| == |b| && ReferenceRoot(h, a) == ReferenceRoot(h, b)
    ensures r.Some? ==> Collides(h, r.value)
    ensures r.None? ==> a == b
  {
    var depth := ComputeDepthAndSize(|a|).depth;
    DepthAndSizeAreLeast(|a|);
    ReferenceRootIsTopNode(h, a);
    ReferenceRootIsTopNode(h, b);
    var r := FindTreeCollision(h, a, b, depth, 0);
    assert r.None? ==> a == b by {
      if r.None? {
        forall j: nat | j < |a|
          ensures a[j] == b[j]
        {
          LeafPositions(a, depth, j);
          assert LeafAt(a, j) == LeafAt(b, j);
        }
      }
    }
    r
  }

  /** Requests whose leaves agree are equal, or two packed inputs collide. */
  function FindPackingCollision(h: Hasher, xs: seq<Request>, ys: seq<Request>): (r: Option<Collision>)
    requires |xs| == |ys| && Leaves(h, xs) == Leaves(h, ys)
    ensures r.Some? ==> Collides(h, r.value)
    ensures r.None? ==> xs == ys
  {
    if xs == [] then None
    else
      var n := |xs| - 1;
      assert Leaves(h, xs)[n] == Leaves(h, ys)[n];
      if xs[n] != ys[n] then
        assert UnpackRequest(LeafInput(xs[n])) != UnpackRequest(LeafInput(ys[n]));
        Some(Collision(LeafInput(xs[n]), LeafInput(ys[n])))
      else
        assert Leaves(h, xs[..n]) == Leaves(h, xs)[..n] == Leaves(h, ys)[..n] == Leaves(h, ys[..n]);
        var r := FindPackingCollision(h, xs[..n], ys[..n]);
        assert xs == xs[..n] + [xs[n]] && ys == ys[..n] + [ys[n]];
        r
  }

  /** Binding of a committed batch: two request lists of one length with the same root are the same
      list, or the extraction returns two different Poseidon inputs with the same hash. */
  function FindRequestCollision(h: Hasher, xs: seq<Request>, ys: seq<Request>): (r: Option<Collision>)
    requires |xs| == |ys| && ReferenceRoot(h, Leaves(h, xs)) == ReferenceRoot(h, Leaves(h, ys))
    ensures r.Some? ==> Collides(h, r.value)
    ensures r.None? ==> xs == ys
  {
    match FindLeafCollision(h, Leaves(h, xs), Leaves(h, ys))
    case Some(c) => Some(c)
    case None => FindPackingCollision(h, xs, ys)
  }

  lemma JoinedDetermines(x: Fp, s: Fp, y: Fp, t: Fp, index: nat)
    requires Joined(x, s, index) == Joined(y, t, index)
    ensures x == y && s == t
  {
  }

  lemma PathSplits(h: Hasher, leaves: seq<Fp>, depth: nat, index: nat, height: nat)
    requires height < depth
    ensures SiblingPath(h, leaves, depth, index)[height..]
         == [SiblingAt(h, leaves, index, height)] + SiblingPath(h, leaves, depth, index)[height + 1..]
  {
  }

  /** Binding of one path: whatever leaf and siblings climb to the root of a tree at `index` are the
      tree's own, or a collision. */
  function FindPathCollision(h: Hasher, leaves: seq<Fp>, depth: nat, index: nat, height: nat, x: Fp, path: seq<Fp>)
    : (r: Option<Collision>)
    requires height + |path| == depth
    requires Climb(h, x, Position(index, height), path) == Node(h, leaves, depth, Position(index, depth))
    ensures r.Some? ==> Collides(h, r.value)
    ensures r.None? ==> x == Node(h, leaves, height, Position(index, height))
    ensures r.None? ==> path == SiblingPath(h, leaves, depth, index)[height..]
    decreases |path|
  {
    if path == [] then None
    else
      var position := Position(index, height);
      var mine := Joined(x, path[0], position);
      var theirs := Joined(Node(h, leaves, height, position), SiblingAt(h, leaves, index, height), position);
      JoinedIsChildren(h, leaves, height, position);
      match FindPathCollision(h, leaves, depth, index, height + 1, h(mine), path[1..])
      case Some(c) => Some(c)
      case None =>
        if mine != theirs then Some(Collision(mine, theirs))
        else
          JoinedDetermines(x, path[0], Node(h, leaves, height, position), SiblingAt(h, leaves, index, height),
                           position);
          PathSplits(h, leaves, depth, index, height);
          assert path == [path[0]] + path[1..];
          None
  }
}
