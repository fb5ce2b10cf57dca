/** The Ironwood commitment tree: a compressed level-by-level builder and the authentication
    paths it yields, against the plain full tree of fixed depth. */
module MerklePath {
  import opened Wrappers
  import opened Bytes

  const DEPTH: nat := 32

  /** The node hash and leaf parser are library code. A commitment and a leaf node parse alike. */
  datatype Hasher<!N> = Hasher(parse: Digest -> Option<N>, uncommitted: N, combine: (nat, N, N) -> N)

  datatype Path<+N> = Path(position: nat, auth: seq<N>)

  datatype PathError = PositionOutOfRange | BadCommitment

  function Pow2(n: nat): (p: nat)
    ensures p >= 1
  {
    if n == 0 then 1 else 2 * Pow2(n - 1)
  }

  /** `x >> n` */
  function Shr(x: nat, n: nat): nat {
    if n == 0 then x else Shr(x, n - 1) / 2
  }

  /** `i ^ 1` */
  function Sibling(i: nat): nat {
    if i % 2 == 0 then i + 1 else i - 1
  }

  /** Root of a subtree of the given height that holds no commitment. */
  function EmptyRoot<N>(h: Hasher<N>, level: nat): N {
    if level == 0 then h.uncommitted
    else h.combine(level - 1, EmptyRoot(h, level - 1), EmptyRoot(h, level - 1))
  }

  function LeafAt<N>(h: Hasher<N>, leaves: seq<N>, i: nat): N {
    if i < |leaves| then leaves[i] else h.uncommitted
  }

  /** Node `i` at a level of the tree whose leaves go on with uncommitted ones for ever. */
  function NodeAt<N>(h: Hasher<N>, leaves: seq<N>, level: nat, i: nat): N
    decreases level, i
  {
    if level == 0 then LeafAt(h, leaves, i)
    else h.combine(level - 1, NodeAt(h, leaves, level - 1, 2 * i), NodeAt(h, leaves, level - 1, 2 * i + 1))
  }

  /** The plain full tree: split the leaves in half, down to single leaves. */
  function FullRoot<N>(h: Hasher<N>, depth: nat, row: seq<N>): N
    requires |row| == Pow2(depth)
    decreases depth, |row|
  {
    if depth == 0 then row[0]
    else
      var half := Pow2(depth - 1);
      h.combine(depth - 1, FullRoot(h, depth - 1, row[..half]), FullRoot(h, depth - 1, row[half..]))
  }

  /** `n` leaves from `from` on, padded with uncommitted ones. */
  function Segment<N>(h: Hasher<N>, leaves: seq<N>, from: nat, n: nat): seq<N> {
    seq(n, k requires 0 <= k < n => LeafAt(h, leaves, from + k))
  }

  /** The commitments padded to a full row with uncommitted leaves. */
  function PaddedRow<N>(h: Hasher<N>, nodes: seq<N>, depth: nat): (row: seq<N>)
    requires |nodes| <= Pow2(depth)
    ensures |row| == Pow2(depth)
  {
    nodes + seq(Pow2(depth) - |nodes|, _ => h.uncommitted)
  }

  /** `anchor` is the root of the full tree of that depth over the padded commitments. */
  ghost predicate FullTreeAnchor<N>(h: Hasher<N>, nodes: seq<N>, depth: nat, anchor: N) {
    |nodes| <= Pow2(depth) && anchor == FullRoot(h, depth, PaddedRow(h, nodes, depth))
  }

  /** The library's path folding: at each level the position bit says which side the node is on. */
  function FoldPath<N>(h: Hasher<N>, position: nat, auth: seq<N>, level: nat, node: N): N
    requires level <= |auth|
    decreases |auth| - level
  {
    if level == |auth| then node
    else
      var up := if Shr(position, level) % 2 == 0
                then h.combine(level, node, auth[level])
                else h.combine(level, auth[level], node);
      FoldPath(h, position, auth, level + 1, up)
  }

  /** A compressed level: its entries are the tree's nodes, and everything to its right is empty. */
  ghost predicate LevelOf<N>(h: Hasher<N>, leaves: seq<N>, level: nat, row: seq<N>) {
    && (forall i: nat :: i < |row| ==> row[i] == NodeAt(h, leaves, level, i))
    && (forall i: nat :: i >= |row| ==> NodeAt(h, leaves, level, i) == EmptyRoot(h, level))
  }

  ghost predicate ParsedAs<N>(h: Hasher<N>, leaves: seq<Digest>, nodes: seq<N>) {
    |nodes| == |leaves| && forall i :: 0 <= i < |leaves| ==> h.parse(leaves[i]) == Some(nodes[i])
  }

  method ParseLeaves<N>(h: Hasher<N>, leaves: seq<Digest>) returns (r: Option<seq<N>>)
    ensures r.Some? ==> ParsedAs(h, leaves, r.value)
    ensures r.None? <==> exists i :: 0 <= i < |leaves| && h.parse(leaves[i]).None?
  {
    var nodes: seq<N> := [];
    for i := 0 to |leaves|
      invariant ParsedAs(h, leaves[..i], nodes)
    {
      var n := h.parse(leaves[i]);
      if n.None? {
        return None;
      }
      nodes := nodes + [n.value];
    }
    r := Some(nodes);
  }

  lemma EmptyBeyond<N>(h: Hasher<N>, leaves: seq<N>, level: nat, up: nat, cur: seq<N>, n: nat)
    requires LevelOf(h, leaves, level, cur) && 2 * n >= |cur| && up == level + 1
    ensures forall i: nat :: i >= n ==> NodeAt(h, leaves, up, i) == EmptyRoot(h, up)
  {
  }

  /** One round of the builder: hash neighbours, with an empty subtree for a missing right one. */
  method NextLevel<N>(h: Hasher<N>, ghost leaves: seq<N>, level: nat, cur: seq<N>) returns (next: seq<N>)
    requires LevelOf(h, leaves, level, cur)
    ensures LevelOf(h, leaves, level + 1, next)
  {
    next := [];
    var p := 0;
    while p < |cur|
      invariant p == 2 * |next| && p <= |cur| + 1
      invariant forall i: nat :: i < |next| ==> next[i] == NodeAt(h, leaves, level + 1, i)
    {
      var left := cur[p];
      var right := if p + 1 < |cur| then cur[p + 1] else EmptyRoot(h, level);
      next := next + [h.combine(level, left, right)];
      p := p + 2;
    }
    EmptyBeyond(h, leaves, level, level + 1, cur, |next|);
  }

  /** The sibling path of one commitment, and the anchor the library folds it to. */
  method MerklePathAt<N>(h: Hasher<N>, leaves: seq<Digest>, pos: nat) returns (r: Result<(Path<N>, N), PathError>)
    ensures r == Err(PositionOutOfRange) <==> pos >= |leaves|
    ensures r == Err(BadCommitment) <==>
            pos < |leaves| && exists i :: 0 <= i < |leaves| && h.parse(leaves[i]).None?
    ensures r.Ok? ==>
              && r.value.0.position == pos % U32_SIZE
              && |r.value.0.auth| == DEPTH
              && forall nodes :: ParsedAs(h, leaves, nodes) ==>
                   && r.value.1 == NodeAt(h, nodes, DEPTH, Shr(pos, DEPTH))
                   && FoldPath(h, r.value.0.position, r.value.0.auth, 0, nodes[pos]) == r.value.1
                   && (|leaves| <= U32_SIZE ==> FullTreeAnchor(h, nodes, DEPTH, r.value.1))
  {
    if pos >= |leaves| {
      return Err(PositionOutOfRange);
    }
    var parsed := ParseLeaves(h, leaves);
    if parsed.None? {
      return Err(BadCommitment);
    }
    var nodes := parsed.value;
    var levels := [nodes];
    for l := 0 to DEPTH
      invariant |levels| == l + 1
      invariant forall k: nat :: k <= l ==> LevelOf(h, nodes, k, levels[k])
    {
      var next := NextLevel(h, nodes, l, levels[l]);
      levels := levels + [next];
    }
    var auth: seq<N> := [];
    for l := 0 to DEPTH
      invariant |auth| == l
      invariant AuthFor(h, nodes, pos, auth)
    {
      var sibling := Sibling(Shr(pos, l));
      assert LevelOf(h, nodes, l, levels[l]);
      auth := auth + [if sibling < |levels[l]| then levels[l][sibling] else EmptyRoot(h, l)];
    }
    var position := pos % U32_SIZE;
    FoldReachesNode(h, nodes, pos, auth, 0);
    TruncatedPositionFoldsAlike(h, pos, auth, nodes[pos]);
    ParseUnique(h, leaves, nodes);
    if |leaves| <= U32_SIZE {
      SameAnchorForEveryPosition(h, nodes, pos, auth);
    }
    r := Ok((Path(position, auth), FoldPath(h, position, auth, 0, nodes[pos])));
  }

  ghost predicate AuthFor<N>(h: Hasher<N>, nodes: seq<N>, pos: nat, auth: seq<N>) {
    forall k: nat :: k < |auth| ==> auth[k] == NodeAt(h, nodes, k, Sibling(Shr(pos, k)))
  }

  lemma ParseUnique<N>(h: Hasher<N>, leaves: seq<Digest>, nodes: seq<N>)
    requires ParsedAs(h, leaves, nodes)
    ensures forall other :: ParsedAs(h, leaves, other) ==> other == nodes
  {
    forall other | ParsedAs(h, leaves, other)
      ensures other == nodes
    {
      assert forall i :: 0 <= i < |leaves| ==> Some(other[i]) == h.parse(leaves[i]) == Some(nodes[i]);
    }
  }

  /** Folding from any level on arrives at the ancestor of the position. */
  lemma {:induction false} FoldReachesNode<N>(h: Hasher<N>, nodes: seq<N>, pos: nat, auth: seq<N>, level: nat)
    requires level <= |auth| && AuthFor(h, nodes, pos, auth)
    ensures FoldPath(h, pos, auth, level, NodeAt(h, nodes, level, Shr(pos, level)))
            == NodeAt(h, nodes, |auth|, Shr(pos, |auth|))
    decreases |auth| - level
  {
    if level < |auth| {
      var i := Shr(pos, level);
      assert Shr(pos, level + 1) == i / 2;
      assert i == 2 * (i / 2) + i % 2;
      FoldReachesNode(h, nodes, pos, auth, level + 1);
    }
  }

  lemma {:induction false} ShrAddMultiple(x: nat, q: nat, w: nat, n: nat)
    requires n <= w
    ensures Shr(x + q * Pow2(w), n) == Shr(x, n) + q * Pow2(w - n)
  {
    if n > 0 {
      ShrAddMultiple(x, q, w, n - 1);
      var m := q * Pow2(w - n);
      assert q * Pow2(w - n + 1) == 2 * m by {
        assert Pow2(w - n + 1) == 2 * Pow2(w - n);
        MulTwice(q, Pow2(w - n));
      }
    }
  }

  lemma MulTwice(q: nat, p: nat)
    ensures q * (2 * p) == 2 * (q * p)
  {
  }

  lemma Pow2Depth()
    ensures Pow2(DEPTH) == U32_SIZE
  {
    Pow2Values(DEPTH - 24);
    Pow2Add(8, 8);
    Pow2Add(16, 16);
  }

  lemma Pow2Values(n: nat)
    requires n == 8
    ensures Pow2(n) == 256
  {
  }

  lemma {:induction false} Pow2Add(a: nat, b: nat)
    ensures Pow2(a + b) == Pow2(a) * Pow2(b)
  {
    if a > 0 { Pow2Add(a - 1, b); }
  }

  lemma SameParity(x: nat, y: nat, m: nat)
    requires x == y + 2 * m
    ensures x % 2 == y % 2
  {
  }

  lemma Pow2Next(n: nat)
    ensures Pow2(n + 1) == 2 * Pow2(n)
  {
  }

  /** Adding a multiple of 2^w leaves each of the low w bits as it was. */
  lemma BitKept(low: nat, q: nat, w: nat, level: nat)
    requires level < w
    ensures Shr(low + q * Pow2(w), level) % 2 == Shr(low, level) % 2
  {
    hide Shr, Pow2;
    var half := Pow2(w - level - 1);
    Pow2Next(w - level - 1);
    ShrAddMultiple(low, q, w, level);
    MulTwice(q, half);
    SameParity(Shr(low + q * Pow2(w), level), Shr(low, level), q * half);
  }

  /** Keeping only the low 32 bits of the position does not change any of the 32 side bits. */
  lemma PositionBitKept(pos: nat, level: nat)
    requires level < DEPTH
    ensures Shr(pos % U32_SIZE, level) % 2 == Shr(pos, level) % 2
  {
    hide Shr, Pow2;
    Pow2Depth();
    assert pos == pos % U32_SIZE + pos / U32_SIZE * U32_SIZE;
    BitKept(pos % U32_SIZE, pos / U32_SIZE, DEPTH, level);
  }

  lemma TruncatedPositionFoldsAlike<N>(h: Hasher<N>, pos: nat, auth: seq<N>, node: N)
    requires |auth| == DEPTH
    ensures FoldPath(h, pos % U32_SIZE, auth, 0, node) == FoldPath(h, pos, auth, 0, node)
  {
    SameBitsFoldAlike(h, pos % U32_SIZE, pos, auth, 0, node);
  }

  lemma {:induction false} SameBitsFoldAlike<N>(h: Hasher<N>, a: nat, b: nat, auth: seq<N>, level: nat, node: N)
    requires |auth| == DEPTH && level <= DEPTH && a == b % U32_SIZE
    ensures FoldPath(h, a, auth, level, node) == FoldPath(h, b, auth, level, node)
    decreases DEPTH - level
  {
    if level < DEPTH {
      PositionBitKept(b, level);
      var up := if Shr(b, level) % 2 == 0
                then h.combine(level, node, auth[level])
                else h.combine(level, auth[level], node);
      SameBitsFoldAlike(h, a, b, auth, level + 1, up);
    }
  }

  /** The bottom-up nodes are exactly the top-down full trees over the matching leaves. */
  lemma {:induction false} NodeIsFullTree<N>(h: Hasher<N>, leaves: seq<N>, level: nat, i: nat)
    ensures NodeAt(h, leaves, level, i)
            == FullRoot(h, level, Segment(h, leaves, i * Pow2(level), Pow2(level)))
    decreases level
  {
    if level > 0 {
      var half := Pow2(level - 1);
      MulTwice(i, half);
      var row := Segment(h, leaves, i * Pow2(level), Pow2(level));
      assert row[..half] == Segment(h, leaves, (2 * i) * half, half) by { assert (2 * i) * half == i * Pow2(level); }
      assert row[half..] == Segment(h, leaves, (2 * i + 1) * half, half) by {
        assert (2 * i + 1) * half == i * Pow2(level) + half;
      }
      NodeIsFullTree(h, leaves, level - 1, 2 * i);
      NodeIsFullTree(h, leaves, level - 1, 2 * i + 1);
    }
  }

  lemma {:induction false} ShrVanishes(x: nat, n: nat)
    ensures Shr(x, n) * Pow2(n) <= x
  {
    if n > 0 {
      ShrVanishes(x, n - 1);
      var s := Shr(x, n - 1);
      assert s / 2 * Pow2(n) == (2 * (s / 2)) * Pow2(n - 1);
      assert (2 * (s / 2)) * Pow2(n - 1) <= s * Pow2(n - 1) by {
        MulMono(2 * (s / 2), s, Pow2(n - 1));
      }
    }
  }

  lemma MulMono(a: nat, b: nat, c: nat)
    requires a <= b
    ensures a * c <= b * c
  {
  }

  /** If the row fits a full tree, every position folds to one anchor: the root of that tree. */
  lemma SameAnchorAtDepth<N>(h: Hasher<N>, nodes: seq<N>, pos: nat, auth: seq<N>)
    requires pos < |nodes| <= Pow2(|auth|) && AuthFor(h, nodes, pos, auth)
    ensures FoldPath(h, pos, auth, 0, nodes[pos]) == FullRoot(h, |auth|, PaddedRow(h, nodes, |auth|))
  {
    var depth := |auth|;
    ShrVanishes(pos, depth);
    if Shr(pos, depth) > 0 { MulMono(1, Shr(pos, depth), Pow2(depth)); }
    FoldReachesNode(h, nodes, pos, auth, 0);
    NodeIsFullTree(h, nodes, depth, 0);
    var row, segment := PaddedRow(h, nodes, depth), Segment(h, nodes, 0 * Pow2(depth), Pow2(depth));
    assert forall k :: 0 <= k < Pow2(depth) ==> segment[k] == LeafAt(h, nodes, k);
    assert row == segment;
  }

  /** With at most 2^32 leaves, the builder's anchor is the root of the depth-32 tree whose leaves
      are the commitments padded with uncommitted ones, whatever the position. */
  lemma SameAnchorForEveryPosition<N>(h: Hasher<N>, nodes: seq<N>, pos: nat, auth: seq<N>)
    requires pos < |nodes| <= U32_SIZE
    requires |auth| == DEPTH && AuthFor(h, nodes, pos, auth)
    ensures FullTreeAnchor(h, nodes, DEPTH, FoldPath(h, pos % U32_SIZE, auth, 0, nodes[pos]))
  {
    Pow2Depth();
    TruncatedPositionFoldsAlike(h, pos, auth, nodes[pos]);
    SameAnchorAtDepth(h, nodes, pos, auth);
  }

  /** Somewhere on the way up, two different pairs of children hash to the same node. */
  ghost predicate Collides<N>(
    h: Hasher<N>, position: nat, auth: seq<N>, other: seq<N>, level: nat, node: N, otherNode: N)
    requires level <= |auth| == |other|
    decreases |auth| - level
  {
    level < |auth| &&
    var left := Shr(position, level) % 2 == 0;
    var up := if left then h.combine(level, node, auth[level]) else h.combine(level, auth[level], node);
    var otherUp :=
      if left then h.combine(level, otherNode, other[level]) else h.combine(level, other[level], otherNode);
    || (up == otherUp && (node != otherNode || auth[level] != other[level]))
    || Collides(h, position, auth, other, level + 1, up, otherUp)
  }

  /** Unless the two folds run into a collision of the node hash, the anchor authenticates the leaf
      and the whole path. */
  lemma {:induction false} AnchorBindsLeafAndPath<N>(
    h: Hasher<N>, position: nat, auth: seq<N>, other: seq<N>, level: nat, node: N, otherNode: N)
    requires level <= |auth| == |other|
    requires FoldPath(h, position, auth, level, node) == FoldPath(h, position, other, level, otherNode)
    ensures || (node == otherNode && auth[level..] == other[level..])
            || Collides(h, position, auth, other, level, node, otherNode)
    decreases |auth| - level
  {
    if level < |auth| {
      var left := Shr(position, level) % 2 == 0;
      var up := if left then h.combine(level, node, auth[level]) else h.combine(level, auth[level], node);
      var otherUp :=
        if left then h.combine(level, otherNode, other[level]) else h.combine(level, other[level], otherNode);
      AnchorBindsLeafAndPath(h, position, auth, other, level + 1, up, otherUp);
      assert auth[level..] == [auth[level]] + auth[level + 1..];
      assert other[level..] == [other[level]] + other[level + 1..];
    }
  }
}
