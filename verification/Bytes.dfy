/** Bytes, machine widths and little-endian integers, shared by the encodings below. */
module Bytes {

  type byte = x: int | 0 <= x < 256
  type u16 = x: int | 0 <= x < 0x1_0000
  type u64 = x: int | 0 <= x < 0x1_0000_0000_0000_0000

  /** Width in bytes of a 64-bit length field. */
  const U64_BYTES: nat := 8

  const U16_SIZE: nat := 0x1_0000
  const U32_SIZE: nat := 0x1_0000_0000
  const U64_SIZE: nat := 0x1_0000_0000_0000_0000
  const U64_MAX: u64 := 0xFFFF_FFFF_FFFF_FFFF

  function Repeat<T>(b: T, n: nat): (s: seq<T>)
    ensures |s| == n && forall i :: 0 <= i < n ==> s[i] == b
  {
    if n == 0 then [] else [b] + Repeat(b, n - 1)
  }

  /** A 32-byte digest, identifier or commitment. */
  type Digest = b: seq<byte> | |b| == 32 witness Repeat(0, 32)

  const ZERO_DIGEST: Digest := Repeat(0, 32)

  /** The hash function is abstract. None is injective on all byte strings, so freedom from
      collisions is asked only of the finitely many preimages that a statement compares. */
  ghost predicate CollisionFreeOn(hash: seq<byte> -> Digest, preimages: set<seq<byte>>) {
    forall a, b :: a in preimages && b in preimages && hash(a) == hash(b) ==> a == b
  }

  function Pow256(n: nat): (p: nat)
    ensures p >= 1
  {
    if n == 0 then 1 else 256 * Pow256(n - 1)
  }

  /** The low `width` bytes of `v`, least significant first. */
  function ToLe(v: nat, width: nat): (b: seq<byte>)
    ensures |b| == width
    decreases v, width
  {
    if width == 0 then [] else [v % 256] + ToLe(v / 256, width - 1)
  }

  function FromLe(b: seq<byte>): nat {
    if b == [] then 0 else b[0] + 256 * FromLe(b[1..])
  }

  /** Encoding then decoding loses nothing that fits in the width. */
  lemma {:induction false} LeRoundTrip(v: nat, width: nat)
    requires v < Pow256(width)
    ensures FromLe(ToLe(v, width)) == v
    decreases width
  {
    if width > 0 {
      LeRoundTrip(v / 256, width - 1);
      assert ToLe(v, width)[1..] == ToLe(v / 256, width - 1);
    }
  }

  lemma FirstByteSplits(low: byte, high: nat)
    ensures (low + 256 * high) % 256 == low && (low + 256 * high) / 256 == high
  {
  }

  lemma {:induction false} LeBound(b: seq<byte>)
    ensures FromLe(b) < Pow256(|b|)
  {
    if b != [] {
      LeBound(b[1..]);
    }
  }

  /** Decoding then encoding at the same width gives the same bytes back. */
  lemma {:induction false} LeCanonical(b: seq<byte>)
    ensures FromLe(b) < Pow256(|b|)
    ensures ToLe(FromLe(b), |b|) == b
  {
    hide Pow256;
    LeBound(b);
    if b != [] {
      LeCanonical(b[1..]);
      FirstByteSplits(b[0], FromLe(b[1..]));
      assert b == [b[0]] + b[1..];
    }
  }

  lemma LeInjective(v: nat, w: nat, width: nat)
    requires v < Pow256(width) && w < Pow256(width)
    requires ToLe(v, width) == ToLe(w, width)
    ensures v == w
  {
    LeRoundTrip(v, width);
    LeRoundTrip(w, width);
  }

  lemma CollisionFreeOnSubset(hash: seq<byte> -> Digest, some: set<seq<byte>>, all: set<seq<byte>>)
    requires CollisionFreeOn(hash, all) && some <= all
    ensures CollisionFreeOn(hash, some)
  {
  }

  /** Different numbers below `bound` for all of `s`. */
  ghost predicate Numbers<T>(index: map<T, nat>, s: set<T>, bound: nat) {
    && index.Keys == s
    && (forall a :: a in s ==> index[a] < bound)
    && (forall a, b :: a in s && b in s && index[a] == index[b] ==> a == b)
  }

  lemma NumberOneMore<T>(index: map<T, nat>, s: set<T>, bound: nat, x: T)
    requires Numbers(index, s, bound) && x !in s
    ensures Numbers(index[x := bound], s + {x}, bound + 1)
  {
  }

  lemma TakeOut<T>(s: set<T>, more: set<T>, x: T)
    requires x in more && s !! more
    ensures x !in s && s + {x} !! more - {x} && s + {x} + (more - {x}) == s + more
    ensures |more| == |more - {x}| + 1
  {
  }

  ghost predicate Keeps<T>(joint: map<T, nat>, index: map<T, nat>, s: set<T>) {
    forall a :: a in s ==> a in joint && a in index && joint[a] == index[a]
  }

  lemma KeepsFewer<T>(joint: map<T, nat>, index: map<T, nat>, s: set<T>, bound: nat, x: T, n: nat)
    requires Numbers(index, s, bound) && x !in s && Keeps(joint, index[x := n], s + {x})
    ensures Keeps(joint, index, s)
  {
  }

  lemma KeepsItself<T>(index: map<T, nat>, s: set<T>, bound: nat)
    requires Numbers(index, s, bound)
    ensures Keeps(index, index, s) && s + {} == s
  {
  }

  /** Any numbering can be extended. */
  lemma {:induction false} Renumber<T>(index: map<T, nat>, s: set<T>, bound: nat, more: set<T>)
    returns (joint: map<T, nat>)
    requires Numbers(index, s, bound) && s !! more
    ensures Numbers(joint, s + more, bound + |more|) && Keeps(joint, index, s)
    decreases |more|
  {
    hide Numbers, Keeps;
    if more == {} {
      joint := index;
      KeepsItself(index, s, bound);
    } else {
      var x :| x in more;
      TakeOut(s, more, x);
      NumberOneMore(index, s, bound, x);
      joint := Renumber(index[x := bound], s + {x}, bound + 1, more - {x});
      KeepsFewer(joint, index, s, bound, x, bound);
    }
  }

  lemma Enumerate<T>(s: set<T>) returns (index: map<T, nat>)
    ensures Numbers(index, s, |s|)
  {
    index := Renumber(map[], {}, 0, s);
    assert {} + s == s;
  }

  /** A hash that spells out the number. */
  function Numbered(index: map<seq<byte>, nat>): seq<byte> -> Digest {
    x => if x in index then ToLe(index[x], 32) else ZERO_DIGEST
  }

  lemma NumberedApart(index: map<seq<byte>, nat>, s: set<seq<byte>>, bound: nat)
    requires Numbers(index, s, bound) && bound <= Pow256(32)
    ensures CollisionFreeOn(Numbered(index), s)
  {
    hide ToLe, Pow256;
    forall a, b | a in s && b in s && Numbered(index)(a) == Numbered(index)(b) ensures a == b {
      LeInjective(index[a], index[b], 32);
    }
  }

  /** The hypothesis can be met: for any preimages, as many as there are digests, some hash keeps
      them all apart. */
  lemma CollisionFreeOnCanBeMet(preimages: set<seq<byte>>) returns (hash: seq<byte> -> Digest)
    requires |preimages| <= Pow256(32)
    ensures CollisionFreeOn(hash, preimages)
  {
    hide CollisionFreeOn, Numbered, Numbers;
    var index := Enumerate(preimages);
    NumberedApart(index, preimages, |preimages|);
    hash := Numbered(index);
  }

  ghost predicate AgreeOn(h: seq<byte> -> Digest, g: seq<byte> -> Digest, s: set<seq<byte>>) {
    forall x :: x in s ==> h(x) == g(x)
  }

  /** Which further preimages there are depends on the digests of the inner ones alone, and they are
      never more than there are digests left. */
  ghost predicate Layered(inner: set<seq<byte>>, outer: (seq<byte> -> Digest) -> set<seq<byte>>) {
    && (forall h, g :: AgreeOn(h, g, inner) ==> outer(h) == outer(g))
    && (forall h :: |inner| + |outer(h)| <= Pow256(32))
  }

  lemma LayeredAt(inner: set<seq<byte>>, outer: (seq<byte> -> Digest) -> set<seq<byte>>,
                  h: seq<byte> -> Digest, g: seq<byte> -> Digest)
    requires Layered(inner, outer)
    ensures |inner| + |outer(h)| <= Pow256(32)
    ensures AgreeOn(h, g, inner) ==> outer(h) == outer(g)
  {
  }

  lemma NumberedAgree(joint: map<seq<byte>, nat>, index: map<seq<byte>, nat>, s: set<seq<byte>>)
    requires Keeps(joint, index, s)
    ensures AgreeOn(Numbered(joint), Numbered(index), s)
  {
  }

  /** It can be met also where digests are hashed again: some preimages are fixed, and which others
      there are depends on the digests of those. */
  lemma CollisionFreeInLayers(inner: set<seq<byte>>, outer: (seq<byte> -> Digest) -> set<seq<byte>>)
    returns (hash: seq<byte> -> Digest)
    requires Layered(inner, outer)
    ensures CollisionFreeOn(hash, inner + outer(hash))
  {
    hide CollisionFreeOn, Pow256, Layered, AgreeOn, Numbered, Numbers, Keeps, ToLe;
    var index := Enumerate(inner);
    var first := Numbered(index);
    var more := outer(first) - inner;
    SubsetSize(more, outer(first));
    var joint := Renumber(index, inner, |inner|, more);
    hash := Numbered(joint);
    NumberedAgree(joint, index, inner);
    LayeredAt(inner, outer, first, first);
    LayeredAt(inner, outer, hash, first);
    NumberedApart(joint, inner + more, |inner| + |more|);
    assert inner + outer(hash) == inner + more;
  }

  lemma SubsetSize<T>(a: set<T>, b: set<T>)
    requires a <= b
    ensures |a| <= |b|
  {
    assert b == a + (b - a);
  }

  lemma ManyDigests()
    ensures Pow256(32) >= 256
  {
    assert Pow256(32) == 256 * Pow256(31);
  }

  lemma Pow256Values()
    ensures Pow256(1) == 0x100
    ensures Pow256(2) == U16_SIZE
    ensures Pow256(U64_BYTES) == U64_SIZE
  {
    assert Pow256(1) == 256 * Pow256(0);
    assert Pow256(2) == 256 * Pow256(1);
    assert Pow256(3) == 256 * Pow256(2);
    assert Pow256(4) == 256 * Pow256(3);
    assert Pow256(5) == 256 * Pow256(4);
    assert Pow256(6) == 256 * Pow256(5);
    assert Pow256(7) == 256 * Pow256(6);
    assert Pow256(8) == 256 * Pow256(7);
  }
}
