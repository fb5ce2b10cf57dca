/** Domain-separated hashing: the preimage layout of `tagged_hash` and what it guarantees. */
module TaggedHash {
  import opened Bytes

  /** A Rust slice or Go slice: its length always fits the 64-bit length field. */
  type Slice = b: seq<byte> | |b| < U64_SIZE witness []

  function EncodeParts(parts: seq<Slice>): seq<byte> {
    if parts == [] then []
    else ToLe(|parts[0]|, U64_BYTES) + parts[0] + EncodeParts(parts[1..])
  }

  /** Tag, its length truncated to one byte, then each part behind its 64-bit length. */
  function Preimage(tag: seq<byte>, parts: seq<Slice>): seq<byte> {
    tag + [|tag| % 256] + EncodeParts(parts)
  }

  /** The tags the program uses: printable ASCII, shorter than 32 bytes. */
  predicate DomainTag(tag: seq<byte>) {
    |tag| < 32 && forall i :: 0 <= i < |tag| ==> 0x20 <= tag[i] <= 0x7e
  }

  lemma {:induction false} EncodePartsAppend(parts: seq<Slice>, p: Slice)
    ensures EncodeParts(parts + [p]) == EncodeParts(parts) + ToLe(|p|, U64_BYTES) + p
  {
    if parts == [] {
      assert parts + [p] == [p];
      assert [p][1..] == [];
    } else {
      EncodePartsAppend(parts[1..], p);
      assert (parts + [p])[1..] == parts[1..] + [p];
    }
  }

  lemma PreimageExtend(tag: seq<byte>, parts: seq<Slice>, i: nat)
    requires i < |parts|
    ensures Preimage(tag, parts[..i + 1]) == Preimage(tag, parts[..i]) + ToLe(|parts[i]|, U64_BYTES) + parts[i]
  {
    EncodePartsAppend(parts[..i], parts[i]);
    assert parts[..i + 1] == parts[..i] + [parts[i]];
  }

  lemma {:induction false} EncodePartsInjective(a: seq<Slice>, b: seq<Slice>)
    requires EncodeParts(a) == EncodeParts(b)
    ensures a == b
  {
    if a != [] && b != [] {
      var ea, eb := EncodeParts(a), EncodeParts(b);
      assert ea[..8] == ToLe(|a[0]|, U64_BYTES) && eb[..8] == ToLe(|b[0]|, U64_BYTES);
      Pow256Values();
      LeInjective(|a[0]|, |b[0]|, U64_BYTES);
      var n := 8 + |a[0]|;
      assert a[0] == ea[8..n] && b[0] == eb[8..n];
      assert EncodeParts(a[1..]) == ea[n..] && EncodeParts(b[1..]) == eb[n..];
      EncodePartsInjective(a[1..], b[1..]);
      assert a == [a[0]] + a[1..] && b == [b[0]] + b[1..];
    }
  }

  /** With tags of the domain, the first byte below 0x20 is the length byte, so no tag can
      extend another inside an equal preimage. */
  lemma EqualPreimagesTagLength(t: seq<byte>, p: seq<Slice>, u: seq<byte>, q: seq<Slice>)
    requires DomainTag(t) && DomainTag(u)
    requires Preimage(t, p) == Preimage(u, q)
    ensures |t| >= |u|
  {
    hide EncodeParts;
    assert Preimage(t, p)[|t|] == |t|;
    assert forall k :: 0 <= k < |u| ==> Preimage(u, q)[k] == u[k];
  }

  /** Unique decodability: equal preimages come from the same tag and the same parts. */
  lemma PreimageInjective(t: seq<byte>, p: seq<Slice>, u: seq<byte>, q: seq<Slice>)
    requires DomainTag(t) && DomainTag(u)
    ensures Preimage(t, p) == Preimage(u, q) <==> t == u && p == q
  {
    if Preimage(t, p) == Preimage(u, q) {
      EqualPreimagesTagLength(t, p, u, q);
      EqualPreimagesTagLength(u, q, t, p);
      var n := |t|;
      assert t == Preimage(t, p)[..n] && u == Preimage(u, q)[..n];
      assert EncodeParts(p) == Preimage(t, p)[n + 1..];
      assert EncodeParts(q) == Preimage(u, q)[n + 1..];
      EncodePartsInjective(p, q);
    }
  }

  /** The length bound is tight: a printable tag of exactly 32 bytes collides with the tag one
      space longer, because the length byte 0x20 is itself printable. */
  lemma ThirtyTwoByteTagsCollide(t: seq<byte>, p: Slice, z: Slice, empty: Slice)
    requires |t| == 32 && |z| == 24 && empty == []
    requires p == [0] + (ToLe(|z|, U64_BYTES) + z)
    ensures Preimage(t, [p]) == Preimage(t + [0x20], [empty, z])
  {
    var rest := ToLe(|z|, U64_BYTES) + z;
    var zeros := seq(U64_BYTES - 1, _ => 0);
    LeSmall(|p|, U64_BYTES - 1);
    PreimageOne(t, p);
    PreimageEmptyFirst(t + [0x20], empty, z, zeros);
    Regroup(t + [0x20], |p|, zeros, rest);
  }

  lemma PreimageOne(t: seq<byte>, p: Slice)
    ensures Preimage(t, [p]) == t + [|t| % 256] + (ToLe(|p|, U64_BYTES) + p)
  {
    EncodeOne(p);
  }

  lemma PreimageEmptyFirst(t: seq<byte>, empty: Slice, z: Slice, zeros: seq<byte>)
    requires empty == []
    requires zeros == seq(U64_BYTES - 1, _ => 0)
    ensures Preimage(t, [empty, z]) == t + [|t| % 256] + (([0] + zeros) + (ToLe(|z|, U64_BYTES) + z))
  {
    LeSmall(0, U64_BYTES - 1);
    EncodeEmptyFirst(empty, z);
    EncodeOne(z);
  }

  lemma Regroup(h: seq<byte>, k: byte, zeros: seq<byte>, rest: seq<byte>)
    requires forall i :: 0 <= i < |zeros| ==> zeros[i] == 0
    ensures h + (([k] + zeros) + ([0] + rest)) == h + [k] + (([0] + zeros) + rest)
  {
    assert zeros + [0] == [0] + zeros;
    assert ([k] + zeros) + ([0] + rest) == [k] + ((zeros + [0]) + rest);
  }

  lemma EncodeOne(p: Slice)
    ensures EncodeParts([p]) == ToLe(|p|, U64_BYTES) + p
  {
    hide ToLe;
    assert [p][1..] == [] && EncodeParts([]) == [];
    assert (ToLe(|p|, U64_BYTES) + p) + [] == ToLe(|p|, U64_BYTES) + p;
  }

  lemma EncodeEmptyFirst(empty: Slice, z: Slice)
    requires empty == []
    ensures EncodeParts([empty, z]) == ToLe(0, U64_BYTES) + EncodeParts([z])
  {
    assert [empty, z][1..] == [z];
  }

  lemma LeSmall(v: byte, width: nat)
    ensures ToLe(v, width + 1) == [v] + seq(width, _ => 0)
  {
    LeZero(width);
  }

  lemma {:induction false} LeZero(width: nat)
    ensures ToLe(0, width) == seq(width, _ => 0)
  {
    if width > 0 { LeZero(width - 1); }
  }

  /** An incremental hasher: only the concatenation of what it was fed matters. */
  class Sha256 {
    var fed: seq<byte>

    constructor ()
      ensures fed == []
    {
      fed := [];
    }

    method Update(b: seq<byte>)
      modifies this
      ensures fed == old(fed) + b
    {
      fed := fed + b;
    }
  }

  /** The Rust hasher, fed piece by piece. */
  method Hash(hash: seq<byte> -> Digest, tag: seq<byte>, parts: seq<Slice>) returns (d: Digest)
    ensures d == hash(Preimage(tag, parts))
  {
    var h := new Sha256();
    h.Update(tag);
    h.Update([|tag| % 256]);
    for i := 0 to |parts|
      invariant h.fed == Preimage(tag, parts[..i])
    {
      PreimageExtend(tag, parts, i);
      h.Update(ToLe(|parts[i]|, U64_BYTES));
      h.Update(parts[i]);
    }
    assert parts[..|parts|] == parts;
    d := hash(h.fed);
  }

  /** Go's `binary.LittleEndian.PutUint64`: byte i is the value shifted right by 8*i. */
  method PutUint64(ln: array<byte>, v: u64)
    requires ln.Length == U64_BYTES
    modifies ln
    ensures ln[..] == ToLe(v, U64_BYTES)
  {
    for i := 0 to ln.Length
      invariant forall k :: 0 <= k < i ==> ln[k] == ToLe(v, U64_BYTES)[k]
    {
      ln[i] := v / Pow256(i) % 256;
      LeByte(v, U64_BYTES, i);
    }
  }

  lemma {:induction false} LeByte(v: nat, width: nat, i: nat)
    requires i < width
    ensures ToLe(v, width)[i] == v / Pow256(i) % 256
    decreases width
  {
    if i > 0 {
      LeByte(v / 256, width - 1, i - 1);
      DivDiv(v, Pow256(i - 1));
    }
  }

  lemma DivDiv(v: nat, p: nat)
    requires p > 0
    ensures v / 256 / p == v / (256 * p)
  {
    var q := v / 256;
    var r := q / p;
    var low := 256 * (q % p) + v % 256;
    assert v == 256 * (p * r + q % p) + v % 256;
    assert v == (256 * p) * r + low && 0 <= low < 256 * p;
    QuotientUnique(v, 256 * p, r, low);
  }

  lemma QuotientUnique(v: nat, d: nat, r: nat, low: nat)
    requires d > 0 && v == d * r + low && low < d
    ensures v / d == r
  {
    var q := v / d;
    assert v == d * q + v % d;
    MulStep(d, q, r);
    MulStep(d, r, q);
  }

  lemma {:induction false} MulStep(d: nat, a: nat, b: nat)
    ensures a < b ==> d * a + d <= d * b
  {
    if a + 1 < b { MulStep(d, a, b - 1); }
  }

  /** The provider's Go encoder produces the same bytes, hence the same digest. */
  method GoHash(hash: seq<byte> -> Digest, tag: seq<byte>, parts: seq<Slice>) returns (d: Digest)
    ensures d == hash(Preimage(tag, parts))
  {
    var h := new Sha256();
    h.Update(tag);
    h.Update([|tag| % 256]);
    for i := 0 to |parts|
      invariant h.fed == Preimage(tag, parts[..i])
    {
      var ln := new byte[8];
      PutUint64(ln, |parts[i]|);
      PreimageExtend(tag, parts, i);
      h.Update(ln[..]);
      h.Update(parts[i]);
    }
    assert parts[..|parts|] == parts;
    d := hash(h.fed);
  }

  /** Unless their two preimages collide, equal tagged digests come from the same tag and parts. */
  lemma TaggedDigestBinds(hash: seq<byte> -> Digest, t: seq<byte>, p: seq<Slice>, u: seq<byte>, q: seq<Slice>)
    requires CollisionFreeOn(hash, {Preimage(t, p), Preimage(u, q)})
    requires DomainTag(t) && DomainTag(u)
    requires hash(Preimage(t, p)) == hash(Preimage(u, q))
    ensures t == u && p == q
  {
    PreimageInjective(t, p, u, q);
  }

  // ---- The tags in use ----

  function Tag(name: string): (tag: seq<byte>)
    ensures |tag| == |name|
  {
    seq(|name|, i requires 0 <= i < |name| => (name[i] as int) % 256)
  }

  const INNER_QUORUM_TAG := Tag("frost-inner-quorum-v1")
  const LAYERED_QUORUM_TAG := Tag("frost-layered-quorum-v1")
  const INNER_COMMITTEE_TAG := Tag("frost-inner-committee-v1")
  const OUTER_COMMITTEE_TAG := Tag("frost-outer-committee-v1")
  const WORK_RECEIPT_TAG := Tag("work-receipt-v1")
  const REFUND_TAG := Tag("refund-v1")
  const ESCROW_CELL_TAG := Tag("escrow-cell-v1")
  const CLOSE_CHALLENGE_TAG := Tag("close-challenge-v1")

  predicate PrintableName(name: string) {
    |name| < 32 && forall i :: 0 <= i < |name| ==> ' ' <= name[i] <= '~'
  }

  lemma NameInDomain(name: string)
    requires PrintableName(name)
    ensures DomainTag(Tag(name))
  {
  }

  lemma CommitteeTagsInDomain()
    ensures DomainTag(INNER_COMMITTEE_TAG) && DomainTag(OUTER_COMMITTEE_TAG)
  {
    NameInDomain("frost-inner-committee-v1");
    NameInDomain("frost-outer-committee-v1");
  }

  lemma QuorumTagsInDomain()
    ensures DomainTag(INNER_QUORUM_TAG) && DomainTag(LAYERED_QUORUM_TAG)
  {
    NameInDomain("frost-inner-quorum-v1");
    NameInDomain("frost-layered-quorum-v1");
  }

  lemma WorkTagsInDomain()
    ensures DomainTag(WORK_RECEIPT_TAG) && DomainTag(REFUND_TAG)
  {
    NameInDomain("work-receipt-v1");
    NameInDomain("refund-v1");
  }

  lemma EscrowTagsInDomain()
    ensures DomainTag(ESCROW_CELL_TAG) && DomainTag(CLOSE_CHALLENGE_TAG)
  {
    NameInDomain("escrow-cell-v1");
    NameInDomain("close-challenge-v1");
  }

  /** The tags of the operations modelled here. */
  lemma TagsInDomain()
    ensures DomainTag(INNER_QUORUM_TAG) && DomainTag(LAYERED_QUORUM_TAG)
    ensures DomainTag(INNER_COMMITTEE_TAG) && DomainTag(OUTER_COMMITTEE_TAG)
    ensures DomainTag(WORK_RECEIPT_TAG) && DomainTag(REFUND_TAG)
    ensures DomainTag(ESCROW_CELL_TAG) && DomainTag(CLOSE_CHALLENGE_TAG)
  {
    hide Tag, DomainTag;
    QuorumTagsInDomain();
    CommitteeTagsInDomain();
    WorkTagsInDomain();
    EscrowTagsInDomain();
  }
}
