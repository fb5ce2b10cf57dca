/** Rent accrual from chain heights: `earned = (close - open) * rate`, checked over the integers
    and again in the Pallas base field, and its commitment waist. */
module Accrual {
  import opened Wrappers
  import opened Bytes

  datatype Witness = Witness(openHeight: u64, closeHeight: u64, rate: u64, earned: u64, duration: u64,
                             blinding: Digest, noteId: Digest)

  datatype Public = Public(commitment: Digest, openHeader: Digest, closeHeader: Digest)

  datatype AccrualError = InvertedWindow | ZeroRate | Overflow | HeaderCollision | UnboundCommitment | UnboundNote

  /** The commitment hash, without and with a note id, is library code. */
  datatype Env = Env(commit: (u64, u64, u64, Digest, Digest, Digest) -> Digest,
                     commitNote: (u64, u64, u64, Digest, Digest, Digest, Digest) -> Digest)

  // ---- The Pallas base field ----

  const PALLAS_P: nat := 0x40000000000000000000000000000000224698fc094cf91b992d30ed00000001

  type Fe = x: nat | x < PALLAS_P

  function FieldMul(a: Fe, b: Fe): Fe {
    (a * b) % PALLAS_P
  }

  /** Clear the top two bits of a digest. */
  function PackBytes(b: Digest): Digest {
    b[31 := b[31] % 64]
  }

  /** The packed digest read as a canonical field element; it always fits. */
  function PackHash32(b: Digest): Fe {
    PackedFits(b);
    FromLe(PackBytes(b))
  }

  lemma {:induction false} FromLeSplit(a: seq<byte>, b: seq<byte>)
    ensures FromLe(a + b) == FromLe(a) + Pow256(|a|) * FromLe(b)
  {
    if a == [] {
      assert a + b == b;
    } else {
      FromLeSplit(a[1..], b);
      assert (a + b)[1..] == a[1..] + b;
      MulAssoc(Pow256(|a| - 1), FromLe(b));
    }
  }

  lemma MulAssoc(p: nat, q: nat)
    ensures (256 * p) * q == 256 * (p * q)
  {
  }

  lemma PackedFits(b: Digest)
    ensures FromLe(PackBytes(b)) < PALLAS_P
  {
    var p := PackBytes(b);
    var low, top := p[..31], p[31..];
    assert p == low + top && top == [p[31]];
    assert FromLe(top) == p[31] by { assert top[1..] == []; }
    FromLeSplit(low, top);
    LeCanonical(low);
    Pow256At31(|low|);
    assert Pow256(|low|) * FromLe(top) <= Pow256(|low|) * 63;
  }

  lemma Pow256At31(n: nat)
    requires n == 31
    ensures Pow256(n) == 0x1_00000000_00000000_00000000_00000000_00000000_00000000_00000000_000000
  {
    Pow256Add(8, 8);
    Pow256Add(16, 8);
    Pow256Values();
    Pow256Add(24, 7);
    assert 256 * Pow256(7) == Pow256(8);
  }

  lemma {:induction false} Pow256Add(a: nat, b: nat)
    ensures Pow256(a + b) == Pow256(a) * Pow256(b)
  {
    if a > 0 {
      Pow256Add(a - 1, b);
      MulAssoc(Pow256(a - 1), Pow256(b));
    }
  }

  // ---- The product check ----

  /** A 64-bit value as 32 little-endian bytes. */
  function LeFe(x: u64): Digest {
    ToLe(x, U64_BYTES) + Repeat(0, 24)
  }

  lemma {:induction false} FromLeZeros(n: nat)
    ensures FromLe(Repeat(0, n)) == 0
  {
    if n > 0 {
      FromLeZeros(n - 1);
      assert Repeat(0, n)[1..] == Repeat(0, n - 1);
    }
  }

  lemma PackOfU64(x: u64)
    ensures PackHash32(LeFe(x)) == x
  {
    var b := LeFe(x);
    assert PackBytes(b) == b;
    FromLeSplit(ToLe(x, U64_BYTES), Repeat(0, 24));
    FromLeZeros(24);
    Pow256Values();
    LeRoundTrip(x, U64_BYTES);
  }

  predicate ProductHolds(duration: u64, rate: u64, earned: u64) {
    FieldMul(PackHash32(LeFe(duration)), PackHash32(LeFe(rate))) == PackHash32(LeFe(earned))
  }

  lemma ProductBelowModulus(a: u64, b: u64)
    ensures a * b < PALLAS_P
  {
    MulBound(a, b, U64_SIZE);
  }

  lemma MulBound(a: nat, b: nat, c: nat)
    requires a < c && b < c
    ensures a * b <= c * c
  {
    assert a * b <= a * c && a * c <= c * c;
  }

  /** The field check accepts exactly the integer products: nothing wraps around the modulus. */
  lemma ProductCheckIff(duration: u64, rate: u64, earned: u64)
    ensures ProductHolds(duration, rate, earned) <==> duration * rate == earned
  {
    PackOfU64(duration);
    PackOfU64(rate);
    PackOfU64(earned);
    hide PackHash32, LeFe;
    ProductBelowModulus(duration, rate);
    ProductNonNegative(duration, rate);
    ModSmall(duration * rate);
  }

  lemma ModSmall(x: nat)
    requires x < PALLAS_P
    ensures x % PALLAS_P == x
  {
  }

  // ---- The accrual function ----

  function DurationHeights(open: u64, close: u64): Result<u64, AccrualError> {
    if close <= open then Err(InvertedWindow) else Ok(close - open)
  }

  function CheckedMul(a: u64, b: u64): Option<u64> {
    if a * b < U64_SIZE then ProductNonNegative(a, b); Some(a * b) else None
  }

  lemma ProductNonNegative(a: nat, b: nat)
    ensures a * b >= 0
  {
  }

  function F(open: u64, close: u64, rate: u64): Result<u64, AccrualError> {
    if rate == 0 then Err(ZeroRate)
    else
      match DurationHeights(open, close)
      case Err(e) => Err(e)
      case Ok(d) =>
        match CheckedMul(d, rate)
        case None => Err(Overflow)
        case Some(earned) =>
          if ProductHolds(d, rate, earned) then Ok(earned) else Err(UnboundCommitment)
  }

  /** `f` gives the height span times the rate, and fails on exactly a zero rate, an empty or
      inverted window, or a product beyond 64 bits. */
  lemma FMeaning(open: u64, close: u64, rate: u64)
    ensures F(open, close, rate).Ok? <==> rate > 0 && close > open && (close - open) * rate <= U64_MAX
    ensures F(open, close, rate).Ok? ==> F(open, close, rate).value == (close - open) * rate
  {
    if close > open && (close - open) * rate < U64_SIZE {
      ProductNonNegative(close - open, rate);
      ProductCheckIff(close - open, rate, (close - open) * rate);
    }
  }

  // ---- Commitment and verification ----

  function BindCommitment(env: Env, w: Witness, openHeader: Digest, closeHeader: Digest): Digest {
    if w.noteId == ZERO_DIGEST
    then env.commit(w.openHeight, w.closeHeight, w.rate, w.blinding, openHeader, closeHeader)
    else env.commitNote(w.openHeight, w.closeHeight, w.rate, w.blinding, openHeader, closeHeader, w.noteId)
  }

  function CommitInner(env: Env, open: u64, close: u64, rate: u64, blinding: Digest,
                       openHeader: Digest, closeHeader: Digest, noteId: Digest)
    : Result<(Witness, Public), AccrualError>
  {
    if openHeader == closeHeader then Err(HeaderCollision)
    else
      match DurationHeights(open, close)
      case Err(e) => Err(e)
      case Ok(d) =>
        match F(open, close, rate)
        case Err(e) => Err(e)
        case Ok(earned) =>
          if CheckedMul(d, rate) != Some(earned) then Err(UnboundCommitment)
          else
            var w := Witness(open, close, rate, earned, d, blinding, noteId);
            Ok((w, Public(BindCommitment(env, w, openHeader, closeHeader), openHeader, closeHeader)))
  }

  /** The three instances as the library encodes them: canonical bytes of the packed elements. */
  function EncodeInstances(p: Public): (Digest, Digest, Digest) {
    (ToLe(PackHash32(p.commitment), 32), ToLe(PackHash32(p.openHeader), 32), ToLe(PackHash32(p.closeHeader), 32))
  }

  function VerifyWitness(env: Env, w: Witness, p: Public): Result<(), AccrualError> {
    match F(w.openHeight, w.closeHeight, w.rate)
    case Err(e) => Err(e)
    case Ok(expected) =>
      if expected != w.earned
         || DurationHeights(w.openHeight, w.closeHeight) != Ok(w.duration)
         || CheckedMul(w.duration, w.rate) != Some(w.earned)
      then Err(UnboundCommitment)
      else if p.openHeader == p.closeHeader then Err(HeaderCollision)
      else if BindCommitment(env, w, p.openHeader, p.closeHeader) != p.commitment then Err(UnboundCommitment)
      else
        var ins := EncodeInstances(p);
        if ins.0 != PackBytes(p.commitment)
           || ins.1 != PackBytes(p.openHeader)
           || ins.2 != PackBytes(p.closeHeader)
           || ins.1[31] >= 64
           || ins.2[31] >= 64
        then Err(UnboundCommitment)
        else if ProductHolds(w.duration, w.rate, w.earned) then Ok(()) else Err(UnboundCommitment)
  }

  /** Packing then encoding canonically is the identity on packed bytes, so the instance
      comparison can never be what rejects a witness. */
  lemma InstancesArePacked(b: Digest)
    ensures ToLe(PackHash32(b), 32) == PackBytes(b)
  {
    LeCanonical(PackBytes(b));
  }

  /** A witness verifies exactly when its numbers are the ones `f` fixes, the headers differ and
      the commitment binds them. */
  lemma VerifyWitnessIff(env: Env, w: Witness, p: Public)
    ensures VerifyWitness(env, w, p).Ok? <==>
            && w.rate > 0 && w.closeHeight > w.openHeight
            && w.duration == w.closeHeight - w.openHeight
            && w.earned == w.duration * w.rate
            && p.openHeader != p.closeHeader
            && p.commitment == (if w.noteId == ZERO_DIGEST
                                then env.commit(w.openHeight, w.closeHeight, w.rate, w.blinding,
                                                p.openHeader, p.closeHeader)
                                else env.commitNote(w.openHeight, w.closeHeight, w.rate, w.blinding,
                                                    p.openHeader, p.closeHeader, w.noteId))
  {
    FMeaning(w.openHeight, w.closeHeight, w.rate);
    InstancesArePacked(p.commitment);
    InstancesArePacked(p.openHeader);
    InstancesArePacked(p.closeHeader);
    ProductCheckIff(w.duration, w.rate, w.earned);
    hide F, ProductHolds, ToLe, PackHash32;
  }

  /** The commitment function used for each witness takes the two different argument lists, written
      out here, to the same digest. */
  ghost predicate CommitmentsCollide(env: Env, w: Witness, p: Public, v: Witness, q: Public) {
    if w.noteId == ZERO_DIGEST && v.noteId == ZERO_DIGEST then
      && env.commit(w.openHeight, w.closeHeight, w.rate, w.blinding, p.openHeader, p.closeHeader)
         == env.commit(v.openHeight, v.closeHeight, v.rate, v.blinding, q.openHeader, q.closeHeader)
      && !SameTerms(w, p, v, q)
    else if w.noteId != ZERO_DIGEST && v.noteId != ZERO_DIGEST then
      && env.commitNote(w.openHeight, w.closeHeight, w.rate, w.blinding, p.openHeader, p.closeHeader, w.noteId)
         == env.commitNote(v.openHeight, v.closeHeight, v.rate, v.blinding, q.openHeader, q.closeHeader, v.noteId)
      && !SameTerms(w, p, v, q)
    else if w.noteId == ZERO_DIGEST then
      env.commit(w.openHeight, w.closeHeight, w.rate, w.blinding, p.openHeader, p.closeHeader)
      == env.commitNote(v.openHeight, v.closeHeight, v.rate, v.blinding, q.openHeader, q.closeHeader, v.noteId)
    else
      env.commitNote(w.openHeight, w.closeHeight, w.rate, w.blinding, p.openHeader, p.closeHeader, w.noteId)
      == env.commit(v.openHeight, v.closeHeight, v.rate, v.blinding, q.openHeader, q.closeHeader)
  }

  ghost predicate SameTerms(w: Witness, p: Public, v: Witness, q: Public) {
    && w.openHeight == v.openHeight && w.closeHeight == v.closeHeight && w.rate == v.rate
    && w.blinding == v.blinding && w.noteId == v.noteId
    && p.openHeader == q.openHeader && p.closeHeader == q.closeHeader
  }

  /** A commitment fixes the whole witness and the headers: of two witnesses that verify under one
      commitment all terms agree, and so does what was earned, unless the commitment functions collide. */
  lemma CommitmentFixesWitness(env: Env, w: Witness, p: Public, v: Witness, q: Public)
    requires VerifyWitness(env, w, p).Ok? && VerifyWitness(env, v, q).Ok? && p.commitment == q.commitment
    ensures || CommitmentsCollide(env, w, p, v, q)
            || (w == v && p == q)
  {
    VerifyWitnessIff(env, w, p);
    VerifyWitnessIff(env, v, q);
    hide VerifyWitness;
  }

  /** Every committed accrual verifies, with the earned amount that `f` fixes. */
  lemma CommittedAccrualVerifies(env: Env, open: u64, close: u64, rate: u64, blinding: Digest,
                                 openHeader: Digest, closeHeader: Digest, noteId: Digest)
    ensures var r := CommitInner(env, open, close, rate, blinding, openHeader, closeHeader, noteId);
            && (r.Ok? <==> openHeader != closeHeader && rate > 0 && close > open && (close - open) * rate <= U64_MAX)
            && (r.Ok? ==> r.value.0.earned == (close - open) * rate && VerifyWitness(env, r.value.0, r.value.1).Ok?)
  {
    FMeaning(open, close, rate);
    var r := CommitInner(env, open, close, rate, blinding, openHeader, closeHeader, noteId);
    if r.Ok? {
      VerifyWitnessIff(env, r.value.0, r.value.1);
    }
  }

  /** Two digests give the same instance exactly when they agree outside the top two bits. */
  lemma PackingIdentifies(a: Digest, b: Digest)
    ensures PackBytes(a) == PackBytes(b) <==> a[..31] == b[..31] && a[31] % 64 == b[31] % 64
  {
    var p, q := PackBytes(a), PackBytes(b);
    if p == q {
      assert forall i :: 0 <= i < 31 ==> a[i] == p[i] == q[i] == b[i];
      assert p[31] == q[31];
    }
    if a[..31] == b[..31] && a[31] % 64 == b[31] % 64 {
      assert forall i :: 0 <= i < 31 ==> a[i] == a[..31][i] == b[..31][i] == b[i];
      assert p == q;
    }
  }
}
