/** Two-layer t-of-n committees: forming them, collecting quorums, and their identifiers. */
module Committee {
  import opened Wrappers
  import opened Bytes
  import opened TaggedHash

  /** One inner signer seat. The signer's key material and attestation are opaque evidence. */
  datatype SignerSeat = SignerSeat(name: Slice, signerId: Digest, instanceId: Digest, evidence: Slice)

  datatype InnerCommittee = InnerCommittee(id: Digest, name: Slice, threshold: u16, seats: seq<SignerSeat>)

  datatype OuterCommittee =
    OuterCommittee(id: Digest, name: Slice, threshold: u16, groupId: Option<Digest>, inners: seq<InnerCommittee>)

  datatype InnerQuorum = InnerQuorum(committeeId: Digest, name: Slice, participants: seq<Slice>, digest: Digest)

  datatype LayeredQuorum =
    LayeredQuorum(outerId: Digest, groupId: Digest, innerQuorums: seq<InnerQuorum>, digest: Digest)

  datatype CommitteeError =
    | BadParams | Empty | UnknownMember | BelowThreshold | Duplicate | Attestation
    | Inner | DigestMismatch | UnboundGroup | UnboundSpend | SpendGroup | SpendNote | SpendAmount
    | FrostRequired | FrostVerify

  /** The hash and the seat attestation check are library code. */
  datatype Env = Env(hash: seq<byte> -> Digest, attested: SignerSeat -> bool)

  // ---- Identifiers ----

  function SignerIds(seats: seq<SignerSeat>): (ids: seq<Digest>)
    ensures |ids| == |seats| && forall i :: 0 <= i < |ids| ==> ids[i] == seats[i].signerId
  {
    seq(|seats|, i requires 0 <= i < |seats| => seats[i].signerId)
  }

  function CommitteeIds(inners: seq<InnerCommittee>): (ids: seq<Digest>)
    ensures |ids| == |inners| && forall i :: 0 <= i < |ids| ==> ids[i] == inners[i].id
  {
    seq(|inners|, i requires 0 <= i < |inners| => inners[i].id)
  }

  /** Byte-wise lexicographic order, as arrays compare. */
  predicate LexLe(a: seq<byte>, b: seq<byte>) {
    a == [] || (b != [] && (a[0] < b[0] || (a[0] == b[0] && LexLe(a[1..], b[1..]))))
  }

  function InsertSorted(x: Digest, s: seq<Digest>): seq<Digest> {
    if s == [] || LexLe(x, s[0]) then [x] + s else [s[0]] + InsertSorted(x, s[1..])
  }

  function SortIds(s: seq<Digest>): seq<Digest> {
    if s == [] then [] else InsertSorted(s[0], SortIds(s[1..]))
  }

  ghost predicate Ordered(s: seq<Digest>) {
    forall i, j :: 0 <= i <= j < |s| ==> LexLe(s[i], s[j])
  }

  lemma {:induction false} LexReflexive(a: seq<byte>)
    ensures LexLe(a, a)
  {
    if a != [] { LexReflexive(a[1..]); }
  }

  lemma {:induction false} LexTotal(a: seq<byte>, b: seq<byte>)
    ensures LexLe(a, b) || LexLe(b, a)
  {
    if a != [] && b != [] && a[0] == b[0] { LexTotal(a[1..], b[1..]); }
  }

  lemma {:induction false} LexAntisymmetric(a: seq<byte>, b: seq<byte>)
    requires LexLe(a, b) && LexLe(b, a)
    ensures a == b
  {
    if a != [] && b != [] {
      LexAntisymmetric(a[1..], b[1..]);
      assert a == [a[0]] + a[1..] && b == [b[0]] + b[1..];
    }
  }

  lemma {:induction false} LexTransitive(a: seq<byte>, b: seq<byte>, c: seq<byte>)
    requires LexLe(a, b) && LexLe(b, c)
    ensures LexLe(a, c)
  {
    if a != [] && b != [] && c != [] && a[0] == b[0] == c[0] {
      LexTransitive(a[1..], b[1..], c[1..]);
    }
  }

  lemma {:induction false} InsertKeepsOrder(x: Digest, s: seq<Digest>)
    requires Ordered(s)
    ensures Ordered(InsertSorted(x, s))
    ensures multiset(InsertSorted(x, s)) == multiset{x} + multiset(s)
  {
    LexReflexive(x);
    if s == [] {
    } else if LexLe(x, s[0]) {
      forall j | 0 <= j < |s| ensures LexLe(x, s[j]) {
        LexTransitive(x, s[0], s[j]);
      }
    } else {
      InsertKeepsOrder(x, s[1..]);
      LexTotal(x, s[0]);
      LexReflexive(s[0]);
      var t := InsertSorted(x, s[1..]);
      assert s == [s[0]] + s[1..];
      forall j | 0 <= j < |t| ensures LexLe(s[0], t[j]) {
        assert t[j] in multiset(t);
        if t[j] != x {
          assert t[j] in multiset(s[1..]);
        }
      }
    }
  }

  lemma {:induction false} SortCorrect(s: seq<Digest>)
    ensures Ordered(SortIds(s)) && multiset(SortIds(s)) == multiset(s)
  {
    if s != [] {
      SortCorrect(s[1..]);
      InsertKeepsOrder(s[0], SortIds(s[1..]));
      assert s == [s[0]] + s[1..];
    }
  }

  lemma LeastComesFirst(a: seq<Digest>, b: seq<Digest>)
    requires Ordered(a) && Ordered(b) && multiset(a) == multiset(b) && a != [] && b != []
    ensures LexLe(b[0], a[0])
  {
    assert a[0] in multiset(b);
    var i :| 0 <= i < |b| && b[i] == a[0];
    assert LexLe(b[0], b[i]);
  }

  lemma DropFirst(s: seq<Digest>)
    requires s != []
    ensures multiset(s[1..]) == multiset(s) - multiset{s[0]}
    ensures Ordered(s) ==> Ordered(s[1..])
  {
    hide LexLe;
    assert s == [s[0]] + s[1..];
  }

  /** Any two sorted arrangements of the same identifiers are equal, so the sort used is immaterial. */
  lemma {:induction false} OrderedUnique(a: seq<Digest>, b: seq<Digest>)
    requires Ordered(a) && Ordered(b) && multiset(a) == multiset(b)
    ensures a == b
  {
    hide LexLe, Ordered;
    assert |multiset(a)| == |a| && |multiset(b)| == |b|;
    if a != [] {
      LeastComesFirst(a, b);
      LeastComesFirst(b, a);
      LexAntisymmetric(a[0], b[0]);
      DropFirst(a);
      DropFirst(b);
      OrderedUnique(a[1..], b[1..]);
      assert a == [a[0]] + a[1..] && b == [b[0]] + b[1..];
    }
  }

  lemma SortIffSameIds(a: seq<Digest>, b: seq<Digest>)
    ensures SortIds(a) == SortIds(b) <==> multiset(a) == multiset(b)
  {
    SortCorrect(a);
    SortCorrect(b);
    if multiset(a) == multiset(b) { OrderedUnique(SortIds(a), SortIds(b)); }
  }

  function AsSlices(ids: seq<Digest>): (s: seq<Slice>)
    ensures |s| == |ids| && forall i :: 0 <= i < |ids| ==> s[i] == ids[i]
  {
    if ids == [] then [] else [ids[0]] + AsSlices(ids[1..])
  }

  function InnerIdParts(name: Slice, threshold: u16, n: u16, ids: seq<Digest>): seq<Slice> {
    [name, ToLe(threshold, 2), ToLe(n, 2)] + AsSlices(SortIds(ids))
  }

  function InnerIdPreimage(name: Slice, threshold: u16, n: u16, seats: seq<SignerSeat>): seq<byte> {
    Preimage(INNER_COMMITTEE_TAG, InnerIdParts(name, threshold, n, SignerIds(seats)))
  }

  function InnerId(env: Env, name: Slice, threshold: u16, n: u16, seats: seq<SignerSeat>): Digest {
    env.hash(InnerIdPreimage(name, threshold, n, seats))
  }

  function GroupBytes(groupId: Option<Digest>): Digest {
    if groupId.Some? then groupId.value else ZERO_DIGEST
  }

  function OuterIdParts(name: Slice, threshold: u16, n: u16, group: Digest, ids: seq<Digest>): seq<Slice> {
    [name, ToLe(threshold, 2), ToLe(n, 2), group] + AsSlices(SortIds(ids))
  }

  function OuterIdPreimage(name: Slice, threshold: u16, n: u16, groupId: Option<Digest>,
                           inners: seq<InnerCommittee>): seq<byte>
  {
    Preimage(OUTER_COMMITTEE_TAG, OuterIdParts(name, threshold, n, GroupBytes(groupId), CommitteeIds(inners)))
  }

  function OuterId(env: Env, name: Slice, threshold: u16, n: u16, groupId: Option<Digest>,
                   inners: seq<InnerCommittee>): Digest
  {
    env.hash(OuterIdPreimage(name, threshold, n, groupId, inners))
  }

  /** Two inner identifiers are equal exactly when name, threshold, size and the bag of signers
      are: the order of the seats never matters, and nothing else is confused unless the two
      preimages are a collision of the hash. */
  lemma InnerIdIff(env: Env, name: Slice, t: u16, n: u16, seats: seq<SignerSeat>,
                   name2: Slice, t2: u16, n2: u16, seats2: seq<SignerSeat>)
    ensures name == name2 && t == t2 && n == n2 && multiset(SignerIds(seats)) == multiset(SignerIds(seats2))
            ==> InnerId(env, name, t, n, seats) == InnerId(env, name2, t2, n2, seats2)
    ensures CollisionFreeOn(env.hash, {InnerIdPreimage(name, t, n, seats), InnerIdPreimage(name2, t2, n2, seats2)})
            && InnerId(env, name, t, n, seats) == InnerId(env, name2, t2, n2, seats2)
            ==> name == name2 && t == t2 && n == n2 && multiset(SignerIds(seats)) == multiset(SignerIds(seats2))
  {
    var ids, ids2 := SignerIds(seats), SignerIds(seats2);
    SortIffSameIds(ids, ids2);
    var p, p2 := InnerIdParts(name, t, n, ids), InnerIdParts(name2, t2, n2, ids2);
    if CollisionFreeOn(env.hash, {InnerIdPreimage(name, t, n, seats), InnerIdPreimage(name2, t2, n2, seats2)})
       && InnerId(env, name, t, n, seats) == InnerId(env, name2, t2, n2, seats2)
    {
      TagsInDomain();
      TaggedDigestBinds(env.hash, INNER_COMMITTEE_TAG, p, INNER_COMMITTEE_TAG, p2);
      assert p[0] == name && p[1] == ToLe(t, 2) && p[2] == ToLe(n, 2);
      assert p2[0] == name2 && p2[1] == ToLe(t2, 2) && p2[2] == ToLe(n2, 2);
      Pow256Values();
      LeInjective(t, t2, 2);
      LeInjective(n, n2, 2);
      assert p[3..] == AsSlices(SortIds(ids)) && p2[3..] == AsSlices(SortIds(ids2));
      SlicesInjective(SortIds(ids), SortIds(ids2));
    }
  }

  /** The same for the outer identifier, which also binds the pool group. */
  lemma OuterIdIff(env: Env, name: Slice, t: u16, n: u16, g: Option<Digest>, inners: seq<InnerCommittee>,
                   name2: Slice, t2: u16, n2: u16, g2: Option<Digest>, inners2: seq<InnerCommittee>)
    ensures name == name2 && t == t2 && n == n2 && GroupBytes(g) == GroupBytes(g2)
            && multiset(CommitteeIds(inners)) == multiset(CommitteeIds(inners2))
            ==> OuterId(env, name, t, n, g, inners) == OuterId(env, name2, t2, n2, g2, inners2)
    ensures CollisionFreeOn(env.hash,
                            {OuterIdPreimage(name, t, n, g, inners), OuterIdPreimage(name2, t2, n2, g2, inners2)})
            && OuterId(env, name, t, n, g, inners) == OuterId(env, name2, t2, n2, g2, inners2)
            ==> name == name2 && t == t2 && n == n2 && GroupBytes(g) == GroupBytes(g2)
                && multiset(CommitteeIds(inners)) == multiset(CommitteeIds(inners2))
  {
    var ids, ids2 := CommitteeIds(inners), CommitteeIds(inners2);
    SortIffSameIds(ids, ids2);
    var p := OuterIdParts(name, t, n, GroupBytes(g), ids);
    var p2 := OuterIdParts(name2, t2, n2, GroupBytes(g2), ids2);
    if CollisionFreeOn(env.hash, {OuterIdPreimage(name, t, n, g, inners), OuterIdPreimage(name2, t2, n2, g2, inners2)})
       && OuterId(env, name, t, n, g, inners) == OuterId(env, name2, t2, n2, g2, inners2)
    {
      TagsInDomain();
      TaggedDigestBinds(env.hash, OUTER_COMMITTEE_TAG, p, OUTER_COMMITTEE_TAG, p2);
      assert p[0] == name && p[1] == ToLe(t, 2) && p[2] == ToLe(n, 2) && p[3] == GroupBytes(g);
      assert p2[0] == name2 && p2[1] == ToLe(t2, 2) && p2[2] == ToLe(n2, 2) && p2[3] == GroupBytes(g2);
      Pow256Values();
      LeInjective(t, t2, 2);
      LeInjective(n, n2, 2);
      assert p[4..] == AsSlices(SortIds(ids)) && p2[4..] == AsSlices(SortIds(ids2));
      SlicesInjective(SortIds(ids), SortIds(ids2));
    }
  }

  lemma SlicesInjective(a: seq<Digest>, b: seq<Digest>)
    requires AsSlices(a) == AsSlices(b)
    ensures a == b
  {
    assert |a| == |b|;
    assert forall i :: 0 <= i < |a| ==> a[i] == AsSlices(a)[i] == AsSlices(b)[i] == b[i];
  }

  // ---- Forming committees ----

  function Names(seats: seq<SignerSeat>): (names: seq<Slice>)
    ensures |names| == |seats| && forall i :: 0 <= i < |names| ==> names[i] == seats[i].name
  {
    seq(|seats|, i requires 0 <= i < |seats| => seats[i].name)
  }

  ghost predicate SeatsDistinct(seats: seq<SignerSeat>) {
    forall i, j :: 0 <= i < j < |seats| ==>
      && seats[i].name != seats[j].name
      && seats[i].signerId != seats[j].signerId
      && seats[i].instanceId != seats[j].instanceId
  }

  ghost predicate AllAttested(env: Env, seats: seq<SignerSeat>) {
    forall i :: 0 <= i < |seats| ==> env.attested(seats[i])
  }

  /** Forming succeeds exactly on distinct, attested seats with a threshold within the size as the
      16-bit count sees it; so the threshold never exceeds the true number of seats. */
  method FormInner(env: Env, name: Slice, threshold: u16, seats: seq<SignerSeat>)
    returns (r: Result<InnerCommittee, CommitteeError>)
    ensures r.Ok? <==> 1 <= threshold <= |seats| % U16_SIZE && SeatsDistinct(seats) && AllAttested(env, seats)
    ensures r.Ok? ==>
          r.value == InnerCommittee(InnerId(env, name, threshold, |seats| % U16_SIZE, seats), name, threshold, seats)
    ensures r.Ok? ==> 1 <= r.value.threshold <= |r.value.seats|
  {
    var n := |seats| % U16_SIZE;
    if n == 0 {
      return Err(Empty);
    }
    if threshold == 0 || threshold > n {
      return Err(BadParams);
    }
    var error := CheckSeats(env, seats);
    if error.Some? {
      return Err(error.value);
    }
    r := Ok(InnerCommittee(InnerId(env, name, threshold, n, seats), name, threshold, seats));
  }

  /** No name, signer or instance twice, and every seat attested. */
  method CheckSeats(env: Env, seats: seq<SignerSeat>) returns (error: Option<CommitteeError>)
    ensures error.None? <==> SeatsDistinct(seats) && AllAttested(env, seats)
  {
    var names: set<Slice>, signers: set<Digest>, instances: set<Digest> := {}, {}, {};
    for i := 0 to |seats|
      invariant names == set k | 0 <= k < i :: seats[k].name
      invariant signers == set k | 0 <= k < i :: seats[k].signerId
      invariant instances == set k | 0 <= k < i :: seats[k].instanceId
      invariant SeatsDistinct(seats[..i]) && AllAttested(env, seats[..i])
    {
      var s := seats[i];
      if s.name in names || s.signerId in signers || s.instanceId in instances {
        return Some(Duplicate);
      }
      if !env.attested(s) {
        return Some(Attestation);
      }
      names, signers, instances := names + {s.name}, signers + {s.signerId}, instances + {s.instanceId};
    }
    assert seats[..|seats|] == seats;
    error := None;
  }

  ghost predicate InnersDistinct(inners: seq<InnerCommittee>) {
    forall i, j :: 0 <= i < j < |inners| ==> inners[i].name != inners[j].name
  }

  method FormOuter(env: Env, name: Slice, threshold: u16, inners: seq<InnerCommittee>)
    returns (r: Result<OuterCommittee, CommitteeError>)
    ensures r.Ok? <==> 1 <= threshold <= |inners| % U16_SIZE && InnersDistinct(inners)
    ensures r.Ok? ==>
      r.value == OuterCommittee(OuterId(env, name, threshold, |inners| % U16_SIZE, None, inners),
                                name, threshold, None, inners)
    ensures r.Ok? ==> 1 <= r.value.threshold <= |r.value.inners|
  {
    var n := |inners| % U16_SIZE;
    if n == 0 {
      return Err(Empty);
    }
    if threshold == 0 || threshold > n {
      return Err(BadParams);
    }
    var seen: set<Slice> := {};
    for i := 0 to |inners|
      invariant seen == set k | 0 <= k < i :: inners[k].name
      invariant InnersDistinct(inners[..i])
    {
      if inners[i].name in seen {
        return Err(Duplicate);
      }
      seen := seen + {inners[i].name};
    }
    assert inners[..|inners|] == inners;
    r := Ok(OuterCommittee(OuterId(env, name, threshold, n, None, inners), name, threshold, None, inners));
  }

  function BindPool(env: Env, o: OuterCommittee, groupId: Digest): OuterCommittee {
    o.(groupId := Some(groupId),
       id := OuterId(env, o.name, o.threshold, |o.inners| % U16_SIZE, Some(groupId), o.inners))
  }

  /** Binding a committee to a pool gives it an id for that pool alone, barring a collision. */
  lemma BoundIdsApart(env: Env, o: OuterCommittee, g: Digest, h: Digest)
    requires CollisionFreeOn(env.hash, {OuterIdPreimage(o.name, o.threshold, |o.inners| % U16_SIZE, Some(g), o.inners),
                                        OuterIdPreimage(o.name, o.threshold, |o.inners| % U16_SIZE, Some(h), o.inners)})
    ensures BindPool(env, o, g).id == BindPool(env, o, h).id <==> g == h
    ensures BindPool(env, o, g).groupId == Some(g) && BindPool(env, o, g).inners == o.inners
    ensures BindPool(env, o, g).threshold == o.threshold && BindPool(env, o, g).name == o.name
  {
    var n := |o.inners| % U16_SIZE;
    OuterIdIff(env, o.name, o.threshold, n, Some(g), o.inners, o.name, o.threshold, n, Some(h), o.inners);
  }

  // ---- Quorums ----

  function FindSeat(seats: seq<SignerSeat>, name: Slice): (s: Option<SignerSeat>)
    ensures s.Some? ==> s.value in seats && s.value.name == name
  {
    if seats == [] then None
    else if seats[0].name == name then Some(seats[0])
    else FindSeat(seats[1..], name)
  }

  function FindInner(inners: seq<InnerCommittee>, name: Slice): (c: Option<InnerCommittee>)
    ensures c.Some? ==> c.value in inners && c.value.name == name
  {
    if inners == [] then None
    else if inners[0].name == name then Some(inners[0])
    else FindInner(inners[1..], name)
  }

  /** The seats of the named participants, taken in order; the first offence is the error. */
  function CollectSeats(env: Env, seats: seq<SignerSeat>, who: seq<Slice>): Result<seq<SignerSeat>, CommitteeError> {
    if who == [] then Ok([])
    else
      var n := |who| - 1;
      match CollectSeats(env, seats, who[..n])
      case Err(e) => Err(e)
      case Ok(got) =>
        if who[n] in who[..n] then Err(Duplicate)
        else
          match FindSeat(seats, who[n])
          case None => Err(UnknownMember)
          case Some(seat) =>
            if seat.signerId in SignerIds(got) then Err(Duplicate)
            else if !env.attested(seat) then Err(Attestation)
            else Ok(got + [seat])
  }

  function InnerQuorumPreimage(id: Digest, who: seq<Slice>): seq<byte> {
    Preimage(INNER_QUORUM_TAG, [id] + who)
  }

  function InnerQuorumDigest(env: Env, id: Digest, who: seq<Slice>): Digest {
    env.hash(InnerQuorumPreimage(id, who))
  }

  function QuorumOfInner(env: Env, c: InnerCommittee, who: seq<Slice>): Result<InnerQuorum, CommitteeError> {
    match CollectSeats(env, c.seats, who)
    case Err(e) => Err(e)
    case Ok(got) =>
      if |got| % U16_SIZE < c.threshold then Err(BelowThreshold)
      else Ok(InnerQuorum(c.id, c.name, Names(got), InnerQuorumDigest(env, c.id, Names(got))))
  }

  method InnerQuorumOf(env: Env, c: InnerCommittee, who: seq<Slice>) returns (r: Result<InnerQuorum, CommitteeError>)
    ensures r == QuorumOfInner(env, c, who)
  {
    hide FindSeat, SignerIds, Names, InnerQuorumDigest;
    var unique: seq<SignerSeat> := [];
    var seenNames: set<Slice>, seenSigners: set<Digest> := {}, {};
    for i := 0 to |who|
      invariant CollectSeats(env, c.seats, who[..i]) == Ok(unique)
      invariant seenNames == set k | 0 <= k < i :: who[k]
      invariant forall d :: d in seenSigners <==> d in SignerIds(unique)
    {
      assert who[..i + 1][..i] == who[..i];
      if who[i] in seenNames {
        CollectErrStays(env, c.seats, who, i + 1);
        return Err(Duplicate);
      }
      seenNames := seenNames + {who[i]};
      var seat := FindSeat(c.seats, who[i]);
      if seat.None? {
        CollectErrStays(env, c.seats, who, i + 1);
        return Err(UnknownMember);
      }
      if seat.value.signerId in seenSigners {
        CollectErrStays(env, c.seats, who, i + 1);
        return Err(Duplicate);
      }
      if !env.attested(seat.value) {
        CollectErrStays(env, c.seats, who, i + 1);
        return Err(Attestation);
      }
      assert SignerIds(unique + [seat.value]) == SignerIds(unique) + [seat.value.signerId];
      seenSigners := seenSigners + {seat.value.signerId};
      unique := unique + [seat.value];
    }
    assert who[..|who|] == who;
    if |unique| % U16_SIZE < c.threshold {
      return Err(BelowThreshold);
    }
    r := Ok(InnerQuorum(c.id, c.name, Names(unique), InnerQuorumDigest(env, c.id, Names(unique))));
  }

  lemma {:induction false} CollectErrStays(env: Env, seats: seq<SignerSeat>, who: seq<Slice>, i: nat)
    requires i <= |who| && CollectSeats(env, seats, who[..i]).Err?
    ensures CollectSeats(env, seats, who) == CollectSeats(env, seats, who[..i])
    decreases |who|
  {
    if i < |who| {
      var n := |who| - 1;
      assert who[..n][..i] == who[..i];
      CollectErrStays(env, seats, who[..n], i);
    } else {
      assert who[..i] == who;
    }
  }

  datatype Part = Part(name: Slice, members: seq<Slice>)

  function CollectInners(env: Env, inners: seq<InnerCommittee>, parts: seq<Part>)
    : Result<seq<InnerQuorum>, CommitteeError>
  {
    if parts == [] then Ok([])
    else
      var n := |parts| - 1;
      match CollectInners(env, inners, parts[..n])
      case Err(e) => Err(e)
      case Ok(got) =>
        if exists k :: 0 <= k < n && parts[k].name == parts[n].name then Err(Duplicate)
        else
          match FindInner(inners, parts[n].name)
          case None => Err(UnknownMember)
          case Some(c) =>
            match QuorumOfInner(env, c, parts[n].members)
            case Err(_) => Err(Inner)
            case Ok(q) => Ok(got + [q])
  }

  function Digests(qs: seq<InnerQuorum>): (ds: seq<Slice>)
    ensures |ds| == |qs| && forall i :: 0 <= i < |ds| ==> ds[i] == qs[i].digest
  {
    if qs == [] then [] else [qs[0].digest] + Digests(qs[1..])
  }

  function LayeredDigest(env: Env, id: Digest, qs: seq<InnerQuorum>): Digest {
    env.hash(Preimage(LAYERED_QUORUM_TAG, [id] + Digests(qs)))
  }

  function QuorumOfOuter(env: Env, o: OuterCommittee, parts: seq<Part>): Result<LayeredQuorum, CommitteeError> {
    match CollectInners(env, o.inners, parts)
    case Err(e) => Err(e)
    case Ok(qs) =>
      if |qs| % U16_SIZE < o.threshold then Err(BelowThreshold)
      else if o.groupId.None? || o.groupId.value == ZERO_DIGEST then Err(UnboundGroup)
      else Ok(LayeredQuorum(o.id, o.groupId.value, qs, LayeredDigest(env, o.id, qs)))
  }

  method OuterQuorumOf(env: Env, o: OuterCommittee, parts: seq<Part>) returns (r: Result<LayeredQuorum, CommitteeError>)
    ensures r == QuorumOfOuter(env, o, parts)
  {
    hide QuorumOfInner, FindInner, LayeredDigest;
    var quorums: seq<InnerQuorum> := [];
    var seen: set<Slice> := {};
    for i := 0 to |parts|
      invariant CollectInners(env, o.inners, parts[..i]) == Ok(quorums)
      invariant seen == set k | 0 <= k < i :: parts[k].name
    {
      assert parts[..i + 1][..i] == parts[..i];
      if parts[i].name in seen {
        CollectInnersErrStays(env, o.inners, parts, i + 1);
        return Err(Duplicate);
      }
      seen := seen + {parts[i].name};
      var c := FindInner(o.inners, parts[i].name);
      if c.None? {
        CollectInnersErrStays(env, o.inners, parts, i + 1);
        return Err(UnknownMember);
      }
      var q := InnerQuorumOf(env, c.value, parts[i].members);
      if q.Err? {
        CollectInnersErrStays(env, o.inners, parts, i + 1);
        return Err(Inner);
      }
      quorums := quorums + [q.value];
    }
    assert parts[..|parts|] == parts;
    if |quorums| % U16_SIZE < o.threshold {
      return Err(BelowThreshold);
    }
    var digest := LayeredDigest(env, o.id, quorums);
    if o.groupId.None? || o.groupId.value == ZERO_DIGEST {
      return Err(UnboundGroup);
    }
    r := Ok(LayeredQuorum(o.id, o.groupId.value, quorums, digest));
  }

  lemma {:induction false} CollectInnersErrStays(env: Env, inners: seq<InnerCommittee>, parts: seq<Part>, i: nat)
    requires i <= |parts| && CollectInners(env, inners, parts[..i]).Err?
    ensures CollectInners(env, inners, parts) == CollectInners(env, inners, parts[..i])
    decreases |parts|
  {
    if i < |parts| {
      var n := |parts| - 1;
      assert parts[..n][..i] == parts[..i];
      CollectInnersErrStays(env, inners, parts[..n], i);
    } else {
      assert parts[..i] == parts;
    }
  }

  // ---- What a collected quorum means ----

  ghost predicate NoDuplicates<T>(s: seq<T>) {
    forall i, j :: 0 <= i < j < |s| ==> s[i] != s[j]
  }

  /** At least `threshold` distinct participants, each an enrolled and attested seat, with
      pairwise different signers. */
  ghost predicate InnerSound(env: Env, c: InnerCommittee, who: seq<Slice>) {
    && |who| >= c.threshold
    && NoDuplicates(who)
    && (forall i :: 0 <= i < |who| ==>
          FindSeat(c.seats, who[i]).Some? && env.attested(FindSeat(c.seats, who[i]).value))
    && (forall i, j :: 0 <= i < j < |who| ==>
          FindSeat(c.seats, who[i]).value.signerId != FindSeat(c.seats, who[j]).value.signerId)
  }

  lemma {:induction false} CollectedSeatsSound(env: Env, seats: seq<SignerSeat>, who: seq<Slice>)
    requires CollectSeats(env, seats, who).Ok?
    ensures var got := CollectSeats(env, seats, who).value;
            && |got| == |who| && NoDuplicates(who) && NoDuplicates(SignerIds(got))
            && forall i :: 0 <= i < |who| ==>
                 FindSeat(seats, who[i]) == Some(got[i]) && got[i].name == who[i] && env.attested(got[i])
  {
    hide FindSeat, SignerIds, NoDuplicates;
    if who == [] {
      NoDuplicatesYet(who, SignerIds([]));
    } else {
      var n := |who| - 1;
      CollectedSeatsSound(env, seats, who[..n]);
      var prev := CollectSeats(env, seats, who[..n]).value;
      var got := CollectSeats(env, seats, who).value;
      assert got[..n] == prev && SignerIds(got)[..n] == SignerIds(prev);
      OneMoreApart(who);
      OneMoreApart(SignerIds(got));
    }
  }

  lemma NoDuplicatesYet<T, U>(s: seq<T>, t: seq<U>)
    requires s == [] && t == []
    ensures NoDuplicates(s) && NoDuplicates(t)
  {
  }

  lemma OneMoreApart<T>(s: seq<T>)
    requires s != [] && NoDuplicates(s[..|s| - 1]) && s[|s| - 1] !in s[..|s| - 1]
    ensures NoDuplicates(s)
  {
    var n := |s| - 1;
    forall i, j | 0 <= i < j < |s| ensures s[i] != s[j] {
      assert s[i] == s[..n][i];
      assert j < n ==> s[j] == s[..n][j];
    }
  }

  lemma InnerQuorumSound(env: Env, c: InnerCommittee, who: seq<Slice>)
    requires QuorumOfInner(env, c, who).Ok?
    ensures QuorumOfInner(env, c, who).value
            == InnerQuorum(c.id, c.name, who, InnerQuorumDigest(env, c.id, who))
    ensures InnerSound(env, c, who)
  {
    CollectedSeatsSound(env, c.seats, who);
    var got := CollectSeats(env, c.seats, who).value;
    assert Names(got) == who;
    forall i, j | 0 <= i < j < |who|
      ensures FindSeat(c.seats, who[i]).value.signerId != FindSeat(c.seats, who[j]).value.signerId
    {
      assert SignerIds(got)[i] != SignerIds(got)[j];
    }
  }

  /** The participants an inner committee accepts: distinct, each an enrolled and attested seat, with
      pairwise different signers, and enough of them as the 16-bit count sees it. */
  ghost predicate InnerAccepts(env: Env, c: InnerCommittee, who: seq<Slice>) {
    && |who| % U16_SIZE >= c.threshold
    && SeatsAccepted(env, c.seats, who)
  }

  ghost predicate SeatsAccepted(env: Env, seats: seq<SignerSeat>, who: seq<Slice>) {
    && NoDuplicates(who)
    && (forall i :: 0 <= i < |who| ==> FindSeat(seats, who[i]).Some? && env.attested(FindSeat(seats, who[i]).value))
    && (forall i, j :: 0 <= i < j < |who| ==>
          FindSeat(seats, who[i]).value.signerId != FindSeat(seats, who[j]).value.signerId)
  }

  lemma {:induction false} AcceptedSeatsCollect(env: Env, seats: seq<SignerSeat>, who: seq<Slice>)
    requires SeatsAccepted(env, seats, who)
    ensures CollectSeats(env, seats, who).Ok?
  {
    hide FindSeat, SignerIds;
    if who != [] {
      var n := |who| - 1;
      var before := who[..n];
      assert forall i :: 0 <= i < n ==> before[i] == who[i];
      AcceptedSeatsCollect(env, seats, before);
      CollectedSeatsSound(env, seats, before);
      var got := CollectSeats(env, seats, before).value;
      assert who[n] !in before;
      forall i | 0 <= i < n ensures SignerIds(got)[i] != FindSeat(seats, who[n]).value.signerId {
        assert FindSeat(seats, before[i]) == Some(got[i]);
      }
    }
  }

  /** Exactly when an inner committee gives a quorum. */
  lemma InnerQuorumIff(env: Env, c: InnerCommittee, who: seq<Slice>)
    ensures QuorumOfInner(env, c, who).Ok? <==> InnerAccepts(env, c, who)
  {
    if QuorumOfInner(env, c, who).Ok? {
      InnerQuorumSound(env, c, who);
      CollectedSeatsSound(env, c.seats, who);
    }
    if SeatsAccepted(env, c.seats, who) {
      AcceptedSeatsCollect(env, c.seats, who);
      CollectedSeatsSound(env, c.seats, who);
    }
    hide CollectSeats, FindSeat, Names, InnerQuorumDigest;
  }

  /** The quorum names at least the outer threshold of distinct inner committees, each of them sound. */
  ghost predicate OuterSound(env: Env, o: OuterCommittee, parts: seq<Part>) {
    && |parts| >= o.threshold
    && (forall i, j :: 0 <= i < j < |parts| ==> parts[i].name != parts[j].name)
    && (forall i :: 0 <= i < |parts| ==>
          && FindInner(o.inners, parts[i].name).Some?
          && InnerSound(env, FindInner(o.inners, parts[i].name).value, parts[i].members))
  }

  lemma {:induction false} CollectedInnersSound(env: Env, inners: seq<InnerCommittee>, parts: seq<Part>)
    requires CollectInners(env, inners, parts).Ok?
    ensures var qs := CollectInners(env, inners, parts).value;
            && |qs| == |parts|
            && (forall i, j :: 0 <= i < j < |parts| ==> parts[i].name != parts[j].name)
            && forall i :: 0 <= i < |parts| ==>
                 && FindInner(inners, parts[i].name).Some?
                 && var c := FindInner(inners, parts[i].name).value;
                    && InnerSound(env, c, parts[i].members)
                    && qs[i] == InnerQuorum(c.id, c.name, parts[i].members,
                                            InnerQuorumDigest(env, c.id, parts[i].members))
  {
    hide InnerSound, FindInner, QuorumOfInner, InnerQuorumDigest;
    if parts != [] {
      var n := |parts| - 1;
      CollectedInnersSound(env, inners, parts[..n]);
      var prev := CollectInners(env, inners, parts[..n]).value;
      var c := FindInner(inners, parts[n].name).value;
      InnerQuorumSound(env, c, parts[n].members);
      forall i, j | 0 <= i < j < |parts| ensures parts[i].name != parts[j].name {
        assert parts[i] == parts[..n][i];
        assert j < n ==> parts[j] == parts[..n][j];
      }
      forall i | 0 <= i < n ensures parts[i] == parts[..n][i] {
      }
    }
  }

  lemma OuterQuorumSound(env: Env, o: OuterCommittee, parts: seq<Part>)
    requires QuorumOfOuter(env, o, parts).Ok?
    ensures OuterSound(env, o, parts)
  {
    hide InnerSound, FindInner, CollectInners, LayeredDigest;
    CollectedInnersSound(env, o.inners, parts);
  }

  ghost predicate InnersAccepted(env: Env, inners: seq<InnerCommittee>, parts: seq<Part>) {
    && (forall i, j :: 0 <= i < j < |parts| ==> parts[i].name != parts[j].name)
    && (forall i :: 0 <= i < |parts| ==>
          && FindInner(inners, parts[i].name).Some?
          && InnerAccepts(env, FindInner(inners, parts[i].name).value, parts[i].members))
  }

  lemma {:induction false} AcceptedInnersCollect(env: Env, inners: seq<InnerCommittee>, parts: seq<Part>)
    ensures CollectInners(env, inners, parts).Ok? <==> InnersAccepted(env, inners, parts)
  {
    hide InnerAccepts, FindInner, QuorumOfInner;
    if parts != [] {
      var n := |parts| - 1;
      var before := parts[..n];
      assert forall i :: 0 <= i < n ==> before[i] == parts[i];
      AcceptedInnersCollect(env, inners, before);
      var found := FindInner(inners, parts[n].name);
      if found.Some? {
        InnerQuorumIff(env, found.value, parts[n].members);
      }
      if InnersAccepted(env, inners, parts) {
        assert InnersAccepted(env, inners, before);
      }
    }
  }

  /** The digest written out: the outer id, then what each named committee's participants hash to. */
  ghost function QuorumDigest(env: Env, o: OuterCommittee, parts: seq<Part>): Digest
    requires InnersAccepted(env, o.inners, parts)
  {
    env.hash(Preimage(LAYERED_QUORUM_TAG, [o.id] + seq(|parts|, i requires 0 <= i < |parts| =>
      InnerQuorumDigest(env, FindInner(o.inners, parts[i].name).value.id, parts[i].members))))
  }

  /** Exactly when an outer committee gives a quorum, and under which digest. */
  lemma OuterQuorumIff(env: Env, o: OuterCommittee, parts: seq<Part>)
    ensures QuorumOfOuter(env, o, parts).Ok? <==>
            && InnersAccepted(env, o.inners, parts)
            && |parts| % U16_SIZE >= o.threshold
            && o.groupId.Some? && o.groupId.value != ZERO_DIGEST
    ensures QuorumOfOuter(env, o, parts).Ok? ==>
              && QuorumOfOuter(env, o, parts).value.outerId == o.id
              && Some(QuorumOfOuter(env, o, parts).value.groupId) == o.groupId
              && QuorumOfOuter(env, o, parts).value.digest == QuorumDigest(env, o, parts)
  {
    AcceptedInnersCollect(env, o.inners, parts);
    if CollectInners(env, o.inners, parts).Ok? {
      CollectedInnersSound(env, o.inners, parts);
      var qs := CollectInners(env, o.inners, parts).value;
      hide CollectInners, FindInner, InnerSound, InnersAccepted, Preimage, InnerQuorumDigest;
      var written: seq<Slice> := seq(|parts|, i requires 0 <= i < |parts| =>
        InnerQuorumDigest(env, FindInner(o.inners, parts[i].name).value.id, parts[i].members));
      assert Digests(qs) == written;
    }
  }

  /** Everything that is hashed in computing a layered quorum: the outer preimage and one for each
      inner quorum. */
  ghost function QuorumPreimages(env: Env, o: OuterCommittee, parts: seq<Part>): set<seq<byte>> {
    match CollectInners(env, o.inners, parts)
    case Err(_) => {}
    case Ok(qs) =>
      {Preimage(LAYERED_QUORUM_TAG, [o.id] + Digests(qs))}
      + (set i | 0 <= i < |qs| :: InnerQuorumPreimage(qs[i].committeeId, qs[i].participants))
  }

  /** Unless two of the preimages hashed for it collide, a layered digest pins down, in order, which
      inner committees signed and which participants spoke for each. */
  lemma DigestPinsQuorum(env: Env, o: OuterCommittee, p: seq<Part>, q: seq<Part>)
    requires CollisionFreeOn(env.hash, QuorumPreimages(env, o, p) + QuorumPreimages(env, o, q))
    requires QuorumOfOuter(env, o, p).Ok? && QuorumOfOuter(env, o, q).Ok?
    requires QuorumOfOuter(env, o, p).value.digest == QuorumOfOuter(env, o, q).value.digest
    ensures |p| == |q|
    ensures forall i :: 0 <= i < |p| ==> p[i].members == q[i].members
    ensures forall i :: 0 <= i < |p| ==>
              && FindInner(o.inners, p[i].name).Some? && FindInner(o.inners, q[i].name).Some?
              && FindInner(o.inners, p[i].name).value.id == FindInner(o.inners, q[i].name).value.id
  {
    hide QuorumPreimages, CollectInners, FindInner, InnerSound, CollisionFreeOn, Preimage, DomainTag;
    hide InnerQuorumPreimage, InnerQuorumDigest;
    CollectedInnersSound(env, o.inners, p);
    CollectedInnersSound(env, o.inners, q);
    LayeredPreimages(env, o, p);
    LayeredPreimages(env, o, q);
    var ps, qs := CollectInners(env, o.inners, p).value, CollectInners(env, o.inners, q).value;
    var all := QuorumPreimages(env, o, p) + QuorumPreimages(env, o, q);
    TagsInDomain();
    CollisionFreeOnSubset(env.hash, {Preimage(LAYERED_QUORUM_TAG, [o.id] + Digests(ps)),
                                     Preimage(LAYERED_QUORUM_TAG, [o.id] + Digests(qs))}, all);
    TaggedDigestBinds(env.hash, LAYERED_QUORUM_TAG, [o.id] + Digests(ps), LAYERED_QUORUM_TAG, [o.id] + Digests(qs));
    assert Digests(ps) == ([o.id] + Digests(ps))[1..] && Digests(qs) == ([o.id] + Digests(qs))[1..];
    forall i | 0 <= i < |p|
      ensures p[i].members == q[i].members
      ensures FindInner(o.inners, p[i].name).value.id == FindInner(o.inners, q[i].name).value.id
    {
      var c, d := FindInner(o.inners, p[i].name).value, FindInner(o.inners, q[i].name).value;
      assert Digests(ps)[i] == ps[i].digest && Digests(qs)[i] == qs[i].digest;
      CollisionFreeOnSubset(env.hash, {InnerQuorumPreimage(c.id, p[i].members),
                                       InnerQuorumPreimage(d.id, q[i].members)}, all);
      InnerDigestBinds(env, c.id, p[i].members, d.id, q[i].members);
    }
  }

  lemma LayeredPreimages(env: Env, o: OuterCommittee, parts: seq<Part>)
    requires CollectInners(env, o.inners, parts).Ok?
    ensures var qs := CollectInners(env, o.inners, parts).value;
            && Preimage(LAYERED_QUORUM_TAG, [o.id] + Digests(qs)) in QuorumPreimages(env, o, parts)
            && forall i :: 0 <= i < |qs| ==>
                 InnerQuorumPreimage(qs[i].committeeId, qs[i].participants) in QuorumPreimages(env, o, parts)
  {
    hide CollectInners;
  }

  /** The inner preimages of a quorum, which do not depend on the hash. */
  ghost function InnerPreimages(inners: seq<InnerCommittee>, parts: seq<Part>): set<seq<byte>> {
    set i | 0 <= i < |parts| && FindInner(inners, parts[i].name).Some?
      :: InnerQuorumPreimage(FindInner(inners, parts[i].name).value.id, parts[i].members)
  }

  /** Only the digests of those reach the outer layer. */
  lemma {:induction false} CollectInnersLocal(env: Env, env2: Env, inners: seq<InnerCommittee>, parts: seq<Part>)
    requires env.attested == env2.attested && AgreeOn(env.hash, env2.hash, InnerPreimages(inners, parts))
    ensures CollectInners(env, inners, parts) == CollectInners(env2, inners, parts)
  {
    hide FindInner, CollectSeats, Names;
    if parts != [] {
      var n := |parts| - 1;
      assert InnerPreimages(inners, parts[..n]) <= InnerPreimages(inners, parts);
      CollectInnersLocal(env, env2, inners, parts[..n]);
      var found := FindInner(inners, parts[n].name);
      if found.Some? {
        var c := found.value;
        CollectSeatsLocal(env, env2, c.seats, parts[n].members);
        if CollectSeats(env, c.seats, parts[n].members).Ok? {
          CollectedSeatsSound(env, c.seats, parts[n].members);
          assert Names(CollectSeats(env, c.seats, parts[n].members).value) == parts[n].members;
          assert InnerQuorumPreimage(c.id, parts[n].members) in InnerPreimages(inners, parts);
        }
      }
    }
  }

  lemma {:induction false} CollectSeatsLocal(env: Env, env2: Env, seats: seq<SignerSeat>, who: seq<Slice>)
    requires env.attested == env2.attested
    ensures CollectSeats(env, seats, who) == CollectSeats(env2, seats, who)
  {
    hide FindSeat, SignerIds;
    if who != [] {
      CollectSeatsLocal(env, env2, seats, who[..|who| - 1]);
    }
  }

  ghost function OuterPreimage(env: Env, o: OuterCommittee, parts: seq<Part>): set<seq<byte>> {
    match CollectInners(env, o.inners, parts)
    case Err(_) => {}
    case Ok(qs) => {Preimage(LAYERED_QUORUM_TAG, [o.id] + Digests(qs))}
  }

  lemma QuorumPreimagesWithin(env: Env, o: OuterCommittee, parts: seq<Part>)
    ensures QuorumPreimages(env, o, parts) <= InnerPreimages(o.inners, parts) + OuterPreimage(env, o, parts)
  {
    if CollectInners(env, o.inners, parts).Ok? {
      CollectedInnersSound(env, o.inners, parts);
    }
    hide CollectInners, InnerSound, FindInner, Preimage;
  }

  /** For any outer committee and two quorums, some hash keeps all apart that is hashed for them. */
  lemma QuorumPreimagesCanBeMet(attested: SignerSeat -> bool, o: OuterCommittee, p: seq<Part>, q: seq<Part>)
    returns (env: Env)
    requires |InnerPreimages(o.inners, p) + InnerPreimages(o.inners, q)| + 2 <= Pow256(32)
    ensures env.attested == attested
    ensures CollisionFreeOn(env.hash, QuorumPreimages(env, o, p) + QuorumPreimages(env, o, q))
  {
    hide Pow256, CollisionFreeOn, InnerPreimages, QuorumPreimages;
    var inner := InnerPreimages(o.inners, p) + InnerPreimages(o.inners, q);
    var outer := (h: seq<byte> -> Digest) =>
      OuterPreimage(Env(h, attested), o, p) + OuterPreimage(Env(h, attested), o, q);
    forall h, g | AgreeOn(h, g, inner) ensures outer(h) == outer(g) {
      CollectInnersLocal(Env(h, attested), Env(g, attested), o.inners, p);
      CollectInnersLocal(Env(h, attested), Env(g, attested), o.inners, q);
    }
    assert Layered(inner, outer);
    var hash := CollisionFreeInLayers(inner, outer);
    env := Env(hash, attested);
    QuorumPreimagesWithin(env, o, p);
    QuorumPreimagesWithin(env, o, q);
    CollisionFreeOnSubset(hash, QuorumPreimages(env, o, p) + QuorumPreimages(env, o, q), inner + outer(hash));
  }

  lemma InnerDigestBinds(env: Env, id: Digest, who: seq<Slice>, id2: Digest, who2: seq<Slice>)
    requires CollisionFreeOn(env.hash, {InnerQuorumPreimage(id, who), InnerQuorumPreimage(id2, who2)})
    requires InnerQuorumDigest(env, id, who) == InnerQuorumDigest(env, id2, who2)
    ensures id == id2 && who == who2
  {
    TagsInDomain();
    var a: seq<Slice>, b: seq<Slice> := [id] + who, [id2] + who2;
    TaggedDigestBinds(env.hash, INNER_QUORUM_TAG, a, INNER_QUORUM_TAG, b);
    assert a[0] == id && b[0] == id2 && a[1..] == who && b[1..] == who2;
  }
}
