/** The threshold pool: who may move its value, and how credits and debits change it. */
module ThresholdPool {
  import opened Wrappers
  import opened Bytes
  import opened TaggedHash
  import C = Committee

  datatype PoolCredit = PoolCredit(note: Digest, amount: u64)

  datatype SpendAuth =
    SpendAuth(groupId: Digest, note: Digest, amount: u64, bid: Option<Digest>, quorum: C.LayeredQuorum,
              frostSig: Option<Slice>)

  /** A deposit proof; its own checks are library code. */
  datatype Bundle = Bundle(groupId: Digest, note: Digest, amount: u64, proof: Slice)

  datatype PoolError = Committee(error: C.CommitteeError) | Replay | Zap1

  datatype Pool = Pool(groupId: Digest, balance: u64, credits: seq<PoolCredit>, spentNotes: set<Digest>,
                       layered: Option<C.OuterCommittee>, frostKey: Option<Digest>, boundBid: Option<Digest>)

  /** Signature check over group, note and amount; proof check of a deposit bundle. */
  datatype Env = Env(committee: C.Env, frostOk: (Digest, Digest, Digest, u64, Slice) -> bool, bundleOk: Bundle -> bool)

  function NewPool(groupId: Digest, layered: Option<C.OuterCommittee>, frostKey: Option<Digest>,
                   boundBid: Option<Digest>): Pool
  {
    Pool(groupId, 0, [], {}, layered, frostKey, boundBid)
  }

  /** The parts a quorum names: inner labels with their participants. */
  function PartsOf(q: C.LayeredQuorum): (parts: seq<C.Part>)
    ensures |parts| == |q.innerQuorums|
    ensures forall i :: 0 <= i < |parts| ==> parts[i] == C.Part(q.innerQuorums[i].name, q.innerQuorums[i].participants)
  {
    seq(|q.innerQuorums|, i requires 0 <= i < |q.innerQuorums| =>
      C.Part(q.innerQuorums[i].name, q.innerQuorums[i].participants))
  }

  function AuthorizeWithQuorum(env: Env, p: Pool, q: C.LayeredQuorum): Result<(), C.CommitteeError> {
    if p.layered.None? then Err(C.Empty)
    else
      var outer := p.layered.value;
      if outer.groupId != Some(p.groupId) || p.groupId == ZERO_DIGEST then Err(C.UnboundGroup)
      else if q.outerId != outer.id || q.groupId != p.groupId then Err(C.UnboundGroup)
      else
        match C.QuorumOfOuter(env.committee, outer, PartsOf(q))
        case Err(e) => Err(e)
        case Ok(recomputed) => if recomputed.digest != q.digest then Err(C.DigestMismatch) else Ok(())
  }

  function AuthorizeSpend(env: Env, p: Pool, a: SpendAuth): Result<(), C.CommitteeError> {
    if a.groupId != p.groupId then Err(C.SpendGroup)
    else if a.note == ZERO_DIGEST || a.amount == 0 then Err(C.UnboundSpend)
    else
      match AuthorizeWithQuorum(env, p, a.quorum)
      case Err(e) => Err(e)
      case Ok(_) =>
        if a.quorum.groupId != p.groupId then Err(C.SpendGroup)
        else if p.boundBid.Some? && a.bid != p.boundBid then Err(C.SpendNote)
        else if p.frostKey.None? then Ok(())
        else if a.frostSig.None? then Err(C.FrostRequired)
        else if env.frostOk(p.frostKey.value, a.groupId, a.note, a.amount, a.frostSig.value) then Ok(())
        else Err(C.FrostVerify)
  }

  function Debit(env: Env, p: Pool, a: SpendAuth, amount: u64): Result<Pool, PoolError> {
    match AuthorizeSpend(env, p, a)
    case Err(e) => Err(Committee(e))
    case Ok(_) =>
      if a.amount != amount then Err(Committee(C.SpendAmount))
      else if p.balance < amount then Err(Replay)
      else Ok(p.(balance := p.balance - amount))
  }

  function SaturatingAdd(a: u64, b: u64): u64 {
    if a + b < U64_SIZE then a + b else U64_MAX
  }

  function Credit(env: Env, p: Pool, b: Bundle, a: SpendAuth): Result<Pool, PoolError> {
    if !env.bundleOk(b) then Err(Zap1)
    else
      match AuthorizeSpend(env, p, a)
      case Err(e) => Err(Committee(e))
      case Ok(_) =>
        if b.groupId != a.groupId || b.groupId != p.groupId then Err(Committee(C.SpendGroup))
        else if b.note != a.note then Err(Committee(C.SpendNote))
        else if b.amount != a.amount then Err(Committee(C.SpendAmount))
        else if b.note in p.spentNotes then Err(Replay)
        else Ok(p.(spentNotes := p.spentNotes + {b.note},
                   balance := SaturatingAdd(p.balance, b.amount),
                   credits := p.credits + [PoolCredit(b.note, b.amount)]))
  }

  /** The pool as the program holds it: fields changed in place. */
  class FrostThresholdPool {
    const groupId: Digest
    const layered: Option<C.OuterCommittee>
    const frostKey: Option<Digest>
    const boundBid: Option<Digest>
    var balance: u64
    var credits: seq<PoolCredit>
    var spentNotes: set<Digest>

    constructor (p: Pool)
      ensures View() == p
    {
      groupId, layered, frostKey, boundBid := p.groupId, p.layered, p.frostKey, p.boundBid;
      balance, credits, spentNotes := p.balance, p.credits, p.spentNotes;
    }

    function View(): Pool
      reads this
    {
      Pool(groupId, balance, credits, spentNotes, layered, frostKey, boundBid)
    }

    method DebitAuthorized(env: Env, a: SpendAuth, amount: u64) returns (r: Result<(), PoolError>)
      modifies this
      ensures r.Ok? <==> Debit(env, old(View()), a, amount).Ok?
      ensures View() == if r.Ok? then Debit(env, old(View()), a, amount).value else old(View())
      ensures r.Err? ==> Debit(env, old(View()), a, amount) == Err(r.error)
    {
      var auth := AuthorizeSpend(env, View(), a);
      if auth.Err? {
        return Err(Committee(auth.error));
      }
      if a.amount != amount {
        return Err(Committee(C.SpendAmount));
      }
      if balance < amount {
        return Err(Replay);
      }
      balance := balance - amount; // the saturating subtraction never saturates here
      r := Ok(());
    }

    method CreditDepositZap1(env: Env, b: Bundle, a: SpendAuth) returns (r: Result<PoolCredit, PoolError>)
      modifies this
      ensures r.Ok? <==> Credit(env, old(View()), b, a).Ok?
      ensures View() == if r.Ok? then Credit(env, old(View()), b, a).value else old(View())
      ensures r == if r.Ok? then Ok(PoolCredit(b.note, b.amount)) else Err(Credit(env, old(View()), b, a).error)
    {
      if !env.bundleOk(b) {
        return Err(Zap1);
      }
      var auth := AuthorizeSpend(env, View(), a);
      if auth.Err? {
        return Err(Committee(auth.error));
      }
      if b.groupId != a.groupId || b.groupId != groupId {
        return Err(Committee(C.SpendGroup));
      }
      if b.note != a.note {
        return Err(Committee(C.SpendNote));
      }
      if b.amount != a.amount {
        return Err(Committee(C.SpendAmount));
      }
      if b.note in spentNotes {
        return Err(Replay);
      }
      spentNotes := spentNotes + {b.note};
      var credit := PoolCredit(b.note, b.amount);
      balance := SaturatingAdd(balance, b.amount);
      credits := credits + [credit];
      r := Ok(credit);
    }
  }

  /** Any quorum the pool accepts names at least the outer threshold of distinct inner committees,
      each with at least its own threshold of distinct, enrolled, attested seats with distinct
      signers - whatever the 16-bit counts would have made of a longer list. */
  lemma AcceptedQuorumIsSound(env: Env, p: Pool, q: C.LayeredQuorum)
    requires AuthorizeWithQuorum(env, p, q).Ok?
    ensures p.layered.Some? && p.layered.value.groupId == Some(p.groupId) && p.groupId != ZERO_DIGEST
    ensures C.OuterSound(env.committee, p.layered.value, PartsOf(q))
  {
    C.OuterQuorumSound(env.committee, p.layered.value, PartsOf(q));
  }

  /** What it takes to move the pool's value: the pool's own group, a bound note and amount, a quorum of
      the pool's committee under the digest that its parts hash to, the bound bid if there is one, and
      a signature over group, note and amount if the pool has a key. */
  ghost predicate SpendOk(env: Env, p: Pool, a: SpendAuth) {
    && a.groupId == p.groupId && p.groupId != ZERO_DIGEST && a.note != ZERO_DIGEST && a.amount > 0
    && QuorumOk(env, p, a.quorum)
    && (p.boundBid.Some? ==> a.bid == p.boundBid)
    && (p.frostKey.Some? ==>
          a.frostSig.Some? && env.frostOk(p.frostKey.value, a.groupId, a.note, a.amount, a.frostSig.value))
  }

  ghost predicate QuorumOk(env: Env, p: Pool, q: C.LayeredQuorum) {
    && p.layered.Some?
    && var outer := p.layered.value;
       && outer.groupId == Some(p.groupId) && q.outerId == outer.id && q.groupId == p.groupId
       && C.InnersAccepted(env.committee, outer.inners, PartsOf(q))
       && |q.innerQuorums| % U16_SIZE >= outer.threshold
       && q.digest == C.QuorumDigest(env.committee, outer, PartsOf(q))
  }

  lemma QuorumOkIff(env: Env, p: Pool, q: C.LayeredQuorum)
    ensures AuthorizeWithQuorum(env, p, q).Ok? <==> p.groupId != ZERO_DIGEST && QuorumOk(env, p, q)
  {
    if p.layered.Some? {
      C.OuterQuorumIff(env.committee, p.layered.value, PartsOf(q));
    }
    hide C.QuorumOfOuter, C.InnersAccepted, C.QuorumDigest;
  }

  lemma SpendAuthorisedIff(env: Env, p: Pool, a: SpendAuth)
    ensures AuthorizeSpend(env, p, a).Ok? <==> SpendOk(env, p, a)
  {
    QuorumOkIff(env, p, a.quorum);
    assert QuorumOk(env, p, a.quorum) ==> a.quorum.groupId == p.groupId;
    hide AuthorizeWithQuorum, QuorumOk;
  }

  /** Exactly when a debit goes through, and what it leaves. */
  lemma DebitIff(env: Env, p: Pool, a: SpendAuth, amount: u64)
    ensures Debit(env, p, a, amount).Ok? <==> SpendOk(env, p, a) && a.amount == amount <= p.balance
    ensures Debit(env, p, a, amount).Ok? ==> Debit(env, p, a, amount).value == p.(balance := p.balance - amount)
  {
    SpendAuthorisedIff(env, p, a);
    hide AuthorizeSpend, SpendOk;
  }

  /** Exactly when a deposit is credited, and what it leaves. */
  lemma CreditIff(env: Env, p: Pool, b: Bundle, a: SpendAuth)
    ensures Credit(env, p, b, a).Ok? <==>
            && env.bundleOk(b) && SpendOk(env, p, a)
            && b.groupId == p.groupId && b.note == a.note && b.amount == a.amount && b.note !in p.spentNotes
    ensures Credit(env, p, b, a).Ok? ==>
              Credit(env, p, b, a).value
              == p.(spentNotes := p.spentNotes + {b.note}, credits := p.credits + [PoolCredit(b.note, b.amount)],
                    balance := if p.balance + b.amount <= U64_MAX then p.balance + b.amount else U64_MAX)
  {
    SpendAuthorisedIff(env, p, a);
    assert SpendOk(env, p, a) ==> a.groupId == p.groupId;
    hide AuthorizeSpend, SpendOk;
  }

  /** An authorised spend in particular has a sound quorum behind it. */
  lemma AuthorisedSpendIsSound(env: Env, p: Pool, a: SpendAuth)
    requires SpendOk(env, p, a)
    ensures p.layered.Some? && C.OuterSound(env.committee, p.layered.value, PartsOf(a.quorum))
  {
    QuorumOkIff(env, p, a.quorum);
    AcceptedQuorumIsSound(env, p, a.quorum);
  }

  /** Only labels, participants and the outer digest are recomputed: the inner identifiers and
      inner digests a quorum carries are never looked at. */
  lemma InnerFieldsUnchecked(env: Env, p: Pool, q: C.LayeredQuorum, r: C.LayeredQuorum)
    requires r.outerId == q.outerId && r.groupId == q.groupId && r.digest == q.digest
    requires PartsOf(r) == PartsOf(q)
    ensures AuthorizeWithQuorum(env, p, r) == AuthorizeWithQuorum(env, p, q)
  {
  }

  /** Two quorums the pool accepts under one digest name the same committees and participants. */
  lemma AcceptedDigestPinsSigners(env: Env, p: Pool, q: C.LayeredQuorum, r: C.LayeredQuorum)
    requires AuthorizeWithQuorum(env, p, q).Ok? && AuthorizeWithQuorum(env, p, r).Ok?
    requires CollisionFreeOn(env.committee.hash,
                             C.QuorumPreimages(env.committee, p.layered.value, PartsOf(q))
                             + C.QuorumPreimages(env.committee, p.layered.value, PartsOf(r)))
    requires q.digest == r.digest
    ensures |q.innerQuorums| == |r.innerQuorums|
    ensures forall i :: 0 <= i < |q.innerQuorums| ==> q.innerQuorums[i].participants == r.innerQuorums[i].participants
    ensures forall i :: 0 <= i < |q.innerQuorums| ==>
              var c := C.FindInner(p.layered.value.inners, q.innerQuorums[i].name);
              var d := C.FindInner(p.layered.value.inners, r.innerQuorums[i].name);
              c.Some? && d.Some? && c.value.id == d.value.id
  {
    C.DigestPinsQuorum(env.committee, p.layered.value, PartsOf(q), PartsOf(r));
    forall i | 0 <= i < |q.innerQuorums|
      ensures q.innerQuorums[i].participants == r.innerQuorums[i].participants
      ensures var c := C.FindInner(p.layered.value.inners, q.innerQuorums[i].name);
              var d := C.FindInner(p.layered.value.inners, r.innerQuorums[i].name);
              c.Some? && d.Some? && c.value.id == d.value.id
    {
      assert PartsOf(q)[i].members == PartsOf(r)[i].members;
      assert PartsOf(q)[i].name == q.innerQuorums[i].name && PartsOf(r)[i].name == r.innerQuorums[i].name;
    }
  }
}
