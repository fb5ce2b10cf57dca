/** The settlement book: each bound work digest is paid from the pool at most once. */
module Settlement {
  import opened Wrappers
  import opened Bytes
  import opened TaggedHash
  import C = Committee
  import P = ThresholdPool

  datatype WorkReceipt = WorkReceipt(askId: Slice, provider: Digest, amount: u64, digest: Digest)

  datatype SettlementError = Replay | MissingReceipt | UnboundDigest | Insufficient | Unauthorized

  type Book = set<Digest>

  function WorkPreimage(askId: Slice, provider: Digest, amount: u64): seq<byte> {
    Preimage(WORK_RECEIPT_TAG, [askId, provider, ToLe(amount, U64_BYTES)])
  }

  function DigestOf(hash: seq<byte> -> Digest, askId: Slice, provider: Digest, amount: u64): Digest {
    hash(WorkPreimage(askId, provider, amount))
  }

  function Bind(hash: seq<byte> -> Digest, askId: Slice, provider: Digest, amount: u64): WorkReceipt {
    WorkReceipt(askId, provider, amount, DigestOf(hash, askId, provider, amount))
  }

  predicate DigestMatches(hash: seq<byte> -> Digest, r: WorkReceipt) {
    r.digest == DigestOf(hash, r.askId, r.provider, r.amount)
  }

  /** Unless the two preimages collide, a work digest binds ask, provider and amount. */
  lemma WorkDigestBinds(hash: seq<byte> -> Digest, r: WorkReceipt, s: WorkReceipt)
    requires DigestMatches(hash, r) && DigestMatches(hash, s)
    requires CollisionFreeOn(hash, {WorkPreimage(r.askId, r.provider, r.amount),
                                    WorkPreimage(s.askId, s.provider, s.amount)})
    requires r.digest == s.digest
    ensures r == s
  {
    TagsInDomain();
    var a: seq<Slice> := [r.askId, r.provider, ToLe(r.amount, U64_BYTES)];
    var b: seq<Slice> := [s.askId, s.provider, ToLe(s.amount, U64_BYTES)];
    TaggedDigestBinds(hash, WORK_RECEIPT_TAG, a, WORK_RECEIPT_TAG, b);
    assert a[0] == b[0] && a[1] == b[1] && a[2] == b[2];
    Pow256Values();
    LeInjective(r.amount, s.amount, U64_BYTES);
  }

  function RequireWork(hash: seq<byte> -> Digest, r: WorkReceipt): Result<(), SettlementError> {
    if r.askId == [] || r.amount == 0 then Err(MissingReceipt)
    else if !DigestMatches(hash, r) then Err(UnboundDigest)
    else Ok(())
  }

  function PayFromPool(env: P.Env, book: Book, pool: P.Pool, r: WorkReceipt, a: P.SpendAuth)
    : Result<(Book, P.Pool), SettlementError>
  {
    match RequireWork(env.committee.hash, r)
    case Err(e) => Err(e)
    case Ok(_) =>
      if r.digest in book then Err(Replay)
      else if pool.balance < r.amount then Err(Insufficient)
      else
        match P.Debit(env, pool, a, r.amount)
        case Err(_) => Err(Unauthorized)
        case Ok(pool2) => Ok((book + {r.digest}, pool2))
  }

  /** Exactly when a receipt is paid, and what that leaves. */
  lemma PayIff(env: P.Env, book: Book, pool: P.Pool, r: WorkReceipt, a: P.SpendAuth)
    ensures PayFromPool(env, book, pool, r, a).Ok? <==>
            && r.askId != [] && r.amount > 0
            && r.digest == env.committee.hash(WorkPreimage(r.askId, r.provider, r.amount))
            && r.digest !in book && pool.balance >= r.amount
            && a.amount == r.amount && P.SpendOk(env, pool, a)
    ensures PayFromPool(env, book, pool, r, a).Ok? ==>
              PayFromPool(env, book, pool, r, a).value
              == (book + {r.digest}, pool.(balance := pool.balance - r.amount))
  {
    P.DebitIff(env, pool, a, r.amount);
    hide P.Debit, P.SpendOk, WorkPreimage;
  }

  class SettlementBook {
    var paidDigests: Book

    constructor (b: Book)
      ensures paidDigests == b
    {
      paidDigests := b;
    }

    method Pay(env: P.Env, pool: P.FrostThresholdPool, r: WorkReceipt, a: P.SpendAuth)
      returns (paid: Result<u64, SettlementError>)
      modifies this, pool
      ensures var spec := PayFromPool(env, old(paidDigests), old(pool.View()), r, a);
              if spec.Ok?
              then paid == Ok(r.amount) && paidDigests == spec.value.0 && pool.View() == spec.value.1
              else paid == Err(spec.error) && paidDigests == old(paidDigests) && pool.View() == old(pool.View())
    {
      var work := RequireWork(env.committee.hash, r);
      if work.Err? {
        return Err(work.error);
      }
      if r.digest in paidDigests {
        return Err(Replay);
      }
      if pool.balance < r.amount {
        return Err(Insufficient);
      }
      var debit := pool.DebitAuthorized(env, a, r.amount);
      if debit.Err? {
        return Err(Unauthorized);
      }
      paidDigests := paidDigests + {r.digest};
      paid := Ok(r.amount);
    }
  }

  // ---- The ledger: pool, book and everything that ever moved ----

  datatype Payment = Payment(digest: Digest, amount: u64)

  /** `lost` is what saturating credits threw away. */
  datatype Ledger = Ledger(pool: P.Pool, book: Book, paid: seq<Payment>, lost: nat)

  function TotalCredited(cs: seq<P.PoolCredit>): nat {
    if cs == [] then 0 else TotalCredited(cs[..|cs| - 1]) + cs[|cs| - 1].amount
  }

  function TotalPaid(ps: seq<Payment>): nat {
    if ps == [] then 0 else TotalPaid(ps[..|ps| - 1]) + ps[|ps| - 1].amount
  }

  function Overflow(balance: u64, amount: u64): nat {
    if balance + amount < U64_SIZE then 0 else balance + amount - U64_MAX
  }

  ghost predicate LedgerInv(l: Ledger) {
    && (forall i, j :: 0 <= i < j < |l.pool.credits| ==> l.pool.credits[i].note != l.pool.credits[j].note)
    && (forall n :: n in l.pool.spentNotes <==> exists i :: 0 <= i < |l.pool.credits| && l.pool.credits[i].note == n)
    && (forall i, j :: 0 <= i < j < |l.paid| ==> l.paid[i].digest != l.paid[j].digest)
    && (forall d :: d in l.book <==> exists i :: 0 <= i < |l.paid| && l.paid[i].digest == d)
    && l.pool.balance + TotalPaid(l.paid) + l.lost == TotalCredited(l.pool.credits)
    && (TotalCredited(l.pool.credits) <= U64_MAX ==> l.lost == 0)
  }

  function ApplyCredit(env: P.Env, l: Ledger, b: P.Bundle, a: P.SpendAuth): Ledger {
    match P.Credit(env, l.pool, b, a)
    case Err(_) => l
    case Ok(pool) => l.(pool := pool, lost := l.lost + Overflow(l.pool.balance, b.amount))
  }

  function ApplyPay(env: P.Env, l: Ledger, r: WorkReceipt, a: P.SpendAuth): Ledger {
    match PayFromPool(env, l.book, l.pool, r, a)
    case Err(_) => l
    case Ok((book, pool)) => l.(pool := pool, book := book, paid := l.paid + [Payment(r.digest, r.amount)])
  }

  lemma CreditKeepsLedger(env: P.Env, l: Ledger, b: P.Bundle, a: P.SpendAuth)
    requires LedgerInv(l)
    ensures LedgerInv(ApplyCredit(env, l, b, a))
  {
    hide P.AuthorizeSpend;
    var m := ApplyCredit(env, l, b, a);
    if m != l {
      var n := |l.pool.credits|;
      assert m.pool.credits[..n] == l.pool.credits && m.pool.credits[n] == P.PoolCredit(b.note, b.amount);
      assert TotalCredited(m.pool.credits) == TotalCredited(l.pool.credits) + b.amount;
      assert forall i :: 0 <= i < n ==> m.pool.credits[i] == l.pool.credits[i];
    }
  }

  lemma PayKeepsLedger(env: P.Env, l: Ledger, r: WorkReceipt, a: P.SpendAuth)
    requires LedgerInv(l)
    ensures LedgerInv(ApplyPay(env, l, r, a))
  {
    hide P.AuthorizeSpend, RequireWork;
    var m := ApplyPay(env, l, r, a);
    if m != l {
      var n := |l.paid|;
      assert m.paid[..n] == l.paid && m.paid[n] == Payment(r.digest, r.amount);
      assert TotalPaid(m.paid) == TotalPaid(l.paid) + r.amount;
      assert forall i :: 0 <= i < n ==> m.paid[i] == l.paid[i];
    }
  }

  /** A payment is not tied to the note in its authorisation. Once an authorisation has paid one
      receipt, it pays another exactly when that is bound work of the same amount under a digest not
      paid before and the pool held twice the amount. */
  lemma AuthorisationReusableIff(env: P.Env, book: Book, pool: P.Pool, r: WorkReceipt, s: WorkReceipt, a: P.SpendAuth)
    requires PayFromPool(env, book, pool, r, a).Ok?
    ensures var (book2, pool2) := PayFromPool(env, book, pool, r, a).value;
            PayFromPool(env, book2, pool2, s, a).Ok? <==>
            && RequireWork(env.committee.hash, s).Ok? && s.amount == r.amount
            && s.digest != r.digest && s.digest !in book
            && pool.balance >= 2 * r.amount
  {
    hide RequireWork;
    var pool2 := PayFromPool(env, book, pool, r, a).value.1;
    AuthorityIgnoresBalance(env, pool, pool2, a);
    hide P.AuthorizeSpend;
  }

  lemma AuthorityIgnoresBalance(env: P.Env, pool: P.Pool, pool2: P.Pool, a: P.SpendAuth)
    requires pool2 == pool.(balance := pool2.balance)
    ensures P.AuthorizeSpend(env, pool2, a) == P.AuthorizeSpend(env, pool, a)
    ensures P.SpendOk(env, pool2, a) <==> P.SpendOk(env, pool, a)
  {
    P.SpendAuthorisedIff(env, pool, a);
    P.SpendAuthorisedIff(env, pool2, a);
    hide P.SpendOk;
    assert P.AuthorizeWithQuorum(env, pool2, a.quorum) == P.AuthorizeWithQuorum(env, pool, a.quorum);
  }

  // ---- One authorisation, two payments ----

  const GROUP: Digest := Repeat(1, 32)

  /** A pool of two zatoshi under a one-of-one committee of one-of-one committees, an authorisation
      for one zatoshi, and two receipts: both are paid with it. */
  lemma OneAuthorisationPaysTwice() returns (env: P.Env, pool: P.Pool, a: P.SpendAuth, r: WorkReceipt, s: WorkReceipt)
    ensures r.askId == [1] && s.askId == [2] && r.amount == s.amount == a.amount == 1 && pool.balance == 2
    ensures PayFromPool(env, {}, pool, r, a).Ok?
    ensures var (book2, pool2) := PayFromPool(env, {}, pool, r, a).value;
            PayFromPool(env, book2, pool2, s, a).Ok?
  {
    var second := WorkPreimage([2], GROUP, 1);
    var hash := (x: seq<byte>) => if x == second then GROUP else ZERO_DIGEST;
    assert GROUP[0] != ZERO_DIGEST[0];
    AsksApart();
    hide WorkPreimage, P.AuthorizeSpend;
    env := P.Env(C.Env(hash, _ => true), (_, _, _, _, _) => true, _ => true);
    r, s := Bind(hash, [1], GROUP, 1), Bind(hash, [2], GROUP, 1);
    assert RequireWork(hash, r).Ok? && RequireWork(hash, s).Ok? && r.digest != s.digest;
    hide Bind, RequireWork;
    pool, a := SmallPool(env);
    AuthorisationReusableIff(env, {}, pool, r, s, a);
  }

  lemma SmallPool(env: P.Env) returns (pool: P.Pool, a: P.SpendAuth)
    requires forall seat :: env.committee.attested(seat)
    ensures pool.balance == 2 && a.amount == 1
    ensures P.AuthorizeSpend(env, pool, a).Ok? && P.SpendOk(env, pool, a)
  {
    var outer, q := SmallQuorum(env.committee);
    pool := P.Pool(GROUP, 2, [], {}, Some(outer), None, None);
    a := P.SpendAuth(GROUP, GROUP, 1, None, q, None);
    assert GROUP[0] != ZERO_DIGEST[0];
    assert P.PartsOf(q) == [C.Part([2], [[1]])];
    hide C.QuorumOfOuter;
    assert P.AuthorizeWithQuorum(env, pool, q).Ok?;
    P.SpendAuthorisedIff(env, pool, a);
    hide P.SpendOk;
  }

  lemma AsksApart()
    ensures WorkPreimage([1], GROUP, 1) != WorkPreimage([2], GROUP, 1)
  {
    var p: seq<Slice>, q: seq<Slice> := [[1], GROUP, ToLe(1, U64_BYTES)], [[2], GROUP, ToLe(1, U64_BYTES)];
    assert p[0] != q[0];
    if WorkPreimage([1], GROUP, 1) == WorkPreimage([2], GROUP, 1) {
      TagsInDomain();
      PreimageInjective(WORK_RECEIPT_TAG, p, WORK_RECEIPT_TAG, q);
    }
  }

  lemma SmallQuorum(env: C.Env) returns (outer: C.OuterCommittee, q: C.LayeredQuorum)
    requires forall seat :: env.attested(seat)
    ensures outer.groupId == Some(GROUP) && q.outerId == outer.id && q.groupId == GROUP
    ensures C.QuorumOfOuter(env, outer, [C.Part([2], [[1]])]) == Ok(q)
    ensures |q.innerQuorums| == 1 && q.innerQuorums[0].name == [2] && q.innerQuorums[0].participants == [[1]]
  {
    var seat := C.SignerSeat([1], GROUP, GROUP, []);
    var inner := C.InnerCommittee(C.InnerId(env, [2], 1, 1, [seat]), [2], 1, [seat]);
    outer := C.BindPool(env, C.OuterCommittee(C.OuterId(env, [3], 1, 1, None, [inner]), [3], 1, None, [inner]), GROUP);
    assert GROUP[0] != ZERO_DIGEST[0];
    hide C.InnerId, C.OuterId, C.InnerQuorumDigest, C.LayeredDigest;
    var who: seq<Slice> := [[1]];
    assert who[..0] == [] && C.CollectSeats(env, [seat], []) == Ok([]);
    assert C.FindSeat([seat], [1]) == Some(seat) && C.SignerIds([]) == [];
    assert C.CollectSeats(env, inner.seats, who) == Ok([] + [seat]);
    assert [] + [seat] == [seat] && 1 % U16_SIZE == 1;
    assert C.Names([seat]) == who;
    var iq := C.InnerQuorum(inner.id, [2], who, C.InnerQuorumDigest(env, inner.id, who));
    assert C.QuorumOfInner(env, inner, who) == Ok(iq);
    var parts := [C.Part([2], who)];
    assert parts[..0] == [] && C.CollectInners(env, [inner], []) == Ok([]);
    assert C.FindInner([inner], [2]) == Some(inner);
    assert C.CollectInners(env, outer.inners, parts) == Ok([] + [iq]);
    assert [] + [iq] == [iq];
    q := C.LayeredQuorum(outer.id, GROUP, [iq], C.LayeredDigest(env, outer.id, [iq]));
  }
}
