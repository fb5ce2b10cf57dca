/** Where every payment and every credit of a ledger comes from, over every interleaving. */
module LedgerHistory {
  import opened Wrappers
  import opened Bytes
  import opened TaggedHash
  import opened EscrowCell
  import C = Committee
  import P = ThresholdPool
  import S = Settlement

  /** The fields of a pool that say who may move its value. */
  ghost predicate SameAuthority(p: P.Pool, q: P.Pool) {
    p.groupId == q.groupId && p.layered == q.layered && p.frostKey == q.frostKey && p.boundBid == q.boundBid
  }

  lemma AuthorityCarries(env: P.Env, p: P.Pool, q: P.Pool, a: P.SpendAuth)
    requires SameAuthority(p, q)
    ensures P.SpendOk(env, p, a) <==> P.SpendOk(env, q, a)
  {
    assert P.QuorumOk(env, p, a.quorum) <==> P.QuorumOk(env, q, a.quorum);
    hide P.QuorumOk;
  }

  /** The leg was authorised for its amount, and the payment is that leg's. */
  ghost predicate PaidAs(env: Env, pool: P.Pool, r: S.WorkReceipt, a: P.SpendAuth, pay: S.Payment) {
    && pay == S.Payment(r.digest, r.amount) && r.amount > 0
    && r.digest == HashOf(env)(S.WorkPreimage(r.askId, r.provider, r.amount))
    && a.amount == r.amount && P.SpendOk(env.pool, pool, a)
  }

  ghost predicate PaidBy(env: Env, pool: P.Pool, op: LedgerOp, pay: S.Payment) {
    match op
    case OpCredit(_, _) => false
    case OpPay(r, a) => PaidAs(env, pool, r, a, pay)
    case OpSettle(c, a, b, ask) =>
      && c.closed.Some?
      && (|| (a.Some? && PaidAs(env, pool, ProviderReceipt(env, c, ask), a.value, pay))
          || (b.Some? && PaidAs(env, pool, RefundReceipt(env, c, ask), b.value, pay)))
  }

  ghost predicate CreditedBy(env: Env, pool: P.Pool, op: LedgerOp, credit: P.PoolCredit) {
    && op.OpCredit?
    && env.pool.bundleOk(op.bundle) && op.bundle.groupId == pool.groupId
    && credit == P.PoolCredit(op.bundle.note, op.bundle.amount)
    && op.creditAuth.note == credit.note && op.creditAuth.amount == credit.amount
    && P.SpendOk(env.pool, pool, op.creditAuth)
  }

  ghost predicate Backed(env: Env, pool: P.Pool, l: S.Ledger, ops: seq<LedgerOp>) {
    && SameAuthority(l.pool, pool)
    && (forall i :: 0 <= i < |l.paid| ==> exists k :: 0 <= k < |ops| && PaidBy(env, pool, ops[k], l.paid[i]))
    && (forall i :: 0 <= i < |l.pool.credits| ==>
          exists k :: 0 <= k < |ops| && CreditedBy(env, pool, ops[k], l.pool.credits[i]))
  }

  /** What one operation adds is all its own. */
  ghost predicate AddedBy(env: Env, pool: P.Pool, l: S.Ledger, m: S.Ledger, op: LedgerOp) {
    && SameAuthority(m.pool, pool)
    && |l.paid| <= |m.paid| && m.paid[..|l.paid|] == l.paid
    && |l.pool.credits| <= |m.pool.credits| && m.pool.credits[..|l.pool.credits|] == l.pool.credits
    && (forall i :: |l.paid| <= i < |m.paid| ==> PaidBy(env, pool, op, m.paid[i]))
    && (forall i :: |l.pool.credits| <= i < |m.pool.credits| ==> CreditedBy(env, pool, op, m.pool.credits[i]))
  }

  lemma BackedGrows(env: Env, pool: P.Pool, l: S.Ledger, m: S.Ledger, ops: seq<LedgerOp>, op: LedgerOp)
    requires Backed(env, pool, l, ops) && AddedBy(env, pool, l, m, op)
    ensures Backed(env, pool, m, ops + [op])
  {
    hide PaidBy, CreditedBy, SameAuthority;
    var all := ops + [op];
    assert all[|ops|] == op && forall k :: 0 <= k < |ops| ==> all[k] == ops[k];
    forall i | 0 <= i < |m.paid| ensures exists k :: 0 <= k < |all| && PaidBy(env, pool, all[k], m.paid[i]) {
      if i < |l.paid| {
        assert m.paid[i] == l.paid[i];
        var k :| 0 <= k < |ops| && PaidBy(env, pool, ops[k], l.paid[i]);
        assert PaidBy(env, pool, all[k], m.paid[i]);
      } else {
        assert PaidBy(env, pool, all[|ops|], m.paid[i]);
      }
    }
    forall i | 0 <= i < |m.pool.credits|
      ensures exists k :: 0 <= k < |all| && CreditedBy(env, pool, all[k], m.pool.credits[i])
    {
      if i < |l.pool.credits| {
        assert m.pool.credits[i] == l.pool.credits[i];
        var k :| 0 <= k < |ops| && CreditedBy(env, pool, ops[k], l.pool.credits[i]);
        assert CreditedBy(env, pool, all[k], m.pool.credits[i]);
      } else {
        assert CreditedBy(env, pool, all[|ops|], m.pool.credits[i]);
      }
    }
  }

  /** A payment adds one entry, authorised for its receipt. */
  ghost predicate PaidOne(env: Env, pool: P.Pool, l: S.Ledger, m: S.Ledger, r: S.WorkReceipt, a: P.SpendAuth) {
    || m == l
    || (&& m.paid == l.paid + [S.Payment(r.digest, r.amount)] && PaidAs(env, pool, r, a, S.Payment(r.digest, r.amount))
        && m.pool == l.pool.(balance := m.pool.balance))
  }

  lemma PayAdds(env: Env, pool: P.Pool, l: S.Ledger, r: S.WorkReceipt, a: P.SpendAuth)
    requires SameAuthority(l.pool, pool)
    ensures PaidOne(env, pool, l, S.ApplyPay(env.pool, l, r, a), r, a)
  {
    S.PayIff(env.pool, l.book, l.pool, r, a);
    AuthorityCarries(env.pool, l.pool, pool, a);
    hide S.PayFromPool, P.SpendOk, S.WorkPreimage;
  }

  lemma SettleAdds(env: Env, pool: P.Pool, l: S.Ledger, c: Cell,
                   pay: Option<P.SpendAuth>, refund: Option<P.SpendAuth>, ask: Slice)
    requires SameAuthority(l.pool, pool)
    ensures AddedBy(env, pool, l, ApplySettle(env, l, c, pay, refund, ask), OpSettle(c, pay, refund, ask))
  {
    hide S.ApplyPay, PaidAs, Settle, ProviderReceipt, RefundReceipt;
    if Settle(env, c, l.book, l.pool, pay, refund, ask).Ok? {
      assert c.closed.Some? by { SettledIsClosed(env, c, l, pay, refund, ask); }
      var p, q := ProviderReceipt(env, c, ask), RefundReceipt(env, c, ask);
      if pay.Some? {
        PayAdds(env, pool, l, p, pay.value);
      }
      var l1 := ApplyLeg(env, l, c.closed.value.earned, p, pay);
      if refund.Some? {
        PayAdds(env, pool, l1, q, refund.value);
      }
    }
  }

  lemma SettledIsClosed(env: Env, c: Cell, l: S.Ledger,
                        pay: Option<P.SpendAuth>, refund: Option<P.SpendAuth>, ask: Slice)
    requires Settle(env, c, l.book, l.pool, pay, refund, ask).Ok?
    ensures c.closed.Some?
  {
    hide PayLeg;
  }

  lemma StepAdds(env: Env, pool: P.Pool, l: S.Ledger, op: LedgerOp)
    requires SameAuthority(l.pool, pool)
    ensures AddedBy(env, pool, l, LedgerStep(env, l, op), op)
  {
    match op
    case OpCredit(b, a) =>
      P.CreditIff(env.pool, l.pool, b, a);
      AuthorityCarries(env.pool, l.pool, pool, a);
      hide P.Credit, P.SpendOk;
    case OpPay(r, a) =>
      PayAdds(env, pool, l, r, a);
      hide S.ApplyPay, PaidAs;
    case OpSettle(c, pay, refund, ask) =>
      SettleAdds(env, pool, l, c, pay, refund, ask);
      hide ApplySettle, AddedBy;
  }

  lemma {:induction false} RunBacked(env: Env, pool: P.Pool, l: S.Ledger, done: seq<LedgerOp>, ops: seq<LedgerOp>)
    requires Backed(env, pool, l, done)
    ensures Backed(env, pool, LedgerRun(env, l, ops), done + ops)
    decreases |ops|
  {
    if ops == [] {
      assert done + ops == done;
    } else {
      StepAdds(env, pool, l, ops[0]);
      BackedGrows(env, pool, l, LedgerStep(env, l, ops[0]), done, ops[0]);
      hide Backed, LedgerStep, AddedBy;
      RunBacked(env, pool, LedgerStep(env, l, ops[0]), done + [ops[0]], ops[1..]);
      assert done + [ops[0]] + ops[1..] == done + ops;
    }
  }

  /** Over every interleaving from a new pool: each payment ever made was made by an operation of the run
      that carried an authorisation good for it, and each credit by one that carried a proven deposit
      and an authorisation for that note and amount. */
  lemma EveryMoveAuthorised(env: Env, groupId: Digest, layered: Option<C.OuterCommittee>, frostKey: Option<Digest>,
                            boundBid: Option<Digest>, ops: seq<LedgerOp>)
    ensures var pool := P.NewPool(groupId, layered, frostKey, boundBid);
            var l := LedgerRun(env, S.Ledger(pool, {}, [], 0), ops);
            && (forall i :: 0 <= i < |l.paid| ==> exists k :: 0 <= k < |ops| && PaidBy(env, pool, ops[k], l.paid[i]))
            && (forall i :: 0 <= i < |l.pool.credits| ==>
                  exists k :: 0 <= k < |ops| && CreditedBy(env, pool, ops[k], l.pool.credits[i]))
  {
    var pool := P.NewPool(groupId, layered, frostKey, boundBid);
    assert SameAuthority(pool, pool);
    hide PaidBy, CreditedBy, SameAuthority;
    var l0 := S.Ledger(pool, {}, [], 0);
    assert Backed(env, pool, l0, []);
    RunBacked(env, pool, l0, [], ops);
    assert [] + ops == ops;
    assert Backed(env, pool, LedgerRun(env, l0, ops), ops);
  }
}
