/** What a cell's earnings consist of over a whole run, and concrete cells that are settled twice or
    block each other. */
module CellHistory {
  import opened Wrappers
  import opened Bytes
  import opened TaggedHash
  import opened EscrowCell
  import A = Accrual
  import C = Committee
  import L = LeaseBook
  import P = ThresholdPool
  import S = Settlement

  // ---- What was earned ----

  /** The amount of the last accepted witness, and the receipts accepted since. */
  datatype History = History(base: nat, since: seq<S.WorkReceipt>)

  function Remember(env: Env, c: Cell, h: History, op: Op): History
    requires c.earned <= c.deposit
  {
    match op
    case OpWitness(w, p) => if AccrueFromWitness(env, c, w, p).Ok? then History(w.earned, []) else h
    case OpWork(rs) => if AccrueReceipts(env, c, rs).Ok? then h.(since := h.since + rs) else h
    case OpClose(_, _, _, _) => h
  }

  function RunHistory(env: Env, c: Cell, h: History, ops: seq<Op>): History
    requires CellInv(c)
    decreases |ops|
  {
    if ops == [] then h
    else
      StepKeepsCell(env, c, ops[0]);
      RunHistory(env, Step(env, c, ops[0]), Remember(env, c, h, ops[0]), ops[1..])
  }

  function Amounts(rs: seq<S.WorkReceipt>): nat {
    if rs == [] then 0 else Amounts(rs[..|rs| - 1]) + rs[|rs| - 1].amount
  }

  /** Each receipt counted once. */
  function DistinctAmounts(rs: seq<S.WorkReceipt>): nat {
    if rs == [] then 0
    else
      var n := |rs| - 1;
      DistinctAmounts(rs[..n]) + (if rs[n] in rs[..n] then 0 else rs[n].amount)
  }

  ghost predicate Repeats(rs: seq<S.WorkReceipt>) {
    exists i, j :: 0 <= i < j < |rs| && rs[i] == rs[j]
  }

  ghost predicate AllPaid(rs: seq<S.WorkReceipt>) {
    forall i :: 0 <= i < |rs| ==> rs[i].amount > 0
  }

  lemma {:induction false} AmountsConcat(a: seq<S.WorkReceipt>, b: seq<S.WorkReceipt>)
    ensures Amounts(a + b) == Amounts(a) + Amounts(b)
    decreases |b|
  {
    if b == [] {
      assert a + b == a;
    } else {
      assert (a + b)[..|a + b| - 1] == a + b[..|b| - 1];
      AmountsConcat(a, b[..|b| - 1]);
    }
  }

  lemma {:induction false} SumIsAmounts(env: Env, bid: Digest, rs: seq<S.WorkReceipt>)
    requires SumReceipts(env, bid, rs).Ok?
    ensures SumReceipts(env, bid, rs).value == Amounts(rs) && AllPaid(rs)
  {
    if rs != [] {
      SumIsAmounts(env, bid, rs[..|rs| - 1]);
    }
  }

  /** Work of this bid's provider, bound by its digest, for something. */
  ghost predicate BoundWork(env: Env, bid: Digest, r: S.WorkReceipt) {
    r.digest == HashOf(env)(S.WorkPreimage(r.askId, r.provider, r.amount)) && r.amount > 0 && r.provider == bid
  }

  lemma {:induction false} SumIff(env: Env, bid: Digest, rs: seq<S.WorkReceipt>)
    ensures SumReceipts(env, bid, rs).Ok? <==>
            (forall i :: 0 <= i < |rs| ==> BoundWork(env, bid, rs[i])) && Amounts(rs) < U64_SIZE
  {
    hide S.WorkPreimage;
    if rs != [] {
      var n := |rs| - 1;
      var before := rs[..n];
      assert forall i :: 0 <= i < n ==> before[i] == rs[i];
      SumIff(env, bid, before);
      if SumReceipts(env, bid, before).Ok? {
        SumIsAmounts(env, bid, before);
      }
    }
  }

  /** Exactly when receipts accrue, and what they leave: every one is bound work for this bid, and all
      of it together still fits the deposit. */
  lemma WorkAccruesIff(env: Env, c: Cell, rs: seq<S.WorkReceipt>)
    ensures AccrueReceipts(env, c, rs).Ok? <==>
            && c.closed.None? && rs != []
            && (forall i :: 0 <= i < |rs| ==> BoundWork(env, c.bid, rs[i]))
            && c.earned + Amounts(rs) <= c.deposit
    ensures AccrueReceipts(env, c, rs).Ok? ==>
              AccrueReceipts(env, c, rs).value
              == c.(receipts := c.receipts + rs, earned := c.earned + Amounts(rs))
  {
    hide SumReceipts, BoundWork, Amounts, AllPaid;
    SumIff(env, c.bid, rs);
    if SumReceipts(env, c.bid, rs).Ok? {
      SumIsAmounts(env, c.bid, rs);
    }
  }

  /** Counting each receipt once falls short exactly when some receipt occurs twice. */
  lemma {:induction false} RepeatsIff(rs: seq<S.WorkReceipt>)
    requires AllPaid(rs)
    ensures DistinctAmounts(rs) <= Amounts(rs)
    ensures DistinctAmounts(rs) < Amounts(rs) <==> Repeats(rs)
  {
    if rs != [] {
      var n := |rs| - 1;
      RepeatsIff(rs[..n]);
      RepeatsLast(rs);
    }
  }

  lemma RepeatsLast(rs: seq<S.WorkReceipt>)
    requires rs != []
    ensures Repeats(rs) <==> Repeats(rs[..|rs| - 1]) || rs[|rs| - 1] in rs[..|rs| - 1]
  {
    var n := |rs| - 1;
    var before := rs[..n];
    if Repeats(rs) {
      var i, j :| 0 <= i < j < |rs| && rs[i] == rs[j];
      assert before[i] == rs[i] && (j < n ==> before[j] == rs[j]);
    }
    if Repeats(before) {
      var i, j :| 0 <= i < j < |before| && before[i] == before[j];
      assert rs[i] == rs[j];
    }
    if rs[n] in before {
      var i :| 0 <= i < n && before[i] == rs[n];
      assert rs[i] == rs[n];
    }
  }

  ghost predicate Accounted(c: Cell, h: History) {
    c.earned == h.base + Amounts(h.since) && AllPaid(h.since)
  }

  lemma StepStaysAccounted(env: Env, c: Cell, h: History, op: Op)
    requires CellInv(c) && Accounted(c, h)
    ensures Accounted(Step(env, c, op), Remember(env, c, h, op))
  {
    hide A.VerifyWitness, SumReceipts, HexOr;
    if op.OpWork? && AccrueReceipts(env, c, op.receipts).Ok? {
      SumIsAmounts(env, c.bid, op.receipts);
      AmountsConcat(h.since, op.receipts);
    }
  }

  lemma {:induction false} RunStaysAccounted(env: Env, c: Cell, h: History, ops: seq<Op>)
    requires CellInv(c) && Accounted(c, h)
    ensures Accounted(RunCell(env, c, ops), RunHistory(env, c, h, ops))
    decreases |ops|
  {
    hide Accounted, Step, Remember;
    if ops != [] {
      StepStaysAccounted(env, c, h, ops[0]);
      StepKeepsCell(env, c, ops[0]);
      RunStaysAccounted(env, Step(env, c, ops[0]), Remember(env, c, h, ops[0]), ops[1..]);
    }
  }

  /** In every run from opening, what is earned is the amount of the last accepted witness, which
      overwrites all before it, plus every receipt accepted since, as often as it was passed. It
      exceeds what the distinct receipts come to exactly when a receipt was passed twice. */
  lemma EarnedOverRuns(env: Env, deposit: u64, bid: Digest, m: Members, ops: seq<Op>)
    requires Open(env, deposit, bid, m).Ok?
    ensures var c0 := Opened(env, deposit, bid, m);
            var h := RunHistory(env, c0, History(0, []), ops);
            var earned := RunCell(env, c0, ops).earned;
            && earned == h.base + Amounts(h.since) <= deposit
            && (earned > h.base + DistinctAmounts(h.since) <==> Repeats(h.since))
  {
    var c0 := Opened(env, deposit, bid, m);
    hide RunCell, RunHistory;
    RunStaysAccounted(env, c0, History(0, []), ops);
    CellRunInvariant(env, c0, ops);
    RepeatsIff(RunHistory(env, c0, History(0, []), ops).since);
  }

  /** One receipt, passed twice in one call, counts twice. */
  lemma ReceiptCountsTwice(env: Env, c: Cell, r: S.WorkReceipt)
    requires CellInv(c) && c.closed.None?
    requires S.DigestMatches(HashOf(env), r) && r.amount > 0 && r.provider == c.bid
    requires c.earned + 2 * r.amount <= c.deposit
    ensures AccrueReceipts(env, c, [r, r]).Ok? && AccrueReceipts(env, c, [r, r]).value.earned == c.earned + 2 * r.amount
  {
    hide S.DigestMatches;
    assert [r, r][..1] == [r] && [r][..0] == [];
    assert SumReceipts(env, c.bid, [r]) == Ok(r.amount);
    assert SumReceipts(env, c.bid, [r, r]) == Ok(2 * r.amount);
  }

  // ---- Concrete cells ----

  const LEASE: L.Leases := L.Leases(map[[] := L.Lease([], true)], map[])

  function Parties(tenant: byte): Members {
    Members([tenant], [2], [3])
  }

  const HASHLESS: A.Env := A.Env((_, _, _, _, _, _) => ZERO_DIGEST, (_, _, _, _, _, _, _) => ZERO_DIGEST)

  /** Accrue one receipt of one zatoshi under ask [9], then close. */
  function OneJob(env: Env): seq<Op> {
    [OpWork([S.Bind(HashOf(env), [9], S.GROUP, 1)]), OpClose(Provider, LEASE, [], None)]
  }

  lemma {:induction false} RunTwo(env: Env, c: Cell, a: Op, b: Op)
    requires CellInv(c)
    ensures CellInv(Step(env, c, a)) && RunCell(env, c, [a, b]) == Step(env, Step(env, c, a), b)
  {
    StepKeepsCell(env, c, a);
    hide Step, CellInv;
    StepKeepsCell(env, Step(env, c, a), b);
    assert [a, b][1..] == [b] && [b][1..] == [];
    assert RunCell(env, Step(env, c, a), [b]) == Step(env, Step(env, c, a), b);
  }

  lemma EarnsOne(env: Env, c: Cell, r: S.WorkReceipt)
    requires CellInv(c) && c.closed.None? && c.deposit == 1 && c.earned == 0
    requires S.DigestMatches(HashOf(env), r) && r.amount == 1 && r.provider == c.bid
    ensures Step(env, c, OpWork([r])) == c.(receipts := c.receipts + [r], earned := 1)
  {
    hide S.DigestMatches;
    assert [r][..0] == [] && SumReceipts(env, c.bid, []) == Ok(0);
    assert SumReceipts(env, c.bid, [r]) == Ok(1);
  }

  /** A deposit of one zatoshi, earned by one receipt and closed. */
  lemma SmallCell(env: Env, tenant: byte) returns (c: Cell)
    ensures Open(env, 1, S.GROUP, Parties(tenant)).Ok?
    ensures c == RunCell(env, Opened(env, 1, S.GROUP, Parties(tenant)), OneJob(env))
    ensures CellInv(c) && c.closed.Some? && c.deposit == c.earned == 1 && c.bid == S.GROUP
    ensures c.cellId == CellId(HashOf(env), 1, S.GROUP, Parties(tenant)) && c.members == Parties(tenant)
  {
    hide CellId, S.DigestOf, SumReceipts, HexOr, RunCell;
    assert S.GROUP[0] != ZERO_DIGEST[0];
    var c0 := Opened(env, 1, S.GROUP, Parties(tenant));
    var r := S.Bind(HashOf(env), [9], S.GROUP, 1);
    EarnsOne(env, c0, r);
    var c1 := Step(env, c0, OpWork([r]));
    RunTwo(env, c0, OpWork([r]), OpClose(Provider, LEASE, [], None));
    hide Step;
    c := RunCell(env, c0, OneJob(env));
    Closes(env, c1);
  }

  lemma Closes(env: Env, c: Cell)
    requires CellInv(c) && c.closed.None?
    ensures var d := Step(env, c, OpClose(Provider, LEASE, [], None));
            && CellInv(d) && d.closed.Some?
            && d == c.(closed := d.closed, grant := d.grant)
  {
    hide HexOr;
    assert [] in LEASE.leases;
  }

  /** Two distinct digests for the provider's receipt are enough to settle an earned cell twice. */
  lemma SettlesTwice(env: Env, c: Cell, pool: P.Pool, a: P.SpendAuth)
    requires CellInv(c) && c.closed.Some? && c.deposit == c.earned == 1
    requires pool.balance == 2 && Authorised(env, pool, Some(a), 1)
    requires ProviderReceipt(env, c, [1]).digest != ProviderReceipt(env, c, [2]).digest
    ensures Settle(env, c, {}, pool, Some(a), None, [1]).Ok?
    ensures var (book2, pool2) := Settle(env, c, {}, pool, Some(a), None, [1]).value;
            Settle(env, c, book2, pool2, Some(a), None, [2]).Ok?
  {
    hide ProviderReceipt, RefundReceipt, Settle, Authorised;
    SettleIff(env, c, {}, pool, Some(a), None, [1]);
    SettleEffect(env, c, {}, pool, Some(a), None, [1]);
    SettleUnderOtherAskIff(env, c, {}, pool, Some(a), None, [1], [2]);
  }

  /** A pool of two zatoshi and an authorisation for one settle a cell of deposit one twice, under the
      asks [1] and [2]: the pool pays out twice the deposit. */
  lemma CellSettledTwice() returns (env: Env, c: Cell, pool: P.Pool, a: P.SpendAuth)
    ensures Open(env, 1, S.GROUP, Parties(1)).Ok?
    ensures c == RunCell(env, Opened(env, 1, S.GROUP, Parties(1)), OneJob(env)) && c.deposit == 1 && pool.balance == 2
    ensures Settle(env, c, {}, pool, Some(a), None, [1]).Ok?
    ensures var (book2, pool2) := Settle(env, c, {}, pool, Some(a), None, [1]).value;
            Settle(env, c, book2, pool2, Some(a), None, [2]).Ok?
  {
    var second := S.WorkPreimage([2], S.GROUP, 1);
    var hash := (x: seq<byte>) => if x == second then S.GROUP else ZERO_DIGEST;
    assert S.GROUP[0] != ZERO_DIGEST[0];
    S.AsksApart();
    env := Env(P.Env(C.Env(hash, _ => true), (_, _, _, _, _) => true, _ => true), HASHLESS);
    hide S.WorkPreimage, P.AuthorizeSpend, P.SpendOk, RunCell, Open, Opened, Settle;
    c := SmallCell(env, 1);
    pool, a := S.SmallPool(env.pool);
    SettlesTwice(env, c, pool, a);
  }

  /** Two cells with different tenants and ids, each of which the pool could settle under ask [1], and
      which it could also pay both: once one is settled, the other cannot be. */
  lemma CellsBlockEachOther() returns (env: Env, c: Cell, d: Cell, pool: P.Pool, a: P.SpendAuth)
    ensures Open(env, 1, S.GROUP, Parties(1)).Ok? && Open(env, 1, S.GROUP, Parties(2)).Ok?
    ensures c == RunCell(env, Opened(env, 1, S.GROUP, Parties(1)), OneJob(env))
    ensures d == RunCell(env, Opened(env, 1, S.GROUP, Parties(2)), OneJob(env))
    ensures c.cellId != d.cellId && c.deposit + d.deposit == pool.balance == 2
    ensures Settle(env, c, {}, pool, Some(a), None, [1]).Ok? && Settle(env, d, {}, pool, Some(a), None, [1]).Ok?
    ensures var (book2, pool2) := Settle(env, c, {}, pool, Some(a), None, [1]).value;
            forall pay, refund :: Settle(env, d, book2, pool2, pay, refund, [1]).Err?
  {
    var other := CellPreimage(1, S.GROUP, Parties(2));
    var hash := (x: seq<byte>) => if x == other then S.GROUP else ZERO_DIGEST;
    assert S.GROUP[0] != ZERO_DIGEST[0];
    TenantsApart();
    env := Env(P.Env(C.Env(hash, _ => true), (_, _, _, _, _) => true, _ => true), HASHLESS);
    assert CellId(hash, 1, S.GROUP, Parties(1)) == ZERO_DIGEST && CellId(hash, 1, S.GROUP, Parties(2)) == S.GROUP;
    hide S.WorkPreimage, P.AuthorizeSpend, P.SpendOk, RunCell, Open, Opened, CellPreimage, CellId;
    c := SmallCell(env, 1);
    d := SmallCell(env, 2);
    pool, a := S.SmallPool(env.pool);
    hide ProviderReceipt, RefundReceipt, Settle;
    SettleIff(env, c, {}, pool, Some(a), None, [1]);
    SettleIff(env, d, {}, pool, Some(a), None, [1]);
    var (book2, pool2) := Settle(env, c, {}, pool, Some(a), None, [1]).value;
    forall pay, refund ensures Settle(env, d, book2, pool2, pay, refund, [1]).Err? {
      EqualEarningsBlock(env, c, d, {}, pool, Some(a), None, [1], book2, pool2, pay, refund);
    }
  }

  lemma TenantsApart()
    ensures CellPreimage(1, S.GROUP, Parties(1)) != CellPreimage(1, S.GROUP, Parties(2))
  {
    var p: seq<Slice> := [ToLe(1, U64_BYTES), S.GROUP, [1], [2], [3]];
    var q: seq<Slice> := [ToLe(1, U64_BYTES), S.GROUP, [2], [2], [3]];
    assert p[2] != q[2];
    if CellPreimage(1, S.GROUP, Parties(1)) == CellPreimage(1, S.GROUP, Parties(2)) {
      TagsInDomain();
      PreimageInjective(ESCROW_CELL_TAG, p, ESCROW_CELL_TAG, q);
    }
  }
}
