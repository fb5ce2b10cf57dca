/** The bid-bound escrow cell: accrual, close, grant and the all-or-nothing settlement. */
module EscrowCell {
  import opened Wrappers
  import opened Bytes
  import opened TaggedHash
  import A = Accrual
  import C = Committee
  import H = Hex
  import L = LeaseBook
  import P = ThresholdPool
  import S = Settlement

  datatype Party = Tenant | Provider

  datatype Members = Members(tenant: Slice, provider: Slice, resolver: Slice)

  datatype CloseRecord = CloseRecord(closer: Party, earned: u64, remainder: u64)

  datatype Grant = Grant(cellId: Digest, closer: Party, earned: u64, remainder: u64, recorded: bool,
                         commitment: string, openHeader: string, closeHeader: string)

  datatype GrantView = GrantView(cellId: string, closer: Party, earned: u64, remainder: u64, recorded: bool,
                                 commitment: string, openHeader: string, closeHeader: string)

  datatype EscrowError =
    | ZeroDeposit | ZeroBid | EmptyMember | EarnedExceedsDeposit | AlreadyClosed | EarnedOverride
    | NotClosed | NoGrant | NoWorkReceipts | ReceiptMismatch
    | LeaseFailed(lease: L.LeaseError)
    | SettleFailed(settle: S.SettlementError)
    | AccrualFailed(accrual: A.AccrualError)

  datatype ResolverError = CellOpen | ResolverNoGrant | GrantMismatch

  datatype Cell = Cell(cellId: Digest, deposit: u64, bid: Digest, members: Members, earned: u64,
                       receipts: seq<S.WorkReceipt>, accrual: Option<A.Public>,
                       closed: Option<CloseRecord>, grant: Option<Grant>)

  datatype Intents = Intents(payProvider: u64, refundTenant: u64)

  datatype Env = Env(pool: P.Env, accrual: A.Env)

  function HashOf(env: Env): seq<byte> -> Digest { env.pool.committee.hash }

  // ---- Operations on values ----

  function CellPreimage(deposit: u64, bid: Slice, m: Members): seq<byte> {
    Preimage(ESCROW_CELL_TAG, [ToLe(deposit, U64_BYTES), bid, m.tenant, m.provider, m.resolver])
  }

  function CellId(hash: seq<byte> -> Digest, deposit: u64, bid: Digest, m: Members): Digest {
    hash(CellPreimage(deposit, bid, m))
  }

  function Open(env: Env, deposit: u64, bid: Digest, m: Members): Result<Cell, EscrowError> {
    if deposit == 0 then Err(ZeroDeposit)
    else if bid == ZERO_DIGEST then Err(ZeroBid)
    else if m.tenant == [] || m.provider == [] || m.resolver == [] then Err(EmptyMember)
    else Ok(Cell(CellId(HashOf(env), deposit, bid, m), deposit, bid, m, 0, [], None, None, None))
  }

  function AccrueFromWitness(env: Env, c: Cell, w: A.Witness, p: A.Public): Result<Cell, EscrowError> {
    if c.closed.Some? then Err(AlreadyClosed)
    else
      match A.VerifyWitness(env.accrual, w, p)
      case Err(e) => Err(AccrualFailed(e))
      case Ok(_) =>
        if w.earned > c.deposit then Err(EarnedExceedsDeposit)
        else Ok(c.(earned := w.earned, accrual := Some(p)))
  }

  /** Sum of bound receipts for this bid, with 64-bit overflow checked at every step. */
  function SumReceipts(env: Env, bid: Digest, rs: seq<S.WorkReceipt>): Result<u64, EscrowError> {
    if rs == [] then Ok(0)
    else
      var n := |rs| - 1;
      match SumReceipts(env, bid, rs[..n])
      case Err(e) => Err(e)
      case Ok(sum) =>
        if !S.DigestMatches(HashOf(env), rs[n]) || rs[n].amount == 0 || rs[n].provider != bid then Err(ReceiptMismatch)
        else if sum + rs[n].amount >= U64_SIZE then Err(EarnedExceedsDeposit)
        else Ok(sum + rs[n].amount)
  }

  function AccrueReceipts(env: Env, c: Cell, rs: seq<S.WorkReceipt>): Result<Cell, EscrowError> {
    if c.closed.Some? then Err(AlreadyClosed)
    else if rs == [] then Err(NoWorkReceipts)
    else
      match SumReceipts(env, c.bid, rs)
      case Err(e) => Err(e)
      case Ok(add) =>
        if c.earned + add >= U64_SIZE || c.earned + add > c.deposit then Err(EarnedExceedsDeposit)
        else Ok(c.(receipts := c.receipts + rs, earned := c.earned + add))
  }

  function HexOr(p: Option<A.Public>, pick: A.Public -> Digest): string {
    if p.Some? then H.Encode(pick(p.value)) else ""
  }

  function GrantFor(c: Cell, party: Party, earned: u64, remainder: u64): Grant {
    Grant(c.cellId, party, earned, remainder, true,
          HexOr(c.accrual, (p: A.Public) => p.commitment),
          HexOr(c.accrual, (p: A.Public) => p.openHeader),
          HexOr(c.accrual, (p: A.Public) => p.closeHeader))
  }

  function Close(c: Cell, party: Party, lease: L.Leases, leaseId: L.Id, override: Option<u64>)
    : Result<(Cell, L.Leases), EscrowError>
    requires c.earned <= c.deposit
  {
    if override.Some? then Err(EarnedOverride)
    else if c.closed.Some? then Err(AlreadyClosed)
    else if c.earned > 0 && c.receipts == [] && c.accrual.None? then Err(NoWorkReceipts)
    else
      match L.Close(lease, leaseId)
      case Err(e) => Err(LeaseFailed(e))
      case Ok(lease2) =>
        var remainder := c.deposit - c.earned;
        Ok((c.(closed := Some(CloseRecord(party, c.earned, remainder)),
               grant := Some(GrantFor(c, party, c.earned, remainder))), lease2))
  }

  function IntentsOf(c: Cell): Result<Intents, EscrowError> {
    if c.closed.None? then Err(NotClosed) else Ok(Intents(c.closed.value.earned, c.closed.value.remainder))
  }

  function ResolverMaySign(c: Cell, member: Slice): Result<(), ResolverError> {
    if c.closed.None? then Err(CellOpen)
    else if c.grant.None? then Err(ResolverNoGrant)
    else if !c.grant.value.recorded || c.grant.value.cellId != c.cellId then Err(GrantMismatch)
    else if c.grant.value.earned != c.closed.value.earned then Err(GrantMismatch)
    else if c.grant.value.remainder != c.closed.value.remainder then Err(GrantMismatch)
    else if member != c.members.resolver then Err(GrantMismatch)
    else Ok(())
  }

  function ViewOf(g: Grant): GrantView {
    GrantView(H.Encode(g.cellId), g.closer, 0, P.SaturatingAdd(g.earned, g.remainder), g.recorded,
              g.commitment, g.openHeader, g.closeHeader)
  }

  function RefundPreimage(c: Cell): seq<byte> {
    Preimage(REFUND_TAG, [c.cellId])
  }

  function RefundTag(env: Env, c: Cell): Digest {
    HashOf(env)(RefundPreimage(c))
  }

  function ProviderReceipt(env: Env, c: Cell, ask: Slice): S.WorkReceipt {
    S.Bind(HashOf(env), ask, c.bid, c.earned)
  }

  function RefundReceipt(env: Env, c: Cell, ask: Slice): S.WorkReceipt
    requires c.closed.Some?
  {
    S.Bind(HashOf(env), ask, RefundTag(env, c), c.closed.value.remainder)
  }

  /** One leg of the settlement: a zero amount is skipped, otherwise it needs an authorisation. */
  function PayLeg(env: Env, book: S.Book, pool: P.Pool, amount: u64, r: S.WorkReceipt, a: Option<P.SpendAuth>)
    : Result<(S.Book, P.Pool), EscrowError>
  {
    if amount == 0 then Ok((book, pool))
    else if a.None? then Err(NoGrant)
    else
      match S.PayFromPool(env.pool, book, pool, r, a.value)
      case Err(e) => Err(SettleFailed(e))
      case Ok(next) => Ok(next)
  }

  function Settle(env: Env, c: Cell, book: S.Book, pool: P.Pool,
                  pay: Option<P.SpendAuth>, refund: Option<P.SpendAuth>, ask: Slice)
    : Result<(S.Book, P.Pool), EscrowError>
  {
    if c.closed.None? then Err(NotClosed)
    else
      match PayLeg(env, book, pool, c.closed.value.earned, ProviderReceipt(env, c, ask), pay)
      case Err(e) => Err(e)
      case Ok((book2, pool2)) => PayLeg(env, book2, pool2, c.closed.value.remainder, RefundReceipt(env, c, ask), refund)
  }

  // ---- The cell as an object ----

  ghost predicate CellInv(c: Cell) {
    && 0 < c.deposit && c.earned <= c.deposit
    && (c.earned > 0 ==> c.receipts != [] || c.accrual.Some?)
    && (c.closed.Some? <==> c.grant.Some?)
    && (c.closed.Some? ==>
          && c.closed.value.earned == c.earned
          && c.closed.value.remainder == c.deposit - c.earned
          && c.grant.value == GrantFor(c, c.closed.value.closer, c.earned, c.deposit - c.earned))
  }

  class EscrowCellObject {
    const cellId: Digest
    const deposit: u64
    const bid: Digest
    const members: Members
    var earned: u64
    var receipts: seq<S.WorkReceipt>
    var accrual: Option<A.Public>
    var closed: Option<CloseRecord>
    var grant: Option<Grant>

    constructor (c: Cell)
      ensures View() == c
    {
      cellId, deposit, bid, members := c.cellId, c.deposit, c.bid, c.members;
      earned, receipts, accrual, closed, grant := c.earned, c.receipts, c.accrual, c.closed, c.grant;
    }

    function View(): Cell
      reads this
    {
      Cell(cellId, deposit, bid, members, earned, receipts, accrual, closed, grant)
    }

    method AccrueWitness(env: Env, w: A.Witness, p: A.Public) returns (r: Result<(), EscrowError>)
      modifies this
      ensures var spec := AccrueFromWitness(env, old(View()), w, p);
              if spec.Ok? then r == Ok(()) && View() == spec.value else r == Err(spec.error) && View() == old(View())
    {
      if closed.Some? {
        return Err(AlreadyClosed);
      }
      var v := A.VerifyWitness(env.accrual, w, p);
      if v.Err? {
        return Err(AccrualFailed(v.error));
      }
      if w.earned > deposit {
        return Err(EarnedExceedsDeposit);
      }
      earned := w.earned;
      accrual := Some(p);
      r := Ok(());
    }

    method AccrueWork(env: Env, rs: seq<S.WorkReceipt>) returns (r: Result<(), EscrowError>)
      modifies this
      ensures var spec := AccrueReceipts(env, old(View()), rs);
              if spec.Ok? then r == Ok(()) && View() == spec.value else r == Err(spec.error) && View() == old(View())
    {
      hide SumReceipts;
      if closed.Some? {
        return Err(AlreadyClosed);
      }
      if rs == [] {
        return Err(NoWorkReceipts);
      }
      var sum := SumWork(env, bid, rs);
      if sum.Err? {
        return Err(sum.error);
      }
      var add := sum.value;
      if earned + add >= U64_SIZE {
        return Err(EarnedExceedsDeposit);
      }
      if earned + add > deposit {
        return Err(EarnedExceedsDeposit);
      }
      receipts := receipts + rs;
      earned := earned + add;
      r := Ok(());
    }

    method CloseCell(party: Party, lease: L.Book, leaseId: L.Id, override: Option<u64>)
      returns (r: Result<Grant, EscrowError>)
      requires CellInv(View())
      modifies this, lease
      ensures CellInv(View())
      ensures var spec := Close(old(View()), party, old(lease.View()), leaseId, override);
              if spec.Ok?
              then && View() == spec.value.0 && lease.View() == spec.value.1
                   && View().grant.Some? && r == Ok(View().grant.value)
              else r == Err(spec.error) && View() == old(View()) && lease.View() == old(lease.View())
    {
      if override.Some? {
        return Err(EarnedOverride);
      }
      if closed.Some? {
        return Err(AlreadyClosed);
      }
      if earned > 0 && receipts == [] && accrual.None? {
        return Err(NoWorkReceipts);
      }
      var remainder := deposit - earned;
      var rec := CloseRecord(party, earned, remainder);
      var l := lease.CloseLease(leaseId);
      if l.Err? {
        return Err(LeaseFailed(l.error));
      }
      var g := GrantFor(View(), party, rec.earned, rec.remainder);
      closed := Some(rec);
      grant := Some(g);
      r := Ok(g);
    }
  }

  method SumWork(env: Env, bid: Digest, rs: seq<S.WorkReceipt>) returns (r: Result<u64, EscrowError>)
    ensures r == SumReceipts(env, bid, rs)
  {
    var add := 0;
    for i := 0 to |rs|
      invariant SumReceipts(env, bid, rs[..i]) == Ok(add) && 0 <= add < U64_SIZE
    {
      assert rs[..i + 1][..i] == rs[..i];
      if !S.DigestMatches(HashOf(env), rs[i]) || rs[i].amount == 0 || rs[i].provider != bid {
        SumErrStays(env, bid, rs, i + 1);
        return Err(ReceiptMismatch);
      }
      if add + rs[i].amount >= U64_SIZE {
        SumErrStays(env, bid, rs, i + 1);
        return Err(EarnedExceedsDeposit);
      }
      add := add + rs[i].amount;
    }
    assert rs[..|rs|] == rs;
    r := Ok(add);
  }

  lemma {:induction false} SumErrStays(env: Env, bid: Digest, rs: seq<S.WorkReceipt>, i: nat)
    requires i <= |rs| && SumReceipts(env, bid, rs[..i]).Err?
    ensures SumReceipts(env, bid, rs) == SumReceipts(env, bid, rs[..i])
    decreases |rs|
  {
    if i < |rs| {
      var n := |rs| - 1;
      assert rs[..n][..i] == rs[..i];
      SumErrStays(env, bid, rs[..n], i);
    } else {
      assert rs[..i] == rs;
    }
  }

  /** One payout on the clones: nothing to pay is no error, a missing authorisation is. */
  method PayOut(env: Env, book: S.SettlementBook, pool: P.FrostThresholdPool, amount: u64, r: S.WorkReceipt,
                a: Option<P.SpendAuth>)
    returns (paid: Result<(), EscrowError>)
    modifies book, pool
    ensures var spec := PayLeg(env, old(book.paidDigests), old(pool.View()), amount, r, a);
            if spec.Ok?
            then paid == Ok(()) && book.paidDigests == spec.value.0 && pool.View() == spec.value.1
            else paid == Err(spec.error) && book.paidDigests == old(book.paidDigests) && pool.View() == old(pool.View())
  {
    hide S.PayFromPool;
    if amount > 0 {
      if a.None? {
        return Err(NoGrant);
      }
      var p := book.Pay(env.pool, pool, r, a.value);
      if p.Err? {
        return Err(SettleFailed(p.error));
      }
    }
    paid := Ok(());
  }

  /** Both payouts or neither: the clones replace the originals only at the very end. */
  method SettleClose(env: Env, cell: EscrowCellObject, book: S.SettlementBook, pool: P.FrostThresholdPool,
                     pay: Option<P.SpendAuth>, refund: Option<P.SpendAuth>, ask: Slice)
    returns (r: Result<(), EscrowError>)
    requires CellInv(cell.View())
    modifies book, pool
    ensures var spec := Settle(env, cell.View(), old(book.paidDigests), old(pool.View()), pay, refund, ask);
            if spec.Ok?
            then r == Ok(()) && book.paidDigests == spec.value.0 && pool.View() == spec.value.1
            else r == Err(spec.error) && book.paidDigests == old(book.paidDigests) && pool.View() == old(pool.View())
  {
    hide PayLeg;
    if cell.closed.None? {
      return Err(NotClosed);
    }
    var c := cell.View();
    var book2 := new S.SettlementBook(book.paidDigests);
    var pool2 := new P.FrostThresholdPool(pool.View());
    var p := PayOut(env, book2, pool2, c.closed.value.earned, ProviderReceipt(env, c, ask), pay);
    if p.Err? {
      return p;
    }
    p := PayOut(env, book2, pool2, c.closed.value.remainder, RefundReceipt(env, c, ask), refund);
    if p.Err? {
      return p;
    }
    book.paidDigests := book2.paidDigests;
    pool.balance := pool2.balance;
    pool.credits := pool2.credits;
    pool.spentNotes := pool2.spentNotes;
    r := Ok(());
  }

  // ---- Every run of a cell ----

  datatype Op =
    | OpWitness(wit: A.Witness, pub: A.Public)
    | OpWork(receipts: seq<S.WorkReceipt>)
    | OpClose(party: Party, lease: L.Leases, leaseId: L.Id, override: Option<u64>)

  function Step(env: Env, c: Cell, op: Op): Cell
    requires c.earned <= c.deposit
  {
    match op
    case OpWitness(w, p) => (match AccrueFromWitness(env, c, w, p) case Ok(d) => d case Err(_) => c)
    case OpWork(rs) => (match AccrueReceipts(env, c, rs) case Ok(d) => d case Err(_) => c)
    case OpClose(party, lease, id, override) =>
      (match Close(c, party, lease, id, override) case Ok(d) => d.0 case Err(_) => c)
  }

  lemma StepKeepsCell(env: Env, c: Cell, op: Op)
    requires CellInv(c)
    ensures CellInv(Step(env, c, op))
    ensures c.closed.Some? ==> Step(env, c, op) == c
    ensures Step(env, c, op).deposit == c.deposit && Step(env, c, op).cellId == c.cellId
    ensures Step(env, c, op).bid == c.bid
  {
    hide A.VerifyWitness, SumReceipts, HexOr;
  }

  function RunCell(env: Env, c: Cell, ops: seq<Op>): Cell
    requires CellInv(c)
    decreases |ops|
  {
    if ops == [] then c
    else
      StepKeepsCell(env, c, ops[0]);
      RunCell(env, Step(env, c, ops[0]), ops[1..])
  }

  /** In every run from opening, what is earned stays within the deposit, the close guard for
      unbacked earnings can never fire, and once closed the cell never changes again. */
  lemma {:induction false} CellRunInvariant(env: Env, c: Cell, ops: seq<Op>)
    requires CellInv(c)
    ensures CellInv(RunCell(env, c, ops))
    ensures c.closed.Some? ==> RunCell(env, c, ops) == c
    ensures RunCell(env, c, ops).deposit == c.deposit && RunCell(env, c, ops).cellId == c.cellId
    decreases |ops|
  {
    if ops != [] {
      StepKeepsCell(env, c, ops[0]);
      CellRunInvariant(env, Step(env, c, ops[0]), ops[1..]);
    }
  }

  lemma OpenStartsCell(env: Env, deposit: u64, bid: Digest, m: Members)
    requires Open(env, deposit, bid, m).Ok?
    ensures CellInv(Open(env, deposit, bid, m).value)
  {
  }

  function Opened(env: Env, deposit: u64, bid: Digest, m: Members): (c: Cell)
    requires Open(env, deposit, bid, m).Ok?
    ensures CellInv(c)
  {
    OpenStartsCell(env, deposit, bid, m);
    Open(env, deposit, bid, m).value
  }

  /** A close fails on exactly an override, a closed cell or an unknown lease. When it succeeds the
      lease admits nobody, the split is exact, the intents and the grant agree with it, the public
      view shows nothing earned and the whole deposit as remainder, and only the resolver may sign. */
  lemma CloseMeaning(c: Cell, party: Party, lease: L.Leases, leaseId: L.Id, override: Option<u64>,
                     bearer: L.Id, member: Slice)
    requires CellInv(c)
    ensures Close(c, party, lease, leaseId, override).Ok? <==>
            override.None? && c.closed.None? && leaseId in lease.leases
    ensures Close(c, party, lease, leaseId, override).Ok? ==>
              var (d, lease2) := Close(c, party, lease, leaseId, override).value;
              && CellInv(d)
              && L.Access(lease2, leaseId, bearer) == Err(L.Closed)
              && d.closed == Some(CloseRecord(party, c.earned, c.deposit - c.earned))
              && IntentsOf(d) == Ok(Intents(c.earned, c.deposit - c.earned))
              && ViewOf(d.grant.value).earned == 0 && ViewOf(d.grant.value).remainder == c.deposit
              && (ResolverMaySign(d, member).Ok? <==> member == c.members.resolver)
  {
    hide HexOr;
  }

  /** Exactly when a witness accrues, and what it leaves. */
  lemma WitnessAccruesIff(env: Env, c: Cell, w: A.Witness, p: A.Public)
    ensures AccrueFromWitness(env, c, w, p).Ok? <==>
            c.closed.None? && A.VerifyWitness(env.accrual, w, p).Ok? && w.earned <= c.deposit
    ensures AccrueFromWitness(env, c, w, p).Ok? ==>
              AccrueFromWitness(env, c, w, p).value == c.(earned := w.earned, accrual := Some(p))
  {
    hide A.VerifyWitness;
  }

  /** One accepted public value fixes what is earned, in whichever cell, barring a collision of the
      commitment functions. */
  lemma PublicFixesEarned(env: Env, c: Cell, w: A.Witness, d: Cell, v: A.Witness, p: A.Public)
    requires AccrueFromWitness(env, c, w, p).Ok? && AccrueFromWitness(env, d, v, p).Ok?
    ensures || A.CommitmentsCollide(env.accrual, w, p, v, p)
            || AccrueFromWitness(env, c, w, p).value.earned == AccrueFromWitness(env, d, v, p).value.earned
               == (w.closeHeight - w.openHeight) * w.rate
  {
    WitnessAccruesIff(env, c, w, p);
    WitnessAccruesIff(env, d, v, p);
    A.VerifyWitnessIff(env.accrual, w, p);
    A.CommitmentFixesWitness(env.accrual, w, p, v, p);
    hide A.VerifyWitness, AccrueFromWitness;
  }

  /** Exactly when a cell opens, and that it starts with nothing earned. */
  lemma OpensIff(env: Env, deposit: u64, bid: Digest, m: Members)
    ensures Open(env, deposit, bid, m).Ok? <==>
            deposit > 0 && bid != ZERO_DIGEST && |m.tenant| > 0 && |m.provider| > 0 && |m.resolver| > 0
    ensures Open(env, deposit, bid, m).Ok? ==>
              var c := Open(env, deposit, bid, m).value;
              && c.deposit == deposit && c.bid == bid && c.members == m && c.earned == 0 && c.receipts == []
              && c.accrual.None? && c.closed.None? && c.grant.None?
              && c.cellId == HashOf(env)(CellPreimage(deposit, bid, m))
  {
    hide CellPreimage;
  }

  /** The cell id names the deal: equal ids mean equal deposit, bid and members, barring a collision. */
  lemma CellIdBinds(hash: seq<byte> -> Digest, deposit: u64, bid: Digest, m: Members,
                    deposit2: u64, bid2: Digest, m2: Members)
    requires CollisionFreeOn(hash, {CellPreimage(deposit, bid, m), CellPreimage(deposit2, bid2, m2)})
    ensures CellId(hash, deposit, bid, m) == CellId(hash, deposit2, bid2, m2) <==>
            deposit == deposit2 && bid == bid2 && m == m2
  {
    if CellId(hash, deposit, bid, m) == CellId(hash, deposit2, bid2, m2) {
      TagsInDomain();
      var p: seq<Slice> := [ToLe(deposit, U64_BYTES), bid, m.tenant, m.provider, m.resolver];
      var q: seq<Slice> := [ToLe(deposit2, U64_BYTES), bid2, m2.tenant, m2.provider, m2.resolver];
      hide DomainTag, ToLe;
      PreimageInjective(ESCROW_CELL_TAG, p, ESCROW_CELL_TAG, q);
      assert p[0] == q[0] && p[1] == q[1] && p[2] == q[2] && p[3] == q[3] && p[4] == q[4];
      Pow256Values();
      LeInjective(deposit, deposit2, U64_BYTES);
    }
  }

  // ---- Settlement ----

  lemma PayLegEffect(env: Env, book: S.Book, pool: P.Pool, amount: u64, r: S.WorkReceipt, a: Option<P.SpendAuth>)
    requires r.amount == amount
    requires PayLeg(env, book, pool, amount, r, a).Ok?
    ensures var (book2, pool2) := PayLeg(env, book, pool, amount, r, a).value;
            && pool2 == pool.(balance := pool2.balance) && pool.balance == pool2.balance + amount
            && book2 == (if amount == 0 then book else book + {r.digest})
            && (amount > 0 ==> r.digest !in book)
  {
    hide P.AuthorizeSpend, S.RequireWork;
  }

  /** A settlement that succeeds debits the pool by exactly the deposit and changes nothing else in
      it; the book gains the digests of the nonzero payouts. */
  lemma SettlePaysTheDeposit(env: Env, c: Cell, book: S.Book, pool: P.Pool,
                             pay: Option<P.SpendAuth>, refund: Option<P.SpendAuth>, ask: Slice)
    requires CellInv(c)
    requires Settle(env, c, book, pool, pay, refund, ask).Ok?
    ensures var (book2, pool2) := Settle(env, c, book, pool, pay, refund, ask).value;
            && pool2 == pool.(balance := pool2.balance) && pool.balance == pool2.balance + c.deposit
            && book2 == book + (if c.earned == 0 then {} else {ProviderReceipt(env, c, ask).digest})
                             + (if c.earned == c.deposit then {} else {RefundReceipt(env, c, ask).digest})
  {
    hide PayLeg, RefundTag, S.DigestOf;
    PayLegEffect(env, book, pool, c.earned, ProviderReceipt(env, c, ask), pay);
    var (book1, pool1) := PayLeg(env, book, pool, c.earned, ProviderReceipt(env, c, ask), pay).value;
    PayLegEffect(env, book1, pool1, c.deposit - c.earned, RefundReceipt(env, c, ask), refund);
  }

  /** After one settlement, a second one for the same cell and ask fails against every later book
      and every pool, whatever authorisations it carries. */
  lemma SettleAtMostOnce(env: Env, c: Cell, book: S.Book, pool: P.Pool,
                         pay: Option<P.SpendAuth>, refund: Option<P.SpendAuth>, ask: Slice,
                         later: S.Book, pool2: P.Pool, pay2: Option<P.SpendAuth>, refund2: Option<P.SpendAuth>)
    requires CellInv(c)
    requires Settle(env, c, book, pool, pay, refund, ask).Ok?
    requires Settle(env, c, book, pool, pay, refund, ask).value.0 <= later
    ensures Settle(env, c, later, pool2, pay2, refund2, ask).Err?
  {
    SettlePaysTheDeposit(env, c, book, pool, pay, refund, ask);
    hide RefundTag, S.DigestOf, P.Debit, S.RequireWork;
  }

  lemma PayLegIff(env: Env, book: S.Book, pool: P.Pool, amount: u64, r: S.WorkReceipt, a: Option<P.SpendAuth>)
    requires r.amount == amount && S.DigestMatches(HashOf(env), r)
    ensures PayLeg(env, book, pool, amount, r, a).Ok? <==>
            || amount == 0
            || (&& a.Some? && r.askId != [] && r.digest !in book && pool.balance >= amount
                && a.value.amount == amount && P.SpendOk(env.pool, pool, a.value))
  {
    if a.Some? {
      S.PayIff(env.pool, book, pool, r, a.value);
    }
    hide S.PayFromPool, P.SpendOk, S.WorkPreimage;
  }

  /** The digests of the nonzero payouts. */
  function Payouts(env: Env, c: Cell, ask: Slice): set<Digest>
    requires c.closed.Some?
  {
    (if c.closed.value.earned == 0 then {} else {ProviderReceipt(env, c, ask).digest})
    + (if c.closed.value.remainder == 0 then {} else {RefundReceipt(env, c, ask).digest})
  }

  /** An authorisation good for this amount. */
  ghost predicate Authorised(env: Env, pool: P.Pool, a: Option<P.SpendAuth>, amount: u64) {
    a.Some? && a.value.amount == amount && P.SpendOk(env.pool, pool, a.value)
  }

  /** Exactly when a closed cell settles: the ask is not empty, the pool covers the deposit, each
      nonzero payout is authorised for its amount, and the payout digests are unpaid and apart. */
  lemma SettleIff(env: Env, c: Cell, book: S.Book, pool: P.Pool,
                  pay: Option<P.SpendAuth>, refund: Option<P.SpendAuth>, ask: Slice)
    requires CellInv(c) && c.closed.Some?
    ensures Settle(env, c, book, pool, pay, refund, ask).Ok? <==>
            && ask != [] && pool.balance >= c.deposit
            && (c.earned > 0 ==> Authorised(env, pool, pay, c.earned))
            && (c.earned < c.deposit ==> Authorised(env, pool, refund, c.deposit - c.earned))
            && Payouts(env, c, ask) !! book
            && (0 < c.earned < c.deposit ==> ProviderReceipt(env, c, ask).digest != RefundReceipt(env, c, ask).digest)
  {
    hide PayLeg, RefundTag, S.DigestOf, P.AuthorizeSpend, P.SpendOk;
    var p, q := ProviderReceipt(env, c, ask), RefundReceipt(env, c, ask);
    PayLegIff(env, book, pool, c.earned, p, pay);
    if PayLeg(env, book, pool, c.earned, p, pay).Ok? {
      PayLegEffect(env, book, pool, c.earned, p, pay);
      var (book1, pool1) := PayLeg(env, book, pool, c.earned, p, pay).value;
      PayLegIff(env, book1, pool1, c.deposit - c.earned, q, refund);
      if refund.Some? {
        S.AuthorityIgnoresBalance(env.pool, pool, pool1, refund.value);
      }
    }
  }

  lemma SettleEffect(env: Env, c: Cell, book: S.Book, pool: P.Pool,
                     pay: Option<P.SpendAuth>, refund: Option<P.SpendAuth>, ask: Slice)
    requires CellInv(c)
    requires Settle(env, c, book, pool, pay, refund, ask).Ok?
    ensures c.closed.Some?
    ensures var (book2, pool2) := Settle(env, c, book, pool, pay, refund, ask).value;
            && book2 == book + Payouts(env, c, ask)
            && pool2 == pool.(balance := pool2.balance) && pool.balance == pool2.balance + c.deposit
  {
    SettlePaysTheDeposit(env, c, book, pool, pay, refund, ask);
    hide PayLeg, RefundTag, S.DigestOf;
  }

  /** What one settlement does to the next. After a cell was settled, any settlement - of any cell,
      under any ask, with any authorisations - succeeds exactly when it would have succeeded before,
      the pool held both deposits, and no payout digest is shared. */
  lemma SecondSettlementIff(env: Env, c: Cell, d: Cell, book: S.Book, pool: P.Pool,
                            pay: Option<P.SpendAuth>, refund: Option<P.SpendAuth>, ask: Slice,
                            pay2: Option<P.SpendAuth>, refund2: Option<P.SpendAuth>, ask2: Slice)
    requires CellInv(c) && CellInv(d) && c.closed.Some? && d.closed.Some?
    requires Settle(env, c, book, pool, pay, refund, ask).Ok?
    ensures var (book2, pool2) := Settle(env, c, book, pool, pay, refund, ask).value;
            Settle(env, d, book2, pool2, pay2, refund2, ask2).Ok? <==>
            && Settle(env, d, book, pool, pay2, refund2, ask2).Ok?
            && pool.balance >= c.deposit + d.deposit
            && Payouts(env, c, ask) !! Payouts(env, d, ask2)
  {
    hide Settle, Payouts, P.AuthorizeSpend, P.SpendOk, ProviderReceipt, RefundReceipt;
    SettleEffect(env, c, book, pool, pay, refund, ask);
    var (book2, pool2) := Settle(env, c, book, pool, pay, refund, ask).value;
    SettleIff(env, d, book, pool, pay2, refund2, ask2);
    SettleIff(env, d, book2, pool2, pay2, refund2, ask2);
    if pay2.Some? {
      S.AuthorityIgnoresBalance(env.pool, pool, pool2, pay2.value);
    }
    if refund2.Some? {
      S.AuthorityIgnoresBalance(env.pool, pool, pool2, refund2.value);
    }
  }

  /** A cell is not tied to one ask. Settled once, it can be settled again with the same
      authorisations under another ask exactly when that ask is not empty, its payout digests are
      unpaid and apart, and the pool held the deposit twice. */
  lemma SettleUnderOtherAskIff(env: Env, c: Cell, book: S.Book, pool: P.Pool,
                               pay: Option<P.SpendAuth>, refund: Option<P.SpendAuth>, ask: Slice, other: Slice)
    requires CellInv(c)
    requires Settle(env, c, book, pool, pay, refund, ask).Ok?
    ensures var (book2, pool2) := Settle(env, c, book, pool, pay, refund, ask).value;
            var p, q := ProviderReceipt(env, c, other).digest, RefundReceipt(env, c, other).digest;
            Settle(env, c, book2, pool2, pay, refund, other).Ok? <==>
            && other != [] && pool.balance >= 2 * c.deposit
            && (c.earned > 0 ==> p !in book2)
            && (c.earned < c.deposit ==> q !in book2)
            && (0 < c.earned < c.deposit ==> p != q)
  {
    SettleEffect(env, c, book, pool, pay, refund, ask);
    hide Settle, P.AuthorizeSpend, P.SpendOk, ProviderReceipt, RefundReceipt;
    SettleIff(env, c, book, pool, pay, refund, ask);
    SettleIff(env, c, book, pool, pay, refund, other);
    SecondSettlementIff(env, c, c, book, pool, pay, refund, ask, pay, refund, other);
  }

  // ---- Which payouts share a digest ----

  /** Everything that is hashed for the payouts of two cells. */
  ghost function PayoutPreimages(env: Env, c: Cell, ask: Slice): set<seq<byte>>
    requires c.closed.Some?
  {
    {S.WorkPreimage(ask, c.bid, c.earned), S.WorkPreimage(ask, RefundTag(env, c), c.closed.value.remainder),
     RefundPreimage(c)}
  }

  lemma SameWorkIff(hash: seq<byte> -> Digest, ask: Slice, who: Digest, amount: u64,
                    ask2: Slice, who2: Digest, amount2: u64, all: set<seq<byte>>)
    requires CollisionFreeOn(hash, all)
    requires S.WorkPreimage(ask, who, amount) in all && S.WorkPreimage(ask2, who2, amount2) in all
    ensures S.Bind(hash, ask, who, amount).digest == S.Bind(hash, ask2, who2, amount2).digest
            <==> ask == ask2 && who == who2 && amount == amount2
  {
    hide S.WorkPreimage, CollisionFreeOn;
    CollisionFreeOnSubset(hash, {S.WorkPreimage(ask, who, amount), S.WorkPreimage(ask2, who2, amount2)}, all);
    var r, s := S.Bind(hash, ask, who, amount), S.Bind(hash, ask2, who2, amount2);
    if r.digest == s.digest {
      S.WorkDigestBinds(hash, r, s);
    }
  }

  lemma SameRefundTagIff(env: Env, c: Cell, d: Cell, all: set<seq<byte>>)
    requires CollisionFreeOn(HashOf(env), all) && RefundPreimage(c) in all && RefundPreimage(d) in all
    ensures RefundTag(env, c) == RefundTag(env, d) <==> c.cellId == d.cellId
  {
    if RefundTag(env, c) == RefundTag(env, d) {
      TagsInDomain();
      var p: seq<Slice>, q: seq<Slice> := [c.cellId], [d.cellId];
      hide Preimage;
      PreimageInjective(REFUND_TAG, p, REFUND_TAG, q);
      assert p[0] == q[0];
    }
  }

  lemma PayoutPreimagesHold(env: Env, c: Cell, ask: Slice)
    requires CellInv(c) && c.closed.Some?
    ensures S.WorkPreimage(ask, c.bid, c.earned) in PayoutPreimages(env, c, ask)
    ensures S.WorkPreimage(ask, RefundTag(env, c), c.deposit - c.earned) in PayoutPreimages(env, c, ask)
    ensures RefundPreimage(c) in PayoutPreimages(env, c, ask)
    ensures ProviderReceipt(env, c, ask).digest == S.Bind(HashOf(env), ask, c.bid, c.earned).digest
    ensures RefundReceipt(env, c, ask).digest
            == S.Bind(HashOf(env), ask, RefundTag(env, c), c.deposit - c.earned).digest
  {
  }

  /** Barring collisions among what is hashed for them, two cells share no payout exactly when they are
      settled under different asks, or have neither the same bid and earnings, nor the same id and
      remainder, nor one a bid that is the other's refund tag with equal amounts. */
  lemma PayoutsApartIff(env: Env, c: Cell, d: Cell, ask: Slice, ask2: Slice)
    requires CellInv(c) && CellInv(d) && c.closed.Some? && d.closed.Some?
    requires CollisionFreeOn(HashOf(env), PayoutPreimages(env, c, ask) + PayoutPreimages(env, d, ask2))
    ensures var rest, rest2 := c.deposit - c.earned, d.deposit - d.earned;
            Payouts(env, c, ask) !! Payouts(env, d, ask2) <==>
            || ask != ask2
            || (&& !(c.earned == d.earned > 0 && c.bid == d.bid)
                && !(rest == rest2 > 0 && c.cellId == d.cellId)
                && !(c.earned == rest2 > 0 && c.bid == RefundTag(env, d))
                && !(rest == d.earned > 0 && RefundTag(env, c) == d.bid))
  {
    hide RefundTag, RefundPreimage, CollisionFreeOn, Payouts, PayoutPreimages, ProviderReceipt, RefundReceipt;
    hide S.WorkPreimage, S.Bind, GrantFor;
    var all := PayoutPreimages(env, c, ask) + PayoutPreimages(env, d, ask2);
    var rest, rest2 := c.deposit - c.earned, d.deposit - d.earned;
    var hash := HashOf(env);
    var t, t2 := RefundTag(env, c), RefundTag(env, d);
    PayoutPreimagesHold(env, c, ask);
    PayoutPreimagesHold(env, d, ask2);
    SameRefundTagIff(env, c, d, all);
    SameWorkIff(hash, ask, c.bid, c.earned, ask2, d.bid, d.earned, all);
    SameWorkIff(hash, ask, t, rest, ask2, t2, rest2, all);
    SameWorkIff(hash, ask, c.bid, c.earned, ask2, t2, rest2, all);
    SameWorkIff(hash, ask, t, rest, ask2, d.bid, d.earned, all);
    PayoutsApart(env, c, d, ask, ask2);
  }

  function WithHash(env: Env, hash: seq<byte> -> Digest): Env {
    env.(pool := env.pool.(committee := env.pool.committee.(hash := hash)))
  }

  lemma AtMostTwo<T>(a: T, b: T)
    ensures |{a, b}| <= 2
  {
  }

  lemma AtMostFour<T>(a: T, b: T, c: T, d: T)
    ensures |{a, b} + {c, d}| <= 4
  {
    AtMostTwo(a, b);
    AtMostTwo(c, d);
  }

  /** The hypothesis can be met for any two closed cells and asks. */
  lemma PayoutPreimagesCanBeMet(env: Env, c: Cell, d: Cell, ask: Slice, ask2: Slice) returns (hash: seq<byte> -> Digest)
    requires c.closed.Some? && d.closed.Some?
    ensures var env2 := WithHash(env, hash);
            CollisionFreeOn(HashOf(env2), PayoutPreimages(env2, c, ask) + PayoutPreimages(env2, d, ask2))
  {
    ManyDigests();
    hide CollisionFreeOn, Preimage, S.WorkPreimage, RefundPreimage, Pow256;
    var inner := {RefundPreimage(c), RefundPreimage(d)};
    var outer := (h: seq<byte> -> Digest) =>
      {S.WorkPreimage(ask, c.bid, c.earned), S.WorkPreimage(ask, h(RefundPreimage(c)), c.closed.value.remainder)}
      + {S.WorkPreimage(ask2, d.bid, d.earned), S.WorkPreimage(ask2, h(RefundPreimage(d)), d.closed.value.remainder)};
    forall h ensures |inner| + |outer(h)| <= Pow256(32) {
      AtMostTwo(RefundPreimage(c), RefundPreimage(d));
      AtMostFour(S.WorkPreimage(ask, c.bid, c.earned),
                 S.WorkPreimage(ask, h(RefundPreimage(c)), c.closed.value.remainder),
                 S.WorkPreimage(ask2, d.bid, d.earned),
                 S.WorkPreimage(ask2, h(RefundPreimage(d)), d.closed.value.remainder));
    }
    forall h, g | AgreeOn(h, g, inner) ensures outer(h) == outer(g) {
      assert RefundPreimage(c) in inner && RefundPreimage(d) in inner;
    }
    assert Layered(inner, outer);
    hash := CollisionFreeInLayers(inner, outer);
    var env2 := WithHash(env, hash);
    assert PayoutPreimages(env2, c, ask) + PayoutPreimages(env2, d, ask2) == inner + outer(hash);
  }

  lemma PayoutsApart(env: Env, c: Cell, d: Cell, ask: Slice, ask2: Slice)
    requires CellInv(c) && CellInv(d) && c.closed.Some? && d.closed.Some?
    ensures var p, q := ProviderReceipt(env, c, ask).digest, RefundReceipt(env, c, ask).digest;
            var p2, q2 := ProviderReceipt(env, d, ask2).digest, RefundReceipt(env, d, ask2).digest;
            Payouts(env, c, ask) !! Payouts(env, d, ask2) <==>
            && !(c.earned > 0 && d.earned > 0 && p == p2)
            && !(c.earned < c.deposit && d.earned < d.deposit && q == q2)
            && !(c.earned > 0 && d.earned < d.deposit && p == q2)
            && !(c.earned < c.deposit && d.earned > 0 && q == p2)
  {
    hide ProviderReceipt, RefundReceipt;
  }

  /** The provider's receipt does not name the cell: of two cells with the same bid and earnings,
      settling one under an ask keeps the other from ever being settled under it. */
  lemma EqualEarningsBlock(env: Env, c: Cell, d: Cell, book: S.Book, pool: P.Pool,
                           pay: Option<P.SpendAuth>, refund: Option<P.SpendAuth>, ask: Slice,
                           later: S.Book, pool2: P.Pool, pay2: Option<P.SpendAuth>, refund2: Option<P.SpendAuth>)
    requires CellInv(c) && CellInv(d) && c.bid == d.bid && c.earned == d.earned > 0
    requires Settle(env, c, book, pool, pay, refund, ask).Ok?
    requires Settle(env, c, book, pool, pay, refund, ask).value.0 <= later
    ensures Settle(env, d, later, pool2, pay2, refund2, ask).Err?
  {
    SettleEffect(env, c, book, pool, pay, refund, ask);
    if d.closed.Some? {
      SettleIff(env, d, later, pool2, pay2, refund2, ask);
      assert ProviderReceipt(env, c, ask).digest in Payouts(env, c, ask);
      assert ProviderReceipt(env, d, ask).digest in Payouts(env, d, ask);
    }
    hide RefundTag, S.DigestOf, P.Debit, S.RequireWork;
  }

  // ---- Every interleaving of credits, payments and settlements ----

  datatype LedgerOp =
    | OpCredit(bundle: P.Bundle, creditAuth: P.SpendAuth)
    | OpPay(receipt: S.WorkReceipt, payAuth: P.SpendAuth)
    | OpSettle(cell: Cell, pay: Option<P.SpendAuth>, refund: Option<P.SpendAuth>, ask: Slice)

  function ApplyLeg(env: Env, l: S.Ledger, amount: u64, r: S.WorkReceipt, a: Option<P.SpendAuth>): S.Ledger {
    if amount == 0 || a.None? then l else S.ApplyPay(env.pool, l, r, a.value)
  }

  /** The clones pay leg by leg; a failed leg throws both away. */
  function ApplySettle(env: Env, l: S.Ledger, c: Cell,
                       pay: Option<P.SpendAuth>, refund: Option<P.SpendAuth>, ask: Slice): S.Ledger
  {
    if Settle(env, c, l.book, l.pool, pay, refund, ask).Err? then l
    else
      var l1 := ApplyLeg(env, l, c.closed.value.earned, ProviderReceipt(env, c, ask), pay);
      ApplyLeg(env, l1, c.closed.value.remainder, RefundReceipt(env, c, ask), refund)
  }

  function LedgerStep(env: Env, l: S.Ledger, op: LedgerOp): S.Ledger {
    match op
    case OpCredit(b, a) => S.ApplyCredit(env.pool, l, b, a)
    case OpPay(r, a) => S.ApplyPay(env.pool, l, r, a)
    case OpSettle(c, pay, refund, ask) => ApplySettle(env, l, c, pay, refund, ask)
  }

  function LedgerRun(env: Env, l: S.Ledger, ops: seq<LedgerOp>): S.Ledger
    decreases |ops|
  {
    if ops == [] then l else LedgerRun(env, LedgerStep(env, l, ops[0]), ops[1..])
  }

  /** The ledger's settlement leaves exactly the book and pool that `Settle` computes. */
  lemma ApplySettleAgrees(env: Env, l: S.Ledger, c: Cell,
                          pay: Option<P.SpendAuth>, refund: Option<P.SpendAuth>, ask: Slice)
    ensures var r := Settle(env, c, l.book, l.pool, pay, refund, ask);
            var m := ApplySettle(env, l, c, pay, refund, ask);
            if r.Ok? then (m.book, m.pool) == r.value else m == l
  {
    hide S.PayFromPool, RefundTag, S.DigestOf;
  }

  lemma LedgerStepKeeps(env: Env, l: S.Ledger, op: LedgerOp)
    requires S.LedgerInv(l)
    ensures S.LedgerInv(LedgerStep(env, l, op))
  {
    hide S.LedgerInv, S.ApplyPay, S.ApplyCredit, RefundTag, S.DigestOf;
    match op
    case OpCredit(b, a) => S.CreditKeepsLedger(env.pool, l, b, a);
    case OpPay(r, a) => S.PayKeepsLedger(env.pool, l, r, a);
    case OpSettle(c, pay, refund, ask) =>
      if c.closed.Some? {
        var p, q := ProviderReceipt(env, c, ask), RefundReceipt(env, c, ask);
        if pay.Some? { S.PayKeepsLedger(env.pool, l, p, pay.value); }
        var l1 := ApplyLeg(env, l, c.closed.value.earned, p, pay);
        if refund.Some? { S.PayKeepsLedger(env.pool, l1, q, refund.value); }
      }
  }

  /** Every interleaving keeps the ledger invariant. */
  lemma {:induction false} LedgerRunInvariant(env: Env, l: S.Ledger, ops: seq<LedgerOp>)
    requires S.LedgerInv(l)
    ensures S.LedgerInv(LedgerRun(env, l, ops))
    decreases |ops|
  {
    if ops != [] {
      LedgerStepKeeps(env, l, ops[0]);
      LedgerRunInvariant(env, LedgerStep(env, l, ops[0]), ops[1..]);
    }
  }

  /** Over every interleaving from a new pool and an empty book: credited notes are pairwise distinct
      and are exactly the spent notes, no digest is paid twice, and balance plus payments is at most
      what was credited, and exactly that while the credits fit in 64 bits. */
  lemma LedgerConservation(env: Env, groupId: Digest, layered: Option<C.OuterCommittee>, frostKey: Option<Digest>,
                           boundBid: Option<Digest>, ops: seq<LedgerOp>)
    ensures var l := LedgerRun(env, S.Ledger(P.NewPool(groupId, layered, frostKey, boundBid), {}, [], 0), ops);
            && (forall i, j :: 0 <= i < j < |l.pool.credits| ==> l.pool.credits[i].note != l.pool.credits[j].note)
            && (forall n :: n in l.pool.spentNotes <==>
                  (exists i :: 0 <= i < |l.pool.credits| && l.pool.credits[i].note == n))
            && (forall i, j :: 0 <= i < j < |l.paid| ==> l.paid[i].digest != l.paid[j].digest)
            && l.pool.balance + S.TotalPaid(l.paid) <= S.TotalCredited(l.pool.credits)
            && (S.TotalCredited(l.pool.credits) <= U64_MAX ==>
                  l.pool.balance + S.TotalPaid(l.paid) == S.TotalCredited(l.pool.credits))
  {
    LedgerRunInvariant(env, S.Ledger(P.NewPool(groupId, layered, frostKey, boundBid), {}, [], 0), ops);
  }
}
