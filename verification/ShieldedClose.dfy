/** Value arithmetic of closing a shielded escrow note: the two spends of one note lineage, the
    choice between a fee from the note and a fee from a miner coin, and the stalled-close record. */
module ShieldedClose {
  import opened Wrappers
  import opened Bytes
  import opened TaggedHash
  import A = Accrual

  const MAX_MONEY: nat := 2_100_000_000_000_000

  /** The group itself receives the change of its note. */
  datatype Recipient = Provider | Tenant | Group

  type Payee = r: Recipient | r != Group witness Provider

  datatype Output = Output(to: Recipient, value: nat)

  /** A finished spend of one note; a coin means a miner coinbase input pays the fee. */
  datatype SpendTx = SpendTx(noteIn: nat, outputs: seq<Output>, coin: Option<nat>, coinChange: Option<nat>)

  datatype SpendError =
    | AmountExceedsNote | BadAmount | NoteCannotCoverFee | NoCoin | CoinTooSmall | Unbalanced
    | Stalled(have: u16, need: u16) | NotStalled(have: u16, need: u16)
    | EarnedExceedsDeposit | RemainderMissing | WrongNote | CloserSetEarned
    | DealerGroup | WrongGroup | CommitmentMissing | QuoteFailed | QuoteExceedsDeposit | UseThresholdClose

  datatype FeeSource = FromNote | MinerCoinbase

  /** Fee from the numbers of transparent inputs, transparent outputs and shielded outputs. */
  type FeeRule = (nat, nat, nat) -> nat

  function Max(a: nat, b: nat): nat { if a < b then b else a }

  /** ZIP 317, section "Fee calculation": 5000 zatoshi per logical action, at least two actions.
      A P2PKH input and output have the standard sizes; the shielded bundle has one spend and is
      padded to two actions. */
  function Zip317(tIns: nat, tOuts: nat, outs: nat): nat {
    5000 * Max(2, Max(tIns, tOuts) + Max(2, Max(1, outs)))
  }

  function SumOutputs(outs: seq<Output>): nat {
    if outs == [] then 0 else outs[0].value + SumOutputs(outs[1..])
  }

  function OptValue(v: Option<nat>): nat {
    if v.Some? then v.value else 0
  }

  function OptCount(v: Option<nat>): nat {
    if v.Some? then 1 else 0
  }

  function FeeOf(rule: FeeRule, tx: SpendTx): nat {
    rule(OptCount(tx.coin), OptCount(tx.coinChange), |tx.outputs|)
  }

  /** Every zatoshi that goes in comes out or is the fee. */
  predicate Balanced(rule: FeeRule, tx: SpendTx) {
    tx.noteIn + OptValue(tx.coin) == SumOutputs(tx.outputs) + OptValue(tx.coinChange) + FeeOf(rule, tx)
  }

  function SaturatingSub(a: nat, b: nat): nat {
    if a < b then 0 else a - b
  }

  // ---- One spend ----

  /** The transaction the code lays out, before the library checks that it balances. */
  function Layout(rule: FeeRule, dest: Payee, held: nat, amount: nat, drain: bool, src: FeeSource, coin: Option<nat>)
    : Result<SpendTx, SpendError>
  {
    var leftover := SaturatingSub(held, amount);
    if src == FromNote then
      var fee2, fee3 := rule(0, 0, 1), rule(0, 0, 2);
      if drain then
        if held <= fee2 then Err(NoteCannotCoverFee)
        else if held - fee2 > MAX_MONEY then Err(BadAmount)
        else Ok(SpendTx(held, [Output(dest, held - fee2)], None, None))
      else if leftover == fee2 then
        if amount > MAX_MONEY then Err(BadAmount)
        else Ok(SpendTx(held, [Output(dest, amount)], None, None))
      else if leftover > fee3 then
        if amount > MAX_MONEY || leftover - fee3 > MAX_MONEY then Err(BadAmount)
        else Ok(SpendTx(held, [Output(dest, amount), Output(Group, leftover - fee3)], None, None))
      else Err(NoteCannotCoverFee)
    else
      if coin.None? then Err(NoCoin)
      else if amount > MAX_MONEY || leftover > MAX_MONEY then Err(BadAmount)
      else
        var outs := if leftover > 0 then [Output(dest, amount), Output(Group, leftover)] else [Output(dest, amount)];
        var fee := rule(1, 0, |outs|);
        if coin.value < fee then Err(CoinTooSmall)
        else Ok(SpendTx(held, outs, coin, if coin.value > fee then Some(coin.value - fee) else None))
  }

  function BuildSpend(rule: FeeRule, dest: Payee, held: nat, amount: nat, drain: bool, src: FeeSource,
                      coin: Option<nat>)
    : Result<SpendTx, SpendError>
  {
    match Layout(rule, dest, held, amount, drain, src, coin)
    case Err(e) => Err(e)
    case Ok(tx) => if Balanced(rule, tx) then Ok(tx) else Err(Unbalanced)
  }

  /** The library's transaction builder, filled step by step. */
  class TxBuilder {
    var noteIn: nat
    var outputs: seq<Output>
    var coin: Option<nat>
    var coinChange: Option<nat>

    constructor (held: nat)
      ensures Tx() == SpendTx(held, [], None, None)
    {
      noteIn, outputs, coin, coinChange := held, [], None, None;
    }

    function Tx(): SpendTx
      reads this
    {
      SpendTx(noteIn, outputs, coin, coinChange)
    }

    function GetFee(rule: FeeRule): nat
      reads this
    {
      FeeOf(rule, Tx())
    }

    method AddOutput(to: Recipient, value: nat) returns (ok: bool)
      modifies this
      ensures ok <==> value <= MAX_MONEY
      ensures Tx() == if ok then old(Tx()).(outputs := old(outputs) + [Output(to, value)]) else old(Tx())
    {
      ok := value <= MAX_MONEY;
      if ok { outputs := outputs + [Output(to, value)]; }
    }

    method AddCoin(value: nat)
      modifies this
      ensures Tx() == old(Tx()).(coin := Some(value))
    {
      coin := Some(value);
    }

    method AddCoinChange(value: nat)
      modifies this
      ensures Tx() == old(Tx()).(coinChange := Some(value))
    {
      coinChange := Some(value);
    }
  }

  method BuildSpendTx(rule: FeeRule, dest: Payee, held: nat, amount: nat, drain: bool, src: FeeSource,
                      coin: Option<nat>)
    returns (r: Result<SpendTx, SpendError>)
    ensures r == BuildSpend(rule, dest, held, amount, drain, src, coin)
  {
    hide Balanced;
    match src {
      case FromNote => r := FillFromNote(rule, dest, held, amount, drain);
      case MinerCoinbase => r := FillWithCoin(rule, dest, held, amount, drain, coin);
    }
    if r.Ok? && !Balanced(rule, r.value) {
      r := Err(Unbalanced);
    }
  }

  /** The fee comes out of the note: probe the fee with and without change. */
  method FillFromNote(rule: FeeRule, dest: Payee, held: nat, amount: nat, drain: bool)
    returns (r: Result<SpendTx, SpendError>)
    ensures r == Layout(rule, dest, held, amount, drain, FromNote, None)
  {
    var txb := new TxBuilder(held);
    var ok;
    var leftover := SaturatingSub(held, amount);
    var fee2, fee3 := rule(0, 0, 1), rule(0, 0, 2);
    if drain {
      if held <= fee2 { return Err(NoteCannotCoverFee); }
      ok := txb.AddOutput(dest, held - fee2);
      if !ok { return Err(BadAmount); }
      assert txb.outputs == [Output(dest, held - fee2)];
    } else if leftover == fee2 {
      ok := txb.AddOutput(dest, amount);
      if !ok { return Err(BadAmount); }
      assert txb.outputs == [Output(dest, amount)];
    } else if leftover > fee3 {
      ok := txb.AddOutput(dest, amount);
      if !ok { return Err(BadAmount); }
      ok := txb.AddOutput(Group, leftover - fee3);
      if !ok { return Err(BadAmount); }
      assert txb.outputs == [Output(dest, amount), Output(Group, leftover - fee3)];
    } else {
      return Err(NoteCannotCoverFee);
    }
    r := Ok(txb.Tx());
  }

  /** A miner's coin pays the fee, read off the builder before the coin's change is added. */
  method FillWithCoin(rule: FeeRule, dest: Payee, held: nat, amount: nat, ghost drain: bool, coin: Option<nat>)
    returns (r: Result<SpendTx, SpendError>)
    ensures r == Layout(rule, dest, held, amount, drain, MinerCoinbase, coin)
  {
    var txb := new TxBuilder(held);
    var ok;
    var leftover := SaturatingSub(held, amount);
    if coin.None? { return Err(NoCoin); }
    txb.AddCoin(coin.value);
    ok := txb.AddOutput(dest, amount);
    if !ok { return Err(BadAmount); }
    assert txb.outputs == [Output(dest, amount)];
    if leftover > 0 {
      ok := txb.AddOutput(Group, leftover);
      if !ok { return Err(BadAmount); }
      assert txb.outputs == [Output(dest, amount), Output(Group, leftover)];
    }
    var fee := txb.GetFee(rule);
    if coin.value < fee { return Err(CoinTooSmall); }
    if coin.value > fee {
      txb.AddCoinChange(coin.value - fee);
    }
    r := Ok(txb.Tx());
  }

  lemma SumOne(a: Output)
    ensures SumOutputs([a]) == a.value
  {
    assert [a][1..] == [];
  }

  lemma SumTwo(a: Output, b: Output)
    ensures SumOutputs([a, b]) == a.value + b.value
  {
    assert [a, b][1..] == [b];
    SumOne(b);
  }

  /** What a layout takes from the note: all of it reaches outputs and, without a coin, the fee;
      with a coin, the note goes to the outputs alone and the coin pays fee and coin change. */
  lemma LayoutSplitsValue(rule: FeeRule, dest: Payee, held: nat, amount: nat, src: FeeSource, coin: Option<nat>)
    requires amount <= held
    requires Layout(rule, dest, held, amount, amount == held, src, coin).Ok?
    ensures var tx := Layout(rule, dest, held, amount, amount == held, src, coin).value;
            && tx.noteIn == held
            && (src == FromNote ==>
                  tx.coin.None? && tx.coinChange.None? && held == SumOutputs(tx.outputs) + FeeOf(rule, tx))
            && (src == MinerCoinbase ==>
                  && tx.coin == coin && coin.Some?
                  && held == SumOutputs(tx.outputs)
                  && coin.value == rule(1, 0, |tx.outputs|) + OptValue(tx.coinChange))
  {
    var tx := Layout(rule, dest, held, amount, amount == held, src, coin).value;
    SumOne(tx.outputs[0]);
    if |tx.outputs| == 2 {
      assert tx.outputs == [tx.outputs[0], tx.outputs[1]];
      SumTwo(tx.outputs[0], tx.outputs[1]);
    } else {
      assert tx.outputs == [tx.outputs[0]];
    }
  }

  /** Under any fee rule the library refuses a laid-out spend for imbalance in one case only: the
      coin change was added after the fee was read, and adding it moves the fee. */
  lemma UnbalancedIff(rule: FeeRule, dest: Payee, held: nat, amount: nat, src: FeeSource, coin: Option<nat>)
    requires amount <= held
    ensures BuildSpend(rule, dest, held, amount, amount == held, src, coin) == Err(Unbalanced) <==>
            && Layout(rule, dest, held, amount, amount == held, src, coin).Ok?
            && src == MinerCoinbase
            && var outs := if amount < held then 2 else 1;
               coin.value > rule(1, 0, outs) && rule(1, 1, outs) != rule(1, 0, outs)
  {
    if Layout(rule, dest, held, amount, amount == held, src, coin).Ok? {
      LayoutSplitsValue(rule, dest, held, amount, src, coin);
    }
  }

  /** Under ZIP 317 that case never arises. */
  lemma Zip317NeverUnbalanced(dest: Payee, held: nat, amount: nat, src: FeeSource, coin: Option<nat>)
    requires amount <= held
    ensures BuildSpend(Zip317, dest, held, amount, amount == held, src, coin) != Err(Unbalanced)
  {
    UnbalancedIff(Zip317, dest, held, amount, src, coin);
  }

  // ---- Spending the opened note ----

  datatype Spend = Spend(tx: SpendTx, change: Option<nat>, shieldedOnly: bool)

  /** All that a recipient gets from a transaction's shielded outputs. */
  function PaidTo(outs: seq<Output>, who: Recipient): nat {
    if outs == [] then 0 else (if outs[0].to == who then outs[0].value else 0) + PaidTo(outs[1..], who)
  }

  lemma PaidOne(a: Output, who: Recipient)
    ensures PaidTo([a], who) == if a.to == who then a.value else 0
  {
    assert [a][1..] == [];
  }

  lemma PaidTwo(a: Output, b: Output, who: Recipient)
    ensures PaidTo([a, b], who) == PaidTo([a], who) + PaidTo([b], who)
  {
    assert [a, b][1..] == [b] && [a][1..] == [];
  }

  /** The change note: the first output that the group can decrypt as its own. */
  function ChangeValue(outs: seq<Output>): Option<nat> {
    if outs == [] then None else if outs[0].to == Group then Some(outs[0].value) else ChangeValue(outs[1..])
  }

  /** What the note itself paid towards the fee. */
  function FeeFromNote(rule: FeeRule, tx: SpendTx): nat {
    if tx.coin.None? then FeeOf(rule, tx) else 0
  }

  /** Prefer the fee from the note; fall back on a miner coin only when the note cannot cover it. */
  function SpendOpened(rule: FeeRule, dest: Payee, held: nat, amount: nat, coin: Option<nat>)
    : Result<Spend, SpendError>
  {
    if amount > held then Err(AmountExceedsNote)
    else
      var drain := amount == held;
      match BuildSpend(rule, dest, held, amount, drain, FromNote, None)
      case Ok(tx) => Ok(Spend(tx, if drain then None else ChangeValue(tx.outputs), true))
      case Err(e) =>
        if e == NoteCannotCoverFee then
          match BuildSpend(rule, dest, held, amount, drain, MinerCoinbase, coin)
          case Ok(tx) => Ok(Spend(tx, if drain then None else ChangeValue(tx.outputs), false))
          case Err(e2) => Err(e2)
        else Err(e)
  }

  /** A laid-out spend pays its payee and, if there is change, the group; nobody else. */
  lemma LayoutPays(rule: FeeRule, dest: Payee, held: nat, amount: nat, src: FeeSource, coin: Option<nat>,
                   who: Recipient)
    requires amount <= held
    requires Layout(rule, dest, held, amount, amount == held, src, coin).Ok?
    ensures var outs := Layout(rule, dest, held, amount, amount == held, src, coin).value.outputs;
            && PaidTo(outs, dest) + PaidTo(outs, Group) == SumOutputs(outs)
            && (amount < held ==> PaidTo(outs, dest) == amount)
            && PaidTo(outs, Group) == OptValue(ChangeValue(outs))
            && (amount == held ==> ChangeValue(outs).None?)
            && (ChangeValue(outs).Some? ==> ChangeValue(outs).value > 0)
            && (who != dest && who != Group ==> PaidTo(outs, who) == 0)
  {
    var outs := Layout(rule, dest, held, amount, amount == held, src, coin).value.outputs;
    var a := outs[0];
    forall w ensures PaidTo([a], w) == if a.to == w then a.value else 0 {
      PaidOne(a, w);
    }
    SumOne(a);
    if |outs| == 2 {
      var b := outs[1];
      assert outs == [a, b] && outs[1..] == [b] && [b][1..] == [];
      SumTwo(a, b);
      forall w ensures PaidTo(outs, w) == (if a.to == w then a.value else 0) + (if b.to == w then b.value else 0) {
        PaidOne(b, w);
        PaidTwo(a, b, w);
      }
    } else {
      assert outs == [a] && outs[1..] == [];
    }
  }

  /** A spend balances, consumes the whole note, and pays its payee the amount asked for, unless it
      drains the note: then the fee comes out of the payment. What is left is the group's change. */
  lemma SpendOpenedMeaning(rule: FeeRule, dest: Payee, held: nat, amount: nat, coin: Option<nat>, who: Recipient)
    requires SpendOpened(rule, dest, held, amount, coin).Ok?
    ensures var s := SpendOpened(rule, dest, held, amount, coin).value;
            && amount <= held
            && Balanced(rule, s.tx) && s.tx.noteIn == held
            && s.shieldedOnly == s.tx.coin.None?
            && PaidTo(s.tx.outputs, dest) + PaidTo(s.tx.outputs, Group) + FeeFromNote(rule, s.tx) == held
            && (amount < held ==> PaidTo(s.tx.outputs, dest) == amount)
            && PaidTo(s.tx.outputs, Group) == OptValue(s.change)
            && (amount == held ==> s.change.None?)
            && (s.change.Some? ==> s.change.value > 0)
            && (who != dest && who != Group ==> PaidTo(s.tx.outputs, who) == 0)
  {
    var s := SpendOpened(rule, dest, held, amount, coin).value;
    var src := if s.shieldedOnly then FromNote else MinerCoinbase;
    var paid := if s.shieldedOnly then None else coin;
    assert Layout(rule, dest, held, amount, amount == held, src, paid) == Ok(s.tx);
    LayoutSplitsValue(rule, dest, held, amount, src, paid);
    LayoutPays(rule, dest, held, amount, src, paid, who);
    hide Layout, PaidTo, ChangeValue, SumOutputs;
  }

  /** A coin is touched only when the note cannot pay: neither is what is left exactly the fee, nor more
      than the fee with change; of a drained note, when it does not exceed the fee. */
  lemma CoinOnlyWhenNeeded(rule: FeeRule, dest: Payee, held: nat, amount: nat, coin: Option<nat>)
    requires SpendOpened(rule, dest, held, amount, coin).Ok?
    ensures SpendOpened(rule, dest, held, amount, coin).value.shieldedOnly <==>
            var left := held - amount;
            if left == 0 then held > rule(0, 0, 1) else left == rule(0, 0, 1) || left > rule(0, 0, 2)
  {
    SpendOpenedMeaning(rule, dest, held, amount, coin, dest);
    if BuildSpend(rule, dest, held, amount, amount == held, FromNote, None) == Err(Unbalanced) {
      UnbalancedIff(rule, dest, held, amount, FromNote, None);
    }
    hide PaidTo, Balanced;
  }

  // ---- The two-spend close ----

  /** A note of the escrow; `value` is what the encoded note holds. */
  datatype ShieldedNote = ShieldedNote(groupId: Digest, commitment: Digest, amountZat: u64, value: u64)

  /** The spends sent to the chain, and what the caller is told. */
  datatype CloseOutcome = CloseOutcome(sent: seq<SpendTx>, result: Result<(Spend, Spend), SpendError>)

  function CapU16(n: nat): u16 {
    if n < U16_SIZE then n else 0xFFFF
  }

  function CloseAmounts(rule: FeeRule, seats: nat, need: u16, note: ShieldedNote, earned: u64,
                        coin1: Option<nat>, coin2: Option<nat>): CloseOutcome
  {
    if CapU16(seats) < need then CloseOutcome([], Err(Stalled(CapU16(seats), need)))
    else if note.amountZat < earned then CloseOutcome([], Err(EarnedExceedsDeposit))
    else
      match SpendOpened(rule, Provider, note.value, earned, coin1)
      case Err(e) => CloseOutcome([], Err(e))
      case Ok(pay) =>
        if pay.change.None? then CloseOutcome([pay.tx], Err(RemainderMissing))
        else
          match SpendOpened(rule, Tenant, pay.change.value, pay.change.value, coin2)
          case Err(e) => CloseOutcome([pay.tx], Err(e))
          case Ok(refund) => CloseOutcome([pay.tx, refund.tx], Ok((pay, refund)))
  }

  /** A successful close pays the provider exactly what was earned, out of the first spend alone; the
      tenant gets the rest of the note less only the fees that the note itself paid, out of the second
      alone, which consumes exactly the change of the first and leaves none. */
  lemma CloseSplitsNote(rule: FeeRule, seats: nat, need: u16, note: ShieldedNote, earned: u64,
                        coin1: Option<nat>, coin2: Option<nat>)
    requires CloseAmounts(rule, seats, need, note, earned, coin1, coin2).result.Ok?
    ensures var (pay, refund) := CloseAmounts(rule, seats, need, note, earned, coin1, coin2).result.value;
            var first, second := pay.tx.outputs, refund.tx.outputs;
            && CloseAmounts(rule, seats, need, note, earned, coin1, coin2).sent == [pay.tx, refund.tx]
            && PaidTo(first, Provider) == earned && PaidTo(second, Provider) == 0
            && PaidTo(first, Tenant) == 0
            && PaidTo(second, Tenant) == note.value - earned - FeeFromNote(rule, pay.tx) - FeeFromNote(rule, refund.tx)
            && Some(PaidTo(first, Group)) == pay.change && PaidTo(second, Group) == 0
            && Balanced(rule, pay.tx) && Balanced(rule, refund.tx)
            && pay.tx.noteIn == note.value
            && Some(refund.tx.noteIn) == pay.change
            && refund.change.None?
            && seats >= need && earned <= note.amountZat
  {
    hide SpendOpened, PaidTo, Balanced;
    var (pay, refund) := CloseAmounts(rule, seats, need, note, earned, coin1, coin2).result.value;
    SpendOpenedMeaning(rule, Provider, note.value, earned, coin1, Tenant);
    SpendOpenedMeaning(rule, Tenant, pay.change.value, pay.change.value, coin2, Provider);
  }

  const NOTE_FEE: nat := 10_000
  const COIN_FEE: nat := 15_000

  predicate CanPay(coin: Option<nat>) {
    coin.Some? && coin.value >= COIN_FEE
  }

  /** The change a spend leaves under ZIP 317, zero when there is none. */
  function FirstChange(left: nat): nat {
    if left == NOTE_FEE then 0 else if left > NOTE_FEE then left - NOTE_FEE else left
  }

  /** Under ZIP 317 a spend of part of a note succeeds exactly when the leftover is the fee, covers
      it, or a coin does; its change is what the caller can compute beforehand. */
  lemma Zip317SpendIff(dest: Payee, held: nat, amount: nat, coin: Option<nat>)
    requires held <= MAX_MONEY && amount <= held
    ensures var left := held - amount;
            var r := SpendOpened(Zip317, dest, held, amount, coin);
            && (r.Ok? <==> if left == 0 then held > NOTE_FEE || CanPay(coin) else left >= NOTE_FEE || CanPay(coin))
            && (r.Ok? ==> r.value.change == if FirstChange(left) == 0 then None else Some(FirstChange(left)))
  {
    Zip317NeverUnbalanced(dest, held, amount, FromNote, None);
    Zip317NeverUnbalanced(dest, held, amount, MinerCoinbase, coin);
    assert Zip317(0, 0, 1) == NOTE_FEE && Zip317(0, 0, 2) == NOTE_FEE;
    assert Zip317(1, 0, 1) == COIN_FEE && Zip317(1, 0, 2) == COIN_FEE;
    forall v: nat, w: nat
      ensures ChangeValue([Output(dest, v)]) == None
      ensures ChangeValue([Output(dest, v), Output(Group, w)]) == Some(w)
    {
      assert [Output(dest, v)][1..] == [] && [Output(dest, v), Output(Group, w)][1..] == [Output(Group, w)];
    }
    hide Balanced, Zip317;
  }

  /** Exactly when a two-spend close succeeds under ZIP 317. */
  predicate CloseGoesThrough(seats: nat, need: u16, note: ShieldedNote, earned: u64,
                             coin1: Option<nat>, coin2: Option<nat>)
  {
    && seats >= need && earned <= note.amountZat && earned < note.value
    && var left := note.value - earned;
       && left != NOTE_FEE
       && (left > NOTE_FEE || CanPay(coin1))
       && (FirstChange(left) > NOTE_FEE || CanPay(coin2))
  }

  lemma CloseSucceedsIff(seats: nat, need: u16, note: ShieldedNote, earned: u64, coin1: Option<nat>, coin2: Option<nat>)
    requires note.value <= MAX_MONEY
    ensures CloseAmounts(Zip317, seats, need, note, earned, coin1, coin2).result.Ok?
            <==> CloseGoesThrough(seats, need, note, earned, coin1, coin2)
  {
    hide SpendOpened;
    if earned <= note.value {
      Zip317SpendIff(Provider, note.value, earned, coin1);
      var first := SpendOpened(Zip317, Provider, note.value, earned, coin1);
      if first.Ok? && first.value.change.Some? {
        var c := first.value.change.value;
        Zip317SpendIff(Tenant, c, c, coin2);
      }
    } else {
      AmountTooLarge(Zip317, Provider, note.value, earned, coin1);
    }
  }

  lemma AmountTooLarge(rule: FeeRule, dest: Payee, held: nat, amount: nat, coin: Option<nat>)
    requires amount > held
    ensures SpendOpened(rule, dest, held, amount, coin).Err?
  {
  }

  /** The close is not atomic. It fails with the provider's spend already sent exactly when the
      first spend goes through and either leaves no change (the whole note was earned, or the
      leftover equals the fee) or leaves a change that can pay no fee and finds no coin. */
  lemma ProviderPaidWithoutRefundIff(seats: nat, need: u16, note: ShieldedNote, earned: u64,
                                     coin1: Option<nat>, coin2: Option<nat>)
    requires note.value <= MAX_MONEY
    ensures var c := CloseAmounts(Zip317, seats, need, note, earned, coin1, coin2);
            c.result.Err? && c.sent != [] <==>
            && seats >= need && earned <= note.amountZat && earned <= note.value
            && var left := note.value - earned;
               if left == 0 then note.value > NOTE_FEE || CanPay(coin1)
               else
                 && (left >= NOTE_FEE || CanPay(coin1))
                 && (left == NOTE_FEE || (FirstChange(left) <= NOTE_FEE && !CanPay(coin2)))
  {
    hide SpendOpened;
    if earned <= note.value {
      Zip317SpendIff(Provider, note.value, earned, coin1);
      var first := SpendOpened(Zip317, Provider, note.value, earned, coin1);
      if first.Ok? && first.value.change.Some? {
        var c := first.value.change.value;
        Zip317SpendIff(Tenant, c, c, coin2);
      }
    } else {
      AmountTooLarge(Zip317, Provider, note.value, earned, coin1);
    }
  }

  /** A concrete instance: everything earned. The provider even gets less than was earned. */
  lemma FullyEarnedNoteFails(group: Digest, cm: Digest, coin: Option<nat>)
    ensures var c := CloseAmounts(Zip317, 2, 2, ShieldedNote(group, cm, 1_000_000, 1_000_000), 1_000_000, coin, coin);
            && c.result == Err(RemainderMissing)
            && |c.sent| == 1 && PaidTo(c.sent[0].outputs, Provider) == 990_000
  {
    var tx := SpendTx(1_000_000, [Output(Provider, 990_000)], None, None);
    SumOne(Output(Provider, 990_000));
    PaidOne(Output(Provider, 990_000), Provider);
    assert Layout(Zip317, Provider, 1_000_000, 1_000_000, true, FromNote, None) == Ok(tx);
    assert Balanced(Zip317, tx);
    assert SpendOpened(Zip317, Provider, 1_000_000, 1_000_000, coin) == Ok(Spend(tx, None, true));
  }

  // ---- The stalled-close record ----

  datatype FrostGroup = FrostGroup(dealer: bool, verifyingKey: Digest, minSigners: u16)

  datatype CloseChallenge =
    CloseChallenge(recordId: Digest, noteCommitment: Digest, openHeight: u64, recordedHeight: u64, rate: u64,
                   quote: u64, have: u16, need: u16)

  function StallPreimage(commitment: Digest, groupId: Digest, open: u64, recorded: u64, rate: u64,
                         have: u16, need: u16): seq<byte>
  {
    Preimage(CLOSE_CHALLENGE_TAG,
             [commitment, groupId, ToLe(open, U64_BYTES), ToLe(recorded, U64_BYTES), ToLe(rate, U64_BYTES),
              ToLe(have, 2), ToLe(need, 2)])
  }

  function RecordStall(hash: seq<byte> -> Digest, group: FrostGroup, seats: nat, note: ShieldedNote,
                       open: u64, recorded: u64, rate: u64): Result<CloseChallenge, SpendError>
  {
    if group.dealer then Err(DealerGroup)
    else if note.groupId != group.verifyingKey then Err(WrongGroup)
    else if note.commitment == ZERO_DIGEST then Err(CommitmentMissing)
    else
      var have, need := CapU16(seats), group.minSigners;
      if have >= need then Err(NotStalled(have, need))
      else
        match A.F(open, recorded, rate)
        case Err(_) => Err(QuoteFailed)
        case Ok(quote) =>
          if quote > note.amountZat then Err(QuoteExceedsDeposit)
          else
            var id := hash(StallPreimage(note.commitment, note.groupId, open, recorded, rate, have, need));
            Ok(CloseChallenge(id, note.commitment, open, recorded, rate, quote, have, need))
  }

  function TryPayProvider(c: CloseChallenge, claimed: u64): Result<u64, SpendError> {
    if claimed != c.quote then Err(CloserSetEarned)
    else if c.have < c.need then Err(Stalled(c.have, c.need))
    else Err(UseThresholdClose)
  }

  function FinishAmounts(c: CloseChallenge, deposit: u64): Result<(u64, u64), SpendError> {
    match A.F(c.openHeight, c.recordedHeight, c.rate)
    case Err(_) => Err(QuoteFailed)
    case Ok(earned) =>
      if earned != c.quote then Err(CloserSetEarned)
      else if deposit < earned then Err(EarnedExceedsDeposit)
      else Ok((earned, deposit - earned))
  }

  function CloseFromChallenge(rule: FeeRule, seats: nat, need: u16, note: ShieldedNote, c: CloseChallenge,
                              coin1: Option<nat>, coin2: Option<nat>): CloseOutcome
  {
    if c.noteCommitment != note.commitment then CloseOutcome([], Err(WrongNote))
    else
      match A.F(c.openHeight, c.recordedHeight, c.rate)
      case Err(_) => CloseOutcome([], Err(QuoteFailed))
      case Ok(earned) =>
        if earned != c.quote then CloseOutcome([], Err(CloserSetEarned))
        else CloseAmounts(rule, seats, need, note, earned, coin1, coin2)
  }

  /** A stall is recorded exactly for a threshold group's own note that is genuinely short of
      signers and can cover the height quote; the quote is the height span times the rate. */
  lemma StallRecordedIff(hash: seq<byte> -> Digest, group: FrostGroup, seats: nat, note: ShieldedNote,
                         open: u64, recorded: u64, rate: u64)
    ensures var r := RecordStall(hash, group, seats, note, open, recorded, rate);
            && (r.Ok? <==>
                  && !group.dealer && note.groupId == group.verifyingKey && note.commitment != ZERO_DIGEST
                  && seats < group.minSigners
                  && rate > 0 && recorded > open && (recorded - open) * rate <= note.amountZat)
            && (r.Ok? ==>
                  && r.value.quote == (recorded - open) * rate
                  && r.value.have == seats && r.value.need == group.minSigners)
  {
    A.FMeaning(open, recorded, rate);
    hide A.F, StallPreimage;
  }

  /** A recorded stall never pays by itself, splits the note exactly when finished, and cannot be
      used to close with the signers that were present. */
  lemma RecordedStallNeverPays(hash: seq<byte> -> Digest, group: FrostGroup, seats: nat, note: ShieldedNote,
                               open: u64, recorded: u64, rate: u64, claimed: u64,
                               rule: FeeRule, later: nat, coin1: Option<nat>, coin2: Option<nat>)
    requires RecordStall(hash, group, seats, note, open, recorded, rate).Ok?
    ensures var c := RecordStall(hash, group, seats, note, open, recorded, rate).value;
            && TryPayProvider(c, claimed).Err?
            && FinishAmounts(c, note.amountZat) == Ok((c.quote, note.amountZat - c.quote))
            && CloseFromChallenge(rule, seats, group.minSigners, note, c, coin1, coin2)
               == CloseOutcome([], Err(Stalled(seats, group.minSigners)))
            && CloseFromChallenge(rule, later, group.minSigners, note, c, coin1, coin2)
               == CloseAmounts(rule, later, group.minSigners, note, (recorded - open) * rate, coin1, coin2)
  {
    StallRecordedIff(hash, group, seats, note, open, recorded, rate);
    A.FMeaning(open, recorded, rate);
    hide A.F, StallPreimage, SpendOpened;
  }

  /** The record's id names the whole record: two records under one id agree in everything, unless the
      two preimages collide. */
  lemma StallIdBinds(hash: seq<byte> -> Digest, group: FrostGroup, seats: nat, note: ShieldedNote,
                     open: u64, recorded: u64, rate: u64,
                     group2: FrostGroup, seats2: nat, note2: ShieldedNote, open2: u64, recorded2: u64, rate2: u64)
    requires RecordStall(hash, group, seats, note, open, recorded, rate).Ok?
    requires RecordStall(hash, group2, seats2, note2, open2, recorded2, rate2).Ok?
    requires CollisionFreeOn(hash,
      {StallPreimage(note.commitment, note.groupId, open, recorded, rate, CapU16(seats), group.minSigners),
       StallPreimage(note2.commitment, note2.groupId, open2, recorded2, rate2, CapU16(seats2), group2.minSigners)})
    ensures var c := RecordStall(hash, group, seats, note, open, recorded, rate).value;
            var d := RecordStall(hash, group2, seats2, note2, open2, recorded2, rate2).value;
            c.recordId == d.recordId ==> c == d && group.verifyingKey == group2.verifyingKey
  {
    hide A.F, CapU16;
    var c := RecordStall(hash, group, seats, note, open, recorded, rate).value;
    var d := RecordStall(hash, group2, seats2, note2, open2, recorded2, rate2).value;
    if c.recordId == d.recordId {
      StallPreimageInjective(note.commitment, note.groupId, open, recorded, rate, c.have, c.need,
                             note2.commitment, note2.groupId, open2, recorded2, rate2, d.have, d.need);
    }
  }

  lemma StallPreimageInjective(cm: Digest, g: Digest, o: u64, k: u64, r: u64, h: u16, n: u16,
                               cm2: Digest, g2: Digest, o2: u64, k2: u64, r2: u64, h2: u16, n2: u16)
    requires StallPreimage(cm, g, o, k, r, h, n) == StallPreimage(cm2, g2, o2, k2, r2, h2, n2)
    ensures cm == cm2 && g == g2 && o == o2 && k == k2 && r == r2 && h == h2 && n == n2
  {
    TagsInDomain();
    var p: seq<Slice> := [cm, g, ToLe(o, U64_BYTES), ToLe(k, U64_BYTES), ToLe(r, U64_BYTES), ToLe(h, 2), ToLe(n, 2)];
    var q: seq<Slice> :=
      [cm2, g2, ToLe(o2, U64_BYTES), ToLe(k2, U64_BYTES), ToLe(r2, U64_BYTES), ToLe(h2, 2), ToLe(n2, 2)];
    hide ToLe, DomainTag;
    PreimageInjective(CLOSE_CHALLENGE_TAG, p, CLOSE_CHALLENGE_TAG, q);
    assert p[0] == q[0] && p[1] == q[1] && p[2] == q[2] && p[3] == q[3] && p[4] == q[4] && p[5] == q[5] && p[6] == q[6];
    Pow256Values();
    LeInjective(o, o2, U64_BYTES);
    LeInjective(k, k2, U64_BYTES);
    LeInjective(r, r2, U64_BYTES);
    LeInjective(h, h2, 2);
    LeInjective(n, n2, 2);
  }

  /** Whatever a challenge claims: nothing is sent unless it is for this note and its quote is the
      height span times the rate; then the close is one for exactly that amount. */
  lemma ChallengeNeverSetsEarned(rule: FeeRule, seats: nat, need: u16, note: ShieldedNote, c: CloseChallenge,
                                 coin1: Option<nat>, coin2: Option<nat>, deposit: u64, claimed: u64)
    ensures var honest := && c.rate > 0 && c.recordedHeight > c.openHeight
                          && (c.recordedHeight - c.openHeight) * c.rate == c.quote;
            var out := CloseFromChallenge(rule, seats, need, note, c, coin1, coin2);
            && (c.noteCommitment == note.commitment && honest ==>
                  out == CloseAmounts(rule, seats, need, note, c.quote, coin1, coin2))
            && (c.noteCommitment != note.commitment || !honest ==> out.sent == [] && out.result.Err?)
            && TryPayProvider(c, claimed).Err?
            && (FinishAmounts(c, deposit).Ok? <==> honest && c.quote <= deposit)
            && (FinishAmounts(c, deposit).Ok? ==> FinishAmounts(c, deposit).value == (c.quote, deposit - c.quote))
  {
    A.FMeaning(c.openHeight, c.recordedHeight, c.rate);
    hide A.F, SpendOpened, CloseAmounts;
  }
}
