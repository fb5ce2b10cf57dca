/** The on-chain escrow contract: cells in a map, accrual commitments, the proof gate and grants. */
module ContractEscrow {
  import opened Wrappers
  import opened Bytes
  import opened TaggedHash
  import A = Accrual
  import E = EscrowCell
  import H = Hex
  import L = LeaseBook

  const ACCRUAL_ZKID: nat := 2

  /** Accrual data set by one `accrue` message: hex texts and the instances derived from them. */
  datatype AccrualData = AccrualData(commitment: string, openHeader: string, closeHeader: string, instances: string)

  /** The four optional accrual fields of the stored record are always set together. */
  datatype Cell = Cell(deposit: u64, bid: string, members: E.Members, closed: bool, closer: Option<E.Party>,
                       remainder: Option<u64>, accrual: Option<AccrualData>, verified: bool)

  datatype GrantResp = GrantResp(cellId: string, closer: E.Party, earned: u64, remainder: u64, recorded: bool,
                                 commitment: string, openHeader: string, closeHeader: string,
                                 instances: string, verified: bool)

  datatype ContractError =
    | NotHex32 | EmptyMember | BankFunds | ZeroDeposit | CellExists | UnknownCell | AlreadyClosed | HeadersEqual
    | AccrueFirst | InstancesMissing | EmptyProof | ForbiddenProof | ShortProof | WrongCircuit | ProofRejected | NoGrant

  type Cells = map<string, Cell>

  /** The hash and the proof verifier (circuit, proof, instances) are library code. */
  datatype Env = Env(hash: seq<byte> -> Digest, verify: (nat, seq<byte>, seq<byte>) -> bool)

  datatype Msg =
    | OpenCell(bid: string, members: E.Members, deposit: u64, funds: bool)
    | Accrue(id: string, commitment: string, openHeader: string, closeHeader: string)
    | VerifyAccrual(id: string, zkid: nat, proof: seq<byte>)
    | Close(id: string, party: E.Party)

  predicate IsHex32(s: string) {
    |s| == 64 && forall i :: 0 <= i < 64 ==> H.DigitValue(s[i]).Some?
  }

  lemma Hex32Decodes(s: string)
    requires IsHex32(s)
    ensures H.Decode(s).Some? && |H.Decode(s).value| == 32
  {
    H.DecodesIff(s);
  }

  function DecodeHex32(s: string): Digest
    requires IsHex32(s)
  {
    Hex32Decodes(s);
    H.Decode(s).value
  }

  function InstanceBytes(commitment: string, openHeader: string, closeHeader: string): (b: seq<byte>)
    requires IsHex32(commitment) && IsHex32(openHeader) && IsHex32(closeHeader)
    ensures |b| == 96
  {
    A.PackBytes(DecodeHex32(commitment)) + A.PackBytes(DecodeHex32(openHeader)) + A.PackBytes(DecodeHex32(closeHeader))
  }

  function EncodeInstances(commitment: string, openHeader: string, closeHeader: string): string
    requires IsHex32(commitment) && IsHex32(openHeader) && IsHex32(closeHeader)
  {
    H.Encode(InstanceBytes(commitment, openHeader, closeHeader))
  }

  /** The cell key: the same tagged hash as in process, over the decoded bid. */
  function CellKey(hash: seq<byte> -> Digest, deposit: u64, bid: string, m: E.Members): string {
    H.Encode(hash(KeyPreimage(deposit, bid, m)))
  }

  function KeyPreimage(deposit: u64, bid: string, m: E.Members): seq<byte> {
    var raw := H.Decode(bid);
    E.CellPreimage(deposit, if raw.Some? && |raw.value| < U64_SIZE then raw.value else [], m)
  }

  const DSTW: seq<byte> := [68, 83, 84, 87]

  function Execute(env: Env, cells: Cells, msg: Msg): Result<Cells, ContractError> {
    match msg
    case OpenCell(bid, m, deposit, funds) => DoOpen(env, cells, bid, m, deposit, funds)
    case Accrue(id, c, o, k) => DoAccrue(cells, id, c, o, k)
    case VerifyAccrual(id, zkid, proof) => DoVerify(env, cells, id, zkid, proof)
    case Close(id, party) => DoClose(cells, id, party)
  }

  function DoOpen(env: Env, cells: Cells, bid: string, m: E.Members, deposit: u64, funds: bool)
    : Result<Cells, ContractError>
  {
    if !IsHex32(bid) then Err(NotHex32)
    else if m.tenant == [] || m.provider == [] || m.resolver == [] then Err(EmptyMember)
    else if funds then Err(BankFunds)
    else if deposit == 0 then Err(ZeroDeposit)
    else
      var id := CellKey(env.hash, deposit, bid, m);
      if id in cells then Err(CellExists)
      else Ok(cells[id := Cell(deposit, bid, m, false, None, None, None, false)])
  }

  function DoAccrue(cells: Cells, id: string, c: string, o: string, k: string): Result<Cells, ContractError> {
    if id !in cells then Err(UnknownCell)
    else if cells[id].closed then Err(AlreadyClosed)
    else if !IsHex32(c) || !IsHex32(o) || !IsHex32(k) then Err(NotHex32)
    else if o == k then Err(HeadersEqual)
    else Ok(cells[id := cells[id].(accrual := Some(AccrualData(c, o, k, EncodeInstances(c, o, k))), verified := false)])
  }

  function DoVerify(env: Env, cells: Cells, id: string, zkid: nat, proof: seq<byte>): Result<Cells, ContractError> {
    if id !in cells then Err(UnknownCell)
    else if cells[id].closed then Err(AlreadyClosed)
    else if cells[id].accrual.None? then Err(AccrueFirst)
    else
      var inst := cells[id].accrual.value.instances;
      if |inst| != 192 then Err(InstancesMissing)
      else if proof == [] then Err(EmptyProof)
      else if DSTW <= proof then Err(ForbiddenProof)
      else if |proof| < 64 then Err(ShortProof)
      else if zkid != ACCRUAL_ZKID then Err(WrongCircuit)
      else if H.Decode(inst).None? || |H.Decode(inst).value| != 96 then Err(InstancesMissing)
      else if !env.verify(zkid, proof, H.Decode(inst).value) then Err(ProofRejected)
      else Ok(cells[id := cells[id].(verified := true)])
  }

  function DoClose(cells: Cells, id: string, party: E.Party): Result<Cells, ContractError> {
    if id !in cells then Err(UnknownCell)
    else if cells[id].closed then Err(AlreadyClosed)
    else if cells[id].accrual.None? then Err(AccrueFirst)
    else if |cells[id].accrual.value.instances| != 192 then Err(InstancesMissing)
    else Ok(cells[id := cells[id].(closed := true, closer := Some(party), remainder := Some(cells[id].deposit))])
  }

  function Grant(cells: Cells, id: string): Result<GrantResp, ContractError> {
    if id !in cells then Err(UnknownCell)
    else if !cells[id].closed then Err(NoGrant)
    else
      var c := cells[id];
      var closer := if c.closer.Some? then c.closer.value else E.Tenant;
      var remainder := if c.remainder.Some? then c.remainder.value else c.deposit;
      var a := if c.accrual.Some? then c.accrual.value else AccrualData("", "", "", "");
      Ok(GrantResp(id, closer, 0, remainder, true, a.commitment, a.openHeader, a.closeHeader, a.instances, c.verified))
  }

  /** The contract storage, loaded, changed and saved by each message. */
  class Contract {
    var cells: Cells

    constructor ()
      ensures cells == map[]
    {
      cells := map[];
    }

    method Open(env: Env, bid: string, m: E.Members, deposit: u64, funds: bool)
      returns (r: Result<string, ContractError>)
      modifies this
      ensures var spec := DoOpen(env, old(cells), bid, m, deposit, funds);
              if spec.Ok?
              then r == Ok(CellKey(env.hash, deposit, bid, m)) && cells == spec.value
              else r == Err(spec.error) && cells == old(cells)
    {
      if !IsHex32(bid) { return Err(NotHex32); }
      if m.tenant == [] || m.provider == [] || m.resolver == [] { return Err(EmptyMember); }
      if funds { return Err(BankFunds); }
      if deposit == 0 { return Err(ZeroDeposit); }
      var id := CellKey(env.hash, deposit, bid, m);
      if id in cells { return Err(CellExists); }
      cells := cells[id := Cell(deposit, bid, m, false, None, None, None, false)];
      r := Ok(id);
    }

    method Accrue(id: string, c: string, o: string, k: string) returns (r: Result<(), ContractError>)
      modifies this
      ensures var spec := DoAccrue(old(cells), id, c, o, k);
              if spec.Ok? then r == Ok(()) && cells == spec.value else r == Err(spec.error) && cells == old(cells)
    {
      if id !in cells { return Err(UnknownCell); }
      var cell := cells[id];
      if cell.closed { return Err(AlreadyClosed); }
      if !IsHex32(c) || !IsHex32(o) || !IsHex32(k) { return Err(NotHex32); }
      if o == k { return Err(HeadersEqual); }
      var inst := EncodeInstances(c, o, k);
      cell := cell.(accrual := Some(AccrualData(c, o, k, inst)));
      cell := cell.(verified := false);
      cells := cells[id := cell];
      r := Ok(());
    }

    method VerifyAccrualHalo2(env: Env, id: string, zkid: nat, proof: seq<byte>) returns (r: Result<(), ContractError>)
      modifies this
      ensures var spec := DoVerify(env, old(cells), id, zkid, proof);
              if spec.Ok? then r == Ok(()) && cells == spec.value else r == Err(spec.error) && cells == old(cells)
    {
      if id !in cells { return Err(UnknownCell); }
      var cell := cells[id];
      if cell.closed { return Err(AlreadyClosed); }
      if cell.accrual.None? { return Err(AccrueFirst); }
      var instHex := cell.accrual.value.instances;
      if |instHex| != 192 { return Err(InstancesMissing); }
      if proof == [] { return Err(EmptyProof); }
      if DSTW <= proof { return Err(ForbiddenProof); }
      if |proof| < 64 { return Err(ShortProof); }
      if zkid != ACCRUAL_ZKID { return Err(WrongCircuit); }
      var inst := H.Decode(instHex);
      if inst.None? || |inst.value| != 96 { return Err(InstancesMissing); }
      if !env.verify(zkid, proof, inst.value) { return Err(ProofRejected); }
      cell := cell.(verified := true);
      cells := cells[id := cell];
      r := Ok(());
    }

    method CloseCell(id: string, party: E.Party) returns (r: Result<(), ContractError>)
      modifies this
      ensures var spec := DoClose(old(cells), id, party);
              if spec.Ok? then r == Ok(()) && cells == spec.value else r == Err(spec.error) && cells == old(cells)
    {
      if id !in cells { return Err(UnknownCell); }
      var cell := cells[id];
      if cell.closed { return Err(AlreadyClosed); }
      if cell.accrual.None? { return Err(AccrueFirst); }
      if |cell.accrual.value.instances| != 192 { return Err(InstancesMissing); }
      cell := cell.(closed := true, closer := Some(party));
      cell := cell.(remainder := Some(cell.deposit));
      cells := cells[id := cell];
      r := Ok(());
    }
  }

  // ---- Every run of the contract ----

  /** The stored instances are the packed encoding of the stored commitment and headers. */
  ghost predicate AccrualOk(a: AccrualData) {
    && IsHex32(a.commitment) && IsHex32(a.openHeader) && IsHex32(a.closeHeader)
    && a.openHeader != a.closeHeader
    && a.instances == EncodeInstances(a.commitment, a.openHeader, a.closeHeader)
  }

  /** The verifier accepts some admissible proof for exactly these instances. */
  ghost predicate ProofAccepted(env: Env, a: AccrualData) {
    && AccrualOk(a)
    && var instances := InstanceBytes(a.commitment, a.openHeader, a.closeHeader);
       exists proof :: |proof| >= 64 && env.verify(ACCRUAL_ZKID, proof, instances)
  }

  ghost predicate CellOk(env: Env, c: Cell) {
    && c.deposit > 0
    && (c.accrual.Some? ==> AccrualOk(c.accrual.value))
    && (c.verified ==> c.accrual.Some? && ProofAccepted(env, c.accrual.value))
    && (c.closed ==> c.accrual.Some? && c.closer.Some? && c.remainder == Some(c.deposit))
    && (!c.closed ==> c.closer.None? && c.remainder.None?)
  }

  ghost predicate Inv(env: Env, cells: Cells) {
    forall id :: id in cells ==> CellOk(env, cells[id])
  }

  lemma InstancesDecode(a: AccrualData)
    requires AccrualOk(a)
    ensures |a.instances| == 192
    ensures H.Decode(a.instances) == Some(InstanceBytes(a.commitment, a.openHeader, a.closeHeader))
  {
    H.RoundTrip(InstanceBytes(a.commitment, a.openHeader, a.closeHeader));
  }

  function Step(env: Env, cells: Cells, msg: Msg): Cells {
    match Execute(env, cells, msg)
    case Ok(next) => next
    case Err(_) => cells
  }

  lemma StepKeeps(env: Env, cells: Cells, msg: Msg)
    requires Inv(env, cells)
    ensures Inv(env, Step(env, cells, msg))
    ensures forall id :: id in cells ==> id in Step(env, cells, msg)
    ensures forall id :: id in cells ==> Step(env, cells, msg)[id].deposit == cells[id].deposit
    ensures forall id :: id in cells && cells[id].closed ==> Step(env, cells, msg)[id] == cells[id]
  {
    hide IsHex32, EncodeInstances, InstanceBytes, H.Decode, CellKey;
    if msg.VerifyAccrual? && msg.id in cells && cells[msg.id].accrual.Some? {
      InstancesDecode(cells[msg.id].accrual.value);
    }
  }

  function Run(env: Env, cells: Cells, msgs: seq<Msg>): Cells
    decreases |msgs|
  {
    if msgs == [] then cells else Run(env, Step(env, cells, msgs[0]), msgs[1..])
  }

  /** In every run: a verified flag means that the verifier accepted a proof for exactly the stored
      instances, the instances always encode the stored commitment and headers, no cell disappears
      or changes its deposit, and a closed cell never changes at all. */
  lemma {:induction false} ContractRunInvariant(env: Env, cells: Cells, msgs: seq<Msg>)
    requires Inv(env, cells)
    ensures Inv(env, Run(env, cells, msgs))
    ensures forall id :: id in cells ==> id in Run(env, cells, msgs)
    ensures forall id :: id in cells ==> Run(env, cells, msgs)[id].deposit == cells[id].deposit
    ensures forall id :: id in cells && cells[id].closed ==> Run(env, cells, msgs)[id] == cells[id]
    decreases |msgs|
  {
    if msgs != [] {
      StepKeeps(env, cells, msgs[0]);
      ContractRunInvariant(env, Step(env, cells, msgs[0]), msgs[1..]);
    }
  }

  /** Exactly when a cell is opened, and with what. */
  lemma OpensIff(env: Env, cells: Cells, bid: string, m: E.Members, deposit: u64, funds: bool)
    ensures var id := CellKey(env.hash, deposit, bid, m);
            var r := DoOpen(env, cells, bid, m, deposit, funds);
            && (r.Ok? <==>
                  && IsHex32(bid) && |m.tenant| > 0 && |m.provider| > 0 && |m.resolver| > 0
                  && !funds && deposit > 0 && id !in cells)
            && (r.Ok? ==>
                  && id in r.value && !r.value[id].closed && r.value[id].accrual.None? && !r.value[id].verified
                  && r.value[id].deposit == deposit && r.value[id].bid == bid && r.value[id].members == m)
  {
    hide CellKey, IsHex32;
  }

  /** Exactly when an accrual is stored, and that it replaces the last one unverified. */
  lemma AccruesIff(cells: Cells, id: string, c: string, o: string, k: string)
    ensures var r := DoAccrue(cells, id, c, o, k);
            && (r.Ok? <==>
                  id in cells && !cells[id].closed && IsHex32(c) && IsHex32(o) && IsHex32(k) && o != k)
            && (r.Ok? ==>
                  && id in r.value && r.value[id].accrual.Some? && !r.value[id].verified && !r.value[id].closed
                  && r.value[id].accrual.value.commitment == c
                  && r.value[id].accrual.value.openHeader == o && r.value[id].accrual.value.closeHeader == k
                  && r.value[id].deposit == cells[id].deposit && r.value[id].members == cells[id].members)
  {
    hide IsHex32, EncodeInstances;
  }

  /** The cell that a message is about. */
  function Subject(env: Env, msg: Msg): string {
    match msg
    case OpenCell(bid, m, deposit, _) => CellKey(env.hash, deposit, bid, m)
    case Accrue(id, _, _, _) => id
    case VerifyAccrual(id, _, _) => id
    case Close(id, _) => id
  }

  /** A message touches no cell but its own, and a refused one none at all; a closing records who closed. */
  lemma StepTouchesOne(env: Env, cells: Cells, msg: Msg, other: string)
    ensures other != Subject(env, msg) ==>
              (other in Step(env, cells, msg) <==> other in cells)
              && (other in cells ==> Step(env, cells, msg)[other] == cells[other])
    ensures Execute(env, cells, msg).Err? ==> Step(env, cells, msg) == cells
    ensures msg.Close? && Execute(env, cells, msg).Ok? ==>
              msg.id in Step(env, cells, msg) && Step(env, cells, msg)[msg.id].closed
              && Step(env, cells, msg)[msg.id].closer == Some(msg.party)
    ensures msg.VerifyAccrual? && Execute(env, cells, msg).Ok? ==>
              msg.id in Step(env, cells, msg) && Step(env, cells, msg)[msg.id].verified
  {
    hide IsHex32, EncodeInstances, H.Decode, CellKey;
  }

  lemma {:induction false} RunLast(env: Env, cells: Cells, msgs: seq<Msg>)
    requires msgs != []
    ensures Run(env, cells, msgs) == Step(env, Run(env, cells, msgs[..|msgs| - 1]), msgs[|msgs| - 1])
    decreases |msgs|
  {
    hide Step;
    if |msgs| > 1 {
      RunLast(env, Step(env, cells, msgs[0]), msgs[1..]);
      assert msgs[1..][..|msgs| - 2] == msgs[..|msgs| - 1][1..];
    }
  }

  /** The message proves these instances of the cell to the verifier. */
  predicate ProvesInstances(env: Env, msg: Msg, id: string, a: AccrualData) {
    && msg.VerifyAccrual? && msg.id == id && msg.zkid == ACCRUAL_ZKID && |msg.proof| >= 64 && !(DSTW <= msg.proof)
    && H.Decode(a.instances).Some?
    && env.verify(ACCRUAL_ZKID, msg.proof, H.Decode(a.instances).value)
  }

  /** A cell is verified after a step only if it was, for the same instances, or the step proved them. */
  lemma StepVerifies(env: Env, cells: Cells, msg: Msg, id: string)
    requires Inv(env, cells) && id in Step(env, cells, msg) && Step(env, cells, msg)[id].verified
    ensures var next := Step(env, cells, msg)[id];
            && next.accrual.Some?
            && (|| (id in cells && cells[id].verified && cells[id].accrual == next.accrual)
                || ProvesInstances(env, msg, id, next.accrual.value))
  {
    hide IsHex32, EncodeInstances, InstanceBytes, H.Decode, CellKey;
    StepKeeps(env, cells, msg);
  }

  /** In every run, a cell that is verified was verified by a message of that run, whose proof the
      verifier accepted for the instances stored now. */
  lemma {:induction false} VerifiedWasProved(env: Env, cells: Cells, msgs: seq<Msg>, id: string) returns (k: nat)
    requires Inv(env, cells) && (id in cells ==> !cells[id].verified)
    requires id in Run(env, cells, msgs) && Run(env, cells, msgs)[id].verified
    ensures Run(env, cells, msgs)[id].accrual.Some?
    ensures k < |msgs| && ProvesInstances(env, msgs[k], id, Run(env, cells, msgs)[id].accrual.value)
    decreases |msgs|
  {
    hide Step, ProvesInstances;
    var n := |msgs| - 1;
    RunLast(env, cells, msgs);
    var before := Run(env, cells, msgs[..n]);
    ContractRunInvariant(env, cells, msgs[..n]);
    StepVerifies(env, before, msgs[n], id);
    if ProvesInstances(env, msgs[n], id, Run(env, cells, msgs)[id].accrual.value) {
      k := n;
    } else {
      k := VerifiedWasProved(env, cells, msgs[..n], id);
    }
  }

  /** The waist checks on the stored instances can never fire: close is refused for exactly an
      unknown, closed or never accrued cell, and verification beyond that only for the proof, the
      circuit or the verifier's own verdict. */
  lemma GateConditions(env: Env, cells: Cells, id: string, party: E.Party, zkid: nat, proof: seq<byte>)
    requires Inv(env, cells)
    ensures DoClose(cells, id, party).Ok? <==> id in cells && !cells[id].closed && cells[id].accrual.Some?
    ensures DoVerify(env, cells, id, zkid, proof).Ok? <==>
            && id in cells && !cells[id].closed && cells[id].accrual.Some?
            && |proof| >= 64 && !(DSTW <= proof) && zkid == ACCRUAL_ZKID
            && var a := cells[id].accrual.value;
               env.verify(zkid, proof, InstanceBytes(a.commitment, a.openHeader, a.closeHeader))
  {
    hide EncodeInstances, InstanceBytes, H.Decode;
    if id in cells && cells[id].accrual.Some? {
      InstancesDecode(cells[id].accrual.value);
    }
  }

  /** The grant of a closed cell never shows what was earned: 0, and the whole deposit as remainder. */
  lemma GrantShowsDeposit(env: Env, cells: Cells, id: string)
    requires Inv(env, cells)
    ensures Grant(cells, id).Ok? <==> id in cells && cells[id].closed
    ensures Grant(cells, id).Ok? ==>
              var g := Grant(cells, id).value;
              && g.earned == 0 && g.remainder == cells[id].deposit && Some(g.closer) == cells[id].closer
              && g.instances == EncodeInstancesOf(g) && g.verified == cells[id].verified
  {
    hide EncodeInstances;
    assert id in cells ==> CellOk(env, cells[id]);
  }

  function EncodeInstancesOf(g: GrantResp): string {
    if IsHex32(g.commitment) && IsHex32(g.openHeader) && IsHex32(g.closeHeader)
    then EncodeInstances(g.commitment, g.openHeader, g.closeHeader) else ""
  }

  /** Instances identify commitments only up to the two cleared bits and the letter case of the hex. */
  lemma InstancesIdentify(c: string, o: string, k: string, c2: string, o2: string, k2: string)
    requires IsHex32(c) && IsHex32(o) && IsHex32(k) && IsHex32(c2) && IsHex32(o2) && IsHex32(k2)
    ensures EncodeInstances(c, o, k) == EncodeInstances(c2, o2, k2) <==>
            && A.PackBytes(DecodeHex32(c)) == A.PackBytes(DecodeHex32(c2))
            && A.PackBytes(DecodeHex32(o)) == A.PackBytes(DecodeHex32(o2))
            && A.PackBytes(DecodeHex32(k)) == A.PackBytes(DecodeHex32(k2))
  {
    hide IsHex32, H.Decode, H.Encode, A.PackBytes, DecodeHex32;
    var b, b2 := InstanceBytes(c, o, k), InstanceBytes(c2, o2, k2);
    H.RoundTrip(b);
    H.RoundTrip(b2);
    if b == b2 {
      assert b[..32] == b2[..32] && b[32..64] == b2[32..64] && b[64..] == b2[64..];
    }
  }

  lemma HexOfDigest(d: Digest)
    ensures IsHex32(H.Encode(d)) && DecodeHex32(H.Encode(d)) == d
  {
    H.RoundTrip(d);
  }

  lemma HexInjective(a: Digest, b: Digest)
    requires H.Encode(a) == H.Encode(b)
    ensures a == b
  {
    H.RoundTrip(a);
    H.RoundTrip(b);
  }

  /** Every cell is filed under the key of its own deposit, bid and members. */
  ghost predicate Filed(env: Env, cells: Cells) {
    forall id :: id in cells ==> id == CellKey(env.hash, cells[id].deposit, cells[id].bid, cells[id].members)
  }

  lemma {:induction false} RunStaysFiled(env: Env, cells: Cells, msgs: seq<Msg>)
    requires Filed(env, cells)
    ensures Filed(env, Run(env, cells, msgs))
    decreases |msgs|
  {
    if msgs != [] {
      StepStaysFiled(env, cells, msgs[0]);
      RunStaysFiled(env, Step(env, cells, msgs[0]), msgs[1..]);
    }
  }

  lemma StepStaysFiled(env: Env, cells: Cells, msg: Msg)
    requires Filed(env, cells)
    ensures Filed(env, Step(env, cells, msg))
  {
    hide IsHex32, EncodeInstances, H.Decode, CellKey;
  }

  /** Equal keys and no collision between their two preimages: the same deposit, bid and members. */
  lemma KeyBindsDeal(hash: seq<byte> -> Digest, deposit: u64, bid: Digest, m: E.Members,
                        deposit2: u64, bid2: string, m2: E.Members)
    requires H.Encode(E.CellId(hash, deposit, bid, m)) == CellKey(hash, deposit2, bid2, m2)
    requires CollisionFreeOn(hash, {E.CellPreimage(deposit, bid, m), KeyPreimage(deposit2, bid2, m2)})
    ensures deposit == deposit2 && H.Decode(bid2) == Some(bid) && m == m2
  {
    HexInjective(E.CellId(hash, deposit, bid, m), hash(KeyPreimage(deposit2, bid2, m2)));
    TagsInDomain();
    var raw := H.Decode(bid2);
    var b2: Slice := if raw.Some? && |raw.value| < U64_SIZE then raw.value else [];
    var p: seq<Slice> := [ToLe(deposit, U64_BYTES), bid, m.tenant, m.provider, m.resolver];
    var q: seq<Slice> := [ToLe(deposit2, U64_BYTES), b2, m2.tenant, m2.provider, m2.resolver];
    hide H.Encode, H.Decode, DomainTag, ToLe;
    PreimageInjective(ESCROW_CELL_TAG, p, ESCROW_CELL_TAG, q);
    assert p[0] == q[0] && p[1] == q[1] && p[2] == q[2] && p[3] == q[3] && p[4] == q[4];
    Pow256Values();
    LeInjective(deposit, deposit2, U64_BYTES);
  }

  /** Whatever the two sides went through: if the in-process cell is closed, and the contract has a
      closed cell under its id with the same closer, commitment and headers, then the contract's
      grant is the in-process public view, field by field. */
  lemma GrantMatchesInProcess(env: Env, cellEnv: E.Env, deposit: u64, bid: Digest, m: E.Members,
                              ops: seq<E.Op>, msgs: seq<Msg>)
    requires E.HashOf(cellEnv) == env.hash && E.Open(cellEnv, deposit, bid, m).Ok?
    requires var c := E.RunCell(cellEnv, E.Opened(cellEnv, deposit, bid, m), ops);
             var cells := Run(env, map[], msgs);
             var id := H.Encode(c.cellId);
             && c.closed.Some? && c.accrual.Some?
             && id in cells && cells[id].closed && cells[id].closer == Some(c.closed.value.closer)
             && cells[id].accrual.Some?
             && cells[id].accrual.value.commitment == H.Encode(c.accrual.value.commitment)
             && cells[id].accrual.value.openHeader == H.Encode(c.accrual.value.openHeader)
             && cells[id].accrual.value.closeHeader == H.Encode(c.accrual.value.closeHeader)
             && CollisionFreeOn(env.hash, {E.CellPreimage(deposit, bid, m),
                                           KeyPreimage(cells[id].deposit, cells[id].bid, cells[id].members)})
    ensures var c := E.RunCell(cellEnv, E.Opened(cellEnv, deposit, bid, m), ops);
            var cells := Run(env, map[], msgs);
            var id := H.Encode(c.cellId);
            && c.grant.Some? && Grant(cells, id).Ok?
            && var g := Grant(cells, id).value;
               E.ViewOf(c.grant.value)
               == E.GrantView(g.cellId, g.closer, g.earned, g.remainder, g.recorded,
                              g.commitment, g.openHeader, g.closeHeader)
  {
    hide E.Step, Run, H.Encode, CellKey, KeyPreimage, E.CellPreimage, CollisionFreeOn, E.RunCell;
    var c0 := E.Opened(cellEnv, deposit, bid, m);
    E.CellRunInvariant(cellEnv, c0, ops);
    ContractRunInvariant(env, map[], msgs);
    RunStaysFiled(env, map[], msgs);
    var cells := Run(env, map[], msgs);
    var cell := cells[H.Encode(c0.cellId)];
    KeyBindsDeal(env.hash, deposit, bid, m, cell.deposit, cell.bid, cell.members);
  }

  /** Such runs exist: the same deal opened, accrued and closed once on both sides. */
  lemma SameDealOnBothSides(env: Env, cellEnv: E.Env, deposit: u64, bid: Digest, m: E.Members,
                              w: A.Witness, p: A.Public, party: E.Party, lease: L.Leases, leaseId: L.Id)
    requires E.HashOf(cellEnv) == env.hash
    requires E.Open(cellEnv, deposit, bid, m).Ok?
    requires E.AccrueFromWitness(cellEnv, E.Open(cellEnv, deposit, bid, m).value, w, p).Ok?
    requires leaseId in lease.leases
    ensures var c0 := E.Open(cellEnv, deposit, bid, m).value;
            var c1 := E.AccrueFromWitness(cellEnv, c0, w, p).value;
            var id := H.Encode(c0.cellId);
            var cells := Run(env, map[],
              [OpenCell(H.Encode(bid), m, deposit, false),
               Accrue(id, H.Encode(p.commitment), H.Encode(p.openHeader), H.Encode(p.closeHeader)),
               Close(id, party)]);
            && c1.earned <= c1.deposit
            && E.Close(c1, party, lease, leaseId, None).Ok?
            && Grant(cells, id).Ok?
            && var g := Grant(cells, id).value;
               E.ViewOf(E.Close(c1, party, lease, leaseId, None).value.0.grant.value)
               == E.GrantView(g.cellId, g.closer, g.earned, g.remainder, g.recorded,
                              g.commitment, g.openHeader, g.closeHeader)
  {
    A.VerifyWitnessIff(cellEnv.accrual, w, p);
    var id := H.Encode(E.CellId(env.hash, deposit, bid, m));
    ContractSide(env, deposit, bid, m, p, party);
    InProcessSide(cellEnv, deposit, bid, m, w, p, party, lease, leaseId);
    hide A.VerifyWitness, Run, H.Encode, E.CellId, EncodeInstances;
  }

  /** The contract after the three messages holds exactly one closed cell. */
  lemma ContractSide(env: Env, deposit: u64, bid: Digest, m: E.Members, p: A.Public, party: E.Party)
    requires deposit > 0 && m.tenant != [] && m.provider != [] && m.resolver != []
    requires p.openHeader != p.closeHeader
    ensures var id := H.Encode(E.CellId(env.hash, deposit, bid, m));
            var c, o, k := H.Encode(p.commitment), H.Encode(p.openHeader), H.Encode(p.closeHeader);
            && IsHex32(c) && IsHex32(o) && IsHex32(k)
            && Run(env, map[], [OpenCell(H.Encode(bid), m, deposit, false), Accrue(id, c, o, k), Close(id, party)])
               == map[id := Cell(deposit, H.Encode(bid), m, true, Some(party), Some(deposit),
                                 Some(AccrualData(c, o, k, EncodeInstances(c, o, k))), false)]
  {
    var id := H.Encode(E.CellId(env.hash, deposit, bid, m));
    var c, o, k := H.Encode(p.commitment), H.Encode(p.openHeader), H.Encode(p.closeHeader);
    HexOfDigest(bid);
    HexOfDigest(p.commitment);
    HexOfDigest(p.openHeader);
    HexOfDigest(p.closeHeader);
    if o == k { HexInjective(p.openHeader, p.closeHeader); }
    assert CellKey(env.hash, deposit, H.Encode(bid), m) == id by { H.RoundTrip(bid); }
    hide IsHex32, EncodeInstances, H.Encode, H.Decode, CellKey, E.CellId, Run;
    var m0, m1, m2 := OpenCell(H.Encode(bid), m, deposit, false), Accrue(id, c, o, k), Close(id, party);
    assert Step(env, map[], m0) == map[id := Cell(deposit, H.Encode(bid), m, false, None, None, None, false)];
    ThenAccruedAndClosed(env, id, Cell(deposit, H.Encode(bid), m, false, None, None, None, false), c, o, k, party);
    RunThree(env, map[], m0, m1, m2);
  }

  lemma ThenAccruedAndClosed(env: Env, id: string, cell: Cell, c: string, o: string, k: string, party: E.Party)
    requires IsHex32(c) && IsHex32(o) && IsHex32(k) && o != k
    requires cell == Cell(cell.deposit, cell.bid, cell.members, false, None, None, None, false)
    ensures var accrued := Step(env, map[id := cell], Accrue(id, c, o, k));
            Step(env, accrued, Close(id, party))
            == map[id := cell.(accrual := Some(AccrualData(c, o, k, EncodeInstances(c, o, k))), closed := true,
                               closer := Some(party), remainder := Some(cell.deposit))]
  {
    var a := AccrualData(c, o, k, EncodeInstances(c, o, k));
    InstancesDecode(a);
    hide IsHex32, EncodeInstances, H.Decode;
    assert Step(env, map[id := cell], Accrue(id, c, o, k)) == map[id := cell.(accrual := Some(a))];
  }

  lemma InProcessSide(env: E.Env, deposit: u64, bid: Digest, m: E.Members, w: A.Witness, p: A.Public,
                      party: E.Party, lease: L.Leases, leaseId: L.Id)
    requires E.Open(env, deposit, bid, m).Ok?
    requires E.AccrueFromWitness(env, E.Open(env, deposit, bid, m).value, w, p).Ok?
    requires leaseId in lease.leases
    ensures var c1 := E.AccrueFromWitness(env, E.Open(env, deposit, bid, m).value, w, p).value;
            && c1.earned <= c1.deposit
            && E.Close(c1, party, lease, leaseId, None).Ok?
            && E.ViewOf(E.Close(c1, party, lease, leaseId, None).value.0.grant.value)
               == E.GrantView(H.Encode(E.CellId(E.HashOf(env), deposit, bid, m)), party, 0, deposit, true,
                              H.Encode(p.commitment), H.Encode(p.openHeader), H.Encode(p.closeHeader))
  {
    hide A.VerifyWitness, H.Encode, E.CellId;
  }

  lemma RunThree(env: Env, cells: Cells, m0: Msg, m1: Msg, m2: Msg)
    ensures Run(env, cells, [m0, m1, m2]) == Step(env, Step(env, Step(env, cells, m0), m1), m2)
  {
    hide Step;
    var s1 := Step(env, cells, m0);
    var s2 := Step(env, s1, m1);
    assert [m2][1..] == [] && Run(env, s2, [m2]) == Step(env, s2, m2);
    assert [m1, m2][1..] == [m2] && Run(env, s1, [m1, m2]) == Run(env, s2, [m2]);
    assert [m0, m1, m2][1..] == [m1, m2];
  }
}
