/** The provider's lease engine: winning bearers, sessions and the kill switch. */
module LeaseBook {
  import opened Wrappers
  import opened Bytes

  type Id = seq<byte>

  datatype LeaseError = UnknownLease | Closed | Unauthorized

  datatype Lease = Lease(bearer: Id, isOpen: bool)

  /** No bearer means that the session was stopped. */
  datatype Session = Session(note: Digest, bearer: Option<Id>)

  datatype Leases = Leases(leases: map<Id, Lease>, sessions: map<Id, Session>)

  function AcceptBid(b: Leases, id: Id, bearer: Id): Leases {
    b.(leases := b.leases[id := Lease(bearer, true)])
  }

  function AccessSession(b: Leases, id: Id, bearer: Id): Result<(), LeaseError> {
    if id !in b.sessions then Err(UnknownLease)
    else
      match b.sessions[id].bearer
      case None => Err(Closed)
      case Some(want) => if want == bearer then Ok(()) else Err(Unauthorized)
  }

  function Access(b: Leases, id: Id, bearer: Id): Result<(), LeaseError> {
    if id in b.leases && !b.leases[id].isOpen then Err(Closed)
    else if id in b.leases && b.leases[id].bearer == bearer then Ok(())
    else AccessSession(b, id, bearer)
  }

  function StopBearer(sessions: map<Id, Session>, id: Id): map<Id, Session> {
    if id in sessions then sessions[id := sessions[id].(bearer := None)] else sessions
  }

  function Close(b: Leases, id: Id): Result<Leases, LeaseError> {
    if id !in b.leases then Err(UnknownLease)
    else Ok(Leases(b.leases[id := b.leases[id].(isOpen := false)], StopBearer(b.sessions, id)))
  }

  function OpenSession(b: Leases, id: Id, note: Digest, bearer: Id): Result<Leases, LeaseError> {
    if id in b.sessions && b.sessions[id].note != note then Err(Unauthorized)
    else Ok(b.(sessions := b.sessions[id := Session(note, Some(bearer))]))
  }

  function RotateSession(b: Leases, id: Id, bearer: Id): Result<Leases, LeaseError> {
    if id !in b.sessions then Err(UnknownLease)
    else Ok(b.(sessions := b.sessions[id := b.sessions[id].(bearer := Some(bearer))]))
  }

  function StopSession(b: Leases, id: Id): Result<Leases, LeaseError> {
    if id !in b.sessions then Err(UnknownLease) else Ok(b.(sessions := StopBearer(b.sessions, id)))
  }

  class Book {
    var leases: map<Id, Lease>
    var sessions: map<Id, Session>

    constructor ()
      ensures View() == Leases(map[], map[])
    {
      leases, sessions := map[], map[];
    }

    function View(): Leases
      reads this
    {
      Leases(leases, sessions)
    }

    method Accept(id: Id, bearer: Id)
      modifies this
      ensures View() == AcceptBid(old(View()), id, bearer)
    {
      leases := leases[id := Lease(bearer, true)];
    }

    /** Close the lease and drop the session bearer. */
    method CloseLease(id: Id) returns (r: Result<(), LeaseError>)
      modifies this
      ensures r.Ok? <==> Close(old(View()), id).Ok?
      ensures r.Err? ==> r.error == UnknownLease
      ensures View() == if r.Ok? then Close(old(View()), id).value else old(View())
    {
      if id !in leases {
        return Err(UnknownLease);
      }
      leases := leases[id := leases[id].(isOpen := false)];
      if id in sessions {
        sessions := sessions[id := sessions[id].(bearer := None)];
      }
      r := Ok(());
    }

    method Rotate(id: Id, bearer: Id) returns (r: Result<Digest, LeaseError>)
      modifies this
      ensures r.Ok? <==> RotateSession(old(View()), id, bearer).Ok?
      ensures r.Ok? ==> View() == RotateSession(old(View()), id, bearer).value
      ensures r.Ok? ==> id in old(sessions) && r.value == old(sessions)[id].note
      ensures r.Err? ==> View() == old(View())
    {
      if id !in sessions {
        return Err(UnknownLease);
      }
      sessions := sessions[id := sessions[id].(bearer := Some(bearer))];
      r := Ok(sessions[id].note);
    }
  }

  /** Who gets in: the winning bearer of an open lease, or the current session bearer of a lease
      that is not closed. */
  lemma AccessIff(b: Leases, id: Id, bearer: Id)
    ensures Access(b, id, bearer).Ok? <==>
            && !(id in b.leases && !b.leases[id].isOpen)
            && (|| (id in b.leases && b.leases[id].bearer == bearer)
                || (id in b.sessions && b.sessions[id].bearer == Some(bearer)))
  {
  }

  /** Accepting a bid lets its bearer in at once, whatever happened to the lease before, and nobody
      else but a current session bearer; no other lease is touched. */
  lemma AcceptAdmits(b: Leases, id: Id, winner: Id, other: Id, bearer: Id)
    ensures Access(AcceptBid(b, id, winner), id, bearer).Ok? <==>
            bearer == winner || (id in b.sessions && b.sessions[id].bearer == Some(bearer))
    ensures other != id ==> Access(AcceptBid(b, id, winner), other, bearer) == Access(b, other, bearer)
    ensures Close(b, id).Ok? ==>
              (Access(AcceptBid(Close(b, id).value, id, winner), id, bearer).Ok? <==> bearer == winner)
  {
    AccessIff(AcceptBid(b, id, winner), id, bearer);
    if Close(b, id).Ok? {
      AccessIff(AcceptBid(Close(b, id).value, id, winner), id, bearer);
    }
  }

  /** What sessions do to access: opening and rotating let exactly the new bearer in by session, stopping
      lets nobody; the lease bearer is not affected, nor is any other lease. */
  lemma SessionAccessIff(b: Leases, id: Id, note: Digest, next: Id, other: Id)
    ensures OpenSession(b, id, note, next).Ok? <==> (id in b.sessions ==> b.sessions[id].note == note)
    ensures RotateSession(b, id, next).Ok? <==> id in b.sessions
    ensures StopSession(b, id).Ok? <==> id in b.sessions
    ensures OpenSession(b, id, note, next).Ok? ==>
              AdmitsBySession(b, OpenSession(b, id, note, next).value, id, {next}, other)
    ensures RotateSession(b, id, next).Ok? ==>
              AdmitsBySession(b, RotateSession(b, id, next).value, id, {next}, other)
    ensures StopSession(b, id).Ok? ==> AdmitsBySession(b, StopSession(b, id).value, id, {}, other)
  {
  }

  /** In `c`, reached from `b`, exactly these bearers have the session, and nothing else changed. */
  ghost predicate AdmitsBySession(b: Leases, c: Leases, id: Id, bearers: set<Id>, other: Id) {
    && (forall x :: AccessSession(c, id, x).Ok? <==> x in bearers)
    && c.leases == b.leases
    && (other != id ==> forall x :: AccessSession(c, other, x) == AccessSession(b, other, x))
  }

  datatype Op =
    | OpAccept(id: Id, bearer: Id)
    | OpClose(id: Id)
    | OpOpen(id: Id, note: Digest, bearer: Id)
    | OpRotate(id: Id, bearer: Id)
    | OpStop(id: Id)

  function OrElse(r: Result<Leases, LeaseError>, b: Leases): Leases {
    if r.Ok? then r.value else b
  }

  function Step(b: Leases, op: Op): Leases {
    match op
    case OpAccept(id, bearer) => AcceptBid(b, id, bearer)
    case OpClose(id) => OrElse(Close(b, id), b)
    case OpOpen(id, note, bearer) => OrElse(OpenSession(b, id, note, bearer), b)
    case OpRotate(id, bearer) => OrElse(RotateSession(b, id, bearer), b)
    case OpStop(id) => OrElse(StopSession(b, id), b)
  }

  function Run(b: Leases, ops: seq<Op>): Leases
    decreases |ops|
  {
    if ops == [] then b else Run(Step(b, ops[0]), ops[1..])
  }

  /** A closed lease admits nobody, whatever is done to its sessions, until a new bid is accepted. */
  lemma {:induction false} ClosedLeaseStaysShut(b: Leases, id: Id, ops: seq<Op>, bearer: Id)
    requires id in b.leases && !b.leases[id].isOpen
    requires forall i :: 0 <= i < |ops| ==> !(ops[i].OpAccept? && ops[i].id == id)
    ensures Access(Run(b, ops), id, bearer) == Err(Closed)
    decreases |ops|
  {
    if ops != [] {
      assert id in Step(b, ops[0]).leases && !Step(b, ops[0]).leases[id].isOpen;
      ClosedLeaseStaysShut(Step(b, ops[0]), id, ops[1..], bearer);
    }
  }

  /** The payment note of a session can never be swapped or lost. */
  lemma {:induction false} SessionNoteNeverChanges(b: Leases, id: Id, ops: seq<Op>)
    requires id in b.sessions
    ensures id in Run(b, ops).sessions && Run(b, ops).sessions[id].note == b.sessions[id].note
    decreases |ops|
  {
    if ops != [] {
      SessionNoteNeverChanges(Step(b, ops[0]), id, ops[1..]);
    }
  }
}
