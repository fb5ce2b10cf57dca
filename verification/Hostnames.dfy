/** The hostname service: a shared store of names, reserved, transferred and released per deployment. */
module Hostnames {
  import opened Wrappers

  type Name = string

  datatype HostId = HostId(owner: string, dseq: nat, gseq: nat)

  type Store = map<Name, HostId>

  datatype Reply = Refused(name: Name) | Blocked(blockedName: Name) | Reserved(withheld: seq<Name>)

  /** How the service spells names, and which it will not serve. */
  datatype Service = Service(lower: Name -> Name, blocked: Name -> bool)

  function NamesOf(names: seq<Name>): set<Name> {
    set n | n in names
  }

  /** A name someone else's account holds. */
  predicate Conflict(store: Store, n: Name, owner: string) {
    n in store && store[n].owner != owner
  }

  predicate CanReserve(store: Store, names: seq<Name>, owner: string) {
    forall i :: 0 <= i < |names| ==> !Conflict(store, names[i], owner)
  }

  /** Held by another deployment: it will not be taken over, only reported. */
  predicate HeldElsewhere(store: Store, n: Name, id: HostId) {
    n in store && store[n] != id
  }

  function Withheld(store: Store, names: seq<Name>, id: HostId): seq<Name> {
    if names == [] then []
    else
      var n := |names| - 1;
      Withheld(store, names[..n], id) + (if HeldElsewhere(store, names[n], id) then [names[n]] else [])
  }

  ghost function HeldBy(store: Store, id: HostId): set<Name> {
    set n | n in store && store[n] == id
  }

  /** After a successful reservation: dropped names of this id are gone, requested ones that are
      not held elsewhere belong to it, and everything else is as before. */
  function ReservedStore(store: Store, names: seq<Name>, id: HostId): Store {
    map n | n in store.Keys + NamesOf(names) && !(n in store && n !in names && store[n] == id)
          :: if n in names && !HeldElsewhere(store, n, id) then id else store[n]
  }

  function PreparedStore(store: Store, names: seq<Name>, id: HostId): Store {
    map n | n in store :: if n in names then id else store[n]
  }

  function ReleasedStore(store: Store, id: HostId): Store {
    map n | n in store && store[n] != id :: store[n]
  }

  /** Reserving and asking whether one may reserve lower-case the names; preparing a transfer does not. */
  function Lowered(svc: Service, names: seq<Name>): (low: seq<Name>)
    ensures |low| == |names| && forall i :: 0 <= i < |low| ==> low[i] == svc.lower(names[i])
  {
    if names == [] then [] else Lowered(svc, names[..|names| - 1]) + [svc.lower(names[|names| - 1])]
  }

  predicate NoneBlocked(svc: Service, names: seq<Name>) {
    forall i :: 0 <= i < |names| ==> !svc.blocked(names[i])
  }

  predicate Admits(svc: Service, store: Store, names: seq<Name>, owner: string) {
    NoneBlocked(svc, Lowered(svc, names)) && CanReserve(store, Lowered(svc, names), owner)
  }

  class HostnameService {
    const svc: Service
    var inUse: Store

    constructor (svc: Service, initial: Store)
      ensures this.svc == svc && inUse == initial
    {
      this.svc := svc;
      inUse := initial;
    }

    method LowerNames(names: seq<Name>) returns (low: seq<Name>, blocked: Option<Name>)
      ensures low == Lowered(svc, names)
      ensures blocked.None? <==> NoneBlocked(svc, low)
      ensures blocked.Some? ==> blocked.value in low && svc.blocked(blocked.value)
    {
      low := [];
      for i := 0 to |names|
        invariant low == Lowered(svc, names[..i])
      {
        assert names[..i + 1][..i] == names[..i];
        low := low + [svc.lower(names[i])];
      }
      assert names[..|names|] == names;
      for i := 0 to |low|
        invariant NoneBlocked(svc, low[..i])
      {
        if svc.blocked(low[i]) {
          return low, Some(low[i]);
        }
      }
      blocked := None;
    }

    /** The service's reservation: of the lower-cased names, none of them blocked. */
    method ReserveHostnames(names: seq<Name>, id: HostId) returns (r: Reply)
      modifies this
      ensures r.Reserved? <==> Admits(svc, old(inUse), names, id.owner)
      ensures r.Reserved? ==>
                && r.withheld == Withheld(old(inUse), Lowered(svc, names), id)
                && inUse == ReservedStore(old(inUse), Lowered(svc, names), id)
      ensures !r.Reserved? ==> inUse == old(inUse)
    {
      var low, blocked := LowerNames(names);
      if blocked.Some? {
        return Blocked(blocked.value);
      }
      r := Reserve(low, id);
    }

    /** The question is answered exactly as the reservation would be. */
    method CanReserveHostnames(names: seq<Name>, owner: string) returns (ok: bool)
      ensures ok <==> Admits(svc, inUse, names, owner)
    {
      var low, blocked := LowerNames(names);
      if blocked.Some? {
        return false;
      }
      var conflict := CanReserveNames(low, owner);
      ok := conflict.None?;
    }

    /** All or nothing: refused without any change exactly when the can-reserve check would refuse. */
    method Reserve(names: seq<Name>, id: HostId) returns (r: Reply)
      modifies this
      ensures r.Reserved? <==> CanReserve(old(inUse), names, id.owner)
      ensures !r.Blocked?
      ensures r.Reserved? ==> r.withheld == Withheld(old(inUse), names, id)
      ensures r.Reserved? ==> inUse == ReservedStore(old(inUse), names, id)
      ensures r.Refused? ==> inUse == old(inUse) && r.name in names && Conflict(inUse, r.name, id.owner)
    {
      var conflict, withheld, withheldSet, requested := CheckNames(names, id);
      if conflict.Some? {
        return Refused(conflict.value);
      }
      var stale := StaleNames(requested, id);
      AssignNames(names, withheldSet, id);
      Delete(stale);
      ghost var before := old(inUse);
      assert inUse == ReservedStore(before, names, id);
      r := Reserved(withheld);
    }

    /** The first pass: look for another account's name, and note what other deployments hold. */
    method CheckNames(names: seq<Name>, id: HostId)
      returns (conflict: Option<Name>, withheld: seq<Name>, withheldSet: set<Name>, requested: set<Name>)
      ensures conflict.None? <==> CanReserve(inUse, names, id.owner)
      ensures conflict.Some? ==> conflict.value in names && Conflict(inUse, conflict.value, id.owner)
      ensures conflict.None? ==>
                && withheld == Withheld(inUse, names, id)
                && (forall n :: n in requested <==> n in names)
                && (forall n :: n in withheldSet <==> n in names && HeldElsewhere(inUse, n, id))
    {
      withheldSet, withheld, requested := {}, [], {};
      for i := 0 to |names|
        invariant CanReserve(inUse, names[..i], id.owner)
        invariant withheld == Withheld(inUse, names[..i], id)
        invariant forall n :: n in requested <==> n in names[..i]
        invariant forall n :: n in withheldSet <==> n in names[..i] && HeldElsewhere(inUse, n, id)
      {
        var h := names[i];
        assert names[..i + 1][..i] == names[..i] && names[..i + 1] == names[..i] + [h];
        requested := requested + {h};
        if h in inUse {
          if inUse[h].owner != id.owner {
            return Some(h), withheld, withheldSet, requested;
          }
          if inUse[h] != id {
            withheld := withheld + [h];
            withheldSet := withheldSet + {h};
          }
        }
      }
      assert names[..|names|] == names;
      conflict := None;
    }

    method AssignNames(names: seq<Name>, withheldSet: set<Name>, id: HostId)
      requires forall n :: n in withheldSet <==> n in names && HeldElsewhere(inUse, n, id)
      modifies this
      ensures inUse == Assigned(old(inUse), names, id)
    {
      for i := 0 to |names|
        invariant inUse == Assigned(old(inUse), names[..i], id)
      {
        assert names[..i + 1] == names[..i] + [names[i]];
        if names[i] !in withheldSet {
          inUse := inUse[names[i] := id];
        }
      }
      assert names[..|names|] == names;
    }

    /** Names this id holds that the new request no longer mentions. */
    method StaleNames(requested: set<Name>, id: HostId) returns (stale: set<Name>)
      ensures stale == set n | n in inUse && n !in requested && inUse[n] == id
    {
      stale := {};
      var todo := inUse.Keys;
      while todo != {}
        invariant todo <= inUse.Keys
        invariant stale == set n | n in inUse && n !in todo && n !in requested && inUse[n] == id
        decreases todo
      {
        var n :| n in todo;
        todo := todo - {n};
        if n !in requested && inUse[n] == id {
          stale := stale + {n};
        }
      }
    }

    method Delete(names: set<Name>)
      modifies this
      ensures inUse == old(inUse) - names
    {
      var todo := names;
      while todo != {}
        invariant todo <= names
        invariant inUse == old(inUse) - (names - todo)
        decreases todo
      {
        var n :| n in todo;
        todo := todo - {n};
        inUse := inUse - {n};
      }
    }

    method Prepare(names: seq<Name>, id: HostId) returns (r: Option<Name>)
      modifies this
      ensures r.None? <==> CanReserve(old(inUse), names, id.owner)
      ensures inUse == if r.None? then PreparedStore(old(inUse), names, id) else old(inUse)
    {
      var toChange: seq<Name> := [];
      for i := 0 to |names|
        invariant inUse == old(inUse)
        invariant CanReserve(inUse, names[..i], id.owner)
        invariant forall n :: n in toChange <==> n in names[..i] && n in inUse
      {
        assert names[..i + 1] == names[..i] + [names[i]];
        if names[i] in inUse {
          if inUse[names[i]].owner == id.owner {
            toChange := toChange + [names[i]];
          } else {
            return Some(names[i]);
          }
        }
      }
      assert names[..|names|] == names;
      for i := 0 to |toChange|
        invariant inUse == map n | n in old(inUse) :: if n in toChange[..i] then id else old(inUse)[n]
      {
        assert toChange[i] in toChange && toChange[..i + 1] == toChange[..i] + [toChange[i]];
        inUse := inUse[toChange[i] := id];
      }
      assert toChange[..|toChange|] == toChange;
      r := None;
    }

    method CanReserveNames(names: seq<Name>, owner: string) returns (r: Option<Name>)
      ensures r.None? <==> CanReserve(inUse, names, owner)
    {
      for i := 0 to |names|
        invariant CanReserve(inUse, names[..i], owner)
      {
        if names[i] in inUse {
          if inUse[names[i]].owner != owner {
            return Some(names[i]);
          }
        }
      }
      assert names[..|names|] == names;
      r := None;
    }

    method Release(id: HostId)
      modifies this
      ensures inUse == ReleasedStore(old(inUse), id)
    {
      var mine := StaleNames({}, id);
      Delete(mine);
    }
  }

  /** The store while requested names are being written. */
  function Assigned(store: Store, names: seq<Name>, id: HostId): Store {
    map n | n in store.Keys + NamesOf(names) :: if n in names && !HeldElsewhere(store, n, id) then id else store[n]
  }

  // ---- What the operations guarantee ----

  lemma {:induction false} WithheldNames(store: Store, names: seq<Name>, id: HostId)
    ensures forall n :: n in Withheld(store, names, id) <==> n in names && HeldElsewhere(store, n, id)
  {
    if names != [] {
      var k := |names| - 1;
      WithheldNames(store, names[..k], id);
      assert names == names[..k] + [names[k]];
    }
  }

  /** The id ends up holding exactly what it asked for less what was withheld, and every other
      deployment holds exactly what it held. */
  lemma ReserveHoldsRequested(store: Store, names: seq<Name>, id: HostId, other: HostId)
    requires CanReserve(store, names, id.owner)
    ensures HeldBy(ReservedStore(store, names, id), id) == NamesOf(names) - NamesOf(Withheld(store, names, id))
    ensures other != id ==> HeldBy(ReservedStore(store, names, id), other) == HeldBy(store, other)
  {
    WithheldNames(store, names, id);
  }

  lemma NonemptyHasMember(s: seq<Name>)
    ensures s != [] ==> exists n :: n in s
  {
    if s != [] { assert s[0] in s; }
  }

  /** Preparing names first leaves nothing withheld exactly when every name that the reservation will
      lower-case to, and that another deployment holds, was prepared in that spelling. */
  lemma NothingWithheldIff(svc: Service, store: Store, prepared: seq<Name>, names: seq<Name>, id: HostId)
    ensures Withheld(PreparedStore(store, prepared, id), Lowered(svc, names), id) == [] <==>
            forall i :: 0 <= i < |names| && HeldElsewhere(store, svc.lower(names[i]), id) ==>
              svc.lower(names[i]) in prepared
  {
    var store2, low := PreparedStore(store, prepared, id), Lowered(svc, names);
    WithheldNames(store2, low, id);
    var w := Withheld(store2, low, id);
    NonemptyHasMember(w);
    if forall i :: 0 <= i < |names| && HeldElsewhere(store, svc.lower(names[i]), id) ==>
         svc.lower(names[i]) in prepared
    {
      forall n | n in low ensures !HeldElsewhere(store2, n, id) {
        var i :| 0 <= i < |low| && low[i] == n;
        assert n == svc.lower(names[i]);
      }
    } else {
      var i :| 0 <= i < |names| && HeldElsewhere(store, svc.lower(names[i]), id) && svc.lower(names[i]) !in prepared;
      assert low[i] in low && HeldElsewhere(store2, low[i], id);
    }
  }

  /** Preparing the same names that are reserved next: with lower-case names the reservation is
      complete, for every store that lets them be prepared. */
  lemma PreparedReservationIsComplete(svc: Service, store: Store, names: seq<Name>, id: HostId)
    requires CanReserve(store, names, id.owner)
    requires forall i :: 0 <= i < |names| ==> svc.lower(names[i]) == names[i]
    ensures CanReserve(PreparedStore(store, names, id), Lowered(svc, names), id.owner)
    ensures Withheld(PreparedStore(store, names, id), Lowered(svc, names), id) == []
    ensures HeldBy(ReservedStore(PreparedStore(store, names, id), Lowered(svc, names), id), id) == NamesOf(names)
  {
    var prepared := PreparedStore(store, names, id);
    assert Lowered(svc, names) == names;
    NothingWithheldIff(svc, store, names, names, id);
    ReserveHoldsRequested(prepared, names, id, id);
  }

  /** Otherwise it need not be: a capital letter, and the transfer that was prepared is withheld. */
  lemma CapitalLetterIsWithheld(svc: Service, owner: string)
    requires svc.lower("App.example.com") == "app.example.com"
    ensures var store := map["app.example.com" := HostId(owner, 1, 1)];
            var names, id := ["App.example.com"], HostId(owner, 2, 1);
            && CanReserve(store, names, owner)
            && PreparedStore(store, names, id) == store
            && CanReserve(store, Lowered(svc, names), owner)
            && Withheld(store, Lowered(svc, names), id) == ["app.example.com"]
  {
    var store := map["app.example.com" := HostId(owner, 1, 1)];
    var names, id := ["App.example.com"], HostId(owner, 2, 1);
    assert "App.example.com"[0] != "app.example.com"[0];
    var low := Lowered(svc, names);
    assert low == ["app.example.com"] && low[..0] == [];
    assert Withheld(store, [], id) == [];
    assert PreparedStore(store, names, id) == store;
  }

  /** Releasing frees exactly the names of one deployment. */
  lemma ReleaseFreesExactly(store: Store, id: HostId, other: HostId)
    ensures HeldBy(ReleasedStore(store, id), id) == {}
    ensures other != id ==> HeldBy(ReleasedStore(store, id), other) == HeldBy(store, other)
  {
  }

  // ---- Every run of the service ----

  datatype Op =
    | OpReserve(names: seq<Name>, id: HostId)
    | OpPrepare(names: seq<Name>, id: HostId)
    | OpRelease(id: HostId)

  function Step(svc: Service, store: Store, op: Op): Store {
    match op
    case OpReserve(names, id) =>
      if Admits(svc, store, names, id.owner) then ReservedStore(store, Lowered(svc, names), id) else store
    case OpPrepare(names, id) => if CanReserve(store, names, id.owner) then PreparedStore(store, names, id) else store
    case OpRelease(id) => ReleasedStore(store, id)
  }

  function Run(svc: Service, store: Store, ops: seq<Op>): Store {
    if ops == [] then store else Step(svc, Run(svc, store, ops[..|ops| - 1]), ops[|ops| - 1])
  }

  lemma StepKeepsOwner(svc: Service, store: Store, op: Op, n: Name)
    requires n in store && n in Step(svc, store, op)
    ensures Step(svc, store, op)[n].owner == store[n].owner
  {
    if op.OpReserve? || op.OpPrepare? {
      var names := if op.OpReserve? then Lowered(svc, op.names) else op.names;
      if n in names && CanReserve(store, names, op.id.owner) {
        var i :| 0 <= i < |names| && names[i] == n;
        assert !Conflict(store, names[i], op.id.owner);
      }
    }
  }

  /** Over every run, a name held all along stays with one account: to change hands it must first
      have been free. */
  lemma {:induction false} HeldNameKeepsOwner(svc: Service, store: Store, ops: seq<Op>, n: Name)
    requires forall k :: 0 <= k <= |ops| ==> n in Run(svc, store, ops[..k])
    ensures n in store && n in Run(svc, store, ops) && Run(svc, store, ops)[n].owner == store[n].owner
  {
    assert ops[..|ops|] == ops && n in Run(svc, store, ops[..|ops|]);
    assert ops[..0] == [] && n in Run(svc, store, ops[..0]);
    if ops != [] {
      var k := |ops| - 1;
      assert forall j :: 0 <= j <= k ==> ops[..k][..j] == ops[..j];
      HeldNameKeepsOwner(svc, store, ops[..k], n);
      StepKeepsOwner(svc, Run(svc, store, ops[..k]), ops[k], n);
    }
  }

  /** Over every run that starts with lower-case names, held names are lower-case and not blocked
      unless they were held from the start; so a prepared name with a capital letter moves nothing. */
  lemma {:induction false} HeldNamesAreLowerCase(svc: Service, store: Store, ops: seq<Op>, n: Name)
    requires forall m :: svc.lower(svc.lower(m)) == svc.lower(m)
    requires forall m :: m in store ==> svc.lower(m) == m
    requires n in Run(svc, store, ops)
    ensures svc.lower(n) == n && (n !in store ==> !svc.blocked(n))
  {
    if ops != [] {
      var k := |ops| - 1;
      var before := Run(svc, store, ops[..k]);
      if n in before {
        HeldNamesAreLowerCase(svc, store, ops[..k], n);
      } else {
        var low := Lowered(svc, ops[k].names);
        var i :| 0 <= i < |low| && low[i] == n;
        assert n == svc.lower(ops[k].names[i]) && !svc.blocked(low[i]);
      }
    }
  }
}
