/** The inventory service: reservations, the external-port account, and leased-IP admission. */
module Inventory {
  import opened Wrappers
  import opened Bytes

  type Order = nat

  type u32 = x: int | 0 <= x < 0x1_0000_0000

  datatype Kind = SharedHttp | RandomPort | LeasedIp

  datatype Endpoint = Endpoint(kind: Kind, seqNo: u32)

  /** Per resource unit, the endpoints it exposes. */
  type Units = seq<seq<Endpoint>>

  datatype Reservation =
    Reservation(order: Order, name: string, units: Units, ips: u64, deployed: bool, ipsConfirmed: bool)

  datatype Usage = Usage(total: u64, inUse: u64)

  datatype Request = Request(order: Order, name: string, units: Units)

  datatype Reply = Granted | NoLeasedIps | InsufficientIps | InsufficientCapacity | Crashed

  /** What a usage check asks the IP operator to confirm. */
  datatype ConfirmItem = ConfirmItem(order: Order, expected: u64)

  datatype Life = Running | Stopped | Panicked

  /** `accepting` and `checking` are the nil-able reserve and usage-check channels, `timer` the armed
      check timer, `inventory` whether a cluster inventory has arrived. */
  datatype State = State(
    hasIpClient: bool, reservations: seq<Reservation>, ports: u64, usage: Usage, inventory: bool,
    accepting: bool, checking: Option<seq<ConfirmItem>>, timer: bool, life: Life)

  datatype Config = Config(hasIpClient: bool, portQuantity: u64, existing: seq<Request>)

  /** `fits` is the inventory's verdict; a check's answer is absent when the operator could not be reached. */
  datatype Event =
    | Deployment(order: Order, name: string, deployed: bool)
    | Reserve(request: Request, fits: bool)
    | Unreserve(target: Order)
    | InventoryUpdate
    | CheckDone(answer: Option<(Usage, map<Order, nat>)>)
    | Tick
    | Shutdown

  /** Machine-word arithmetic. */
  function Wrap(n: int): u64 {
    n % U64_SIZE
  }

  lemma WrapFits(n: u64)
    ensures Wrap(n) == n
  {
  }

  lemma WrapUnique(x: int, q: int, r: u64)
    requires x == q * U64_SIZE + r
    ensures Wrap(x) == r
  {
  }

  lemma WrapMoves(n: int, d: int)
    ensures Wrap(Wrap(n) + d) == Wrap(n + d)
    ensures Wrap(d - Wrap(n)) == Wrap(d - n)
  {
    var k, up, down := n / U64_SIZE, (n + d) / U64_SIZE, (d - n) / U64_SIZE;
    WrapUnique(Wrap(n) + d, up - k, Wrap(n + d));
    WrapUnique(d - Wrap(n), down + k, Wrap(d - n));
  }

  // ---- Counting endpoints ----

  function PortsIn(es: seq<Endpoint>): nat {
    if es == [] then 0 else PortsIn(es[..|es| - 1]) + (if es[|es| - 1].kind == RandomPort then 1 else 0)
  }

  function Ports(units: Units): nat {
    if units == [] then 0 else Ports(units[..|units| - 1]) + PortsIn(units[|units| - 1])
  }

  function NumbersIn(es: seq<Endpoint>): set<u32> {
    set e | e in es && e.kind == LeasedIp :: e.seqNo
  }

  /** The distinct sequence numbers under which a group leases addresses. */
  function LeasedNumbers(units: Units): set<u32> {
    if units == [] then {} else LeasedNumbers(units[..|units| - 1]) + NumbersIn(units[|units| - 1])
  }

  lemma {:induction false} BoundedSetSize(s: set<u32>, n: nat)
    requires forall x :: x in s ==> x < n
    ensures |s| <= n
  {
    if n == 0 {
      assert s == {};
    } else if n - 1 in s {
      BoundedSetSize(s - {n - 1}, n - 1);
    } else {
      BoundedSetSize(s, n - 1);
    }
  }

  /** Sequence numbers are 32 bits wide, so a group's address count is far from the machine width. */
  lemma LeasedNumbersBound(units: Units)
    ensures |LeasedNumbers(units)| <= U32_SIZE
  {
    BoundedSetSize(LeasedNumbers(units), U32_SIZE);
  }

  function NewReservation(q: Request): (r: Reservation)
    ensures r.ips <= U32_SIZE && !r.deployed && !r.ipsConfirmed
  {
    LeasedNumbersBound(q.units);
    Reservation(q.order, q.name, q.units, |LeasedNumbers(q.units)|, false, false)
  }

  method CountEndpoints(units: Units) returns (n: u64)
    ensures n == Wrap(Ports(units))
  {
    hide Wrap;
    n := 0;
    WrapFits(0);
    for i := 0 to |units|
      invariant n == Wrap(Ports(units[..i]))
    {
      for j := 0 to |units[i]|
        invariant n == Wrap(Ports(units[..i]) + PortsIn(units[i][..j]))
      {
        assert units[i][..j + 1][..j] == units[i][..j];
        if units[i][j].kind == RandomPort {
          WrapMoves(Ports(units[..i]) + PortsIn(units[i][..j]), 1);
          n := Wrap(n + 1);
        }
      }
      assert units[i][..|units[i]|] == units[i];
      assert units[..i + 1][..i] == units[..i];
    }
    assert units[..|units|] == units;
  }

  method EndpointQuantity(units: Units) returns (n: u64)
    ensures n == |LeasedNumbers(units)|
  {
    var seen: set<u32> := {};
    for i := 0 to |units|
      invariant seen == LeasedNumbers(units[..i])
    {
      for j := 0 to |units[i]|
        invariant seen == LeasedNumbers(units[..i]) + NumbersIn(units[i][..j])
      {
        assert units[i][..j + 1] == units[i][..j] + [units[i][j]];
        if units[i][j].kind == LeasedIp {
          seen := seen + {units[i][j].seqNo};
        }
      }
      assert units[i][..|units[i]|] == units[i];
      assert units[..i + 1][..i] == units[..i];
    }
    assert units[..|units|] == units;
    LeasedNumbersBound(units);
    n := |seen|;
  }

  // ---- Sums over the list ----

  function PortsHeld(r: Reservation): nat {
    if r.deployed then Ports(r.units) else 0
  }

  function IpsHeld(r: Reservation): nat {
    if r.ipsConfirmed then 0 else r.ips
  }

  function Total(rs: seq<Reservation>, weight: Reservation -> nat): nat {
    if rs == [] then 0 else Total(rs[..|rs| - 1], weight) + weight(rs[|rs| - 1])
  }

  lemma {:induction false} TotalConcat(a: seq<Reservation>, b: seq<Reservation>, weight: Reservation -> nat)
    ensures Total(a + b, weight) == Total(a, weight) + Total(b, weight)
    decreases |b|
  {
    if b == [] {
      assert a + b == a;
    } else {
      var n := |b| - 1;
      assert (a + b)[..|a + b| - 1] == a + b[..n];
      TotalConcat(a, b[..n], weight);
    }
  }

  lemma TotalSplit(rs: seq<Reservation>, i: nat, weight: Reservation -> nat)
    requires i < |rs|
    ensures Total(rs, weight) == Total(rs[..i], weight) + weight(rs[i]) + Total(rs[i + 1..], weight)
  {
    assert rs == rs[..i + 1] + rs[i + 1..];
    assert rs[..i + 1][..i] == rs[..i];
    TotalConcat(rs[..i + 1], rs[i + 1..], weight);
  }

  lemma TotalUpdate(rs: seq<Reservation>, i: nat, r: Reservation, weight: Reservation -> nat)
    requires i < |rs|
    ensures Total(rs[i := r], weight) + weight(rs[i]) == Total(rs, weight) + weight(r)
  {
    hide Total;
    TotalSplit(rs, i, weight);
    TotalSplit(rs[i := r], i, weight);
    assert rs[i := r][..i] == rs[..i] && rs[i := r][i + 1..] == rs[i + 1..];
  }

  lemma TotalRemove(rs: seq<Reservation>, i: nat, weight: Reservation -> nat)
    requires i < |rs|
    ensures Total(Removed(rs, i), weight) + weight(rs[i]) == Total(rs, weight)
  {
    hide Total;
    TotalSplit(rs, i, weight);
    TotalConcat(rs[..i], rs[i + 1..], weight);
  }

  function Removed(rs: seq<Reservation>, i: nat): seq<Reservation>
    requires i < |rs|
  {
    rs[..i] + rs[i + 1..]
  }

  predicate Matches(r: Reservation, order: Order, name: Option<string>) {
    r.order == order && (name.Some? ==> r.name == name.value)
  }

  /** The first matching entry, or the length of the list. */
  function First(rs: seq<Reservation>, order: Order, name: Option<string>): (i: nat)
    ensures i <= |rs|
    ensures i < |rs| ==> Matches(rs[i], order, name)
    ensures forall j :: 0 <= j < i ==> !Matches(rs[j], order, name)
  {
    if rs == [] then 0
    else if Matches(rs[0], order, name) then 0
    else
      var i := First(rs[1..], order, name);
      assert forall j :: 1 <= j < 1 + i ==> rs[j] == rs[1..][j - 1];
      1 + i
  }

  // ---- The loop's cases on values ----

  function Reserved(s: State): u64 {
    Wrap(Total(s.reservations, IpsHeld))
  }

  function AvailableIps(total: u64, inUse: u64, reserved: u64): (n: u64)
    ensures n as int == if inUse + reserved >= total then 0 else total - inUse - reserved
  {
    if inUse >= total then 0
    else if reserved >= total - inUse then 0
    else total - inUse - reserved
  }

  function Verdict(s: State, q: Request, fits: bool): Reply {
    var r := NewReservation(q);
    if r.ips != 0 && !s.hasIpClient then NoLeasedIps
    else if r.ips > AvailableIps(s.usage.total, s.usage.inUse, Reserved(s)) then InsufficientIps
    else if !s.inventory then Crashed
    else if !fits then InsufficientCapacity
    else Granted
  }

  function Handled(s: State, q: Request, fits: bool): State {
    match Verdict(s, q, fits)
    case Granted =>
      var r := NewReservation(q);
      s.(reservations := s.reservations + [r.(ipsConfirmed := r.ips == 0)])
    case Crashed => s.(life := Panicked)
    case _ => s
  }

  function ConfirmItems(rs: seq<Reservation>): seq<ConfirmItem> {
    if rs == [] then []
    else
      var r := rs[|rs| - 1];
      ConfirmItems(rs[..|rs| - 1]) + (if r.ipsConfirmed || !r.deployed then [] else [ConfirmItem(r.order, r.ips)])
  }

  /** The orders for which the operator reported exactly the expected number of addresses. */
  function ConfirmedOrders(items: seq<ConfirmItem>, found: map<Order, nat>): seq<Order> {
    if items == [] then []
    else
      var c := items[|items| - 1];
      ConfirmedOrders(items[..|items| - 1], found)
      + (if c.order in found && Wrap(found[c.order]) == c.expected then [c.order] else [])
  }

  function ConfirmOne(rs: seq<Reservation>, order: Order): seq<Reservation> {
    var i := First(rs, order, None);
    if i < |rs| then rs[i := rs[i].(ipsConfirmed := true)] else rs
  }

  function ConfirmAll(rs: seq<Reservation>, orders: seq<Order>): seq<Reservation> {
    if orders == [] then rs else ConfirmOne(ConfirmAll(rs, orders[..|orders| - 1]), orders[|orders| - 1])
  }

  function UpdatedIps(s: State): (t: State)
    ensures t == s.(accepting := t.accepting, timer := t.timer, checking := t.checking)
  {
    if s.hasIpClient then
      if s.checking.None? then s.(accepting := false, timer := false, checking := Some(ConfirmItems(s.reservations)))
      else s.(accepting := false)
    else if s.inventory then s.(accepting := true)
    else s
  }

  /** Flipping one entry's allocation moves its ports between the account and the entry. */
  function Reallocated(s: State, i: nat, deployed: bool): State
    requires i < |s.reservations|
  {
    var r := s.reservations[i];
    var n := Ports(r.units);
    s.(reservations := s.reservations[i := r.(deployed := deployed)],
       ports := if r.deployed == deployed then s.ports
                else if deployed then Wrap(s.ports - n) else Wrap(s.ports + n))
  }

  function Unreserved(s: State, i: nat): State
    requires i < |s.reservations|
  {
    var r := s.reservations[i];
    s.(reservations := Removed(s.reservations, i),
       ports := if r.deployed then Wrap(s.ports + Ports(r.units)) else s.ports)
  }

  function Checked(s: State, items: seq<ConfirmItem>, answer: Option<(Usage, map<Order, nat>)>): State {
    var t := s.(checking := None, timer := true, accepting := true);
    if answer.None? then t
    else t.(usage := answer.value.0, reservations := ConfirmAll(s.reservations, ConfirmedOrders(items, answer.value.1)))
  }

  function Step(s: State, ev: Event): State {
    if s.life != Running then s
    else
      match ev
      case Deployment(order, name, deployed) =>
        var i := First(s.reservations, order, Some(name));
        UpdatedIps(if i < |s.reservations| then Reallocated(s, i, deployed) else s)
      case Reserve(q, fits) => if s.accepting then Handled(s, q, fits) else s
      case Unreserve(order) =>
        var i := First(s.reservations, order, None);
        if i < |s.reservations| then Unreserved(s, i) else s
      case InventoryUpdate => UpdatedIps(s.(inventory := true))
      case CheckDone(answer) => if s.checking.Some? then Checked(s, s.checking.value, answer) else s
      case Tick => if s.timer then UpdatedIps(s.(timer := false)) else s
      case Shutdown => s.(life := Stopped, checking := None)
  }

  function FromDeployments(qs: seq<Request>): (rs: seq<Reservation>)
    ensures |rs| == |qs| && forall i :: 0 <= i < |qs| ==> rs[i] == NewReservation(qs[i])
  {
    if qs == [] then [] else FromDeployments(qs[..|qs| - 1]) + [NewReservation(qs[|qs| - 1])]
  }

  function Initial(cfg: Config): State {
    State(cfg.hasIpClient, FromDeployments(cfg.existing), cfg.portQuantity, Usage(0, 0),
          false, false, None, false, Running)
  }

  function Exec(cfg: Config, evs: seq<Event>): State {
    if evs == [] then Initial(cfg) else Step(Exec(cfg, evs[..|evs| - 1]), evs[|evs| - 1])
  }

  // ---- The service as an object ----

  class InventoryService {
    const hasIpClient: bool
    var reservations: seq<Reservation>
    var ports: u64
    var usage: Usage
    var inventory: bool
    var accepting: bool
    var checking: Option<seq<ConfirmItem>>
    var timer: bool
    var life: Life

    function View(): State
      reads this
    {
      State(hasIpClient, reservations, ports, usage, inventory, accepting, checking, timer, life)
    }

    constructor (cfg: Config)
      ensures View() == Initial(cfg)
    {
      hasIpClient, ports, usage := cfg.hasIpClient, cfg.portQuantity, Usage(0, 0);
      inventory, accepting, checking, timer, life := false, false, None, false, Running;
      var rs: seq<Reservation> := [];
      for i := 0 to |cfg.existing|
        invariant |rs| == i && forall j :: 0 <= j < i ==> rs[j] == NewReservation(cfg.existing[j])
      {
        var q := cfg.existing[i];
        var n := EndpointQuantity(q.units);
        rs := rs + [Reservation(q.order, q.name, q.units, n, false, false)];
      }
      assert rs == FromDeployments(cfg.existing);
      reservations := rs;
    }

    method CountReservedIps() returns (reserved: u64)
      ensures reserved == Reserved(View())
    {
      reserved := 0;
      for i := 0 to |reservations|
        invariant reserved == Wrap(Total(reservations[..i], IpsHeld))
      {
        assert reservations[..i + 1][..i] == reservations[..i];
        if !reservations[i].ipsConfirmed {
          reserved := Wrap(reserved + reservations[i].ips);
        }
      }
      assert reservations[..|reservations|] == reservations;
    }

    method Find(order: Order, name: Option<string>) returns (i: nat)
      ensures i == First(reservations, order, name)
    {
      i := 0;
      while i < |reservations|
        invariant i <= |reservations|
        invariant forall j :: 0 <= j < i ==> !Matches(reservations[j], order, name)
      {
        if Matches(reservations[i], order, name) {
          return;
        }
        i := i + 1;
      }
    }

    method HandleRequest(q: Request, fits: bool) returns (reply: Reply)
      modifies this`reservations, this`life
      ensures reply == Verdict(old(View()), q, fits)
      ensures View() == Handled(old(View()), q, fits)
    {
      var n := EndpointQuantity(q.units);
      var r := Reservation(q.order, q.name, q.units, n, false, false);
      if n != 0 {
        if !hasIpClient {
          return NoLeasedIps;
        }
        var reserved := CountReservedIps();
        if n > AvailableIps(usage.total, usage.inUse, reserved) {
          return InsufficientIps;
        }
      } else {
        r := r.(ipsConfirmed := true);
      }
      if !inventory {
        life := Panicked;
        return Crashed;
      }
      if !fits {
        return InsufficientCapacity;
      }
      reservations := reservations + [r];
      reply := Granted;
    }

    method SnapshotUnconfirmed() returns (items: seq<ConfirmItem>)
      ensures items == ConfirmItems(reservations)
    {
      items := [];
      for i := 0 to |reservations|
        invariant items == ConfirmItems(reservations[..i])
      {
        assert reservations[..i + 1][..i] == reservations[..i];
        var r := reservations[i];
        if !r.ipsConfirmed && r.deployed {
          items := items + [ConfirmItem(r.order, r.ips)];
        }
      }
      assert reservations[..|reservations|] == reservations;
    }

    method UpdateIps()
      modifies this`accepting, this`timer, this`checking
      ensures View() == UpdatedIps(old(View()))
    {
      if hasIpClient {
        accepting := false;
        if checking.None? {
          timer := false;
          var items := SnapshotUnconfirmed();
          checking := Some(items);
        }
      } else if !accepting && inventory {
        accepting := true;
      }
    }

    method OnDeployment(order: Order, name: string, deployed: bool)
      requires life == Running
      modifies this
      ensures View() == Step(old(View()), Deployment(order, name, deployed))
    {
      hide Wrap, First, UpdatedIps;
      var i := Find(order, Some(name));
      if i < |reservations| {
        var before := reservations[i].deployed;
        reservations := reservations[i := reservations[i].(deployed := deployed)];
        if before != deployed {
          var n := CountEndpoints(reservations[i].units);
          WrapMoves(Ports(reservations[i].units), ports);
          ports := if deployed then Wrap(ports - n) else Wrap(ports + n);
        }
      }
      UpdateIps();
    }

    method OnUnreserve(order: Order) returns (found: bool)
      requires life == Running
      modifies this
      ensures found <==> exists i :: 0 <= i < |old(reservations)| && old(reservations)[i].order == order
      ensures View() == Step(old(View()), Unreserve(order))
    {
      hide Wrap;
      var i := Find(order, None);
      found := i < |reservations|;
      if found {
        var r := reservations[i];
        reservations := reservations[..i] + reservations[i + 1..];
        if r.deployed {
          var n := CountEndpoints(r.units);
          WrapMoves(Ports(r.units), ports);
          ports := Wrap(ports + n);
        }
      }
    }

    method OnCheckDone(answer: Option<(Usage, map<Order, nat>)>)
      requires life == Running && checking.Some?
      modifies this
      ensures View() == Step(old(View()), CheckDone(answer))
    {
      hide ConfirmAll, ConfirmedOrders;
      var items := checking.value;
      checking, timer := None, true;
      if answer.Some? {
        usage := answer.value.0;
        var confirmed := RunCheck(items, answer.value.1);
        MarkConfirmed(confirmed);
      }
      accepting := true;
    }

    method MarkConfirmed(orders: seq<Order>)
      modifies this`reservations
      ensures reservations == ConfirmAll(old(reservations), orders)
    {
      for i := 0 to |orders|
        invariant reservations == ConfirmAll(old(reservations), orders[..i])
      {
        assert orders[..i + 1][..i] == orders[..i];
        var k := Find(orders[i], None);
        if k < |reservations| {
          reservations := reservations[k := reservations[k].(ipsConfirmed := true)];
        }
      }
      assert orders[..|orders|] == orders;
    }

    method RunCheck(items: seq<ConfirmItem>, found: map<Order, nat>) returns (confirmed: seq<Order>)
      ensures confirmed == ConfirmedOrders(items, found)
    {
      confirmed := [];
      for i := 0 to |items|
        invariant confirmed == ConfirmedOrders(items[..i], found)
      {
        assert items[..i + 1][..i] == items[..i];
        var c := items[i];
        if c.order in found && Wrap(found[c.order]) == c.expected {
          confirmed := confirmed + [c.order];
        }
      }
      assert items[..|items|] == items;
    }

    /** One turn of the select loop. */
    method Select(ev: Event)
      modifies this
      ensures View() == Step(old(View()), ev)
    {
      if life != Running {
        return;
      }
      match ev
      case Deployment(order, name, deployed) => OnDeployment(order, name, deployed);
      case Reserve(q, fits) =>
        if accepting {
          var _ := HandleRequest(q, fits);
        }
      case Unreserve(order) => var _ := OnUnreserve(order);
      case InventoryUpdate =>
        inventory := true;
        UpdateIps();
      case CheckDone(answer) =>
        if checking.Some? {
          OnCheckDone(answer);
        }
      case Tick =>
        if timer {
          timer := false;
          UpdateIps();
        }
      case Shutdown => life, checking := Stopped, None;
    }
  }

  // ---- Ports: conservation over every run ----

  /** The account: free ports and ports held by allocated reservations make up the quantity. */
  predicate PortsBalance(s: State, quantity: u64) {
    Wrap(s.ports + Total(s.reservations, PortsHeld)) == quantity
  }

  lemma ConfirmOneTotals(rs: seq<Reservation>, order: Order)
    ensures Total(ConfirmOne(rs, order), PortsHeld) == Total(rs, PortsHeld)
    ensures Total(ConfirmOne(rs, order), IpsHeld) <= Total(rs, IpsHeld)
  {
    var i := First(rs, order, None);
    if i < |rs| {
      TotalUpdate(rs, i, rs[i].(ipsConfirmed := true), PortsHeld);
      TotalUpdate(rs, i, rs[i].(ipsConfirmed := true), IpsHeld);
    }
  }

  lemma {:induction false} ConfirmAllTotals(rs: seq<Reservation>, orders: seq<Order>)
    ensures Total(ConfirmAll(rs, orders), PortsHeld) == Total(rs, PortsHeld)
    ensures Total(ConfirmAll(rs, orders), IpsHeld) <= Total(rs, IpsHeld)
    decreases |orders|
  {
    if orders != [] {
      var n := |orders| - 1;
      ConfirmAllTotals(rs, orders[..n]);
      ConfirmOneTotals(ConfirmAll(rs, orders[..n]), orders[n]);
    }
  }

  lemma GrantTotals(s: State, q: Request, fits: bool)
    requires Verdict(s, q, fits) == Granted
    ensures Total(Handled(s, q, fits).reservations, PortsHeld) == Total(s.reservations, PortsHeld)
    ensures Total(Handled(s, q, fits).reservations, IpsHeld) == Total(s.reservations, IpsHeld) + NewReservation(q).ips
  {
    var r := NewReservation(q);
    var r' := r.(ipsConfirmed := r.ips == 0);
    assert (s.reservations + [r'])[..|s.reservations|] == s.reservations;
  }

  lemma ReallocatedTotals(s: State, i: nat, deployed: bool, quantity: u64)
    requires i < |s.reservations|
    ensures PortsBalance(s, quantity) ==> PortsBalance(Reallocated(s, i, deployed), quantity)
    ensures Total(Reallocated(s, i, deployed).reservations, IpsHeld) == Total(s.reservations, IpsHeld)
  {
    hide Wrap, Total;
    var rs := s.reservations;
    var r := rs[i].(deployed := deployed);
    TotalUpdate(rs, i, r, PortsHeld);
    TotalUpdate(rs, i, r, IpsHeld);
    WrapMoves(s.ports - Ports(r.units), Total(rs[i := r], PortsHeld));
    WrapMoves(s.ports + Ports(r.units), Total(rs[i := r], PortsHeld));
  }

  lemma UnreservedTotals(s: State, i: nat, quantity: u64)
    requires i < |s.reservations|
    ensures PortsBalance(s, quantity) ==> PortsBalance(Unreserved(s, i), quantity)
    ensures Total(Unreserved(s, i).reservations, IpsHeld) <= Total(s.reservations, IpsHeld)
  {
    hide Wrap, Total;
    var rs := s.reservations;
    TotalRemove(rs, i, PortsHeld);
    TotalRemove(rs, i, IpsHeld);
    WrapMoves(s.ports + Ports(rs[i].units), Total(Removed(rs, i), PortsHeld));
  }

  lemma CheckedTotals(s: State, items: seq<ConfirmItem>, answer: Option<(Usage, map<Order, nat>)>, quantity: u64)
    ensures PortsBalance(s, quantity) ==> PortsBalance(Checked(s, items, answer), quantity)
    ensures Total(Checked(s, items, answer).reservations, IpsHeld) <= Total(s.reservations, IpsHeld)
  {
    hide Wrap, Total, ConfirmAll, ConfirmedOrders;
    if answer.Some? {
      ConfirmAllTotals(s.reservations, ConfirmedOrders(items, answer.value.1));
    }
  }

  /** Only a grant adds to the promised addresses, only a usage report changes the use of them, and
      no step disturbs the port account. */
  lemma StepTotals(s: State, ev: Event, quantity: u64)
    ensures PortsBalance(s, quantity) ==> PortsBalance(Step(s, ev), quantity)
    ensures !GrantsIps(s, ev) ==> Total(Step(s, ev).reservations, IpsHeld) <= Total(s.reservations, IpsHeld)
    ensures !UsageReport(ev) ==> Step(s, ev).usage == s.usage
  {
    hide Wrap, Total, First, UpdatedIps, Removed;
    if s.life == Running {
      var rs := s.reservations;
      match ev
      case Deployment(order, name, deployed) =>
        var i := First(rs, order, Some(name));
        if i < |rs| {
          ReallocatedTotals(s, i, deployed, quantity);
        }
      case Reserve(q, fits) =>
        if s.accepting && Verdict(s, q, fits) == Granted {
          GrantTotals(s, q, fits);
        }
      case Unreserve(order) =>
        var i := First(rs, order, None);
        if i < |rs| {
          UnreservedTotals(s, i, quantity);
        }
      case CheckDone(answer) =>
        if s.checking.Some? {
          CheckedTotals(s, s.checking.value, answer, quantity);
        }
      case _ =>
    }
  }

  lemma {:induction false} NothingHeldAtStart(rs: seq<Reservation>)
    requires forall i :: 0 <= i < |rs| ==> !rs[i].deployed
    ensures Total(rs, PortsHeld) == 0
  {
    if rs != [] {
      NothingHeldAtStart(rs[..|rs| - 1]);
    }
  }

  /** In every run the free ports and the ports of all allocated reservations make up the configured
      quantity modulo the machine width, and exactly as long as no more is held than was configured. */
  lemma {:induction false} PortsConserved(cfg: Config, evs: seq<Event>)
    ensures PortsBalance(Exec(cfg, evs), cfg.portQuantity)
    ensures var held := Total(Exec(cfg, evs).reservations, PortsHeld);
            Exec(cfg, evs).ports + held == cfg.portQuantity <==> held <= cfg.portQuantity
    decreases |evs|
  {
    hide Step, Total, Wrap;
    if evs == [] {
      NothingHeldAtStart(Initial(cfg).reservations);
      WrapFits(cfg.portQuantity);
    } else {
      var n := |evs| - 1;
      PortsConserved(cfg, evs[..n]);
      StepTotals(Exec(cfg, evs[..n]), evs[n], cfg.portQuantity);
    }
    ExactAccount(Exec(cfg, evs).ports, Total(Exec(cfg, evs).reservations, PortsHeld), cfg.portQuantity);
  }

  lemma ExactAccount(ports: u64, held: nat, quantity: u64)
    requires Wrap(ports + held) == quantity
    ensures ports + held == quantity <==> held <= quantity
  {
  }

  // ---- Leased addresses ----

  /** Addresses in use and addresses promised but not yet confirmed fit in the pool. */
  predicate Within(s: State) {
    s.usage.inUse + Total(s.reservations, IpsHeld) <= s.usage.total
  }

  predicate GrantsIps(s: State, ev: Event) {
    && s.life == Running
    && s.accepting
    && ev.Reserve?
    && Verdict(s, ev.request, ev.fits) == Granted
    && NewReservation(ev.request).ips > 0
  }

  predicate UsageReport(ev: Event) {
    ev.CheckDone? && ev.answer.Some?
  }

  /** An admission leaves the pool within bounds exactly when the promised total had not already
      outgrown the machine word in which it is summed. */
  lemma AdmissionWithinIff(s: State, ev: Event)
    requires GrantsIps(s, ev)
    ensures Within(Step(s, ev)) <==> Total(s.reservations, IpsHeld) < U64_SIZE
  {
    GrantTotals(s, ev.request, ev.fits);
  }

  lemma StepKeepsWithin(s: State, ev: Event)
    requires Within(s) && !UsageReport(ev)
    ensures Within(Step(s, ev))
  {
    StepTotals(s, ev, 0);
    if GrantsIps(s, ev) {
      AdmissionWithinIff(s, ev);
    }
  }

  predicate ExistingFit(cfg: Config) {
    Total(FromDeployments(cfg.existing), IpsHeld) < U64_SIZE
  }

  lemma {:induction false} PromisesStayInWord(cfg: Config, evs: seq<Event>)
    requires ExistingFit(cfg)
    ensures Total(Exec(cfg, evs).reservations, IpsHeld) < U64_SIZE
    decreases |evs|
  {
    hide Step, Total, Verdict;
    if evs != [] {
      var n := |evs| - 1;
      PromisesStayInWord(cfg, evs[..n]);
      StepTotals(Exec(cfg, evs[..n]), evs[n], 0);
      if GrantsIps(Exec(cfg, evs[..n]), evs[n]) {
        AdmissionWithinIff(Exec(cfg, evs[..n]), evs[n]);
      }
    }
  }

  /** After any leased-IP admission, addresses in use plus those promised stay within the pool until
      the next usage report. */
  lemma {:induction false} AdmittedStaysWithin(cfg: Config, evs: seq<Event>, k: nat)
    requires ExistingFit(cfg)
    requires k < |evs| && GrantsIps(Exec(cfg, evs[..k]), evs[k])
    requires forall i :: k < i < |evs| ==> !UsageReport(evs[i])
    ensures Within(Exec(cfg, evs))
    decreases |evs|
  {
    hide Step, Total, Verdict;
    var n := |evs| - 1;
    if k == n {
      PromisesStayInWord(cfg, evs[..n]);
      AdmissionWithinIff(Exec(cfg, evs[..n]), evs[n]);
    } else {
      assert evs[..n][..k] == evs[..k];
      AdmittedStaysWithin(cfg, evs[..n], k);
      StepKeepsWithin(Exec(cfg, evs[..n]), evs[n]);
    }
  }

  // ---- Overcommitment when the existing leases outgrow the word ----

  function HeadRemovals(rs: seq<Reservation>, k: nat): seq<Event>
    requires k <= |rs|
  {
    if k == 0 then [] else HeadRemovals(rs, k - 1) + [Unreserve(rs[k - 1].order)]
  }

  lemma HeadRemoved(s: State)
    requires s.life == Running && s.reservations != [] && !s.reservations[0].deployed
    ensures Step(s, Unreserve(s.reservations[0].order)) == s.(reservations := s.reservations[1..])
  {
    var rs := s.reservations;
    assert Matches(rs[0], rs[0].order, None) && First(rs, rs[0].order, None) == 0;
    assert Removed(rs, 0) == rs[1..];
  }

  lemma ExecNone(cfg: Config)
    ensures Exec(cfg, []) == Initial(cfg)
  {
  }

  lemma {:induction false} HeadsRemoved(cfg: Config, k: nat)
    requires k <= |cfg.existing|
    ensures Exec(cfg, HeadRemovals(FromDeployments(cfg.existing), k))
            == Initial(cfg).(reservations := FromDeployments(cfg.existing)[k..])
  {
    hide Step, Exec, FromDeployments, NewReservation, Total;
    var rs := FromDeployments(cfg.existing);
    if k == 0 {
      assert rs[0..] == rs;
      ExecNone(cfg);
    } else {
      HeadsRemoved(cfg, k - 1);
      var evs := HeadRemovals(rs, k - 1);
      ExecOne(cfg, evs, Unreserve(rs[k - 1].order));
      HeadRemoved(Exec(cfg, evs));
      assert rs[k - 1..][1..] == rs[k..];
    }
  }

  lemma {:induction false} RoomInWord(rs: seq<Reservation>) returns (k: nat)
    requires forall i :: 0 <= i < |rs| ==> rs[i].ips <= U32_SIZE
    requires Total(rs, IpsHeld) >= U64_SIZE
    ensures k <= |rs| && Total(rs[k..], IpsHeld) >= U64_SIZE
    ensures Wrap(Total(rs[k..], IpsHeld)) < U64_SIZE - 1
    decreases |rs|
  {
    if Wrap(Total(rs, IpsHeld)) < U64_SIZE - 1 {
      k := 0;
      assert rs[0..] == rs;
    } else {
      TotalRemove(rs, 0, IpsHeld);
      assert Removed(rs, 0) == rs[1..];
      k := RoomInWord(rs[1..]);
      assert rs[1..][k..] == rs[k + 1..];
      k := k + 1;
    }
  }

  const ONE_ADDRESS: Units := [[Endpoint(LeasedIp, 0)]]

  lemma OneAddressCounts()
    ensures |LeasedNumbers(ONE_ADDRESS)| == 1
  {
    assert ONE_ADDRESS[0][0].seqNo == 0;
    assert LeasedNumbers(ONE_ADDRESS) == {0};
  }

  lemma {:induction false} NothingConfirmed(items: seq<ConfirmItem>)
    ensures ConfirmedOrders(items, map[]) == []
  {
    if items != [] {
      NothingConfirmed(items[..|items| - 1]);
    }
  }

  /** The condition on the existing leases is exact: when their addresses overflow the word, some run
      admits a request although more addresses are promised than the pool has. */
  lemma OvercommitReachable(cfg: Config) returns (evs: seq<Event>)
    requires cfg.hasIpClient && !ExistingFit(cfg)
    ensures |evs| > 0 && GrantsIps(Exec(cfg, evs[..|evs| - 1]), evs[|evs| - 1])
    ensures !Within(Exec(cfg, evs))
  {
    var rs := FromDeployments(cfg.existing);
    var k := RoomInWord(rs);
    HeadsRemoved(cfg, k);
    hide Step, Exec;
    var e0 := HeadRemovals(rs, k);
    var s0 := Exec(cfg, e0);
    var report := CheckDone(Some((Usage(U64_MAX, 0), map[])));
    ExecTwo(cfg, e0, InventoryUpdate, report);
    var e2 := e0 + [InventoryUpdate, report];
    var s2 := Exec(cfg, e2);
    OpenedPool(s0);
    var ask := Reserve(Request(0, "", ONE_ADDRESS), true);
    PoolGrantsOne(s2, ask);
    evs := e2 + [ask];
    assert evs[..|e2|] == e2;
    ExecOne(cfg, e2, ask);
    AdmissionWithinIff(s2, ask);
  }

  lemma OpenedPool(s: State)
    requires s.hasIpClient && s.life == Running && s.checking.None?
    ensures Step(Step(s, InventoryUpdate), CheckDone(Some((Usage(U64_MAX, 0), map[]))))
            == s.(inventory := true, accepting := true, timer := true, usage := Usage(U64_MAX, 0))
  {
    NothingConfirmed(ConfirmItems(s.reservations));
  }

  lemma PoolGrantsOne(s: State, ask: Event)
    requires s.hasIpClient && s.life == Running && s.inventory && s.accepting && s.usage == Usage(U64_MAX, 0)
    requires Reserved(s) < U64_MAX && ask == Reserve(Request(0, "", ONE_ADDRESS), true)
    ensures GrantsIps(s, ask)
  {
    hide Reserved;
    OneAddressCounts();
    assert NewReservation(ask.request).ips == 1;
  }

  // ---- Channel gating ----

  ghost predicate Gated(s: State) {
    && (s.hasIpClient ==> !(s.accepting && s.checking.Some?))
    && (!s.hasIpClient ==> s.checking.None? && !s.timer && (s.accepting ==> s.inventory))
    && (s.life == Panicked ==> s.hasIpClient && !s.inventory)
  }

  /** A step never takes the inventory away, and crashes only where there is none. */
  lemma StepIsGated(s: State, ev: Event)
    requires Gated(s)
    ensures Gated(Step(s, ev)) && Step(s, ev).hasIpClient == s.hasIpClient
    ensures s.inventory ==> Step(s, ev).inventory
    ensures Step(s, ev).life == Panicked ==> s.life == Panicked || !s.inventory
  {
    hide Wrap, Total, First, Removed, ConfirmAll, ConfirmedOrders, ConfirmItems, LeasedNumbers, Ports;
  }

  lemma {:induction false} RunIsGated(cfg: Config, evs: seq<Event>)
    ensures Gated(Exec(cfg, evs)) && Exec(cfg, evs).hasIpClient == cfg.hasIpClient
    decreases |evs|
  {
    hide Step;
    if evs != [] {
      RunIsGated(cfg, evs[..|evs| - 1]);
      StepIsGated(Exec(cfg, evs[..|evs| - 1]), evs[|evs| - 1]);
    }
  }

  /** With an IP client no reservation is granted while a usage check is in flight, so a report never
      meets a reservation that its check did not see. */
  lemma NoGrantDuringCheck(cfg: Config, evs: seq<Event>, q: Request, fits: bool)
    requires Exec(cfg, evs).checking.Some?
    ensures Step(Exec(cfg, evs), Reserve(q, fits)) == Exec(cfg, evs)
  {
    RunIsGated(cfg, evs);
  }

  // ---- The missing-inventory crash ----

  predicate NoInventoryYet(evs: seq<Event>) {
    forall i :: 0 <= i < |evs| ==> !evs[i].InventoryUpdate? && !evs[i].Shutdown?
  }

  predicate DeploymentSeen(evs: seq<Event>) {
    exists i :: 0 <= i < |evs| && evs[i].Deployment?
  }

  /** Before the first inventory the loop is idle until a deployment event starts a usage check. */
  ghost predicate Early(s: State, started: bool) {
    && !s.inventory
    && s.life != Stopped
    && (s.life == Running ==> (s.checking.Some? || s.accepting <==> started) && (s.timer ==> s.accepting))
    && (!started ==> s.life == Running)
  }

  lemma StepStaysEarly(s: State, ev: Event, seen: bool)
    requires Gated(s) && Early(s, s.hasIpClient && seen) && !ev.InventoryUpdate? && !ev.Shutdown?
    ensures Early(Step(s, ev), s.hasIpClient && (seen || ev.Deployment?))
  {
    hide Wrap, Total, First, Removed, ConfirmAll, ConfirmedOrders, ConfirmItems, LeasedNumbers, Ports;
  }

  lemma DeploymentSeenLast(evs: seq<Event>)
    requires evs != []
    ensures DeploymentSeen(evs) <==> DeploymentSeen(evs[..|evs| - 1]) || evs[|evs| - 1].Deployment?
  {
    var n := |evs| - 1;
    if i :| 0 <= i < n && evs[..n][i].Deployment? {
      assert evs[i].Deployment?;
    }
    if i :| 0 <= i < |evs| && evs[i].Deployment? {
      assert i < n ==> evs[..n][i].Deployment?;
    }
  }

  lemma {:induction false} BeforeInventory(cfg: Config, evs: seq<Event>)
    requires NoInventoryYet(evs)
    ensures Early(Exec(cfg, evs), cfg.hasIpClient && DeploymentSeen(evs))
    decreases |evs|
  {
    hide Step;
    if evs != [] {
      var n := |evs| - 1;
      BeforeInventory(cfg, evs[..n]);
      RunIsGated(cfg, evs[..n]);
      DeploymentSeenLast(evs);
      StepStaysEarly(Exec(cfg, evs[..n]), evs[n], DeploymentSeen(evs[..n]));
    }
  }

  /** A request reaching the capacity check before any inventory has arrived crashes the service.
      From a state without inventory that is reachable exactly when an IP client is configured and a
      deployment event has been seen. */
  lemma CrashReachableIff(cfg: Config, evs: seq<Event>)
    requires NoInventoryYet(evs)
    ensures (exists more: seq<Event> :: CrashesWithoutDeployment(cfg, evs, more)) <==>
            cfg.hasIpClient && DeploymentSeen(evs)
  {
    hide Step, Exec;
    if cfg.hasIpClient && DeploymentSeen(evs) {
      var more := [CheckDone(None), Reserve(Request(0, "", []), true)];
      BeforeInventory(cfg, evs);
      RunIsGated(cfg, evs);
      ExecTwo(cfg, evs, more[0], more[1]);
      EarlyRequestCrashes(Exec(cfg, evs));
      assert CrashesWithoutDeployment(cfg, evs, more);
    } else {
      forall more: seq<Event> | CrashesWithoutDeployment(cfg, evs, more) ensures false {
        assert NoInventoryYet(evs + more) && !(cfg.hasIpClient && DeploymentSeen(evs + more));
        BeforeInventory(cfg, evs + more);
      }
    }
  }

  lemma ExecOne(cfg: Config, evs: seq<Event>, ev: Event)
    ensures Exec(cfg, evs + [ev]) == Step(Exec(cfg, evs), ev)
  {
    hide Step;
    assert (evs + [ev])[..|evs|] == evs;
  }

  lemma ExecTwo(cfg: Config, evs: seq<Event>, a: Event, b: Event)
    ensures Exec(cfg, evs + [a, b]) == Step(Step(Exec(cfg, evs), a), b)
  {
    hide Step, Exec;
    assert evs + [a, b] == (evs + [a]) + [b];
    ExecOne(cfg, evs, a);
    ExecOne(cfg, evs + [a], b);
  }

  lemma EarlyRequestCrashes(s: State)
    requires Gated(s) && Early(s, true)
    ensures Step(Step(s, CheckDone(None)), Reserve(Request(0, "", []), true)).life == Panicked
  {
    hide Wrap, Total, First, Removed, ConfirmAll, ConfirmedOrders, ConfirmItems, Ports;
    assert LeasedNumbers([]) == {};
  }

  /** `more` brings the service down without any inventory or further deployment event. */
  predicate CrashesWithoutDeployment(cfg: Config, evs: seq<Event>, more: seq<Event>) {
    && NoInventoryYet(more)
    && !DeploymentSeen(more)
    && Exec(cfg, evs + more).life == Panicked
  }

  /** A run that has got its inventory never crashes from then on. */
  lemma {:induction false} NoCrashAfterInventory(cfg: Config, evs: seq<Event>, k: nat)
    requires k <= |evs| && Exec(cfg, evs[..k]).inventory && Exec(cfg, evs[..k]).life != Panicked
    ensures Exec(cfg, evs).inventory && Exec(cfg, evs).life != Panicked
    decreases |evs|
  {
    hide Step;
    if k == |evs| {
      assert evs[..k] == evs;
    } else {
      var n := |evs| - 1;
      assert evs[..n][..k] == evs[..k];
      NoCrashAfterInventory(cfg, evs[..n], k);
      RunIsGated(cfg, evs[..n]);
      StepIsGated(Exec(cfg, evs[..n]), evs[n]);
    }
  }
}
