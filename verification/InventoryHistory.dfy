/** What each case of the inventory loop does, and where reservations and confirmations come from over
    a whole run. */
module InventoryHistory {
  import opened Wrappers
  import opened Bytes
  import opened Inventory

  // ---- What is counted ----

  /** A unit's ports are its random-port endpoints, a group's the ports of all its units. */
  lemma {:induction false} PortsInIs(es: seq<Endpoint>)
    ensures PortsIn(es) == |set j | 0 <= j < |es| && es[j].kind == RandomPort|
  {
    if es != [] {
      var n := |es| - 1;
      PortsInIs(es[..n]);
      var before := set j | 0 <= j < |es[..n]| && es[..n][j].kind == RandomPort;
      var all := set j | 0 <= j < |es| && es[j].kind == RandomPort;
      assert all == before + (if es[n].kind == RandomPort then {n} else {});
    }
  }

  lemma PortsAre(units: Units, es: seq<Endpoint>)
    ensures Ports([]) == 0
    ensures Ports(units + [es]) == Ports(units) + |set j | 0 <= j < |es| && es[j].kind == RandomPort|
  {
    PortsInIs(es);
    assert (units + [es])[..|units|] == units;
  }

  /** A group's leased numbers are those of its leased-IP endpoints. */
  lemma {:induction false} LeasedNumbersAre(units: Units, x: u32)
    ensures x in LeasedNumbers(units) <==> exists i :: 0 <= i < |units| && Endpoint(LeasedIp, x) in units[i]
  {
    if units != [] {
      var n := |units| - 1;
      LeasedNumbersAre(units[..n], x);
      assert forall i :: 0 <= i < n ==> units[..n][i] == units[i];
      assert x in NumbersIn(units[n]) <==> Endpoint(LeasedIp, x) in units[n];
    }
  }

  /** Deployed reservations hold their ports; reservations promise their addresses until confirmed. */
  lemma TotalsAre(rs: seq<Reservation>, r: Reservation)
    ensures Total([], PortsHeld) == 0 && Total([], IpsHeld) == 0
    ensures Total(rs + [r], PortsHeld) == Total(rs, PortsHeld) + (if r.deployed then Ports(r.units) else 0)
    ensures Total(rs + [r], IpsHeld) == Total(rs, IpsHeld) + (if r.ipsConfirmed then 0 else r.ips)
  {
    assert (rs + [r])[..|rs|] == rs;
  }

  // ---- What each case does ----

  /** Addresses are there for the asking: none asked for, or a client and enough left of the pool. */
  ghost predicate AddressesLeft(s: State, q: Request) {
    var n := |LeasedNumbers(q.units)|;
    n == 0 || (s.hasIpClient && n + s.usage.inUse + Wrap(Total(s.reservations, IpsHeld)) <= s.usage.total)
  }

  /** Exactly when a request is granted, and exactly when it is refused for which reason. */
  lemma VerdictIff(s: State, q: Request, fits: bool)
    ensures var v, n := Verdict(s, q, fits), |LeasedNumbers(q.units)|;
            && (v == Granted <==> AddressesLeft(s, q) && s.inventory && fits)
            && (v == NoLeasedIps <==> n > 0 && !s.hasIpClient)
            && (v == InsufficientIps <==> n > 0 && s.hasIpClient && !AddressesLeft(s, q))
            && (v == Crashed <==> AddressesLeft(s, q) && !s.inventory)
            && (v == InsufficientCapacity <==> AddressesLeft(s, q) && s.inventory && !fits)
  {
    LeasedNumbersBound(q.units);
    hide LeasedNumbers, Total, Wrap;
  }

  /** A reservation for what was asked, with the addresses that takes. */
  ghost predicate ReservedFor(r: Reservation, q: Request) {
    r.order == q.order && r.name == q.name && r.units == q.units && r.ips == |LeasedNumbers(q.units)|
  }

  /** A grant appends one fresh reservation for the request; nothing else happens on any verdict, but
      the crash. */
  lemma HandledExactly(s: State, q: Request, fits: bool)
    ensures var t := Handled(s, q, fits);
            && (Verdict(s, q, fits) == Granted ==>
                  && |t.reservations| == |s.reservations| + 1 && t.reservations[..|s.reservations|] == s.reservations
                  && ReservedFor(t.reservations[|s.reservations|], q) && !t.reservations[|s.reservations|].deployed
                  && t.reservations[|s.reservations|].ipsConfirmed == (|LeasedNumbers(q.units)| == 0)
                  && t == s.(reservations := t.reservations))
            && (Verdict(s, q, fits) == Crashed ==> t == s.(life := Panicked))
            && (Verdict(s, q, fits) != Granted && Verdict(s, q, fits) != Crashed ==> t == s)
  {
    hide LeasedNumbers, Verdict;
  }

  /** The entry an event is about: the first of its order, and of its group name where it has one. */
  lemma FirstIs(rs: seq<Reservation>, order: Order, name: string)
    ensures var i := First(rs, order, Some(name));
            && (i < |rs| ==> rs[i].order == order && rs[i].name == name)
            && (forall j :: 0 <= j < i ==> !(rs[j].order == order && rs[j].name == name))
    ensures var i := First(rs, order, None);
            && (i < |rs| ==> rs[i].order == order)
            && (forall j :: 0 <= j < i ==> rs[j].order != order)
  {
    hide First;
  }

  /** Whatever asks for it, a check is started where there is a client and none is under way, and
      requests wait for it; a tick asks when its timer is due. */
  lemma ChecksStart(s: State, ev: Event)
    requires s.life == Running && s.hasIpClient
    requires ev.Deployment? || ev.InventoryUpdate? || (ev.Tick? && s.timer)
    ensures var t := Step(s, ev);
            t.checking.Some? && !t.accepting && (s.checking.None? ==> t.checking.value == ConfirmItems(t.reservations))
  {
    hide First, ConfirmItems, Wrap, Ports;
  }

  /** The list but for one entry. */
  ghost predicate SameButAt(rs: seq<Reservation>, ts: seq<Reservation>, i: nat) {
    |ts| == |rs| && forall j :: 0 <= j < |rs| && j != i ==> ts[j] == rs[j]
  }

  /** The first reservation of the order and name, if any, takes the event's status; its ports move with
      it, and no other entry changes. */
  lemma DeploymentMarks(s: State, order: Order, name: string, deployed: bool)
    requires s.life == Running
    ensures var t := Step(s, Deployment(order, name, deployed));
            var i := First(s.reservations, order, Some(name));
            && t.usage == s.usage && t.inventory == s.inventory && t.life == Running
            && (i == |s.reservations| ==> t.reservations == s.reservations && t.ports == s.ports)
            && (i < |s.reservations| ==>
                  && SameButAt(s.reservations, t.reservations, i)
                  && t.reservations[i] == s.reservations[i].(deployed := deployed)
                  && t.ports == (if s.reservations[i].deployed == deployed then s.ports
                                 else Wrap(s.ports + (if deployed then -1 else 1) * Ports(s.reservations[i].units))))
  {
    hide First, UpdatedIps, Wrap, Ports;
  }

  /** The first reservation of the order, if any, is dropped and its ports come back. */
  lemma UnreserveDrops(s: State, order: Order)
    requires s.life == Running
    ensures var t := Step(s, Unreserve(order));
            var i := First(s.reservations, order, None);
            && (i == |s.reservations| ==> t == s)
            && (i < |s.reservations| ==>
                  && t.reservations == s.reservations[..i] + s.reservations[i + 1..]
                  && t == s.(reservations := t.reservations, ports := t.ports)
                  && t.ports == (if s.reservations[i].deployed then Wrap(s.ports + Ports(s.reservations[i].units))
                                 else s.ports))
  {
    hide First, Wrap, Ports;
  }

  /** A request is looked at only while requests are taken. */
  lemma ReserveExactly(s: State, q: Request, fits: bool)
    requires s.life == Running
    ensures Step(s, Reserve(q, fits)) == if s.accepting then Handled(s, q, fits) else s
  {
    hide Handled;
  }

  /** A check's answer takes over the usage and confirms the reported orders; with or without one, the
      next check is timed and requests are taken again. */
  lemma CheckDoneExactly(s: State, answer: Option<(Usage, map<Order, nat>)>)
    requires s.life == Running
    ensures var t := Step(s, CheckDone(answer));
            && (s.checking.None? ==> t == s)
            && (s.checking.Some? ==>
                  && t.checking.None? && t.timer && t.accepting && t.life == Running
                  && t.ports == s.ports && t.inventory == s.inventory
                  && (answer.None? ==> t.reservations == s.reservations && t.usage == s.usage)
                  && (answer.Some? ==>
                        && t.usage == answer.value.0
                        && t.reservations
                           == ConfirmAll(s.reservations, ConfirmedOrders(s.checking.value, answer.value.1))))
  {
    hide ConfirmAll, ConfirmedOrders;
  }

  /** An inventory, a tick and a shutdown leave reservations, ports and usage alone. */
  lemma OtherEventsExactly(s: State, ev: Event)
    requires ev.InventoryUpdate? || ev.Tick? || ev.Shutdown?
    ensures var t := Step(s, ev);
            t.reservations == s.reservations && t.ports == s.ports && t.usage == s.usage
  {
    hide ConfirmItems;
  }

  /** Only a shutdown or a crash ends the service, and a shutdown always does. */
  lemma ServiceEndsIff(s: State, ev: Event)
    requires s.life == Running
    ensures Step(s, ev).life == Stopped <==> ev.Shutdown?
    ensures Step(s, ev).life == Panicked <==>
            ev.Reserve? && s.accepting && AddressesLeft(s, ev.request) && !s.inventory
  {
    if ev.Reserve? {
      VerdictIff(s, ev.request, ev.fits);
    }
    hide Verdict, AddressesLeft, First, ConfirmAll, Total, Removed, UpdatedIps;
  }

  // ---- Where reservations come from ----

  /** Event `k` of the run granted this reservation's request, which the inventory had room for. */
  ghost predicate GrantedAt(cfg: Config, evs: seq<Event>, k: nat, r: Reservation) {
    && k < |evs| && evs[k].Reserve? && evs[k].fits && ReservedFor(r, evs[k].request)
    && var s := Exec(cfg, evs[..k]);
       s.life == Running && s.accepting && s.inventory && AddressesLeft(s, evs[k].request)
  }

  ghost predicate Traced(cfg: Config, evs: seq<Event>, r: Reservation) {
    || (exists i :: 0 <= i < |cfg.existing| && ReservedFor(r, cfg.existing[i]))
    || (exists k :: GrantedAt(cfg, evs, k, r))
  }

  /** Everything but its two flags. */
  ghost predicate SameDeal(r: Reservation, q: Reservation) {
    r.order == q.order && r.name == q.name && r.units == q.units && r.ips == q.ips
  }

  lemma {:induction false} ConfirmAllKeepsDeals(rs: seq<Reservation>, orders: seq<Order>)
    ensures |ConfirmAll(rs, orders)| == |rs|
    ensures forall i :: 0 <= i < |rs| ==>
              SameDeal(ConfirmAll(rs, orders)[i], rs[i]) && ConfirmAll(rs, orders)[i].deployed == rs[i].deployed
    decreases |orders|
  {
    hide First;
    if orders != [] {
      ConfirmAllKeepsDeals(rs, orders[..|orders| - 1]);
    }
  }

  /** Where entry `j` of a step's list comes from: an earlier entry of the same deal, or a grant. */
  lemma StepDeals(s: State, ev: Event, j: nat) returns (i: nat)
    requires j < |Step(s, ev).reservations|
    ensures || (i < |s.reservations| && SameDeal(Step(s, ev).reservations[j], s.reservations[i])
                && (Step(s, ev).reservations[j].ipsConfirmed && !s.reservations[i].ipsConfirmed ==>
                      && ev.CheckDone? && ev.answer.Some? && s.checking.Some?
                      && s.reservations[i].order in ConfirmedOrders(s.checking.value, ev.answer.value.1)))
            || (&& s.life == Running && s.accepting && s.inventory && ev.Reserve? && ev.fits
                && AddressesLeft(s, ev.request) && ReservedFor(Step(s, ev).reservations[j], ev.request)
                && (Step(s, ev).reservations[j].ipsConfirmed ==> Step(s, ev).reservations[j].ips == 0))
  {
    hide Step, First, ConfirmAll, ConfirmedOrders, LeasedNumbers, Wrap, Ports, AddressesLeft, Handled, Verdict;
    i := j;
    if s.life != Running {
      EndedStays(s, ev);
    } else {
      match ev
      case Deployment(order, name, deployed) => DeploymentMarks(s, order, name, deployed);
      case Unreserve(order) =>
        UnreserveDrops(s, order);
        var k := First(s.reservations, order, None);
        i := if k < |s.reservations| && j >= k then j + 1 else j;
      case Reserve(q, fits) =>
        ReserveExactly(s, q, fits);
        VerdictIff(s, q, fits);
        HandledExactly(s, q, fits);
      case CheckDone(answer) =>
        CheckDoneExactly(s, answer);
        if s.checking.Some? && answer.Some? {
          var orders := ConfirmedOrders(s.checking.value, answer.value.1);
          ConfirmAllKeepsDeals(s.reservations, orders);
          ConfirmAllOnly(s.reservations, orders, j);
        }
      case _ => OtherEventsExactly(s, ev);
    }
  }

  lemma TracedGrows(cfg: Config, evs: seq<Event>, ev: Event, r: Reservation, q: Reservation)
    requires Traced(cfg, evs, q) && SameDeal(r, q)
    ensures Traced(cfg, evs + [ev], r)
  {
    hide Exec, AddressesLeft, LeasedNumbers;
    if k: nat :| GrantedAt(cfg, evs, k, q) {
      assert k < |evs|;
      assert (evs + [ev])[..k] == evs[..k] && (evs + [ev])[k] == evs[k];
      assert GrantedAt(cfg, evs + [ev], k, r);
    } else {
      var i :| 0 <= i < |cfg.existing| && ReservedFor(q, cfg.existing[i]);
      assert ReservedFor(r, cfg.existing[i]);
    }
  }

  /** In every run each reservation held was there at the start or was granted by an event of the run,
      one whose request the inventory accepted and the address pool could serve. */
  lemma {:induction false} EveryReservationTraced(cfg: Config, evs: seq<Event>, j: nat)
    requires j < |Exec(cfg, evs).reservations|
    ensures Traced(cfg, evs, Exec(cfg, evs).reservations[j])
    decreases |evs|
  {
    hide Step, AddressesLeft, LeasedNumbers;
    if evs == [] {
      assert ReservedFor(Exec(cfg, evs).reservations[j], cfg.existing[j]);
    } else {
      var n := |evs| - 1;
      var s := Exec(cfg, evs[..n]);
      assert evs == evs[..n] + [evs[n]];
      var i := StepDeals(s, evs[n], j);
      if i < |s.reservations| && SameDeal(Exec(cfg, evs).reservations[j], s.reservations[i]) {
        EveryReservationTraced(cfg, evs[..n], i);
        TracedGrows(cfg, evs[..n], evs[n], Exec(cfg, evs).reservations[j], s.reservations[i]);
      } else {
        assert GrantedAt(cfg, evs, n, Exec(cfg, evs).reservations[j]);
      }
    }
  }

  // ---- Confirmation ----

  ghost predicate Unconfirmed(rs: seq<Reservation>, item: ConfirmItem) {
    exists i :: 0 <= i < |rs| && rs[i].deployed && !rs[i].ipsConfirmed && item == ConfirmItem(rs[i].order, rs[i].ips)
  }

  /** A check asks about exactly the deployed reservations that are not confirmed yet. */
  lemma {:induction false} SnapshotIff(rs: seq<Reservation>, item: ConfirmItem)
    ensures item in ConfirmItems(rs) <==> Unconfirmed(rs, item)
  {
    if rs != [] {
      var n := |rs| - 1;
      SnapshotIff(rs[..n], item);
      assert forall i :: 0 <= i < n ==> rs[..n][i] == rs[i];
    }
  }

  /** An order is reported back exactly when the operator counted the expected number for an item of it. */
  lemma {:induction false} ReportedIff(items: seq<ConfirmItem>, found: map<Order, nat>, order: Order)
    ensures order in ConfirmedOrders(items, found) <==>
            exists i :: 0 <= i < |items| && items[i].order == order
                        && order in found && Wrap(found[order]) == items[i].expected
  {
    hide Wrap;
    if items != [] {
      var n := |items| - 1;
      ReportedIff(items[..n], found, order);
      assert forall i :: 0 <= i < n ==> items[..n][i] == items[i];
    }
  }

  lemma {:induction false} ConfirmAllOnly(rs: seq<Reservation>, orders: seq<Order>, i: nat)
    requires i < |rs|
    ensures |ConfirmAll(rs, orders)| == |rs|
    ensures ConfirmAll(rs, orders)[i].ipsConfirmed ==> rs[i].ipsConfirmed || rs[i].order in orders
    ensures ConfirmAll(rs, orders)[i].order == rs[i].order
    decreases |orders|
  {
    if orders != [] {
      var n := |orders| - 1;
      ConfirmAllKeepsDeals(rs, orders[..n]);
      ConfirmAllOnly(rs, orders[..n], i);
      assert orders == orders[..n] + [orders[n]];
    }
  }

  /** A reported order has its first reservation confirmed. */
  lemma {:induction false} ConfirmAllDoes(rs: seq<Reservation>, orders: seq<Order>, order: Order)
    requires order in orders && First(rs, order, None) < |rs|
    ensures |ConfirmAll(rs, orders)| == |rs| && ConfirmAll(rs, orders)[First(rs, order, None)].ipsConfirmed
    decreases |orders|
  {
    var n := |orders| - 1;
    var before := ConfirmAll(rs, orders[..n]);
    ConfirmAllKeepsDeals(rs, orders[..n]);
    FirstSame(rs, before, orders[n]);
    FirstSame(rs, before, order);
    if order != orders[n] {
      ConfirmAllDoes(rs, orders[..n], order);
    }
  }

  lemma FirstSame(rs: seq<Reservation>, ts: seq<Reservation>, order: Order)
    requires |ts| == |rs| && forall i :: 0 <= i < |rs| ==> ts[i].order == rs[i].order
    ensures First(ts, order, None) == First(rs, order, None)
  {
    var i, j := First(rs, order, None), First(ts, order, None);
    assert i < j ==> !Matches(ts[i], order, None);
    assert j < i ==> !Matches(rs[j], order, None);
  }

  /** Event `k` of the run reported the expected number of addresses for the order. */
  ghost predicate ReportedAt(cfg: Config, evs: seq<Event>, k: nat, order: Order) {
    && k < |evs| && evs[k].CheckDone? && evs[k].answer.Some?
    && var s := Exec(cfg, evs[..k]);
       && s.checking.Some?
       && exists i :: 0 <= i < |s.checking.value| && s.checking.value[i].order == order
                      && order in evs[k].answer.value.1
                      && Wrap(evs[k].answer.value.1[order]) == s.checking.value[i].expected
  }

  /** In every run a reservation's addresses are confirmed only if a check of the run found the expected
      number for its order. */
  lemma {:induction false} ConfirmedWasReported(cfg: Config, evs: seq<Event>, j: nat) returns (k: nat)
    requires j < |Exec(cfg, evs).reservations|
    requires Exec(cfg, evs).reservations[j].ipsConfirmed && Exec(cfg, evs).reservations[j].ips > 0
    ensures ReportedAt(cfg, evs, k, Exec(cfg, evs).reservations[j].order)
    decreases |evs|
  {
    hide Step, Wrap;
    var n := |evs| - 1;
    var s := Exec(cfg, evs[..n]);
    var i := StepDeals(s, evs[n], j);
    var r := Exec(cfg, evs).reservations[j];
    if i < |s.reservations| && SameDeal(r, s.reservations[i]) && s.reservations[i].ipsConfirmed {
      k := ConfirmedWasReported(cfg, evs[..n], i);
      assert evs[..n][..k] == evs[..k];
    } else {
      k := n;
      ReportedIff(s.checking.value, evs[n].answer.value.1, r.order);
    }
  }

  /** A check in flight asks about what was deployed and unconfirmed at some earlier point of the run. */
  lemma {:induction false} CheckCameFrom(cfg: Config, evs: seq<Event>) returns (k: nat)
    requires Exec(cfg, evs).checking.Some?
    ensures k <= |evs|
    ensures forall item :: item in Exec(cfg, evs).checking.value ==> Unconfirmed(Exec(cfg, evs[..k]).reservations, item)
    decreases |evs|
  {
    hide Step, Unconfirmed;
    var n := |evs| - 1;
    var s := Exec(cfg, evs[..n]);
    StepStartsCheck(s, evs[n]);
    if s.checking.Some? {
      k := CheckCameFrom(cfg, evs[..n]);
      assert evs[..n][..k] == evs[..k];
    } else {
      k := |evs|;
      assert evs[..k] == evs;
      forall item | item in Exec(cfg, evs).checking.value ensures Unconfirmed(Exec(cfg, evs).reservations, item) {
        SnapshotIff(Exec(cfg, evs).reservations, item);
      }
    }
  }

  /** A check starts with the snapshot of its moment and is kept until it is done. */
  lemma StepStartsCheck(s: State, ev: Event)
    ensures var t := Step(s, ev);
            t.checking.Some? ==>
              if s.checking.Some? then t.checking == s.checking else t.checking.value == ConfirmItems(t.reservations)
  {
    hide First, ConfirmAll, ConfirmedOrders, LeasedNumbers, Total, Wrap, Ports, Verdict, Removed, ConfirmItems;
  }

  // ---- The gate never sticks ----

  predicate Started(evs: seq<Event>) {
    exists i :: 0 <= i < |evs| && (evs[i].Deployment? || evs[i].InventoryUpdate?)
  }

  predicate InventorySeen(evs: seq<Event>) {
    exists i :: 0 <= i < |evs| && evs[i].InventoryUpdate?
  }

  ghost predicate GateFits(s: State, started: bool) {
    if s.hasIpClient
    then && (s.accepting || s.checking.Some? <==> started) && !(s.accepting && s.checking.Some?)
         && (s.timer <==> s.accepting)
    else s.checking.None? && !s.timer && (s.accepting <==> s.inventory)
  }

  lemma StepGateFits(s: State, ev: Event, started: bool)
    requires s.life == Running && GateFits(s, started)
    ensures Step(s, ev).life == Running ==>
              GateFits(Step(s, ev), started || ev.Deployment? || ev.InventoryUpdate?)
    ensures Step(s, ev).life == Running ==> Step(s, ev).inventory == (s.inventory || ev.InventoryUpdate?)
    ensures Step(s, ev).hasIpClient == s.hasIpClient
  {
    hide First, ConfirmAll, ConfirmedOrders, LeasedNumbers, Total, Wrap, Ports, Removed, ConfirmItems;
  }

  /** In every run: with an IP client, once a deployment event or an inventory has come, either requests
      are taken and the timer for the next check runs, or a check is in flight; without one, requests are
      taken from the first inventory on. */
  lemma {:induction false} GateNeverSticks(cfg: Config, evs: seq<Event>)
    requires Exec(cfg, evs).life == Running
    ensures GateFits(Exec(cfg, evs), Started(evs)) && Exec(cfg, evs).hasIpClient == cfg.hasIpClient
    ensures Exec(cfg, evs).inventory <==> InventorySeen(evs)
    decreases |evs|
  {
    hide Step, GateFits;
    if evs == [] {
      EmptyGateFits(cfg);
    } else {
      var n := |evs| - 1;
      if Exec(cfg, evs[..n]).life != Running {
        EndedStays(Exec(cfg, evs[..n]), evs[n]);
      }
      GateNeverSticks(cfg, evs[..n]);
      StepGateFits(Exec(cfg, evs[..n]), evs[n], Started(evs[..n]));
      StartedLast(evs);
    }
  }

  lemma EmptyGateFits(cfg: Config)
    ensures GateFits(Initial(cfg), false)
  {
  }

  lemma EndedStays(s: State, ev: Event)
    requires s.life != Running
    ensures Step(s, ev) == s
  {
  }

  lemma StartedLast(evs: seq<Event>)
    requires evs != []
    ensures Started(evs) <==>
            Started(evs[..|evs| - 1]) || evs[|evs| - 1].Deployment? || evs[|evs| - 1].InventoryUpdate?
    ensures InventorySeen(evs) <==> InventorySeen(evs[..|evs| - 1]) || evs[|evs| - 1].InventoryUpdate?
  {
    var n := |evs| - 1;
    var before := evs[..n];
    assert forall i :: 0 <= i < n ==> before[i] == evs[i];
    if i :| 0 <= i < |evs| && (evs[i].Deployment? || evs[i].InventoryUpdate?) {
      assert i < n ==> before[i].Deployment? || before[i].InventoryUpdate?;
    }
    if i :| 0 <= i < n && (before[i].Deployment? || before[i].InventoryUpdate?) {
      assert evs[i].Deployment? || evs[i].InventoryUpdate?;
    }
    if i :| 0 <= i < n && before[i].InventoryUpdate? {
      assert evs[i].InventoryUpdate?;
    }
    if i :| 0 <= i < |evs| && evs[i].InventoryUpdate? {
      assert i < n ==> before[i].InventoryUpdate?;
    }
  }
}
