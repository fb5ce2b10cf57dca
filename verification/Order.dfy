/** An order's bidding pipeline: group details, eligibility, reservation, price, bid, each a one-shot
    result on a nil-able channel, and the cleanup that ends every run. */
module Order {
  import opened Wrappers

  datatype Price = Price(denom: string, amount: int)

  datatype Config = Config(checkExisting: bool, timeoutEnabled: bool)

  datatype Life = Running | Ended

  /** The nil-able channels: which results the loop is waiting for. `hiddenGroup` keeps the group
      details back until the query for an existing bid has been answered. */
  datatype Channels = Channels(
    query: bool, group: bool, hiddenGroup: bool, eligible: bool, cluster: bool, price: bool, bid: bool, timeout: bool)

  /** Effects outside the order: create-bid and close-bid transactions, reservations granted and given back. */
  datatype Effects = Effects(bids: seq<Price>, closes: nat, reserved: nat, unreserved: nat)

  /** `maxPrice` comes with the group details; `recovered` says that an open bid was found. */
  datatype State = State(
    timeoutEnabled: bool, ch: Channels, maxPrice: Option<Price>, reservation: bool, bidPlaced: bool, recovered: bool,
    won: bool, life: Life, fx: Effects)

  datatype Query = NotFound | QueryError | NotOpen | Open(stale: bool)

  datatype Event =
    | Shutdown
    | QueryResult(query: Query)
    | LeaseCreated(sameGroup: bool, ours: bool)
    | OrderClosed(same: bool)
    | BidClosed(ours: bool)
    | GroupResult(maxPrice: Option<Price>)
    | EligibleResult(accept: Option<bool>)
    | ClusterResult(granted: bool)
    | PriceResult(price: Option<Price>)
    | BidResult(accepted: bool)
    | Timeout

  /** One turn of the loop. Should it end the loop while a reservation is being made, `late` is how
      that reservation turns out. */
  datatype Turn = Turn(ev: Event, late: bool)

  // ---- The loop on values ----

  /** A reservation still being made is waited for; a won order has no use for its outcome. */
  function Awaited(s: State, late: bool): State {
    if !s.ch.cluster then s
    else
      var fx := if late then s.fx.(reserved := s.fx.reserved + 1) else s.fx;
      if s.won then s.(fx := fx)
      else s.(fx := fx, ch := s.ch.(cluster := false), reservation := s.reservation || late)
  }

  function GivenBack(s: State): State {
    if s.won || !s.reservation then s else s.(fx := s.fx.(unreserved := s.fx.unreserved + 1))
  }

  function Withdrawn(s: State): State {
    if s.won || !s.bidPlaced then s else s.(fx := s.fx.(closes := s.fx.closes + 1))
  }

  /** Leaving the loop: unless the lease was won, wait for a reservation under way, give back what
      was reserved, and close the bid. */
  function Cleanup(s: State, late: bool): State {
    Withdrawn(GivenBack(Awaited(s.(life := Ended), late)))
  }

  predicate Affordable(maxPrice: Option<Price>, price: Price) {
    maxPrice.Some? && maxPrice.value.denom == price.denom && price.amount <= maxPrice.value.amount
  }

  predicate SameFlags(s: State, t: State) {
    t.won == s.won && t.bidPlaced == s.bidPlaced && t.recovered == s.recovered
  }

  /** A turn's new state, and whether it leaves the loop. A case on a nil channel never fires. */
  datatype Move = Move(next: State, leave: bool)

  /** Lets the group details through that were held back during the query. */
  function Shown(c: Channels): Channels {
    c.(group := c.hiddenGroup, hiddenGroup := false)
  }

  function AfterOpenBid(s: State, stale: bool): Move {
    Move(s.(bidPlaced := true, recovered := true,
            ch := if stale then s.ch else Shown(s.ch).(timeout := s.timeoutEnabled)), stale)
  }

  function AfterQuery(s: State, q: Query): Move {
    if !s.ch.query then Move(s, false)
    else
      var t := s.(ch := s.ch.(query := false));
      match q
      case NotFound => Move(t.(ch := Shown(t.ch)), false)
      case Open(stale) => AfterOpenBid(t, stale)
      case _ => Move(t, true)
  }

  function AfterChainEvent(s: State, ev: Event): Move {
    match ev
    case LeaseCreated(sameGroup, ours) =>
      if !sameGroup then Move(s, false)
      else if ours then Move(s.(won := true), true)
      else Move(s.(bidPlaced := s.bidPlaced || s.ch.bid), true)
    case OrderClosed(same) => Move(s, same)
    case BidClosed(ours) => if s.won || !ours then Move(s, false) else Move(s.(bidPlaced := false), true)
    case _ => Move(s, false)
  }

  function AfterGroup(s: State, maxPrice: Option<Price>): (m: Move)
    ensures SameFlags(s, m.next)
  {
    if !s.ch.group then Move(s, false)
    else if maxPrice.None? then Move(s.(ch := s.ch.(group := false)), true)
    else Move(s.(ch := s.ch.(group := false, eligible := true), maxPrice := maxPrice), false)
  }

  function AfterEligible(s: State, accept: Option<bool>): (m: Move)
    ensures SameFlags(s, m.next)
  {
    if !s.ch.eligible then Move(s, false)
    else if accept != Some(true) then Move(s.(ch := s.ch.(eligible := false)), true)
    else Move(s.(ch := s.ch.(eligible := false, cluster := true)), false)
  }

  function AfterCluster(s: State, granted: bool): (m: Move)
    ensures SameFlags(s, m.next)
  {
    if !s.ch.cluster then Move(s, false)
    else
      var c := s.ch.(cluster := false);
      if !granted then Move(s.(ch := c), true)
      else Move(s.(ch := if s.bidPlaced then c else c.(price := true), reservation := true,
                   fx := s.fx.(reserved := s.fx.reserved + 1)), false)
  }

  function AfterPrice(s: State, price: Option<Price>): (m: Move)
    ensures SameFlags(s, m.next)
  {
    if !s.ch.price then Move(s, false)
    else
      var c := s.ch.(price := false);
      if price.None? || !Affordable(s.maxPrice, price.value) then Move(s.(ch := c), true)
      else Move(s.(ch := c.(bid := true), fx := s.fx.(bids := s.fx.bids + [price.value])), false)
  }

  function AfterBid(s: State, accepted: bool): (m: Move)
    ensures m.leave ==> SameFlags(s, m.next)
  {
    if !s.ch.bid then Move(s, false)
    else
      var c := s.ch.(bid := false);
      if !accepted then Move(s.(ch := c), true)
      else Move(s.(ch := c.(timeout := s.timeoutEnabled), bidPlaced := true), false)
  }

  function React(s: State, ev: Event): Move {
    match ev
    case Shutdown => Move(s, true)
    case QueryResult(q) => AfterQuery(s, q)
    case LeaseCreated(_, _) => AfterChainEvent(s, ev)
    case OrderClosed(_) => AfterChainEvent(s, ev)
    case BidClosed(_) => AfterChainEvent(s, ev)
    case GroupResult(maxPrice) => AfterGroup(s, maxPrice)
    case EligibleResult(accept) => AfterEligible(s, accept)
    case ClusterResult(granted) => AfterCluster(s, granted)
    case PriceResult(price) => AfterPrice(s, price)
    case BidResult(accepted) => AfterBid(s, accepted)
    case Timeout => Move(s, s.ch.timeout)
  }

  function Step(s: State, turn: Turn): State {
    if s.life == Ended then s
    else
      var m := React(s, turn.ev);
      if m.leave then Cleanup(m.next, turn.late) else m.next
  }

  function Initial(cfg: Config): State {
    State(cfg.timeoutEnabled,
          Channels(cfg.checkExisting, !cfg.checkExisting, cfg.checkExisting, false, false, false, false, false),
          None, false, false, false, false, Running, Effects([], 0, 0, 0))
  }

  function Exec(cfg: Config, turns: seq<Turn>): State {
    if turns == [] then Initial(cfg) else Step(Exec(cfg, turns[..|turns| - 1]), turns[|turns| - 1])
  }

  // ---- The order as an object ----

  class OrderLoop {
    const timeoutEnabled: bool
    var ch: Channels
    var maxPrice: Option<Price>
    var reservation: bool
    var bidPlaced: bool
    var recovered: bool
    var won: bool
    var life: Life
    var fx: Effects

    function View(): State
      reads this
    {
      State(timeoutEnabled, ch, maxPrice, reservation, bidPlaced, recovered, won, life, fx)
    }

    constructor (cfg: Config)
      ensures View() == Initial(cfg)
    {
      timeoutEnabled := cfg.timeoutEnabled;
      ch := Channels(cfg.checkExisting, !cfg.checkExisting, cfg.checkExisting, false, false, false, false, false);
      maxPrice, reservation, bidPlaced, recovered, won, life := None, false, false, false, false, Running;
      fx := Effects([], 0, 0, 0);
    }

    method OnQuery(q: Query) returns (leave: bool)
      modifies this`ch, this`bidPlaced, this`recovered
      ensures Move(View(), leave) == AfterQuery(old(View()), q)
    {
      hide AfterOpenBid, Shown;
      if !ch.query {
        return false;
      }
      ch := ch.(query := false);
      match q
      case QueryError => leave := true;
      case NotOpen => leave := true;
      case NotFound =>
        ch := Shown(ch);
        leave := false;
      case Open(stale) => leave := OnOpenBid(stale);
    }

    method OnOpenBid(stale: bool) returns (leave: bool)
      modifies this`ch, this`bidPlaced, this`recovered
      ensures Move(View(), leave) == AfterOpenBid(old(View()), stale)
    {
      bidPlaced, recovered, leave := true, true, stale;
      if !stale {
        ch := Shown(ch).(timeout := timeoutEnabled);
      }
    }

    method OnChainEvent(ev: Event) returns (leave: bool)
      requires ev.LeaseCreated? || ev.OrderClosed? || ev.BidClosed?
      modifies this`bidPlaced, this`won
      ensures Move(View(), leave) == AfterChainEvent(old(View()), ev)
    {
      match ev
      case LeaseCreated(sameGroup, ours) =>
        leave := sameGroup;
        if sameGroup && !ours {
          if ch.bid {
            bidPlaced := true;
          }
        } else if sameGroup {
          won := true;
        }
      case OrderClosed(same) => leave := same;
      case BidClosed(ours) =>
        leave := !won && ours;
        if leave {
          bidPlaced := false;
        }
    }

    method OnGroup(max: Option<Price>) returns (leave: bool)
      modifies this`ch, this`maxPrice
      ensures Move(View(), leave) == AfterGroup(old(View()), max)
    {
      if !ch.group {
        return false;
      }
      if max.None? {
        ch := ch.(group := false);
        return true;
      }
      ch, maxPrice := ch.(group := false, eligible := true), max;
      leave := false;
    }

    method OnEligible(accept: Option<bool>) returns (leave: bool)
      modifies this`ch
      ensures Move(View(), leave) == AfterEligible(old(View()), accept)
    {
      if !ch.eligible {
        return false;
      }
      ch := ch.(eligible := false);
      leave := accept != Some(true);
      if !leave {
        ch := ch.(cluster := true);
      }
    }

    method OnCluster(granted: bool) returns (leave: bool)
      modifies this`ch, this`reservation, this`fx
      ensures Move(View(), leave) == AfterCluster(old(View()), granted)
    {
      if !ch.cluster {
        return false;
      }
      ch := ch.(cluster := false);
      leave := !granted;
      if granted {
        reservation := true;
        fx := fx.(reserved := fx.reserved + 1);
        if !bidPlaced {
          ch := ch.(price := true);
        }
      }
    }

    method OnPrice(price: Option<Price>) returns (leave: bool)
      modifies this`ch, this`fx
      ensures Move(View(), leave) == AfterPrice(old(View()), price)
    {
      if !ch.price {
        return false;
      }
      ch := ch.(price := false);
      leave := price.None? || !Affordable(maxPrice, price.value);
      if !leave {
        fx := fx.(bids := fx.bids + [price.value]);
        ch := ch.(bid := true);
      }
    }

    method OnBid(accepted: bool) returns (leave: bool)
      modifies this`ch, this`bidPlaced
      ensures Move(View(), leave) == AfterBid(old(View()), accepted)
    {
      if !ch.bid {
        return false;
      }
      ch := ch.(bid := false);
      leave := !accepted;
      if accepted {
        bidPlaced := true;
        ch := ch.(timeout := timeoutEnabled);
      }
    }

    method AwaitReservation(late: bool)
      modifies this`ch, this`reservation, this`fx
      ensures View() == Awaited(old(View()), late)
    {
      if ch.cluster {
        if late {
          fx := fx.(reserved := fx.reserved + 1);
        }
        if !won {
          ch := ch.(cluster := false);
          reservation := reservation || late;
        }
      }
    }

    method CleanUp(late: bool)
      modifies this
      ensures View() == Cleanup(old(View()), late)
    {
      hide Awaited;
      life := Ended;
      AwaitReservation(late);
      if !won {
        if reservation {
          fx := fx.(unreserved := fx.unreserved + 1);
        }
        if bidPlaced {
          fx := fx.(closes := fx.closes + 1);
        }
      }
    }

    /** One turn of the select loop, and the cleanup if it was the last. */
    method Select(turn: Turn)
      modifies this
      ensures View() == Step(old(View()), turn)
    {
      hide Cleanup;
      if life == Ended {
        return;
      }
      var leave: bool;
      match turn.ev {
        case Shutdown => leave := true;
        case Timeout => leave := ch.timeout;
        case QueryResult(q) => leave := OnQuery(q);
        case LeaseCreated(_, _) => leave := OnChainEvent(turn.ev);
        case OrderClosed(_) => leave := OnChainEvent(turn.ev);
        case BidClosed(_) => leave := OnChainEvent(turn.ev);
        case GroupResult(max) => leave := OnGroup(max);
        case EligibleResult(accept) => leave := OnEligible(accept);
        case ClusterResult(granted) => leave := OnCluster(granted);
        case PriceResult(price) => leave := OnPrice(price);
        case BidResult(accepted) => leave := OnBid(accepted);
      }
      if leave {
        CleanUp(turn.late);
      }
    }
  }

  // ---- Every run ----

  function One(b: bool): nat {
    if b then 1 else 0
  }

  /** How many stages are under way. */
  function Stages(c: Channels): nat {
    One(c.query) + One(c.group) + One(c.eligible) + One(c.cluster) + One(c.price) + One(c.bid)
  }

  /** The pipeline while it runs: one stage at a time, and each effect at most once. */
  ghost predicate Staged(s: State) {
    var c := s.ch;
    && (Stages(c) == 1 || (Stages(c) == 0 && s.bidPlaced && s.reservation))
    && (c.query <==> c.hiddenGroup)
    && (c.eligible || c.cluster || c.price || c.bid || s.reservation ==> s.maxPrice.Some?)
    && (c.query || c.group || c.eligible || c.cluster ==> !s.reservation)
    && (c.query || c.group ==> s.maxPrice.None?)
    && (c.price || c.bid ==> s.reservation && !s.bidPlaced)
    && (c.query || c.group || c.eligible || c.cluster || c.price ==> s.fx.bids == [])
    && (s.fx.bids != [] ==> s.reservation && !s.recovered && |s.fx.bids| == 1 && Affordable(s.maxPrice, s.fx.bids[0]))
    && (s.bidPlaced <==> s.recovered || (s.fx.bids != [] && !c.bid))
    && (c.bid ==> s.fx.bids != [])
    && (s.recovered ==> !c.query && s.fx.bids == [])
    && (c.timeout <==> s.timeoutEnabled && s.bidPlaced)
    && s.fx.reserved == One(s.reservation)
    && s.fx.unreserved == 0 && s.fx.closes == 0
    && !s.won
  }

  /** What holds once the loop has been left. */
  ghost predicate Finished(s: State) {
    && |s.fx.bids| <= 1
    && (s.fx.bids != [] ==> s.fx.reserved == 1 && !s.recovered && Affordable(s.maxPrice, s.fx.bids[0]))
    && s.fx.reserved <= 1
    && s.fx.unreserved == (if s.won then 0 else s.fx.reserved)
    && s.fx.closes == (if s.won then 0 else One(s.bidPlaced))
  }

  ghost predicate Inv(s: State) {
    if s.life == Running then Staged(s) else Finished(s)
  }

  lemma CleanupFinishes(s: State, late: bool)
    requires s.fx.reserved == One(s.reservation) && s.fx.unreserved == 0 && s.fx.closes == 0
    requires s.ch.cluster ==> !s.reservation
    requires |s.fx.bids| <= 1
    requires s.fx.bids != [] ==> s.reservation && !s.recovered && Affordable(s.maxPrice, s.fx.bids[0])
    ensures Finished(Cleanup(s, late)) && Cleanup(s, late).life == Ended
  {
  }

  /** A turn that stays keeps the pipeline's invariant; one that leaves is fit for the cleanup. */
  ghost predicate Kept(m: Move) {
    var t := m.next;
    && t.life == Running
    && (!m.leave ==> Staged(t))
    && t.fx.reserved == One(t.reservation) && t.fx.unreserved == 0 && t.fx.closes == 0
    && (t.ch.cluster ==> !t.reservation)
    && |t.fx.bids| <= 1
    && (t.fx.bids != [] ==> t.reservation && !t.recovered && Affordable(t.maxPrice, t.fx.bids[0]))
  }

  lemma ResultsKeep(s: State, q: Query, maxPrice: Option<Price>, accept: Option<bool>, ok: bool)
    requires s.life == Running && Staged(s)
    ensures Kept(AfterQuery(s, q))
    ensures Kept(AfterGroup(s, maxPrice))
    ensures Kept(AfterEligible(s, accept))
    ensures Kept(AfterCluster(s, ok))
    ensures Kept(AfterBid(s, ok))
  {
    hide Affordable;
  }

  lemma PriceKeeps(s: State, price: Option<Price>)
    requires s.life == Running && Staged(s)
    ensures Kept(AfterPrice(s, price))
  {
  }

  lemma ChainEventKeeps(s: State, ev: Event, leave: bool)
    requires s.life == Running && Staged(s)
    ensures Kept(AfterChainEvent(s, ev)) && Kept(Move(s, leave))
  {
    hide Affordable;
  }

  lemma ReactKeeps(s: State, ev: Event)
    requires s.life == Running && Staged(s)
    ensures Kept(React(s, ev))
  {
    hide AfterQuery, AfterChainEvent, AfterGroup, AfterEligible, AfterCluster, AfterPrice, AfterBid, Staged, Kept;
    match ev
    case QueryResult(q) => ResultsKeep(s, q, None, None, true);
    case GroupResult(maxPrice) => ResultsKeep(s, NotFound, maxPrice, None, true);
    case EligibleResult(accept) => ResultsKeep(s, NotFound, None, accept, true);
    case ClusterResult(ok) => ResultsKeep(s, NotFound, None, None, ok);
    case BidResult(ok) => ResultsKeep(s, NotFound, None, None, ok);
    case PriceResult(price) => PriceKeeps(s, price);
    case _ => ChainEventKeeps(s, ev, React(s, ev).leave);
  }

  lemma StepKeepsInv(s: State, turn: Turn)
    requires Inv(s)
    ensures Inv(Step(s, turn))
  {
    hide React, Cleanup, Affordable, Finished, Staged;
    if s.life == Running {
      ReactKeeps(s, turn.ev);
      var m := React(s, turn.ev);
      if m.leave {
        CleanupFinishes(m.next, turn.late);
      }
    }
  }

  lemma {:induction false} RunKeepsInv(cfg: Config, turns: seq<Turn>)
    ensures Inv(Exec(cfg, turns))
    decreases |turns|
  {
    hide Step;
    if turns != [] {
      RunKeepsInv(cfg, turns[..|turns| - 1]);
      StepKeepsInv(Exec(cfg, turns[..|turns| - 1]), turns[|turns| - 1]);
    }
  }

  /** In every run an order that goes on awaits the result of exactly one stage, or has its bid placed
      and its resources reserved; a placed bid has its timeout running if there is one. */
  lemma NeverStuck(cfg: Config, turns: seq<Turn>)
    requires Exec(cfg, turns).life == Running
    ensures var c, s := Exec(cfg, turns).ch, Exec(cfg, turns);
            && (Stages(c) == 1 || (Stages(c) == 0 && s.bidPlaced && s.reservation))
            && (c.timeout <==> s.timeoutEnabled && s.bidPlaced)
  {
    hide Step, Exec;
    RunKeepsInv(cfg, turns);
  }

  /** The events that end a run, given what it is waiting for. */
  ghost predicate Ends(s: State, ev: Event) {
    match ev
    case Shutdown => true
    case Timeout => s.ch.timeout
    case LeaseCreated(sameGroup, _) => sameGroup
    case OrderClosed(same) => same
    case BidClosed(ours) => ours
    case QueryResult(q) => s.ch.query && q != NotFound && q != Open(false)
    case GroupResult(maxPrice) => s.ch.group && maxPrice == None
    case EligibleResult(accept) => s.ch.eligible && accept != Some(true)
    case ClusterResult(granted) => s.ch.cluster && !granted
    case PriceResult(price) =>
      s.ch.price && !(price.Some? && s.maxPrice.Some? && price.value.denom == s.maxPrice.value.denom
                      && price.value.amount <= s.maxPrice.value.amount)
    case BidResult(accepted) => s.ch.bid && !accepted
  }

  lemma RunEndsIff(cfg: Config, turns: seq<Turn>, turn: Turn)
    requires Exec(cfg, turns).life == Running
    ensures Step(Exec(cfg, turns), turn).life == Ended <==> Ends(Exec(cfg, turns), turn.ev)
  {
    hide Exec;
    RunKeepsInv(cfg, turns);
    var s := Exec(cfg, turns);
    CleanupKeepsFlags(React(s, turn.ev).next, turn.late);
    ReactKeeps(s, turn.ev);
    hide Staged, Cleanup;
  }

  /** Each result that does not end the run starts the next stage. */
  lemma StageAdvances(cfg: Config, turns: seq<Turn>, turn: Turn)
    requires Exec(cfg, turns).life == Running && Step(Exec(cfg, turns), turn).life == Running
    ensures var s, t := Exec(cfg, turns), Step(Exec(cfg, turns), turn);
            && (s.ch.query && turn.ev.QueryResult? ==> t.ch.group && t.bidPlaced == turn.ev.query.Open?)
            && (s.ch.group && turn.ev.GroupResult? ==> t.ch.eligible && t.maxPrice == turn.ev.maxPrice)
            && (s.ch.eligible && turn.ev.EligibleResult? ==> t.ch.cluster)
            && (s.ch.cluster && turn.ev.ClusterResult? ==> t.reservation && (t.ch.price <==> !s.bidPlaced))
            && (s.ch.price && turn.ev.PriceResult? ==>
                  t.ch.bid && turn.ev.price.Some? && t.fx.bids == [turn.ev.price.value])
            && (s.ch.bid && turn.ev.BidResult? ==> t.bidPlaced)
  {
    hide Exec, Affordable;
    RunKeepsInv(cfg, turns);
  }

  /** In every run at most one create-bid is broadcast, only after a reservation was granted, never
      over a recovered open bid, and at a price within the group's maximum in its denomination. */
  lemma BidAtMostOnce(cfg: Config, turns: seq<Turn>)
    ensures var s := Exec(cfg, turns);
            && |s.fx.bids| <= 1
            && (s.fx.bids != [] ==>
                  && s.fx.reserved == 1 && !s.recovered && s.maxPrice.Some?
                  && s.fx.bids[0].denom == s.maxPrice.value.denom && s.fx.bids[0].amount <= s.maxPrice.value.amount)
  {
    hide Step, Exec;
    RunKeepsInv(cfg, turns);
  }

  /** Every granted reservation is given back exactly once, when the run ends, unless the lease is
      won; then, and while the order runs, never. */
  lemma ReservationReleasedOnce(cfg: Config, turns: seq<Turn>)
    ensures var s := Exec(cfg, turns);
            && s.fx.reserved <= 1
            && s.fx.unreserved == (if s.life == Running || s.won then 0 else s.fx.reserved)
  {
    hide Step, Exec;
    RunKeepsInv(cfg, turns);
  }

  /** At most one close is ever sent, and none while the order runs or for a won lease. */
  lemma CloseAtMostOnce(cfg: Config, turns: seq<Turn>)
    ensures var s := Exec(cfg, turns);
            s.fx.closes <= 1 && (s.fx.closes == 1 ==> s.life == Ended && !s.won)
  {
    hide Step, Exec;
    RunKeepsInv(cfg, turns);
  }

  predicate LeaseLost(ev: Event) {
    ev.LeaseCreated? && ev.sameGroup && !ev.ours
  }

  predicate LeaseWon(ev: Event) {
    ev.LeaseCreated? && ev.sameGroup && ev.ours
  }

  /** The last turn settles the flags that the cleanup goes by: won only by a won lease, and the bid
      placed unless reported closed, also for a transaction in flight when the lease is lost and for
      a stale bid just found. */
  lemma LastTurnFlags(s: State, turn: Turn)
    requires s.life == Running && Staged(s) && Step(s, turn).life == Ended
    ensures var t := Step(s, turn);
            var stale := s.ch.query && turn.ev == QueryResult(Open(true));
            && (t.won <==> LeaseWon(turn.ev))
            && (t.recovered <==> s.recovered || stale)
            && (t.bidPlaced <==>
                  turn.ev != BidClosed(true) && (s.bidPlaced || stale || (LeaseLost(turn.ev) && s.ch.bid)))
            && t.fx.closes == (if t.won then 0 else One(t.bidPlaced))
  {
    hide React, Cleanup, Finished, Staged;
    assert !s.won && !(s.ch.query && s.recovered) by { StagedFlags(s); }
    StepKeepsInv(s, turn);
    ReactKeeps(s, turn.ev);
    ReactFlags(s, turn.ev);
    CleanupKeepsFlags(React(s, turn.ev).next, turn.late);
    FinishedCloses(Step(s, turn));
  }

  lemma StagedFlags(s: State)
    requires Staged(s)
    ensures !s.won && !(s.ch.query && s.recovered)
  {
  }

  lemma FinishedCloses(s: State)
    requires Finished(s)
    ensures s.fx.closes == (if s.won then 0 else One(s.bidPlaced))
  {
  }

  lemma ReactFlags(s: State, ev: Event)
    requires !s.won && React(s, ev).leave
    ensures var t := React(s, ev).next;
            var stale := s.ch.query && ev == QueryResult(Open(true));
            && (t.won <==> LeaseWon(ev))
            && (t.recovered <==> s.recovered || stale)
            && (t.bidPlaced <==> ev != BidClosed(true) && (s.bidPlaced || stale || (LeaseLost(ev) && s.ch.bid)))
  {
    hide AfterGroup, AfterEligible, AfterCluster, AfterPrice, AfterBid;
  }

  lemma CleanupKeepsFlags(s: State, late: bool)
    ensures var t := Cleanup(s, late);
            t.won == s.won && t.bidPlaced == s.bidPlaced && t.recovered == s.recovered && t.life == Ended
  {
  }

  /** A lost lease always ends the run with a close for a placed or in-flight bid, and only for one. */
  lemma LostLeaseCloses(cfg: Config, turns: seq<Turn>, turn: Turn)
    requires Exec(cfg, turns).life == Running && LeaseLost(turn.ev)
    ensures var s := Exec(cfg, turns);
            var t := Step(s, turn);
            && t.life == Ended
            && (t.fx.closes == 1 <==> s.bidPlaced || s.ch.bid)
  {
    hide Exec, Affordable, Cleanup;
    CleanupKeepsFlags(React(Exec(cfg, turns), turn.ev).next, turn.late);
    RunKeepsInv(cfg, turns);
    LastTurnFlags(Exec(cfg, turns), turn);
  }

  /** The bid whose transaction was sent, and which is not known to have failed or to be closed. */
  predicate Outstanding(s: State, ev: Event) {
    && s.fx.bids != []
    && !(ev == BidClosed(true))
    && !(s.ch.bid && ev == BidResult(false))
  }

  /** Whenever a run ends without winning, an outstanding bid is closed exactly when its transaction
      had been confirmed or the lease was lost: an order closed, or a shutdown, while the transaction
      is still in flight sends no close. */
  lemma OutstandingBidClosedIff(cfg: Config, turns: seq<Turn>, turn: Turn)
    requires Exec(cfg, turns).life == Running && Step(Exec(cfg, turns), turn).life == Ended
    requires Outstanding(Exec(cfg, turns), turn.ev) && !LeaseWon(turn.ev)
    ensures Step(Exec(cfg, turns), turn).fx.closes == 1 <==> !Exec(cfg, turns).ch.bid || LeaseLost(turn.ev)
  {
    hide Exec, Step, Affordable;
    RunKeepsInv(cfg, turns);
    LastTurnFlags(Exec(cfg, turns), turn);
  }

  /** An in-flight bid that a shutdown leaves behind. */
  lemma ShutdownLeavesBidInFlight()
    ensures var p := Price("uakt", 1);
            var turns := [Turn(GroupResult(Some(p)), false), Turn(EligibleResult(Some(true)), false),
                          Turn(ClusterResult(true), false), Turn(PriceResult(Some(p)), false), Turn(Shutdown, false)];
            var s := Exec(Config(false, true), turns);
            s.life == Ended && !s.won && s.fx.bids == [p] && s.ch.bid && s.fx.closes == 0
  {
    var cfg := Config(false, true);
    var p := Price("uakt", 1);
    var turns := BidInFlight(cfg, p);
    var end := Turn(Shutdown, false);
    ExecOne(cfg, turns, end);
    hide Exec;
    assert turns + [end] == [turns[0], turns[1], turns[2], turns[3], end];
  }

  lemma BidInFlight(cfg: Config, p: Price) returns (turns: seq<Turn>)
    requires !cfg.checkExisting
    ensures turns == [Turn(GroupResult(Some(p)), false), Turn(EligibleResult(Some(true)), false),
                      Turn(ClusterResult(true), false), Turn(PriceResult(Some(p)), false)]
    ensures var s := Exec(cfg, turns);
            s.life == Running && !s.won && s.fx.bids == [p] && s.ch.bid && !s.bidPlaced && s.fx.closes == 0
  {
    var t0, t1 := Turn(GroupResult(Some(p)), false), Turn(EligibleResult(Some(true)), false);
    var t2, t3 := Turn(ClusterResult(true), false), Turn(PriceResult(Some(p)), false);
    ExecNone(cfg);
    ExecOne(cfg, [], t0);
    ExecOne(cfg, [t0], t1);
    ExecOne(cfg, [t0, t1], t2);
    ExecOne(cfg, [t0, t1, t2], t3);
    hide Exec, AfterQuery, AfterChainEvent, AfterBid, Cleanup;
    assert [] + [t0] == [t0] && [t0] + [t1] == [t0, t1] && [t0, t1] + [t2] == [t0, t1, t2];
    assert [t0, t1, t2] + [t3] == [t0, t1, t2, t3];
    var s0 := Exec(cfg, [t0]);
    assert s0 == Initial(cfg).(ch := s0.ch, maxPrice := Some(p)) && s0.ch.eligible;
    turns := [t0, t1, t2, t3];
  }

  lemma ExecNone(cfg: Config)
    ensures Exec(cfg, []) == Initial(cfg)
  {
  }

  lemma ExecOne(cfg: Config, turns: seq<Turn>, turn: Turn)
    ensures Exec(cfg, turns + [turn]) == Step(Exec(cfg, turns), turn)
  {
    assert (turns + [turn])[..|turns|] == turns;
  }

  /** A recovered open bid is closed on every way out but a win or a report that it is closed already. */
  lemma RecoveredBidClosedIff(cfg: Config, turns: seq<Turn>, turn: Turn)
    requires Exec(cfg, turns).life == Running && Step(Exec(cfg, turns), turn).life == Ended
    requires Step(Exec(cfg, turns), turn).recovered
    ensures Step(Exec(cfg, turns), turn).fx.closes == 1 <==> !LeaseWon(turn.ev) && turn.ev != BidClosed(true)
  {
    hide Exec, Step, Affordable;
    RunKeepsInv(cfg, turns);
    LastTurnFlags(Exec(cfg, turns), turn);
  }

  /** A bid on the chain that the order has not yet read is not closed: an ending that comes while the
      query is unanswered sends nothing. */
  lemma UnreadBidIsNotClosed(cfg: Config, turns: seq<Turn>, turn: Turn)
    requires Exec(cfg, turns).life == Running && Step(Exec(cfg, turns), turn).life == Ended
    requires Exec(cfg, turns).ch.query && !turn.ev.QueryResult?
    ensures Step(Exec(cfg, turns), turn).fx.closes == 0
  {
    hide Exec, Step, Affordable;
    RunKeepsInv(cfg, turns);
    LastTurnFlags(Exec(cfg, turns), turn);
  }

  /** A timeout fires only on a placed bid, so it always ends in a close. */
  lemma TimeoutCloses(cfg: Config, turns: seq<Turn>, late: bool)
    requires Exec(cfg, turns).life == Running && Exec(cfg, turns).ch.timeout
    ensures Step(Exec(cfg, turns), Turn(Timeout, late)).fx.closes == 1
  {
    hide Exec;
    RunKeepsInv(cfg, turns);
  }
}
