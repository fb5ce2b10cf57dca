/** What must have happened in an order's run before it reserves or bids. */
module OrderHistory {
  import opened Wrappers
  import opened Order

  ghost predicate Saw(turns: seq<Turn>, ev: Event) {
    exists k :: 0 <= k < |turns| && turns[k].ev == ev
  }

  lemma SawGrows(turns: seq<Turn>, ev: Event)
    requires turns != []
    ensures Saw(turns, turns[|turns| - 1].ev)
    ensures Saw(turns[..|turns| - 1], ev) ==> Saw(turns, ev)
  {
    var n := |turns| - 1;
    assert turns[n].ev == turns[n].ev;
    if k :| 0 <= k < n && turns[..n][k].ev == ev {
      assert turns[k].ev == ev;
    }
  }

  /** The run so far gave cause for every effect. */
  ghost predicate EffectsGrounded(checkExisting: bool, s: State, turns: seq<Turn>) {
    && (s.maxPrice.Some? ==> Saw(turns, GroupResult(s.maxPrice)))
    && (s.ch.cluster || s.reservation || s.fx.reserved > 0 ==> Saw(turns, EligibleResult(Some(true))))
    && (s.fx.bids != [] ==>
          && |s.fx.bids| == 1 && Saw(turns, ClusterResult(true)) && Saw(turns, PriceResult(Some(s.fx.bids[0])))
          && (checkExisting ==> Saw(turns, QueryResult(NotFound))))
    && (s.recovered ==> Saw(turns, QueryResult(Open(false))) || Saw(turns, QueryResult(Open(true))))
    && (s.won ==> Saw(turns, LeaseCreated(true, true)))
  }

  /** And for the stage it is in. */
  ghost predicate StageGrounded(checkExisting: bool, s: State, turns: seq<Turn>) {
    && (s.ch.price || s.ch.bid ==> Saw(turns, ClusterResult(true)))
    && (checkExisting && !s.ch.query && !s.recovered ==> Saw(turns, QueryResult(NotFound)))
  }

  ghost predicate Grounded(checkExisting: bool, s: State, turns: seq<Turn>) {
    EffectsGrounded(checkExisting, s, turns) && (s.life == Running ==> StageGrounded(checkExisting, s, turns))
  }

  lemma GroundedLonger(checkExisting: bool, s: State, turns: seq<Turn>)
    requires turns != [] && Grounded(checkExisting, s, turns[..|turns| - 1])
    ensures Grounded(checkExisting, s, turns)
  {
    forall ev ensures Saw(turns[..|turns| - 1], ev) ==> Saw(turns, ev) {
      SawGrows(turns, ev);
    }
    hide Saw;
  }

  lemma ReactGrounded(checkExisting: bool, s: State, turns: seq<Turn>, ev: Event)
    requires s.life == Running && Staged(s) && Grounded(checkExisting, s, turns) && Saw(turns, ev)
    ensures EffectsGrounded(checkExisting, React(s, ev).next, turns)
    ensures !React(s, ev).leave ==> StageGrounded(checkExisting, React(s, ev).next, turns)
  {
    hide Saw, Affordable;
    match ev
    case QueryResult(q) => assert q.Open? ==> ev == QueryResult(Open(true)) || ev == QueryResult(Open(false));
    case PriceResult(price) => assert price.Some? ==> price == Some(price.value);
    case _ =>
  }

  lemma StepGrounded(checkExisting: bool, s: State, turns: seq<Turn>)
    requires turns != [] && Inv(s) && Grounded(checkExisting, s, turns[..|turns| - 1])
    ensures Grounded(checkExisting, Step(s, turns[|turns| - 1]), turns)
  {
    var n := |turns| - 1;
    SawGrows(turns, Shutdown);
    GroundedLonger(checkExisting, s, turns);
    hide Saw, Affordable, React, Cleanup, Staged, Finished;
    if s.life == Running {
      ReactGrounded(checkExisting, s, turns, turns[n].ev);
      var m := React(s, turns[n].ev);
      if m.leave {
        CleanupEffects(m.next, turns[n].late);
      }
    }
  }

  lemma CleanupEffects(s: State, late: bool)
    ensures var t := Cleanup(s, late);
            && t.maxPrice == s.maxPrice && t.fx.bids == s.fx.bids && t.bidPlaced == s.bidPlaced && t.won == s.won
            && t.recovered == s.recovered && t.life == Ended
            && (t.reservation ==> s.reservation || s.ch.cluster)
            && (t.fx.reserved > 0 ==> s.fx.reserved > 0 || s.ch.cluster)
            && (t.ch.cluster ==> s.ch.cluster)
  {
  }

  lemma {:induction false} RunGrounded(cfg: Config, turns: seq<Turn>)
    ensures Grounded(cfg.checkExisting, Exec(cfg, turns), turns)
    decreases |turns|
  {
    hide Step, Grounded, Saw;
    if turns == [] {
      StartGrounded(cfg);
    } else {
      var n := |turns| - 1;
      RunGrounded(cfg, turns[..n]);
      RunKeepsInv(cfg, turns[..n]);
      StepGrounded(cfg.checkExisting, Exec(cfg, turns[..n]), turns);
    }
  }

  lemma StartGrounded(cfg: Config)
    ensures Grounded(cfg.checkExisting, Initial(cfg), [])
  {
  }

  /** In every run nothing is reserved before the order was found eligible, and no bid is sent before the
      group details, an accepting eligibility check, a granted reservation and a price have come, in the
      amount of that price; if existing bids are looked for, not before none was found either. */
  lemma BidHasItsReasons(cfg: Config, turns: seq<Turn>)
    ensures var s := Exec(cfg, turns);
            && (s.fx.reserved > 0 ==> Saw(turns, EligibleResult(Some(true))))
            && (s.fx.bids != [] ==>
                  && s.maxPrice.Some? && Saw(turns, GroupResult(s.maxPrice))
                  && Saw(turns, EligibleResult(Some(true))) && Saw(turns, ClusterResult(true))
                  && Saw(turns, PriceResult(Some(s.fx.bids[0])))
                  && (cfg.checkExisting ==> Saw(turns, QueryResult(NotFound))))
            && (s.won ==> Saw(turns, LeaseCreated(true, true)))
  {
    hide Exec, Saw;
    RunGrounded(cfg, turns);
    BidAtMostOnce(cfg, turns);
  }
}
