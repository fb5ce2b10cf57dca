/** Why each request of a manifest manager ended as it did, on what data, and where every publication
    comes from, over a whole run. */
module ManifestHistory {
  import opened Wrappers
  import opened Manifest

  // ---- One request ----

  function Finding(checks: Checks, id: nat): Check {
    if id in checks then checks[id] else Fine
  }

  /** Exactly which verdict validation gives: only a fine document of the expected version is accepted. */
  lemma JudgeIff(version: Versioning, expected: Version, r: Request, checks: Checks)
    ensures var j, f, same := Judge(version, expected, r, checks), Finding(checks, r.id), version(r.doc) == expected;
            && (j == None <==> f == Fine && same)
            && (j == Some(Dropped) <==> f == Cancelled)
            && (j == Some(Invalid) <==> f == Malformed || (f == Refused && same))
            && (j == Some(VersionMismatch) <==> (f == Fine || f == Refused) && !same)
            && (j.Some? ==> j.value == Dropped || j.value == Invalid || j.value == VersionMismatch)
  {
  }

  lemma {:induction false} RejectedComeFrom(
    version: Versioning, expected: Version, rs: seq<Request>, checks: Checks, k: nat)
    requires k < |Rejections(version, expected, rs, checks)|
    ensures var o := Rejections(version, expected, rs, checks)[k];
            exists r :: r in rs && o.id == r.id && Judge(version, expected, r, checks) == Some(o.verdict)
  {
    hide Judge;
    var n := |rs| - 1;
    var all := Rejections(version, expected, rs, checks);
    if k < |Rejections(version, expected, rs[..n], checks)| {
      RejectedComeFrom(version, expected, rs[..n], checks, k);
      var r :| r in rs[..n] && all[k].id == r.id && Judge(version, expected, r, checks) == Some(all[k].verdict);
      assert r in rs;
    } else {
      assert rs[n] in rs;
    }
  }

  // ---- Why a request ended ----

  /** The request's own document, as it arrived. */
  ghost predicate Arrives(t: State, id: nat, doc: Document) {
    id < |t.arrivals| && t.arrivals[id] == doc
  }

  /** What must have happened in the step from `s` to `t` for a request to end with this verdict. */
  ghost predicate Caused(version: Versioning, s: State, ev: Event, t: State, o: Outcome) {
    match o.verdict
    case Success => Served(version, s, t, o.id)
    case Dropped => Looks(ev) && Finding(ev.checks, o.id) == Cancelled
    case Invalid => Looks(ev) && (Finding(ev.checks, o.id) == Malformed || Finding(ev.checks, o.id) == Refused)
    case VersionMismatch => Looks(ev) && o.id < |t.arrivals| && version(t.arrivals[o.id]) != Expected(t)
    case FetchFailed => ev.FetchResult? && ev.result.None? && s.fetching
    case NoLease => Looks(ev) && t.fetched && t.data.leases == [] && t.manifests != []
    case NotRunning => ev.Shutdown? || (ev.ManifestRequest? && s.life == Stopped)
  }

  predicate Looks(ev: Event) {
    ev.ManifestRequest? || ev.FetchResult?
  }

  ghost predicate Numbered(s: State) {
    forall i :: 0 <= i < |s.requests| ==> Arrives(s, s.requests[i].id, s.requests[i].doc)
  }

  lemma ValidatedCauses(version: Versioning, s: State, checks: Checks)
    requires s.pending == [] && Numbered(s)
    ensures var t := Validated(version, s, checks);
            forall k :: |s.outcomes| <= k < |t.outcomes| ==>
              var o := t.outcomes[k];
              && o.id < |s.arrivals|
              && (|| (o.verdict == Dropped && Finding(checks, o.id) == Cancelled)
                  || (o.verdict == Invalid && (Finding(checks, o.id) == Malformed || Finding(checks, o.id) == Refused))
                  || (o.verdict == VersionMismatch && version(s.arrivals[o.id]) != Expected(s)))
  {
    hide Judge, Accepted, Rejections, Expected;
    var t, e := Validated(version, s, checks), Expected(s);
    forall k | |s.outcomes| <= k < |t.outcomes|
      ensures var o := t.outcomes[k];
              && o.id < |s.arrivals|
              && (|| (o.verdict == Dropped && Finding(checks, o.id) == Cancelled)
                  || (o.verdict == Invalid && (Finding(checks, o.id) == Malformed || Finding(checks, o.id) == Refused))
                  || (o.verdict == VersionMismatch && version(s.arrivals[o.id]) != Expected(s)))
    {
      var o := t.outcomes[k];
      RejectedComeFrom(version, e, s.requests, checks, k - |s.outcomes|);
      var r :| r in s.requests && o.id == r.id && Judge(version, e, r, checks) == Some(o.verdict);
      JudgeIff(version, e, r, checks);
    }
  }

  lemma EmittedCauses(s: State)
    ensures var t := Emitted(s);
            forall k :: |s.outcomes| <= k < |t.outcomes| ==>
              t.outcomes[k].verdict == Success
              || (t.outcomes[k].verdict == NoLease && s.fetched && s.data.leases == [] && s.manifests != [])
  {
    hide Answers, Filled;
    FilledOutcomes(s, NoLease);
    AnswersAre(s.pending, Success);
  }

  lemma ProcessedCauses(version: Versioning, s: State, ev: Event, u: State)
    requires Looks(ev) && s.pending == [] && s.fetched && Numbered(s)
    requires u.published == s.published && u.outcomes == s.outcomes
    ensures var t := Emitted(Validated(version, s, ev.checks));
            forall k :: |s.outcomes| <= k < |t.outcomes| ==> Caused(version, u, ev, t, t.outcomes[k])
  {
    hide Validated, Emitted, Expected, Publications, Extends, Served, Finding, Numbered;
    var v := Validated(version, s, ev.checks);
    var t := Emitted(v);
    ProcessedOutcomes(version, s, ev.checks) by { NumberedArrives(s); }
    ValidatedOutcomes(version, s, ev.checks);
    ProcessedFrame(version, s, ev.checks);
    ValidatedCauses(version, s, ev.checks);
    EmittedCauses(v);
    EmittedExtends(v);
    forall k | |s.outcomes| <= k < |t.outcomes| ensures Caused(version, u, ev, t, t.outcomes[k]) {
      if k < |v.outcomes| {
        ExtendsAt(v, t, k);
      } else if t.outcomes[k].verdict == Success {
        ServedSame(version, s, u, t, t.outcomes[k].id);
      }
    }
  }

  lemma NumberedArrives(s: State)
    requires Numbered(s)
    ensures forall i :: 0 <= i < |s.requests| ==>
              s.requests[i].id < |s.arrivals| && s.requests[i].doc == s.arrivals[s.requests[i].id]
  {
  }

  lemma ServedSame(version: Versioning, s: State, u: State, t: State, id: nat)
    requires u.published == s.published
    ensures Served(version, s, t, id) <==> Served(version, u, t, id)
  {
  }

  lemma EmittedExtends(v: State)
    ensures Extends(v, Emitted(v)) && Emitted(v).manifests == v.manifests && Emitted(v).fetched == v.fetched
    ensures Emitted(v).data == v.data
  {
    hide Answers, Filled;
    FilledOutcomes(v, NoLease);
    FilledFrame(v, NoLease);
  }

  lemma FilledFrame(s: State, v: Verdict)
    ensures var t := Filled(s, v); t == s.(requests := [], pending := [], outcomes := t.outcomes)
  {
  }

  lemma StepCauses(version: Versioning, s: State, ev: Event)
    requires Quiet(s)
    ensures var t := Step(version, s, ev);
            forall k :: |s.outcomes| <= k < |t.outcomes| ==> Caused(version, s, ev, t, t.outcomes[k])
  {
    hide Validated, Emitted, Expected, Publications, Filled, Served;
    if s.life == Stopped && ev.ManifestRequest? {
      FilledOutcomes(Arrived(s, ev.doc), NotRunning);
    } else if ev.ManifestRequest? {
      var t := MaybeFetched(Arrived(s, ev.doc), ev.expired);
      if !t.fetching {
        assert t.arrivals[|s.arrivals|] == ev.doc;
        ProcessedCauses(version, t, ev, s);
      }
    } else if ev.FetchResult? {
      if s.life == Running && s.fetching {
        if ev.result.None? {
          FilledOutcomes(s.(fetching := false), FetchFailed);
        } else {
          ProcessedCauses(version, s.(fetching := false, fetched := true, data := ev.result.value), ev, s);
        }
      }
    } else if ev.Shutdown? {
      FilledOutcomes(s, NotRunning);
    }
  }

  /** In every run each outcome was decided in a step that gave cause for exactly that verdict. */
  lemma EveryOutcomeHasCause(version: Versioning, evs: seq<Event>, k: nat) returns (n: nat)
    requires k < |Exec(version, evs).outcomes|
    ensures n < |evs|
    ensures Caused(version, Exec(version, evs[..n]), evs[n], Exec(version, evs[..n + 1]),
                   Exec(version, evs).outcomes[k])
  {
    hide Step, Exec, Caused;
    n := OutcomeOrigin(version, evs, k);
    RunStaysQuiet(version, evs[..n]);
    StepCauses(version, Exec(version, evs[..n]), evs[n]);
  }

  // ---- On what data ----

  /** A lease won or lost, or an update, makes fetched data unusable; so does age. */
  predicate Clears(ev: Event) {
    ev.NewLease? || ev.LeaseRemoved? || ev.Update?
  }

  lemma StepData(version: Versioning, s: State, ev: Event)
    requires s.life == Running
    ensures var t := Step(version, s, ev);
            && (Clears(ev) ==> !t.fetched)
            && (ev.NewLease? ==> t.fetching)
            && (ev.ManifestRequest? && (s.fetching || !s.fetched || ev.expired) ==> t.fetching && t.requests != [])
            && (t.fetched ==> || (ev.FetchResult? && ev.result == Some(t.data) && s.fetching)
                              || (s.fetched && t.data == s.data && !Clears(ev)))
            && t.versions == (if ev.Update? then s.versions + [ev.version] else s.versions)
            && (t.life == Stopped <==> ev.Shutdown?)
  {
    if ev.FetchResult? && ev.result.Some? {
      ProcessedData(version, s.(fetching := false, fetched := true, data := ev.result.value), ev.checks);
    }
    if ev.ManifestRequest? {
      ProcessedData(version, MaybeFetched(Arrived(s, ev.doc), ev.expired), ev.checks);
    }
    FilledFrame(s.(fetching := false), FetchFailed);
    FilledFrame(s, NotRunning);
    hide Validated, Emitted, Filled;
  }

  lemma ProcessedData(version: Versioning, s: State, checks: Checks)
    ensures var t := Emitted(Validated(version, s, checks));
            && t.data == s.data && t.fetched == s.fetched && t.versions == s.versions
            && t.life == s.life && t.fetching == s.fetching
  {
    hide Accepted, Rejections, Answers, Publications;
  }

  lemma StoppedStays(version: Versioning, s: State, ev: Event)
    requires s.life == Stopped
    ensures Step(version, s, ev).life == Stopped
  {
    FilledFrame(Arrived(s, if ev.ManifestRequest? then ev.doc else ""), NotRunning);
    hide Filled;
  }

  /** In every run, data in use is what a fetch brought after the last lease change and the last update. */
  lemma {:induction false} DataIsFresh(version: Versioning, evs: seq<Event>) returns (k: nat)
    requires Exec(version, evs).life == Running && Exec(version, evs).fetched
    ensures k < |evs| && evs[k].FetchResult? && evs[k].result == Some(Exec(version, evs).data)
    ensures forall j :: k < j < |evs| ==> !Clears(evs[j])
    decreases |evs|
  {
    hide Step;
    var n := |evs| - 1;
    var s := Exec(version, evs[..n]);
    if s.life == Stopped {
      StoppedStays(version, s, evs[n]);
    }
    StepData(version, s, evs[n]);
    if evs[n].FetchResult? && evs[n].result == Some(Exec(version, evs).data) {
      k := n;
    } else {
      k := DataIsFresh(version, evs[..n]);
      forall j | k < j < |evs| ensures !Clears(evs[j]) {
        assert j < n ==> evs[..n][j] == evs[j];
      }
    }
  }

  function LastUpdate(evs: seq<Event>): Option<Version> {
    if evs == [] then None
    else
      var ev := evs[|evs| - 1];
      if ev.Update? then Some(ev.version) else LastUpdate(evs[..|evs| - 1])
  }

  /** In every run the expected version is that of the last update, and the chain's only before any. */
  lemma {:induction false} ExpectedIsLastUpdate(version: Versioning, evs: seq<Event>)
    requires Exec(version, evs).life == Running
    ensures Exec(version, evs).versions == [] <==> LastUpdate(evs).None?
    ensures Expected(Exec(version, evs))
            == if LastUpdate(evs).Some? then LastUpdate(evs).value else Exec(version, evs).data.hash
    decreases |evs|
  {
    hide Step;
    if evs != [] {
      var n := |evs| - 1;
      var s := Exec(version, evs[..n]);
      if s.life == Stopped {
        StoppedStays(version, s, evs[n]);
      }
      ExpectedIsLastUpdate(version, evs[..n]);
      StepData(version, s, evs[n]);
    }
  }

  // ---- Where publications come from ----

  /** Event `k` accepted the document: a request that had sent it was found fine, at the version then
      expected. */
  ghost predicate AcceptedAt(version: Versioning, evs: seq<Event>, k: nat, doc: Document) {
    && k < |evs| && Looks(evs[k])
    && var t := Exec(version, evs[..k + 1]);
       exists id :: Arrives(t, id, doc) && Finding(evs[k].checks, id) == Fine && version(doc) == Expected(t)
  }

  ghost predicate NewManifest(version: Versioning, ev: Event, t: State, doc: Document) {
    && Looks(ev) && exists id :: Arrives(t, id, doc) && Finding(ev.checks, id) == Fine && version(doc) == Expected(t)
  }

  /** To manifests and publications `t` adds at most one manifest newly accepted, and publications of its
      latest manifest to leases it has. */
  ghost predicate Grows(version: Versioning, ms: seq<Document>, ps: seq<Publication>, ev: Event, t: State) {
    && (t.manifests == ms || (exists doc :: t.manifests == ms + [doc] && NewManifest(version, ev, t, doc)))
    && (forall j :: |ps| <= j < |t.published| ==>
          t.manifests != [] && t.published[j].doc == t.manifests[|t.manifests| - 1]
          && t.published[j].lease in t.data.leases)
    && |ps| <= |t.published| && t.published[..|ps|] == ps
  }

  lemma NothingGrows(version: Versioning, ev: Event, t: State)
    ensures Grows(version, t.manifests, t.published, ev, t)
  {
  }

  lemma ProcessedManifests(version: Versioning, s: State, ev: Event)
    requires Looks(ev) && s.pending == [] && s.fetched && Numbered(s)
    ensures Grows(version, s.manifests, s.published, ev, Emitted(Validated(version, s, ev.checks)))
  {
    var v, e := Validated(version, s, ev.checks), Expected(s);
    var t := Emitted(v);
    ProcessedFrame(version, s, ev.checks);
    EmittedExtends(v);
    EmittedPublishes(v);
    var ok := Accepted(version, e, s.requests, ev.checks);
    if v.manifests != s.manifests {
      assert s.requests != [] && ok != [] && v.manifests == s.manifests + [ok[0].doc];
      AcceptedComeFrom(version, e, s.requests, ev.checks, 0);
      JudgeIff(version, e, ok[0], ev.checks);
      assert Arrives(t, ok[0].id, ok[0].doc);
      assert NewManifest(version, ev, t, ok[0].doc);
    }
    hide Validated, Emitted, Expected, Accepted, Judge;
  }

  lemma EmittedPublishes(v: State)
    ensures var t := Emitted(v);
            && |v.published| <= |t.published| && t.published[..|v.published|] == v.published
            && (forall j :: |v.published| <= j < |t.published| ==>
                  t.manifests != [] && t.published[j].doc == t.manifests[|t.manifests| - 1]
                  && t.published[j].lease in t.data.leases)
  {
    FilledFrame(v, NoLease);
    hide Answers, Filled;
  }

  lemma StepPublishes(version: Versioning, s: State, ev: Event)
    requires Quiet(s)
    ensures Grows(version, s.manifests, s.published, ev, Step(version, s, ev))
  {
    hide Validated, Emitted, Filled, Grows;
    NothingGrows(version, ev, Step(version, s, ev));
    if s.life == Stopped {
      if ev.ManifestRequest? {
        FilledFrame(Arrived(s, ev.doc), NotRunning);
      }
    } else if ev.ManifestRequest? {
      var t := MaybeFetched(Arrived(s, ev.doc), ev.expired);
      if !t.fetching {
        assert t.arrivals[|s.arrivals|] == ev.doc;
        ProcessedManifests(version, t, ev);
      }
    } else if ev.FetchResult? && s.fetching {
      if ev.result.None? {
        FilledFrame(s.(fetching := false), FetchFailed);
      } else {
        ProcessedManifests(version, s.(fetching := false, fetched := true, data := ev.result.value), ev);
      }
    } else if ev.Shutdown? {
      FilledFrame(s, NotRunning);
    }
  }

  /** In every run each manifest on record was accepted by an event of the run. */
  lemma {:induction false} ManifestWasAccepted(version: Versioning, evs: seq<Event>, i: nat) returns (k: nat)
    requires i < |Exec(version, evs).manifests|
    ensures AcceptedAt(version, evs, k, Exec(version, evs).manifests[i])
    decreases |evs|
  {
    hide Step, Expected;
    var n := |evs| - 1;
    var s, t := Exec(version, evs[..n]), Exec(version, evs);
    RunStaysQuiet(version, evs[..n]);
    StepPublishes(version, s, evs[n]);
    assert evs[..n + 1] == evs;
    if i < |s.manifests| {
      assert t.manifests[i] == s.manifests[i];
      k := ManifestWasAccepted(version, evs[..n], i);
      assert evs[..n][..k + 1] == evs[..k + 1];
    } else {
      k := n;
    }
  }

  /** In every run each publication is of a document that a request of the run had sent and validation
      had found fine, and goes to a lease fetched in the step that made it. */
  lemma {:induction false} EveryPublicationWasAccepted(version: Versioning, evs: seq<Event>, j: nat)
    returns (n: nat, k: nat)
    requires j < |Exec(version, evs).published|
    ensures n < |evs| && Exec(version, evs).published[j].lease in Exec(version, evs[..n + 1]).data.leases
    ensures k <= n && AcceptedAt(version, evs, k, Exec(version, evs).published[j].doc)
    decreases |evs|
  {
    hide Step, AcceptedAt;
    var last := |evs| - 1;
    var s, t := Exec(version, evs[..last]), Exec(version, evs);
    RunStaysQuiet(version, evs[..last]);
    StepPublishes(version, s, evs[last]);
    assert evs[..last + 1] == evs;
    if j < |s.published| {
      assert t.published[j] == t.published[..|s.published|][j];
      n, k := EveryPublicationWasAccepted(version, evs[..last], j);
      assert evs[..last][..n + 1] == evs[..n + 1];
      AcceptedEarlier(version, evs, last, k, t.published[j].doc);
    } else {
      n := last;
      k := ManifestWasAccepted(version, evs, |t.manifests| - 1);
      AcceptedWithin(version, evs, k, t.published[j].doc);
    }
  }

  lemma AcceptedEarlier(version: Versioning, evs: seq<Event>, n: nat, k: nat, doc: Document)
    requires n <= |evs| && AcceptedAt(version, evs[..n], k, doc)
    ensures AcceptedAt(version, evs, k, doc)
  {
    hide Exec;
    assert evs[..n][..k + 1] == evs[..k + 1];
  }

  lemma AcceptedWithin(version: Versioning, evs: seq<Event>, k: nat, doc: Document)
    requires AcceptedAt(version, evs, k, doc)
    ensures k < |evs|
  {
  }
}
