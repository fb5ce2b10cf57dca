/** The manifest manager's event loop: requests wait for one data fetch, are validated together,
    and are answered once the manifest has been published to every lease. */
module Manifest {
  import opened Wrappers

  type Document = string
  type Version = string
  type Lease = string

  /** `id` numbers the requests in order of arrival. */
  datatype Request = Request(id: nat, doc: Document)

  /** How a request ends. `Dropped` is a request whose context was done: nothing is sent to it. */
  datatype Verdict = Success | Invalid | VersionMismatch | FetchFailed | NoLease | NotRunning | Dropped

  datatype Outcome = Outcome(id: nat, verdict: Verdict)

  datatype Publication = Publication(lease: Lease, doc: Document)

  datatype Life = Running | Stopped

  /** What the checks around the version comparison find: the request's context done, a document
      malformed in itself, one refused by the deployment's groups or the hostname service. */
  datatype Check = Fine | Cancelled | Malformed | Refused

  /** Findings by request number; a request that is not listed is fine. */
  type Checks = map<nat, Check>

  datatype Data = Data(hash: Version, leases: seq<Lease>)

  /** `arrivals` records every document sent to the manager, `outcomes` and `published` what became
      of them; `fetching` says that the result channel is not nil. */
  datatype State = State(
    requests: seq<Request>, pending: seq<Request>, manifests: seq<Document>, versions: seq<Version>,
    fetched: bool, data: Data, fetching: bool, life: Life,
    arrivals: seq<Document>, outcomes: seq<Outcome>, published: seq<Publication>)

  datatype Event =
    | NewLease(expired: bool)
    | LeaseRemoved
    | ManifestRequest(doc: Document, expired: bool, checks: Checks)
    | Update(version: Version)
    | FetchResult(result: Option<Data>, checks: Checks)
    | Shutdown

  type Versioning = Document -> Version

  // ---- The helpers on values ----

  const NO_DATA := Data("", [])

  function Cleared(s: State): State {
    s.(fetched := false, data := NO_DATA)
  }

  function MaybeFetched(s: State, expired: bool): State {
    if s.fetching then s
    else if !s.fetched || expired then Cleared(s).(fetching := true)
    else s
  }

  /** The version a manifest must have: the latest update received, or else what the chain says. */
  function Expected(s: State): Version {
    if s.versions != [] then s.versions[|s.versions| - 1] else s.data.hash
  }

  function Judge(version: Versioning, expected: Version, r: Request, checks: Checks): Option<Verdict> {
    var check := if r.id in checks then checks[r.id] else Fine;
    if check == Cancelled then Some(Dropped)
    else if check == Malformed then Some(Invalid)
    else if version(r.doc) != expected then Some(VersionMismatch)
    else if check == Refused then Some(Invalid)
    else None
  }

  function Rejections(version: Versioning, expected: Version, rs: seq<Request>, checks: Checks): seq<Outcome> {
    if rs == [] then []
    else
      var r := rs[|rs| - 1];
      var j := Judge(version, expected, r, checks);
      var before := Rejections(version, expected, rs[..|rs| - 1], checks);
      if j.Some? then before + [Outcome(r.id, j.value)] else before
  }

  function Accepted(version: Versioning, expected: Version, rs: seq<Request>, checks: Checks): seq<Request> {
    if rs == [] then []
    else
      var r := rs[|rs| - 1];
      var before := Accepted(version, expected, rs[..|rs| - 1], checks);
      if Judge(version, expected, r, checks).None? then before + [r] else before
  }

  lemma BatchNone(version: Versioning, expected: Version, checks: Checks)
    ensures Rejections(version, expected, [], checks) == [] && Accepted(version, expected, [], checks) == []
  {
  }

  lemma BatchStep(version: Versioning, expected: Version, rs: seq<Request>, checks: Checks, i: nat)
    requires i < |rs|
    ensures var j := Judge(version, expected, rs[i], checks);
            var rejected := Rejections(version, expected, rs[..i], checks);
            var ok := Accepted(version, expected, rs[..i], checks);
            && Rejections(version, expected, rs[..i + 1], checks)
               == (if j.Some? then rejected + [Outcome(rs[i].id, j.value)] else rejected)
            && Accepted(version, expected, rs[..i + 1], checks) == (if j.None? then ok + [rs[i]] else ok)
  {
    assert rs[..i + 1][..i] == rs[..i];
  }

  function Validated(version: Versioning, s: State, checks: Checks): State {
    if !s.fetched || s.requests == [] then s
    else
      var ok := Accepted(version, Expected(s), s.requests, checks);
      s.(requests := [],
         pending := s.pending + ok,
         manifests := if ok == [] then s.manifests else s.manifests + [ok[0].doc],
         outcomes := s.outcomes + Rejections(version, Expected(s), s.requests, checks))
  }

  function Answers(rs: seq<Request>, v: Verdict): seq<Outcome> {
    if rs == [] then [] else Answers(rs[..|rs| - 1], v) + [Outcome(rs[|rs| - 1].id, v)]
  }

  function Filled(s: State, v: Verdict): State {
    s.(requests := [], pending := [], outcomes := s.outcomes + Answers(s.pending, v) + Answers(s.requests, v))
  }

  function Publications(leases: seq<Lease>, doc: Document): (ps: seq<Publication>)
    ensures |ps| == |leases| && forall i :: 0 <= i < |ps| ==> ps[i] == Publication(leases[i], doc)
  {
    if leases == [] then [] else Publications(leases[..|leases| - 1], doc) + [Publication(leases[|leases| - 1], doc)]
  }

  function Emitted(s: State): State {
    if !s.fetched || s.manifests == [] then s
    else if s.data.leases == [] then Filled(s, NoLease)
    else s.(published := s.published + Publications(s.data.leases, s.manifests[|s.manifests| - 1]),
            outcomes := s.outcomes + Answers(s.pending, Success), pending := [])
  }

  function Arrived(s: State, doc: Document): State {
    s.(arrivals := s.arrivals + [doc], requests := s.requests + [Request(|s.arrivals|, doc)])
  }

  function Step(version: Versioning, s: State, ev: Event): State {
    if s.life == Stopped then
      if ev.ManifestRequest? then Filled(Arrived(s, ev.doc), NotRunning) else s
    else
      match ev
      case NewLease(expired) => MaybeFetched(Cleared(s), expired)
      case LeaseRemoved => Cleared(s)
      case ManifestRequest(doc, expired, checks) =>
        var t := MaybeFetched(Arrived(s, doc), expired);
        if t.fetching then t else Emitted(Validated(version, t, checks))
      case Update(v) => Cleared(s.(versions := s.versions + [v]))
      case FetchResult(result, checks) =>
        if !s.fetching then s
        else if result.None? then Filled(s.(fetching := false), FetchFailed)
        else Emitted(Validated(version, s.(fetching := false, fetched := true, data := result.value), checks))
      case Shutdown => Filled(s, NotRunning).(life := Stopped, fetching := false)
  }

  function Initial(): State {
    State([], [], [], [], false, NO_DATA, false, Running, [], [], [])
  }

  function Exec(version: Versioning, evs: seq<Event>): State {
    if evs == [] then Initial() else Step(version, Exec(version, evs[..|evs| - 1]), evs[|evs| - 1])
  }

  // ---- The manager as an object ----

  class Manager {
    const version: Versioning
    var requests: seq<Request>
    var pending: seq<Request>
    var manifests: seq<Document>
    var versions: seq<Version>
    var fetched: bool
    var data: Data
    var fetching: bool
    var life: Life
    var arrivals: seq<Document>
    var outcomes: seq<Outcome>
    var published: seq<Publication>

    function View(): State
      reads this
    {
      State(requests, pending, manifests, versions, fetched, data, fetching, life, arrivals, outcomes, published)
    }

    constructor (version: Versioning)
      ensures this.version == version && View() == Initial()
    {
      this.version := version;
      requests, pending, manifests, versions := [], [], [], [];
      fetched, data, fetching, life := false, NO_DATA, false, Running;
      arrivals, outcomes, published := [], [], [];
    }

    method ClearFetched()
      modifies this`fetched, this`data
      ensures View() == Cleared(old(View()))
    {
      fetched, data := false, NO_DATA;
    }

    method MaybeFetchData(expired: bool)
      modifies this`fetched, this`data, this`fetching
      ensures View() == MaybeFetched(old(View()), expired)
    {
      if !fetching && (!fetched || expired) {
        ClearFetched();
        fetching := true;
      }
    }

    method AnswerAll(rs: seq<Request>, v: Verdict)
      modifies this`outcomes
      ensures outcomes == old(outcomes) + Answers(rs, v)
    {
      for i := 0 to |rs|
        invariant outcomes == old(outcomes) + Answers(rs[..i], v)
      {
        assert rs[..i + 1][..i] == rs[..i];
        outcomes := outcomes + [Outcome(rs[i].id, v)];
      }
      assert rs[..|rs|] == rs;
    }

    method FillAllRequests(v: Verdict)
      modifies this`requests, this`pending, this`outcomes
      ensures View() == Filled(old(View()), v)
    {
      AnswerAll(pending, v);
      pending := [];
      AnswerAll(requests, v);
      requests := [];
    }

    method ValidateRequests(checks: Checks)
      modifies this`requests, this`pending, this`manifests, this`outcomes
      ensures View() == Validated(version, old(View()), checks)
    {
      if !fetched || |requests| == 0 {
        return;
      }
      var docs := SortRequests(checks);
      requests := [];
      if |docs| > 0 {
        manifests := manifests + [docs[0]];
      }
    }

    /** The loop over the batch: rejections are sent, the rest is kept for publication. */
    method SortRequests(checks: Checks) returns (docs: seq<Document>)
      modifies this`pending, this`outcomes
      ensures var expected := Expected(old(View()));
              var ok := Accepted(version, expected, requests, checks);
              && outcomes == old(outcomes) + Rejections(version, expected, requests, checks)
              && pending == old(pending) + ok
              && |docs| == |ok| && (docs != [] ==> docs[0] == ok[0].doc)
    {
      hide Judge, Rejections, Accepted;
      ghost var expected := Expected(View());
      docs := [];
      BatchNone(version, expected, checks);
      for i := 0 to |requests|
        invariant outcomes == old(outcomes) + Rejections(version, expected, requests[..i], checks)
        invariant pending == old(pending) + Accepted(version, expected, requests[..i], checks)
        invariant |docs| == |Accepted(version, expected, requests[..i], checks)|
        invariant docs != [] ==> docs[0] == Accepted(version, expected, requests[..i], checks)[0].doc
      {
        var r := requests[i];
        BatchStep(version, expected, requests, checks, i);
        var error := ValidateRequest(r, checks);
        assert error == Judge(version, expected, r, checks);
        if error.Some? {
          outcomes := outcomes + [Outcome(r.id, error.value)];
        } else {
          docs := docs + [r.doc];
          pending := pending + [r];
        }
      }
      assert requests[..|requests|] == requests;
    }

    method ValidateRequest(r: Request, checks: Checks) returns (error: Option<Verdict>)
      ensures error == Judge(version, Expected(View()), r, checks)
    {
      var check := if r.id in checks then checks[r.id] else Fine;
      if check == Cancelled {
        return Some(Dropped);
      }
      if check == Malformed {
        return Some(Invalid);
      }
      var expected := data.hash;
      if |versions| != 0 {
        expected := versions[|versions| - 1];
      }
      if version(r.doc) != expected {
        return Some(VersionMismatch);
      }
      if check == Refused {
        return Some(Invalid);
      }
      error := None;
    }

    method EmitReceivedEvents()
      modifies this`requests, this`pending, this`outcomes, this`published
      ensures View() == Emitted(old(View()))
    {
      if !fetched || |manifests| == 0 {
        return;
      }
      if |data.leases| == 0 {
        FillAllRequests(NoLease);
        return;
      }
      var latest := manifests[|manifests| - 1];
      for i := 0 to |data.leases|
        modifies this`published
        invariant published == old(published) + Publications(data.leases[..i], latest)
      {
        assert data.leases[..i + 1][..i] == data.leases[..i];
        published := published + [Publication(data.leases[i], latest)];
      }
      assert data.leases[..|data.leases|] == data.leases;
      AnswerAll(pending, Success);
      pending := [];
    }

    method Receive(doc: Document)
      modifies this`arrivals, this`requests
      ensures View() == Arrived(old(View()), doc)
    {
      requests := requests + [Request(|arrivals|, doc)];
      arrivals := arrivals + [doc];
    }

    /** One turn of the select loop; a request that finds the manager stopped is answered by its sender. */
    method Select(ev: Event)
      modifies this
      ensures View() == Step(version, old(View()), ev)
    {
      hide Emitted, Validated, Filled, Cleared, MaybeFetched, Arrived;
      if life == Stopped {
        if ev.ManifestRequest? {
          Receive(ev.doc);
          FillAllRequests(NotRunning);
        }
        return;
      }
      match ev
      case NewLease(expired) =>
        ClearFetched();
        MaybeFetchData(expired);
      case LeaseRemoved => ClearFetched();
      case ManifestRequest(doc, expired, checks) =>
        Receive(doc);
        MaybeFetchData(expired);
        if !fetching {
          ValidateRequests(checks);
          EmitReceivedEvents();
        }
      case Update(v) =>
        versions := versions + [v];
        ClearFetched();
      case FetchResult(result, checks) =>
        if fetching {
          fetching := false;
          if result.None? {
            FillAllRequests(FetchFailed);
          } else {
            fetched, data := true, result.value;
            ValidateRequests(checks);
            EmitReceivedEvents();
          }
        }
      case Shutdown =>
        FillAllRequests(NotRunning);
        life, fetching := Stopped, false;
    }
  }

  // ---- Counting where a request is ----

  function Waiting(rs: seq<Request>, id: nat): nat {
    if rs == [] then 0 else Waiting(rs[..|rs| - 1], id) + (if rs[|rs| - 1].id == id then 1 else 0)
  }

  function Ended(os: seq<Outcome>, id: nat): nat {
    if os == [] then 0 else Ended(os[..|os| - 1], id) + (if os[|os| - 1].id == id then 1 else 0)
  }

  lemma {:induction false} WaitingConcat(a: seq<Request>, b: seq<Request>, id: nat)
    ensures Waiting(a + b, id) == Waiting(a, id) + Waiting(b, id)
    decreases |b|
  {
    if b == [] {
      assert a + b == a;
    } else {
      assert (a + b)[..|a + b| - 1] == a + b[..|b| - 1];
      WaitingConcat(a, b[..|b| - 1], id);
    }
  }

  lemma {:induction false} EndedConcat(a: seq<Outcome>, b: seq<Outcome>, id: nat)
    ensures Ended(a + b, id) == Ended(a, id) + Ended(b, id)
    decreases |b|
  {
    if b == [] {
      assert a + b == a;
    } else {
      assert (a + b)[..|a + b| - 1] == a + b[..|b| - 1];
      EndedConcat(a, b[..|b| - 1], id);
    }
  }

  lemma {:induction false} AnswersEnd(rs: seq<Request>, v: Verdict, id: nat)
    ensures Ended(Answers(rs, v), id) == Waiting(rs, id)
  {
    if rs != [] {
      AnswersEnd(rs[..|rs| - 1], v, id);
    }
  }

  /** Validation splits a batch: every request is either rejected once or accepted once. */
  lemma {:induction false} BatchSplits(
    version: Versioning, expected: Version, rs: seq<Request>, checks: Checks, id: nat)
    ensures Ended(Rejections(version, expected, rs, checks), id) + Waiting(Accepted(version, expected, rs, checks), id)
            == Waiting(rs, id)
  {
    hide Judge;
    if rs != [] {
      var n := |rs| - 1;
      BatchSplits(version, expected, rs[..n], checks, id);
      var r := rs[n];
      WaitingConcat(Accepted(version, expected, rs[..n], checks), [r], id);
      assert Waiting([r], id) == if r.id == id then 1 else 0;
      var j := Judge(version, expected, r, checks);
      if j.Some? {
        EndedConcat(Rejections(version, expected, rs[..n], checks), [Outcome(r.id, j.value)], id);
        assert Ended([Outcome(r.id, j.value)], id) == if r.id == id then 1 else 0;
      }
    }
  }

  /** The request is in exactly one place: still waiting, awaiting publication, or ended. */
  function Places(s: State, id: nat): nat {
    Waiting(s.requests, id) + Waiting(s.pending, id) + Ended(s.outcomes, id)
  }

  lemma FilledPlaces(s: State, v: Verdict, id: nat)
    ensures Places(Filled(s, v), id) == Places(s, id)
  {
    hide Ended, Waiting, Answers;
    EndedConcat(s.outcomes, Answers(s.pending, v), id);
    EndedConcat(s.outcomes + Answers(s.pending, v), Answers(s.requests, v), id);
    AnswersEnd(s.pending, v, id);
    AnswersEnd(s.requests, v, id);
    WaitingNone(id);
  }

  lemma WaitingNone(id: nat)
    ensures Waiting([], id) == 0
  {
  }

  lemma ValidatedPlaces(version: Versioning, s: State, checks: Checks, id: nat)
    ensures Places(Validated(version, s, checks), id) == Places(s, id)
  {
    hide Ended, Waiting, Accepted, Rejections, Expected;
    var e := Expected(s);
    BatchSplits(version, e, s.requests, checks, id);
    WaitingConcat(s.pending, Accepted(version, e, s.requests, checks), id);
    EndedConcat(s.outcomes, Rejections(version, e, s.requests, checks), id);
    WaitingNone(id);
  }

  lemma EmittedPlaces(s: State, id: nat)
    ensures Places(Emitted(s), id) == Places(s, id)
  {
    hide Ended, Waiting, Answers, Filled;
    FilledPlaces(s, NoLease, id);
    EndedConcat(s.outcomes, Answers(s.pending, Success), id);
    AnswersEnd(s.pending, Success, id);
    WaitingNone(id);
  }

  lemma ArrivedPlaces(s: State, doc: Document, id: nat)
    ensures Places(Arrived(s, doc), id) == Places(s, id) + (if id == |s.arrivals| then 1 else 0)
  {
    assert (s.requests + [Request(|s.arrivals|, doc)])[..|s.requests|] == s.requests;
  }

  /** A step creates a place only for the request that arrives in it. */
  lemma StepPlaces(version: Versioning, s: State, ev: Event, id: nat)
    ensures Places(Step(version, s, ev), id) - Places(s, id)
            == (if ev.ManifestRequest? && id == |s.arrivals| then 1 else 0)
    ensures Step(version, s, ev).arrivals == (if ev.ManifestRequest? then s.arrivals + [ev.doc] else s.arrivals)
  {
    hide Ended, Waiting, Answers, Accepted, Rejections, Expected;
    if ev.ManifestRequest? {
      var t := Arrived(s, ev.doc);
      ArrivedPlaces(s, ev.doc, id);
      FilledPlaces(t, NotRunning, id);
      ValidatedPlaces(version, MaybeFetched(t, ev.expired), ev.checks, id);
      EmittedPlaces(Validated(version, MaybeFetched(t, ev.expired), ev.checks), id);
    } else if ev.FetchResult? {
      FilledPlaces(s.(fetching := false), FetchFailed, id);
      if ev.result.Some? {
        var t := s.(fetching := false, fetched := true, data := ev.result.value);
        ValidatedPlaces(version, t, ev.checks, id);
        EmittedPlaces(Validated(version, t, ev.checks), id);
      }
    } else if ev.Shutdown? {
      FilledPlaces(s, NotRunning, id);
    }
  }

  // ---- Every run ----

  /** At every turn of the loop: nothing awaits publication, and waiting requests have a fetch
      in flight that will end their wait. */
  ghost predicate Quiet(s: State) {
    && s.pending == []
    && (s.requests != [] ==> s.life == Running && s.fetching)
    && (forall i :: 0 <= i < |s.requests| ==>
          s.requests[i].id < |s.arrivals| && s.requests[i].doc == s.arrivals[s.requests[i].id])
  }

  lemma {:induction false} AcceptedComeFrom(
    version: Versioning, expected: Version, rs: seq<Request>, checks: Checks, k: nat)
    requires k < |Accepted(version, expected, rs, checks)|
    ensures var r := Accepted(version, expected, rs, checks)[k];
            r in rs && Judge(version, expected, r, checks).None? && version(r.doc) == expected
  {
    var n := |rs| - 1;
    if k < |Accepted(version, expected, rs[..n], checks)| {
      AcceptedComeFrom(version, expected, rs[..n], checks, k);
    }
  }

  lemma StepStaysQuiet(version: Versioning, s: State, ev: Event)
    requires Quiet(s)
    ensures Quiet(Step(version, s, ev))
  {
    hide Answers, Accepted, Rejections, Expected, Publications;
  }

  lemma {:induction false} RunStaysQuiet(version: Versioning, evs: seq<Event>)
    ensures Quiet(Exec(version, evs))
    decreases |evs|
  {
    hide Step;
    if evs != [] {
      RunStaysQuiet(version, evs[..|evs| - 1]);
      StepStaysQuiet(version, Exec(version, evs[..|evs| - 1]), evs[|evs| - 1]);
    }
  }

  lemma {:induction false} RunPlaces(version: Versioning, evs: seq<Event>, id: nat)
    ensures Places(Exec(version, evs), id) == (if id < |Exec(version, evs).arrivals| then 1 else 0)
    decreases |evs|
  {
    hide Step;
    if evs != [] {
      RunPlaces(version, evs[..|evs| - 1], id);
      StepPlaces(version, Exec(version, evs[..|evs| - 1]), evs[|evs| - 1], id);
    }
  }

  /** In every run each request has at most one outcome, it has none exactly while it waits behind a
      fetch in flight, and by shutdown it has exactly one. */
  lemma EachRequestEndsOnce(version: Versioning, evs: seq<Event>, id: nat)
    requires id < |Exec(version, evs).arrivals|
    ensures var s := Exec(version, evs);
            && s.pending == []
            && Ended(s.outcomes, id) + Waiting(s.requests, id) == 1
            && (Waiting(s.requests, id) == 1 ==> s.life == Running && s.fetching)
            && (s.life == Stopped ==> Ended(s.outcomes, id) == 1)
  {
    RunPlaces(version, evs, id);
    RunStaysQuiet(version, evs);
  }

  // ---- Who is not answered ----

  predicate CancelsAt(ev: Event, id: nat) {
    (ev.ManifestRequest? || ev.FetchResult?) && id in ev.checks && ev.checks[id] == Cancelled
  }

  lemma {:induction false} RejectedAsJudged(
    version: Versioning, expected: Version, rs: seq<Request>, checks: Checks, k: nat)
    requires k < |Rejections(version, expected, rs, checks)|
    ensures var o := Rejections(version, expected, rs, checks)[k];
            o.verdict != Success && (o.verdict == Dropped ==> o.id in checks && checks[o.id] == Cancelled)
  {
    var n := |rs| - 1;
    if k < |Rejections(version, expected, rs[..n], checks)| {
      RejectedAsJudged(version, expected, rs[..n], checks, k);
    }
  }

  lemma {:induction false} AnswersAre(rs: seq<Request>, v: Verdict)
    ensures |Answers(rs, v)| == |rs|
    ensures forall k :: 0 <= k < |rs| ==> Answers(rs, v)[k] == Outcome(rs[k].id, v)
  {
    if rs != [] {
      AnswersAre(rs[..|rs| - 1], v);
    }
  }

  /** Outcomes are only ever added. */
  ghost predicate Extends(s: State, t: State) {
    |s.outcomes| <= |t.outcomes| && t.outcomes[..|s.outcomes|] == s.outcomes
  }

  lemma FilledOutcomes(s: State, v: Verdict)
    ensures Extends(s, Filled(s, v))
    ensures forall k :: |s.outcomes| <= k < |Filled(s, v).outcomes| ==> Filled(s, v).outcomes[k].verdict == v
  {
    AnswersAre(s.pending, v);
    AnswersAre(s.requests, v);
  }

  /** What validation leaves behind: rejections in the log, and a batch whose members all have the
      expected version, the first of them recorded as the latest manifest. */
  lemma ValidatedOutcomes(version: Versioning, s: State, checks: Checks)
    requires s.pending == []
    ensures var t := Validated(version, s, checks);
            && Extends(s, t)
            && (forall k :: |s.outcomes| <= k < |t.outcomes| ==>
                  t.outcomes[k].verdict != Success
                  && (t.outcomes[k].verdict == Dropped ==>
                        t.outcomes[k].id in checks && checks[t.outcomes[k].id] == Cancelled))
            && (forall k :: 0 <= k < |t.pending| ==>
                  t.pending[k] in s.requests && version(t.pending[k].doc) == Expected(s))
            && (t.pending != [] ==> t.manifests == s.manifests + [t.pending[0].doc])
  {
    hide Judge, Accepted, Rejections, Expected;
    var e := Expected(s);
    forall k | 0 <= k < |Rejections(version, e, s.requests, checks)|
      ensures var o := Rejections(version, e, s.requests, checks)[k];
              o.verdict != Success && (o.verdict == Dropped ==> o.id in checks && checks[o.id] == Cancelled)
    {
      RejectedAsJudged(version, e, s.requests, checks, k);
    }
    forall k | 0 <= k < |Accepted(version, e, s.requests, checks)|
      ensures var r := Accepted(version, e, s.requests, checks)[k]; r in s.requests && version(r.doc) == e
    {
      AcceptedComeFrom(version, e, s.requests, checks, k);
    }
  }

  /** A success goes to a pending request, after the latest manifest went to every lease. */
  lemma EmittedOutcomes(s: State)
    requires s.requests == [] || s.pending == []
    ensures var t := Emitted(s);
            && Extends(s, t)
            && forall k :: |s.outcomes| <= k < |t.outcomes| ==>
                 && t.outcomes[k].verdict != Dropped
                 && (t.outcomes[k].verdict == Success ==>
                       && s.manifests != [] && s.data.leases != []
                       && t.published == s.published + Publications(s.data.leases, s.manifests[|s.manifests| - 1])
                       && exists j :: 0 <= j < |s.pending| && s.pending[j].id == t.outcomes[k].id)
  {
    hide Answers, Filled;
    FilledOutcomes(s, NoLease);
    AnswersAre(s.pending, Success);
    if s.fetched && s.manifests != [] && s.data.leases != [] {
      var t := Emitted(s);
      forall k | |s.outcomes| <= k < |t.outcomes|
        ensures t.outcomes[k].verdict == Success
        ensures exists j :: 0 <= j < |s.pending| && s.pending[j].id == t.outcomes[k].id
      {
        assert t.outcomes[k] == Outcome(s.pending[k - |s.outcomes|].id, Success);
      }
    }
  }

  /** `t`, reached from `s`, has just published one document of the expected version to every lease
      there is, and that is the version of what request `id` sent. */
  ghost predicate Served(version: Versioning, s: State, t: State, id: nat) {
    && id < |t.arrivals|
    && version(t.arrivals[id]) == Expected(t)
    && t.data.leases != []
    && exists doc :: version(doc) == Expected(t) && t.published == s.published + Publications(t.data.leases, doc)
  }

  lemma ProcessedOutcomes(version: Versioning, s: State, checks: Checks)
    requires s.pending == [] && s.fetched
    requires forall i :: 0 <= i < |s.requests| ==>
               s.requests[i].id < |s.arrivals| && s.requests[i].doc == s.arrivals[s.requests[i].id]
    ensures var t := Emitted(Validated(version, s, checks));
            && Extends(s, t)
            && forall k :: |s.outcomes| <= k < |t.outcomes| ==>
                 && (t.outcomes[k].verdict == Dropped ==>
                       t.outcomes[k].id in checks && checks[t.outcomes[k].id] == Cancelled)
                 && (t.outcomes[k].verdict == Success ==> Served(version, s, t, t.outcomes[k].id))
  {
    hide Validated, Emitted, Expected, Extends, Publications;
    var v := Validated(version, s, checks);
    var t := Emitted(v);
    ValidatedOutcomes(version, s, checks);
    ProcessedFrame(version, s, checks);
    EmittedOutcomes(v);
    ExtendsTransitive(s, v, t);
    forall k | |s.outcomes| <= k < |t.outcomes|
      ensures (t.outcomes[k].verdict == Dropped ==> t.outcomes[k].id in checks && checks[t.outcomes[k].id] == Cancelled)
      ensures t.outcomes[k].verdict == Success ==> Served(version, s, t, t.outcomes[k].id)
    {
      if k < |v.outcomes| {
        ExtendsAt(v, t, k);
      } else if t.outcomes[k].verdict == Success {
        var j :| 0 <= j < |v.pending| && v.pending[j].id == t.outcomes[k].id;
        assert v.pending[j] in s.requests && v.pending[0] in s.requests;
        assert v.manifests[|v.manifests| - 1] == v.pending[0].doc;
      }
    }
  }

  lemma ProcessedFrame(version: Versioning, s: State, checks: Checks)
    requires s.fetched
    ensures var v := Validated(version, s, checks);
            var t := Emitted(v);
            && v.requests == [] && v.published == s.published && v.data == s.data
            && t.arrivals == s.arrivals && t.data == s.data && Expected(t) == Expected(s)
  {
  }

  lemma ExtendsTransitive(s: State, t: State, u: State)
    requires Extends(s, t) && Extends(t, u)
    ensures Extends(s, u)
  {
    assert u.outcomes[..|s.outcomes|] == u.outcomes[..|t.outcomes|][..|s.outcomes|];
  }

  lemma ExtendsAt(s: State, t: State, k: nat)
    requires Extends(s, t) && k < |s.outcomes|
    ensures k < |t.outcomes| && t.outcomes[k] == s.outcomes[k]
  {
    assert t.outcomes[..|s.outcomes|][k] == t.outcomes[k];
  }

  /** Every outcome of a step that drops or serves a request does so for cause. */
  lemma StepOutcomes(version: Versioning, s: State, ev: Event)
    requires Quiet(s)
    ensures var t := Step(version, s, ev);
            && Extends(s, t)
            && forall k :: |s.outcomes| <= k < |t.outcomes| ==>
                 && (t.outcomes[k].verdict == Dropped ==> CancelsAt(ev, t.outcomes[k].id))
                 && (t.outcomes[k].verdict == Success ==> Served(version, s, t, t.outcomes[k].id))
  {
    hide Validated, Emitted, Expected, Publications, Filled;
    if s.life == Stopped && ev.ManifestRequest? {
      FilledOutcomes(Arrived(s, ev.doc), NotRunning);
    } else if ev.ManifestRequest? {
      var t := MaybeFetched(Arrived(s, ev.doc), ev.expired);
      if !t.fetching {
        assert t.arrivals[|s.arrivals|] == ev.doc;
        ProcessedOutcomes(version, t, ev.checks);
      }
    } else if ev.FetchResult? {
      if s.life == Running && s.fetching {
        if ev.result.None? {
          FilledOutcomes(s.(fetching := false), FetchFailed);
        } else {
          ProcessedOutcomes(version, s.(fetching := false, fetched := true, data := ev.result.value), ev.checks);
        }
      }
    } else if ev.Shutdown? {
      FilledOutcomes(s, NotRunning);
    }
  }

  /** The step of a run in which an outcome was decided. */
  lemma {:induction false} OutcomeOrigin(version: Versioning, evs: seq<Event>, k: nat) returns (n: nat)
    requires k < |Exec(version, evs).outcomes|
    ensures n < |evs|
    ensures var s, t := Exec(version, evs[..n]), Exec(version, evs[..n + 1]);
            && t == Step(version, s, evs[n])
            && |s.outcomes| <= k < |t.outcomes|
            && t.outcomes[k] == Exec(version, evs).outcomes[k]
    decreases |evs|
  {
    hide Step;
    var last := |evs| - 1;
    var s := Exec(version, evs[..last]);
    RunStaysQuiet(version, evs[..last]);
    StepOutcomes(version, s, evs[last]);
    if k < |s.outcomes| {
      ExtendsAt(s, Exec(version, evs), k);
      n := OutcomeOrigin(version, evs[..last], k);
      assert evs[..last][..n] == evs[..n] && evs[..last][..n + 1] == evs[..n + 1];
    } else {
      n := last;
      assert evs[..last + 1] == evs;
    }
  }

  /** A request whose context is never found done gets an answer: by shutdown exactly one, and never
      the silent drop. */
  lemma UncancelledIsAnsweredOnce(version: Versioning, evs: seq<Event>, id: nat)
    requires id < |Exec(version, evs).arrivals| && Exec(version, evs).life == Stopped
    requires forall n :: 0 <= n < |evs| ==> !CancelsAt(evs[n], id)
    ensures Ended(Exec(version, evs).outcomes, id) == 1
    ensures forall k :: 0 <= k < |Exec(version, evs).outcomes| && Exec(version, evs).outcomes[k].id == id ==>
              Exec(version, evs).outcomes[k].verdict != Dropped
  {
    hide Step, Exec;
    EachRequestEndsOnce(version, evs, id);
    var s := Exec(version, evs);
    forall k | 0 <= k < |s.outcomes| && s.outcomes[k].id == id ensures s.outcomes[k].verdict != Dropped {
      var n := OutcomeOrigin(version, evs, k);
      RunStaysQuiet(version, evs[..n]);
      StepOutcomes(version, Exec(version, evs[..n]), evs[n]);
    }
  }

  /** A request is told of success only in a step that published, to every one of a nonempty list of
      leases, a document of the version it sent, which was the expected one; with distinct versions
      for distinct documents, its own document. */
  lemma SuccessMeansPublished(version: Versioning, evs: seq<Event>, k: nat) returns (n: nat, doc: Document)
    requires k < |Exec(version, evs).outcomes| && Exec(version, evs).outcomes[k].verdict == Success
    ensures n < |evs|
    ensures var id := Exec(version, evs).outcomes[k].id;
            var s, t := Exec(version, evs[..n]), Exec(version, evs[..n + 1]);
            && id < |t.arrivals|
            && t.data.leases != []
            && t.published == s.published + Publications(t.data.leases, doc)
            && version(doc) == version(t.arrivals[id]) == Expected(t)
            && ((forall a, b :: version(a) == version(b) ==> a == b) ==> doc == t.arrivals[id])
  {
    hide Step, Exec, Expected, Publications;
    n := OutcomeOrigin(version, evs, k);
    RunStaysQuiet(version, evs[..n]);
    var s, t := Exec(version, evs[..n]), Exec(version, evs[..n + 1]);
    StepOutcomes(version, s, evs[n]);
    assert Served(version, s, t, t.outcomes[k].id);
    doc :| version(doc) == Expected(t) && t.published == s.published + Publications(t.data.leases, doc);
  }

  // ---- Republishing ----

  /** A completed fetch with leases publishes again. What it publishes has the expected version exactly
      when a request was accepted in that step or the manifest already held has it. */
  lemma RepublishedIsCurrentIff(version: Versioning, s: State, data: Data, checks: Checks)
    requires Quiet(s) && s.life == Running && s.fetching && s.manifests != [] && data.leases != []
    ensures var t := Step(version, s, FetchResult(Some(data), checks));
            var expected := if s.versions != [] then s.versions[|s.versions| - 1] else data.hash;
            && t.manifests != []
            && t.published == s.published + Publications(data.leases, t.manifests[|t.manifests| - 1])
            && (version(t.manifests[|t.manifests| - 1]) == expected
                <==> (exists r :: r in s.requests && Judge(version, expected, r, checks).None?)
                     || version(s.manifests[|s.manifests| - 1]) == expected)
  {
    hide Judge, Rejections, Answers, Accepted;
    var t0 := s.(fetching := false, fetched := true, data := data);
    var e := Expected(t0);
    AcceptedNoneIff(version, e, s.requests, checks);
    if Accepted(version, e, s.requests, checks) != [] {
      AcceptedComeFrom(version, e, s.requests, checks, 0);
    }
  }

  /** It happens: a manifest accepted, an update to another version, then a new lease. For every
      versioning the run publishes the superseded manifest once more. */
  lemma SupersededManifestRepublished(version: Versioning, doc: Document, newer: Version, lease: Lease)
    requires newer != version(doc)
    ensures var s := Exec(version, [ManifestRequest(doc, false, map[]),
                                    FetchResult(Some(Data(version(doc), [lease])), map[]),
                                    Update(newer),
                                    NewLease(false),
                                    FetchResult(Some(Data(newer, [lease])), map[])]);
            && s.published == [Publication(lease, doc), Publication(lease, doc)]
            && Expected(s) == newer != version(doc)
            && s.outcomes == [Outcome(0, Success)]
  {
    var a := [ManifestRequest(doc, false, map[])];
    var b := a + [FetchResult(Some(Data(version(doc), [lease])), map[])];
    var c := b + [Update(newer)];
    var d := c + [NewLease(false)];
    var last := FetchResult(Some(Data(newer, [lease])), map[]);
    ExecNone(version);
    ExecOne(version, [], a[0]);
    ExecOne(version, a, b[1]);
    ExecOne(version, b, c[2]);
    ExecOne(version, c, d[3]);
    ExecOne(version, d, last);
    hide Exec;
    assert [] + a == a && [a[0], b[1], c[2], d[3], last] == d + [last];
    FirstFetch(version, Exec(version, a), doc, lease);
    Republish(version, Exec(version, d), doc, newer, lease);
  }

  lemma FirstFetch(version: Versioning, s: State, doc: Document, lease: Lease)
    requires s == Initial().(requests := [Request(0, doc)], arrivals := [doc], fetching := true)
    ensures var data := Data(version(doc), [lease]);
            Step(version, s, FetchResult(Some(data), map[]))
            == s.(requests := [], fetching := false, fetched := true, data := data, manifests := [doc],
                  outcomes := [Outcome(0, Success)], published := [Publication(lease, doc)])
  {
    var data := Data(version(doc), [lease]);
    var s0 := s.(fetching := false, fetched := true, data := data);
    SoleRequest(version, Request(0, doc));
    assert Publications([lease], doc) == [Publication(lease, doc)];
    hide Accepted, Rejections, Answers, Publications;
    var t := Validated(version, s0, map[]);
    assert t == s0.(requests := [], pending := [Request(0, doc)], manifests := [doc]);
    hide Validated;
    assert Emitted(t) == t.(published := [Publication(lease, doc)], outcomes := [Outcome(0, Success)], pending := []);
  }

  lemma SoleRequest(version: Versioning, r: Request)
    ensures Accepted(version, version(r.doc), [r], map[]) == [r]
    ensures Rejections(version, version(r.doc), [r], map[]) == []
    ensures Answers([r], Success) == [Outcome(r.id, Success)]
  {
    assert [r][..0] == [];
    BatchStep(version, version(r.doc), [r], map[], 0);
    assert [r][..1] == [r];
  }

  lemma Republish(version: Versioning, s: State, doc: Document, newer: Version, lease: Lease)
    requires s.life == Running && s.fetching && s.requests == [] && s.pending == []
    requires s.manifests == [doc] && s.versions == [newer]
    ensures var t := Step(version, s, FetchResult(Some(Data(newer, [lease])), map[]));
            && t.published == s.published + [Publication(lease, doc)]
            && t.outcomes == s.outcomes && Expected(t) == newer
  {
    assert Publications([lease], doc) == [Publication(lease, doc)];
  }

  lemma ExecNone(version: Versioning)
    ensures Exec(version, []) == Initial()
  {
  }

  lemma ExecOne(version: Versioning, evs: seq<Event>, ev: Event)
    ensures Exec(version, evs + [ev]) == Step(version, Exec(version, evs), ev)
  {
    hide Step;
    assert (evs + [ev])[..|evs|] == evs;
  }

  lemma {:induction false} AcceptedNoneIff(version: Versioning, expected: Version, rs: seq<Request>, checks: Checks)
    ensures Accepted(version, expected, rs, checks) == []
            <==> forall r :: r in rs ==> Judge(version, expected, r, checks).Some?
  {
    hide Judge;
    if rs != [] {
      var n := |rs| - 1;
      AcceptedNoneIff(version, expected, rs[..n], checks);
      assert rs == rs[..n] + [rs[n]];
    }
  }
}
