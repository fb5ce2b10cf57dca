/** The deployment manager's event loop: one deploy or teardown at a time, a monitor for a
    deployed lease, and at most one reclaim attempt. */
module DeploymentManager {
  import opened Wrappers

  datatype Phase =
    | DeployActive | DeployPending | DeployComplete
    | TeardownActive | TeardownPending | TeardownComplete

  /** Work running off the loop. A deploy remembers which update it was started for. */
  datatype Job = Deploy(version: nat) | Teardown

  datatype JobResult = Success | Failure | LeaseInactive

  datatype Life = Running | Stopped | Panicked

  /** `current` is the manager's monitor pointer, `live` the monitors not told to stop. */
  datatype Monitors = Monitors(current: Option<nat>, started: nat, live: set<nat>)

  /** `busy` is the gate and `attempts` what it guards: the attempts whose result nobody has read.
      `timer` says that the timer channel is not nil, `tickDue` that the timer has yet to fire, and
      `owed` that a deadline was received and no close has been broadcast for it. `target` is the
      deadline that the latest attempt was started with. */
  datatype Reclaim = Reclaim(
    busy: bool, attempts: int, started: nat, deadline: int, target: int, timer: bool, tickDue: bool, owed: bool)

  /** `version` counts updates received and `inflight` the jobs whose result nobody has read;
      `runch` and `retry` are the nil-able channels. */
  datatype State = State(
    phase: Phase, version: nat, lastDeploy: nat, runch: Option<Job>, inflight: int,
    mons: Monitors, retry: bool, rec: Reclaim, life: Life)

  datatype Event =
    | Shutdown
    | ReclaimDeadline(deadline: int)
    | ReclaimTick
    | ReclaimResult(done: bool)
    | Update
    | RunResult(result: JobResult)
    | RetryTick
    | TeardownRequest

  predicate TearingDown(phase: Phase) {
    phase == TeardownPending || phase == TeardownActive || phase == TeardownComplete
  }

  // ---- The loop's helpers on values ----

  function StoppedMonitor(m: Monitors): Monitors {
    if m.current.Some? then m.(live := m.live - {m.current.value}) else m
  }

  function StartedMonitor(m: Monitors): Monitors {
    Monitors(Some(m.started), m.started + 1, m.live + {m.started})
  }

  function Launched(s: State, phase: Phase, job: Job): State {
    s.(mons := StoppedMonitor(s.mons), phase := phase, runch := Some(job), inflight := s.inflight + 1)
  }

  function StartedDeploy(s: State): State {
    Launched(s, DeployActive, Deploy(s.version)).(lastDeploy := s.version)
  }

  function StartedTeardown(s: State): State {
    Launched(s, TeardownActive, Teardown)
  }

  function StartedReclaim(r: Reclaim, tearingDown: bool): Reclaim {
    if r.busy || tearingDown then r
    else r.(busy := true, target := r.deadline, attempts := r.attempts + 1, started := r.started + 1)
  }

  function FinishedReclaim(r: Reclaim, tearingDown: bool, done: bool): Reclaim {
    var t := r.(busy := false, attempts := r.attempts - 1);
    if tearingDown then t
    else if done then t.(timer := false, owed := false)
    else t.(timer := true, tickDue := true)
  }

  /** Leaving the loop: monitors see the shutdown, the pending job and all attempts are waited for. */
  function Exited(s: State): State {
    s.(life := Stopped, mons := s.mons.(live := {}), rec := s.rec.(attempts := 0),
       inflight := if s.runch.Some? then s.inflight - 1 else s.inflight)
  }

  /** The manager starts by deploying what it was created with. */
  function Initial(): State {
    StartedDeploy(State(DeployActive, 0, 0, None, 0, Monitors(None, 0, {}), false,
                        Reclaim(false, 0, 0, 0, 0, false, false, false), Running))
  }

  function OnRunResult(s: State, r: JobResult): State
    requires s.runch.Some?
  {
    var t := s.(runch := None, inflight := s.inflight - 1);
    if r == LeaseInactive then StartedTeardown(t)
    else
      match t.phase
      case DeployActive => t.(phase := DeployComplete, mons := StartedMonitor(t.mons))
      case DeployPending => StartedDeploy(t)
      case TeardownActive => if r == Failure then t.(retry := true) else Exited(t.(phase := TeardownComplete))
      case TeardownPending => StartedTeardown(t)
      case _ => t.(life := Panicked)
  }

  /** One turn of the select. A case on a nil channel, or on a result nobody will send, never fires. */
  function Step(s: State, ev: Event): State {
    if s.life != Running then s
    else
      match ev
      case Shutdown => Exited(s)
      case ReclaimDeadline(d) => s.(rec := StartedReclaim(s.rec.(deadline := d, owed := true), TearingDown(s.phase)))
      case ReclaimTick =>
        if s.rec.timer then s.(rec := StartedReclaim(s.rec.(tickDue := false), TearingDown(s.phase))) else s
      case ReclaimResult(done) =>
        if s.rec.attempts > 0 then s.(rec := FinishedReclaim(s.rec, TearingDown(s.phase), done)) else s
      case Update =>
        var t := s.(version := s.version + 1);
        (match t.phase
         case DeployActive => t.(phase := DeployPending)
         case DeployComplete => StartedDeploy(t)
         case _ => t)
      case RunResult(r) => if s.runch.Some? then OnRunResult(s, r) else s
      case RetryTick => if s.retry then StartedTeardown(s.(retry := false)) else s
      case TeardownRequest =>
        var t := s.(mons := StoppedMonitor(s.mons));
        (match t.phase
         case DeployActive => t.(phase := TeardownPending)
         case DeployPending => t.(phase := TeardownPending)
         case DeployComplete => StartedTeardown(t)
         case _ => t)
  }

  function Exec(evs: seq<Event>): State {
    if evs == [] then Initial() else Step(Exec(evs[..|evs| - 1]), evs[|evs| - 1])
  }

  // ---- The manager as an object ----

  class Manager {
    var phase: Phase
    var version: nat
    var lastDeploy: nat
    var runch: Option<Job>
    var inflight: int
    var mons: Monitors
    var retry: bool
    var rec: Reclaim
    var life: Life

    function View(): State
      reads this
    {
      State(phase, version, lastDeploy, runch, inflight, mons, retry, rec, life)
    }

    constructor ()
      ensures View() == Initial()
    {
      phase, version, lastDeploy, runch, inflight := DeployActive, 0, 0, None, 0;
      mons, retry := Monitors(None, 0, {}), false;
      rec, life := Reclaim(false, 0, 0, 0, 0, false, false, false), Running;
      new;
      StartDeploy();
    }

    method StopMonitor()
      modifies this`mons
      ensures mons == StoppedMonitor(old(mons))
    {
      if mons.current.Some? {
        mons := mons.(live := mons.live - {mons.current.value});
      }
    }

    method StartMonitor()
      modifies this`mons
      ensures mons == StartedMonitor(old(mons))
    {
      mons := Monitors(Some(mons.started), mons.started + 1, mons.live + {mons.started});
    }

    method StartDeploy()
      modifies this
      ensures View() == StartedDeploy(old(View()))
    {
      StopMonitor();
      phase := DeployActive;
      inflight := inflight + 1;
      lastDeploy := version;
      runch := Some(Deploy(version));
    }

    method StartTeardown()
      modifies this
      ensures View() == StartedTeardown(old(View()))
    {
      StopMonitor();
      phase := TeardownActive;
      inflight := inflight + 1;
      runch := Some(Teardown);
    }

    method StartReclaimAttempt()
      modifies this`rec
      ensures rec == StartedReclaim(old(rec), TearingDown(phase))
    {
      if rec.busy || TearingDown(phase) {
        return;
      }
      rec := rec.(busy := true, target := rec.deadline, attempts := rec.attempts + 1, started := rec.started + 1);
    }

    method FinishReclaimAttempt(done: bool)
      modifies this`rec
      ensures rec == FinishedReclaim(old(rec), TearingDown(phase), done)
    {
      rec := rec.(busy := false, attempts := rec.attempts - 1);
      if !TearingDown(phase) {
        if done {
          rec := rec.(timer := false, owed := false);
        } else {
          rec := rec.(timer := true, tickDue := true);
        }
      }
    }

    method HandleUpdate()
      modifies this
      ensures life == old(life)
      ensures View() == match old(phase)
                        case DeployActive => old(View()).(phase := DeployPending)
                        case DeployComplete => StartedDeploy(old(View()))
                        case _ => old(View())
    {
      match phase
      case DeployActive => phase := DeployPending;
      case DeployComplete => StartDeploy();
      case _ =>
    }

    method Exit()
      modifies this
      ensures View() == Exited(old(View()))
    {
      life := Stopped;
      mons := mons.(live := {});
      if runch.Some? {
        inflight := inflight - 1;
      }
      rec := rec.(attempts := 0);
    }

    method HandleRunResult(r: JobResult)
      requires runch.Some?
      modifies this
      ensures View() == OnRunResult(old(View()), r)
    {
      inflight := inflight - 1;
      runch := None;
      if r == LeaseInactive {
        StartTeardown();
        return;
      }
      match phase
      case DeployActive =>
        phase := DeployComplete;
        StartMonitor();
      case DeployPending => StartDeploy();
      case DeployComplete => life := Panicked;
      case TeardownActive =>
        if r == Failure {
          retry := true;
        } else {
          phase := TeardownComplete;
          Exit();
        }
      case TeardownPending => StartTeardown();
      case TeardownComplete => life := Panicked;
    }

    /** One turn of the select loop. */
    method Select(ev: Event)
      modifies this
      ensures View() == Step(old(View()), ev)
    {
      if life != Running {
        return;
      }
      match ev
      case Shutdown => Exit();
      case ReclaimDeadline(d) =>
        rec := rec.(deadline := d, owed := true);
        StartReclaimAttempt();
      case ReclaimTick =>
        if rec.timer {
          rec := rec.(tickDue := false);
          StartReclaimAttempt();
        }
      case ReclaimResult(done) =>
        if rec.attempts > 0 {
          FinishReclaimAttempt(done);
        }
      case Update =>
        version := version + 1;
        HandleUpdate();
      case RunResult(r) =>
        if runch.Some? {
          HandleRunResult(r);
        }
      case RetryTick =>
        if retry {
          retry := false;
          StartTeardown();
        }
      case TeardownRequest =>
        StopMonitor();
        match phase {
          case DeployActive => phase := TeardownPending;
          case DeployPending => phase := TeardownPending;
          case DeployComplete => StartTeardown();
          case _ =>
        }
    }
  }

  method RunManager(evs: seq<Event>) returns (m: Manager)
    ensures fresh(m) && m.View() == Exec(evs)
  {
    m := new Manager();
    for i := 0 to |evs|
      invariant fresh(m) && m.View() == Exec(evs[..i])
    {
      assert evs[..i + 1][..i] == evs[..i];
      m.Select(evs[i]);
    }
    assert evs[..|evs|] == evs;
  }

  // ---- Every run ----

  /** The phase says which job runs, the loop listens to it, and it is of the latest version. */
  ghost predicate JobsFit(s: State) {
    && s.phase != TeardownComplete
    && (s.retry ==> s.phase == TeardownActive)
    && s.runch == (match s.phase
                   case DeployActive => Some(Deploy(s.lastDeploy))
                   case DeployPending => Some(Deploy(s.lastDeploy))
                   case TeardownPending => Some(Deploy(s.lastDeploy))
                   case TeardownActive => if s.retry then None else Some(Teardown)
                   case _ => None)
    && s.inflight == (if s.runch.Some? then 1 else 0)
    && (s.phase == DeployActive || s.phase == DeployComplete ==> s.lastDeploy == s.version)
  }

  ghost predicate MonitorsFit(m: Monitors, phase: Phase) {
    && (m.current.Some? ==> m.current.value < m.started)
    && (forall k :: k in m.live ==> phase == DeployComplete && m.current == Some(k))
    && (phase == DeployComplete ==> m.current.Some? && m.current.value in m.live)
  }

  ghost predicate ReclaimFits(r: Reclaim, phase: Phase) {
    && r.attempts == (if r.busy then 1 else 0)
    && (r.owed && !TearingDown(phase) ==> r.busy || (r.timer && r.tickDue))
    && (r.busy || r.timer ==> r.owed)
  }

  ghost predicate Inv(s: State) {
    && s.life != Panicked
    && (s.life == Running ==> JobsFit(s) && MonitorsFit(s.mons, s.phase) && ReclaimFits(s.rec, s.phase))
    && (s.life == Stopped ==> s.inflight == 0 && s.mons.live == {} && s.rec.attempts == 0)
  }

  /** What a step keeps: the invariant, and teardown once begun. */
  ghost predicate Kept(s: State, t: State) {
    Inv(t) && (TearingDown(s.phase) ==> TearingDown(t.phase) && t.rec.started == s.rec.started)
  }

  lemma MonitorsKept(m: Monitors, phase: Phase, next: Phase)
    requires MonitorsFit(m, phase)
    ensures next != DeployComplete ==> MonitorsFit(StoppedMonitor(m), next)
    ensures phase != DeployComplete ==> MonitorsFit(StartedMonitor(m), DeployComplete)
    ensures phase != DeployComplete && next != DeployComplete ==> MonitorsFit(m, next)
    ensures StoppedMonitor(StoppedMonitor(m)) == StoppedMonitor(m)
  {
  }

  lemma ReclaimKept(r: Reclaim, phase: Phase, next: Phase, deadline: int, done: bool)
    requires ReclaimFits(r, phase)
    ensures TearingDown(phase) ==> TearingDown(next) ==> ReclaimFits(r, next)
    ensures !TearingDown(phase) ==> ReclaimFits(r, next)
    ensures ReclaimFits(StartedReclaim(r.(deadline := deadline, owed := true), TearingDown(phase)), phase)
    ensures r.timer ==> ReclaimFits(StartedReclaim(r.(tickDue := false), TearingDown(phase)), phase)
    ensures r.attempts > 0 ==> ReclaimFits(FinishedReclaim(r, TearingDown(phase), done), phase)
    ensures TearingDown(phase) ==> StartedReclaim(r.(deadline := deadline, owed := true), true).started == r.started
    ensures TearingDown(phase) ==> StartedReclaim(r.(tickDue := false), true).started == r.started
    ensures FinishedReclaim(r, TearingDown(phase), done).started == r.started
  {
  }

  lemma ResultKeeps(s: State, r: JobResult)
    requires s.life == Running && Inv(s) && s.runch.Some?
    ensures Kept(s, OnRunResult(s, r))
  {
    hide MonitorsFit, ReclaimFits, StoppedMonitor, StartedMonitor;
    MonitorsKept(s.mons, s.phase, DeployActive);
    MonitorsKept(s.mons, s.phase, TeardownActive);
    ReclaimKept(s.rec, s.phase, DeployActive, 0, true);
    ReclaimKept(s.rec, s.phase, DeployComplete, 0, true);
    ReclaimKept(s.rec, s.phase, TeardownActive, 0, true);
  }

  lemma RequestKeeps(s: State, ev: Event)
    requires s.life == Running && Inv(s)
    requires ev.Update? || ev.RetryTick? || ev.TeardownRequest? || ev.Shutdown?
    ensures Kept(s, Step(s, ev))
  {
    hide MonitorsFit, ReclaimFits, StoppedMonitor;
    MonitorsKept(s.mons, s.phase, s.phase);
    MonitorsKept(s.mons, s.phase, DeployActive);
    MonitorsKept(s.mons, s.phase, DeployPending);
    MonitorsKept(s.mons, s.phase, TeardownPending);
    MonitorsKept(s.mons, s.phase, TeardownActive);
    ReclaimKept(s.rec, s.phase, DeployActive, 0, true);
    ReclaimKept(s.rec, s.phase, DeployPending, 0, true);
    ReclaimKept(s.rec, s.phase, TeardownPending, 0, true);
    ReclaimKept(s.rec, s.phase, TeardownActive, 0, true);
  }

  lemma ReclaimEventKeeps(s: State, ev: Event)
    requires s.life == Running && Inv(s)
    requires ev.ReclaimDeadline? || ev.ReclaimTick? || ev.ReclaimResult?
    ensures Kept(s, Step(s, ev))
  {
    hide MonitorsFit, ReclaimFits, StartedReclaim, FinishedReclaim;
    match ev
    case ReclaimDeadline(d) => ReclaimKept(s.rec, s.phase, s.phase, d, true);
    case ReclaimTick => ReclaimKept(s.rec, s.phase, s.phase, 0, true);
    case ReclaimResult(done) => ReclaimKept(s.rec, s.phase, s.phase, 0, done);
  }

  lemma StepKeepsInv(s: State, ev: Event)
    requires Inv(s)
    ensures Kept(s, Step(s, ev))
  {
    hide OnRunResult, JobsFit, MonitorsFit, ReclaimFits;
    if s.life == Running {
      match ev
      case RunResult(r) =>
        if s.runch.Some? {
          ResultKeeps(s, r);
        }
      case ReclaimDeadline(_) => ReclaimEventKeeps(s, ev);
      case ReclaimTick => ReclaimEventKeeps(s, ev);
      case ReclaimResult(_) => ReclaimEventKeeps(s, ev);
      case _ => RequestKeeps(s, ev);
    }
  }

  lemma {:induction false} RunKeepsInv(evs: seq<Event>)
    ensures Inv(Exec(evs))
  {
    if evs != [] {
      RunKeepsInv(evs[..|evs| - 1]);
      StepKeepsInv(Exec(evs[..|evs| - 1]), evs[|evs| - 1]);
    }
  }

  /** In every run neither "INVALID STATE" panic is reached, at most one deploy or teardown is in
      flight and the loop is always listening to it, at most one reclaim attempt is in flight, and
      once the loop has ended nothing is left running. */
  lemma NoPanicOneJob(evs: seq<Event>)
    ensures Exec(evs).life != Panicked
    ensures 0 <= Exec(evs).inflight <= 1
    ensures Exec(evs).life == Running ==> (Exec(evs).inflight == 1 <==> Exec(evs).runch.Some?)
    ensures Exec(evs).rec.attempts <= 1
    ensures Exec(evs).life == Stopped ==>
              Exec(evs).inflight == 0 && Exec(evs).mons.live == {} && Exec(evs).rec.attempts == 0
  {
    RunKeepsInv(evs);
  }

  /** No update is lost: deploy-active and deploy-complete mean that the last deploy was started
      after the most recent update; an update during a deploy leaves it pending, and its result
      starts the next deploy. */
  lemma NoUpdateLost(evs: seq<Event>)
    ensures var s := Exec(evs);
            s.life == Running ==>
              && (s.phase == DeployActive || s.phase == DeployComplete ==> s.lastDeploy == s.version)
              && (s.phase == DeployPending ==>
                    && s.runch.Some?
                    && forall r :: r != LeaseInactive ==> Step(s, RunResult(r)).lastDeploy == s.version)
  {
    RunKeepsInv(evs);
  }

  function Updates(evs: seq<Event>): nat {
    if evs == [] then 0 else Updates(evs[..|evs| - 1]) + (if evs[|evs| - 1].Update? then 1 else 0)
  }

  lemma StepCounts(s: State, ev: Event)
    requires s.life == Running
    ensures Step(s, ev).version == s.version + (if ev.Update? then 1 else 0)
  {
    hide StoppedMonitor, StartedMonitor, StartedReclaim, FinishedReclaim;
  }

  /** The version is the number of updates received while the loop ran. */
  lemma {:induction false} VersionCountsUpdates(evs: seq<Event>)
    requires Exec(evs).life == Running
    ensures Exec(evs).version == Updates(evs)
    decreases |evs|
  {
    hide Step;
    if evs != [] {
      var n := |evs| - 1;
      if Exec(evs[..n]).life != Running {
        StoppedStays(Exec(evs[..n]), evs[n]);
      }
      VersionCountsUpdates(evs[..n]);
      StepCounts(Exec(evs[..n]), evs[n]);
    }
  }

  /** At most one monitor has not been told to stop, it is the current one, and only a completed
      deploy has one. */
  lemma OneLiveMonitor(evs: seq<Event>, j: nat, k: nat)
    requires j in Exec(evs).mons.live && k in Exec(evs).mons.live
    ensures j == k && Exec(evs).mons.current == Some(k) && Exec(evs).phase == DeployComplete
  {
    RunKeepsInv(evs);
  }

  /** A completed deploy is monitored for as long as it stays completed. */
  lemma DeployedIsMonitored(evs: seq<Event>)
    requires Exec(evs).life == Running && Exec(evs).phase == DeployComplete
    ensures Exec(evs).mons.current.Some? && Exec(evs).mons.live == {Exec(evs).mons.current.value}
  {
    RunKeepsInv(evs);
  }

  /** A teardown is running, or the next result of the running deploy launches one whatever it is, or
      the retry timer is armed and its tick launches one. */
  ghost predicate TeardownUnderWay(s: State) {
    || (s.runch == Some(Teardown) && s.inflight == 1)
    || (s.runch.Some? && forall r :: Step(s, RunResult(r)).runch == Some(Teardown))
    || (s.retry && Step(s, RetryTick).runch == Some(Teardown))
  }

  /** A teardown request is never ignored: from any running state it leads into teardown, and in every
      run a loop in teardown has one under way. */
  lemma TeardownRequestIsServed(evs: seq<Event>)
    requires Exec(evs).life == Running
    ensures Exec(evs + [TeardownRequest]).life == Running && TearingDown(Exec(evs + [TeardownRequest]).phase)
    ensures TeardownUnderWay(Exec(evs + [TeardownRequest]))
  {
    assert (evs + [TeardownRequest])[..|evs|] == evs;
    RunKeepsInv(evs);
    TearingDownIsUnderWay(evs + [TeardownRequest]);
  }

  lemma TearingDownIsUnderWay(evs: seq<Event>)
    ensures Exec(evs).life == Running && TearingDown(Exec(evs).phase) ==> TeardownUnderWay(Exec(evs))
  {
    RunKeepsInv(evs);
    hide Exec;
  }

  /** A lease the chain reports inactive is torn down at once, whatever the phase. */
  lemma InactiveLeaseIsTornDown(evs: seq<Event>)
    requires Exec(evs).life == Running && Exec(evs).runch.Some?
    ensures var t := Step(Exec(evs), RunResult(LeaseInactive));
            t.life == Running && t.phase == TeardownActive && t.runch == Some(Teardown) && t.inflight == 1
  {
    RunKeepsInv(evs);
    hide Exec;
  }

  /** The loop ends exactly on a shutdown or on the success of a running teardown. */
  lemma LoopEndsIff(evs: seq<Event>, ev: Event)
    requires Exec(evs).life == Running
    ensures var s, t := Exec(evs), Step(Exec(evs), ev);
            && (t.life != Running <==> ev.Shutdown? || (ev == RunResult(Success) && s.runch == Some(Teardown)))
            && (t.life != Running && !ev.Shutdown? ==> t.phase == TeardownComplete)
  {
    RunKeepsInv(evs);
    hide Exec;
  }

  /** A deadline is owed from its arrival until an attempt reports the close as broadcast; in teardown
      nothing is rescheduled or settled any more. */
  lemma OwedUntilClosed(s: State, ev: Event)
    requires s.life == Running
    ensures ev.ReclaimDeadline? ==> Step(s, ev).rec.owed
    ensures s.rec.owed && !Step(s, ev).rec.owed ==>
              ev == ReclaimResult(true) && s.rec.attempts > 0 && !TearingDown(s.phase)
    ensures TearingDown(s.phase) ==> Step(s, ev).rec.timer == s.rec.timer
  {
    hide StoppedMonitor, StartedMonitor;
  }

  /** In every run an attempt is in flight, or its timer running, only while a close is owed: once one
      is broadcast, none is tried until another deadline comes. */
  lemma NoAttemptUnlessOwed(evs: seq<Event>)
    requires Exec(evs).life == Running && (Exec(evs).rec.attempts > 0 || Exec(evs).rec.timer)
    ensures Exec(evs).rec.owed
  {
    RunKeepsInv(evs);
  }

  /** Teardown is final: later states are never deploy states again and no reclaim attempt starts. */
  lemma {:induction false} TeardownIsFinal(evs: seq<Event>, k: nat)
    requires k <= |evs| && TearingDown(Exec(evs[..k]).phase)
    ensures TearingDown(Exec(evs).phase) && Exec(evs).rec.started == Exec(evs[..k]).rec.started
    decreases |evs|
  {
    if k == |evs| {
      assert evs[..k] == evs;
    } else {
      var n := |evs| - 1;
      assert evs[..n][..k] == evs[..k];
      TeardownIsFinal(evs[..n], k);
      RunKeepsInv(evs[..n]);
      StepKeepsInv(Exec(evs[..n]), evs[n]);
    }
  }

  /** The deadline received last. */
  function LastDeadline(evs: seq<Event>): int {
    if evs == [] then 0
    else
      var ev := evs[|evs| - 1];
      if ev.ReclaimDeadline? then ev.deadline else LastDeadline(evs[..|evs| - 1])
  }

  lemma StepDeadline(s: State, ev: Event)
    requires s.life == Running
    ensures var t := Step(s, ev);
            && t.rec.deadline == (if ev.ReclaimDeadline? then ev.deadline else s.rec.deadline)
            && (t.rec.started != s.rec.started ==> t.rec.target == t.rec.deadline)
  {
  }

  lemma StoppedStays(s: State, ev: Event)
    requires s.life != Running
    ensures Step(s, ev) == s
  {
  }

  lemma {:induction false} DeadlineIsLast(evs: seq<Event>)
    requires evs == [] || Exec(evs[..|evs| - 1]).life == Running
    ensures Exec(evs).rec.deadline == LastDeadline(evs)
    decreases |evs|
  {
    hide Step;
    if evs != [] {
      var n := |evs| - 1;
      StepDeadline(Exec(evs[..n]), evs[n]);
      if n > 0 {
        if Exec(evs[..n][..n - 1]).life != Running {
          StoppedStays(Exec(evs[..n][..n - 1]), evs[..n][n - 1]);
        }
      }
      DeadlineIsLast(evs[..n]);
    }
  }

  /** An attempt is always started for the deadline received last, also when that came while an
      earlier attempt was in flight. */
  lemma AttemptsUseLastDeadline(evs: seq<Event>, ev: Event)
    requires Exec(evs + [ev]).rec.started != Exec(evs).rec.started
    ensures Exec(evs + [ev]).rec.target == LastDeadline(evs + [ev])
  {
    hide Step;
    assert (evs + [ev])[..|evs|] == evs;
    if Exec(evs).life != Running {
      StoppedStays(Exec(evs), ev);
    }
    StepDeadline(Exec(evs), ev);
    DeadlineIsLast(evs + [ev]);
  }

  /** A reclamation deadline is never forgotten: until a close is broadcast or teardown begins, an
      attempt is in flight or the timer for the next one is running. */
  lemma OwedReclaimIsScheduled(evs: seq<Event>)
    ensures var s := Exec(evs);
            s.life == Running && s.rec.owed && !TearingDown(s.phase) ==>
              s.rec.attempts == 1 || (s.rec.timer && s.rec.tickDue)
  {
    RunKeepsInv(evs);
  }
}
