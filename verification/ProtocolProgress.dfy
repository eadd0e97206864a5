/** When a tearDown that waits for its Quit can still get through. */
module ProtocolProgress {
  import opened Options
  import opened FailureCounter
  import opened Protocol
  import opened ProtocolInvariant
  import opened ProtocolSafety

  /** The checker can still come back to its select: its type is supported, and it is not
      running, or reporting, a check that a tick surviving ticker.Stop() started after Done. */
  predicate CheckerReturns(cfg: Config, c: Checking) {
    cfg.supported && !(PhaseOf(c.trace) == DoneSeen && (c.run == InCheck || c.run.SendHealthy?))
  }

  /** The tearDown of a waits for its Quit, and no Quit has been accepted yet. */
  predicate Waits(s: State, a: Actor) {
    s.calls.Of(a).AtQuit? && !QuitAccepted(s.hc)
  }

  /** The next step of a schedule that gets a's Quit accepted. It uses the goroutine that
      spawns healthCheck, healthCheck and the checker only; when a check is running, its
      result is not up to the schedule and comes from `outcome`. */
  function Drive(s: State, a: Actor, outcome: bool): Step {
    match s.hc.run
    case RunOff => if s.hc.health == Boot then HealthBoots else LaunchStep(true)
    case Sleeping => WakeUp
    case Ticking => MeetQuit(a)
    case InCheck => CheckYields(outcome)
    case SendDone => if s.hc.health == Updating then HealthUpdates else MeetDone
    case _ => if s.hc.health == Updating then HealthUpdates else MeetHealthy
  }

  /** How many steps of the schedule are left. */
  function Measure(c: Checking): nat {
    match c.run
    case RunOff => if c.health == Boot then 3 else 4
    case Sleeping => 2
    case Ticking => 1
    case InCheck => 4
    case _ => if c.health == Updating then 3 else 2
  }

  /** c is closer to accepting a Quit than before. */
  predicate Closer(cfg: Config, c: Checking, before: nat) {
    !QuitAccepted(c) && CheckerReturns(cfg, c) && 0 < Measure(c) < before
  }

  lemma DriveChecking(cfg: Config, s: State, a: Actor, outcome: bool)
    requires ControlInv(cfg, s) && CheckerInv(cfg, s.hc) && Waits(s, a) && CheckerReturns(cfg, s.hc)
    requires var step := Drive(s, a, outcome); !step.LaunchStep? && !step.MeetQuit? && !step.MeetDone?
    ensures var step := Drive(s, a, outcome);
            EnabledChecking(s.hc, step) && Closer(cfg, OnChecking(cfg, s.hc, step), Measure(s.hc))
  {
    hide PhaseOf;
    match Drive(s, a, outcome)
    case CheckYields(_) => CheckFrame(cfg, s.hc, outcome);
    case MeetHealthy =>
      hide OnCheck;
      PhaseExtends(s.hc.trace, MHealthy(s.hc.run.healthy));
    case _ => hide OnCheck;
  }

  lemma DriveDone(cfg: Config, s: State, a: Actor)
    requires ControlInv(cfg, s) && CheckerInv(cfg, s.hc) && Waits(s, a) && CheckerReturns(cfg, s.hc)
    requires s.hc.run == SendDone && s.hc.health != Updating
    ensures Enabled(cfg, s, MeetDone)
    ensures var t := Apply(cfg, s, MeetDone); Waits(t, a) && Closer(cfg, t.hc, Measure(s.hc))
  {
    hide PhaseOf;
    PhaseExtends(s.hc.trace, MDone);
  }

  /** If healthCheck has not been started, the event loop is just about to do so. */
  lemma DriveSpawn(cfg: Config, s: State, a: Actor)
    requires ControlInv(cfg, s) && CheckerInv(cfg, s.hc) && OwnerInv(s.calls, s.installed, false, s.owner, s.acts)
    requires Waits(s, a) && CheckerReturns(cfg, s.hc)
    requires s.hc.run == RunOff && s.hc.health != Boot
    ensures Enabled(cfg, s, LaunchStep(true))
    ensures var t := Apply(cfg, s, LaunchStep(true)); Waits(t, a) && Closer(cfg, t.hc, Measure(s.hc))
  {
    hide PhaseOf;
    assert s.installed && s.loop == Launching(Spawn);
    assert Apply(cfg, s, LaunchStep(true)) == s.(loop := Launching(Announce), hc := s.hc.(health := Boot));
  }

  lemma DriveQuit(cfg: Config, s: State, a: Actor)
    requires CheckerInv(cfg, s.hc) && Waits(s, a) && s.hc.run == Ticking
    ensures Enabled(cfg, s, MeetQuit(a))
    ensures var t := Apply(cfg, s, MeetQuit(a)); QuitAccepted(t.hc) && t.owner == Some(a)
  {
    hide PhaseOf;
    PhaseExtends(s.hc.trace, MQuit);
  }

  lemma DriveStep(cfg: Config, s: State, a: Actor, outcome: bool, step: Step)
    requires Inv(cfg, s) && Waits(s, a) && CheckerReturns(cfg, s.hc)
    requires step == Drive(s, a, outcome) && step != MeetQuit(a)
    ensures Enabled(cfg, s, step)
    ensures var t := Apply(cfg, s, step); Waits(t, a) && Closer(cfg, t.hc, Measure(s.hc))
  {
    hide PhaseOf;
    match step
    case LaunchStep(_) => DriveSpawn(cfg, s, a);
    case MeetDone => DriveDone(cfg, s, a);
    case _ => DriveChecking(cfg, s, a, outcome);
  }

  lemma DriveOutcome(s: State, a: Actor, outcome: bool)
    ensures var step := Drive(s, a, outcome);
            && (step.CheckYields? ==> step.healthy == outcome)
            && (step == MeetQuit(a) ==> s.hc.run == Ticking)
  {
  }

  lemma DriveKinds(s: State, a: Actor, outcome: bool)
    ensures var step := Drive(s, a, outcome);
            || step == LaunchStep(true) || step == MeetQuit(a) || step == MeetDone
            || step == HealthBoots || step == HealthUpdates || step == WakeUp
            || step.CheckYields? || step == MeetHealthy
  {
  }

  /** The schedule does not make Execute return. */
  lemma DriveGoesOn(cfg: Config, s: State, a: Actor, outcome: bool)
    requires s.loop != Returned && Enabled(cfg, s, Drive(s, a, outcome))
    ensures Apply(cfg, s, Drive(s, a, outcome)).loop != Returned
  {
    DriveKinds(s, a, outcome);
    hide OnChecking, OnLaunchStep, Drive;
    if Drive(s, a, outcome) == LaunchStep(true) {
      LaunchFrame(cfg, s, s.loop.stage, true);
    }
  }

  /** From every reachable state in which Execute has not returned, a waits, and the checker can
      return to its select, a schedule of at most four steps gets exactly a's Quit accepted,
      whatever the check that may be running yields, and before Execute returns. */
  lemma {:induction false} WaiterGetsThrough(cfg: Config, s: State, a: Actor, outcome: bool) returns (steps: seq<Step>)
    requires Reachable(cfg, s) && s.loop != Returned && Waits(s, a) && CheckerReturns(cfg, s.hc)
    ensures Runs(cfg, s, steps) && |steps| <= Measure(s.hc) <= 4
    ensures QuitAccepted(End(cfg, s, steps).hc) && End(cfg, s, steps).owner == Some(a)
    ensures End(cfg, s, steps).loop != Returned
    ensures forall i :: 0 <= i < |steps| && steps[i].CheckYields? ==> steps[i].healthy == outcome
    decreases Measure(s.hc)
  {
    hide PhaseOf;
    ReachableInv(cfg, s);
    DriveOutcome(s, a, outcome);
    hide Apply, Enabled, QuitAccepted, Inv, Reachable, Drive, Runs, End;
    var step := Drive(s, a, outcome);
    if step == MeetQuit(a) {
      DriveQuit(cfg, s, a);
      DriveGoesOn(cfg, s, a, outcome);
      RunsNothing(cfg, Apply(cfg, s, step));
      RunsCons(cfg, s, step, []);
      steps := [step] + [];
    } else {
      DriveStep(cfg, s, a, outcome, step);
      DriveGoesOn(cfg, s, a, outcome);
      ReachableStep(cfg, s, step);
      var rest := WaiterGetsThrough(cfg, Apply(cfg, s, step), a, outcome);
      RunsCons(cfg, s, step, rest);
      steps := [step] + rest;
    }
  }

  lemma UnsupportedStep(cfg: Config, s: State, step: Step)
    requires CheckerInv(cfg, s.hc) && Enabled(cfg, s, step)
    requires !QuitAccepted(s.hc) && !cfg.supported
    ensures !QuitAccepted(Apply(cfg, s, step).hc)
  {
    hide PhaseOf;
    match step
    case MeetHealthy => PhaseExtends(s.hc.trace, MHealthy(false));
    case MeetDone => assert false;
    case MeetQuit(_) => assert false;
    case MeetExited => assert false;
    case _ =>
      QuietStep(cfg, s, step);
      hide Apply, CheckerInv;
  }

  predicate Reporting(c: Checking) {
    c.run == InCheck || c.run.SendHealthy?
  }

  /** A check or its report after Done stays one, whatever the others do. */
  lemma ReportingStays(cfg: Config, s: State, step: Step)
    requires Enabled(cfg, s, step) && Reporting(s.hc)
    requires s.hc.health == HealthTearing && (s.hc.run == InCheck ==> s.hc.grace && s.hc.failures == cfg.threshold)
    ensures !step.MeetHealthy? && !step.MeetDone? && !step.MeetQuit? && !step.MeetExited?
    ensures Reporting(Apply(cfg, s, step).hc)
  {
    hide OnCallStep, OnReport, OnEvent, OnLaunchStep, OnChecking, EnabledChecking, Calls.With, CanFail, PhaseOf;
    match step {
      case CallStep(a) => CallFrame(s, a);
      case ReportStep(a, answer) => ReportFrame(s, a, answer);
      case LaunchStep(ok) => LaunchFrame(cfg, s, s.loop.stage, ok);
      case LoopEvent(ev) => EventFrame(s, ev);
      case LoopHead =>
      case SignalArrives =>
      case ContainerExits(_) =>
      case MeetQuit(_) => assert false;
      case MeetDone => assert false;
      case _ => ReportingChecking(cfg, s.hc, step);
    }
  }

  lemma ReportingChecking(cfg: Config, c: Checking, step: Step)
    requires EnabledChecking(c, step) && Reporting(c)
    requires c.health == HealthTearing && (c.run == InCheck ==> c.grace && c.failures == cfg.threshold)
    ensures !step.MeetHealthy? && !step.MeetExited?
    ensures Reporting(OnChecking(cfg, c, step))
  {
    hide OnCheck;
    if step.CheckYields? {
      ReportsCheck(cfg, c, step.healthy);
    }
  }

  lemma ReportsCheck(cfg: Config, c: Checking, healthy: bool)
    requires c.grace && c.failures == cfg.threshold
    ensures OnCheck(cfg, c, healthy).run.SendHealthy?
  {
    NoSecondReach(cfg.threshold, healthy);
  }

  lemma StuckStep(cfg: Config, s: State, step: Step)
    requires Inv(cfg, s) && Enabled(cfg, s, step)
    requires !QuitAccepted(s.hc) && !CheckerReturns(cfg, s.hc)
    ensures var t := Apply(cfg, s, step); !QuitAccepted(t.hc) && !CheckerReturns(cfg, t.hc)
  {
    hide PhaseOf;
    if !cfg.supported {
      UnsupportedStep(cfg, s, step);
    } else {
      ReportingStays(cfg, s, step);
      QuietStep(cfg, s, step);
    }
    hide Apply, Enabled;
  }

  lemma {:induction false} StuckForever(cfg: Config, s: State, steps: seq<Step>)
    requires Reachable(cfg, s) && Runs(cfg, s, steps)
    requires !QuitAccepted(s.hc) && !CheckerReturns(cfg, s.hc)
    ensures !QuitAccepted(End(cfg, s, steps).hc)
    decreases |steps|
  {
    hide PhaseOf;
    if |steps| == 0 {
    } else {
      ReachableInv(cfg, s);
      StuckStep(cfg, s, steps[0]);
      ReachableStep(cfg, s, steps[0]);
      StuckForever(cfg, Apply(cfg, s, steps[0]), steps[1..]);
    }
  }

  ghost predicate CanGetThrough(cfg: Config, s: State) {
    exists steps :: Runs(cfg, s, steps) && QuitAccepted(End(cfg, s, steps).hc)
  }

  /** The same while the process is alive, which ends when Execute returns. */
  ghost predicate CanGetThroughAlive(cfg: Config, s: State) {
    exists steps ::
      Runs(cfg, s, steps) && QuitAccepted(End(cfg, s, steps).hc) && End(cfg, s, steps).loop != Returned
  }

  /** Exactly when a waiting tearDown can still be let through before Execute returns. If it
      cannot, then not by any run at all. */
  lemma ProgressIff(cfg: Config, s: State, a: Actor)
    requires Reachable(cfg, s) && s.loop != Returned && Waits(s, a)
    ensures CanGetThroughAlive(cfg, s) <==> CheckerReturns(cfg, s.hc)
    ensures CanGetThrough(cfg, s) <==> CheckerReturns(cfg, s.hc)
  {
    hide PhaseOf;
    if CheckerReturns(cfg, s.hc) {
      var steps := WaiterGetsThrough(cfg, s, a, true);
    } else {
      forall steps | Runs(cfg, s, steps) ensures !QuitAccepted(End(cfg, s, steps).hc) {
        StuckForever(cfg, s, steps);
      }
    }
  }

  /** With a supported check type and no tick surviving ticker.Stop(), that is always. */
  lemma ProgressWithoutStaleTicks(cfg: Config, s: State, a: Actor)
    requires cfg.supported && !cfg.tickMaySurviveStop
    requires Reachable(cfg, s) && s.loop != Returned && Waits(s, a)
    ensures CanGetThroughAlive(cfg, s)
  {
    hide PhaseOf;
    ReachableInv(cfg, s);
    ProgressIff(cfg, s, a);
  }

  lemma NoQuitInTrace(cfg: Config, s: State)
    requires Reachable(cfg, s) && !QuitAccepted(s.hc)
    ensures s.acts == [] && MQuit !in s.hc.trace
  {
    hide PhaseOf;
    ReachableInv(cfg, s);
    PhaseShape(s.hc.trace);
    var t, e := s.hc.trace, EndingOf(PhaseOf(s.hc.trace));
    assert t == t[..|t| - |e|] + e;
    assert MQuit !in t[..|t| - |e|];
  }

  /** With an unsupported check type no tearDown that sees the checker is ever completed. */
  lemma UnsupportedNeverTearsDown(cfg: Config, s: State)
    requires !cfg.supported && Reachable(cfg, s)
    ensures s.acts == [] && MQuit !in s.hc.trace
  {
    var steps :| Runs(cfg, Init(), steps) && End(cfg, Init(), steps) == s;
    RunsNothing(cfg, Init());
    StuckForever(cfg, Init(), steps);
    NoQuitInTrace(cfg, s);
  }
}
