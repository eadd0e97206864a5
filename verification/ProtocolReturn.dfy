/** When Execute can still return, and when the tearDowns of different goroutines block it. */
module ProtocolReturn {
  import opened Status
  import opened Protocol
  import opened ProtocolInvariant
  import opened ProtocolSafety
  import opened ProtocolProgress
  import opened ProtocolWitness

  ghost predicate CanReturn(cfg: Config, s: State) {
    exists steps :: Runs(cfg, s, steps) && End(cfg, s, steps).loop == Returned
  }

  /** Execute can return without a's call having moved. */
  ghost predicate CanReturnBefore(cfg: Config, s: State, a: Actor) {
    exists steps ::
      && Runs(cfg, s, steps) && End(cfg, s, steps).loop == Returned
      && End(cfg, s, steps).calls.Of(a) == s.calls.Of(a)
  }

  /** A call that has not sent its Quit yet. */
  predicate BeforeQuit(c: Call) {
    c.Entering? || c.AtQuit?
  }

  /** No Quit is ever accepted any more. */
  predicate NoQuitAhead(cfg: Config, c: Checking) {
    QuitAccepted(c) || !CheckerReturns(cfg, c)
  }

  /** Where Execute can return from. At its head, decoding an event or launching it always can.
      Inside the tearDown of a failed launch, which is followed by another one, it can if the
      checker is not installed. Inside its last tearDown it can if that one is not to send a
      Quit, has got past it, or can still do so. */
  predicate ReturnAhead(cfg: Config, s: State) {
    match s.loop
    case Tearing(after) =>
      !s.installed || (after != ToKill && (BeforeQuit(s.calls.loop) ==> !NoQuitAhead(cfg, s.hc)))
    case _ => true
  }

  /** The stop-signal handler, healthCheck and a KILL set Shutdown before they tear down, and the
      tearDown of the event loop finds the checker installed or not once and for all. */
  predicate LoopInv(s: State) {
    && (s.signal != Listening || s.loop == Tearing(ToEvents) || s.calls.health != Idle ==> s.shutdown)
    && (s.loop.Tearing? && s.installed ==> BeforeQuit(s.calls.loop) || Past(s.calls.loop))
  }

  /** The event loop itself moves. */
  predicate LoopMoves(step: Step) {
    || step == LoopHead || step.LoopEvent? || step.LaunchStep? || step == CallStep(Loop)
    || step == MeetQuit(Loop) || (step.ReportStep? && step.a == Loop)
  }

  lemma Bystanders(cfg: Config, s: State, step: Step)
    requires ControlInv(cfg, s) && Enabled(cfg, s, step) && !LoopMoves(step)
    ensures var t := Apply(cfg, s, step);
            && t.loop == s.loop && t.installed == s.installed && t.calls.loop == s.calls.loop
            && (s.shutdown ==> t.shutdown) && (t.signal != s.signal && s.signal == Listening ==> t.shutdown)
            && (t.calls.health != Idle && s.calls.health == Idle ==> t.shutdown)
  {
    hide PhaseOf;
    hide OnCallStep, OnReport, OnEvent, OnLaunchStep, OnChecking;
    match step
    case CallStep(a) => CallFrame(s, a);
    case ReportStep(a, answer) => ReportFrame(s, a, answer);
    case _ =>
  }

  lemma LoopMovesKeep(cfg: Config, s: State, step: Step)
    requires LoopInv(s) && ControlInv(cfg, s) && Enabled(cfg, s, step) && LoopMoves(step)
    ensures LoopInv(Apply(cfg, s, step))
  {
    hide PhaseOf;
    hide OnChecking, LaunchInv, OnReport, OnCallStep, PhaseOf;
    match step {
      case LoopHead =>
      case LoopEvent(ev) =>
      case LaunchStep(ok) =>
      case CallStep(_) => LoopCalls(s);
      case ReportStep(_, answer) => LoopReportFrame(s, answer);
      case MeetQuit(_) =>
    }
  }

  lemma LoopCalls(s: State)
    requires LoopInv(s)
    ensures LoopInv(OnCallStep(s, Loop))
  {
  }

  lemma LoopInvKept(cfg: Config, s: State, step: Step)
    requires LoopInv(s) && ControlInv(cfg, s) && Enabled(cfg, s, step)
    ensures LoopInv(Apply(cfg, s, step))
  {
    hide PhaseOf;
    if LoopMoves(step) {
      LoopMovesKeep(cfg, s, step);
    } else {
      Bystanders(cfg, s, step);
      hide Apply, Enabled, ControlInv;
    }
  }

  lemma {:induction false} LoopInvAlways(cfg: Config, s: State, steps: seq<Step>)
    requires Inv(cfg, s) && LoopInv(s) && Runs(cfg, s, steps)
    ensures LoopInv(End(cfg, s, steps))
    decreases |steps|
  {
    hide PhaseOf;
    if |steps| == 0 {
    } else {
      LoopInvKept(cfg, s, steps[0]);
      StepInv(cfg, s, steps[0]);
      LoopInvAlways(cfg, Apply(cfg, s, steps[0]), steps[1..]);
    }
  }

  lemma ReachableLoopInv(cfg: Config, s: State)
    requires Reachable(cfg, s)
    ensures LoopInv(s)
  {
    hide PhaseOf;
    InitInv(cfg);
    var steps :| Runs(cfg, Init(), steps) && End(cfg, Init(), steps) == s;
    LoopInvAlways(cfg, Init(), steps);
  }

  // ----- what blocks for good

  predicate Blocked(cfg: Config, s: State) {
    && s.loop.Tearing? && s.installed
    && (s.loop == Tearing(ToKill) || (BeforeQuit(s.calls.loop) && NoQuitAhead(cfg, s.hc)))
  }

  lemma NoQuitStays(cfg: Config, s: State, step: Step)
    requires Inv(cfg, s) && Enabled(cfg, s, step) && NoQuitAhead(cfg, s.hc)
    ensures !step.MeetQuit? && NoQuitAhead(cfg, Apply(cfg, s, step).hc)
  {
    hide PhaseOf;
    if QuitAccepted(s.hc) {
      AcceptedStays(cfg, s, step);
    } else {
      StuckStep(cfg, s, step);
      NoTickingIfStuck(cfg, s);
    }
    hide Apply;
  }

  lemma NoTickingIfStuck(cfg: Config, s: State)
    requires CheckerInv(cfg, s.hc) && !CheckerReturns(cfg, s.hc)
    ensures s.hc.run != Ticking
  {
    hide PhaseOf;
  }

  /** The tearDown of a failed launch ends past its Quit, and only once. */
  lemma PastMeansAccepted(cfg: Config, s: State)
    requires Inv(cfg, s) && Past(s.calls.loop)
    ensures NoQuitAhead(cfg, s.hc)
  {
    hide PhaseOf;
  }

  lemma BlockedReport(cfg: Config, s: State, answer: Answer)
    requires Inv(cfg, s) && LoopInv(s) && Blocked(cfg, s) && Enabled(cfg, s, ReportStep(Loop, answer))
    ensures Blocked(cfg, Apply(cfg, s, ReportStep(Loop, answer)))
  {
    hide PhaseOf;
    PastMeansAccepted(cfg, s);
    ReportFrame(s, Loop, answer);
    hide Inv, NoQuitAhead;
  }

  lemma BlockedStep(cfg: Config, s: State, step: Step)
    requires Inv(cfg, s) && LoopInv(s) && Blocked(cfg, s) && Enabled(cfg, s, step)
    ensures Blocked(cfg, Apply(cfg, s, step))
  {
    hide PhaseOf;
    if BeforeQuit(s.calls.loop) && NoQuitAhead(cfg, s.hc) {
      NoQuitStays(cfg, s, step);
    }
    if step == CallStep(Loop) {
      CallFrame(s, Loop);
      hide Inv, NoQuitAhead;
    } else if step.ReportStep? && step.a == Loop {
      BlockedReport(cfg, s, step.answer);
    } else if step == MeetQuit(Loop) {
      hide Inv, NoQuitAhead;
    } else {
      assert !LoopMoves(step);
      Bystanders(cfg, s, step);
      hide Apply, Inv, Enabled, NoQuitAhead;
    }
  }

  lemma {:induction false} BlockedForever(cfg: Config, s: State, steps: seq<Step>)
    requires Reachable(cfg, s) && Blocked(cfg, s) && Runs(cfg, s, steps)
    ensures End(cfg, s, steps).loop != Returned
    decreases |steps|
  {
    hide PhaseOf;
    if |steps| == 0 {
    } else {
      ReachableInv(cfg, s);
      ReachableLoopInv(cfg, s);
      BlockedStep(cfg, s, steps[0]);
      ReachableStep(cfg, s, steps[0]);
      hide Apply, Enabled, Blocked;
      BlockedForever(cfg, Apply(cfg, s, steps[0]), steps[1..]);
    }
  }

  // ----- schedules that return

  /** The schedules below leave a's call where it is: it is that of waitContainer, or it is
      under way with Shutdown set. */
  predicate Spared(s: State, a: Actor) {
    a == Waiter || ((a == Signal || a == Health) && s.calls.Of(a) != Idle && s.shutdown)
  }

  lemma StepReturns(cfg: Config, s: State, step: Step, a: Actor)
    requires Enabled(cfg, s, step) && Apply(cfg, s, step).calls.Of(a) == s.calls.Of(a)
    requires CanReturnBefore(cfg, Apply(cfg, s, step), a)
    ensures CanReturnBefore(cfg, s, a)
  {
    var t := Apply(cfg, s, step);
    var steps :| && Runs(cfg, t, steps) && End(cfg, t, steps).loop == Returned
                 && End(cfg, t, steps).calls.Of(a) == t.calls.Of(a);
    RunsCons(cfg, s, step, steps);
    assert Runs(cfg, s, [step] + steps);
  }

  lemma ReturnedReturns(cfg: Config, s: State, a: Actor)
    requires s.loop == Returned
    ensures CanReturnBefore(cfg, s, a)
  {
    RunsNothing(cfg, s);
    assert Runs(cfg, s, []);
  }

  lemma HeadReturns(cfg: Config, s: State, a: Actor)
    requires s.loop == Head && LoopInv(s) && Spared(s, a)
    ensures CanReturnBefore(cfg, s, a)
  {
    hide PhaseOf, CanReturnBefore;
    var t := if s.shutdown then s else Apply(cfg, s, SignalArrives);
    ReturnedReturns(cfg, Apply(cfg, t, LoopHead), a);
    StepReturns(cfg, t, LoopHead, a);
    if !s.shutdown {
      StepReturns(cfg, s, SignalArrives, a);
    }
  }

  lemma DecodingReturns(cfg: Config, s: State, a: Actor)
    requires s.loop == Decoding && LoopInv(s) && Spared(s, a)
    ensures CanReturnBefore(cfg, s, a)
  {
    hide PhaseOf, CanReturnBefore;
    HeadReturns(cfg, Apply(cfg, s, LoopEvent(HarmlessEvent)), a);
    StepReturns(cfg, s, LoopEvent(HarmlessEvent), a);
  }

  function StagesLeft(stage: Stage): nat {
    match stage
    case Limits => 10
    case PreCreate => 9
    case Create => 8
    case PreRun => 7
    case Start => 6
    case PostRun => 5
    case GetPid => 4
    case Install => 3
    case Spawn => 2
    case Announce => 1
    case SpawnWait => 0
  }

  lemma {:induction false} LaunchingReturns(cfg: Config, s: State, a: Actor)
    requires s.loop.Launching? && LoopInv(s) && Spared(s, a)
    ensures CanReturnBefore(cfg, s, a)
    decreases StagesLeft(s.loop.stage)
  {
    var t := Apply(cfg, s, LaunchStep(true));
    LaunchFrame(cfg, s, s.loop.stage, true);
    hide OnLaunchStep, CanReturnBefore, PhaseOf;
    if s.loop.stage == SpawnWait {
      HeadReturns(cfg, t, a);
    } else {
      LaunchingReturns(cfg, t, a);
    }
    StepReturns(cfg, s, LaunchStep(true), a);
  }

  function CallLeft(c: Call): nat {
    match c
    case Entering(_) => 4
    case AtPreStop(_, _) => 3
    case AtStop(_, _) => 2
    case AtPostStop(_, _) => 1
    case _ => 0
  }

  lemma LoopCallSpares(s: State, a: Actor, d: Call)
    requires Spared(s, a)
    ensures s.calls.With(Loop, d).Of(a) == s.calls.Of(a)
  {
  }

  /** A tearDown of the event loop that has no Quit to send any more. */
  lemma {:induction false} TearingReturns(cfg: Config, s: State, a: Actor)
    requires s.loop.Tearing? && LoopInv(s) && s.calls.loop != Idle && !s.calls.loop.AtQuit?
    requires !s.installed || (s.loop != Tearing(ToKill) && !BeforeQuit(s.calls.loop))
    requires Spared(s, a)
    ensures CanReturnBefore(cfg, s, a)
    decreases if s.loop == Tearing(ToKill) then 1 else 0, CallLeft(s.calls.loop)
  {
    hide PhaseOf, CanReturnBefore;
    if s.calls.loop.AtReport? {
      var t := Apply(cfg, s, ReportStep(Loop, Accepted));
      LoopReportFrame(s, Accepted);
      LoopCallSpares(s, a, t.calls.loop);
      match s.loop.after {
        case ToEvents => HeadReturns(cfg, t, a);
        case ToReturn => ReturnedReturns(cfg, t, a);
        case ToKill => TearingReturns(cfg, t, a);
      }
      StepReturns(cfg, s, ReportStep(Loop, Accepted), a);
    } else {
      CallFrame(s, Loop);
      LoopCallSpares(s, a, NextCall(s.calls.loop, s.installed));
      TearingReturns(cfg, Apply(cfg, s, CallStep(Loop)), a);
      StepReturns(cfg, s, CallStep(Loop), a);
    }
  }

  /** A tearDown that waits for its Quit and can still get it. */
  lemma {:induction false} WaitingReturns(cfg: Config, s: State, a: Actor)
    requires Reachable(cfg, s) && s.loop.Tearing? && s.loop != Tearing(ToKill)
    requires Waits(s, Loop) && CheckerReturns(cfg, s.hc) && Spared(s, a)
    ensures CanReturnBefore(cfg, s, a)
    decreases Measure(s.hc)
  {
    ReachableInv(cfg, s);
    ReachableLoopInv(cfg, s);
    hide CanReturnBefore, Reachable, PhaseOf;
    var step := Drive(s, Loop, true);
    if step == MeetQuit(Loop) {
      DriveQuit(cfg, s, Loop);
      LoopCallSpares(s, a, AtPreStop(s.calls.loop.t, true));
      TearingReturns(cfg, Apply(cfg, s, step), a);
    } else {
      DriveStep(cfg, s, Loop, true, step);
      DriveSpares(cfg, s, step, a);
      NotLoops(cfg, s, step);
      Bystanders(cfg, s, step);
      ReachableStep(cfg, s, step);
      WaitingReturns(cfg, Apply(cfg, s, step), a);
    }
    StepReturns(cfg, s, step, a);
  }

  lemma NotLoops(cfg: Config, s: State, step: Step)
    requires s.loop.Tearing? && step == Drive(s, Loop, true) && step != MeetQuit(Loop) && Enabled(cfg, s, step)
    ensures !LoopMoves(step)
  {
  }

  /** The schedule that gets the event loop its Quit may move healthCheck, but not if that is
      itself tearing down. */
  lemma DriveSpares(cfg: Config, s: State, step: Step, a: Actor)
    requires ControlInv(cfg, s) && Spared(s, a) && s.loop.Tearing?
    requires step == Drive(s, Loop, true) && step != MeetQuit(Loop) && Enabled(cfg, s, step)
    ensures var t := Apply(cfg, s, step); t.calls.Of(a) == s.calls.Of(a) && Spared(t, a)
  {
    DriveKinds(s, Loop, true);
    hide OnChecking, PhaseOf, LaunchInv, Drive;
    if step == MeetDone {
      assert s.calls.health == Idle;
      WithOf(s.calls, Health, Entering(Killed));
    } else {
      assert Apply(cfg, s, step).calls == s.calls && Apply(cfg, s, step).shutdown == s.shutdown;
    }
  }

  /** Before the send, if it is to be accepted. */
  lemma EnteringReturns(cfg: Config, s: State, a: Actor)
    requires Reachable(cfg, s) && s.loop.Tearing? && s.loop != Tearing(ToKill)
    requires s.installed && s.calls.loop.Entering? && !NoQuitAhead(cfg, s.hc) && Spared(s, a)
    ensures CanReturnBefore(cfg, s, a)
  {
    hide CanReturnBefore, PhaseOf;
    CallFrame(s, Loop);
    LoopCallSpares(s, a, NextCall(s.calls.loop, s.installed));
    ReachableStep(cfg, s, CallStep(Loop));
    WaitingReturns(cfg, Apply(cfg, s, CallStep(Loop)), a);
    StepReturns(cfg, s, CallStep(Loop), a);
  }

  lemma TearingCanReturn(cfg: Config, s: State, a: Actor)
    requires Reachable(cfg, s) && Inv(cfg, s) && LoopInv(s) && s.loop.Tearing? && ReturnAhead(cfg, s) && Spared(s, a)
    ensures CanReturnBefore(cfg, s, a)
  {
    hide CanReturnBefore, Reachable, CheckerInv, CounterInv, PhaseOf;
    if s.installed && s.calls.loop.Entering? {
      EnteringReturns(cfg, s, a);
    } else if s.installed && s.calls.loop.AtQuit? {
      WaitingReturns(cfg, s, a);
    } else {
      TearingReturns(cfg, s, a);
    }
  }

  lemma AheadReturns(cfg: Config, s: State, a: Actor)
    requires Reachable(cfg, s) && ReturnAhead(cfg, s) && Spared(s, a)
    ensures CanReturnBefore(cfg, s, a)
  {
    hide CanReturnBefore, PhaseOf;
    ReachableInv(cfg, s);
    ReachableLoopInv(cfg, s);
    match s.loop
    case Head => HeadReturns(cfg, s, a);
    case Decoding => DecodingReturns(cfg, s, a);
    case Launching(_) => LaunchingReturns(cfg, s, a);
    case Returned => ReturnedReturns(cfg, s, a);
    case Tearing(_) => TearingCanReturn(cfg, s, a);
  }

  /** From every reachable state, Execute can still return if and only if the event loop is not
      inside a tearDown that needs a Quit nobody will accept. */
  lemma ReturnIff(cfg: Config, s: State)
    requires Reachable(cfg, s)
    ensures CanReturn(cfg, s) <==> ReturnAhead(cfg, s)
  {
    if ReturnAhead(cfg, s) {
      AheadReturns(cfg, s, Waiter);
    } else {
      ReachableInv(cfg, s);
      ReachableLoopInv(cfg, s);
      hide PhaseOf;
      forall steps | Runs(cfg, s, steps) ensures End(cfg, s, steps).loop != Returned {
        BlockedForever(cfg, s, steps);
      }
    }
  }

  /** The tearDown of another goroutine is under way. Execute can return, which ends the process,
      before it moves at all if and only if Execute can return at all: nothing makes it wait. */
  lemma OutrunIff(cfg: Config, s: State, a: Actor)
    requires Reachable(cfg, s) && a != Loop && s.calls.Of(a) != Idle
    ensures CanReturnBefore(cfg, s, a) <==> ReturnAhead(cfg, s)
  {
    ReachableInv(cfg, s);
    ReachableLoopInv(cfg, s);
    ReturnIff(cfg, s);
    if ReturnAhead(cfg, s) {
      AheadReturns(cfg, s, a);
    }
  }

  /** A stop signal arrives while a checked task is running, and the process ends before its
      tearDown has done anything. */
  lemma SignalOutrun(cfg: Config)
    requires cfg.hasCheck && cfg.supported
    ensures exists s ::
              && Reachable(cfg, s) && s.loop == Returned && s.installed
              && s.calls.signal == Entering(Killed) && s.acts == []
  {
    CheckerStarts(cfg);
    hide Reachable, OnCallStep, OnReport, OnChecking, OnEvent;
    var s0 := CheckerUp();
    var s1 := s0.(loop := Launching(SpawnWait));
    Take(cfg, s0, LaunchStep(true), s1);
    var s2 := s1.(loop := Head, waiter := Waiting);
    Take(cfg, s1, LaunchStep(true), s2);
    var s3 := s2.(shutdown := true, signal := SignalTearing, calls := s2.calls.(signal := Entering(Killed)));
    Take(cfg, s2, SignalArrives, s3);
    Take(cfg, s3, LoopHead, s3.(loop := Returned));
  }

  // ----- what this means for the errors that end Execute

  /** A launch has failed: throwError begins, and handleKill will follow. */
  lemma FailedLaunchReturnsIff(cfg: Config, s: State)
    requires Reachable(cfg, s)
    requires s.loop == Tearing(ToKill) && s.calls.loop.Entering?
    ensures CanReturn(cfg, s) <==> !s.installed
  {
    hide PhaseOf;
    ReturnIff(cfg, s);
  }

  /** An event cannot be decoded. */
  lemma DecodeErrorReturnsIff(cfg: Config, s: State)
    requires Reachable(cfg, s) && s.loop == Decoding
    ensures CanReturn(cfg, Apply(cfg, s, LoopEvent(ErrorEvent))) <==> !s.installed || !NoQuitAhead(cfg, s.hc)
  {
    hide PhaseOf;
    ReachableStep(cfg, s, LoopEvent(ErrorEvent));
    ReturnIff(cfg, Apply(cfg, s, LoopEvent(ErrorEvent)));
  }

  /** The agent refuses the KILLED update of a KILL event. */
  lemma RefusedKillReturnsIff(cfg: Config, s: State)
    requires Reachable(cfg, s) && s.loop == Tearing(ToEvents) && s.calls.loop.AtReport?
    ensures CanReturn(cfg, Apply(cfg, s, ReportStep(Loop, Refused))) <==> !s.installed
  {
    hide PhaseOf;
    ReachableInv(cfg, s);
    ReachableLoopInv(cfg, s);
    if s.installed {
      PastMeansAccepted(cfg, s);
    }
    ReachableStep(cfg, s, ReportStep(Loop, Refused));
    ReturnIff(cfg, Apply(cfg, s, ReportStep(Loop, Refused)));
  }

  /** A KILL whose update is accepted, or fails with the one error that is passed over, and an
      event or a decoding that ends in that error, bring the event loop back to its head, from
      where Execute can return. */
  lemma BackToHeadReturns(cfg: Config, s: State, step: Step)
    requires Reachable(cfg, s) && Enabled(cfg, s, step)
    requires || (s.loop == Tearing(ToEvents)
                 && (step == ReportStep(Loop, Accepted) || step == ReportStep(Loop, RefusedEof)))
             || step == LoopEvent(HarmlessEvent) || step == LoopEvent(EofEvent)
    ensures Apply(cfg, s, step).loop == Head && CanReturn(cfg, Apply(cfg, s, step))
  {
    hide PhaseOf, CanReturn;
    ReachableStep(cfg, s, step);
    ReturnIff(cfg, Apply(cfg, s, step));
  }

  /** The agent refuses the RUNNING update of a task with a health check: that state is
      reachable, and Execute never returns from it. */
  lemma RefusedRunningHangs(cfg: Config)
    requires cfg.hasCheck && cfg.supported
    ensures exists s ::
              && Reachable(cfg, s) && s.loop == Tearing(ToKill) && s.calls.loop.Entering? && s.installed
              && !CanReturn(cfg, s)
  {
    hide PhaseOf;
    CheckerStarts(cfg);
    var s := Apply(cfg, CheckerUp(), LaunchStep(false));
    ReachableStep(cfg, CheckerUp(), LaunchStep(false));
    hide Reachable, CanReturn;
    ReturnIff(cfg, s);
  }
}
