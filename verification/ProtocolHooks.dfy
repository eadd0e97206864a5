/** Whether the post-run hooks can still run when a tearDown runs the pre-stop hooks. What the
    pre-stop hooks do not find yet, they do not undo. */
module ProtocolHooks {
  import opened Status
  import opened Protocol
  import opened ProtocolInvariant
  import opened ProtocolReturn
  import opened ProtocolWitness

  /** The launch is at its post-run hooks or before them. */
  predicate BeforeHooks(stage: Stage) {
    stage != GetPid && stage != Install && stage != Spawn && stage != Announce && stage != SpawnWait
  }

  /** The post-run hooks have been run, or the launch has failed, or there will be none. */
  predicate PostRunOver(s: State) {
    if s.launched then !(s.loop.Launching? && BeforeHooks(s.loop.stage))
    else s.loop == Returned || s.loop.Tearing? || (s.loop == Head && s.shutdown)
  }

  predicate RunsPostRun(s: State, step: Step) {
    step.LaunchStep? && s.loop == Launching(PostRun)
  }

  lemma PostRunOverStays(cfg: Config, s: State, step: Step)
    requires ControlInv(cfg, s) && LoopInv(s) && PostRunOver(s) && Enabled(cfg, s, step)
    ensures !RunsPostRun(s, step) && PostRunOver(Apply(cfg, s, step))
  {
    hide PhaseOf;
    LaunchedStays(cfg, s, step);
    if LoopMoves(step) {
      PostRunOverLoop(cfg, s, step);
    } else {
      Bystanders(cfg, s, step);
      hide Apply, Enabled, ControlInv;
    }
  }

  lemma PostRunOverLoop(cfg: Config, s: State, step: Step)
    requires ControlInv(cfg, s) && LoopInv(s) && PostRunOver(s) && Enabled(cfg, s, step) && LoopMoves(step)
    ensures !RunsPostRun(s, step) && PostRunOver(Apply(cfg, s, step))
  {
    hide OnChecking, LaunchInv, OnReport, OnCallStep, OnLaunchStep, PhaseOf;
    match step {
      case LoopHead =>
      case LoopEvent(ev) =>
      case LaunchStep(ok) =>
        LaunchFrame(cfg, s, s.loop.stage, ok);
        FailedLaunch(cfg, s);
      case CallStep(_) => CallFrame(s, Loop);
      case ReportStep(_, answer) => LoopReportFrame(s, answer);
      case MeetQuit(_) =>
    }
  }

  lemma FailedLaunch(cfg: Config, s: State)
    requires s.loop.Launching?
    ensures var r := OnLaunchStep(cfg, s, s.loop.stage, false); r.loop == Tearing(ToKill) && r.launched == s.launched
  {
  }

  lemma LaunchedStays(cfg: Config, s: State, step: Step)
    requires Enabled(cfg, s, step)
    ensures s.launched ==> Apply(cfg, s, step).launched
    ensures !LoopMoves(step) ==> Apply(cfg, s, step).launched == s.launched
  {
    hide OnChecking;
  }

  /** Once that is so, no continuation runs the post-run hooks any more. */
  lemma {:induction false} NoPostRunAfter(cfg: Config, s: State, steps: seq<Step>)
    requires Reachable(cfg, s) && PostRunOver(s) && Runs(cfg, s, steps)
    ensures PostRunOver(End(cfg, s, steps))
    ensures forall i {:trigger steps[i]} :: 0 <= i < |steps| ==>
              Runs(cfg, s, steps[..i]) && !RunsPostRun(End(cfg, s, steps[..i]), steps[i])
    decreases |steps|
  {
    hide PhaseOf;
    if |steps| == 0 {
    } else {
      ReachableInv(cfg, s);
      ReachableLoopInv(cfg, s);
      PostRunOverStays(cfg, s, steps[0]);
      ReachableStep(cfg, s, steps[0]);
      hide Apply, Enabled, PostRunOver, RunsPostRun, Reachable, Inv;
      var t := Apply(cfg, s, steps[0]);
      NoPostRunAfter(cfg, t, steps[1..]);
      forall i | 0 <= i < |steps|
        ensures Runs(cfg, s, steps[..i]) && !RunsPostRun(End(cfg, s, steps[..i]), steps[i])
      {
        if i > 0 {
          assert steps[..i][1..] == steps[1..][..i - 1] && steps[1..][i - 1] == steps[i];
        }
      }
    }
  }

  /** Some continuation gets to the post-run hooks. */
  ghost predicate PostRunAhead(cfg: Config, s: State) {
    exists steps :: Runs(cfg, s, steps) && End(cfg, s, steps).loop == Launching(PostRun)
  }

  lemma StepTowards(cfg: Config, s: State, step: Step)
    requires Enabled(cfg, s, step) && PostRunAhead(cfg, Apply(cfg, s, step))
    ensures PostRunAhead(cfg, s)
  {
    var t := Apply(cfg, s, step);
    var steps :| Runs(cfg, t, steps) && End(cfg, t, steps).loop == Launching(PostRun);
    RunsCons(cfg, s, step, steps);
    assert Runs(cfg, s, [step] + steps);
  }

  lemma {:induction false} LaunchGetsThere(cfg: Config, s: State)
    requires s.loop.Launching? && BeforeHooks(s.loop.stage)
    ensures PostRunAhead(cfg, s)
    decreases StagesLeft(s.loop.stage)
  {
    if s.loop.stage == PostRun {
      RunsNothing(cfg, s);
      assert Runs(cfg, s, []);
    } else {
      LaunchFrame(cfg, s, s.loop.stage, true);
      hide OnLaunchStep, PostRunAhead;
      LaunchGetsThere(cfg, Apply(cfg, s, LaunchStep(true)));
      StepTowards(cfg, s, LaunchStep(true));
    }
  }

  lemma DecodingGetsThere(cfg: Config, s: State)
    requires s.loop == Decoding && !s.launched
    ensures PostRunAhead(cfg, s)
  {
    hide PostRunAhead;
    LaunchGetsThere(cfg, Apply(cfg, s, LoopEvent(LaunchEvent)));
    StepTowards(cfg, s, LoopEvent(LaunchEvent));
  }

  /** In both directions: the post-run hooks can still run if and only if they are not over. */
  lemma PostRunAheadIff(cfg: Config, s: State)
    requires Reachable(cfg, s)
    ensures PostRunAhead(cfg, s) <==> !PostRunOver(s)
  {
    ReachableInv(cfg, s);
    if PostRunOver(s) {
      forall steps | Runs(cfg, s, steps) ensures End(cfg, s, steps).loop != Launching(PostRun) {
        NoPostRunAfter(cfg, s, steps);
        ReachableRun(cfg, s, steps);
        ReachableInv(cfg, End(cfg, s, steps));
        OverIsNotThere(cfg, End(cfg, s, steps));
      }
    } else {
      hide CheckerInv, CounterInv, OwnerInv, LaunchInv, PhaseOf, PostRunAhead;
      match s.loop {
        case Launching(_) => LaunchGetsThere(cfg, s);
        case Decoding => DecodingGetsThere(cfg, s);
        case Head =>
          DecodingGetsThere(cfg, Apply(cfg, s, LoopHead));
          StepTowards(cfg, s, LoopHead);
        case _ => assert false;
      }
    }
  }

  lemma OverIsNotThere(cfg: Config, s: State)
    requires ControlInv(cfg, s) && PostRunOver(s)
    ensures s.loop != Launching(PostRun)
  {
  }

  /** Every tearDown but one runs its pre-stop hooks when the post-run hooks are over: that of
      the event loop, of healthCheck, of waitContainer, and of the stop-signal handler if it
      has found the checker installed. */
  lemma PreStopComesLast(cfg: Config, s: State, a: Actor)
    requires Reachable(cfg, s) && s.calls.Of(a).AtPreStop? && (a == Signal ==> s.calls.Of(a).observed)
    ensures PostRunOver(s)
  {
    hide PhaseOf;
    ReachableInv(cfg, s);
    if s.calls.Of(a).observed {
      assert Past(s.calls.Of(a));
      assert QuitAccepted(s.hc) && s.hc.health != HealthOff;
    }
  }

  /** Exactly when a tearDown that is about to run its pre-stop hooks comes too early, so that the
      post-run hooks can still run after them: it is that of the stop-signal handler, has found
      no checker, and the event loop is at one of the stages of a launch up to the post-run hooks
      or decoding the event that may begin it. */
  lemma TooEarlyIff(cfg: Config, s: State, a: Actor)
    requires Reachable(cfg, s) && s.calls.Of(a).AtPreStop?
    ensures PostRunAhead(cfg, s) <==>
            && a == Signal && !s.calls.Of(a).observed
            && (|| (s.loop.Launching? && BeforeHooks(s.loop.stage))
                || (s.loop == Decoding && !s.launched))
  {
    PostRunAheadIff(cfg, s);
    ReachableInv(cfg, s);
    ReachableLoopInv(cfg, s);
    hide PostRunAhead, CheckerInv, CounterInv, OwnerInv, LaunchInv, PhaseOf;
    if a == Signal && !s.calls.Of(a).observed {
      assert s.shutdown;
    } else {
      PreStopComesLast(cfg, s, a);
    }
  }

  /** The stop-signal handler that finds no checker can come too early: its pre-stop hooks have
      run, and the launch goes on to its post-run hooks. */
  lemma SignalComesTooEarly(cfg: Config)
    ensures exists s ::
              && Reachable(cfg, s) && s.calls.signal == AtStop(Killed, false)
              && RunsPostRun(s, LaunchStep(true)) && Enabled(cfg, s, LaunchStep(true))
  {
    hide PhaseOf;
    LaunchPrepared(cfg);
    var s0 := AtPostRun();
    var s1 := s0.(shutdown := true, signal := SignalTearing, calls := s0.calls.(signal := Entering(Killed)));
    Take(cfg, s0, SignalArrives, s1);
    var s2 := s1.(calls := s1.calls.(signal := AtPreStop(Killed, false)));
    Take(cfg, s1, CallStep(Signal), s2);
    var s3 := s2.(calls := s2.calls.(signal := AtStop(Killed, false)));
    Take(cfg, s2, CallStep(Signal), s3);
  }
}
