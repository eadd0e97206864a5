/** Runs that show where the guarantees of the protocol end. */
module ProtocolWitness {
  import opened Options
  import opened Status
  import opened FailureCounter
  import opened Protocol
  import opened ProtocolInvariant
  import opened ProtocolProgress

  lemma Take(cfg: Config, s: State, step: Step, t: State)
    requires Reachable(cfg, s) && Enabled(cfg, s, step) && Apply(cfg, s, step) == t
    ensures Reachable(cfg, t)
  {
    ReachableStep(cfg, s, step);
  }

  /** A launch that has gone well up to its post-run hooks. */
  function AtPostRun(): State {
    Init().(loop := Launching(PostRun), launched := true)
  }

  lemma LaunchBegun(cfg: Config)
    ensures Reachable(cfg, Init().(loop := Launching(Create), launched := true))
  {
    RunsNothing(cfg, Init());
    var s0 := Init();
    assert Reachable(cfg, s0);
    hide Reachable, OnCallStep, OnReport, OnChecking;
    var s1 := s0.(loop := Decoding);
    Take(cfg, s0, LoopHead, s1);
    var s2 := s1.(loop := Launching(Limits), launched := true);
    Take(cfg, s1, LoopEvent(LaunchEvent), s2);
    var s3 := s2.(loop := Launching(PreCreate));
    Take(cfg, s2, LaunchStep(true), s3);
    var s4 := s3.(loop := Launching(Create));
    Take(cfg, s3, LaunchStep(true), s4);
  }

  lemma LaunchPrepared(cfg: Config)
    ensures Reachable(cfg, AtPostRun())
  {
    hide Reachable, OnCallStep, OnReport, OnChecking, OnEvent;
    LaunchBegun(cfg);
    var s4 := Init().(loop := Launching(Create), launched := true);
    var s5 := s4.(loop := Launching(PreRun));
    Take(cfg, s4, LaunchStep(true), s5);
    var s6 := s5.(loop := Launching(Start));
    Take(cfg, s5, LaunchStep(true), s6);
    var s7 := s6.(loop := Launching(PostRun));
    Take(cfg, s6, LaunchStep(true), s7);
  }

  /** A task with a supported check, whose checker has started and whose grace period is
      over. */
  function CheckerUp(): State {
    AtPostRun().(loop := Launching(Announce), installed := true,
                    hc := Checking(Select, Ticking, true, false, false, true, 0, [], None, []))
  }

  lemma CheckerStarts(cfg: Config)
    requires cfg.hasCheck && cfg.supported
    ensures Reachable(cfg, CheckerUp())
  {
    hide Reachable, OnCallStep, OnReport, OnEvent, OnCheck;
    LaunchPrepared(cfg);
    var s0 := AtPostRun();
    var s1 := s0.(loop := Launching(GetPid));
    Take(cfg, s0, LaunchStep(true), s1);
    var s2 := s1.(loop := Launching(Install));
    Take(cfg, s1, LaunchStep(true), s2);
    var s3 := s2.(loop := Launching(Spawn), installed := true);
    Take(cfg, s2, LaunchStep(true), s3);
    var s4 := s3.(loop := Launching(Announce), hc := s3.hc.(health := Boot));
    Take(cfg, s3, LaunchStep(true), s4);
    var s5 := s4.(hc := s4.hc.(health := Select, run := Sleeping, tickerOn := true));
    Take(cfg, s4, HealthBoots, s5);
    var s6 := s5.(hc := s5.hc.(graceArmed := true, run := Ticking));
    Take(cfg, s5, WakeUp, s6);
    var s7 := s6.(hc := s6.hc.(graceArmed := false, grace := true));
    Take(cfg, s6, GraceFires, s7);
  }

  /** k failed checks, all counted, and their reports. */
  function Failures(k: nat): seq<Check> {
    if k == 0 then [] else Failures(k - 1) + [Check(false, true)]
  }

  function Reports(k: nat): seq<Msg> {
    if k == 0 then [] else Reports(k - 1) + [MHealthy(false)]
  }

  /** The checker has reported k failed checks and is back in its select. */
  function FailedTimes(k: nat): State
    requires k < WORD
  {
    CheckerUp().(hc := CheckerUp().hc.(failures := k, history := Failures(k), trace := Reports(k)))
  }

  lemma BelowLimit(cfg: Config, c: Checking)
    requires c.grace && c.failures + 1 < Limit(cfg.threshold)
    ensures OnCheck(cfg, c, false) ==
            c.(failures := c.failures + 1, history := c.history + [Check(false, true)], run := SendHealthy(false))
  {
  }

  lemma AtLimit(cfg: Config, c: Checking)
    requires cfg.tickMaySurviveStop && c.grace && c.failures + 1 == Limit(cfg.threshold)
    ensures OnCheck(cfg, c, false) ==
            c.(failures := cfg.threshold, history := c.history + [Check(false, true)], run := SendDone,
               tickerOn := false, attemptedAt := Some(|c.history| + 1))
  {
  }

  /** One more failed check below the limit, and its report. */
  lemma OneMoreFails(cfg: Config, k: nat)
    requires k + 1 < Limit(cfg.threshold) && Reachable(cfg, FailedTimes(k))
    ensures Reachable(cfg, FailedTimes(k + 1))
  {
    hide Reachable, OnCallStep, OnReport, OnEvent, OnLaunchStep, OnCheck;
    var s0 := FailedTimes(k);
    var s1 := s0.(hc := s0.hc.(buffered := true));
    Take(cfg, s0, Tick, s1);
    var s2 := s1.(hc := s1.hc.(buffered := false, run := InCheck));
    Take(cfg, s1, TakeTick, s2);
    BelowLimit(cfg, s2.hc);
    Take(cfg, s2, CheckYields(false), FailureAtHand(k));
    FailureReported(cfg, k);
  }

  function FailureAtHand(k: nat): State
    requires k + 1 < WORD
  {
    FailedTimes(k).(hc := FailedTimes(k).hc.(failures := k + 1, history := Failures(k + 1), run := SendHealthy(false)))
  }

  lemma FailureReported(cfg: Config, k: nat)
    requires k + 1 < WORD && Reachable(cfg, FailureAtHand(k))
    ensures Reachable(cfg, FailedTimes(k + 1))
  {
    hide Reachable, OnCallStep, OnReport, OnEvent, OnLaunchStep, OnCheck;
    var s3 := FailureAtHand(k);
    var s4 := s3.(hc := s3.hc.(run := Ticking, health := Updating, trace := Reports(k + 1)));
    Take(cfg, s3, MeetHealthy, s4);
    Take(cfg, s4, HealthUpdates, FailedTimes(k + 1));
  }

  lemma {:induction false} ManyFail(cfg: Config, k: nat)
    requires cfg.hasCheck && cfg.supported && k < Limit(cfg.threshold)
    ensures Reachable(cfg, FailedTimes(k))
  {
    if k == 0 {
      CheckerStarts(cfg);
    } else {
      ManyFail(cfg, k - 1);
      OneMoreFails(cfg, k - 1);
    }
  }

  /** The check that meets the limit has failed while one more tick was in the buffer, which
      stays there. */
  function AboutToSendDone(cfg: Config): State {
    var n := Limit(cfg.threshold);
    CheckerUp().(hc := CheckerUp().hc.(buffered := true, failures := cfg.threshold, history := Failures(n),
                                       run := SendDone, tickerOn := false,
                                       attemptedAt := Some(|Failures(n - 1)| + 1), trace := Reports(n - 1)))
  }

  lemma TickStays(cfg: Config)
    requires cfg.hasCheck && cfg.supported && cfg.tickMaySurviveStop
    ensures Reachable(cfg, AboutToSendDone(cfg))
  {
    hide Reachable, OnCallStep, OnReport, OnEvent, OnLaunchStep, OnCheck;
    var k := Limit(cfg.threshold) - 1;
    ManyFail(cfg, k);
    var s0 := FailedTimes(k);
    var s1 := s0.(hc := s0.hc.(buffered := true));
    Take(cfg, s0, Tick, s1);
    var s2 := s1.(hc := s1.hc.(buffered := false, run := InCheck));
    Take(cfg, s1, TakeTick, s2);
    var s3 := s2.(hc := s2.hc.(buffered := true));
    Take(cfg, s2, Tick, s3);
    AtLimit(cfg, s3.hc);
    Take(cfg, s3, CheckYields(false), AboutToSendDone(cfg));
  }

  /** Done has been delivered, and healthCheck waits for its Quit. */
  function DoneWithStaleTick(cfg: Config): State {
    var s := AboutToSendDone(cfg);
    s.(shutdown := true, calls := s.calls.(health := AtQuit(Killed)),
       hc := s.hc.(run := Ticking, health := HealthTearing, trace := s.hc.trace + [MDone]))
  }

  lemma DoneDelivers(cfg: Config)
    requires cfg.hasCheck && cfg.supported && cfg.tickMaySurviveStop
    ensures Reachable(cfg, DoneWithStaleTick(cfg))
  {
    hide Reachable, OnReport, OnEvent, OnLaunchStep, OnChecking;
    TickStays(cfg);
    var s0 := AboutToSendDone(cfg);
    var s1 := DoneWithStaleTick(cfg).(calls := s0.calls.(health := Entering(Killed)));
    Take(cfg, s0, MeetDone, s1);
    Take(cfg, s1, CallStep(Health), DoneWithStaleTick(cfg));
  }

  /** The tick has started another check, and the checker wants to report its result. */
  function Frozen(cfg: Config): State {
    var s := DoneWithStaleTick(cfg);
    s.(hc := s.hc.(buffered := false, failures := 0, history := s.hc.history + [Check(true, true)],
                   run := SendHealthy(true)))
  }

  lemma TickFreezes(cfg: Config)
    requires cfg.hasCheck && cfg.supported && cfg.tickMaySurviveStop
    ensures Reachable(cfg, Frozen(cfg))
  {
    hide Reachable, OnCallStep, OnReport, OnEvent, OnLaunchStep;
    DoneDelivers(cfg);
    var s0 := DoneWithStaleTick(cfg);
    var s1 := s0.(hc := s0.hc.(buffered := false, run := InCheck));
    Take(cfg, s0, TakeTick, s1);
    Take(cfg, s1, CheckYields(true), Frozen(cfg));
  }

  lemma {:induction false} ReportsAreLive(k: nat)
    ensures PhaseOf(Reports(k)) == Live
  {
    if k == 0 {
    } else {
      ReportsAreLive(k - 1);
      PhaseExtends(Reports(k - 1), MHealthy(false));
    }
  }

  /** Whatever the threshold, a tick that is buffered when the ticker is stopped can freeze the
      protocol: a state is reachable in which healthCheck waits for its Quit while the checker
      wants to report one more result, and nothing that can still happen lets any tearDown
      through. */
  lemma StaleTickFreezes(cfg: Config)
    requires cfg.hasCheck && cfg.supported && cfg.tickMaySurviveStop
    ensures exists s ::
              && Reachable(cfg, s) && s.loop != Returned && Waits(s, Health)
              && s.hc.run == SendHealthy(true) && MDone in s.hc.trace
              && !CanGetThrough(cfg, s)
  {
    hide Reachable, Reports;
    TickFreezes(cfg);
    var s := Frozen(cfg);
    var before := Reports(Limit(cfg.threshold) - 1);
    ReportsAreLive(Limit(cfg.threshold) - 1);
    PhaseExtends(before, MDone);
    assert s.hc.trace == before + [MDone];
    hide PhaseOf;
    assert Waits(s, Health) && !CheckerReturns(cfg, s.hc);
    ProgressIff(cfg, s, Health);
  }

  /** A stop signal has found the checker installed and not yet started. */
  function WaitingEarly(): State {
    AtPostRun().(loop := Launching(Spawn), installed := true, shutdown := true,
                 signal := SignalTearing, calls := Init().calls.(signal := AtQuit(Killed)))
  }

  lemma SignalWaits(cfg: Config)
    requires cfg.hasCheck
    ensures Reachable(cfg, WaitingEarly())
  {
    hide Reachable, OnReport, OnEvent, OnChecking;
    LaunchPrepared(cfg);
    var s0 := AtPostRun();
    var s1 := s0.(loop := Launching(GetPid));
    Take(cfg, s0, LaunchStep(true), s1);
    var s2 := s1.(loop := Launching(Install));
    Take(cfg, s1, LaunchStep(true), s2);
    var s3 := s2.(loop := Launching(Spawn), installed := true);
    Take(cfg, s2, LaunchStep(true), s3);
    var s4 := s3.(shutdown := true, signal := SignalTearing, calls := s3.calls.(signal := Entering(Killed)));
    Take(cfg, s3, SignalArrives, s4);
    Take(cfg, s4, CallStep(Signal), WaitingEarly());
  }

  lemma AliveGetsThrough(cfg: Config, s: State)
    requires CanGetThroughAlive(cfg, s)
    ensures CanGetThrough(cfg, s)
  {
    var steps :| Runs(cfg, s, steps) && QuitAccepted(End(cfg, s, steps).hc);
  }

  ghost predicate AlwaysProgress(cfg: Config) {
    forall s, a :: Reachable(cfg, s) && s.loop != Returned && Waits(s, a) ==> CanGetThroughAlive(cfg, s)
  }

  lemma NoCheckNoWait(cfg: Config, s: State, a: Actor)
    requires !cfg.hasCheck && Reachable(cfg, s)
    ensures !Waits(s, a)
  {
    ReachableInv(cfg, s);
    hide CheckerInv, CounterInv, PhaseOf;
  }

  /** The condition on the configuration alone: every waiting tearDown can always be let through
      if and only if there is no health check, or its type is supported and no tick survives
      ticker.Stop(). */
  lemma AlwaysProgressIff(cfg: Config)
    ensures AlwaysProgress(cfg) <==> !cfg.hasCheck || (cfg.supported && !cfg.tickMaySurviveStop)
  {
    if !cfg.hasCheck {
      forall s, a | Reachable(cfg, s) ensures !Waits(s, a) {
        NoCheckNoWait(cfg, s, a);
      }
    } else if cfg.supported && !cfg.tickMaySurviveStop {
      forall s, a | Reachable(cfg, s) && s.loop != Returned && Waits(s, a) ensures CanGetThroughAlive(cfg, s) {
        ProgressWithoutStaleTicks(cfg, s, a);
      }
    } else if cfg.supported {
      StaleTickFreezes(cfg);
      var s :| Reachable(cfg, s) && s.loop != Returned && Waits(s, Health) && !CanGetThrough(cfg, s);
      if CanGetThroughAlive(cfg, s) {
        AliveGetsThrough(cfg, s);
      }
    } else {
      SignalWaits(cfg);
      var s := WaitingEarly();
      assert Waits(s, Signal);
      ProgressIff(cfg, s, Signal);
    }
  }

  /** Without a health check, a KILL event has run the pre-stop hooks and stopped the
      container. */
  function KilledWithoutChecker(): State {
    Init().(loop := Tearing(ToEvents), launched := true, shutdown := true, waiter := Waiting,
            calls := Init().calls.(loop := AtPostStop(Killed, false)))
  }

  const NO_CHECK := Config(false, false, 0, false)

  lemma KillWithoutChecker()
    ensures Reachable(NO_CHECK, KilledWithoutChecker())
  {
    hide Reachable, OnReport, OnChecking;
    var cfg := NO_CHECK;
    LaunchPrepared(cfg);
    var s0 := AtPostRun();
    var s1 := s0.(loop := Launching(Announce));
    Take(cfg, s0, LaunchStep(true), s1);
    var s2 := s1.(loop := Launching(SpawnWait));
    Take(cfg, s1, LaunchStep(true), s2);
    var s3 := s2.(loop := Head, waiter := Waiting);
    Take(cfg, s2, LaunchStep(true), s3);
    var s4 := s3.(loop := Decoding);
    Take(cfg, s3, LoopHead, s4);
    var s5 := s4.(loop := Tearing(ToEvents), shutdown := true, calls := s4.calls.(loop := Entering(Killed)));
    Take(cfg, s4, LoopEvent(KillEvent), s5);
    var s6 := s5.(calls := s5.calls.(loop := AtPreStop(Killed, false)));
    Take(cfg, s5, CallStep(Loop), s6);
    var s7 := s6.(calls := s6.calls.(loop := AtStop(Killed, false)));
    Take(cfg, s6, CallStep(Loop), s7);
    Take(cfg, s7, CallStep(Loop), KilledWithoutChecker());
  }

  /** Without a health check nothing serialises the tearDowns: a KILL event and the exit of
      the container it stops can both run all hooks and stop the container, and then report
      KILLED and FAILED. */
  lemma WithoutCheckerTwice()
    ensures exists s ::
              && Reachable(NO_CHECK, s)
              && s.calls.loop == AtReport(Killed, false)
              && s.calls.waiter == AtReport(Failed, false)
  {
    hide Reachable, OnReport, OnEvent, OnLaunchStep, OnChecking;
    var cfg := NO_CHECK;
    KillWithoutChecker();
    var s8 := KilledWithoutChecker();
    var s9 := s8.(waiter := WaiterTearing, calls := s8.calls.(waiter := Entering(Failed)));
    Take(cfg, s8, ContainerExits(false), s9);
    var s10 := s9.(calls := s9.calls.(waiter := AtPreStop(Failed, false)));
    Take(cfg, s9, CallStep(Waiter), s10);
    var s11 := s10.(calls := s10.calls.(waiter := AtStop(Failed, false)));
    Take(cfg, s10, CallStep(Waiter), s11);
    var s12 := s11.(calls := s11.calls.(waiter := AtPostStop(Failed, false)));
    Take(cfg, s11, CallStep(Waiter), s12);
    var s13 := s12.(calls := s12.calls.(waiter := AtReport(Failed, false)));
    Take(cfg, s12, CallStep(Waiter), s13);
    var s14 := s13.(calls := s13.calls.(loop := AtReport(Killed, false)));
    Take(cfg, s13, CallStep(Loop), s14);
    assert Reachable(cfg, s14);
  }
}
