/** What every step of the protocol keeps. */
module ProtocolInvariant {
  import opened Options
  import opened Status
  import opened FailureCounter
  import opened Protocol

  /** How far the conversation on the channels has got. */
  datatype Phase = Live | QuitSeen | ExitedSeen | DoneSeen | DoneThenQuit | Broken

  function NextPhase(p: Phase, m: Msg): Phase {
    match (p, m)
    case (Live, MHealthy(_)) => Live
    case (Live, MQuit) => QuitSeen
    case (Live, MDone) => DoneSeen
    case (QuitSeen, MExited) => ExitedSeen
    case (DoneSeen, MQuit) => DoneThenQuit
    case _ => Broken
  }

  function PhaseOf(trace: seq<Msg>): Phase {
    if |trace| == 0 then Live else NextPhase(PhaseOf(trace[..|trace| - 1]), trace[|trace| - 1])
  }

  lemma PhaseExtends(trace: seq<Msg>, m: Msg)
    ensures PhaseOf(trace + [m]) == NextPhase(PhaseOf(trace), m)
  {
    assert (trace + [m])[..|trace|] == trace;
  }

  predicate QuitAccepted(c: Checking) {
    var p := PhaseOf(c.trace);
    p == QuitSeen || p == ExitedSeen || p == DoneThenQuit
  }

  predicate DoneDelivered(c: Checking) {
    var p := PhaseOf(c.trace);
    p == DoneSeen || p == DoneThenQuit
  }

  /** Each goroutine that is in tearDown knows it, and the checker is installed and started
      in the order of handleLaunch. */
  predicate ControlInv(cfg: Config, s: State) {
    && (s.calls.loop == Idle <==> !s.loop.Tearing?)
    && (s.calls.signal == Idle <==> s.signal != SignalTearing)
    && (s.calls.waiter == Idle <==> s.waiter != WaiterTearing)
    && (s.calls.health == Idle <==> s.hc.health != HealthTearing)
    && (!s.launched ==> !s.loop.Launching? && !s.installed)
    && (!s.launched || s.loop.Launching? ==> s.waiter == WaiterOff)
    && (s.loop.Launching? ==> LaunchInv(cfg, s.loop.stage, s.installed))
    && (s.installed ==> cfg.hasCheck)
    && (s.hc.health == HealthOff <==> !s.installed || s.loop == Launching(Spawn))
    && (PhaseOf(s.hc.trace) == DoneSeen ==> s.calls.health.Entering? || s.calls.health.AtQuit?)
  }

  predicate LaunchInv(cfg: Config, stage: Stage, installed: bool) {
    match stage
    case GetPid => cfg.hasCheck && !installed
    case Install => cfg.hasCheck && !installed
    case Spawn => cfg.hasCheck && installed
    case Announce => installed == cfg.hasCheck
    case SpawnWait => installed == cfg.hasCheck
    case _ => !installed
  }

  /** The states of Checker.Run and healthCheck, phase by phase. */
  predicate CheckerInv(cfg: Config, c: Checking) {
    && (c.run == RunOff <==> c.health == HealthOff || c.health == Boot)
    && (c.run == Ticking || c.run == InCheck || c.run == SendDone || c.run == SendExited || c.run.SendHealthy?
        ==> cfg.supported)
    && (c.run == SendUnsupported ==> !cfg.supported)
    && (c.run == RunEnded ==> (cfg.supported <==> PhaseOf(c.trace) == ExitedSeen))
    && match PhaseOf(c.trace) {
         case Live => c.run != SendExited && c.health != HealthTearing && c.health != HealthEnded
         case QuitSeen => c.run == SendExited && (c.health == Select || c.health == Updating)
         case ExitedSeen => c.run == RunEnded && c.health == HealthEnded
         case DoneSeen => (c.run == Ticking || c.run == InCheck || c.run.SendHealthy?) && c.health == HealthTearing
         case DoneThenQuit => c.run == SendExited && (c.health == HealthTearing || c.health == HealthEnded)
         case Broken => false
       }
  }

  predicate Attempting(c: Checking) {
    c.run == SendDone || DoneDelivered(c)
  }

  /** The counter is the streak modulo 2^32, and Done has been attempted exactly if the
      streak has met its limit, at the first check where it did. */
  ghost predicate CounterInv(cfg: Config, c: Checking) {
    && c.failures == Streak(c.history) % WORD
    && (!c.grace ==> Streak(c.history) == 0)
    && (c.attemptedAt.Some? <==> Attempting(c))
    && (c.attemptedAt.None? ==> NeverReached(c.history, cfg.threshold))
    && (c.attemptedAt.Some? ==>
          && FirstReachedAt(c.history, cfg.threshold, c.attemptedAt.value)
          && c.grace && !c.tickerOn
          && (!c.run.SendHealthy? ==> c.failures == cfg.threshold && c.attemptedAt.value == |c.history|)
          && (c.run == InCheck || c.run.SendHealthy? ==> cfg.tickMaySurviveStop)
          && (!cfg.tickMaySurviveStop ==> !c.buffered))
  }

  predicate Past(c: Call) {
    (c.AtPreStop? || c.AtStop? || c.AtPostStop? || c.AtReport?) && c.observed
  }

  /** What a call that observed the checker has already done at its place in tearDown. */
  function ActsBefore(c: Call): seq<Act> {
    match c
    case AtStop(_, _) => [RanPreStop]
    case AtPostStop(_, _) => [RanPreStop, RanStop]
    case AtReport(_, _) => [RanPreStop, RanStop, RanPostStop]
    case _ => []
  }

  predicate FullActs(acts: seq<Act>) {
    |acts| == 4 && acts[3].Attempted? && acts == [RanPreStop, RanStop, RanPostStop, acts[3]]
  }

  predicate NoneAtQuit(c: Calls) {
    !c.loop.AtQuit? && !c.signal.AtQuit? && !c.health.AtQuit? && !c.waiter.AtQuit?
  }

  /** Only the goroutine whose Quit was accepted is, or has been, past the Quit send, and
      it accounts for everything done there. */
  predicate OwnerInv(calls: Calls, installed: bool, accepted: bool, owner: Option<Actor>, acts: seq<Act>) {
    && (owner.Some? <==> accepted)
    && (!installed ==> NoneAtQuit(calls))
    && (Past(calls.loop) ==> owner == Some(Loop))
    && (Past(calls.signal) ==> owner == Some(Signal))
    && (Past(calls.health) ==> owner == Some(Health))
    && (Past(calls.waiter) ==> owner == Some(Waiter))
    && (if owner.Some? && Past(calls.Of(owner.value)) then acts == ActsBefore(calls.Of(owner.value))
        else if owner.Some? then FullActs(acts)
        else acts == [])
  }

  /** A call that is not past the Quit send can be ended or begun. */
  lemma OwnerOther(calls: Calls, installed: bool, accepted: bool, owner: Option<Actor>, acts: seq<Act>,
                   a: Actor, c: Call)
    requires OwnerInv(calls, installed, accepted, owner, acts)
    requires !Past(calls.Of(a)) && !Past(c) && (c.AtQuit? ==> installed)
    ensures OwnerInv(calls.With(a, c), installed, accepted, owner, acts)
  {
  }

  /** One more step of a call that observed the checker. */
  lemma OwnerNext(calls: Calls, installed: bool, accepted: bool, owner: Option<Actor>, acts: seq<Act>,
                  a: Actor, c: Call, act: Act)
    requires OwnerInv(calls, installed, accepted, owner, acts)
    requires Past(calls.Of(a)) && Past(c) && ActsBefore(c) == ActsBefore(calls.Of(a)) + [act]
    ensures OwnerInv(calls.With(a, c), installed, accepted, owner, acts + [act])
  {
  }

  /** The last step of a call that observed the checker. */
  lemma OwnerLast(calls: Calls, installed: bool, accepted: bool, owner: Option<Actor>, acts: seq<Act>,
                   a: Actor, c: Call)
    requires OwnerInv(calls, installed, accepted, owner, acts)
    requires calls.Of(a).AtReport? && calls.Of(a).observed && (c.Idle? || c.Entering?)
    ensures OwnerInv(calls.With(a, c), installed, accepted, owner, acts + [Attempted(calls.Of(a).t)])
  {
    assert FullActs(acts + [Attempted(calls.Of(a).t)]);
  }

  lemma WithOf(calls: Calls, a: Actor, c: Call)
    ensures calls.With(a, c).Of(a) == c
  {
  }

  lemma CallFrame(s: State, a: Actor)
    ensures var r, d := OnCallStep(s, a), NextCall(s.calls.Of(a), s.installed);
            r == s.(calls := s.calls.With(a, d), acts := r.acts) && r.calls.Of(a) == d
  {
    WithOf(s.calls, a, NextCall(s.calls.Of(a), s.installed));
    hide Calls.With, Calls.Of;
  }

  lemma ReportFrame(s: State, a: Actor, answer: Answer)
    ensures var r := OnReport(s, a, answer);
            && r.calls == s.calls.With(a, r.calls.Of(a)) && r.installed == s.installed && r.owner == s.owner
            && (a != Loop ==> r.loop == s.loop && r.shutdown == s.shutdown)
            && (a != Signal ==> r.signal == s.signal)
            && (a != Loop && s.calls.Of(a).AtReport? ==> r.calls.Of(a) == Idle)
            && r.hc == if a == Health && s.calls.Of(a).AtReport? then s.hc.(health := HealthEnded) else s.hc
  {
    match a
    case Loop => LoopReportFrame(s, answer);
    case Signal =>
    case Health =>
    case Waiter =>
  }

  lemma LoopReportFrame(s: State, answer: Answer)
    ensures var r := OnReport(s, Loop, answer);
            && r == s.(calls := s.calls.With(Loop, r.calls.loop), loop := r.loop,
                       shutdown := r.shutdown, acts := r.acts)
            && (s.calls.loop.AtReport? ==>
                  && (r.loop == Head || r.loop == Returned || r.loop == Tearing(ToReturn))
                  && (r.calls.loop == Idle <==> !r.loop.Tearing?)
                  && (r.loop.Tearing? ==> r.calls.loop == Entering(Killed))
                  && (r.loop == Head ==> s.loop == Tearing(ToEvents))
                  && (s.shutdown ==> r.shutdown))
  {
  }

  lemma ReportActs(s: State, a: Actor, answer: Answer)
    requires s.calls.Of(a).AtReport?
    ensures var r, c := OnReport(s, a, answer), s.calls.Of(a);
            && r.acts == Record(s, c.observed, Attempted(c.t)).acts
            && (r.calls.Of(a).Idle? || r.calls.Of(a).Entering?)
  {
  }

  lemma EventFrame(s: State, ev: Event)
    ensures var r := OnEvent(s, ev);
            r.hc == s.hc && r.installed == s.installed && r.calls == s.calls.With(Loop, r.calls.loop)
  {
  }

  lemma CheckFrame(cfg: Config, c: Checking, healthy: bool)
    ensures var r := OnCheck(cfg, c, healthy); r.trace == c.trace && r.health == c.health
  {
  }

  lemma LaunchFrame(cfg: Config, s: State, stage: Stage, ok: bool)
    ensures var r := OnLaunchStep(cfg, s, stage, ok); 
            && (r.hc == s.hc || r.hc == s.hc.(health := Boot))
            && r.calls == s.calls.With(Loop, r.calls.loop)
            && r.signal == s.signal && r.shutdown == s.shutdown
            && (ok ==> r == s.(loop := AfterStage(cfg, stage),
                               installed := s.installed || stage == Install,
                               hc := if stage == Spawn then s.hc.(health := Boot) else s.hc,
                               waiter := if stage == SpawnWait then Waiting else s.waiter))
  {
  }

  /** A step that is no rendezvous leaves the trace alone, and does not make healthCheck
      start an update. */
  lemma QuietStep(cfg: Config, s: State, step: Step)
    requires Enabled(cfg, s, step) && !step.MeetHealthy? && !step.MeetDone? && !step.MeetQuit? && !step.MeetExited?
    ensures var t := Apply(cfg, s, step);
            && t.hc.trace == s.hc.trace
            && (t.hc.health == Updating ==> s.hc.health == Updating && !step.HealthUpdates?)
  {
    hide OnCallStep, OnReport, OnEvent, OnLaunchStep, OnCheck;
    match step
    case CallStep(a) => CallFrame(s, a);
    case ReportStep(a, answer) => ReportFrame(s, a, answer);
    case LaunchStep(ok) => LaunchFrame(cfg, s, s.loop.stage, ok);
    case LoopEvent(ev) => EventFrame(s, ev);
    case CheckYields(healthy) => CheckFrame(cfg, s.hc, healthy);
    case _ =>
  }

  ghost predicate Inv(cfg: Config, s: State) {
    && ControlInv(cfg, s)
    && CheckerInv(cfg, s.hc)
    && CounterInv(cfg, s.hc)
    && OwnerInv(s.calls, s.installed, QuitAccepted(s.hc), s.owner, s.acts)
  }

  lemma InitInv(cfg: Config)
    ensures Inv(cfg, Init())
  {
  }

  lemma LoopHeadKeeps(cfg: Config, s: State)
    requires Inv(cfg, s) && Enabled(cfg, s, LoopHead)
    ensures Inv(cfg, Apply(cfg, s, LoopHead))
  {
    hide PhaseOf, Streak;
  }

  lemma LoopEventKeeps(cfg: Config, s: State, ev: Event)
    requires Inv(cfg, s) && Enabled(cfg, s, LoopEvent(ev))
    ensures Inv(cfg, Apply(cfg, s, LoopEvent(ev)))
  {
    hide PhaseOf, Streak;
    OwnerOther(s.calls, s.installed, QuitAccepted(s.hc), s.owner, s.acts, Loop, Entering(Killed));
    var r := OnEvent(s, ev);
    assert r.hc == s.hc && r.installed == s.installed && r.waiter == s.waiter && r.signal == s.signal;
  }

  lemma LaunchFailKeeps(cfg: Config, s: State)
    requires Inv(cfg, s) && Enabled(cfg, s, LaunchStep(false))
    ensures Inv(cfg, Apply(cfg, s, LaunchStep(false)))
  {
    hide PhaseOf, Streak;
    OwnerOther(s.calls, s.installed, QuitAccepted(s.hc), s.owner, s.acts, Loop, Entering(Failed));
  }

  lemma LaunchOkKeeps(cfg: Config, s: State)
    requires Inv(cfg, s) && Enabled(cfg, s, LaunchStep(true))
    ensures Inv(cfg, Apply(cfg, s, LaunchStep(true)))
  {
    hide PhaseOf, Streak, OnLaunchStep;
    LaunchFrame(cfg, s, s.loop.stage, true);
    LaunchOkControl(cfg, s);
    hide ControlInv;
    assert Apply(cfg, s, LaunchStep(true)).calls == s.calls;
  }

  lemma LaunchOkControl(cfg: Config, s: State)
    requires ControlInv(cfg, s) && s.loop.Launching?
    ensures ControlInv(cfg, OnLaunchStep(cfg, s, s.loop.stage, true))
    ensures s.loop.stage == Spawn ==> s.installed && s.hc.health == HealthOff
    ensures s.loop.stage == Install ==> !s.installed && s.hc.health == HealthOff
  {
    hide PhaseOf, OnLaunchStep;
    LaunchFrame(cfg, s, s.loop.stage, true);
  }

  lemma SignalArrivesKeeps(cfg: Config, s: State)
    requires Inv(cfg, s) && Enabled(cfg, s, SignalArrives)
    ensures Inv(cfg, Apply(cfg, s, SignalArrives))
  {
    hide PhaseOf, Streak;
  }

  lemma ContainerExitsKeeps(cfg: Config, s: State, success: bool)
    requires Inv(cfg, s) && Enabled(cfg, s, ContainerExits(success))
    ensures Inv(cfg, Apply(cfg, s, ContainerExits(success)))
  {
    hide PhaseOf, Streak;
  }

  lemma CallStepOwner(s: State, a: Actor, accepted: bool)
    requires OwnerInv(s.calls, s.installed, accepted, s.owner, s.acts)
    ensures var r := OnCallStep(s, a);
            OwnerInv(r.calls, s.installed, accepted, s.owner, r.acts)
  {
    hide PhaseOf, Streak;
    var c := s.calls.Of(a);
    match c
    case Entering(t) =>
      var d := if s.installed then AtQuit(t) else AtPreStop(t, false);
      OwnerOther(s.calls, s.installed, accepted, s.owner, s.acts, a, d);
    case AtPreStop(t, o) => CallStepMove(s, a, accepted, AtStop(t, o), RanPreStop);
    case AtStop(t, o) => CallStepMove(s, a, accepted, AtPostStop(t, o), RanStop);
    case AtPostStop(t, o) => CallStepMove(s, a, accepted, AtReport(t, o), RanPostStop);
    case _ =>
  }

  lemma CallStepMove(s: State, a: Actor, accepted: bool, d: Call, act: Act)
    requires OwnerInv(s.calls, s.installed, accepted, s.owner, s.acts)
    requires Past(d) == Past(s.calls.Of(a)) && !d.AtQuit?
    requires Past(d) ==> ActsBefore(d) == ActsBefore(s.calls.Of(a)) + [act]
    ensures OwnerInv(s.calls.With(a, d), s.installed, accepted, s.owner, Record(s, Past(d), act).acts)
  {
    hide PhaseOf, Streak;
    if Past(d) {
      OwnerNext(s.calls, s.installed, accepted, s.owner, s.acts, a, d, act);
    } else {
      OwnerOther(s.calls, s.installed, accepted, s.owner, s.acts, a, d);
    }
  }

  lemma CallStepControl(cfg: Config, s: State, a: Actor)
    requires ControlInv(cfg, s) && Enabled(cfg, s, CallStep(a))
    ensures ControlInv(cfg, OnCallStep(s, a))
    ensures OnCallStep(s, a).hc == s.hc
  {
    hide PhaseOf, OnCallStep, LaunchInv;
    CallFrame(s, a);
  }

  lemma CallStepKeeps(cfg: Config, s: State, a: Actor)
    requires Inv(cfg, s) && Enabled(cfg, s, CallStep(a))
    ensures Inv(cfg, Apply(cfg, s, CallStep(a)))
  {
    hide PhaseOf, Streak;
    CallStepOwner(s, a, QuitAccepted(s.hc));
    CallStepControl(cfg, s, a);
    CallFrame(s, a);
    hide OnCallStep, ControlInv, CheckerInv, CounterInv, OwnerInv;
  }

  lemma ReportStepOwner(s: State, a: Actor, answer: Answer, accepted: bool)
    requires OwnerInv(s.calls, s.installed, accepted, s.owner, s.acts) && s.calls.Of(a).AtReport?
    ensures var r := OnReport(s, a, answer);
            OwnerInv(r.calls, s.installed, accepted, s.owner, r.acts)
  {
    hide OnReport, OwnerInv;
    var r := OnReport(s, a, answer);
    var d := r.calls.Of(a);
    ReportFrame(s, a, answer);
    ReportActs(s, a, answer);
    if s.calls.Of(a).observed {
      OwnerLast(s.calls, s.installed, accepted, s.owner, s.acts, a, d);
    } else {
      OwnerOther(s.calls, s.installed, accepted, s.owner, s.acts, a, d);
    }
  }

  lemma ReportLoopControl(cfg: Config, s: State, answer: Answer)
    requires ControlInv(cfg, s) && s.calls.loop.AtReport?
    ensures ControlInv(cfg, OnReport(s, Loop, answer)) && OnReport(s, Loop, answer).hc == s.hc
  {
    hide PhaseOf, OnReport, LaunchInv;
    LoopReportFrame(s, answer);
  }

  lemma ReportStepControl(cfg: Config, s: State, a: Actor, answer: Answer)
    requires ControlInv(cfg, s) && s.calls.Of(a).AtReport?
    ensures ControlInv(cfg, OnReport(s, a, answer))
    ensures OnReport(s, a, answer).hc == if a == Health then s.hc.(health := HealthEnded) else s.hc
  {
    hide PhaseOf, Streak;
    match a
    case Loop => ReportLoopControl(cfg, s, answer);
    case Signal =>
    case Health =>
    case Waiter =>
  }

  lemma ReportStepKeeps(cfg: Config, s: State, a: Actor, answer: Answer)
    requires Inv(cfg, s) && Enabled(cfg, s, ReportStep(a, answer))
    ensures Inv(cfg, Apply(cfg, s, ReportStep(a, answer)))
  {
    hide PhaseOf, Streak;
    ReportStepOwner(s, a, answer, QuitAccepted(s.hc));
    ReportStepControl(cfg, s, a, answer);
    ReportFrame(s, a, answer);
    hide OnReport, OwnerInv;
    assert QuitAccepted(OnReport(s, a, answer).hc) == QuitAccepted(s.hc);
  }

  lemma HealthBootsKeeps(cfg: Config, s: State)
    requires Inv(cfg, s) && Enabled(cfg, s, HealthBoots)
    ensures Inv(cfg, Apply(cfg, s, HealthBoots))
  {
    hide PhaseOf, Streak;
  }

  lemma HealthUpdatesKeeps(cfg: Config, s: State)
    requires Inv(cfg, s) && Enabled(cfg, s, HealthUpdates)
    ensures Inv(cfg, Apply(cfg, s, HealthUpdates))
  {
    hide PhaseOf, Streak;
  }

  lemma TickKeeps(cfg: Config, s: State)
    requires Inv(cfg, s) && Enabled(cfg, s, Tick)
    ensures Inv(cfg, Apply(cfg, s, Tick))
  {
    hide PhaseOf, Streak;
  }

  lemma GraceFiresKeeps(cfg: Config, s: State)
    requires Inv(cfg, s) && Enabled(cfg, s, GraceFires)
    ensures Inv(cfg, Apply(cfg, s, GraceFires))
  {
    hide PhaseOf, Streak;
  }

  lemma WakeUpKeeps(cfg: Config, s: State)
    requires Inv(cfg, s) && Enabled(cfg, s, WakeUp)
    ensures Inv(cfg, Apply(cfg, s, WakeUp))
  {
    hide PhaseOf, Streak;
  }

  lemma TakeTickKeeps(cfg: Config, s: State)
    requires Inv(cfg, s) && Enabled(cfg, s, TakeTick)
    ensures Inv(cfg, Apply(cfg, s, TakeTick))
  {
    hide PhaseOf, Streak;
  }

  lemma CheckYieldsCounter(cfg: Config, c: Checking, healthy: bool)
    requires CounterInv(cfg, c) && c.run == InCheck
    ensures CounterInv(cfg, OnCheck(cfg, c, healthy))
  {
    hide PhaseOf, Streak;
    AdvanceCounts(c.history, c.failures, c.grace, healthy, cfg.threshold);
    if c.attemptedAt.None? {
      AdvanceReaches(c.history, c.failures, c.grace, healthy, cfg.threshold);
    } else {
      NoSecondReach(cfg.threshold, healthy);
      FirstReachedStays(c.history, Check(healthy, c.grace), cfg.threshold, c.attemptedAt.value);
    }
  }

  /** After Done, the one check that a surviving tick can still start does not reach the
      limit a second time. */
  lemma CheckYieldsChecker(cfg: Config, c: Checking, healthy: bool)
    requires CheckerInv(cfg, c) && c.run == InCheck
    requires DoneDelivered(c) ==> c.grace && c.failures == cfg.threshold
    ensures CheckerInv(cfg, OnCheck(cfg, c, healthy))
    ensures OnCheck(cfg, c, healthy).trace == c.trace && OnCheck(cfg, c, healthy).health == c.health
  {
    hide PhaseOf, Streak;
    NoSecondReach(cfg.threshold, healthy);
  }

  lemma CheckYieldsKeeps(cfg: Config, s: State, healthy: bool)
    requires Inv(cfg, s) && Enabled(cfg, s, CheckYields(healthy))
    ensures Inv(cfg, Apply(cfg, s, CheckYields(healthy)))
  {
    hide PhaseOf, Streak;
    CheckYieldsCounter(cfg, s.hc, healthy);
    CheckYieldsChecker(cfg, s.hc, healthy);
  }

  lemma MeetHealthyKeeps(cfg: Config, s: State)
    requires Inv(cfg, s) && Enabled(cfg, s, MeetHealthy)
    ensures Inv(cfg, Apply(cfg, s, MeetHealthy))
  {
    hide PhaseOf, Streak;
    PhaseExtends(s.hc.trace, MHealthy(s.hc.run.SendHealthy? && s.hc.run.healthy));
  }

  lemma MeetDoneKeeps(cfg: Config, s: State)
    requires Inv(cfg, s) && Enabled(cfg, s, MeetDone)
    ensures Inv(cfg, Apply(cfg, s, MeetDone))
  {
    hide PhaseOf, Streak;
    PhaseExtends(s.hc.trace, MDone);
  }

  /** The goroutine whose Quit is accepted becomes the owner, and the only one past the send. */
  lemma MeetQuitKeeps(cfg: Config, s: State, a: Actor)
    requires Inv(cfg, s) && Enabled(cfg, s, MeetQuit(a))
    ensures Inv(cfg, Apply(cfg, s, MeetQuit(a)))
    ensures s.owner == None && Apply(cfg, s, MeetQuit(a)).owner == Some(a)
    ensures forall b :: Past(Apply(cfg, s, MeetQuit(a)).calls.Of(b)) <==> b == a
  {
    hide PhaseOf, Streak;
    PhaseExtends(s.hc.trace, MQuit);
    var c := s.hc.(run := SendExited, trace := s.hc.trace + [MQuit]);
    assert CounterInv(cfg, c) && CheckerInv(cfg, c);
    OwnerFirst(s.calls, s.installed, s.owner, s.acts, a);
  }

  /** The first Quit is accepted. */
  lemma OwnerFirst(calls: Calls, installed: bool, owner: Option<Actor>, acts: seq<Act>, a: Actor)
    requires OwnerInv(calls, installed, false, owner, acts) && calls.Of(a).AtQuit?
    ensures OwnerInv(calls.With(a, AtPreStop(calls.Of(a).t, true)), installed, true, Some(a), acts)
  {
  }

  lemma MeetExitedKeeps(cfg: Config, s: State)
    requires Inv(cfg, s) && Enabled(cfg, s, MeetExited)
    ensures Inv(cfg, Apply(cfg, s, MeetExited))
  {
    hide PhaseOf, Streak;
    PhaseExtends(s.hc.trace, MExited);
    var c := s.hc.(run := RunEnded, health := HealthEnded, trace := s.hc.trace + [MExited]);
    assert CounterInv(cfg, c) && CheckerInv(cfg, c);
    hide CounterInv, CheckerInv;
  }

  /** Every step of every goroutine keeps the invariant. */
  lemma StepInv(cfg: Config, s: State, step: Step)
    requires Inv(cfg, s) && Enabled(cfg, s, step)
    ensures Inv(cfg, Apply(cfg, s, step))
  {
    hide *;
    match step
    case LoopHead => LoopHeadKeeps(cfg, s);
    case LoopEvent(ev) => LoopEventKeeps(cfg, s, ev);
    case LaunchStep(ok) => if ok { LaunchOkKeeps(cfg, s); } else { LaunchFailKeeps(cfg, s); }
    case SignalArrives => SignalArrivesKeeps(cfg, s);
    case ContainerExits(success) => ContainerExitsKeeps(cfg, s, success);
    case CallStep(a) => CallStepKeeps(cfg, s, a);
    case ReportStep(a, answer) => ReportStepKeeps(cfg, s, a, answer);
    case HealthBoots => HealthBootsKeeps(cfg, s);
    case HealthUpdates => HealthUpdatesKeeps(cfg, s);
    case Tick => TickKeeps(cfg, s);
    case GraceFires => GraceFiresKeeps(cfg, s);
    case WakeUp => WakeUpKeeps(cfg, s);
    case TakeTick => TakeTickKeeps(cfg, s);
    case CheckYields(healthy) => CheckYieldsKeeps(cfg, s, healthy);
    case MeetHealthy => MeetHealthyKeeps(cfg, s);
    case MeetDone => MeetDoneKeeps(cfg, s);
    case MeetQuit(a) => MeetQuitKeeps(cfg, s, a);
    case MeetExited => MeetExitedKeeps(cfg, s);
  }

  lemma {:induction false} RunInv(cfg: Config, s: State, steps: seq<Step>)
    requires Inv(cfg, s) && Runs(cfg, s, steps)
    ensures Inv(cfg, End(cfg, s, steps))
    decreases |steps|
  {
    hide PhaseOf, Streak;
    if |steps| == 0 {
    } else {
      StepInv(cfg, s, steps[0]);
      RunInv(cfg, Apply(cfg, s, steps[0]), steps[1..]);
    }
  }

  lemma ReachableInv(cfg: Config, s: State)
    requires Reachable(cfg, s)
    ensures Inv(cfg, s)
  {
    hide PhaseOf, Streak;
    InitInv(cfg);
    var steps :| Runs(cfg, Init(), steps) && End(cfg, Init(), steps) == s;
    RunInv(cfg, Init(), steps);
  }
}
