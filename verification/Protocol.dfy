/** The goroutines that share one Executor, as an interleaved transition system.

    Each goroutine has a program counter. A send and the receive it meets on an unbuffered
    channel are one joint step; a goroutine whose send nobody receives stays where it is; a
    `select` is a choice between the steps that are enabled. A run is a list of steps. */
module Protocol {
  import opened Options
  import opened Status
  import opened FailureCounter

  /** What is fixed for one executor: whether the task has a health check, whether its type
      is supported, its threshold, and whether a tick that is already in the ticker's
      buffer is still delivered after ticker.Stop(). */
  datatype Config = Config(hasCheck: bool, supported: bool, threshold: uint32, tickMaySurviveStop: bool)

  /** The goroutines that can call tearDown. */
  datatype Actor = Loop | Signal | Health | Waiter

  /** Where a goroutine is inside tearDown and the status update that follows it.
      `observed` says whether this call found e.HealthChecker set. */
  datatype Call =
    | Idle
    | Entering(t: Terminal)
    | AtQuit(t: Terminal)
    | AtPreStop(t: Terminal, observed: bool)
    | AtStop(t: Terminal, observed: bool)
    | AtPostStop(t: Terminal, observed: bool)
    | AtReport(t: Terminal, observed: bool)

  datatype Calls = Calls(loop: Call, signal: Call, health: Call, waiter: Call) {
    function Of(a: Actor): Call {
      match a
      case Loop => loop
      case Signal => signal
      case Health => health
      case Waiter => waiter
    }

    function With(a: Actor, c: Call): Calls {
      match a
      case Loop => this.(loop := c)
      case Signal => this.(signal := c)
      case Health => this.(health := c)
      case Waiter => this.(waiter := c)
    }
  }

  /** The steps of handleLaunch, in its order. */
  datatype Stage =
    | Limits | PreCreate | Create | PreRun | Start | PostRun
    | GetPid | Install | Spawn | Announce | SpawnWait

  /** What the event loop does when its tearDown and update are over: go back to its events
      (a KILL or SHUTDOWN event), call handleKill because throwError made its handler fail,
      or return from Execute. */
  datatype After = ToEvents | ToKill | ToReturn

  datatype LoopPc = Head | Decoding | Launching(stage: Stage) | Tearing(after: After) | Returned
  datatype SignalPc = Listening | SignalTearing | SignalEnded
  datatype WaiterPc = WaiterOff | Waiting | WaiterTearing | WaiterEnded
  datatype HealthPc = HealthOff | Boot | Select | Updating | HealthTearing | HealthEnded
  datatype RunPc =
    | RunOff | Sleeping | Ticking | InCheck
    | SendHealthy(healthy: bool) | SendUnsupported | SendDone | SendExited | RunEnded

  /** A completed rendezvous. */
  datatype Msg = MHealthy(healthy: bool) | MDone | MQuit | MExited

  /** What a tearDown that observed the checker has done. */
  datatype Act = RanPreStop | RanStop | RanPostStop | Attempted(t: Terminal)

  /** healthCheck, Checker.Run, the grace timer and the ticker. `history`, `attemptedAt` and
      `trace` only record: no step reads them. */
  datatype Checking = Checking(
    health: HealthPc, run: RunPc,
    tickerOn: bool, buffered: bool, graceArmed: bool, grace: bool, failures: uint32,
    history: seq<Check>, attemptedAt: Option<nat>, trace: seq<Msg>)

  /** The whole state. `owner` is the goroutine whose Quit was accepted; it and `acts` only
      record. */
  datatype State = State(
    loop: LoopPc, signal: SignalPc, waiter: WaiterPc, calls: Calls,
    shutdown: bool, launched: bool, installed: bool,
    hc: Checking, owner: Option<Actor>, acts: seq<Act>)

  function Init(): State {
    State(
      Head, Listening, WaiterOff, Calls(Idle, Idle, Idle, Idle),
      false, false, false,
      Checking(HealthOff, RunOff, false, false, false, false, 0, [], None, []), None, [])
  }

  /** How the agent answers the call of updateStatus. */
  datatype Answer = Accepted | RefusedEof | Refused

  datatype Event = LaunchEvent | KillEvent | HarmlessEvent | ErrorEvent | EofEvent

  datatype Step =
    // event loop
    | LoopHead
    | LoopEvent(ev: Event)
    | LaunchStep(ok: bool)
    // stop signals and container exit
    | SignalArrives
    | ContainerExits(success: bool)
    // any tearDown
    | CallStep(a: Actor)
    | ReportStep(a: Actor, answer: Answer)
    // healthCheck and Checker.Run on their own
    | HealthBoots
    | HealthUpdates
    | Tick
    | GraceFires
    | WakeUp
    | TakeTick
    | CheckYields(healthy: bool)
    // rendezvous
    | MeetHealthy
    | MeetDone
    | MeetQuit(a: Actor)
    | MeetExited

  predicate CanFail(stage: Stage) {
    stage != Install && stage != Spawn && stage != SpawnWait
  }

  predicate Enabled(cfg: Config, s: State, step: Step) {
    match step
    case LoopHead => s.loop == Head
    case LoopEvent(ev) => s.loop == Decoding && (ev == LaunchEvent ==> !s.launched)
    case LaunchStep(ok) => s.loop.Launching? && (!ok ==> CanFail(s.loop.stage))
    case SignalArrives => s.signal == Listening
    case ContainerExits(_) => s.waiter == Waiting
    case CallStep(a) =>
      var c := s.calls.Of(a);
      c.Entering? || c.AtPreStop? || c.AtStop? || c.AtPostStop?
    case ReportStep(a, _) => s.calls.Of(a).AtReport?
    case MeetDone => s.hc.run == SendDone && s.hc.health == Select
    case MeetQuit(a) => s.hc.run == Ticking && s.calls.Of(a).AtQuit?
    case _ => EnabledChecking(s.hc, step)
  }

  predicate EnabledChecking(c: Checking, step: Step) {
    match step
    case HealthBoots => c.health == Boot
    case HealthUpdates => c.health == Updating
    case Tick => c.tickerOn
    case GraceFires => c.graceArmed
    case WakeUp => c.run == Sleeping
    case TakeTick => c.run == Ticking && c.buffered
    case CheckYields(_) => c.run == InCheck
    case MeetHealthy => (c.run.SendHealthy? || c.run == SendUnsupported) && c.health == Select
    case MeetExited => c.run == SendExited && c.health == Select
    case _ => false
  }

  function AfterStage(cfg: Config, stage: Stage): LoopPc {
    match stage
    case Limits => Launching(PreCreate)
    case PreCreate => Launching(Create)
    case Create => Launching(PreRun)
    case PreRun => Launching(Start)
    case Start => Launching(PostRun)
    case PostRun => Launching(if cfg.hasCheck then GetPid else Announce)
    case GetPid => Launching(Install)
    case Install => Launching(Spawn)
    case Spawn => Launching(Announce)
    case Announce => Launching(SpawnWait)
    case SpawnWait => Head
  }

  function StartKill(s: State, a: Actor): State {
    s.(shutdown := true, calls := s.calls.With(a, Entering(Killed)))
  }

  function OnEvent(s: State, ev: Event): State {
    match ev
    case LaunchEvent => s.(loop := Launching(Limits), launched := true)
    case KillEvent => StartKill(s, Loop).(loop := Tearing(ToEvents))
    case HarmlessEvent => s.(loop := Head)
    case EofEvent => s.(loop := Head)
    case ErrorEvent => StartKill(s, Loop).(loop := Tearing(ToReturn))
  }

  function OnLaunchStep(cfg: Config, s: State, stage: Stage, ok: bool): State {
    if !ok then
      s.(loop := Tearing(ToKill), calls := s.calls.With(Loop, Entering(Failed)))
    else
      var r := s.(loop := AfterStage(cfg, stage));
      if stage == Install then r.(installed := true)
      else if stage == Spawn then r.(hc := s.hc.(health := Boot))
      else if stage == SpawnWait then r.(waiter := Waiting)
      else r
  }

  function Record(s: State, observed: bool, act: Act): State {
    if observed then s.(acts := s.acts + [act]) else s
  }

  /** Where a step takes a call that is neither waiting for its Quit nor about to report. */
  function NextCall(c: Call, installed: bool): Call {
    match c
    case Entering(t) => if installed then AtQuit(t) else AtPreStop(t, false)
    case AtPreStop(t, o) => AtStop(t, o)
    case AtStop(t, o) => AtPostStop(t, o)
    case AtPostStop(t, o) => AtReport(t, o)
    case _ => c
  }

  function OnCallStep(s: State, a: Actor): State {
    var r := match s.calls.Of(a)
      case AtPreStop(_, o) => Record(s, o, RanPreStop)
      case AtStop(_, o) => Record(s, o, RanStop)
      case AtPostStop(_, o) => Record(s, o, RanPostStop)
      case _ => s;
    r.(calls := s.calls.With(a, NextCall(s.calls.Of(a), s.installed)))
  }

  /** The status update at the end of handleKill, throwError or waitContainer is attempted,
      and its caller goes on. */
  function OnReport(s: State, a: Actor, answer: Answer): State {
    if !s.calls.Of(a).AtReport? then s else
    var r := Record(s, s.calls.Of(a).observed, Attempted(s.calls.Of(a).t));
    match a
    case Signal => r.(calls := r.calls.With(a, Idle), signal := SignalEnded)
    case Waiter => r.(calls := r.calls.With(a, Idle), waiter := WaiterEnded)
    case Health => r.(calls := r.calls.With(a, Idle), hc := r.hc.(health := HealthEnded))
    case Loop =>
      if s.loop == Tearing(ToKill) || (s.loop == Tearing(ToEvents) && answer == Refused) then
        StartKill(r, Loop).(loop := Tearing(ToReturn))
      else
        r.(calls := r.calls.With(a, Idle), loop := if s.loop == Tearing(ToEvents) then Head else Returned)
  }

  /** The result of a check is managed: lines 104 to 127 of healthcheck.go. */
  function OnCheck(cfg: Config, c: Checking, healthy: bool): Checking {
    var v := Advance(c.failures, c.grace, healthy, cfg.threshold);
    var r := c.(failures := v.failures, grace := v.expired, history := c.history + [Check(healthy, c.grace)]);
    if v.reached then
      r.(run := SendDone, tickerOn := false, buffered := c.buffered && cfg.tickMaySurviveStop,
         attemptedAt := Some(|r.history|))
    else
      r.(run := SendHealthy(healthy))
  }

  /** The steps that healthCheck, Checker.Run, the timer and the ticker take on their own or
      among themselves. */
  function OnChecking(cfg: Config, c: Checking, step: Step): Checking {
    match step
    case HealthBoots => c.(health := Select, run := Sleeping, tickerOn := true)
    case HealthUpdates => c.(health := Select)
    case Tick => c.(buffered := true)
    case GraceFires => c.(graceArmed := false, grace := true)
    case WakeUp => c.(graceArmed := true, run := if cfg.supported then Ticking else SendUnsupported)
    case TakeTick => c.(buffered := false, run := InCheck)
    case CheckYields(healthy) => OnCheck(cfg, c, healthy)
    case MeetHealthy =>
      if c.run.SendHealthy? then
        c.(run := Ticking, health := Updating, trace := c.trace + [MHealthy(c.run.healthy)])
      else
        c.(run := RunEnded, health := Updating, trace := c.trace + [MHealthy(false)])
    case MeetExited => c.(run := RunEnded, health := HealthEnded, trace := c.trace + [MExited])
    case _ => c
  }

  function Apply(cfg: Config, s: State, step: Step): State
    requires Enabled(cfg, s, step)
  {
    match step
    case LoopHead => s.(loop := if s.shutdown then Returned else Decoding)
    case LoopEvent(ev) => OnEvent(s, ev)
    case LaunchStep(ok) => OnLaunchStep(cfg, s, s.loop.stage, ok)
    case SignalArrives => StartKill(s, Signal).(signal := SignalTearing)
    case ContainerExits(success) =>
      s.(waiter := WaiterTearing, calls := s.calls.With(Waiter, Entering(if success then Finished else Failed)))
    case CallStep(a) => OnCallStep(s, a)
    case ReportStep(a, answer) => OnReport(s, a, answer)
    case MeetDone =>
      StartKill(s, Health).(hc := s.hc.(run := Ticking, health := HealthTearing, trace := s.hc.trace + [MDone]))
    case MeetQuit(a) =>
      s.(calls := s.calls.With(a, AtPreStop(s.calls.Of(a).t, true)),
         hc := s.hc.(run := SendExited, trace := s.hc.trace + [MQuit]), owner := Some(a))
    case _ => s.(hc := OnChecking(cfg, s.hc, step))
  }

  /** `steps` can be taken one after the other from s. */
  ghost predicate Runs(cfg: Config, s: State, steps: seq<Step>)
    decreases |steps|
  {
    |steps| > 0 ==> Enabled(cfg, s, steps[0]) && Runs(cfg, Apply(cfg, s, steps[0]), steps[1..])
  }

  ghost function End(cfg: Config, s: State, steps: seq<Step>): State
    requires Runs(cfg, s, steps)
    decreases |steps|
  {
    if |steps| == 0 then s else End(cfg, Apply(cfg, s, steps[0]), steps[1..])
  }

  ghost predicate Reachable(cfg: Config, s: State) {
    exists steps :: Runs(cfg, Init(), steps) && End(cfg, Init(), steps) == s
  }

  lemma {:induction false} RunsConcat(cfg: Config, s: State, p: seq<Step>, q: seq<Step>)
    requires Runs(cfg, s, p)
    ensures Runs(cfg, s, p + q) <==> Runs(cfg, End(cfg, s, p), q)
    ensures Runs(cfg, s, p + q) ==> End(cfg, s, p + q) == End(cfg, End(cfg, s, p), q)
    decreases |p|
  {
    if |p| == 0 {
      assert p + q == q;
    } else {
      assert (p + q)[1..] == p[1..] + q;
      RunsConcat(cfg, Apply(cfg, s, p[0]), p[1..], q);
    }
  }

  /** A run can be put together front to back. */
  lemma RunsCons(cfg: Config, s: State, step: Step, rest: seq<Step>)
    requires Enabled(cfg, s, step) && Runs(cfg, Apply(cfg, s, step), rest)
    ensures Runs(cfg, s, [step] + rest)
    ensures End(cfg, s, [step] + rest) == End(cfg, Apply(cfg, s, step), rest)
  {
    assert ([step] + rest)[1..] == rest;
  }

  lemma RunsNothing(cfg: Config, s: State)
    ensures Runs(cfg, s, []) && End(cfg, s, []) == s
  {
  }

  lemma ReachableStep(cfg: Config, s: State, step: Step)
    requires Reachable(cfg, s) && Enabled(cfg, s, step)
    ensures Reachable(cfg, Apply(cfg, s, step))
  {
    var p :| Runs(cfg, Init(), p) && End(cfg, Init(), p) == s;
    RunsNothing(cfg, Apply(cfg, s, step));
    RunsCons(cfg, s, step, []);
    RunsConcat(cfg, Init(), p, [step] + []);
    var q := p + ([step] + []);
    assert Runs(cfg, Init(), q) && End(cfg, Init(), q) == Apply(cfg, s, step);
  }

  lemma {:induction false} ReachableRun(cfg: Config, s: State, steps: seq<Step>)
    requires Reachable(cfg, s) && Runs(cfg, s, steps)
    ensures Reachable(cfg, End(cfg, s, steps))
    decreases |steps|
  {
    if |steps| == 0 {
    } else {
      ReachableStep(cfg, s, steps[0]);
      ReachableRun(cfg, Apply(cfg, s, steps[0]), steps[1..]);
    }
  }
}
