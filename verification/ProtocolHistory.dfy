/** What the state of the protocol tells about the run that led to it. The steps themselves are the
    independent reading here: what the checks yielded, when the timer fired, who was killed. */
module ProtocolHistory {
  import Options
  import opened Status
  import opened Protocol
  import opened ProtocolInvariant

  lemma {:induction false} RunsLast(cfg: Config, s: State, steps: seq<Step>)
    requires |steps| > 0 && Runs(cfg, s, steps)
    ensures var f := steps[..|steps| - 1];
            && Runs(cfg, s, f)
            && Enabled(cfg, End(cfg, s, f), steps[|steps| - 1])
            && End(cfg, s, steps) == Apply(cfg, End(cfg, s, f), steps[|steps| - 1])
    decreases |steps|
  {
    hide Apply, Enabled;
    if |steps| == 1 {
      assert steps[1..] == [] && steps[..0] == [];
    } else {
      var f := steps[..|steps| - 1];
      RunsLast(cfg, Apply(cfg, s, steps[0]), steps[1..]);
      assert steps[1..][..|steps| - 2] == f[1..];
    }
  }

  // ----- readings of a run

  /** What the checks of the run yielded, in order. */
  function Results(steps: seq<Step>): seq<bool> {
    if |steps| == 0 then []
    else
      var last := steps[|steps| - 1];
      Results(steps[..|steps| - 1]) + (if last.CheckYields? then [last.healthy] else [])
  }

  /** For each check, in order, whether the grace timer had fired before it. */
  function FiredBefore(steps: seq<Step>): seq<bool> {
    if |steps| == 0 then []
    else
      var f := steps[..|steps| - 1];
      FiredBefore(f) + (if steps[|steps| - 1].CheckYields? then [GraceFires in f] else [])
  }

  /** For each report to healthCheck, in order, what the last check before it had yielded; false
      if there was none. */
  function Reports(steps: seq<Step>): seq<bool> {
    if |steps| == 0 then []
    else
      var f := steps[..|steps| - 1];
      Reports(f) + (if steps[|steps| - 1] == MeetHealthy then [LastResult(f)] else [])
  }

  function LastResult(steps: seq<Step>): bool {
    var r := Results(steps);
    |r| > 0 && r[|r| - 1]
  }

  /** The values delivered on Healthy, in order. */
  function Delivered(trace: seq<Msg>): seq<bool> {
    if |trace| == 0 then []
    else
      var m := trace[|trace| - 1];
      Delivered(trace[..|trace| - 1]) + (if m.MHealthy? then [m.healthy] else [])
  }

  lemma Extend(f: seq<Step>, x: Step)
    ensures Results(f + [x]) == Results(f) + (if x.CheckYields? then [x.healthy] else [])
    ensures FiredBefore(f + [x]) == FiredBefore(f) + (if x.CheckYields? then [GraceFires in f] else [])
    ensures Reports(f + [x]) == Reports(f) + (if x == MeetHealthy then [LastResult(f)] else [])
  {
    assert (f + [x])[..|f|] == f;
  }

  lemma ExtendTrace(t: seq<Msg>, m: Msg)
    ensures Delivered(t + [m]) == Delivered(t) + (if m.MHealthy? then [m.healthy] else [])
  {
    assert (t + [m])[..|t|] == t;
  }

  predicate Any(b: seq<bool>) {
    exists i :: 0 <= i < |b| && b[i]
  }

  // ----- the checks

  /** The history is that of the run: its i-th entry has the result of the i-th check and the flag
      as that check found it, which is set if and only if the timer had fired or an earlier
      check was healthy. */
  ghost predicate HistoryTold(steps: seq<Step>, c: Checking) {
    var r, t := Results(steps), FiredBefore(steps);
    && |c.history| == |r| == |t|
    && (forall i :: 0 <= i < |r| ==> c.history[i].healthy == r[i])
    && (forall i :: 0 <= i < |r| ==> (c.history[i].graceOver <==> t[i] || Any(r[..i])))
  }

  /** The flag itself, what is about to be reported, and what has been. */
  ghost predicate ReportsTold(cfg: Config, steps: seq<Step>, c: Checking) {
    && (c.grace <==> GraceFires in steps || Any(Results(steps)))
    && (c.run.SendHealthy? ==> |Results(steps)| > 0 && c.run.healthy == LastResult(steps))
    && Delivered(c.trace) == Reports(steps)
    && (!cfg.supported ==> Results(steps) == [])
    && (c.run == SendUnsupported ==> !cfg.supported)
  }

  lemma AnyMore(b: seq<bool>, x: bool)
    ensures Any(b + [x]) <==> Any(b) || x
  {
    if x {
      assert (b + [x])[|b|];
    }
    if Any(b) {
      var i :| 0 <= i < |b| && b[i];
      assert (b + [x])[i];
    }
  }

  /** One more check. */
  lemma HistoryGrows(cfg: Config, f: seq<Step>, c: Checking, healthy: bool)
    requires HistoryTold(f, c) && ReportsTold(cfg, f, c)
    ensures HistoryTold(f + [CheckYields(healthy)], OnCheck(cfg, c, healthy))
  {
    var x := CheckYields(healthy);
    Extend(f, x);
    var d := OnCheck(cfg, c, healthy);
    assert d.history == c.history + [d.history[|c.history|]];
    var r := Results(f + [x]);
    forall i | 0 <= i <= |Results(f)| ensures r[..i] == Results(f)[..i] {}
    assert Results(f)[..|Results(f)|] == Results(f);
  }

  lemma ReportsGrow(cfg: Config, f: seq<Step>, c: Checking, healthy: bool)
    requires ReportsTold(cfg, f, c) && cfg.supported
    ensures ReportsTold(cfg, f + [CheckYields(healthy)], OnCheck(cfg, c, healthy))
  {
    var x := CheckYields(healthy);
    Extend(f, x);
    AnyMore(Results(f), healthy);
    assert GraceFires in f + [x] <==> GraceFires in f;
  }

  ghost predicate ChecksTold(cfg: Config, steps: seq<Step>, c: Checking) {
    HistoryTold(steps, c) && ReportsTold(cfg, steps, c)
  }

  /** A step that is no check, no report and not the timer. */
  lemma ChecksSame(cfg: Config, f: seq<Step>, x: Step, c: Checking, d: Checking)
    requires ChecksTold(cfg, f, c) && !x.CheckYields? && x != MeetHealthy && x != GraceFires
    requires d.history == c.history && d.grace == c.grace && Delivered(d.trace) == Delivered(c.trace)
    requires d.run == c.run || (!d.run.SendHealthy? && (d.run == SendUnsupported ==> !cfg.supported))
    ensures ChecksTold(cfg, f + [x], d)
  {
    Extend(f, x);
    assert Results(f + [x]) == Results(f) && FiredBefore(f + [x]) == FiredBefore(f) && Reports(f + [x]) == Reports(f);
    assert GraceFires in f + [x] <==> GraceFires in f;
  }

  lemma TimerTold(cfg: Config, f: seq<Step>, c: Checking)
    requires ChecksTold(cfg, f, c)
    ensures ChecksTold(cfg, f + [GraceFires], c.(graceArmed := false, grace := true))
  {
    Extend(f, GraceFires);
    assert (f + [GraceFires])[|f|] == GraceFires;
    assert Results(f + [GraceFires]) == Results(f) && FiredBefore(f + [GraceFires]) == FiredBefore(f);
    assert Reports(f + [GraceFires]) == Reports(f);
  }

  lemma ReportTold(cfg: Config, f: seq<Step>, c: Checking)
    requires ChecksTold(cfg, f, c) && EnabledChecking(c, MeetHealthy) && (c.run == SendUnsupported ==> !cfg.supported)
    ensures ChecksTold(cfg, f + [MeetHealthy], OnChecking(cfg, c, MeetHealthy))
  {
    Extend(f, MeetHealthy);
    var v := c.run.SendHealthy? && c.run.healthy;
    ExtendTrace(c.trace, MHealthy(v));
    assert Results(f + [MeetHealthy]) == Results(f) && FiredBefore(f + [MeetHealthy]) == FiredBefore(f);
    assert GraceFires in f + [MeetHealthy] <==> GraceFires in f;
    assert v == LastResult(f);
  }

  /** The steps of healthCheck, the checker, the timer and the ticker. */
  lemma ChecksMove(cfg: Config, f: seq<Step>, c: Checking, x: Step)
    requires ChecksTold(cfg, f, c) && CheckerInv(cfg, c) && EnabledChecking(c, x)
    ensures ChecksTold(cfg, f + [x], OnChecking(cfg, c, x))
  {
    hide ChecksTold, PhaseOf;
    match x {
      case CheckYields(healthy) =>
        ChecksParts(cfg, f, c);
        HistoryGrows(cfg, f, c, healthy);
        ReportsGrow(cfg, f, c, healthy);
        PartsChecks(cfg, f + [x], OnCheck(cfg, c, healthy));
      case GraceFires => TimerTold(cfg, f, c);
      case MeetHealthy => ReportTold(cfg, f, c);
      case MeetExited =>
        ExtendTrace(c.trace, MExited);
        ChecksSame(cfg, f, x, c, OnChecking(cfg, c, x));
      case _ => ChecksSame(cfg, f, x, c, OnChecking(cfg, c, x));
    }
  }

  lemma ChecksParts(cfg: Config, f: seq<Step>, c: Checking)
    requires ChecksTold(cfg, f, c)
    ensures HistoryTold(f, c) && ReportsTold(cfg, f, c)
  {
  }

  lemma PartsChecks(cfg: Config, f: seq<Step>, c: Checking)
    requires HistoryTold(f, c) && ReportsTold(cfg, f, c)
    ensures ChecksTold(cfg, f, c)
  {
  }

  /** Any step. */
  lemma ChecksKept(cfg: Config, f: seq<Step>, s: State, x: Step)
    requires ChecksTold(cfg, f, s.hc) && CheckerInv(cfg, s.hc) && Enabled(cfg, s, x)
    ensures ChecksTold(cfg, f + [x], Apply(cfg, s, x).hc)
  {
    hide ChecksTold, PhaseOf, OnCallStep, OnReport, OnEvent, OnLaunchStep, OnChecking, CheckerInv;
    match x {
      case CallStep(a) =>
        CallFrame(s, a);
        ChecksSame(cfg, f, x, s.hc, s.hc);
      case ReportStep(a, answer) =>
        ReportFrame(s, a, answer);
        ChecksSame(cfg, f, x, s.hc, OnReport(s, a, answer).hc);
      case LaunchStep(ok) =>
        LaunchFrame(cfg, s, s.loop.stage, ok);
        ChecksSame(cfg, f, x, s.hc, OnLaunchStep(cfg, s, s.loop.stage, ok).hc);
      case LoopEvent(ev) =>
        EventFrame(s, ev);
        ChecksSame(cfg, f, x, s.hc, s.hc);
      case LoopHead => ChecksSame(cfg, f, x, s.hc, s.hc);
      case SignalArrives => ChecksSame(cfg, f, x, s.hc, s.hc);
      case ContainerExits(_) => ChecksSame(cfg, f, x, s.hc, s.hc);
      case MeetDone =>
        ExtendTrace(s.hc.trace, MDone);
        ChecksSame(cfg, f, x, s.hc, Apply(cfg, s, x).hc);
      case MeetQuit(_) =>
        ExtendTrace(s.hc.trace, MQuit);
        ChecksSame(cfg, f, x, s.hc, Apply(cfg, s, x).hc);
      case _ => ChecksMove(cfg, f, s.hc, x);
    }
  }

  lemma NothingYet(cfg: Config)
    ensures ChecksTold(cfg, [], Init().hc)
  {
  }

  /** In every run: the i-th entry of the history has the result of the i-th check, and its flag is
      set if and only if the timer fired before that check or an earlier check was healthy; the
      flag of the checker is set if and only if the timer has fired or some check was healthy;
      what is about to be reported is the result of the last check; and the values delivered
      on Healthy are, report by report, the results of the checks they report. */
  lemma {:induction false} ChecksAsRun(cfg: Config, steps: seq<Step>)
    requires Runs(cfg, Init(), steps)
    ensures ChecksTold(cfg, steps, End(cfg, Init(), steps).hc)
    decreases |steps|
  {
    hide ChecksTold, PhaseOf;
    if |steps| == 0 {
      NothingYet(cfg);
    } else {
      var f, x := steps[..|steps| - 1], steps[|steps| - 1];
      RunsLast(cfg, Init(), steps);
      ChecksAsRun(cfg, f);
      InitInv(cfg);
      RunInv(cfg, Init(), f);
      hide ChecksTold, Apply, Enabled, Runs, End;
      ChecksKept(cfg, f, End(cfg, Init(), f), x);
      assert f + [x] == steps;
    }
  }

  // ----- ticks, timer and updates

  function One(b: bool): nat {
    if b then 1 else 0
  }

  /** How often the checker, the timer, the ticker and healthCheck have made their steps. */
  datatype Tally = Tally(
    boots: nat, wakes: nat, fires: nat, ticks: nat, taken: nat, checks: nat, reports: nat, updates: nat)

  function Times(steps: seq<Step>, x: Step): nat {
    multiset(steps)[x]
  }

  lemma TimesMore(f: seq<Step>, x: Step, y: Step)
    ensures Times(f + [x], y) == Times(f, y) + One(x == y)
  {
  }

  function TallyOf(steps: seq<Step>): Tally {
    Tally(Times(steps, HealthBoots), Times(steps, WakeUp), Times(steps, GraceFires), Times(steps, Tick),
          Times(steps, TakeTick), |Results(steps)|, Times(steps, MeetHealthy), Times(steps, HealthUpdates))
  }

  /** The checker is started and woken up at most once, and the timer fires at most once, after
      that; every tick that is taken starts one check, and no tick is taken more often than the
      ticker has ticked; every report to healthCheck is followed by one RUNNING update. */
  predicate TicksTold(n: Tally, c: Checking) {
    && n.boots + One(c.run == RunOff) == 1
    && n.wakes + One(c.run == RunOff || c.run == Sleeping) == 1
    && n.fires + One(c.graceArmed) == n.wakes
    && n.taken + One(c.buffered) <= n.ticks
    && n.checks + One(c.run == InCheck) == n.taken
    && n.updates + One(c.health == Updating) == n.reports
  }

  function Tallied(n: Tally, x: Step): Tally {
    match x
    case HealthBoots => n.(boots := n.boots + 1)
    case WakeUp => n.(wakes := n.wakes + 1)
    case GraceFires => n.(fires := n.fires + 1)
    case Tick => n.(ticks := n.ticks + 1)
    case TakeTick => n.(taken := n.taken + 1)
    case CheckYields(_) => n.(checks := n.checks + 1)
    case MeetHealthy => n.(reports := n.reports + 1)
    case HealthUpdates => n.(updates := n.updates + 1)
    case _ => n
  }

  lemma TallyMore(f: seq<Step>, x: Step)
    ensures TallyOf(f + [x]) == Tallied(TallyOf(f), x)
  {
    Extend(f, x);
    hide Results, Times;
    TimesMore(f, x, HealthBoots);
    TimesMore(f, x, WakeUp);
    TimesMore(f, x, GraceFires);
    TimesMore(f, x, Tick);
    TimesMore(f, x, TakeTick);
    TimesMore(f, x, MeetHealthy);
    TimesMore(f, x, HealthUpdates);
  }

  /** The steps that are not counted here. */
  predicate Uncounted(x: Step) {
    match x
    case HealthBoots => false
    case WakeUp => false
    case GraceFires => false
    case Tick => false
    case TakeTick => false
    case CheckYields(_) => false
    case MeetHealthy => false
    case HealthUpdates => false
    case _ => true
  }

  /** Steps that move none of this. */
  lemma TicksSame(n: Tally, x: Step, c: Checking, d: Checking)
    requires TicksTold(n, c) && Uncounted(x)
    requires (d.run == RunOff <==> c.run == RunOff) && (d.run == Sleeping <==> c.run == Sleeping)
    requires (d.run == InCheck <==> c.run == InCheck) && (d.health == Updating <==> c.health == Updating)
    requires d.graceArmed == c.graceArmed && d.buffered == c.buffered
    ensures TicksTold(Tallied(n, x), d)
  {
  }

  lemma TicksMove(cfg: Config, n: Tally, c: Checking, x: Step)
    requires TicksTold(n, c) && CheckerInv(cfg, c) && EnabledChecking(c, x)
    ensures TicksTold(Tallied(n, x), OnChecking(cfg, c, x))
  {
    hide PhaseOf;
  }

  lemma TicksKept(cfg: Config, n: Tally, s: State, x: Step)
    requires TicksTold(n, s.hc) && ControlInv(cfg, s) && CheckerInv(cfg, s.hc) && Enabled(cfg, s, x)
    ensures TicksTold(Tallied(n, x), Apply(cfg, s, x).hc)
  {
    if Uncounted(x) && x != MeetExited {
      NotTheirs(cfg, s, x);
      hide TicksTold, Tallied, Apply, Enabled, ControlInv, CheckerInv;
      TicksSame(n, x, s.hc, Apply(cfg, s, x).hc);
    } else {
      hide TicksTold, Tallied, OnChecking, CheckerInv, ControlInv;
      TicksMove(cfg, n, s.hc, x);
    }
  }

  /** The steps that do not move the checker, the timer, the ticker or the updates. */
  lemma NotTheirs(cfg: Config, s: State, x: Step)
    requires ControlInv(cfg, s) && Enabled(cfg, s, x) && Uncounted(x) && x != MeetExited
    ensures var c, d := s.hc, Apply(cfg, s, x).hc;
            && (d.run == RunOff <==> c.run == RunOff) && (d.run == Sleeping <==> c.run == Sleeping)
            && (d.run == InCheck <==> c.run == InCheck) && (d.health == Updating <==> c.health == Updating)
            && d.graceArmed == c.graceArmed && d.buffered == c.buffered
  {
    hide OnCallStep, OnReport, OnEvent, OnChecking, OnLaunchStep, PhaseOf, LaunchInv, NextCall, Calls.With, AfterStage;
    match x {
      case CallStep(a) => CallFrame(s, a);
      case ReportStep(a, answer) =>
        ReportFrame(s, a, answer);
        TearingIs(cfg, s, a);
      case LaunchStep(ok) =>
        LaunchFrame(cfg, s, s.loop.stage, ok);
        BootsFromOff(cfg, s, ok);
      case LoopEvent(ev) => EventFrame(s, ev);
      case _ =>
    }
  }

  lemma TearingIs(cfg: Config, s: State, a: Actor)
    requires ControlInv(cfg, s) && s.calls.Of(a).AtReport?
    ensures a == Health ==> s.hc.health == HealthTearing
  {
    hide PhaseOf, LaunchInv;
  }

  /** healthCheck is spawned once. */
  lemma BootsFromOff(cfg: Config, s: State, ok: bool)
    requires ControlInv(cfg, s) && s.loop.Launching?
    ensures OnLaunchStep(cfg, s, s.loop.stage, ok).hc == s.hc || s.hc.health == HealthOff
  {
    hide PhaseOf;
  }

  lemma NoTicks()
    ensures TicksTold(TallyOf([]), Init().hc)
  {
    assert Results([]) == [];
    hide Results, Times;
    TimesNone(HealthBoots);
    TimesNone(WakeUp);
    TimesNone(GraceFires);
    TimesNone(Tick);
    TimesNone(TakeTick);
    TimesNone(MeetHealthy);
    TimesNone(HealthUpdates);
  }

  lemma TimesNone(x: Step)
    ensures Times([], x) == 0
  {
  }

  lemma {:induction false} TicksAsRun(cfg: Config, steps: seq<Step>)
    requires Runs(cfg, Init(), steps)
    ensures TicksTold(TallyOf(steps), End(cfg, Init(), steps).hc)
    decreases |steps|
  {
    hide TicksTold, TallyOf;
    if |steps| == 0 {
      NoTicks();
    } else {
      var f, x := steps[..|steps| - 1], steps[|steps| - 1];
      RunsLast(cfg, Init(), steps);
      TicksAsRun(cfg, f);
      InitInv(cfg);
      RunInv(cfg, Init(), f);
      hide TicksTold, Apply, Enabled, Runs, End, TallyOf;
      TicksKept(cfg, TallyOf(f), End(cfg, Init(), f), x);
      TallyMore(f, x);
      assert f + [x] == steps;
    }
  }

  // ----- the tearDowns

  function TerminalOf(c: Call): Terminal
    requires c != Idle
  {
    match c
    case Entering(t) => t
    case AtQuit(t) => t
    case AtPreStop(t, _) => t
    case AtStop(t, _) => t
    case AtPostStop(t, _) => t
    case AtReport(t, _) => t
  }

  /** How the call of a goroutine moves with a step: d is where it is after c. */
  predicate Moves(c: Call, d: Call, installed: bool, x: Step, a: Actor) {
    match x
    case CallStep(b) => d == if b == a then NextCall(c, installed) else c
    case ReportStep(b, _) => if b == a then d == Idle || (a == Loop && d == Entering(Killed)) else d == c
    case MeetQuit(b) => if b == a then c.AtQuit? && d == AtPreStop(c.t, true) else d == c
    case SignalArrives => d == if a == Signal then Entering(Killed) else c
    case MeetDone => d == if a == Health then Entering(Killed) else c
    case ContainerExits(success) => d == if a == Waiter then Entering(if success then Finished else Failed) else c
    case LoopEvent(ev) => d == if a == Loop && (ev == KillEvent || ev == ErrorEvent) then Entering(Killed) else c
    case LaunchStep(ok) => d == if a == Loop && !ok then Entering(Failed) else c
    case _ => d == c
  }

  lemma CallMoves(cfg: Config, s: State, x: Step, a: Actor)
    requires Enabled(cfg, s, x)
    ensures Moves(s.calls.Of(a), Apply(cfg, s, x).calls.Of(a), s.installed, x, a)
  {
    hide OnCallStep, OnReport, OnChecking;
    match x {
      case CallStep(b) =>
        CallFrame(s, b);
        WithOther(s.calls, b, NextCall(s.calls.Of(b), s.installed), a);
      case ReportStep(b, answer) =>
        ReportFrame(s, b, answer);
        LoopReportFrame(s, answer);
        WithOther(s.calls, b, OnReport(s, b, answer).calls.Of(b), a);
      case MeetQuit(b) => WithOther(s.calls, b, AtPreStop(s.calls.Of(b).t, true), a);
      case _ =>
    }
  }

  lemma WithOther(calls: Calls, b: Actor, d: Call, a: Actor)
    ensures calls.With(b, d).Of(a) == if a == b then d else calls.Of(a)
  {
  }

  /** Which terminal state each goroutine is on its way to report: KILLED for the stop-signal
      handler and for healthCheck, FAILED for a failed launch and KILLED otherwise for the event
      loop, and FINISHED or FAILED as the container exited for waitContainer. */
  ghost predicate TerminalTold(steps: seq<Step>, s: State, a: Actor) {
    s.calls.Of(a) != Idle ==>
      match a
      case Signal => TerminalOf(s.calls.signal) == Killed
      case Health => TerminalOf(s.calls.health) == Killed
      case Loop => TerminalOf(s.calls.loop) == if s.loop == Tearing(ToKill) then Failed else Killed
      case Waiter =>
        || (TerminalOf(s.calls.waiter) == Finished && ContainerExits(true) in steps)
        || (TerminalOf(s.calls.waiter) == Failed && ContainerExits(false) in steps)
  }

  /** Which of the steps that matter to Shutdown a run has. */
  datatype Seen = Seen(signal: bool, kill: bool, error: bool, done: bool, failed: bool, launch: bool)

  function SeenIn(steps: seq<Step>): Seen {
    Seen(SignalArrives in steps, LoopEvent(KillEvent) in steps, LoopEvent(ErrorEvent) in steps, MeetDone in steps,
         LaunchStep(false) in steps, LoopEvent(LaunchEvent) in steps)
  }

  function SeenMore(n: Seen, x: Step): Seen {
    Seen(n.signal || x == SignalArrives, n.kill || x == LoopEvent(KillEvent), n.error || x == LoopEvent(ErrorEvent),
         n.done || x == MeetDone, n.failed || x == LaunchStep(false), n.launch || x == LoopEvent(LaunchEvent))
  }

  lemma SeenExtends(f: seq<Step>, x: Step)
    ensures SeenIn(f + [x]) == SeenMore(SeenIn(f), x)
  {
    Member(f, x);
  }

  /** Shutdown has been set if and only if a signal has arrived, a KILL event or an error has,
      Done was delivered, or the tearDown of a failed launch is over. */
  predicate ShutdownTold(n: Seen, s: State) {
    && (s.shutdown <==> n.signal || n.kill || n.error || n.done || (n.failed && s.loop != Tearing(ToKill)))
    && (s.launched <==> n.launch)
    && (n.failed ==> s.launched && (s.loop.Tearing? || s.loop == Returned) && s.loop != Tearing(ToEvents))
    && (s.loop == Tearing(ToKill) ==> n.failed)
    && (s.loop == Tearing(ToEvents) ==> n.kill)
  }

  /** How many of its four steps a tearDown has made: finding the checker or not, the pre-stop
      hooks, the stop, and the post-stop hooks. */
  function StepsMade(c: Call): nat {
    match c
    case AtQuit(_) => 1
    case AtPreStop(_, _) => 1
    case AtStop(_, _) => 2
    case AtPostStop(_, _) => 3
    case AtReport(_, _) => 4
    case _ => 0
  }

  /** The status updates at the end of tearDowns that a goroutine has attempted. */
  function Attempts(steps: seq<Step>, a: Actor): nat {
    Times(steps, ReportStep(a, Accepted)) + Times(steps, ReportStep(a, RefusedEof)) +
    Times(steps, ReportStep(a, Refused))
  }

  /** Every tearDown that was reported, by whichever goroutine and with a checker or without,
      has made its four steps, none left out and none twice. */
  ghost predicate StepsTold(steps: seq<Step>, s: State, a: Actor) {
    Times(steps, CallStep(a)) == 4 * Attempts(steps, a) + StepsMade(s.calls.Of(a))
  }

  /** The owner is the goroutine whose Quit was met. */
  ghost predicate OwnerTold(steps: seq<Step>, s: State, a: Actor) {
    s.owner == Options.Some(a) <==> MeetQuit(a) in steps
  }

  ghost predicate TearDownsTold(steps: seq<Step>, s: State) {
    && ShutdownTold(SeenIn(steps), s)
    && forall a :: TerminalTold(steps, s, a) && StepsTold(steps, s, a) && OwnerTold(steps, s, a)
  }

  lemma Member(f: seq<Step>, x: Step)
    ensures forall y {:trigger y in f + [x]} :: y in f + [x] <==> y in f || y == x
  {
  }

  /** How the event loop moves between its own calls of tearDown. */
  lemma LoopPlace(cfg: Config, s: State, x: Step)
    requires ControlInv(cfg, s) && Enabled(cfg, s, x)
    ensures var t := Apply(cfg, s, x);
            t.calls.loop != Idle ==>
              if s.calls.loop == Idle then t.loop == Tearing(ToKill) <==> x.LaunchStep?
              else if x.ReportStep? && x.a == Loop then t.loop == Tearing(ToReturn)
              else t.loop == s.loop
  {
    hide OnChecking, OnCallStep, OnReport, PhaseOf, LaunchInv;
    match x {
      case CallStep(b) => CallFrame(s, b);
      case ReportStep(b, answer) =>
        ReportFrame(s, b, answer);
        LoopReportFrame(s, answer);
      case _ =>
    }
  }

  lemma TerminalKept(cfg: Config, f: seq<Step>, s: State, x: Step, a: Actor)
    requires TerminalTold(f, s, a) && ControlInv(cfg, s) && Enabled(cfg, s, x)
    ensures TerminalTold(f + [x], Apply(cfg, s, x), a)
  {
    Member(f, x);
    CallMoves(cfg, s, x, a);
    LoopPlace(cfg, s, x);
    Busy(cfg, s, x);
    hide Apply, ControlInv, Enabled;
  }

  /** A goroutine begins a tearDown only when it is not in one. */
  lemma Busy(cfg: Config, s: State, x: Step)
    requires ControlInv(cfg, s) && Enabled(cfg, s, x)
    ensures x.LoopEvent? || x.LaunchStep? ==> s.calls.loop == Idle
    ensures x == SignalArrives ==> s.calls.signal == Idle
    ensures x == MeetDone ==> s.calls.health == Idle
    ensures x.ContainerExits? ==> s.calls.waiter == Idle
    ensures x.CallStep? ==> s.calls.Of(x.a) != Idle && !s.calls.Of(x.a).AtQuit? && !s.calls.Of(x.a).AtReport?
    ensures x.ReportStep? ==> s.calls.Of(x.a).AtReport?
  {
    hide PhaseOf, LaunchInv;
  }

  lemma ShutdownKept(cfg: Config, n: Seen, s: State, x: Step)
    requires ShutdownTold(n, s) && ControlInv(cfg, s) && Enabled(cfg, s, x)
    ensures ShutdownTold(SeenMore(n, x), Apply(cfg, s, x))
  {
    if x == LoopHead || x.LoopEvent? || x.LaunchStep? {
      LoopAlone(cfg, s, x);
      hide Apply, ControlInv, Enabled;
    } else {
      LoopOnly(cfg, s, x);
      hide Apply, ControlInv, Enabled;
    }
  }

  lemma LoopAlone(cfg: Config, s: State, x: Step)
    requires ControlInv(cfg, s) && Enabled(cfg, s, x) && (x == LoopHead || x.LoopEvent? || x.LaunchStep?)
    ensures var t := Apply(cfg, s, x);
            && (x == LoopHead ==> t.launched == s.launched && t.shutdown == s.shutdown && s.loop == Head
                                  && (t.loop == Decoding || t.loop == Returned))
            && (x == LoopEvent(LaunchEvent) ==>
                  !s.launched && t.launched && t.shutdown == s.shutdown && t.loop.Launching?)
            && (x == LoopEvent(KillEvent) ==> t.loop == Tearing(ToEvents))
            && (x == LoopEvent(ErrorEvent) ==> t.loop == Tearing(ToReturn))
            && (x.LoopEvent? && x.ev != LaunchEvent ==> t.launched == s.launched && s.loop == Decoding)
            && (x == LoopEvent(KillEvent) || x == LoopEvent(ErrorEvent) ==> t.shutdown)
            && (x == LoopEvent(HarmlessEvent) || x == LoopEvent(EofEvent) ==>
                  t.shutdown == s.shutdown && t.loop == Head)
            && (x.LaunchStep? ==> s.loop.Launching? && s.launched && t.launched && t.shutdown == s.shutdown)
            && (x == LaunchStep(false) ==> t.loop == Tearing(ToKill))
            && (x == LaunchStep(true) ==> t.loop.Launching? || t.loop == Head)
  {
    hide OnChecking, PhaseOf, LaunchInv, OnReport, OnCallStep;
    match x {
      case LoopHead =>
      case LoopEvent(ev) => hide OnLaunchStep;
      case LaunchStep(ok) => hide OnEvent;
    }
  }

  /** What the steps of the others and the reports leave of the event loop. */
  lemma LoopOnly(cfg: Config, s: State, x: Step)
    requires ControlInv(cfg, s) && Enabled(cfg, s, x)
    ensures var t := Apply(cfg, s, x);
            && (x != LoopHead && !x.LoopEvent? && !x.LaunchStep? && !(x.ReportStep? && x.a == Loop) ==>
                  && t.loop == s.loop && t.launched == s.launched
                  && t.shutdown == (s.shutdown || x == SignalArrives || x == MeetDone))
            && (x.ReportStep? && x.a == Loop ==>
                  && t.launched == s.launched
                  && (t.loop == Head || t.loop == Returned || t.loop == Tearing(ToReturn))
                  && (t.loop == Head ==> s.loop == Tearing(ToEvents))
                  && t.shutdown == (s.shutdown || t.loop == Tearing(ToReturn))
                  && (s.loop == Tearing(ToKill) ==> t.loop == Tearing(ToReturn))
                  && (s.loop == Tearing(ToReturn) ==> t.loop == Returned))
  {
    hide OnChecking, PhaseOf, LaunchInv, OnCallStep;
    match x {
      case CallStep(a) => CallFrame(s, a);
      case ReportStep(a, answer) =>
      case _ =>
    }
  }

  lemma CountAttempts(f: seq<Step>, x: Step, a: Actor)
    ensures Attempts(f + [x], a) == Attempts(f, a) + (if x.ReportStep? && x.a == a then 1 else 0)
  {
    hide Times;
    TimesMore(f, x, ReportStep(a, Accepted));
    TimesMore(f, x, ReportStep(a, RefusedEof));
    TimesMore(f, x, ReportStep(a, Refused));
    if x.ReportStep? {
      assert x == ReportStep(x.a, x.answer);
      assert x.answer == Accepted || x.answer == RefusedEof || x.answer == Refused;
    }
  }

  /** The place of a call moves by one with each of its steps, and back with its report. */
  lemma StepsMove(c: Call, d: Call, installed: bool, x: Step, a: Actor)
    requires Moves(c, d, installed, x, a)
    requires x == CallStep(a) ==> c != Idle && !c.AtQuit? && !c.AtReport?
    requires x.ReportStep? && x.a == a ==> c.AtReport?
    requires x == SignalArrives && a == Signal ==> c == Idle
    requires x == MeetDone && a == Health ==> c == Idle
    requires x.ContainerExits? && a == Waiter ==> c == Idle
    requires (x.LoopEvent? || x.LaunchStep?) && a == Loop ==> c == Idle
    ensures StepsMade(d) == if x == CallStep(a) then StepsMade(c) + 1
                            else if x.ReportStep? && x.a == a then StepsMade(c) - 4
                            else StepsMade(c)
  {
  }

  lemma StepsKept(cfg: Config, f: seq<Step>, s: State, x: Step, a: Actor)
    requires StepsTold(f, s, a) && Inv(cfg, s) && Enabled(cfg, s, x)
    ensures StepsTold(f + [x], Apply(cfg, s, x), a)
  {
    TimesMore(f, x, CallStep(a));
    CountAttempts(f, x, a);
    CallMoves(cfg, s, x, a);
    Busy(cfg, s, x);
    hide Apply, Inv, Enabled, Attempts, Moves, StepsMade, Times;
    StepsMove(s.calls.Of(a), Apply(cfg, s, x).calls.Of(a), s.installed, x, a);
  }

  lemma OwnerKept(cfg: Config, f: seq<Step>, s: State, x: Step, a: Actor)
    requires OwnerTold(f, s, a) && Inv(cfg, s) && Enabled(cfg, s, x)
    ensures OwnerTold(f + [x], Apply(cfg, s, x), a)
  {
    Member(f, x);
    OwnerMoves(cfg, s, x);
    hide Apply, Inv, Enabled;
    if x.MeetQuit? {
      assert x == MeetQuit(x.a);
    }
  }

  lemma OwnerMoves(cfg: Config, s: State, x: Step)
    requires Inv(cfg, s) && Enabled(cfg, s, x)
    ensures x.MeetQuit? ==> s.owner == Options.None && Apply(cfg, s, x).owner == Options.Some(x.a)
    ensures !x.MeetQuit? ==> Apply(cfg, s, x).owner == s.owner
  {
    hide OnChecking, OnCallStep, OnReport, PhaseOf;
    match x {
      case CallStep(a) => CallFrame(s, a);
      case ReportStep(a, answer) => ReportFrame(s, a, answer);
      case MeetQuit(a) => MeetQuitKeeps(cfg, s, a);
      case _ =>
    }
  }

  lemma NoneYet(a: Actor)
    ensures TerminalTold([], Init(), a) && StepsTold([], Init(), a) && OwnerTold([], Init(), a)
  {
  }

  /** In every run: which terminal state each goroutine is on its way to report, why Shutdown is
      set, that every reported tearDown has made its four steps, and whose Quit was accepted. */
  lemma {:induction false} TearDownsAsRun(cfg: Config, steps: seq<Step>)
    requires Runs(cfg, Init(), steps)
    ensures TearDownsTold(steps, End(cfg, Init(), steps))
    decreases |steps|, 1
  {
    if |steps| == 0 {
      forall a ensures TerminalTold([], Init(), a) && StepsTold([], Init(), a) && OwnerTold([], Init(), a) {
        NoneYet(a);
      }
    } else {
      TearDownsLast(cfg, steps);
    }
  }

  lemma {:induction false} TearDownsLast(cfg: Config, steps: seq<Step>)
    requires |steps| > 0 && Runs(cfg, Init(), steps)
    ensures TearDownsTold(steps, End(cfg, Init(), steps))
    decreases |steps|, 0
  {
    hide TerminalTold, ShutdownTold, StepsTold, OwnerTold, Apply, Enabled, SeenIn, SeenMore;
    var f, x := steps[..|steps| - 1], steps[|steps| - 1];
    RunsLast(cfg, Init(), steps);
    hide Runs, End;
    TearDownsAsRun(cfg, f);
    InitInv(cfg);
    RunInv(cfg, Init(), f);
    var s := End(cfg, Init(), f);
    ShutdownKept(cfg, SeenIn(f), s, x);
    SeenExtends(f, x);
    assert f + [x] == steps;
    forall a
      ensures TerminalTold(steps, Apply(cfg, s, x), a) && StepsTold(steps, Apply(cfg, s, x), a)
      ensures OwnerTold(steps, Apply(cfg, s, x), a)
    {
      TerminalKept(cfg, f, s, x, a);
      StepsKept(cfg, f, s, x, a);
      OwnerKept(cfg, f, s, x, a);
    }
  }
}
