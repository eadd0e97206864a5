/** What no interleaving of the protocol can do. */
module ProtocolSafety {
  import opened Status
  import opened FailureCounter
  import opened Protocol
  import opened ProtocolInvariant

  /** Healthy* followed by nothing, Quit, Quit Exited, Done, or Done Quit. */
  ghost predicate WellShaped(t: seq<Msg>) {
    exists k :: 0 <= k <= |t| && AllHealthy(t[..k]) && Ending(t[k..])
  }

  predicate AllHealthy(t: seq<Msg>) {
    forall i :: 0 <= i < |t| ==> t[i].MHealthy?
  }

  predicate Ending(t: seq<Msg>) {
    t == [] || t == [MQuit] || t == [MQuit, MExited] || t == [MDone] || t == [MDone, MQuit]
  }

  function EndingOf(p: Phase): seq<Msg> {
    match p
    case QuitSeen => [MQuit]
    case ExitedSeen => [MQuit, MExited]
    case DoneSeen => [MDone]
    case DoneThenQuit => [MDone, MQuit]
    case _ => []
  }

  lemma PhaseLast(t: seq<Msg>)
    ensures PhaseOf(t) == if |t| == 0 then Live else NextPhase(PhaseOf(t[..|t| - 1]), t[|t| - 1])
  {
  }

  lemma {:induction false} PhaseShape(t: seq<Msg>)
    requires PhaseOf(t) != Broken
    ensures var e := EndingOf(PhaseOf(t));
            |e| <= |t| && AllHealthy(t[..|t| - |e|]) && t[|t| - |e|..] == e
  {
    hide PhaseOf;
    PhaseLast(t);
    if |t| == 0 {
    } else {
      var u, m := t[..|t| - 1], t[|t| - 1];
      PhaseShape(u);
      ShapeExtends(u, PhaseOf(u), m);
      hide EndingOf, NextPhase, AllHealthy;
      assert t == u + [m];
    }
  }

  lemma ShapeExtends(u: seq<Msg>, p: Phase, m: Msg)
    requires NextPhase(p, m) != Broken
    requires var e := EndingOf(p); |e| <= |u| && AllHealthy(u[..|u| - |e|]) && u[|u| - |e|..] == e
    ensures var e, t := EndingOf(NextPhase(p, m)), u + [m];
            |e| <= |t| && AllHealthy(t[..|t| - |e|]) && t[|t| - |e|..] == e
  {
    var n := |u| - |EndingOf(p)|;
    assert u == u[..n] + EndingOf(p);
    if NextPhase(p, m) == Live {
      assert (u + [m])[..|u| + 1] == u[..n] + [m];
    } else {
      assert u + [m] == u[..n] + (EndingOf(p) + [m]);
    }
  }

  /** In every run and interleaving the completed rendezvous have this shape: Done, Quit and
      Exited happen at most once each, Healthy never after one of them, and Exited never on
      the Done path. */
  lemma TraceShape(cfg: Config, s: State)
    requires Reachable(cfg, s)
    ensures WellShaped(s.hc.trace)
  {
    hide PhaseOf;
    ReachableInv(cfg, s);
    PhaseShape(s.hc.trace);
    var k := |s.hc.trace| - |EndingOf(PhaseOf(s.hc.trace))|;
    assert Ending(s.hc.trace[k..]);
  }

  /** Among all tearDown calls that observed the checker, by whichever goroutines, at most
      one is ever past the Quit send, and between them the pre-stop hooks, the container
      stop, the post-stop hooks and a terminal update happen at most once, in this order. */
  lemma TearDownAtMostOnce(cfg: Config, s: State)
    requires Reachable(cfg, s)
    ensures exists t :: s.acts <= [RanPreStop, RanStop, RanPostStop, Attempted(t)]
    ensures forall a, b :: Past(s.calls.Of(a)) && Past(s.calls.Of(b)) ==> a == b
    ensures s.acts != [] ==> MQuit in s.hc.trace
  {
    hide PhaseOf;
    ReachableInv(cfg, s);
    hide ControlInv, CheckerInv, CounterInv;
    if |s.acts| == 4 {
      assert s.acts <= [RanPreStop, RanStop, RanPostStop, Attempted(s.acts[3].t)];
    } else {
      assert s.acts <= [RanPreStop, RanStop, RanPostStop, Attempted(Killed)];
    }
    QuitInTrace(cfg, s);
  }

  lemma QuitInTrace(cfg: Config, s: State)
    requires Inv(cfg, s)
    ensures s.acts != [] ==> MQuit in s.hc.trace
  {
    if s.acts != [] {
      assert QuitAccepted(s.hc);
      QuitShows(s.hc.trace);
    }
  }

  lemma QuitShows(t: seq<Msg>)
    requires var p := PhaseOf(t); p == QuitSeen || p == ExitedSeen || p == DoneThenQuit
    ensures MQuit in t
  {
    hide PhaseOf, AllHealthy;
    PhaseShape(t);
    var e := EndingOf(PhaseOf(t));
    assert MQuit in e;
    InSuffix(t, |t| - |e|, MQuit);
  }

  lemma InSuffix(t: seq<Msg>, k: nat, m: Msg)
    requires k <= |t| && m in t[k..]
    ensures m in t
  {
  }

  /** Once a Quit has been accepted, no other tearDown gets past its own. */
  lemma {:induction false} LosersStayBlocked(cfg: Config, s: State, steps: seq<Step>, a: Actor)
    requires Reachable(cfg, s) && QuitAccepted(s.hc) && s.calls.Of(a).AtQuit?
    requires Runs(cfg, s, steps)
    ensures End(cfg, s, steps).calls.Of(a) == s.calls.Of(a)
    ensures QuitAccepted(End(cfg, s, steps).hc)
    ensures forall i :: 0 <= i < |steps| ==> !steps[i].MeetQuit?
    decreases |steps|
  {
    hide PhaseOf;
    ReachableInv(cfg, s);
    if |steps| == 0 {
    } else {
      var t := Apply(cfg, s, steps[0]);
      assert t.calls.Of(a) == s.calls.Of(a) && !steps[0].MeetQuit? by { AcceptedStep(cfg, s, steps[0], a); }
      assert QuitAccepted(t.hc) by { AcceptedStep(cfg, s, steps[0], a); }
      ReachableStep(cfg, s, steps[0]);
      LosersStayBlocked(cfg, t, steps[1..], a);
    }
  }

  lemma AcceptedStays(cfg: Config, s: State, step: Step)
    requires CheckerInv(cfg, s.hc) && QuitAccepted(s.hc) && Enabled(cfg, s, step)
    ensures !step.MeetQuit? && !step.MeetDone? && QuitAccepted(Apply(cfg, s, step).hc)
  {
    hide PhaseOf;
    match step {
      case MeetExited => PhaseExtends(s.hc.trace, MExited);
      case MeetHealthy => assert false;
      case MeetDone => assert false;
      case MeetQuit(_) => assert false;
      case _ =>
        QuietStep(cfg, s, step);
        hide CheckerInv, Apply;
    }
  }

  lemma AcceptedStep(cfg: Config, s: State, step: Step, a: Actor)
    requires ControlInv(cfg, s) && CheckerInv(cfg, s.hc) && QuitAccepted(s.hc) && Enabled(cfg, s, step)
    ensures !step.MeetQuit? && QuitAccepted(Apply(cfg, s, step).hc)
    ensures s.calls.Of(a).AtQuit? ==> Apply(cfg, s, step).calls.Of(a) == s.calls.Of(a)
  {
    hide PhaseOf;
    AcceptedStays(cfg, s, step);
    hide CheckerInv, QuitAccepted, OnChecking, OnCallStep, OnReport, OnEvent, OnLaunchStep;
    match step
    case CallStep(b) => CallFrame(s, b);
    case ReportStep(b, answer) => ReportFrame(s, b, answer);
    case LaunchStep(ok) => LaunchFrame(cfg, s, s.loop.stage, ok);
    case LoopEvent(ev) => EventFrame(s, ev);
    case _ =>
  }

  function CountHealthUpdates(steps: seq<Step>): nat {
    if |steps| == 0 then 0 else (if steps[0].HealthUpdates? then 1 else 0) + CountHealthUpdates(steps[1..])
  }

  /** After Quit has been accepted at most one more health-driven RUNNING update is sent, the
      one healthCheck was already busy with; after Done, none at all. */
  lemma {:induction false} HealthUpdatesAfterQuit(cfg: Config, s: State, steps: seq<Step>)
    requires Reachable(cfg, s) && Runs(cfg, s, steps)
    requires QuitAccepted(s.hc) || DoneDelivered(s.hc)
    ensures CountHealthUpdates(steps) <= if s.hc.health == Updating && !DoneDelivered(s.hc) then 1 else 0
    decreases |steps|
  {
    hide PhaseOf;
    ReachableInv(cfg, s);
    if |steps| == 0 {
    } else {
      var t := Apply(cfg, s, steps[0]);
      ReachableStep(cfg, s, steps[0]);
      ClosingStep(cfg, s, steps[0]);
      HealthUpdatesAfterQuit(cfg, t, steps[1..]);
    }
  }

  lemma ClosingStep(cfg: Config, s: State, step: Step)
    requires CheckerInv(cfg, s.hc) && Enabled(cfg, s, step)
    requires QuitAccepted(s.hc) || DoneDelivered(s.hc)
    ensures var t := Apply(cfg, s, step);
            && (QuitAccepted(t.hc) || DoneDelivered(t.hc))
            && (DoneDelivered(t.hc) <==> DoneDelivered(s.hc))
            && (t.hc.health == Updating ==> s.hc.health == Updating && !step.HealthUpdates?)
            && (step.HealthUpdates? ==> s.hc.health == Updating && !DoneDelivered(s.hc))
  {
    hide PhaseOf;
    hide OnCallStep, OnReport, OnEvent, OnLaunchStep, OnCheck;
    match step
    case MeetExited => PhaseExtends(s.hc.trace, MExited);
    case MeetQuit(_) => PhaseExtends(s.hc.trace, MQuit);
    case MeetDone => assert false;
    case MeetHealthy => assert false;
    case _ =>
      QuietStep(cfg, s, step);
      hide CheckerInv, Apply;
  }

  /** Whatever the timer and the other goroutines do, the counter is the length of the
      longest run of counted failures that ends the history (modulo 2^32, and without any
      wrap before the limit is met), and Done is attempted or delivered exactly if that
      length has met its limit, at the first check where it did. */
  lemma DoneExactlyAtLimit(cfg: Config, s: State)
    requires Reachable(cfg, s)
    ensures s.hc.failures == Streak(s.hc.history) % WORD
    ensures s.hc.run == SendDone || MDone in s.hc.trace <==> s.hc.attemptedAt.Some?
    ensures match s.hc.attemptedAt
            case Some(n) => FirstReachedAt(s.hc.history, cfg.threshold, n)
            case None => NeverReached(s.hc.history, cfg.threshold) && s.hc.failures == Streak(s.hc.history)
  {
    hide PhaseOf;
    ReachableInv(cfg, s);
    DoneInTrace(s.hc.trace);
    if s.hc.attemptedAt.None? {
      NeverReachedIsBelow(s.hc.history, cfg.threshold);
    }
  }

  lemma DoneInTrace(t: seq<Msg>)
    requires PhaseOf(t) != Broken
    ensures MDone in t <==> PhaseOf(t) == DoneSeen || PhaseOf(t) == DoneThenQuit
  {
    PhaseShape(t);
    var e := EndingOf(PhaseOf(t));
    var h := t[..|t| - |e|];
    assert t == h + e;
    assert MDone !in h;
    if PhaseOf(t) == DoneSeen || PhaseOf(t) == DoneThenQuit {
      assert e[0] == MDone;
    }
  }
}
