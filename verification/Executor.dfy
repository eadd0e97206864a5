/** The handlers of executor/executor.go, each run on its own from beginning to end. What can
    happen between the goroutines that run them is the subject of the Protocol modules. */
module Executor {
  import opened Tables
  import opened Status
  import opened Host
  import opened HookManager
  import opened Restore
  import L = Ledger
  import P = Protocol

  /** What the handlers do, as seen from outside: a step of a launch with its success, a Quit
      that was accepted, what a tearDown does, and an attempted status update with its answer. */
  datatype Entry = Did(stage: P.Stage, ok: bool) | SentQuit | Acted(act: P.Act) | Sent(state: TaskState, accepted: bool)

  /** The answers of the containerizer and of the agent, which accepts or refuses each call. */
  datatype Answers = Answers(limits: bool, create: bool, start: bool, pid: bool, call: nat -> bool)

  /** The steps of handleLaunch in order. */
  function Stages(hasCheck: bool): seq<P.Stage> {
    [P.Limits, P.PreCreate, P.Create, P.PreRun, P.Start, P.PostRun]
    + (if hasCheck then [P.GetPid, P.Install, P.Spawn] else []) + [P.Announce, P.SpawnWait]
  }

  lemma StagesAre(hasCheck: bool)
    ensures var s := Stages(hasCheck);
            && |s| == (if hasCheck then 11 else 8)
            && s[0] == P.Limits && s[1] == P.PreCreate && s[2] == P.Create && s[3] == P.PreRun
            && s[4] == P.Start && s[5] == P.PostRun
            && (hasCheck ==> s[6] == P.GetPid && s[7] == P.Install && s[8] == P.Spawn)
            && s[|s| - 2] == P.Announce && s[|s| - 1] == P.SpawnWait
  {
  }

  /** They are the ones the event loop of the protocol goes through. */
  lemma StagesFollowProtocol(cfg: P.Config, i: nat)
    requires i < |Stages(cfg.hasCheck)|
    ensures var s := Stages(cfg.hasCheck);
            && P.OnEvent(P.Init(), P.LaunchEvent).loop == P.Launching(s[0])
            && P.AfterStage(cfg, s[i]) == if i + 1 < |s| then P.Launching(s[i + 1]) else P.Head
  {
    StagesAre(cfg.hasCheck);
  }

  /** The entry of a step of a launch; that of the announcement is its update. */
  function EntryOf(stage: P.Stage, ok: bool): Entry {
    if stage == P.Announce then Sent(Running, ok) else Did(stage, ok)
  }

  function AllDone(stages: seq<P.Stage>): (r: seq<Entry>)
    ensures |r| == |stages| && forall i :: 0 <= i < |r| ==> r[i] == EntryOf(stages[i], true)
  {
    seq(|stages|, i requires 0 <= i < |stages| => EntryOf(stages[i], true))
  }

  /** A completed tearDown, with a Quit for the checker if there is one, and the attempted
      update that follows it. */
  function Down(checker: bool, t: Terminal, accepted: bool): seq<Entry> {
    TearDownEntries(checker) + [Sent(Ended(t), accepted)]
  }

  function TearDownEntries(checker: bool): seq<Entry> {
    (if checker then [SentQuit] else []) + [Acted(P.RanPreStop), Acted(P.RanStop), Acted(P.RanPostStop)]
  }

  /** The log of a launch that stopped at its n-th step, or went through: the steps before the
      n-th in order and all successful; then, for a failure, that step, a completed tearDown,
      and FAILED as the last attempted update, with its answer. */
  predicate LaunchLog(log: seq<Entry>, hasCheck: bool, n: nat, accepted: bool) {
    var stages := Stages(hasCheck);
    && n <= |stages|
    && log == if n == |stages| then AllDone(stages)
              else AllDone(stages[..n]) + [EntryOf(stages[n], false)] +
                   Down(hasCheck && stages[n] == P.Announce, Failed, accepted)
  }

  lemma StepFailed(start: seq<Entry>, log: seq<Entry>, hasCheck: bool, k: nat, checker: bool, accepted: bool)
    requires k < |Stages(hasCheck)| && checker == (hasCheck && Stages(hasCheck)[k] == P.Announce)
    requires log == start + AllDone(Stages(hasCheck)[..k]) + [EntryOf(Stages(hasCheck)[k], false)] +
                    Down(checker, Failed, accepted)
    ensures start <= log && LaunchLog(log[|start|..], hasCheck, k, accepted)
  {
    hide Stages, Down;
    var l := AllDone(Stages(hasCheck)[..k]) + [EntryOf(Stages(hasCheck)[k], false)] + Down(checker, Failed, accepted);
    assert log == start + l;
    assert log[|start|..] == l;
  }

  /** A whole tearDown, hooks only. */
  function Torn(env: Env, x: World, hs: seq<Hook>, id: string): World {
    RunAll(env, RunAll(env, x, hs, PreStop, id, false).world, hs, PostStop, id, false).world
  }

  /** Between the two logs of hook functions lies a whole tearDown: every pre-stop function
      once, in order, then every post-stop function once, in order. */
  ghost predicate TornInOrder(before: seq<Ran>, after: seq<Ran>, hs: seq<Hook>) {
    var pre := |before| + |Handlers(hs, PreStop)|;
    && pre <= |after|
    && after[..|before|] == before
    && RanThese(after[|before|..pre], Handlers(hs, PreStop), PreStop)
    && RanThese(after[pre..], Handlers(hs, PostStop), PostStop)
  }

  /** That is what a tearDown runs, whichever functions fail. */
  lemma TearDownRunsAll(env: Env, x: World, hs: seq<Hook>, id: string)
    ensures TornInOrder(x.ran, Torn(env, x, hs, id).ran, hs)
  {
    hide RunAll, Effect;
    var y := RunAll(env, x, hs, PreStop, id, false).world;
    var z := RunAll(env, y, hs, PostStop, id, false).world;
    RunHooksAsPromised(env, x, hs, PreStop, id, false);
    RunHooksAsPromised(env, y, hs, PostStop, id, false);
    assert z.ran[..|y.ran|] == y.ran;
    assert z.ran[|x.ran|..|y.ran|] == y.ran[|x.ran|..];
    assert Handlers(hs, PreStop)[..|Handlers(hs, PreStop)|] == Handlers(hs, PreStop);
    assert Handlers(hs, PostStop)[..|Handlers(hs, PostStop)|] == Handlers(hs, PostStop);
  }

  lemma TornEarly(env: Env, x: World, hs: seq<Hook>, id: string)
    requires CleanStart(env, x.host.tables, hs) && CacheOk(env, x.host.cache, id)
    ensures Torn(env, x, hs, id).host.tables == x.host.tables
  {
    hide CleanStart, RunAll;
    EarlyTearDownRestores(env, x, hs, id);
    OtherPhasesLeaveHost(env, RunAll(env, x, hs, PreStop, id, false).world, hs, PostStop, id, false);
  }

  lemma TornAfterPostRun(env: Env, x: World, hs: seq<Hook>, id: string)
    requires CleanStart(env, x.host.tables, hs) && CacheOk(env, x.host.cache, id)
    ensures Torn(env, RunAll(env, x, hs, PostRun, id, true).world, hs, id).host.tables == x.host.tables
  {
    hide CleanStart, RunAll;
    TearDownRestores(env, x, hs, id);
    var y := RunAll(env, x, hs, PostRun, id, true).world;
    OtherPhasesLeaveHost(env, RunAll(env, y, hs, PreStop, id, false).world, hs, PostStop, id, false);
  }

  /** A second tearDown of the same task, as it can happen without a health check, changes no
      chain any more. */
  lemma SecondTearDownChangesNothing(env: Env, x: World, hs: seq<Hook>, id: string)
    requires CleanStart(env, x.host.tables, hs) && CacheOk(env, x.host.cache, id)
    ensures var y := RunAll(env, x, hs, PostRun, id, true).world;
            Torn(env, Torn(env, y, hs, id), hs, id).host.tables == x.host.tables
  {
    hide CleanStart, RunAll;
    var y := RunAll(env, x, hs, PostRun, id, true).world;
    var a := PostRunWithinPreStop(env, x, hs, id);
    TornAfterPostRun(env, x, hs, id);
    TornKeepsCache(env, x.host.tables, y, hs, id);
    TornEarly(env, Torn(env, y, hs, id), hs, id);
  }

  lemma TornKeepsCache(env: Env, t: Table, y: World, hs: seq<Hook>, id: string)
    requires CleanStart(env, t, hs) && CacheOk(env, y.host.cache, id)
    ensures Torn(env, y, hs, id).host.cache == y.host.cache
  {
    PreStopDeletesAll(env, y, hs, id);
    hide RunAll;
    OtherPhasesLeaveHost(env, RunAll(env, y, hs, PreStop, id, false).world, hs, PostStop, id, false);
  }

  /** Given a clean start from t, the tables are back at t once the task is torn down. */
  ghost predicate Restorable(env: Env, x: World, hs: seq<Hook>, id: string, t: Table) {
    CleanStart(env, t, hs) ==> CacheOk(env, x.host.cache, id) && Torn(env, x, hs, id).host.tables == t
  }

  lemma UntouchedRestorable(env: Env, x: World, hs: seq<Hook>, id: string)
    requires CacheOk(env, x.host.cache, id)
    ensures Restorable(env, x, hs, id, x.host.tables)
  {
    hide CleanStart, Torn;
    if CleanStart(env, x.host.tables, hs) {
      TornEarly(env, x, hs, id);
    }
  }

  lemma PostRunRestorable(env: Env, x: World, hs: seq<Hook>, id: string)
    requires CacheOk(env, x.host.cache, id)
    ensures Restorable(env, RunAll(env, x, hs, PostRun, id, true).world, hs, id, x.host.tables)
  {
    hide CleanStart, Torn, RunAll;
    if CleanStart(env, x.host.tables, hs) {
      TornAfterPostRun(env, x, hs, id);
      var a := PostRunWithinPreStop(env, x, hs, id);
    }
  }

  /** A tearDown keeps this, so that any further one changes nothing. */
  lemma TornRestorable(env: Env, x: World, hs: seq<Hook>, id: string, t: Table)
    requires Restorable(env, x, hs, id, t)
    ensures Restorable(env, Torn(env, x, hs, id), hs, id, t)
    ensures CleanStart(env, t, hs) ==> Torn(env, x, hs, id).host.tables == t
  {
    hide CleanStart, Torn;
    if CleanStart(env, t, hs) {
      TornKeepsCache(env, t, x, hs, id);
      TornEarly(env, Torn(env, x, hs, id), hs, id);
    }
  }

  /** What a launch depends on; `call` is the number of its call to the agent. */
  datatype Launch = Launch(env: Env, answers: Answers, hasCheck: bool, hooks: seq<Hook>, id: string, call: nat)

  /** The effect of one step of a launch on the host, and whether it succeeds. */
  function StageResult(p: Launch, x: World, stage: P.Stage): RunResult {
    match stage
    case Limits => RunResult(x, p.answers.limits)
    case PreCreate => RunAll(p.env, x, p.hooks, PreCreate, "", true)
    case Create => RunResult(x, p.answers.create)
    case PreRun => RunAll(p.env, x, p.hooks, PreRun, p.id, true)
    case Start => RunResult(x, p.answers.start)
    case PostRun => RunAll(p.env, x, p.hooks, PostRun, p.id, true)
    case GetPid => RunResult(x, p.answers.pid)
    case Install => RunResult(x, true)
    case Spawn => RunResult(x, true)
    case Announce => RunResult(x, p.answers.call(p.call))
    case SpawnWait => RunResult(x, true)
  }

  datatype Reached = Reached(world: World, n: nat)

  /** How far a launch gets from its k-th step on: the step that fails, or the number of steps. */
  function Launched(p: Launch, x: World, k: nat): Reached
    requires k <= |Stages(p.hasCheck)|
    decreases |Stages(p.hasCheck)| - k
  {
    if k == |Stages(p.hasCheck)| then Reached(x, k)
    else
      var r := StageResult(p, x, Stages(p.hasCheck)[k]);
      if r.ok then Launched(p, r.world, k + 1) else Reached(r.world, k)
  }

  function ContainerAt(p: Launch, k: nat): string {
    if k > 2 then p.id else "" // the container is created in step 2
  }

  /** The post-run hooks of a launch that began in x have all succeeded: on a bridged or user
      network every rule of every hook has been appended, and nothing else has changed. */
  ghost predicate Installed(p: Launch, x: World, tables: Table) {
    if p.env.task.network == BRIDGE || p.env.task.network == USER then
      ChainsExist(x.host.tables, AllRules(p.env, p.hooks)) && tables == AddAll(x.host.tables, AllRules(p.env, p.hooks))
    else tables == x.host.tables
  }

  lemma PostRunInstalled(p: Launch, x: World, y: World)
    requires y.host == x.host && RunAll(p.env, y, p.hooks, PostRun, p.id, true).ok
    ensures Installed(p, x, RunAll(p.env, y, p.hooks, PostRun, p.id, true).world.host.tables)
  {
    if p.env.task.network == BRIDGE || p.env.task.network == USER {
      PostRunInstalls(p.env, y, p.hooks, p.id);
    } else {
      PostRunElsewhere(p.env, y, p.hooks, p.id, true);
    }
  }

  /** A launch that began in x with the log `start` has done k steps. */
  ghost predicate Going(p: Launch, x: World, start: seq<Entry>, y: World, log: seq<Entry>, k: nat) {
    && k <= |Stages(p.hasCheck)|
    && log == start + AllDone(Stages(p.hasCheck)[..k])
    && Launched(p, x, 0) == Launched(p, y, k)
    && (if k <= 5 then y.host == x.host else Restorable(p.env, y, p.hooks, p.id, x.host.tables))
    && (k > 5 ==> Installed(p, x, y.host.tables))
  }

  lemma LaunchBegins(p: Launch, x: World, start: seq<Entry>)
    ensures Going(p, x, start, x, start, 0)
  {
    assert start + AllDone(Stages(p.hasCheck)[..0]) == start;
  }

  /** What a step does to the host is nothing, or is undone by a tearDown. */
  lemma StageRestorable(p: Launch, x: World, y: World, k: nat)
    requires k < |Stages(p.hasCheck)| && x.host.cache == map[]
    requires if k <= 5 then y.host == x.host else Restorable(p.env, y, p.hooks, p.id, x.host.tables)
    ensures var z := StageResult(p, y, Stages(p.hasCheck)[k]).world;
            (k < 5 ==> z.host == x.host) && Restorable(p.env, z, p.hooks, ContainerAt(p, k), x.host.tables)
  {
    StagesAre(p.hasCheck);
    hide Stages, Restorable, RunAll;
    var z := StageResult(p, y, Stages(p.hasCheck)[k]).world;
    if k < 5 {
      OtherPhasesLeaveHost(p.env, y, p.hooks, PreCreate, "", true);
      OtherPhasesLeaveHost(p.env, y, p.hooks, PreRun, p.id, true);
      UntouchedRestorable(p.env, z, p.hooks, ContainerAt(p, k));
    } else if k == 5 {
      PostRunRestorable(p.env, y, p.hooks, p.id);
    } else {
      LaterStages(p, y, k);
    }
  }

  lemma LaterStages(p: Launch, y: World, k: nat)
    requires 5 < k < |Stages(p.hasCheck)|
    ensures StageResult(p, y, Stages(p.hasCheck)[k]).world == y
  {
    StagesAre(p.hasCheck);
  }

  lemma StageInstalls(p: Launch, x: World, y: World, k: nat)
    requires k < |Stages(p.hasCheck)| && StageResult(p, y, Stages(p.hasCheck)[k]).ok
    requires if k <= 5 then y.host == x.host else Installed(p, x, y.host.tables)
    ensures k >= 5 ==> Installed(p, x, StageResult(p, y, Stages(p.hasCheck)[k]).world.host.tables)
  {
    StagesAre(p.hasCheck);
    hide Stages, Installed, RunAll;
    if k == 5 {
      PostRunInstalled(p, x, y);
    } else if k > 5 {
      LaterStages(p, y, k);
    }
  }

  lemma StepPassed(p: Launch, x: World, start: seq<Entry>, y: World, log: seq<Entry>, k: nat, z: World)
    requires Going(p, x, start, y, log, k) && k < |Stages(p.hasCheck)| && x.host.cache == map[]
    requires StageResult(p, y, Stages(p.hasCheck)[k]) == RunResult(z, true)
    ensures Going(p, x, start, z, log + [EntryOf(Stages(p.hasCheck)[k], true)], k + 1)
  {
    hide StageResult, Restorable, Installed, Stages;
    StageInstalls(p, x, y, k);
    StageRestorable(p, x, y, k);
    var s := Stages(p.hasCheck);
    assert AllDone(s[..k]) + [EntryOf(s[k], true)] == AllDone(s[..k + 1]);
  }

  lemma StepBroken(p: Launch, x: World, start: seq<Entry>, y: World, log: seq<Entry>, k: nat, z: World)
    requires Going(p, x, start, y, log, k) && k < |Stages(p.hasCheck)| && x.host.cache == map[]
    requires StageResult(p, y, Stages(p.hasCheck)[k]) == RunResult(z, false)
    ensures log == start + AllDone(Stages(p.hasCheck)[..k])
    ensures Launched(p, x, 0) == Reached(z, k)
    ensures Restorable(p.env, z, p.hooks, ContainerAt(p, k), x.host.tables)
  {
    hide StageResult, Restorable;
    StageRestorable(p, x, y, k);
  }

  lemma LaunchEnds(p: Launch, x: World, start: seq<Entry>, y: World, log: seq<Entry>, k: nat)
    requires Going(p, x, start, y, log, k) && k == |Stages(p.hasCheck)|
    ensures start <= log && forall accepted :: LaunchLog(log[|start|..], p.hasCheck, k, accepted)
    ensures Launched(p, x, 0) == Reached(y, k)
    ensures Restorable(p.env, y, p.hooks, p.id, x.host.tables) && Installed(p, x, y.host.tables)
  {
    hide Restorable, Installed;
    StagesAre(p.hasCheck);
    var s := Stages(p.hasCheck);
    assert s[..k] == s;
    assert log[|start|..] == AllDone(s);
  }

  /** No function of phase w in the log has failed. */
  predicate PhaseFine(ran: seq<Ran>, w: When) {
    forall i :: 0 <= i < |ran| && ran[i].w == w ==> ran[i].ok
  }

  /** What the log says of the phase w, which is step `at` of a launch that stopped at step n: no
      function ran if the launch did not get there; else they ran as promised, up to the first
      that failed if the launch stopped there, and all of them if it went on. */
  ghost predicate PhaseTold(ran: seq<Ran>, hs: seq<Hook>, w: When, at: nat, n: nat) {
    if n < at then Phase(ran, w) == [] else RunsAsPromised(Phase(ran, w), hs, w, true, n > at)
  }

  /** A launch stops at step n for exactly one reason: the first answer that is no, or the first
      phase of hooks in which one fails. */
  ghost predicate StoppedAt(p: Launch, ran: seq<Ran>, n: nat) {
    var announce := if p.hasCheck then 9 else 6;
    && n <= announce + 2 && n != announce + 1 && !(p.hasCheck && (n == 7 || n == 8))
    && (n > 0 <==> p.answers.limits)
    && PhaseTold(ran, p.hooks, PreCreate, 1, n)
    && (n >= 2 ==> (n > 2 <==> p.answers.create))
    && PhaseTold(ran, p.hooks, PreRun, 3, n)
    && (n >= 4 ==> (n > 4 <==> p.answers.start))
    && PhaseTold(ran, p.hooks, PostRun, 5, n)
    && (p.hasCheck && n >= 6 ==> (n > 6 <==> p.answers.pid))
    && (n >= announce ==> (n > announce <==> p.answers.call(p.call)))
  }

  /** The same for a launch that has done k steps. */
  ghost predicate PhaseSoFar(ran: seq<Ran>, hs: seq<Hook>, w: When, at: nat, k: nat) {
    if k <= at then Phase(ran, w) == [] else RunsAsPromised(Phase(ran, w), hs, w, true, true)
  }

  ghost predicate SoFar(p: Launch, ran: seq<Ran>, k: nat) {
    var announce := if p.hasCheck then 9 else 6;
    && (k > 0 ==> p.answers.limits)
    && PhaseSoFar(ran, p.hooks, PreCreate, 1, k)
    && (k > 2 ==> p.answers.create)
    && PhaseSoFar(ran, p.hooks, PreRun, 3, k)
    && (k > 4 ==> p.answers.start)
    && PhaseSoFar(ran, p.hooks, PostRun, 5, k)
    && (p.hasCheck && k > 6 ==> p.answers.pid)
    && (k > announce ==> p.answers.call(p.call))
  }

  /** The phase of a step, if it is one of hooks. */
  predicate IsPhase(stage: P.Stage, w: When) {
    || (stage == P.PreCreate && w == PreCreate) || (stage == P.PreRun && w == PreRun)
    || (stage == P.PostRun && w == PostRun)
  }

  /** What one step adds to the log of the hooks. */
  lemma StageLogs(p: Launch, before: seq<Ran>, y: World, stage: P.Stage)
    requires before <= y.ran
    ensures var r := StageResult(p, y, stage);
            && before <= r.world.ran
            && (forall w :: !IsPhase(stage, w) ==> Phase(r.world.ran[|before|..], w) == Phase(y.ran[|before|..], w))
            && (forall w :: IsPhase(stage, w) && Phase(y.ran[|before|..], w) == [] ==>
                  RunsAsPromised(Phase(r.world.ran[|before|..], w), p.hooks, w, true, r.ok))
  {
    hide RunAll, RunsAsPromised, Phase;
    var r := StageResult(p, y, stage);
    match stage {
      case PreCreate => HooksLog(p.env, before, y, p.hooks, PreCreate, "");
      case PreRun => HooksLog(p.env, before, y, p.hooks, PreRun, p.id);
      case PostRun => HooksLog(p.env, before, y, p.hooks, PostRun, p.id);
      case _ =>
    }
  }

  lemma HooksLog(env: Env, before: seq<Ran>, y: World, hs: seq<Hook>, w: When, id: string)
    requires before <= y.ran
    ensures var r := RunAll(env, y, hs, w, id, true);
            && before <= r.world.ran
            && (forall v :: v != w ==> Phase(r.world.ran[|before|..], v) == Phase(y.ran[|before|..], v))
            && (Phase(y.ran[|before|..], w) == [] ==>
                  RunsAsPromised(Phase(r.world.ran[|before|..], w), hs, w, true, r.ok))
  {
    var r := RunAll(env, y, hs, w, id, true);
    RunHooksAsPromised(env, y, hs, w, id, true);
    hide RunAll;
    var more := r.world.ran[|y.ran|..];
    assert r.world.ran[|before|..] == y.ran[|before|..] + more;
    OfPhase(more, hs, w, r.ok);
    hide RunsAsPromised;
    forall v ensures Phase(r.world.ran[|before|..], v) == Phase(y.ran[|before|..], v) + (if v == w then more else []) {
      PhaseConcat(y.ran[|before|..], more, v);
      PhaseOfOne(more, w, v);
    }
    assert [] + more == more;
  }

  lemma OfPhase(log: seq<Ran>, hs: seq<Hook>, w: When, ok: bool)
    requires RunsAsPromised(log, hs, w, true, ok)
    ensures forall i :: 0 <= i < |log| ==> log[i].w == w
  {
  }

  lemma {:induction false} LaunchStory(p: Launch, before: seq<Ran>, y: World, k: nat)
    requires k <= |Stages(p.hasCheck)| && before <= y.ran && SoFar(p, y.ran[|before|..], k)
    ensures var r := Launched(p, y, k);
            before <= r.world.ran && StoppedAt(p, r.world.ran[|before|..], r.n)
    decreases |Stages(p.hasCheck)| - k
  {
    StagesAre(p.hasCheck);
    hide Stages, RunsAsPromised, Phase;
    if k == |Stages(p.hasCheck)| {
    } else {
      var stage := Stages(p.hasCheck)[k];
      var r := StageResult(p, y, stage);
      StageLogs(p, before, y, stage);
      if r.ok {
        StoryGoesOn(p, before, y, k);
        hide StageResult, SoFar, StoppedAt;
        LaunchStory(p, before, r.world, k + 1);
      } else {
        StoryStops(p, before, y, k);
      }
    }
  }

  lemma StoryGoesOn(p: Launch, before: seq<Ran>, y: World, k: nat)
    requires k < |Stages(p.hasCheck)| && before <= y.ran && SoFar(p, y.ran[|before|..], k)
    requires StageResult(p, y, Stages(p.hasCheck)[k]).ok
    ensures var r := StageResult(p, y, Stages(p.hasCheck)[k]);
            before <= r.world.ran && SoFar(p, r.world.ran[|before|..], k + 1)
  {
    StagesAre(p.hasCheck);
    hide Stages, RunsAsPromised, Phase, RunAll;
    StageLogs(p, before, y, Stages(p.hasCheck)[k]);
  }

  lemma StoryStops(p: Launch, before: seq<Ran>, y: World, k: nat)
    requires k < |Stages(p.hasCheck)| && before <= y.ran && SoFar(p, y.ran[|before|..], k)
    requires !StageResult(p, y, Stages(p.hasCheck)[k]).ok
    ensures var r := StageResult(p, y, Stages(p.hasCheck)[k]);
            before <= r.world.ran && StoppedAt(p, r.world.ran[|before|..], k)
  {
    StagesAre(p.hasCheck);
    hide Stages, RunsAsPromised, Phase, RunAll;
    StageLogs(p, before, y, Stages(p.hasCheck)[k]);
  }

  lemma AreOf(log: seq<Ran>, hs: seq<Hook>, w: When)
    requires RanThese(log, hs, w)
    ensures forall i :: 0 <= i < |log| ==> log[i].w == w
  {
  }

  lemma TwoPhases(base: seq<Ran>, a: seq<Ran>, b: seq<Ran>, w: When)
    requires Phase(a, w) == [] && Phase(b, w) == []
    ensures Phase(base + (a + b), w) == Phase(base, w)
  {
    PhaseConcat(base, a + b, w);
    PhaseConcat(a, b, w);
  }

  /** The tearDown after a failed launch adds nothing to the phases of the launch. */
  lemma TornPhases(before: seq<Ran>, ran: seq<Ran>, after: seq<Ran>, hs: seq<Hook>, w: When)
    requires before <= ran && TornInOrder(ran, after, hs) && w != PreStop && w != PostStop
    ensures before <= after && Phase(after[|before|..], w) == Phase(ran[|before|..], w)
  {
    hide RanThese, Phase;
    var pre := |ran| + |Handlers(hs, PreStop)|;
    var a, b := after[|ran|..pre], after[pre..];
    AreOf(a, Handlers(hs, PreStop), PreStop);
    AreOf(b, Handlers(hs, PostStop), PostStop);
    PhaseOfOne(a, PreStop, w);
    PhaseOfOne(b, PostStop, w);
    TwoPhases(ran[|before|..], a, b, w);
    Tail(before, ran, after, pre);
  }

  lemma Tail<T>(before: seq<T>, ran: seq<T>, after: seq<T>, pre: nat)
    requires before <= ran && |ran| <= pre <= |after| && after[..|ran|] == ran
    ensures before <= after && after[|before|..] == ran[|before|..] + (after[|ran|..pre] + after[pre..])
  {
    assert after == ran + (after[|ran|..pre] + after[pre..]);
  }

  lemma TornStopsSame(p: Launch, before: seq<Ran>, ran: seq<Ran>, after: seq<Ran>, n: nat)
    requires before <= ran && TornInOrder(ran, after, p.hooks) && StoppedAt(p, ran[|before|..], n)
    ensures before <= after && StoppedAt(p, after[|before|..], n)
  {
    TornPhases(before, ran, after, p.hooks, PreCreate);
    TornPhases(before, ran, after, p.hooks, PreRun);
    TornPhases(before, ran, after, p.hooks, PostRun);
    hide TornInOrder, Phase, RunsAsPromised;
  }

  lemma {:induction false} InPhase(ran: seq<Ran>, w: When, e: Ran)
    ensures e in Phase(ran, w) <==> e in ran && e.w == w
  {
    if |ran| == 0 {
    } else {
      InPhase(ran[1..], w, e);
      assert ran == [ran[0]] + ran[1..];
    }
  }

  lemma PhaseFineIff(ran: seq<Ran>, w: When)
    ensures PhaseFine(ran, w) <==> forall e :: e in Phase(ran, w) ==> e.ok
  {
    forall e ensures e in Phase(ran, w) <==> e in ran && e.w == w {
      InPhase(ran, w, e);
    }
    hide Phase;
    if forall e :: e in Phase(ran, w) ==> e.ok {
      forall i | 0 <= i < |ran| && ran[i].w == w ensures ran[i].ok {
        assert ran[i] in ran;
      }
    }
  }

  lemma ToldFine(ran: seq<Ran>, hs: seq<Hook>, w: When, at: nat, n: nat)
    requires PhaseTold(ran, hs, w, at, n) && n >= at
    ensures n > at <==> PhaseFine(ran, w)
  {
    PhaseFineIff(ran, w);
    hide PhaseFine, Phase;
  }

  /** A launch goes through if and only if every answer is yes and no hook of its phases fails. */
  lemma ThroughIff(p: Launch, ran: seq<Ran>, n: nat)
    requires StoppedAt(p, ran, n)
    ensures n == |Stages(p.hasCheck)| <==>
            && p.answers.limits && p.answers.create && p.answers.start && (p.hasCheck ==> p.answers.pid)
            && p.answers.call(p.call)
            && PhaseFine(ran, PreCreate) && PhaseFine(ran, PreRun) && PhaseFine(ran, PostRun)
  {
    StagesAre(p.hasCheck);
    hide Stages, PhaseFine, PhaseTold;
    if n >= 1 { ToldFine(ran, p.hooks, PreCreate, 1, n); }
    if n >= 3 { ToldFine(ran, p.hooks, PreRun, 3, n); }
    if n >= 5 { ToldFine(ran, p.hooks, PostRun, 5, n); }
  }

  class Executor {
    const env: Env
    const answers: Answers
    const hasCheck: bool
    const newID: string
    const m: Machine
    const hooks: Manager
    var ContainerID: string
    var HealthChecker: bool
    var Shutdown: bool
    var UnackedUpdates: map<L.Uuid, L.Update>
    var calls: nat
    var log: seq<Entry>
    ghost var ledger: L.Ledger
    ghost var base: Table

    /** The map of the executor is that of the ledger, and no call is under way. */
    ghost predicate Booked()
      reads this
    {
      && ledger.unacked == UnackedUpdates && L.Books(ledger)
      && ledger.between == map[] && ledger.early == {}
      && forall u :: u in ledger.accepted ==> u < calls
    }

    /** The next tearDown brings the tables back to where the launch found them. */
    ghost predicate Safe()
      reads this, m, hooks, hooks.Hooks
    {
      Restorable(env, TheWorld(), TheHooks(), ContainerID, base)
    }

    /** The tables are as the launch found them, if it found a clean host. */
    ghost predicate Restored()
      reads this, m, hooks, hooks.Hooks
    {
      CleanStart(env, base, TheHooks()) ==> m.tables == base
    }

    constructor (env: Env, answers: Answers, hasCheck: bool, newID: string, m: Machine, hooks: Manager)
      ensures this.env == env && this.answers == answers && this.hasCheck == hasCheck && this.newID == newID
      ensures this.m == m && this.hooks == hooks && base == m.tables
      ensures ContainerID == "" && !HealthChecker && !Shutdown && UnackedUpdates == map[] && calls == 0 && log == []
      ensures Booked() && (m.cache == map[] ==> Safe())
    {
      this.env, this.answers, this.hasCheck, this.newID := env, answers, hasCheck, newID;
      this.m, this.hooks := m, hooks;
      ContainerID, HealthChecker, Shutdown, UnackedUpdates, calls, log := "", false, false, map[], 0, [];
      ledger, base := L.Empty(), m.tables;
      new;
      if m.cache == map[] {
        UntouchedRestorable(env, TheWorld(), TheHooks(), "");
      }
    }

    function TheWorld(): World
      reads m, hooks
    {
      World(m.State(), hooks.ran)
    }

    function TheHooks(): seq<Hook>
      reads hooks, hooks.Hooks
    {
      hooks.Hooks[..]
    }

    /** Exactly the accepted and not yet acknowledged updates are remembered. */
    lemma RemembersOutstanding()
      requires Booked()
      ensures UnackedUpdates.Keys == ledger.accepted.Keys - ledger.acked
      ensures forall u :: u in UnackedUpdates ==> UnackedUpdates[u] == ledger.accepted[u]
    {
      forall u | u in ledger.accepted ensures L.InMapIff(ledger, u) && !L.IsBetween(ledger, u) {}
    }

    /** The number of the call serves as its UUID. If it is accepted, the ledger makes its two
        moves, and otherwise the update is not remembered. */
    method UpdateStatus(a: P.Actor, state: TaskState) returns (ok: bool)
      requires Booked()
      modifies this`UnackedUpdates, this`calls, this`ledger, this`log
      ensures Booked() && ok == answers.call(old(calls)) && calls == old(calls) + 1
      ensures log == old(log) + [Sent(state, ok)]
      ensures L.Possible(old(ledger), L.CallAccepted(a, old(calls), state))
      ensures ledger == if ok then L.Updated(old(ledger), a, old(calls), state) else old(ledger)
      ensures UnackedUpdates ==
              if ok then old(UnackedUpdates)[old(calls) := L.Update(a, state)] else old(UnackedUpdates)
    {
      var uuid := calls;
      calls := calls + 1;
      ok := answers.call(uuid);
      log := log + [Sent(state, ok)];
      if !ok { return; }
      L.UpdatedKeeps(ledger, a, uuid, state);
      ledger := L.Updated(ledger, a, uuid, state);
      UnackedUpdates := UnackedUpdates[uuid := L.Update(a, state)];
    }

    /** An acknowledgment of an accepted update is the move of the ledger; any other one changes
        nothing. */
    method HandleAcknowledged(uuid: L.Uuid)
      requires Booked()
      modifies this`UnackedUpdates, this`ledger
      ensures Booked() && UnackedUpdates == old(UnackedUpdates) - {uuid}
      ensures uuid in old(ledger.accepted) ==>
                L.Possible(old(ledger), L.Acknowledged(uuid)) && ledger == L.Do(old(ledger), L.Acknowledged(uuid))
      ensures uuid !in old(ledger.accepted) ==> ledger == old(ledger) && UnackedUpdates == old(UnackedUpdates)
    {
      if uuid in ledger.accepted {
        L.BooksKept(ledger, L.Acknowledged(uuid));
        ledger := L.Do(ledger, L.Acknowledged(uuid));
      }
      UnackedUpdates := UnackedUpdates - {uuid};
    }

    /** Every remembered update exactly once, in some order. */
    method GetUnackedUpdates() returns (updates: seq<(L.Uuid, L.Update)>)
      ensures multiset(updates) == multiset(UnackedUpdates.Items)
    {
      updates := [];
      var left := UnackedUpdates.Items;
      while left != {}
        invariant left <= UnackedUpdates.Items
        invariant multiset(updates) == multiset(UnackedUpdates.Items - left)
        decreases left
      {
        var u :| u in left;
        assert UnackedUpdates.Items - (left - {u}) == (UnackedUpdates.Items - left) + {u};
        left := left - {u};
        updates := updates + [u];
      }
      assert UnackedUpdates.Items - left == UnackedUpdates.Items;
    }

    /** All pre-stop hooks, the stop, then all post-stop hooks, whatever fails in between; and
        the firewall is restored. A Quit is sent first if there is a checker; here it is
        accepted. */
    method TearDown()
      requires Safe()
      modifies m, hooks`ran, this`log
      ensures log == old(log) +
                     if HealthChecker then [SentQuit, Acted(P.RanPreStop), Acted(P.RanStop), Acted(P.RanPostStop)]
                     else [Acted(P.RanPreStop), Acted(P.RanStop), Acted(P.RanPostStop)]
      ensures log == old(log) + TearDownEntries(HealthChecker)
      ensures TheWorld() == Torn(env, old(TheWorld()), TheHooks(), ContainerID)
      ensures Safe() && Restored() && TornInOrder(old(hooks.ran), hooks.ran, TheHooks())
    {
      hide CleanStart, RunAll, TornInOrder, Restorable;
      TearDownRunsAll(env, TheWorld(), TheHooks(), ContainerID);
      TornRestorable(env, TheWorld(), TheHooks(), ContainerID, base);
      if HealthChecker {
        log := log + [SentQuit];
      }
      var ignored := hooks.RunHooks(m, env, PreStop, ContainerID, false);
      log := log + [Acted(P.RanPreStop)];
      log := log + [Acted(P.RanStop)];
      ignored := hooks.RunHooks(m, env, PostStop, ContainerID, false);
      log := log + [Acted(P.RanPostStop)];
    }

    /** A completed tearDown, and FAILED as the last attempted update. Whether the agent accepts
        it makes no difference. */
    method ThrowError(a: P.Actor)
      requires Safe() && Booked()
      modifies m, hooks`ran, this`log, this`UnackedUpdates, this`calls, this`ledger
      ensures Booked() && log == old(log) + Down(HealthChecker, Failed, answers.call(old(calls)))
      ensures calls == old(calls) + 1
      ensures UnackedUpdates ==
              if answers.call(old(calls)) then old(UnackedUpdates)[old(calls) := L.Update(a, Ended(Failed))]
              else old(UnackedUpdates)
      ensures TheWorld() == Torn(env, old(TheWorld()), TheHooks(), ContainerID)
      ensures Safe() && Restored() && TornInOrder(old(hooks.ran), hooks.ran, TheHooks())
    {
      hide CleanStart, Torn, TornInOrder, Restorable;
      TearDown();
      var ignored := UpdateStatus(a, Ended(Failed));
    }

    method HandleKill(a: P.Actor) returns (ok: bool)
      requires Safe() && Booked()
      modifies m, hooks`ran, this`log, this`UnackedUpdates, this`calls, this`ledger, this`Shutdown
      ensures Booked() && Shutdown && log == old(log) + Down(HealthChecker, Killed, ok)
      ensures ok == answers.call(old(calls)) && calls == old(calls) + 1
      ensures UnackedUpdates ==
              if ok then old(UnackedUpdates)[old(calls) := L.Update(a, Ended(Killed))] else old(UnackedUpdates)
      ensures TheWorld() == Torn(env, old(TheWorld()), TheHooks(), ContainerID)
      ensures Safe() && Restored() && TornInOrder(old(hooks.ran), hooks.ran, TheHooks())
    {
      hide CleanStart, Torn, TornInOrder, Restorable;
      Shutdown := true;
      TearDown();
      ok := UpdateStatus(a, Ended(Killed));
    }

    /** The end of waitContainer; `clean` says that waiting worked and the exit code was 0. */
    method ContainerExited(clean: bool) returns (ok: bool)
      requires Safe() && Booked()
      modifies m, hooks`ran, this`log, this`UnackedUpdates, this`calls, this`ledger
      ensures var t := if clean then Finished else Failed;
              && Booked() && log == old(log) + Down(HealthChecker, t, answers.call(old(calls)))
              && UnackedUpdates ==
                 if answers.call(old(calls)) then old(UnackedUpdates)[old(calls) := L.Update(P.Waiter, Ended(t))]
                 else old(UnackedUpdates)
      ensures ok == (clean && answers.call(old(calls))) && calls == old(calls) + 1
      ensures TheWorld() == Torn(env, old(TheWorld()), TheHooks(), ContainerID)
      ensures Safe() && Restored() && TornInOrder(old(hooks.ran), hooks.ran, TheHooks())
    {
      hide CleanStart, Torn, TornInOrder, Restorable;
      if !clean {
        ThrowError(P.Waiter);
        return false;
      }
      TearDown();
      ok := UpdateStatus(P.Waiter, Ended(Finished));
    }

    /** How a launch ends that began in x with the log `start`. It goes through its steps in
        order up to the first that fails, the n-th. It succeeds exactly if none fails, and then
        RUNNING is remembered as unacknowledged and the firewall has all rules of all hooks.
        Otherwise the log ends with a completed tearDown and an attempt at FAILED, and every
        chain of the firewall is what it was; after a success that is what the next tearDown
        will achieve. */
    ghost predicate LaunchEnded(p: Launch, x: World, start: seq<Entry>, ok: bool, n: nat)
      reads this, m, hooks, hooks.Hooks
    {
      var r := Launched(p, x, 0);
      && start <= log && LaunchLog(log[|start|..], hasCheck, n, calls > 0 && answers.call(calls - 1))
      && (ok <==> n == |Stages(hasCheck)|)
      && Booked() && base == x.host.tables && Safe() && (!ok ==> Restored())
      && (ok ==> Installed(p, x, m.tables))
      && (HealthChecker <==> hasCheck && n > 7)
      && ContainerID == ContainerAt(p, n)
      && n == r.n
      && (if ok then TheWorld() == r.world
          else TheWorld() == Torn(env, r.world, TheHooks(), ContainerID)
               && TornInOrder(r.world.ran, hooks.ran, TheHooks()))
    }

    /** The calls made and the updates remembered after a launch: besides those that were, RUNNING
        after a success, and after a failure FAILED if the agent accepted it, which is one call
        later if RUNNING was refused. */
    ghost predicate Kept(p: Launch, updates: map<L.Uuid, L.Update>, ok: bool, n: nat)
      reads this
    {
      var last := if n == (if hasCheck then 9 else 6) then p.call + 1 else p.call;
      && calls == (if ok then p.call else last) + 1
      && UnackedUpdates ==
         if ok then updates[p.call := L.Update(P.Loop, Running)]
         else if answers.call(last) then updates[last := L.Update(P.Loop, Ended(Failed))]
         else updates
    }

    /** Why it ended so, told by the answers and by the log of the hooks, and what is remembered. */
    ghost predicate LaunchTold(p: Launch, ran: seq<Ran>, updates: map<L.Uuid, L.Update>, ok: bool, n: nat)
      reads this, hooks
    {
      ran <= hooks.ran && StoppedAt(p, hooks.ran[|ran|..], n) && Kept(p, updates, ok, n)
    }

    /** A step of a launch has failed. */
    method Abort(ghost p: Launch, ghost x: World, ghost start: seq<Entry>, ghost y: World, ghost before: seq<Entry>,
                 stage: P.Stage, ghost k: nat)
      requires p.env == env && p.hooks == TheHooks() && p.hasCheck == hasCheck && ContainerID == ContainerAt(p, k)
      requires k < |Stages(hasCheck)| && stage == Stages(hasCheck)[k] && P.CanFail(stage)
      requires Booked() && base == x.host.tables && x.host.cache == map[]
      requires HealthChecker == (hasCheck && k > 7)
      requires Going(p, x, start, y, before, k) && StageResult(p, y, stage) == RunResult(TheWorld(), false)
      requires log == if stage == P.Announce then before + [Sent(Running, false)] else before
      modifies m, hooks`ran, this`log, this`UnackedUpdates, this`calls, this`ledger
      ensures LaunchEnded(p, x, start, false, k) && calls == old(calls) + 1
      ensures UnackedUpdates ==
              if answers.call(old(calls)) then old(UnackedUpdates)[old(calls) := L.Update(P.Loop, Ended(Failed))]
              else old(UnackedUpdates)
    {
      StagesAre(hasCheck);
      hide Stages, CleanStart, Torn, TornInOrder, RunAll, Launched, StageResult, Going, LaunchLog, Restorable, Down;
      hide Installed, LaunchEnded, L.Books;
      ghost var z := TheWorld();
      StepBroken(p, x, start, y, before, k, z);
      LogStep(stage, false, before);
      ThrowError(P.Loop);
      Aborted(p, x, start, z, before, k);
    }

    /** The entry of a step; the update of the announcement has its own already. */
    method LogStep(stage: P.Stage, ok: bool, ghost before: seq<Entry>)
      requires log == if stage == P.Announce then before + [Sent(Running, ok)] else before
      modifies this`log
      ensures log == before + [EntryOf(stage, ok)]
    {
      if stage != P.Announce {
        log := log + [Did(stage, ok)];
      }
    }

    lemma Aborted(p: Launch, x: World, start: seq<Entry>, z: World, before: seq<Entry>, k: nat)
      requires p.env == env && p.hooks == TheHooks() && p.hasCheck == hasCheck && ContainerID == ContainerAt(p, k)
      requires k < |Stages(hasCheck)| && P.CanFail(Stages(hasCheck)[k])
      requires HealthChecker == (hasCheck && k > 7) && calls > 0
      requires before == start + AllDone(Stages(hasCheck)[..k]) && Launched(p, x, 0) == Reached(z, k)
      requires log == before + [EntryOf(Stages(hasCheck)[k], false)] +
                      Down(HealthChecker, Failed, answers.call(calls - 1))
      requires Booked() && base == x.host.tables && Safe() && Restored()
      requires TheWorld() == Torn(env, z, TheHooks(), ContainerID) && TornInOrder(z.ran, hooks.ran, TheHooks())
      ensures LaunchEnded(p, x, start, false, k)
    {
      StagesAre(hasCheck);
      hide Stages, CleanStart, Torn, TornInOrder, RunAll, Launched, StageResult, LaunchLog, Restorable, Down;
      hide Installed, L.Books;
      assert HealthChecker == (hasCheck && Stages(hasCheck)[k] == P.Announce);
      StepFailed(start, log, hasCheck, k, HealthChecker, answers.call(calls - 1));
    }

    lemma AllWell(p: Launch, x: World, start: seq<Entry>, n: nat)
      requires p.env == env && p.hooks == TheHooks() && p.hasCheck == hasCheck && n == |Stages(hasCheck)|
      requires ContainerID == p.id && HealthChecker == hasCheck && Booked() && base == x.host.tables
      requires Going(p, x, start, TheWorld(), log, n)
      ensures LaunchEnded(p, x, start, true, n)
    {
      StagesAre(hasCheck);
      hide CleanStart, Torn, Launched, Going, LaunchLog, Restorable, Stages, Installed;
      LaunchEnds(p, x, start, TheWorld(), log, n);
    }

    /** What a launch that ended tells about the answers and the hooks. */
    lemma EndedTells(p: Launch, x: World, start: seq<Entry>, ok: bool, n: nat)
      requires p.hooks == TheHooks() && LaunchEnded(p, x, start, ok, n)
      ensures x.ran <= hooks.ran && StoppedAt(p, hooks.ran[|x.ran|..], n)
    {
      assert x.ran[|x.ran|..] == [];
      LaunchStory(p, x.ran, x, 0);
      hide Launched, Torn, StoppedAt, TornInOrder, LaunchLog, Restorable, CleanStart, Installed, Stages;
      if !ok {
        TornStopsSame(p, x.ran, Launched(p, x, 0).world.ran, hooks.ran, n);
      }
    }

    /** A step of a launch is done. */
    method Completed(ghost p: Launch, ghost x: World, ghost start: seq<Entry>, ghost y: World, ghost before: seq<Entry>,
                     stage: P.Stage, ghost k: nat)
      returns (ghost n: nat)
      requires p.hasCheck == hasCheck && x.host.cache == map[]
      requires k < |Stages(hasCheck)| && stage == Stages(hasCheck)[k]
      requires Going(p, x, start, y, before, k) && StageResult(p, y, stage) == RunResult(TheWorld(), true)
      requires log == if stage == P.Announce then before + [Sent(Running, true)] else before
      modifies this`log
      ensures n == k + 1 && Going(p, x, start, TheWorld(), log, n)
    {
      hide Launched, Going, StageResult;
      StepPassed(p, x, start, y, before, k, TheWorld());
      LogStep(stage, true, before);
      n := k + 1;
    }

    /** Launches the task of a fresh executor. */
    method HandleLaunch() returns (ok: bool, ghost n: nat)
      requires ContainerID == "" && !HealthChecker && m.cache == map[] && Booked()
      modifies m, hooks`ran, this`log, this`UnackedUpdates, this`calls, this`ledger
      modifies this`ContainerID, this`HealthChecker, this`base
      ensures LaunchEnded(Launch(env, answers, hasCheck, TheHooks(), newID, old(calls)),
                          old(TheWorld()), old(log), ok, n)
      ensures LaunchTold(Launch(env, answers, hasCheck, TheHooks(), newID, old(calls)),
                         old(hooks.ran), old(UnackedUpdates), ok, n)
      ensures ok <==>
              && answers.limits && answers.create && answers.start && (hasCheck ==> answers.pid)
              && answers.call(old(calls))
              && forall w :: w == PreCreate || w == PreRun || w == PostRun ==>
                   PhaseFine(hooks.ran[|old(hooks.ran)|..], w)
    {
      hide CleanStart, RunAll, Torn, Launched, Going, LaunchLog, LaunchEnded, LaunchTold, Stages, Restorable, L.Books;
      hide PhaseFine, StoppedAt;
      ghost var p := Launch(env, answers, hasCheck, TheHooks(), newID, calls);
      ghost var x, start := TheWorld(), log;
      base := m.tables;
      LaunchBegins(p, x, start);
      ok, n := BeginLaunch(p, x, start);
      EndedTells(p, x, start, ok, n);
      ThroughIff(p, hooks.ran[|x.ran|..], n);
      TellsAll(p, x, start, ok, n, old(UnackedUpdates));
    }

    lemma TellsAll(p: Launch, x: World, start: seq<Entry>, ok: bool, n: nat, updates: map<L.Uuid, L.Update>)
      requires LaunchEnded(p, x, start, ok, n) && Kept(p, updates, ok, n) && p.hasCheck == hasCheck
      requires x.ran <= hooks.ran && StoppedAt(p, hooks.ran[|x.ran|..], n)
      ensures LaunchTold(p, x.ran, updates, ok, n) && (ok <==> n == |Stages(p.hasCheck)|)
    {
      hide Launched, Torn, StoppedAt, TornInOrder, LaunchLog, Restorable, CleanStart, Installed, Stages;
    }

    /** The limits are read and the pre-create hooks run. */
    method BeginLaunch(ghost p: Launch, ghost x: World, ghost start: seq<Entry>) returns (ok: bool, ghost n: nat)
      requires p == Launch(env, answers, hasCheck, TheHooks(), newID, calls) && ContainerID == ""
      requires !HealthChecker && Going(p, x, start, TheWorld(), log, 0)
      requires Booked() && base == x.host.tables && x.host.cache == map[]
      modifies m, hooks`ran, this`log, this`UnackedUpdates, this`calls, this`ledger
      modifies this`ContainerID, this`HealthChecker, this`base
      ensures LaunchEnded(p, x, start, ok, n) && Kept(p, old(UnackedUpdates), ok, n)
    {
      StagesAre(hasCheck);
      hide CleanStart, RunAll, Torn, Launched, Going, LaunchLog, LaunchEnded, Stages, Restorable, L.Books;
      n := 0;
      ghost var y, before := TheWorld(), log;
      ok := answers.limits;
      if !ok { Abort(p, x, start, y, before, P.Limits, n); return; }
      n := Completed(p, x, start, y, before, P.Limits, n);

      before := log;
      ok := hooks.RunHooks(m, env, PreCreate, ContainerID, true);
      if !ok { Abort(p, x, start, y, before, P.PreCreate, n); return; }
      n := Completed(p, x, start, y, before, P.PreCreate, n);

      ok, n := CreateContainer(p, x, start, n);
    }

    /** The container is created and made ready. */
    method CreateContainer(ghost p: Launch, ghost x: World, ghost start: seq<Entry>, ghost k: nat)
      returns (ok: bool, ghost n: nat)
      requires p == Launch(env, answers, hasCheck, TheHooks(), newID, calls) && ContainerID == ""
      requires k == 2 && !HealthChecker && Going(p, x, start, TheWorld(), log, k)
      requires Booked() && base == x.host.tables && x.host.cache == map[]
      modifies m, hooks`ran, this`log, this`UnackedUpdates, this`calls, this`ledger
      modifies this`ContainerID, this`HealthChecker, this`base
      ensures LaunchEnded(p, x, start, ok, n) && Kept(p, old(UnackedUpdates), ok, n)
    {
      StagesAre(hasCheck);
      hide CleanStart, RunAll, Torn, Launched, Going, LaunchLog, LaunchEnded, Stages, Restorable, L.Books;
      n := k;
      ghost var y, before := TheWorld(), log;
      ok := answers.create;
      if !ok { Abort(p, x, start, y, before, P.Create, n); return; }
      ContainerID := newID;
      n := Completed(p, x, start, y, before, P.Create, n);

      before := log;
      ok := hooks.RunHooks(m, env, PreRun, ContainerID, true);
      if !ok { Abort(p, x, start, y, before, P.PreRun, n); return; }
      n := Completed(p, x, start, y, before, P.PreRun, n);

      ok, n := RunContainer(p, x, start, n);
    }

    /** The container is started. */
    method RunContainer(ghost p: Launch, ghost x: World, ghost start: seq<Entry>, ghost k: nat)
      returns (ok: bool, ghost n: nat)
      requires p == Launch(env, answers, hasCheck, TheHooks(), newID, calls) && ContainerID == newID
      requires k == 4 && !HealthChecker && Going(p, x, start, TheWorld(), log, k)
      requires Booked() && base == x.host.tables && x.host.cache == map[]
      modifies m, hooks`ran, this`log, this`UnackedUpdates, this`calls, this`ledger
      modifies this`ContainerID, this`HealthChecker, this`base
      ensures LaunchEnded(p, x, start, ok, n) && Kept(p, old(UnackedUpdates), ok, n)
    {
      StagesAre(hasCheck);
      hide CleanStart, RunAll, Torn, Launched, Going, LaunchLog, LaunchEnded, Stages, Restorable, L.Books;
      n := k;
      ghost var y, before := TheWorld(), log;
      ok := answers.start;
      if !ok { Abort(p, x, start, y, before, P.Start, n); return; }
      n := Completed(p, x, start, y, before, P.Start, n);

      before := log;
      ok := hooks.RunHooks(m, env, PostRun, ContainerID, true);
      if !ok { Abort(p, x, start, y, before, P.PostRun, n); return; }
      n := Completed(p, x, start, y, before, P.PostRun, n);

      ok, n := StartChecking(p, x, start, n);
      if ok {
        ok, n := AnnounceRunning(p, x, start, n);
      }
    }

    /** The checker is created and spawned, if there is to be one. */
    method StartChecking(ghost p: Launch, ghost x: World, ghost start: seq<Entry>, ghost k: nat)
      returns (ok: bool, ghost n: nat)
      requires p == Launch(env, answers, hasCheck, TheHooks(), newID, calls) && ContainerID == newID
      requires k == 6 && !HealthChecker && Going(p, x, start, TheWorld(), log, k)
      requires Booked() && base == x.host.tables && x.host.cache == map[]
      modifies m, hooks`ran, this`log, this`UnackedUpdates, this`calls, this`ledger
      modifies this`ContainerID, this`HealthChecker, this`base
      ensures ok ==>
                && Booked() && base == old(base) && calls == old(calls) && ContainerID == newID
                && UnackedUpdates == old(UnackedUpdates)
                && HealthChecker == hasCheck && n == |Stages(hasCheck)| - 2
                && TheWorld() == old(TheWorld()) && Going(p, x, start, TheWorld(), log, n)
      ensures !ok ==> LaunchEnded(p, x, start, false, n) && Kept(p, old(UnackedUpdates), false, n)
    {
      StagesAre(hasCheck);
      hide CleanStart, RunAll, Torn, Launched, Going, LaunchLog, LaunchEnded, Stages, Restorable, L.Books;
      ok, n := true, k;
      if hasCheck {
        ghost var y := TheWorld();
        ok := answers.pid;
        if !ok { Abort(p, x, start, y, log, P.GetPid, n); return; }
        n := Completed(p, x, start, y, log, P.GetPid, n);
        HealthChecker := true;
        n := Completed(p, x, start, y, log, P.Install, n);
        n := Completed(p, x, start, y, log, P.Spawn, n);
      }
    }

    /** The last steps of a launch: the task is announced as running, and waiting for the
        container begins. */
    method AnnounceRunning(ghost p: Launch, ghost x: World, ghost start: seq<Entry>, ghost k: nat)
      returns (ok: bool, ghost n: nat)
      requires p == Launch(env, answers, hasCheck, TheHooks(), newID, calls) && ContainerID == newID
      requires k == |Stages(hasCheck)| - 2 && HealthChecker == hasCheck
      requires Going(p, x, start, TheWorld(), log, k)
      requires Booked() && base == x.host.tables && x.host.cache == map[]
      modifies m, hooks`ran, this`log, this`UnackedUpdates, this`calls, this`ledger
      modifies this`ContainerID, this`HealthChecker, this`base
      ensures LaunchEnded(p, x, start, ok, n) && Kept(p, old(UnackedUpdates), ok, n)
    {
      StagesAre(hasCheck);
      hide CleanStart, RunAll, Torn, Launched, Going, LaunchLog, LaunchEnded, Stages, Restorable, L.Books;
      n := k;
      ghost var y, before := TheWorld(), log;
      ok := UpdateStatus(P.Loop, Running);
      if !ok { Abort(p, x, start, y, before, P.Announce, n); return; }
      n := Completed(p, x, start, y, before, P.Announce, n);
      n := FinishLaunch(p, x, start, n);
    }

    /** Waiting for the container begins. */
    method FinishLaunch(ghost p: Launch, ghost x: World, ghost start: seq<Entry>, ghost k: nat) returns (ghost n: nat)
      requires p.env == env && p.hooks == TheHooks() && p.hasCheck == hasCheck && ContainerID == p.id
      requires k == |Stages(hasCheck)| - 1 && HealthChecker == hasCheck
      requires Going(p, x, start, TheWorld(), log, k)
      requires Booked() && base == x.host.tables && x.host.cache == map[]
      modifies this`log
      ensures n == |Stages(hasCheck)| && LaunchEnded(p, x, start, true, n)
    {
      StagesAre(hasCheck);
      hide CleanStart, RunAll, Torn, Launched, Going, LaunchLog, LaunchEnded, Stages, Restorable, L.Books;
      n := Completed(p, x, start, TheWorld(), log, P.SpawnWait, k);
      AllWell(p, x, start, n);
    }
  }
}
