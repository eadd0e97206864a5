/** Launching and tearing down leave the firewall as it was. */
module Restore {
  import opened Tables
  import opened Options
  import opened Host
  import opened HookManager
  import IptablesHook
  import AclHook

  /** What the hooks would apply at most: every rule of the iptables hook for the addresses the
      container may get, and every rule of the ACL hook. */
  function HookRules(env: Env, hook: Hook): seq<Emission> {
    match hook.body
    case Iptables =>
      if env.ips.Some? then IptablesHook.IptablesRules(env.iptables, env.ips.value, env.task.ports) else []
    case Acl => AclHook.PlanFor(env, env.task.labels).rules
    case Other(_) => []
  }

  function AllRules(env: Env, hooks: seq<Hook>): seq<Emission> {
    if |hooks| == 0 then [] else HookRules(env, hooks[0]) + AllRules(env, hooks[1..])
  }

  /** What the pre-stop function of a hook deletes if the driver works. */
  function StopRules(env: Env, h: HostState, hook: Hook, id: string): seq<Emission> {
    match hook.body
    case Iptables =>
      if env.task.network != NONE && env.task.network != HOST && id in h.cache && env.iptables.bridge != "" &&
         (forall i :: 0 <= i < 3 ==> IptablesHook.Chains(env.iptables)[i] in h.tables)
      then IptablesHook.IptablesRules(env.iptables, h.cache[id], env.task.ports) else []
    case Acl =>
      if Bridged(env.task.network) && AclHook.ChainAccepted(env, h.tables)
      then AclHook.PlanFor(env, env.task.labels).rules else []
    case Other(_) => []
  }

  function AllStopRules(env: Env, h: HostState, hooks: seq<Hook>, id: string): seq<Emission> {
    if |hooks| == 0 then [] else StopRules(env, h, hooks[0], id) + AllStopRules(env, h, hooks[1..], id)
  }

  /** The cache knows the container only by the addresses it has. */
  predicate CacheOk(env: Env, cache: map<string, seq<string>>, id: string) {
    id in cache ==> env.ips == Some(cache[id])
  }

  predicate SameChains(h: HostState, g: HostState) {
    h.tables.Keys == g.tables.Keys
  }

  lemma LookupsKeep(cfg: IptablesConfig, t: Table, fault: nat -> bool, k: nat)
    ensures IptablesHook.Lookups(t, IptablesHook.Chains(cfg), fault, k).t == t
    ensures IptablesHook.Lookups(t, IptablesHook.Chains(cfg), fault, k).ok ==>
              forall i :: 0 <= i < 3 ==> IptablesHook.Chains(cfg)[i] in t
    ensures (forall j :: k <= j ==> !fault(j)) && (forall i :: 0 <= i < 3 ==> IptablesHook.Chains(cfg)[i] in t) ==>
              IptablesHook.Lookups(t, IptablesHook.Chains(cfg), fault, k) == Outcome(t, k + 3, true)
    ensures !(forall i :: 0 <= i < 3 ==> IptablesHook.Chains(cfg)[i] in t) ==>
              !IptablesHook.Lookups(t, IptablesHook.Chains(cfg), fault, k).ok
  {
    IptablesHook.LookupsUnfold(t, cfg, fault, k);
    var c := IptablesHook.Chains(cfg);
    assert c[0] == IptablesHook.Nat(cfg.prerouting) && c[1] == IptablesHook.Filter(cfg.forward)
        && c[2] == IptablesHook.Nat(cfg.postrouting);
  }

  predicate CacheGrows(env: Env, c: map<string, seq<string>>, d: map<string, seq<string>>, id: string) {
    d == c || (env.ips.Some? && d == c[id := env.ips.value])
  }

  /** From g to h exactly the rules in a were appended, and all of them, as often as they are
      there, are among those that will be deleted. */
  ghost predicate Undoable(env: Env, g: HostState, h: HostState, stop: seq<Emission>, id: string, a: seq<Emission>) {
    && ChainsExist(g.tables, a)
    && h.tables == AddAll(g.tables, a)
    && multiset(a) <= multiset(stop)
    && CacheOk(env, h.cache, id)
    && CacheGrows(env, g.cache, h.cache, id)
  }

  /** The post-run function of a hook appends a part of what its pre-stop function will
      delete: whether the rules were reached, the chains were missing, the driver was
      missing, or the address could not be found. */
  lemma PostRunAppends(env: Env, x: World, hook: Hook, id: string) returns (a: seq<Emission>)
    requires Handles(hook, PostRun) && CacheOk(env, x.host.cache, id)
    ensures var h := Effect(env, x, hook, PostRun, id).host;
            Undoable(env, x.host, h, StopRules(env, h, hook, id), id, a)
  {
    hide IptablesHook.IptablesRules, AclHook.PlanFor, Pass, AddAll, IptablesHook.Lookups;
    a := [];
    AddNothing(x.host.tables);
    var f := env.fault(PostRun);
    var k := x.host.clock;
    match hook.body {
      case Other(_) =>
      case Iptables =>
        if Bridged(env.task.network) && !f(k) && env.iptables.bridge != "" && env.ips.Some? {
          LookupsKeep(env.iptables, x.host.tables, f, k + 1);
          var o := IptablesHook.Lookups(x.host.tables, IptablesHook.Chains(env.iptables), f, k + 1);
          if o.ok {
            var es := IptablesHook.IptablesRules(env.iptables, env.ips.value, env.task.ports);
            var n := AppendPassAddsPrefix(x.host.tables, es, f, o.clock);
            PrefixWithin(es, n);
            a := es[..n];
          }
        }
      case Acl =>
        if Bridged(env.task.network) && !f(k) && AclHook.ChainAccepted(env, x.host.tables) && !f(k + 1) {
          var es := AclHook.PlanFor(env, env.task.labels).rules;
          var n := AppendPassAddsPrefix(x.host.tables, es, f, k + 2);
          PrefixWithin(es, n);
          a := es[..n];
        }
    }
  }

  /** With a working driver the pre-stop function of a hook deletes its rules, whatever
      becomes of the error it may return. */
  lemma PreStopDeletes(env: Env, x: World, hook: Hook, id: string)
    requires Handles(hook, PreStop)
    requires forall k :: !env.fault(PreStop)(k)
    ensures var h := Effect(env, x, hook, PreStop, id).host;
            h.tables == DeleteAll(x.host.tables, StopRules(env, x.host, hook, id)) && h.cache == x.host.cache
  {
    hide IptablesHook.IptablesRules, AclHook.PlanFor, Pass, IptablesHook.Lookups;
    var f := env.fault(PreStop);
    var k := x.host.clock;
    match hook.body {
      case Other(_) =>
      case Iptables =>
        if env.task.network != NONE && env.task.network != HOST && id in x.host.cache && env.iptables.bridge != "" {
          LookupsKeep(env.iptables, x.host.tables, f, k + 1);
          var o := IptablesHook.Lookups(x.host.tables, IptablesHook.Chains(env.iptables), f, k + 1);
          if o.ok {
            var es := IptablesHook.IptablesRules(env.iptables, x.host.cache[id], env.task.ports);
            DeletePass(x.host.tables, es, f, o.clock);
          }
        }
      case Acl =>
        DeletePass(x.host.tables, AclHook.PlanFor(env, env.task.labels).rules, f, k + 2);
    }
  }

  /** What a hook will delete does not depend on which other rules there are; it can only grow
      from nothing, when the cache does. */
  lemma StopRulesGrow(env: Env, h: HostState, g: HostState, hook: Hook, id: string)
    requires SameChains(h, g) && CacheOk(env, h.cache, id) && CacheGrows(env, h.cache, g.cache, id)
    ensures var s, t := StopRules(env, h, hook, id), StopRules(env, g, hook, id);
            && (s == t || s == [])
            && (g.cache == h.cache ==> s == t)
            && multiset(s) <= multiset(t)
  {
    hide IptablesHook.IptablesRules, AclHook.PlanFor;
    var s, t := StopRules(env, h, hook, id), StopRules(env, g, hook, id);
    assert s == t || s == [];
  }

  lemma StopRulesSame(env: Env, h: HostState, g: HostState, hooks: seq<Hook>, id: string)
    requires SameChains(h, g) && CacheOk(env, h.cache, id) && g.cache == h.cache
    ensures AllStopRules(env, h, hooks, id) == AllStopRules(env, g, hooks, id)
  {
    hide StopRules;
    if |hooks| == 0 {
    } else {
      StopRulesSame(env, h, g, hooks[1..], id);
      StopRulesGrow(env, h, g, hooks[0], id);
    }
  }

  lemma {:induction false} DeleteAllConcat(t: Table, a: seq<Emission>, b: seq<Emission>)
    ensures DeleteAll(t, a + b) == DeleteAll(DeleteAll(t, a), b)
    decreases |a|
  {
    if |a| == 0 {
      assert a + b == b;
    } else {
      assert (a + b)[1..] == a[1..] + b;
      DeleteAllConcat(if Holds(t, a[0]) then Worked(t, Delete, a[0]) else t, a[1..], b);
    }
  }

  lemma {:induction false} RulesAtConcat(a: seq<Emission>, b: seq<Emission>, at: ChainRef)
    ensures RulesAt(a + b, at) == RulesAt(a, at) + RulesAt(b, at)
  {
    if |a| == 0 {
      assert a + b == b;
    } else {
      assert (a + b)[1..] == a[1..] + b;
      RulesAtConcat(a[1..], b, at);
    }
  }

  lemma AddAllConcat(t: Table, a: seq<Emission>, b: seq<Emission>)
    ensures AddAll(AddAll(t, a), b) == AddAll(t, a + b)
  {
    var u, v := AddAll(AddAll(t, a), b), AddAll(t, a + b);
    forall at | at in t ensures u[at] == v[at] {
      RulesAtConcat(a, b, at);
    }
    assert u == v;
  }

  lemma InvokeIsEffect(env: Env, x: World, hook: Hook, w: When, id: string)
    ensures Invoke(env, x, hook, w, id).world.host == Effect(env, x, hook, w, id).host
    ensures Invoke(env, x, hook, w, id).ok == Effect(env, x, hook, w, id).ok
  {
    hide Effect;
  }

  lemma UndoableWithin(env: Env, g: HostState, h: HostState, stop: seq<Emission>, more: seq<Emission>,
                       id: string, a: seq<Emission>)
    requires Undoable(env, g, h, stop, id, a) && multiset(stop) <= multiset(more)
    ensures Undoable(env, g, h, more, id, a)
  {
  }

  lemma UndoableThen(env: Env, g: HostState, m: HostState, h: HostState, s: seq<Emission>, t: seq<Emission>,
                     id: string, a: seq<Emission>, b: seq<Emission>)
    requires Undoable(env, g, m, s, id, a) && Undoable(env, m, h, t, id, b)
    ensures Undoable(env, g, h, s + t, id, a + b)
  {
    AddAllConcat(g.tables, a, b);
  }

  /** However far the post-run hooks get, in whatever order, what they append is within what
      the pre-stop hooks will delete. */
  lemma {:induction false} PostRunWithinPreStop(env: Env, x: World, hooks: seq<Hook>, id: string)
    returns (a: seq<Emission>)
    requires CacheOk(env, x.host.cache, id)
    ensures var h := RunAll(env, x, hooks, PostRun, id, true).world.host;
            Undoable(env, x.host, h, AllStopRules(env, h, hooks, id), id, a)
    decreases |hooks|
  {
    var h := RunAll(env, x, hooks, PostRun, id, true).world.host;
    var all := AllStopRules(env, h, hooks, id);
    if |hooks| == 0 {
      a := [];
      AddNothing(x.host.tables);
    } else if !Handles(hooks[0], PostRun) {
      hide Effect, StopRules, Undoable;
      a := PostRunWithinPreStop(env, x, hooks[1..], id);
      UndoableWithin(env, x.host, h, AllStopRules(env, h, hooks[1..], id), all, id, a);
    } else {
      var first, later := StopRules(env, h, hooks[0], id), AllStopRules(env, h, hooks[1..], id);
      hide Effect, StopRules;
      var y := Invoke(env, x, hooks[0], PostRun, id);
      InvokeIsEffect(env, x, hooks[0], PostRun, id);
      a := PostRunAppends(env, x, hooks[0], id);
      if y.ok {
        var b := PostRunWithinPreStop(env, y.world, hooks[1..], id);
        StopRulesGrow(env, y.world.host, h, hooks[0], id);
        UndoableWithin(env, x.host, y.world.host, StopRules(env, y.world.host, hooks[0], id), first, id, a);
        UndoableThen(env, x.host, y.world.host, h, first, later, id, a, b);
        a := a + b;
      } else {
        UndoableWithin(env, x.host, h, first, all, id, a);
      }
    }
  }

  /** With a working driver the pre-stop hooks delete all their rules, one hook after another,
      whatever errors they return. */
  lemma {:induction false} PreStopDeletesAll(env: Env, x: World, hooks: seq<Hook>, id: string)
    requires forall k :: !env.fault(PreStop)(k)
    requires CacheOk(env, x.host.cache, id)
    ensures var h := RunAll(env, x, hooks, PreStop, id, false).world.host;
            h.tables == DeleteAll(x.host.tables, AllStopRules(env, x.host, hooks, id)) && h.cache == x.host.cache
    decreases |hooks|
  {
    hide Effect;
    if |hooks| == 0 {
    } else if !Handles(hooks[0], PreStop) {
      PreStopDeletesAll(env, x, hooks[1..], id);
      assert StopRules(env, x.host, hooks[0], id) == [];
      assert [] + AllStopRules(env, x.host, hooks[1..], id) == AllStopRules(env, x.host, hooks[1..], id);
    } else {
      hide StopRules;
      var y := Invoke(env, x, hooks[0], PreStop, id);
      InvokeIsEffect(env, x, hooks[0], PreStop, id);
      PreStopDeletes(env, x, hooks[0], id);
      PreStopDeletesAll(env, y.world, hooks[1..], id);
      StopRulesSame(env, x.host, y.world.host, hooks[1..], id);
      DeleteAllConcat(x.host.tables, StopRules(env, x.host, hooks[0], id), AllStopRules(env, x.host, hooks[1..], id));
    }
  }

  /** The hooks of the other phases leave the host alone. */
  lemma {:induction false} OtherPhasesLeaveHost(env: Env, x: World, hooks: seq<Hook>,
                                                w: When, id: string, exitOnError: bool)
    requires w != PostRun && w != PreStop
    ensures RunAll(env, x, hooks, w, id, exitOnError).world.host == x.host
    decreases |hooks|
  {
    if |hooks| == 0 {
    } else {
      if !Handles(hooks[0], w) {
        OtherPhasesLeaveHost(env, x, hooks[1..], w, id, exitOnError);
      } else {
        assert hooks[0].body.Other?;
        OtherPhasesLeaveHost(env, Invoke(env, x, hooks[0], w, id).world, hooks[1..], w, id, exitOnError);
      }
    }
  }

  lemma {:induction false} StopRulesWithin(env: Env, h: HostState, hooks: seq<Hook>, id: string)
    requires CacheOk(env, h.cache, id)
    ensures forall e :: e in AllStopRules(env, h, hooks, id) ==> e in AllRules(env, hooks)
  {
    hide IptablesHook.IptablesRules, AclHook.PlanFor;
    if |hooks| == 0 {
    } else {
      StopRulesWithin(env, h, hooks[1..], id);
      assert StopRules(env, h, hooks[0], id) == HookRules(env, hooks[0]) || StopRules(env, h, hooks[0], id) == [];
    }
  }

  /** The assumptions about the environment of a launch: none of the rules of the hooks is in
      the tables yet, and the driver works when the task is torn down. */
  ghost predicate CleanStart(env: Env, t: Table, hooks: seq<Hook>) {
    Fresh(t, AllRules(env, hooks)) && forall k :: !env.fault(PreStop)(k)
  }

  /** Tearing down a task whose post-run hooks have not been reached changes no chain. */
  lemma EarlyTearDownRestores(env: Env, x: World, hooks: seq<Hook>, id: string)
    requires CleanStart(env, x.host.tables, hooks) && CacheOk(env, x.host.cache, id)
    ensures RunAll(env, x, hooks, PreStop, id, false).world.host.tables == x.host.tables
  {
    PreStopDeletesAll(env, x, hooks, id);
    StopRulesWithin(env, x.host, hooks, id);
    DeleteAbsent(x.host.tables, AllStopRules(env, x.host, hooks, id));
  }

  /** End to end: whatever hooks are enabled and in whatever order, however far the post-run
      hooks got and for whatever reason they stopped, the pre-stop hooks bring every chain of
      the host back to exactly the sequence of rules it had before. */
  lemma TearDownRestores(env: Env, x: World, hooks: seq<Hook>, id: string)
    requires CleanStart(env, x.host.tables, hooks) && CacheOk(env, x.host.cache, id)
    ensures var y := RunAll(env, x, hooks, PostRun, id, true).world;
            RunAll(env, y, hooks, PreStop, id, false).world.host.tables == x.host.tables
  {
    var y := RunAll(env, x, hooks, PostRun, id, true).world;
    var a := PostRunWithinPreStop(env, x, hooks, id);
    PreStopDeletesAll(env, y, hooks, id);
    var d := AllStopRules(env, y.host, hooks, id);
    StopRulesWithin(env, y.host, hooks, id);
    assert Fresh(x.host.tables, d);
    DeleteUndoesAdd(x.host.tables, a, d);
  }

  /** Two tearDowns of the same task can overlap. In whatever order the deletes of both reach
      the tables, every chain is in the end as it was before the post-run hooks. */
  lemma OverlappingTearDownsRestore(env: Env, x: World, hooks: seq<Hook>, id: string, mix: seq<Emission>)
    requires CleanStart(env, x.host.tables, hooks) && CacheOk(env, x.host.cache, id)
    requires var y := RunAll(env, x, hooks, PostRun, id, true).world.host;
             var d := AllStopRules(env, y, hooks, id);
             multiset(mix) == multiset(d) + multiset(d)
    ensures DeleteAll(RunAll(env, x, hooks, PostRun, id, true).world.host.tables, mix) == x.host.tables
  {
    var y := RunAll(env, x, hooks, PostRun, id, true).world;
    var d := AllStopRules(env, y.host, hooks, id);
    var a := PostRunWithinPreStop(env, x, hooks, id);
    StopRulesWithin(env, y.host, hooks, id);
    hide RunAll, AllStopRules, DeleteAll, AddAll;
    forall e | e in mix ensures e in d {
      assert multiset(mix)[e] > 0;
    }
    assert Fresh(x.host.tables, mix);
    DeleteUndoesAdd(x.host.tables, a, mix);
  }

  /** The pre-stop hooks have come before the post-run hooks, for whatever container they were
      told. What is in the tables then is exactly what the post-run hooks have appended, behind
      what was there; so the tables are as before if and only if that is nothing. One more run
      of the pre-stop hooks, of another tearDown, still restores them. */
  lemma PreStopBeforePostRun(env: Env, x: World, hooks: seq<Hook>, early: string, id: string) returns (a: seq<Emission>)
    requires CleanStart(env, x.host.tables, hooks) && x.host.cache == map[]
    ensures var y := RunAll(env, x, hooks, PreStop, early, false).world;
            var z := RunAll(env, y, hooks, PostRun, id, true).world;
            && ChainsExist(x.host.tables, a) && multiset(a) <= multiset(AllStopRules(env, z.host, hooks, id))
            && z.host.tables == AddAll(x.host.tables, a)
            && (z.host.tables == x.host.tables <==> a == [])
            && RunAll(env, z, hooks, PreStop, id, false).world.host.tables == x.host.tables
  {
    hide RunAll;
    EarlyTearDownRestores(env, x, hooks, early);
    PreStopDeletesAll(env, x, hooks, early);
    var y := RunAll(env, x, hooks, PreStop, early, false).world;
    a := PostRunWithinPreStop(env, y, hooks, id);
    TearDownRestores(env, y, hooks, id);
    NothingAddedIff(x.host.tables, a);
  }

  lemma NothingAddedIff(t: Table, a: seq<Emission>)
    requires ChainsExist(t, a)
    ensures AddAll(t, a) == t <==> a == []
  {
    AddNothing(t);
    if a != [] {
      RulesAtIn(a, a[0].at, a[0].rule);
      assert |AddAll(t, a)[a[0].at]| > |t[a[0].at]|;
    }
  }

  /** A post-run function that succeeds on a bridged or user network has appended all rules of its
      hook, each to a chain that exists. */
  lemma PostRunInstallsOne(env: Env, x: World, hook: Hook, id: string)
    requires Handles(hook, PostRun) && (env.task.network == BRIDGE || env.task.network == USER)
    requires Effect(env, x, hook, PostRun, id).ok
    ensures ChainsExist(x.host.tables, HookRules(env, hook))
    ensures Effect(env, x, hook, PostRun, id).host.tables == AddAll(x.host.tables, HookRules(env, hook))
  {
    hide IptablesHook.IptablesRules, AclHook.PlanFor;
    AddNothing(x.host.tables);
    match hook.body {
      case Other(_) =>
      case Iptables =>
        IptablesHook.PostRunIsDone(env, x.host, id);
        IptablesHook.RulesInChains(env.iptables, env.ips.value, env.task.ports, x.host.tables);
      case Acl =>
        AclHook.PostRunIsDone(env, x.host);
        forall e | e in AclHook.PlanFor(env, env.task.labels).rules ensures e.at in x.host.tables {
          AclHook.PlanChains(env, env.task.labels, e);
        }
    }
  }

  lemma ChainsExistKept(t: Table, u: Table, a: seq<Emission>, b: seq<Emission>)
    requires t.Keys == u.Keys && ChainsExist(t, a) && ChainsExist(u, b)
    ensures ChainsExist(t, a + b)
  {
  }

  /** When the post-run hooks succeed on a bridged or user network, the tables are exactly what
      they were with all rules of all hooks appended, in the order of the hooks. */
  lemma {:induction false} PostRunInstalls(env: Env, x: World, hooks: seq<Hook>, id: string)
    requires env.task.network == BRIDGE || env.task.network == USER
    requires RunAll(env, x, hooks, PostRun, id, true).ok
    ensures ChainsExist(x.host.tables, AllRules(env, hooks))
    ensures RunAll(env, x, hooks, PostRun, id, true).world.host.tables == AddAll(x.host.tables, AllRules(env, hooks))
    decreases |hooks|
  {
    hide Effect, HookRules, AddAll;
    AddNothing(x.host.tables);
    if |hooks| == 0 {
    } else if !Handles(hooks[0], PostRun) {
      PostRunInstalls(env, x, hooks[1..], id);
      NoRulesUnhandled(env, hooks[0]);
      assert [] + AllRules(env, hooks[1..]) == AllRules(env, hooks[1..]);
    } else {
      var y := Invoke(env, x, hooks[0], PostRun, id);
      InvokeIsEffect(env, x, hooks[0], PostRun, id);
      PostRunInstallsOne(env, x, hooks[0], id);
      PostRunInstalls(env, y.world, hooks[1..], id);
      var first, later := HookRules(env, hooks[0]), AllRules(env, hooks[1..]);
      AddAllConcat(x.host.tables, first, later);
      ChainsExistKept(x.host.tables, y.world.host.tables, first, later);
    }
  }

  lemma NoRulesUnhandled(env: Env, hook: Hook)
    requires !Handles(hook, PostRun)
    ensures HookRules(env, hook) == []
  {
  }

  /** So each of the rules is in its chain. */
  lemma InstalledRulesHold(env: Env, x: World, hooks: seq<Hook>, id: string, e: Emission)
    requires env.task.network == BRIDGE || env.task.network == USER
    requires RunAll(env, x, hooks, PostRun, id, true).ok && e in AllRules(env, hooks)
    ensures Holds(RunAll(env, x, hooks, PostRun, id, true).world.host.tables, e)
  {
    PostRunInstalls(env, x, hooks, id);
    hide RunAll;
    RulesAtIn(AllRules(env, hooks), e.at, e.rule);
    assert e == Emission(e.at, e.rule);
  }

  /** On any other network the post-run hooks change no chain. */
  lemma {:induction false} PostRunElsewhere(env: Env, x: World, hooks: seq<Hook>, id: string, exitOnError: bool)
    requires env.task.network != BRIDGE && env.task.network != USER
    ensures RunAll(env, x, hooks, PostRun, id, exitOnError).world.host.tables == x.host.tables
    decreases |hooks|
  {
    if |hooks| == 0 {
    } else if !Handles(hooks[0], PostRun) {
      PostRunElsewhere(env, x, hooks[1..], id, exitOnError);
    } else {
      var y := Invoke(env, x, hooks[0], PostRun, id);
      InvokeIsEffect(env, x, hooks[0], PostRun, id);
      ElsewhereOne(env, x, hooks[0], id);
      if y.ok || !exitOnError {
        hide Effect;
        PostRunElsewhere(env, y.world, hooks[1..], id, exitOnError);
      }
    }
  }

  lemma ElsewhereOne(env: Env, x: World, hook: Hook, id: string)
    requires env.task.network != BRIDGE && env.task.network != USER
    ensures Handles(hook, PostRun) ==> Effect(env, x, hook, PostRun, id).host.tables == x.host.tables
  {
  }
}
