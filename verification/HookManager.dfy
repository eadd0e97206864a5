/** hook/hook_manager.go and hook/hook.go */
module HookManager {
  import opened Tables
  import opened Host
  import IptablesHook
  import AclHook

  /** What the functions of a hook do. `Other` stands for every hook that does not touch the
      firewall; it says for which phases the hook has a function at all. */
  datatype Body = Iptables | Acl | Other(handled: set<When>)

  datatype Hook = Hook(name: string, priority: int, body: Body)

  /** Whether the hook's function for w is not nil. */
  predicate Handles(hook: Hook, w: When) {
    match hook.body
    case Other(handled) => w in handled
    case _ => w == PostRun || w == PreStop
  }

  /** A function of a hook was run, with or without an error. */
  datatype Ran = Ran(hook: Hook, w: When, ok: bool)

  /** The host, and the functions that hooks have run on it so far. */
  datatype World = World(host: HostState, ran: seq<Ran>)

  datatype RunResult = RunResult(world: World, ok: bool)

  /** The effect of one function of a hook. */
  function Effect(env: Env, x: World, hook: Hook, w: When, id: string): Result {
    match hook.body
    case Iptables =>
      if w == PostRun then IptablesHook.PostRunResult(env, x.host, id) else IptablesHook.PreStopResult(env, x.host, id)
    case Acl =>
      if w == PostRun then AclHook.HookResult(env, x.host, PostRun, Append, true)
      else AclHook.HookResult(env, x.host, PreStop, Delete, false)
    case Other(_) => Result(x.host, env.otherOk(hook.name, w, |x.ran|))
  }

  function Invoke(env: Env, x: World, hook: Hook, w: When, id: string): RunResult {
    var r := Effect(env, x, hook, w, id);
    RunResult(World(r.host, x.ran + [Ran(hook, w, r.ok)]), r.ok)
  }

  /** runHooks as a whole. */
  function RunAll(env: Env, x: World, hooks: seq<Hook>, w: When, id: string, exitOnError: bool): RunResult
    decreases |hooks|
  {
    if |hooks| == 0 then RunResult(x, true)
    else if !Handles(hooks[0], w) then RunAll(env, x, hooks[1..], w, id, exitOnError)
    else
      var r := Invoke(env, x, hooks[0], w, id);
      if !r.ok && exitOnError then RunResult(r.world, false)
      else RunAll(env, r.world, hooks[1..], w, id, exitOnError)
  }

  /** From entry n on, what the log says of a hook that does not touch the firewall is what its
      function answered. */
  ghost predicate Answered(env: Env, ran: seq<Ran>, w: When, n: nat) {
    forall i :: n <= i < |ran| && ran[i].hook.body.Other? ==> ran[i].ok == env.otherOk(ran[i].hook.name, w, i)
  }

  lemma {:induction false} OthersAnswer(env: Env, x: World, hooks: seq<Hook>, w: When, id: string, exitOnError: bool)
    ensures Answered(env, RunAll(env, x, hooks, w, id, exitOnError).world.ran, w, |x.ran|)
    decreases |hooks|
  {
    if |hooks| == 0 {
    } else if !Handles(hooks[0], w) {
      hide Answered;
      OthersAnswer(env, x, hooks[1..], w, id, exitOnError);
    } else {
      var y := Invoke(env, x, hooks[0], w, id);
      OneAnswers(env, x, hooks[0], w, id);
      hide Answered, Effect;
      if y.ok || !exitOnError {
        OthersAnswer(env, y.world, hooks[1..], w, id, exitOnError);
        RunHooksAsPromised(env, y.world, hooks[1..], w, id, exitOnError);
        InvokeLogs(env, x, hooks[0], w, id);
        AnsweredBefore(env, y.world.ran, RunAll(env, y.world, hooks[1..], w, id, exitOnError).world.ran, w, |x.ran|);
      }
    }
  }

  lemma OneAnswers(env: Env, x: World, hook: Hook, w: When, id: string)
    ensures Answered(env, Invoke(env, x, hook, w, id).world.ran, w, |x.ran|)
  {
  }

  lemma AnsweredBefore(env: Env, ran: seq<Ran>, more: seq<Ran>, w: When, n: nat)
    requires ran <= more && Answered(env, ran, w, n) && Answered(env, more, w, |ran|)
    ensures Answered(env, more, w, n)
  {
  }

  /** The entries of a log for one phase, in order. */
  function Phase(log: seq<Ran>, w: When): seq<Ran> {
    if |log| == 0 then [] else (if log[0].w == w then [log[0]] else []) + Phase(log[1..], w)
  }

  lemma PhaseCons(e: Ran, log: seq<Ran>, w: When)
    ensures Phase([e] + log, w) == (if e.w == w then [e] else []) + Phase(log, w)
  {
    assert ([e] + log)[1..] == log;
  }

  lemma {:induction false} PhaseConcat(a: seq<Ran>, b: seq<Ran>, w: When)
    ensures Phase(a + b, w) == Phase(a, w) + Phase(b, w)
  {
    hide Phase;
    if |a| == 0 {
      assert a + b == b;
      PhaseNone(w);
    } else {
      PhaseConcat(a[1..], b, w);
      PhaseCons(a[0], a[1..], w);
      PhaseCons(a[0], a[1..] + b, w);
      assert [a[0]] + a[1..] == a && [a[0]] + (a[1..] + b) == a + b;
    }
  }

  lemma PhaseNone(w: When)
    ensures Phase([], w) == []
  {
  }

  lemma {:induction false} PhaseOfOne(log: seq<Ran>, v: When, w: When)
    requires forall i :: 0 <= i < |log| ==> log[i].w == v
    ensures Phase(log, w) == if v == w then log else []
  {
    hide Phase;
    PhaseNone(w);
    if |log| == 0 {
    } else {
      PhaseOfOne(log[1..], v, w);
      PhaseCons(log[0], log[1..], w);
      assert log == [log[0]] + log[1..];
    }
  }

  /** The hooks that have a function for w, in order. */
  function Handlers(hooks: seq<Hook>, w: When): seq<Hook> {
    if |hooks| == 0 then []
    else (if Handles(hooks[0], w) then [hooks[0]] else []) + Handlers(hooks[1..], w)
  }

  /** The log of a run of the functions of `hs` for w: they ran in this order, one entry each. */
  ghost predicate RanThese(log: seq<Ran>, hs: seq<Hook>, w: When) {
    && |log| == |hs|
    && forall i :: 0 <= i < |hs| ==> log[i].hook == hs[i] && log[i].w == w
  }

  /** What runHooks does, declaratively. With exitOnError it runs precisely the functions up to
      and including the first that fails, and reports that error; without, it runs every
      function once, in order, and reports none. */
  ghost predicate RunsAsPromised(log: seq<Ran>, hooks: seq<Hook>, w: When, exitOnError: bool, ok: bool) {
    var hs := Handlers(hooks, w);
    && |log| <= |hs|
    && RanThese(log, hs[..|log|], w)
    && (!exitOnError ==> ok && |log| == |hs|)
    && (exitOnError && ok ==> |log| == |hs| && forall i :: 0 <= i < |log| ==> log[i].ok)
    && (!ok ==> exitOnError && |log| > 0 && !log[|log| - 1].ok && forall i :: 0 <= i < |log| - 1 ==> log[i].ok)
  }

  /** runHooks refines its declarative reading, whatever the hooks do. */
  lemma {:induction false} RunHooksAsPromised(env: Env, x: World, hooks: seq<Hook>,
                                              w: When, id: string, exitOnError: bool)
    ensures var r := RunAll(env, x, hooks, w, id, exitOnError);
            && x.ran <= r.world.ran
            && RunsAsPromised(r.world.ran[|x.ran|..], hooks, w, exitOnError, r.ok)
    decreases |hooks|
  {
    hide Effect, RunsAsPromised, Handles;
    if |hooks| == 0 {
      PromiseNothing(x.ran, hooks, w, exitOnError);
    } else if !Handles(hooks[0], w) {
      RunHooksAsPromised(env, x, hooks[1..], w, id, exitOnError);
      var r := RunAll(env, x, hooks[1..], w, id, exitOnError);
      PromiseSkips(r.world.ran[|x.ran|..], hooks, w, exitOnError, r.ok);
    } else {
      var y := Invoke(env, x, hooks[0], w, id);
      InvokeLogs(env, x, hooks[0], w, id);
      if y.ok || !exitOnError {
        RunHooksAsPromised(env, y.world, hooks[1..], w, id, exitOnError);
        var r := RunAll(env, y.world, hooks[1..], w, id, exitOnError);
        PromiseAfter(x.ran, r.world.ran, hooks, w, exitOnError, r.ok, Ran(hooks[0], w, y.ok));
      } else {
        PromiseStops(x.ran, hooks, w, Ran(hooks[0], w, false));
      }
    }
  }

  lemma PromiseNothing(before: seq<Ran>, hooks: seq<Hook>, w: When, exitOnError: bool)
    requires |hooks| == 0
    ensures RunsAsPromised(before[|before|..], hooks, w, exitOnError, true)
  {
  }

  lemma PromiseSkips(log: seq<Ran>, hooks: seq<Hook>, w: When, exitOnError: bool, ok: bool)
    requires |hooks| > 0 && !Handles(hooks[0], w) && RunsAsPromised(log, hooks[1..], w, exitOnError, ok)
    ensures RunsAsPromised(log, hooks, w, exitOnError, ok)
  {
    assert [] + Handlers(hooks[1..], w) == Handlers(hooks[1..], w);
  }

  lemma PromiseStops(before: seq<Ran>, hooks: seq<Hook>, w: When, e: Ran)
    requires |hooks| > 0 && Handles(hooks[0], w) && e.hook == hooks[0] && e.w == w && !e.ok
    ensures RunsAsPromised((before + [e])[|before|..], hooks, w, true, false)
  {
    assert (before + [e])[|before|..] == [e];
  }

  lemma InvokeLogs(env: Env, x: World, hook: Hook, w: When, id: string)
    ensures var y := Invoke(env, x, hook, w, id); y.world.ran == x.ran + [Ran(hook, w, y.ok)]
  {
  }

  lemma PromiseAfter(before: seq<Ran>, all: seq<Ran>, hooks: seq<Hook>, w: When, exitOnError: bool, ok: bool, e: Ran)
    requires |hooks| > 0 && Handles(hooks[0], w) && e.hook == hooks[0] && e.w == w
    requires exitOnError ==> e.ok
    requires before + [e] <= all && RunsAsPromised(all[|before| + 1..], hooks[1..], w, exitOnError, ok)
    ensures before <= all && RunsAsPromised(all[|before|..], hooks, w, exitOnError, ok)
  {
    var l := all[|before| + 1..];
    assert all[|before|] == (before + [e])[|before|];
    assert all[|before|..] == [e] + l;
    PromiseExtends(l, hooks, w, exitOnError, ok, e);
  }

  lemma PromiseExtends(l: seq<Ran>, hooks: seq<Hook>, w: When, exitOnError: bool, ok: bool, e: Ran)
    requires |hooks| > 0 && Handles(hooks[0], w) && e.hook == hooks[0] && e.w == w
    requires exitOnError ==> e.ok
    requires RunsAsPromised(l, hooks[1..], w, exitOnError, ok)
    ensures RunsAsPromised([e] + l, hooks, w, exitOnError, ok)
  {
    var hs, gs := Handlers(hooks, w), Handlers(hooks[1..], w);
    assert hs == [hooks[0]] + gs;
    assert hs[..|l| + 1] == [hooks[0]] + gs[..|l|];
  }

  /** The sort interface of the source over the slice of hooks. */
  class Sorter {
    const hooks: array<Hook>

    constructor (hooks: array<Hook>)
      ensures this.hooks == hooks
    {
      this.hooks := hooks;
    }

    function Len(): nat {
      hooks.Length
    }

    /** Not a strict order: it holds both ways between hooks of equal priority. */
    predicate Less(i: nat, j: nat)
      requires i < hooks.Length && j < hooks.Length
      reads hooks
    {
      !(hooks[i].priority < hooks[j].priority)
    }

    method Swap(i: nat, j: nat)
      requires i < hooks.Length && j < hooks.Length
      modifies hooks
      ensures hooks[..] == old(hooks[..])[i := old(hooks[j])][j := old(hooks[i])]
    {
      hooks[i], hooks[j] := hooks[j], hooks[i];
    }
  }

  ghost predicate Descending(hs: seq<Hook>) {
    forall i, j :: 0 <= i < j < |hs| ==> hs[i].priority >= hs[j].priority
  }

  /** The hooks up to i are in order, except that the one at j may be too far back. */
  ghost predicate SortedExcept(hs: seq<Hook>, i: nat, j: nat) {
    && j <= i < |hs|
    && forall a, b :: 0 <= a < b <= i && b != j ==> hs[a].priority >= hs[b].priority
  }

  lemma SwapStep(hs: seq<Hook>, i: nat, j: nat)
    requires SortedExcept(hs, i, j) && j > 0 && hs[j].priority >= hs[j - 1].priority
    ensures SortedExcept(hs[j := hs[j - 1]][j - 1 := hs[j]], i, j - 1)
    ensures multiset(hs[j := hs[j - 1]][j - 1 := hs[j]]) == multiset(hs)
  {
  }

  lemma PlacedStep(hs: seq<Hook>, i: nat, j: nat)
    requires SortedExcept(hs, i, j)
    requires j > 0 ==> hs[j].priority < hs[j - 1].priority
    ensures Descending(hs[..i + 1])
  {
    forall a | 0 <= a < j ensures hs[a].priority >= hs[j].priority {
      if a < j - 1 {
        assert hs[a].priority >= hs[j - 1].priority;
      }
    }
  }

  /** Sorting in place through Len, Less and Swap only. Although Less is reflexive, so that
      equal priorities are swapped again and again, the loop ends and the result is sorted. */
  method Sort(s: Sorter)
    modifies s.hooks
    ensures Descending(s.hooks[..])
    ensures multiset(s.hooks[..]) == multiset(old(s.hooks[..]))
  {
    hide Descending, SortedExcept;
    NothingDescending();
    var i := 0;
    assert s.hooks[..][..0] == [];
    while i < s.Len()
      invariant 0 <= i <= s.Len()
      invariant Descending(s.hooks[..][..i])
      invariant multiset(s.hooks[..]) == multiset(old(s.hooks[..]))
    {
      var j := i;
      assert SortedExcept(s.hooks[..], i, j) by { StartExcept(s.hooks[..], i); }
      while j > 0 && s.Less(j, j - 1)
        invariant SortedExcept(s.hooks[..], i, j)
        invariant multiset(s.hooks[..]) == multiset(old(s.hooks[..]))
      {
        SwapStep(s.hooks[..], i, j);
        s.Swap(j, j - 1);
        j := j - 1;
      }
      PlacedStep(s.hooks[..], i, j);
      i := i + 1;
    }
    assert s.hooks[..][..i] == s.hooks[..];
  }

  lemma NothingDescending()
    ensures Descending([])
  {
  }

  lemma StartExcept(hs: seq<Hook>, i: nat)
    requires i < |hs| && Descending(hs[..i])
    ensures SortedExcept(hs, i, i)
  {
    forall a, b | 0 <= a < b <= i && b != i ensures hs[a].priority >= hs[b].priority {
      assert hs[a] == hs[..i][a] && hs[b] == hs[..i][b];
    }
  }

  /** The enabled ones among the given hooks. */
  function Enabled(names: set<string>, hs: seq<Hook>): seq<Hook> {
    if |hs| == 0 then []
    else (if hs[0].name in names then [hs[0]] else []) + Enabled(names, hs[1..])
  }

  lemma {:induction false} EnabledExtends(names: set<string>, a: seq<Hook>, b: seq<Hook>)
    ensures Enabled(names, a + b) == Enabled(names, a) + Enabled(names, b)
  {
    if |a| == 0 {
      assert a + b == b;
    } else {
      assert (a + b)[1..] == a[1..] + b;
      EnabledExtends(names, a[1..], b);
    }
  }

  /** A hook is among the enabled ones as often as it was given, if its name is enabled, and not
      at all otherwise. */
  lemma {:induction false} EnabledCounts(names: set<string>, hs: seq<Hook>, h: Hook)
    ensures multiset(Enabled(names, hs))[h] == if h.name in names then multiset(hs)[h] else 0
  {
    if |hs| == 0 {
    } else {
      EnabledCounts(names, hs[1..], h);
      assert hs == [hs[0]] + hs[1..];
    }
  }

  class Manager {
    const EnabledHooks: set<string>
    var Hooks: array<Hook>
    var ran: seq<Ran>
    ghost var registered: seq<Hook>

    /** The list of hooks is sorted by descending priority, and each hook is in it as often as it
        was ever registered, if it is enabled, and not at all otherwise. */
    ghost predicate Valid()
      reads this, Hooks
    {
      && Descending(Hooks[..])
      && forall h :: multiset(Hooks[..])[h] == if h.name in EnabledHooks then multiset(registered)[h] else 0
    }

    constructor (names: seq<string>)
      ensures Valid() && fresh(Hooks) && Hooks[..] == [] && registered == [] && ran == []
      ensures forall n :: n in EnabledHooks <==> n in names
    {
      EnabledHooks := set n | n in names;
      Hooks := new Hook[0];
      ran := [];
      registered := [];
    }

    method SortByPriority()
      modifies Hooks
      ensures Descending(Hooks[..]) && multiset(Hooks[..]) == multiset(old(Hooks[..]))
    {
      var hookSorter := new Sorter(Hooks);
      Sort(hookSorter);
    }

    /** The enabled hooks are appended and the whole list is sorted again. */
    method RegisterHooks(hooks: seq<Hook>)
      requires Valid()
      modifies this, Hooks
      ensures Valid() && fresh(Hooks)
      ensures registered == old(registered) + hooks && ran == old(ran)
    {
      var list := AppendEnabled(hooks);
      forall h: Hook
        ensures multiset(list)[h] == if h.name in EnabledHooks then multiset(registered + hooks)[h] else 0
      {
        EnabledCounts(EnabledHooks, hooks, h);
      }
      Hooks := FromSeq(list);
      registered := registered + hooks;
      SortByPriority();
    }

    method AppendEnabled(hooks: seq<Hook>) returns (list: seq<Hook>)
      ensures list == Hooks[..] + Enabled(EnabledHooks, hooks)
    {
      list := Hooks[..];
      assert hooks[..0] == [];
      for i := 0 to |hooks|
        invariant list == Hooks[..] + Enabled(EnabledHooks, hooks[..i])
      {
        assert hooks[..i + 1] == hooks[..i] + [hooks[i]];
        EnabledExtends(EnabledHooks, hooks[..i], [hooks[i]]);
        assert [hooks[i]][1..] == [];
        if hooks[i].name !in EnabledHooks { continue; }
        list := list + [hooks[i]];
      }
      assert hooks[..|hooks|] == hooks;
    }

    method FromSeq(list: seq<Hook>) returns (a: array<Hook>)
      ensures fresh(a) && a[..] == list
    {
      a := new Hook[|list|](i requires 0 <= i < |list| => list[i]);
    }

    /** Calls the function of a hook for w, which is not nil. */
    method Call(m: Machine, env: Env, hook: Hook, w: When, id: string) returns (ok: bool)
      requires Handles(hook, w)
      modifies m, this`ran
      ensures RunResult(World(m.State(), ran), ok) == old(Invoke(env, World(m.State(), ran), hook, w, id))
    {
      match hook.body {
        case Iptables =>
          if w == PostRun {
            ok := IptablesHook.RunPostRun(m, env, id);
          } else {
            ok := IptablesHook.RunPreStop(m, env, id);
          }
        case Acl =>
          if w == PostRun {
            ok := AclHook.RunPostRun(m, env);
          } else {
            ok := AclHook.RunPreStop(m, env);
          }
        case Other(_) =>
          ok := env.otherOk(hook.name, w, |ran|);
      }
      ran := ran + [Ran(hook, w, ok)];
    }

    /** The loop of the source, with its `continue` for nil functions and its early return. */
    method RunHooks(m: Machine, env: Env, w: When, id: string, exitOnError: bool) returns (ok: bool)
      modifies m, this`ran
      ensures RunResult(World(m.State(), ran), ok) ==
              old(RunAll(env, World(m.State(), ran), Hooks[..], w, id, exitOnError))
    {
      ghost var whole := RunAll(env, World(m.State(), ran), Hooks[..], w, id, exitOnError);
      ghost var hooks := Hooks[..];
      assert hooks[0..] == hooks;
      var i := 0;
      while i < Hooks.Length
        invariant 0 <= i <= Hooks.Length
        invariant whole == RunAll(env, World(m.State(), ran), hooks[i..], w, id, exitOnError)
      {
        assert hooks[i..][1..] == hooks[i + 1..] && hooks[i..][0] == Hooks[i];
        if !Handles(Hooks[i], w) { i := i + 1; continue; }
        ok := Call(m, env, Hooks[i], w, id);
        if !ok && exitOnError { return; }
        i := i + 1;
      }
      ok := true;
    }
  }
}
