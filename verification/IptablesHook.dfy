/** hook/iptables.go */
module IptablesHook {
  import opened GoStrings
  import opened Tables
  import opened Host
  import opened Rules

  function Nat(chain: string): ChainRef { ChainRef("nat", chain) }

  function Filter(chain: string): ChainRef { ChainRef("filter", chain) }

  function MasqueradeOf(cfg: IptablesConfig, ip: string): Emission {
    Emission(Nat(cfg.postrouting), Tokens(Masquerade(cfg.bridge, ip)))
  }

  function DnatOf(cfg: IptablesConfig, ip: string, p: PortMapping): Emission {
    Emission(Nat(cfg.prerouting), Tokens(Dnat(cfg.bridge, p.protocol, p.hostPort, ip, p.containerPort)))
  }

  function SelfMasqueradeOf(cfg: IptablesConfig, ip: string, p: PortMapping): Emission {
    Emission(Nat(cfg.postrouting), Tokens(SelfMasquerade(ip, p.protocol, p.containerPort)))
  }

  function ForwardInOf(cfg: IptablesConfig, ip: string, p: PortMapping): Emission {
    Emission(Filter(cfg.forward), Tokens(ForwardIn(ip, cfg.bridge, p.protocol, p.containerPort)))
  }

  function ForwardOutOf(cfg: IptablesConfig, ip: string, p: PortMapping): Emission {
    Emission(Filter(cfg.forward), Tokens(ForwardOut(cfg.bridge, p.protocol, ip, p.containerPort)))
  }

  function Forwards(cfg: IptablesConfig, ip: string, p: PortMapping): seq<Emission> {
    if cfg.ipForwarding then [ForwardInOf(cfg, ip, p), ForwardOutOf(cfg, ip, p)] else []
  }

  /** The rules for one address and one port mapping. */
  function PortRules(cfg: IptablesConfig, ip: string, p: PortMapping): seq<Emission> {
    (if cfg.ipMasquerading then [DnatOf(cfg, ip, p), SelfMasqueradeOf(cfg, ip, p)] else []) + Forwards(cfg, ip, p)
  }

  function PortsRules(cfg: IptablesConfig, ip: string, ports: seq<PortMapping>): seq<Emission> {
    if |ports| == 0 then [] else PortRules(cfg, ip, ports[0]) + PortsRules(cfg, ip, ports[1..])
  }

  /** The rules for one address. */
  function IpRules(cfg: IptablesConfig, ip: string, ports: seq<PortMapping>): seq<Emission> {
    (if cfg.ipMasquerading then [MasqueradeOf(cfg, ip)] else []) +
    PortsRules(cfg, ip, ports)
  }

  /** All rules of a container. */
  function IptablesRules(cfg: IptablesConfig, ips: seq<string>, ports: seq<PortMapping>): seq<Emission> {
    if |ips| == 0 then [] else IpRules(cfg, ips[0], ports) + IptablesRules(cfg, ips[1..], ports)
  }

  /** e is one of the rules that a port mapping needs for an address. */
  predicate NeededFor(cfg: IptablesConfig, ip: string, p: PortMapping, e: Emission) {
    || (cfg.ipMasquerading && (e == DnatOf(cfg, ip, p) || e == SelfMasqueradeOf(cfg, ip, p)))
    || (cfg.ipForwarding && (e == ForwardInOf(cfg, ip, p) || e == ForwardOutOf(cfg, ip, p)))
  }

  lemma {:induction false} PortsRulesIff(cfg: IptablesConfig, ip: string, ports: seq<PortMapping>, e: Emission)
    ensures e in PortsRules(cfg, ip, ports) <==> exists p :: p in ports && NeededFor(cfg, ip, p, e)
  {
    hide DnatOf, SelfMasqueradeOf, ForwardInOf, ForwardOutOf;
    if |ports| == 0 {
    } else {
      PortsRulesIff(cfg, ip, ports[1..], e);
      assert e in PortRules(cfg, ip, ports[0]) <==> NeededFor(cfg, ip, ports[0], e);
      assert ports == [ports[0]] + ports[1..];
    }
  }

  /** The rules of a container are exactly these: for every address, with masquerading, the
      masquerading of what it sends; and for every address and port mapping, with masquerading,
      the translation and the masquerading of what comes in, and, with forwarding, the
      acceptance of both directions. */
  lemma {:induction false} IptablesRulesIff(cfg: IptablesConfig, ips: seq<string>, ports: seq<PortMapping>, e: Emission)
    ensures e in IptablesRules(cfg, ips, ports) <==>
            || (cfg.ipMasquerading && exists ip :: ip in ips && e == MasqueradeOf(cfg, ip))
            || (exists ip, p :: ip in ips && p in ports && NeededFor(cfg, ip, p, e))
  {
    hide NeededFor, MasqueradeOf;
    if |ips| == 0 {
    } else {
      IptablesRulesIff(cfg, ips[1..], ports, e);
      PortsRulesIff(cfg, ips[0], ports, e);
      assert ips == [ips[0]] + ips[1..];
      assert e in IptablesRules(cfg, ips, ports) <==>
             e in IpRules(cfg, ips[0], ports) || e in IptablesRules(cfg, ips[1..], ports);
      if e in PortsRules(cfg, ips[0], ports) {
        var p :| p in ports && NeededFor(cfg, ips[0], p, e);
        assert ips[0] in ips && p in ports && NeededFor(cfg, ips[0], p, e);
      }
    }
  }

  /** The rules of an address and of one of its port mappings, in order, each with its chain and
      its literal words. */
  lemma RulesInWords(cfg: IptablesConfig, ip: string, p: PortMapping)
    requires Free(cfg.bridge, ' ') && Free(ip, ' ') && Free(p.protocol, ' ')
    ensures MasqueradeOf(cfg, ip) ==
            Emission(ChainRef("nat", cfg.postrouting),
                     ["!", "-o", cfg.bridge, "-s", ip + "/32", "-j", "MASQUERADE", "--wait"])
    ensures PortRules(cfg, ip, p) ==
            (if cfg.ipMasquerading then
               [Emission(ChainRef("nat", cfg.prerouting),
                         ["!", "-i", cfg.bridge, "-p", p.protocol, "-j", "DNAT", "--dport", Itoa(p.hostPort),
                          "--to-destination", ip + ":" + Itoa(p.containerPort), "--wait"]),
                Emission(ChainRef("nat", cfg.postrouting),
                         ["-d", ip + "/32", "-p", p.protocol, "-s", ip + "/32", "-j", "MASQUERADE",
                          "--dport", Itoa(p.containerPort), "--wait"])]
             else []) +
            (if cfg.ipForwarding then
               [Emission(ChainRef("filter", cfg.forward),
                         ["-d", ip + "/32", "!", "-i", cfg.bridge, "-o", cfg.bridge, "-p", p.protocol, "-j", "ACCEPT",
                          "--dport", Itoa(p.containerPort), "--wait"]),
                Emission(ChainRef("filter", cfg.forward),
                         ["-i", cfg.bridge, "!", "-o", cfg.bridge, "-p", p.protocol, "-s", ip + "/32", "-j", "ACCEPT",
                          "--sport", Itoa(p.containerPort), "--wait"])]
             else [])
  {
    hide Tokens;
    MasqueradeWords(cfg.bridge, ip);
    DnatWords(cfg.bridge, p.protocol, p.hostPort, ip, p.containerPort);
    SelfMasqueradeWords(ip, p.protocol, p.containerPort);
    ForwardInWords(ip, cfg.bridge, p.protocol, p.containerPort);
    ForwardOutWords(cfg.bridge, p.protocol, ip, p.containerPort);
  }

  /** The rules come address by address and, for each, mapping by mapping, each once and in
      order: the list of two lists in a row is the two lists in a row. */
  lemma {:induction false} PortsRulesConcat(cfg: IptablesConfig, ip: string, a: seq<PortMapping>, b: seq<PortMapping>)
    ensures PortsRules(cfg, ip, a + b) == PortsRules(cfg, ip, a) + PortsRules(cfg, ip, b)
  {
    hide PortRules;
    if |a| == 0 {
      assert a + b == b;
    } else {
      assert (a + b)[1..] == a[1..] + b;
      PortsRulesConcat(cfg, ip, a[1..], b);
    }
  }

  lemma {:induction false} IptablesRulesConcat(cfg: IptablesConfig, a: seq<string>, b: seq<string>,
                                               ports: seq<PortMapping>)
    ensures IptablesRules(cfg, a + b, ports) == IptablesRules(cfg, a, ports) + IptablesRules(cfg, b, ports)
  {
    hide IpRules;
    if |a| == 0 {
      assert a + b == b;
    } else {
      assert (a + b)[1..] == a[1..] + b;
      IptablesRulesConcat(cfg, a[1..], b, ports);
    }
  }

  /** And for a single address and mapping, in literal words, it is this. */
  lemma OneOfEach(cfg: IptablesConfig, ip: string, p: PortMapping, ports: seq<PortMapping>)
    requires Free(cfg.bridge, ' ') && Free(ip, ' ') && Free(p.protocol, ' ')
    ensures PortsRules(cfg, ip, []) == [] && IptablesRules(cfg, [], ports) == []
    ensures IptablesRules(cfg, [ip], ports) ==
            (if cfg.ipMasquerading then
               [Emission(ChainRef("nat", cfg.postrouting),
                         ["!", "-o", cfg.bridge, "-s", ip + "/32", "-j", "MASQUERADE", "--wait"])]
             else []) + PortsRules(cfg, ip, ports)
    ensures PortsRules(cfg, ip, [p]) == PortRules(cfg, ip, p)
  {
    hide Tokens;
    RulesInWords(cfg, ip, p);
    hide MasqueradeOf, PortRules, PortsRules;
    assert [ip][1..] == [] && IptablesRules(cfg, [], ports) == [];
    OnePort(cfg, ip, p);
  }

  lemma OnePort(cfg: IptablesConfig, ip: string, p: PortMapping)
    ensures PortsRules(cfg, ip, []) == []
    ensures PortsRules(cfg, ip, [p]) == PortRules(cfg, ip, p)
  {
    hide PortRules;
    assert [p][1..] == [];
    assert PortRules(cfg, ip, p) + [] == PortRules(cfg, ip, p);
  }

  /** All chains of the rules are among the three that are looked up. */
  lemma {:induction false} RulesInChains(cfg: IptablesConfig, ips: seq<string>, ports: seq<PortMapping>, t: Table)
    requires ChainRef("nat", cfg.prerouting) in t && ChainRef("filter", cfg.forward) in t
    requires ChainRef("nat", cfg.postrouting) in t
    ensures ChainsExist(t, IptablesRules(cfg, ips, ports))
  {
    hide Tokens;
    forall e | e in IptablesRules(cfg, ips, ports) ensures e.at in t {
      IptablesRulesIff(cfg, ips, ports, e);
    }
  }

  /** The chains that must exist, in the order in which they are looked up. */
  function Chains(cfg: IptablesConfig): seq<ChainRef> {
    [Nat(cfg.prerouting), Filter(cfg.forward), Nat(cfg.postrouting)]
  }

  /** The lookups of the first chains that can be listed, up to the first that cannot. */
  function Lookups(t: Table, ats: seq<ChainRef>, fault: nat -> bool, k: nat): Outcome {
    if |ats| == 0 then Outcome(t, k, true)
    else if fault(k) || ats[0] !in t then Outcome(t, k + 1, false)
    else Lookups(t, ats[1..], fault, k + 1)
  }

  /** generateIptables as a whole: one pass over all rules, if the three chains are there. */
  function Generated(cfg: IptablesConfig, ips: seq<string>, ports: seq<PortMapping>,
                     t: Table, action: Action, stopOnError: bool, fault: nat -> bool, k: nat): Outcome
  {
    var o := Lookups(t, Chains(cfg), fault, k);
    if o.ok then Pass(t, action, stopOnError, IptablesRules(cfg, ips, ports), fault, o.clock) else o
  }

  /** The four calls for one address and one port mapping; `goOn` is false if the pass has
      been stopped by an error. */
  method ActPort(m: Machine, cfg: IptablesConfig, ip: string, p: PortMapping,
                 action: Action, stopOnError: bool, fault: nat -> bool,
                 ghost whole: Outcome, ghost later: seq<Emission>) returns (goOn: bool)
    requires whole == Pass(m.tables, action, stopOnError, PortRules(cfg, ip, p) + later, fault, m.clock)
    modifies m`tables, m`clock
    ensures !goOn ==> whole == Outcome(m.tables, m.clock, false)
    ensures goOn ==> whole == Pass(m.tables, action, stopOnError, later, fault, m.clock)
  {
    hide Tokens;
    ghost var forwards := Forwards(cfg, ip, p) + later;
    UnfoldPort(cfg, ip, p, later);
    var ok: bool;
    if cfg.ipMasquerading {
      ok := m.Act(action, stopOnError, DnatOf(cfg, ip, p), fault, whole, [SelfMasqueradeOf(cfg, ip, p)] + forwards);
      if !ok && stopOnError { return false; }
      ok := m.Act(action, stopOnError, SelfMasqueradeOf(cfg, ip, p), fault, whole, forwards);
      if !ok && stopOnError { return false; }
    }
    if cfg.ipForwarding {
      ok := m.Act(action, stopOnError, ForwardInOf(cfg, ip, p), fault, whole, [ForwardOutOf(cfg, ip, p)] + later);
      if !ok && stopOnError { return false; }
      ok := m.Act(action, stopOnError, ForwardOutOf(cfg, ip, p), fault, whole, later);
      if !ok && stopOnError { return false; }
    }
    goOn := true;
  }

  /** The calls for one address: the inner loop over the port mappings. */
  method ActIp(m: Machine, cfg: IptablesConfig, ip: string, ports: seq<PortMapping>,
               action: Action, stopOnError: bool, fault: nat -> bool,
               ghost whole: Outcome, ghost after: seq<Emission>) returns (goOn: bool)
    requires whole == Pass(m.tables, action, stopOnError, IpRules(cfg, ip, ports) + after, fault, m.clock)
    modifies m`tables, m`clock
    ensures !goOn ==> whole == Outcome(m.tables, m.clock, false)
    ensures goOn ==> whole == Pass(m.tables, action, stopOnError, after, fault, m.clock)
  {
    hide Tokens;
    UnfoldIp(cfg, ip, ports, after);
    if cfg.ipMasquerading {
      ghost var later := PortsRules(cfg, ip, ports[0..]) + after;
      var ok := m.Act(action, stopOnError, MasqueradeOf(cfg, ip), fault, whole, later);
      if !ok && stopOnError { return false; }
    }
    var j := 0;
    while j < |ports|
      invariant 0 <= j <= |ports|
      invariant whole == Pass(m.tables, action, stopOnError, PortsRules(cfg, ip, ports[j..]) + after, fault, m.clock)
    {
      UnfoldPorts(cfg, ip, ports, j, after);
      ghost var later := PortsRules(cfg, ip, ports[j + 1..]) + after;
      goOn := ActPort(m, cfg, ip, ports[j], action, stopOnError, fault, whole, later);
      if !goOn { return; }
      j := j + 1;
    }
    assert PortsRules(cfg, ip, ports[j..]) + after == after;
    goOn := true;
  }

  /** The outer loop over the addresses. */
  method ActIps(m: Machine, cfg: IptablesConfig, ips: seq<string>, ports: seq<PortMapping>,
                action: Action, stopOnError: bool, fault: nat -> bool, ghost whole: Outcome) returns (ok: bool)
    requires whole == Pass(m.tables, action, stopOnError, IptablesRules(cfg, ips, ports), fault, m.clock)
    modifies m`tables, m`clock
    ensures Outcome(m.tables, m.clock, ok) == whole
  {
    hide Tokens;
    assert ips[0..] == ips;
    var i := 0;
    while i < |ips|
      invariant 0 <= i <= |ips|
      invariant whole == Pass(m.tables, action, stopOnError, IptablesRules(cfg, ips[i..], ports), fault, m.clock)
    {
      assert ips[i..][1..] == ips[i + 1..];
      ok := ActIp(m, cfg, ips[i], ports, action, stopOnError, fault, whole, IptablesRules(cfg, ips[i + 1..], ports));
      if !ok { return; }
      i := i + 1;
    }
    ok := true;
  }

  /** The nested loops of the source are the one pass of `Generated`: the rules of an address,
      then those of its ports, in the order of the source, with the source's early returns. */
  method GenerateIptables(m: Machine, cfg: IptablesConfig, ips: seq<string>, ports: seq<PortMapping>,
                          action: Action, stopOnError: bool, fault: nat -> bool) returns (ok: bool)
    modifies m`tables, m`clock
    ensures Outcome(m.tables, m.clock, ok) ==
            old(Generated(cfg, ips, ports, m.tables, action, stopOnError, fault, m.clock))
  {
    hide Tokens;
    ghost var whole := Generated(cfg, ips, ports, m.tables, action, stopOnError, fault, m.clock);
    LookupsUnfold(m.tables, cfg, fault, m.clock);
    ok := m.List(Nat(cfg.prerouting), fault);
    if !ok { return; }
    ok := m.List(Filter(cfg.forward), fault);
    if !ok { return; }
    ok := m.List(Nat(cfg.postrouting), fault);
    if !ok { return; }
    ok := ActIps(m, cfg, ips, ports, action, stopOnError, fault, whole);
  }

  lemma UnfoldIp(cfg: IptablesConfig, ip: string, ports: seq<PortMapping>, after: seq<Emission>)
    ensures var rest := PortsRules(cfg, ip, ports[0..]) + after;
            IpRules(cfg, ip, ports) + after == if cfg.ipMasquerading then [MasqueradeOf(cfg, ip)] + rest else rest
  {
    hide Tokens;
    assert ports[0..] == ports;
  }

  lemma UnfoldPorts(cfg: IptablesConfig, ip: string, ports: seq<PortMapping>, j: nat, after: seq<Emission>)
    requires j < |ports|
    ensures PortsRules(cfg, ip, ports[j..]) + after ==
            PortRules(cfg, ip, ports[j]) + (PortsRules(cfg, ip, ports[j + 1..]) + after)
  {
    hide Tokens;
    assert ports[j..][1..] == ports[j + 1..];
  }

  lemma UnfoldPort(cfg: IptablesConfig, ip: string, p: PortMapping, later: seq<Emission>)
    ensures var forwards := Forwards(cfg, ip, p) + later;
            && PortRules(cfg, ip, p) + later ==
               (if cfg.ipMasquerading then [DnatOf(cfg, ip, p)] + ([SelfMasqueradeOf(cfg, ip, p)] + forwards)
                else forwards)
            && forwards ==
               (if cfg.ipForwarding then [ForwardInOf(cfg, ip, p)] + ([ForwardOutOf(cfg, ip, p)] + later) else later)
  {
    hide Tokens;
  }

  lemma LookupsStep(t: Table, at: ChainRef, ats: seq<ChainRef>, fault: nat -> bool, k: nat)
    ensures Lookups(t, [at] + ats, fault, k) ==
            if fault(k) || at !in t then Outcome(t, k + 1, false) else Lookups(t, ats, fault, k + 1)
  {
    assert ([at] + ats)[1..] == ats;
  }

  lemma LookupsUnfold(t: Table, cfg: IptablesConfig, fault: nat -> bool, k: nat)
    ensures Lookups(t, Chains(cfg), fault, k) ==
            if fault(k) || Nat(cfg.prerouting) !in t then Outcome(t, k + 1, false)
            else if fault(k + 1) || Filter(cfg.forward) !in t then Outcome(t, k + 2, false)
            else if fault(k + 2) || Nat(cfg.postrouting) !in t then Outcome(t, k + 3, false)
            else Outcome(t, k + 3, true)
  {
    var c := Chains(cfg);
    assert c == [Nat(cfg.prerouting)] + [Filter(cfg.forward), Nat(cfg.postrouting)];
    assert [Filter(cfg.forward), Nat(cfg.postrouting)] == [Filter(cfg.forward)] + [Nat(cfg.postrouting)];
    assert [Nat(cfg.postrouting)] == [Nat(cfg.postrouting)] + [];
    LookupsStep(t, Nat(cfg.prerouting), [Filter(cfg.forward), Nat(cfg.postrouting)], fault, k);
    LookupsStep(t, Filter(cfg.forward), [Nat(cfg.postrouting)], fault, k + 1);
    LookupsStep(t, Nat(cfg.postrouting), [], fault, k + 2);
  }

  /** RunPostRun: the addresses are remembered before the first rule is appended. */
  function PostRunResult(env: Env, h: HostState, id: string): Result {
    var f := env.fault(PostRun);
    var h1 := h.(clock := h.clock + 1);
    if !Bridged(env.task.network) then Result(h, true)
    else if f(h.clock) || env.iptables.bridge == "" || env.ips.None? then Result(h1, false)
    else
      var o := Generated(env.iptables, env.ips.value, env.task.ports, h.tables, Append, true, f, h.clock + 1);
      Result(HostState(o.t, o.clock, h.cache[id := env.ips.value]), o.ok)
  }

  /** The three chains, asked for with calls k to k + 2. */
  predicate ChainsFound(cfg: IptablesConfig, t: Table, fault: nat -> bool, k: nat) {
    && !fault(k) && !fault(k + 1) && !fault(k + 2)
    && ChainRef("nat", cfg.prerouting) in t && ChainRef("filter", cfg.forward) in t
    && ChainRef("nat", cfg.postrouting) in t
  }

  /** The rules of the container, if its addresses are known. */
  function RulesFor(env: Env): seq<Emission> {
    if env.ips.Some? then IptablesRules(env.iptables, env.ips.value, env.task.ports) else []
  }

  /** What a post-run has done that began with call k on the tables t: on a bridged or user
      network it succeeds exactly if nothing it needs is missing and no call has a fault, and
      then all rules are appended; if it fails, a prefix of them is. On any other network it
      succeeds and does nothing. */
  ghost predicate PostRunDone(env: Env, h: HostState, id: string, g: HostState, ok: bool) {
    var f, k := env.fault(PostRun), h.clock;
    var driver := !f(k) && env.iptables.bridge != "" && env.ips.Some?;
    if env.task.network == BRIDGE || env.task.network == USER then
      && (ok <==> driver && ChainsFound(env.iptables, h.tables, f, k + 1) && NoFaults(RulesFor(env), f, k + 4))
      && (ok ==> g.tables == AddAll(h.tables, RulesFor(env)))
      && AddedSome(h.tables, g.tables, RulesFor(env))
      && g.cache == (if driver then h.cache[id := env.ips.value] else h.cache)
    else ok && g == h
  }

  lemma PostRunIsDone(env: Env, h: HostState, id: string)
    ensures var r := PostRunResult(env, h, id); PostRunDone(env, h, id, r.host, r.ok)
  {
    hide IptablesRules;
    hide ChainsFound, NoFaults, AddedSome;
    AddedNone(h.tables, RulesFor(env));
    if env.ips.Some? {
      GeneratedIsDone(env.iptables, env.ips.value, env.task.ports, h.tables, env.fault(PostRun), h.clock + 1);
    }
  }

  lemma GeneratedIsDone(cfg: IptablesConfig, ips: seq<string>, ports: seq<PortMapping>,
                        t: Table, f: nat -> bool, k: nat)
    ensures var es := IptablesRules(cfg, ips, ports);
            var o := Generated(cfg, ips, ports, t, Append, true, f, k);
            && AddedSome(t, o.t, es) && (o.ok ==> o.t == AddAll(t, es))
            && (o.ok <==> ChainsFound(cfg, t, f, k) && NoFaults(es, f, k + 3))
  {
    hide IptablesRules;
    var es := IptablesRules(cfg, ips, ports);
    LookupsUnfold(t, cfg, f, k);
    AddedNone(t, es);
    if ChainsFound(cfg, t, f, k) {
      RulesInChains(cfg, ips, ports, t);
      AppendPassOkIff(t, es, f, k + 3);
    }
  }

  method RunPostRun(m: Machine, env: Env, id: string) returns (ok: bool)
    modifies m
    ensures Result(m.State(), ok) == old(PostRunResult(env, m.State(), id))
    ensures PostRunDone(env, old(m.State()), id, m.State(), ok)
  {
    hide Tokens, PostRunDone;
    PostRunIsDone(env, m.State(), id);
    if env.task.network != BRIDGE && env.task.network != USER { return true; }
    ok := m.New(env.fault(PostRun));
    if !ok { return; }
    if env.iptables.bridge == "" { return false; }
    if env.ips.None? { return false; }
    m.cache := m.cache[id := env.ips.value];
    ok := GenerateIptables(m, env.iptables, env.ips.value, env.task.ports, Append, true, env.fault(PostRun));
  }

  /** RunPreStop: what is deleted depends on the cache, since the container has no address any
      more. */
  function PreStopResult(env: Env, h: HostState, id: string): Result {
    var f := env.fault(PreStop);
    var h1 := h.(clock := h.clock + 1);
    if env.task.network == NONE || env.task.network == HOST then Result(h, true)
    else if f(h.clock) || id !in h.cache || env.iptables.bridge == "" then Result(h1, false)
    else
      var o := Generated(env.iptables, h.cache[id], env.task.ports, h.tables, Delete, false, f, h.clock + 1);
      Result(HostState(o.t, o.clock, h.cache), o.ok)
  }

  /** What a pre-stop has done that began with call k: unless the network is none or that of the
      host, it succeeds exactly if nothing it needs is missing, whatever becomes of its deletes,
      and then those without a fault are done; if it fails, none is. */
  ghost predicate PreStopDone(env: Env, h: HostState, id: string, g: HostState, ok: bool) {
    var f, k := env.fault(PreStop), h.clock;
    if env.task.network == NONE || env.task.network == HOST then ok && g == h
    else
      && (ok <==> !f(k) && id in h.cache && env.iptables.bridge != "" &&
                  ChainsFound(env.iptables, h.tables, f, k + 1))
      && g.cache == h.cache
      && g.tables ==
         if ok then DeleteAll(h.tables, Served(IptablesRules(env.iptables, h.cache[id], env.task.ports), f, k + 4))
         else h.tables
  }

  lemma PreStopIsDone(env: Env, h: HostState, id: string)
    ensures var r := PreStopResult(env, h, id); PreStopDone(env, h, id, r.host, r.ok)
  {
    hide IptablesRules;
    var f, k := env.fault(PreStop), h.clock;
    LookupsUnfold(h.tables, env.iptables, f, k + 1);
    if id in h.cache {
      DeletePassServes(h.tables, IptablesRules(env.iptables, h.cache[id], env.task.ports), f, k + 4);
    }
  }

  method RunPreStop(m: Machine, env: Env, id: string) returns (ok: bool)
    modifies m
    ensures Result(m.State(), ok) == old(PreStopResult(env, m.State(), id))
    ensures PreStopDone(env, old(m.State()), id, m.State(), ok)
  {
    hide Tokens, PreStopDone;
    PreStopIsDone(env, m.State(), id);
    if env.task.network == NONE || env.task.network == HOST { return true; }
    ok := m.New(env.fault(PreStop));
    if !ok { return; }
    if id !in m.cache { return false; }
    if env.iptables.bridge == "" { return false; }
    ok := GenerateIptables(m, env.iptables, m.cache[id], env.task.ports, Delete, false, env.fault(PreStop));
  }
}
