/** When the ACL hooks of two executors on one host can get into each other's way, and two
    executors as a whole. */
module AclIsolation {
  import opened GoStrings
  import opened Tables
  import opened Host
  import opened Rules
  import opened HookManager
  import opened AclHook
  import opened Isolation
  import opened Restore
  import IptablesHook

  /** The label opens the port mapping for the source. */
  predicate LabelOpens(env: Env, l: Label, p: PortMapping, source: string) {
    Judge(env, l).Allow? && Judge(env, l).port == p && source in Judge(env, l).sources
  }

  /** The networks that are always allowed open every port mapping. */
  predicate DefaultOpens(env: Env, p: PortMapping, source: string) {
    p in env.task.ports && source in env.acl.defaultAllowedCIDR
  }

  /** The labels from here on, up to a malformed one, open the port mapping for the source, or
      all of them are well formed and the default does. */
  predicate Opens(env: Env, labels: seq<Label>, p: PortMapping, source: string) {
    if |labels| == 0 then DefaultOpens(env, p, source)
    else
      && !Judge(env, labels[0]).Malformed?
      && (LabelOpens(env, labels[0], p, source) || Opens(env, labels[1..], p, source))
  }

  lemma {:induction false} OpensIff(env: Env, labels: seq<Label>, p: PortMapping, source: string, n: nat)
    requires WellFormedPrefix(env, labels, n)
    ensures Opens(env, labels, p, source) <==>
            || (exists i :: 0 <= i < n && LabelOpens(env, labels[i], p, source))
            || (n == |labels| && DefaultOpens(env, p, source))
  {
    hide Judge, LabelOpens;
    if |labels| == 0 || n == 0 {
    } else {
      var t := labels[1..];
      forall i | 0 <= i < |t| ensures t[i] == labels[i + 1] {}
      assert forall i :: 0 <= i < n - 1 ==> !Judge(env, t[i]).Malformed?;
      assert n < |labels| ==> t[n - 1] == labels[n];
      OpensIff(env, t, p, source, n - 1);
      if i :| 0 <= i < n && LabelOpens(env, labels[i], p, source) {
        assert i > 0 ==> LabelOpens(env, t[i - 1], p, source);
      }
    }
  }

  lemma {:induction false} SourceRulesIff(env: Env, p: PortMapping, sources: seq<string>, e: Emission)
    ensures e in SourceRules(env, p, sources) <==> exists s :: s in sources && e == AclRule(env, p, s)
  {
    hide AclRule;
    if |sources| == 0 {
    } else {
      SourceRulesIff(env, p, sources[1..], e);
      assert sources == [sources[0]] + sources[1..];
    }
  }

  lemma {:induction false} CidrRulesIff(env: Env, cidr: string, ports: seq<PortMapping>, e: Emission)
    ensures e in CidrRules(env, cidr, ports) <==> exists p :: p in ports && e == AclRule(env, p, cidr)
  {
    hide AclRule;
    if |ports| == 0 {
    } else {
      CidrRulesIff(env, cidr, ports[1..], e);
      assert ports == [ports[0]] + ports[1..];
    }
  }

  lemma {:induction false} DefaultRulesIff(env: Env, cidrs: seq<string>, e: Emission)
    ensures e in DefaultRules(env, cidrs) <==>
            exists p, s :: p in env.task.ports && s in cidrs && e == AclRule(env, p, s)
  {
    hide AclRule;
    if |cidrs| == 0 {
    } else {
      CidrRulesIff(env, cidrs[0], env.task.ports, e);
      DefaultRulesIff(env, cidrs[1..], e);
      assert cidrs == [cidrs[0]] + cidrs[1..];
    }
  }

  lemma LabelRulesIff(env: Env, l: Label, e: Emission)
    ensures e in LabelRules(env, l) <==> exists p, s :: LabelOpens(env, l, p, s) && e == AclRule(env, p, s)
  {
    hide AclRule, Judge;
    var v := Judge(env, l);
    if v.Allow? {
      SourceRulesIff(env, v.port, v.sources, e);
      if s :| s in v.sources && e == AclRule(env, v.port, s) {
        assert LabelOpens(env, l, v.port, s);
      }
    }
  }

  /** The rules of the ACL hook are exactly those of the port mappings and sources that are
      opened. */
  lemma {:induction false} PlanRulesIff(env: Env, labels: seq<Label>, e: Emission)
    ensures e in PlanFor(env, labels).rules <==> exists p, s :: Opens(env, labels, p, s) && e == AclRule(env, p, s)
  {
    hide AclRule, Judge, LabelRules, LabelOpens;
    if |labels| == 0 {
      DefaultRulesIff(env, env.acl.defaultAllowedCIDR, e);
      if p, s :| p in env.task.ports && s in env.acl.defaultAllowedCIDR && e == AclRule(env, p, s) {
        assert Opens(env, labels, p, s);
      }
    } else if Judge(env, labels[0]).Malformed? {
    } else {
      LabelRulesIff(env, labels[0], e);
      PlanRulesIff(env, labels[1..], e);
      if p, s :| LabelOpens(env, labels[0], p, s) && e == AclRule(env, p, s) {
        assert Opens(env, labels, p, s);
      }
      if p, s :| Opens(env, labels[1..], p, s) && e == AclRule(env, p, s) {
        assert Opens(env, labels, p, s);
      }
    }
  }

  /** No space in anything the ACL rules are built from; addresses and networks have none. */
  ghost predicate AclClean(env: Env) {
    && Free(Interface(env), ' ')
    && (forall p :: p in env.task.ports ==> Free(p.protocol, ' '))
    && (forall s :: s in env.acl.defaultAllowedCIDR ==> Free(s, ' '))
    && (forall s :: Accepted(env, s) ==> Free(s, ' '))
  }

  lemma LabelOpensClean(env: Env, l: Label, p: PortMapping, source: string)
    requires AclClean(env) && LabelOpens(env, l, p, source)
    ensures p in env.task.ports && Free(source, ' ')
  {
    var ips := Split(l.value, ',');
    ParseIPsIff(env, ips);
    var sources := ParseIPs(env, ips).value;
    var i :| 0 <= i < |sources| && sources[i] == source;
    assert Accepted(env, ips[i]);
    assert Free("/32", ' ');
  }

  lemma {:induction false} OpensClean(env: Env, labels: seq<Label>, p: PortMapping, source: string)
    requires AclClean(env) && Opens(env, labels, p, source)
    ensures p in env.task.ports && Free(source, ' ')
  {
    hide Judge, LabelOpens;
    if |labels| == 0 {
    } else if LabelOpens(env, labels[0], p, source) {
      LabelOpensClean(env, labels[0], p, source);
    } else {
      OpensClean(env, labels[1..], p, source);
    }
  }

  /** Two port mappings and sources give the same rule exactly if chain, interface, protocol,
      source and host port agree. */
  lemma SameAclRuleIff(a: Env, p: PortMapping, s: string, b: Env, q: PortMapping, t: string)
    requires Free(Interface(a), ' ') && Free(p.protocol, ' ') && Free(s, ' ')
    requires Free(Interface(b), ' ') && Free(q.protocol, ' ') && Free(t, ' ')
    ensures AclRule(a, p, s) == AclRule(b, q, t) <==>
            && At(a) == At(b) && Interface(a) == Interface(b)
            && p.protocol == q.protocol && s == t && p.hostPort == q.hostPort
  {
    var r1 := Rule.Acl(Interface(a), p.protocol, s, p.hostPort);
    var r2 := Rule.Acl(Interface(b), q.protocol, t, q.hostPort);
    RuleClean(r1);
    RuleClean(r2);
    hide Tokens, Clean;
    if AclRule(a, p, s) == AclRule(b, q, t) {
      TokensInjective(r1, r2);
    }
  }

  /** Both tasks open the same port of the host for the same source. */
  ghost predicate OpenTheSame(a: Env, b: Env) {
    exists p, q, s ::
      && Opens(a, a.task.labels, p, s) && Opens(b, b.task.labels, q, s)
      && p.protocol == q.protocol && p.hostPort == q.hostPort
  }

  /** Exactly when the ACL hooks of two executors have a rule in common: they use the same chain
      and interface and open the same protocol and host port for the same source. */
  lemma AclClashIff(a: Env, b: Env)
    requires AclClean(a) && AclClean(b)
    ensures (exists e :: e in PlanFor(a, a.task.labels).rules && e in PlanFor(b, b.task.labels).rules) <==>
            At(a) == At(b) && Interface(a) == Interface(b) && OpenTheSame(a, b)
  {
    var ra, rb := PlanFor(a, a.task.labels).rules, PlanFor(b, b.task.labels).rules;
    hide PlanFor, Opens, AclRule, Interface, At;
    if e :| e in ra && e in rb {
      CommonRule(a, b, e);
    }
    if At(a) == At(b) && Interface(a) == Interface(b) && OpenTheSame(a, b) {
      var p, q, s :| Opens(a, a.task.labels, p, s) && Opens(b, b.task.labels, q, s)
                     && p.protocol == q.protocol && p.hostPort == q.hostPort;
      OpensClean(a, a.task.labels, p, s);
      OpensClean(b, b.task.labels, q, s);
      SameAclRuleIff(a, p, s, b, q, s);
      PlanRulesIff(a, a.task.labels, AclRule(a, p, s));
      PlanRulesIff(b, b.task.labels, AclRule(b, q, s));
      assert AclRule(a, p, s) in ra && AclRule(a, p, s) in rb;
    }
  }

  lemma CommonRule(a: Env, b: Env, e: Emission)
    requires AclClean(a) && AclClean(b)
    requires e in PlanFor(a, a.task.labels).rules && e in PlanFor(b, b.task.labels).rules
    ensures At(a) == At(b) && Interface(a) == Interface(b) && OpenTheSame(a, b)
  {
    hide PlanFor, Opens, AclRule, Interface, At;
    PlanRulesIff(a, a.task.labels, e);
    PlanRulesIff(b, b.task.labels, e);
    var p, s :| Opens(a, a.task.labels, p, s) && e == AclRule(a, p, s);
    var q, t :| Opens(b, b.task.labels, q, t) && e == AclRule(b, q, t);
    OpensClean(a, a.task.labels, p, s);
    OpensClean(b, b.task.labels, q, t);
    SameAclRuleIff(a, p, s, b, q, t);
  }

  /** No port of the one has both the protocol and the host port of a port of the other. */
  predicate PortsApart(a: Env, b: Env) {
    forall p, q :: p in a.task.ports && q in b.task.ports ==> p.protocol != q.protocol || p.hostPort != q.hostPort
  }

  /** Then the ACL hooks have no rule in common, whatever the labels and the configuration. */
  lemma PortsApartDisjoint(a: Env, b: Env)
    requires AclClean(a) && AclClean(b) && PortsApart(a, b)
    ensures forall e :: e in PlanFor(a, a.task.labels).rules ==> e !in PlanFor(b, b.task.labels).rules
  {
    AclClashIff(a, b);
    hide PlanFor, Opens, Interface, At;
    if OpenTheSame(a, b) {
      var p, q, s :| Opens(a, a.task.labels, p, s) && Opens(b, b.task.labels, q, s)
                     && p.protocol == q.protocol && p.hostPort == q.hostPort;
      OpensClean(a, a.task.labels, p, s);
      OpensClean(b, b.task.labels, q, s);
      assert false;
    }
  }

  /** Two executors whose containers have different addresses and whose ports are apart. */
  ghost predicate Apart(a: Env, b: Env) {
    && AclClean(a) && AclClean(b) && PortsApart(a, b)
    && (a.ips.Some? ==> CleanInputs(a.iptables, a.ips.value, a.task.ports))
    && (b.ips.Some? ==> CleanInputs(b.iptables, b.ips.value, b.task.ports))
    && (a.ips.Some? && b.ips.Some? ==> forall ip :: ip in a.ips.value ==> ip !in b.ips.value)
  }

  lemma AclRuleIsAcl(env: Env, e: Emission) returns (r: Rule)
    requires AclClean(env) && e in PlanFor(env, env.task.labels).rules
    ensures Clean(r) && r.Acl? && e.rule == Tokens(r)
  {
    hide PlanFor, Opens, Tokens, Clean;
    PlanRulesIff(env, env.task.labels, e);
    var p, s :| Opens(env, env.task.labels, p, s) && e == AclRule(env, p, s);
    OpensClean(env, env.task.labels, p, s);
    r := Rule.Acl(Interface(env), p.protocol, s, p.hostPort);
    RuleClean(r);
  }

  /** A rule of the iptables hook is none of an ACL hook. */
  lemma KindsDisjoint(cfg: IptablesConfig, ips: seq<string>, ports: seq<PortMapping>, env: Env, e: Emission)
    requires CleanInputs(cfg, ips, ports) && AclClean(env)
    requires e in IptablesHook.IptablesRules(cfg, ips, ports)
    ensures e !in PlanFor(env, env.task.labels).rules
  {
    hide IptablesHook.IptablesRules, PlanFor, Tokens, Clean, CleanInputs, AclClean;
    if e in PlanFor(env, env.task.labels).rules {
      var ip := IptablesRulesAbout(cfg, ips, ports, e);
      var q := AclRuleIsAcl(env, e);
      var r :| Clean(r) && !r.Acl? && e.rule == Tokens(r) && IpOf(r) == ip;
      TokensInjective(r, q);
      assert false;
    }
  }

  /** Each rule of a list of hooks is of the one or the other kind. */
  lemma {:induction false} AllRulesAre(env: Env, hooks: seq<Hook>, e: Emission)
    requires e in AllRules(env, hooks)
    ensures || (env.ips.Some? && e in IptablesHook.IptablesRules(env.iptables, env.ips.value, env.task.ports))
            || e in PlanFor(env, env.task.labels).rules
  {
    hide IptablesHook.IptablesRules, PlanFor;
    if e in HookRules(env, hooks[0]) {
    } else {
      AllRulesAre(env, hooks[1..], e);
    }
  }

  /** Then they have no rule in common, whatever hooks they have. */
  lemma ApartShareNoRule(a: Env, hooksA: seq<Hook>, b: Env, hooksB: seq<Hook>)
    requires Apart(a, b)
    ensures forall e :: e in AllRules(a, hooksA) ==> e !in AllRules(b, hooksB)
  {
    hide IptablesHook.IptablesRules, PlanFor, AllRules, CleanInputs, AclClean, PortsApart;
    PortsApartDisjoint(a, b);
    forall e | e in AllRules(a, hooksA) ensures e !in AllRules(b, hooksB) {
      AllRulesAre(a, hooksA, e);
      if e in AllRules(b, hooksB) {
        AllRulesAre(b, hooksB, e);
        NoCommonRule(a, b, e);
      }
    }
  }

  lemma NoCommonRule(a: Env, b: Env, e: Emission)
    requires Apart(a, b)
    requires || (a.ips.Some? && e in IptablesHook.IptablesRules(a.iptables, a.ips.value, a.task.ports))
             || e in PlanFor(a, a.task.labels).rules
    ensures b.ips.Some? ==> e !in IptablesHook.IptablesRules(b.iptables, b.ips.value, b.task.ports)
    ensures e !in PlanFor(b, b.task.labels).rules
  {
    hide IptablesHook.IptablesRules, PlanFor, CleanInputs, AclClean, PortsApart;
    PortsApartDisjoint(a, b);
    if a.ips.Some? && e in IptablesHook.IptablesRules(a.iptables, a.ips.value, a.task.ports) {
      KindsDisjoint(a.iptables, a.ips.value, a.task.ports, b, e);
      if b.ips.Some? {
        DifferentIpsDisjoint(a.iptables, a.ips.value, a.task.ports, b.iptables, b.ips.value, b.task.ports);
      }
    } else if b.ips.Some? && e in IptablesHook.IptablesRules(b.iptables, b.ips.value, b.task.ports) {
      KindsDisjoint(b.iptables, b.ips.value, b.task.ports, a, e);
    }
  }

  /** Non-interference of two executors as a whole, ACL hooks included: under any interleaving of
      their calls, the tables without the rules of the one and the results of the other's calls
      are as if the other were alone. */
  lemma ApartDoNotInterfere(t: Table, ops: seq<Op>, a: Env, hooksA: seq<Hook>, b: Env, hooksB: seq<Hook>)
    requires Apart(a, b)
    requires forall i :: 0 <= i < |ops| ==> ops[i].e in if ops[i].mine then AllRules(a, hooksA) else AllRules(b, hooksB)
    ensures var own := set e | e in AllRules(a, hooksA);
            && Without(Play(t, ops), own) == Play(Without(t, own), Side(ops, false))
            && SideSucceeds(t, ops, false) == SideSucceeds(Without(t, own), Side(ops, false), false)
  {
    hide *;
    ApartShareNoRule(a, hooksA, b, hooksB);
    OthersUndisturbed(t, ops, set e | e in AllRules(a, hooksA), true);
  }

  /** And no trace: when the calls of the one are its appends, however far they got, and all its
      deletes, the tables are in the end what the other alone would have made of them; when
      that holds for both, they are as in the beginning. */
  lemma ApartLeaveNoTrace(t: Table, ops: seq<Op>, a: Env, hooksA: seq<Hook>, b: Env, hooksB: seq<Hook>)
    requires Apart(a, b)
    requires Fresh(t, AllRules(a, hooksA)) && Lifetime(Side(ops, true), AllRules(a, hooksA), true)
    requires forall i :: 0 <= i < |ops| && !ops[i].mine ==> ops[i].e in AllRules(b, hooksB)
    ensures Play(t, ops) == Play(t, Side(ops, false))
    ensures var rb := AllRules(b, hooksB);
            Fresh(t, rb) && Lifetime(Side(ops, false), rb, false) ==> Play(t, ops) == t
  {
    hide *;
    ApartShareNoRule(a, hooksA, b, hooksB);
    AsIfAlone(t, ops, AllRules(a, hooksA));
    var rb := AllRules(b, hooksB);
    if Fresh(t, rb) && Lifetime(Side(ops, false), rb, false) {
      LifetimeAlone(t, Side(ops, false), rb, false);
    }
  }
}
