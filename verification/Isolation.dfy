/** Two executors that share the tables of one host. */
module Isolation {
  import opened GoStrings
  import opened Tables
  import opened Host
  import opened Rules
  import opened IptablesHook

  /** One driver call of one of the two executors; a fault makes it fail. */
  datatype Op = Op(mine: bool, action: Action, e: Emission, fault: bool)

  predicate Succeeds(t: Table, op: Op) {
    !op.fault && Works(t, op.action, op.e)
  }

  function Step(t: Table, op: Op): (r: Table)
    ensures r.Keys == t.Keys
  {
    if Succeeds(t, op) then Worked(t, op.action, op.e) else t
  }

  /** The table after an interleaving of calls. */
  function Play(t: Table, ops: seq<Op>): Table
    decreases |ops|
  {
    if |ops| == 0 then t else Play(Step(t, ops[0]), ops[1..])
  }

  /** The calls of one side, in order, and whether each of them succeeds when the
      interleaving starts from t. */
  function Side(ops: seq<Op>, mine: bool): seq<Op> {
    if |ops| == 0 then [] else (if ops[0].mine == mine then [ops[0]] else []) + Side(ops[1..], mine)
  }

  function SideSucceeds(t: Table, ops: seq<Op>, mine: bool): seq<bool>
    decreases |ops|
  {
    if |ops| == 0 then []
    else (if ops[0].mine == mine then [Succeeds(t, ops[0])] else []) + SideSucceeds(Step(t, ops[0]), ops[1..], mine)
  }

  /** A chain without the rules of `own`. */
  function Strip(s: seq<Words>, at: ChainRef, own: set<Emission>): seq<Words> {
    if |s| == 0 then []
    else (if Emission(at, s[0]) in own then [] else [s[0]]) + Strip(s[1..], at, own)
  }

  function Without(t: Table, own: set<Emission>): (r: Table)
    ensures r.Keys == t.Keys
    ensures forall at :: at in t ==> r[at] == Strip(t[at], at, own)
  {
    map at | at in t :: Strip(t[at], at, own)
  }

  lemma {:induction false} StripAppend(s: seq<Words>, r: Words, at: ChainRef, own: set<Emission>)
    ensures Strip(s + [r], at, own) ==
            if Emission(at, r) in own then Strip(s, at, own) else Strip(s, at, own) + [r]
  {
    if |s| == 0 {
      assert s + [r] == [r];
    } else {
      assert (s + [r])[1..] == s[1..] + [r];
      StripAppend(s[1..], r, at, own);
    }
  }

  lemma StripCons(x: Words, s: seq<Words>, at: ChainRef, own: set<Emission>)
    ensures Strip([x] + s, at, own) ==
            if Emission(at, x) in own then Strip(s, at, own) else [x] + Strip(s, at, own)
  {
    assert ([x] + s)[1..] == s;
  }

  lemma {:induction false} StripRemove(s: seq<Words>, r: Words, at: ChainRef, own: set<Emission>)
    ensures Strip(RemoveFirst(s, r), at, own) ==
            if Emission(at, r) in own then Strip(s, at, own) else RemoveFirst(Strip(s, at, own), r)
    ensures Emission(at, r) !in own ==> (r in Strip(s, at, own) <==> r in s)
  {
    if |s| == 0 {
    } else {
      StripRemove(s[1..], r, at, own);
      assert s == [s[0]] + s[1..];
      RemoveFirstCons(s[0], s[1..], r);
      RemoveFirstCons(s[0], Strip(s[1..], at, own), r);
      StripCons(s[0], s[1..], at, own);
      StripCons(s[0], RemoveFirst(s[1..], r), at, own);
    }
  }

  /** A call for one of its own rules does not change what is left without them. */
  lemma OwnStep(t: Table, op: Op, own: set<Emission>)
    requires op.e in own
    ensures Without(Step(t, op), own) == Without(t, own)
  {
    var u := Step(t, op);
    forall at | at in t ensures Strip(u[at], at, own) == Strip(t[at], at, own) {
      StripAppend(t[at], op.e.rule, at, own);
      StripRemove(t[at], op.e.rule, at, own);
    }
    assert Without(u, own).Keys == Without(t, own).Keys;
  }

  /** A call for a foreign rule does the same with and without the own rules around. */
  lemma ForeignStep(t: Table, op: Op, own: set<Emission>)
    requires op.e !in own
    ensures Succeeds(Without(t, own), op) == Succeeds(t, op)
    ensures Without(Step(t, op), own) == Step(Without(t, own), op)
  {
    var at := op.e.at;
    if at in t {
      StripAppend(t[at], op.e.rule, at, own);
      StripRemove(t[at], op.e.rule, at, own);
    }
    var u, v := Without(Step(t, op), own), Step(Without(t, own), op);
    assert u.Keys == v.Keys;
    forall x | x in t ensures u[x] == v[x] {}
  }

  /** Under any interleaving the part of the tables without the rules of one side develops
      exactly as if the other side were alone, call by call and with the same results. */
  lemma {:induction false} OthersUndisturbed(t: Table, ops: seq<Op>, own: set<Emission>, mine: bool)
    requires forall i :: 0 <= i < |ops| ==> (ops[i].mine == mine <==> ops[i].e in own)
    ensures Without(Play(t, ops), own) == Play(Without(t, own), Side(ops, !mine))
    ensures SideSucceeds(t, ops, !mine) == SideSucceeds(Without(t, own), Side(ops, !mine), !mine)
    decreases |ops|
  {
    if |ops| == 0 {
    } else {
      var op := ops[0];
      OthersUndisturbed(Step(t, op), ops[1..], own, mine);
      if op.mine == mine {
        OwnStep(t, op, own);
        assert Side(ops, !mine) == Side(ops[1..], !mine);
      } else {
        ForeignStep(t, op, own);
        assert Side(ops, !mine)[1..] == Side(ops[1..], !mine);
      }
    }
  }

  /** The driver calls of a pass, each with its fault. */
  function Calls(es: seq<Emission>, action: Action, fault: nat -> bool, k: nat, mine: bool): seq<Op> {
    if |es| == 0 then [] else [Op(mine, action, es[0], fault(k))] + Calls(es[1..], action, fault, k + 1, mine)
  }

  /** A pass of a hook is such a series of calls, for a prefix of its rules. */
  lemma {:induction false} PassIsPlay(t: Table, action: Action, stop: bool, es: seq<Emission>,
                                      fault: nat -> bool, k: nat, mine: bool) returns (n: nat)
    ensures n <= |es| && (!stop ==> n == |es|)
    ensures Pass(t, action, stop, es, fault, k).t == Play(t, Calls(es[..n], action, fault, k, mine))
    decreases |es|
  {
    if |es| == 0 {
      n := 0;
    } else {
      var op := Op(mine, action, es[0], fault(k));
      var m := 0;
      if Succeeds(t, op) || !stop {
        m := PassIsPlay(Step(t, op), action, stop, es[1..], fault, k + 1, mine);
      }
      n := m + 1;
      assert es[..n] == [es[0]] + es[1..][..m];
      assert es[..n][1..] == es[1..][..m];
      var rest := Calls(es[1..][..m], action, fault, k + 1, mine);
      assert Calls(es[..n], action, fault, k, mine) == [op] + rest;
      assert ([op] + rest)[1..] == rest;
    }
  }

  /** A pass for own rules, with any faults, leaves the exact sequence of all other rules of
      every chain. */
  lemma {:induction false} PassLeavesForeign(t: Table, action: Action, stop: bool, es: seq<Emission>,
                                             fault: nat -> bool, k: nat, own: set<Emission>)
    requires forall e :: e in es ==> e in own
    ensures Without(Pass(t, action, stop, es, fault, k).t, own) == Without(t, own)
    decreases |es|
  {
    if |es| == 0 {
    } else {
      var op := Op(true, action, es[0], fault(k));
      OwnStep(t, op, own);
      if Succeeds(t, op) || !stop {
        PassLeavesForeign(Step(t, op), action, stop, es[1..], fault, k + 1, own);
      }
    }
  }

  lemma {:induction false} PlayConcat(t: Table, a: seq<Op>, b: seq<Op>)
    ensures Play(t, a + b) == Play(Play(t, a), b)
    decreases |a|
  {
    if |a| == 0 {
      assert a + b == b;
    } else {
      assert (a + b)[1..] == a[1..] + b;
      PlayConcat(Step(t, a[0]), a[1..], b);
    }
  }

  /** Appends with faults append some of their rules, in order. */
  lemma {:induction false} AppendsPlay(t: Table, es: seq<Emission>, fault: nat -> bool, k: nat, mine: bool)
    returns (a: seq<Emission>)
    ensures Play(t, Calls(es, Append, fault, k, mine)) == AddAll(t, a)
    ensures ChainsExist(t, a) && multiset(a) <= multiset(es)
    decreases |es|
  {
    if |es| == 0 {
      a := [];
      AddNothing(t);
    } else {
      var op := Op(mine, Append, es[0], fault(k));
      var rest := Calls(es[1..], Append, fault, k + 1, mine);
      assert ([op] + rest)[1..] == rest;
      a := AppendsPlay(Step(t, op), es[1..], fault, k + 1, mine);
      assert es == [es[0]] + es[1..];
      if Succeeds(t, op) {
        AddFirst(t, es[0], a);
        a := [es[0]] + a;
      }
    }
  }

  /** Deletes without faults are the deletes of the table model. */
  lemma {:induction false} DeletesPlay(t: Table, es: seq<Emission>, fault: nat -> bool, k: nat, mine: bool)
    requires forall i :: k <= i ==> !fault(i)
    ensures Play(t, Calls(es, Delete, fault, k, mine)) == DeleteAll(t, es)
    decreases |es|
  {
    if |es| == 0 {
    } else {
      var op := Op(mine, Delete, es[0], fault(k));
      var rest := Calls(es[1..], Delete, fault, k + 1, mine);
      assert ([op] + rest)[1..] == rest;
      DeletesPlay(Step(t, op), es[1..], fault, k + 1, mine);
    }
  }

  /** The calls of one side are an append pass that got to its n-th rule, with any faults on
      the way, and then the whole delete pass, whose calls have no faults. */
  ghost predicate Lifetime(calls: seq<Op>, es: seq<Emission>, mine: bool) {
    exists n: nat, fault: nat -> bool, quiet: nat -> bool, k: nat, j: nat ::
      && n <= |es|
      && (forall i :: j <= i ==> !quiet(i))
      && calls == Calls(es[..n], Append, fault, k, mine) + Calls(es, Delete, quiet, j, mine)
  }

  /** Alone, such a life leaves the tables as they were. */
  lemma LifetimeAlone(t: Table, calls: seq<Op>, es: seq<Emission>, mine: bool)
    requires Lifetime(calls, es, mine) && Fresh(t, es)
    ensures Play(t, calls) == t
  {
    var n: nat, fault: nat -> bool, quiet: nat -> bool, k: nat, j: nat :|
      && n <= |es|
      && (forall i :: j <= i ==> !quiet(i))
      && calls == Calls(es[..n], Append, fault, k, mine) + Calls(es, Delete, quiet, j, mine);
    PlayConcat(t, Calls(es[..n], Append, fault, k, mine), Calls(es, Delete, quiet, j, mine));
    var a := AppendsPlay(t, es[..n], fault, k, mine);
    DeletesPlay(AddAll(t, a), es, quiet, j, mine);
    PrefixWithin(es, n);
    DeleteUndoesAdd(t, a, es);
  }

  lemma {:induction false} CallsAre(es: seq<Emission>, action: Action, fault: nat -> bool, k: nat, mine: bool)
    ensures forall op :: op in Calls(es, action, fault, k, mine) ==> op.mine == mine && op.e in es
  {
    if |es| == 0 {
    } else {
      CallsAre(es[1..], action, fault, k + 1, mine);
    }
  }

  lemma LifetimeCalls(calls: seq<Op>, es: seq<Emission>, mine: bool)
    requires Lifetime(calls, es, mine)
    ensures forall op :: op in calls ==> op.e in es
  {
    var n: nat, fault: nat -> bool, quiet: nat -> bool, k: nat, j: nat :|
      && n <= |es|
      && (forall i :: j <= i ==> !quiet(i))
      && calls == Calls(es[..n], Append, fault, k, mine) + Calls(es, Delete, quiet, j, mine);
    CallsAre(es[..n], Append, fault, k, mine);
    CallsAre(es, Delete, quiet, j, mine);
  }

  lemma {:induction false} SideHas(ops: seq<Op>, mine: bool)
    ensures forall i :: 0 <= i < |ops| && ops[i].mine == mine ==> ops[i] in Side(ops, mine)
  {
    if |ops| == 0 {
    } else {
      SideHas(ops[1..], mine);
      forall i | 0 <= i < |ops| && ops[i].mine == mine ensures ops[i] in Side(ops, mine) {
        if i > 0 {
          assert ops[i] == ops[1..][i - 1];
        }
      }
    }
  }

  lemma {:induction false} StripAll(s: seq<Words>, at: ChainRef, own: set<Emission>)
    ensures Strip(s, at, own) == [] <==> forall r :: r in s ==> Emission(at, r) in own
    ensures Strip(s, at, own) == s <==> forall r :: r in s ==> Emission(at, r) !in own
    ensures |Strip(s, at, own)| <= |s|
  {
    if |s| == 0 {
    } else {
      StripAll(s[1..], at, own);
      assert s == [s[0]] + s[1..];
      var rest := Strip(s[1..], at, own);
      assert ([s[0]] + rest)[1..] == rest;
    }
  }

  lemma FreshIsWithout(t: Table, es: seq<Emission>)
    ensures Fresh(t, es) <==> Without(t, set e | e in es) == t
  {
    var own := set e | e in es;
    forall at | at in t ensures Strip(t[at], at, own) == t[at] <==> forall r :: r in t[at] ==> Emission(at, r) !in es {
      StripAll(t[at], at, own);
    }
    if Fresh(t, es) {
      forall at | at in t ensures Without(t, own)[at] == t[at] {
        forall r | r in t[at] ensures Emission(at, r) !in es {
          assert Holds(t, Emission(at, r));
        }
      }
    }
  }

  /** Everything that is in a table. */
  function Contents(t: Table): set<Emission> {
    set at, r | at in t && r in t[at] :: Emission(at, r)
  }

  lemma InContents(t: Table, e: Emission)
    ensures e in Contents(t) <==> Holds(t, e)
  {
  }

  /** The rules of the others: what was there before, and what they call for. */
  function Foreign(t: Table, ops: seq<Op>): set<Emission> {
    Contents(t) + set op | op in ops && !op.mine :: op.e
  }

  /** After its life among any other calls for other rules, nothing of it is left. */
  lemma NothingLeft(t: Table, ops: seq<Op>, es: seq<Emission>)
    requires Fresh(t, es) && Lifetime(Side(ops, true), es, true)
    requires forall i :: 0 <= i < |ops| ==> (ops[i].mine <==> ops[i].e in es)
    ensures Fresh(Play(t, ops), es)
  {
    var foreign := Foreign(t, ops);
    forall i | 0 <= i < |ops| ensures !ops[i].mine <==> ops[i].e in foreign {
      InContents(t, ops[i].e);
    }
    OthersUndisturbed(t, ops, foreign, false);
    var z, u := Without(t, foreign), Play(t, ops);
    forall at | at in t ensures z[at] == [] {
      StripAll(t[at], at, foreign);
    }
    LifetimeAlone(z, Side(ops, true), es, true);
    forall e | e in es ensures !Holds(u, e) {
      if Holds(u, e) {
        StripAll(u[e.at], e.at, foreign);
        assert Without(u, foreign)[e.at] == [];
        assert e in foreign;
        NotForeign(t, ops, es, e);
      }
    }
  }

  lemma NotForeign(t: Table, ops: seq<Op>, es: seq<Emission>, e: Emission)
    requires Fresh(t, es) && e in es
    requires forall i :: 0 <= i < |ops| ==> (ops[i].mine <==> ops[i].e in es)
    ensures e !in Foreign(t, ops)
  {
    InContents(t, e);
  }

  /** The life of one side, from a table without its rules and interleaved anyhow with calls for
      other rules, leaves exactly what those calls alone would have left. */
  lemma AsIfAlone(t: Table, ops: seq<Op>, es: seq<Emission>)
    requires Fresh(t, es) && Lifetime(Side(ops, true), es, true)
    requires forall i :: 0 <= i < |ops| && !ops[i].mine ==> ops[i].e !in es
    ensures Play(t, ops) == Play(t, Side(ops, false))
  {
    LifetimeCalls(Side(ops, true), es, true);
    SideHas(ops, true);
    NothingLeft(t, ops, es);
    FreshIsWithout(t, es);
    FreshIsWithout(Play(t, ops), es);
    OthersUndisturbed(t, ops, set e | e in es, true);
  }

  /** The container address a rule of the iptables hook is about. */
  function IpOf(r: Rule): string {
    match r
    case Dnat(_, _, _, ip, _) => ip
    case Masquerade(_, ip) => ip
    case SelfMasquerade(ip, _, _) => ip
    case ForwardIn(ip, _, _, _) => ip
    case ForwardOut(_, _, ip, _) => ip
    case Acl(_, _, cidr, _) => cidr
  }

  /** No space in the names the rules are built from. */
  ghost predicate CleanInputs(cfg: IptablesConfig, ips: seq<string>, ports: seq<PortMapping>) {
    && Free(cfg.bridge, ' ')
    && (forall ip :: ip in ips ==> Free(ip, ' '))
    && (forall p :: p in ports ==> Free(p.protocol, ' '))
  }

  /** e encodes a clean rule of the iptables hook about ip. */
  ghost predicate About(e: Emission, ip: string) {
    exists r :: Clean(r) && !r.Acl? && e.rule == Tokens(r) && IpOf(r) == ip
  }

  lemma IsAbout(e: Emission, r: Rule)
    requires Clean(r) && !r.Acl? && e.rule == Tokens(r)
    ensures About(e, IpOf(r))
  {
  }

  lemma PortRulesAbout(cfg: IptablesConfig, ip: string, p: PortMapping, e: Emission)
    requires Free(cfg.bridge, ' ') && Free(ip, ' ') && Free(p.protocol, ' ')
    requires e in PortRules(cfg, ip, p)
    ensures About(e, ip)
  {
    hide Tokens, Clean;
    var r1 := Dnat(cfg.bridge, p.protocol, p.hostPort, ip, p.containerPort);
    var r2 := SelfMasquerade(ip, p.protocol, p.containerPort);
    var r3 := ForwardIn(ip, cfg.bridge, p.protocol, p.containerPort);
    var r4 := ForwardOut(cfg.bridge, p.protocol, ip, p.containerPort);
    RuleClean(r1);
    RuleClean(r2);
    RuleClean(r3);
    RuleClean(r4);
    var r := if e == DnatOf(cfg, ip, p) then r1 else if e == SelfMasqueradeOf(cfg, ip, p) then r2
             else if e == ForwardInOf(cfg, ip, p) then r3 else r4;
    IsAbout(e, r);
  }

  lemma {:induction false} PortsRulesAbout(cfg: IptablesConfig, ip: string, ports: seq<PortMapping>, e: Emission)
    requires Free(cfg.bridge, ' ') && Free(ip, ' ') && (forall p :: p in ports ==> Free(p.protocol, ' '))
    requires e in PortsRules(cfg, ip, ports)
    ensures About(e, ip)
  {
    hide Tokens, Clean, About;
    if e in PortRules(cfg, ip, ports[0]) {
      PortRulesAbout(cfg, ip, ports[0], e);
    } else {
      PortsRulesAbout(cfg, ip, ports[1..], e);
    }
  }

  /** Every rule of a container is about one of its addresses. */
  lemma {:induction false} IptablesRulesAbout(cfg: IptablesConfig, ips: seq<string>,
                                              ports: seq<PortMapping>, e: Emission)
    returns (ip: string)
    requires CleanInputs(cfg, ips, ports) && e in IptablesRules(cfg, ips, ports)
    ensures ip in ips && About(e, ip)
  {
    hide Tokens, Clean, About;
    if e in IpRules(cfg, ips[0], ports) {
      ip := ips[0];
      if e in PortsRules(cfg, ip, ports) {
        PortsRulesAbout(cfg, ip, ports, e);
      } else {
        RuleClean(Masquerade(cfg.bridge, ip));
        IsAbout(e, Masquerade(cfg.bridge, ip));
      }
    } else {
      ip := IptablesRulesAbout(cfg, ips[1..], ports, e);
    }
  }

  lemma AboutOne(e: Emission, ip: string, other: string)
    requires About(e, ip) && About(e, other)
    ensures ip == other
  {
    hide Tokens, Clean;
    var r :| Clean(r) && !r.Acl? && e.rule == Tokens(r) && IpOf(r) == ip;
    var q :| Clean(q) && !q.Acl? && e.rule == Tokens(q) && IpOf(q) == other;
    TokensInjective(r, q);
  }

  /** Containers with different addresses have no rule in common, whatever their ports and
      configurations. */
  lemma DifferentIpsDisjoint(cfgA: IptablesConfig, ipsA: seq<string>, portsA: seq<PortMapping>,
                             cfgB: IptablesConfig, ipsB: seq<string>, portsB: seq<PortMapping>)
    requires CleanInputs(cfgA, ipsA, portsA) && CleanInputs(cfgB, ipsB, portsB)
    requires forall ip :: ip in ipsA ==> ip !in ipsB
    ensures forall e :: e in IptablesRules(cfgA, ipsA, portsA) ==> e !in IptablesRules(cfgB, ipsB, portsB)
  {
    hide *;
    forall e | e in IptablesRules(cfgA, ipsA, portsA) ensures e !in IptablesRules(cfgB, ipsB, portsB) {
      if e in IptablesRules(cfgB, ipsB, portsB) {
        var a := IptablesRulesAbout(cfgA, ipsA, portsA, e);
        var b := IptablesRulesAbout(cfgB, ipsB, portsB, e);
        AboutOne(e, a, b);
      }
    }
  }

  /** Non-interference: any interleaving of the append and delete calls of two executors whose
      containers have different addresses leaves the tables, without the rules of the one,
      exactly as the other alone would have left them, with the same results for its calls. */
  lemma ExecutorsDoNotInterfere(t: Table, ops: seq<Op>,
                                cfgA: IptablesConfig, ipsA: seq<string>, portsA: seq<PortMapping>,
                                cfgB: IptablesConfig, ipsB: seq<string>, portsB: seq<PortMapping>)
    requires CleanInputs(cfgA, ipsA, portsA) && CleanInputs(cfgB, ipsB, portsB)
    requires forall ip :: ip in ipsA ==> ip !in ipsB
    requires forall i :: 0 <= i < |ops| ==>
               ops[i].e in if ops[i].mine then IptablesRules(cfgA, ipsA, portsA)
                           else IptablesRules(cfgB, ipsB, portsB)
    ensures var own := set e | e in IptablesRules(cfgA, ipsA, portsA);
            && Without(Play(t, ops), own) == Play(Without(t, own), Side(ops, false))
            && SideSucceeds(t, ops, false) == SideSucceeds(Without(t, own), Side(ops, false), false)
            && (Without(t, own) == t && Without(Play(t, ops), own) == Play(t, ops) ==>
                  Play(t, ops) == Play(t, Side(ops, false)))
  {
    hide *;
    DifferentIpsDisjoint(cfgA, ipsA, portsA, cfgB, ipsB, portsB);
    var own := set e | e in IptablesRules(cfgA, ipsA, portsA);
    OthersUndisturbed(t, ops, own, true);
  }

  /** And if the calls of the one are its append pass, however far it got, and its delete pass,
      the tables are in the end what the other alone would have made of them. If that holds for
      both, they are as they were in the beginning. */
  lemma ExecutorsLeaveNoTrace(t: Table, ops: seq<Op>,
                              cfgA: IptablesConfig, ipsA: seq<string>, portsA: seq<PortMapping>,
                              cfgB: IptablesConfig, ipsB: seq<string>, portsB: seq<PortMapping>)
    requires CleanInputs(cfgA, ipsA, portsA) && CleanInputs(cfgB, ipsB, portsB)
    requires forall ip :: ip in ipsA ==> ip !in ipsB
    requires Fresh(t, IptablesRules(cfgA, ipsA, portsA))
    requires Lifetime(Side(ops, true), IptablesRules(cfgA, ipsA, portsA), true)
    requires forall i :: 0 <= i < |ops| && !ops[i].mine ==> ops[i].e in IptablesRules(cfgB, ipsB, portsB)
    ensures Play(t, ops) == Play(t, Side(ops, false))
    ensures var b := IptablesRules(cfgB, ipsB, portsB);
            Fresh(t, b) && Lifetime(Side(ops, false), b, false) ==> Play(t, ops) == t
  {
    hide *;
    DifferentIpsDisjoint(cfgA, ipsA, portsA, cfgB, ipsB, portsB);
    AsIfAlone(t, ops, IptablesRules(cfgA, ipsA, portsA));
    var b := IptablesRules(cfgB, ipsB, portsB);
    if Fresh(t, b) && Lifetime(Side(ops, false), b, false) {
      LifetimeAlone(t, Side(ops, false), b, false);
    }
  }
}
