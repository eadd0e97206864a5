/** hook/acl.go */
module AclHook {
  import opened GoStrings
  import opened Tables
  import opened Options
  import opened Host
  import opened Rules

  const PREFIX := "EXECUTOR_"
  const SUFFIX := "_ACL"

  /** The digits at the start of s. */
  function LeadingDigits(s: string): (d: string)
    ensures d <= s && Digits(d)
    ensures |d| < |s| ==> !IsDigit(s[|d|])
  {
    if |s| == 0 || !IsDigit(s[0]) then "" else [s[0]] + LeadingDigits(s[1..])
  }

  /** Whether the pattern EXECUTOR_([0-9]+)_ACL matches at the start of s, and its port index. */
  function MatchHere(s: string): (r: Option<string>)
    ensures r.Some? ==> |r.value| > 0 && Digits(r.value)
  {
    if PREFIX <= s then
      var r := s[|PREFIX|..];
      var d := LeadingDigits(r);
      if |d| > 0 && SUFFIX <= r[|d|..] then Some(d) else None
    else None
  }

  /** FindStringSubmatch: the leftmost match; the pattern is not anchored. */
  function FindPortIndex(key: string): (r: Option<string>)
    ensures r.Some? ==> |r.value| > 0 && Digits(r.value)
  {
    if MatchHere(key).Some? then MatchHere(key)
    else if |key| == 0 then None
    else FindPortIndex(key[1..])
  }

  /** The pattern occurs in a key. */
  ghost predicate Occurs(key: string, pre: string, d: string, post: string) {
    |d| > 0 && Digits(d) && key == pre + ("EXECUTOR_" + (d + ("_ACL" + post)))
  }

  lemma {:induction false} DigitsThen(d: string, rest: string)
    requires Digits(d) && (|rest| > 0 ==> !IsDigit(rest[0]))
    ensures LeadingDigits(d + rest) == d
  {
    if |d| == 0 {
      assert d + rest == rest;
    } else {
      assert (d + rest)[1..] == d[1..] + rest;
      DigitsThen(d[1..], rest);
      assert d == [d[0]] + d[1..];
    }
  }

  lemma OccursIff(key: string, pre: string, d: string, post: string)
    ensures Occurs(key, pre, d, post) <==> |d| > 0 && Digits(d) && key == pre + (PREFIX + (d + (SUFFIX + post)))
  {
  }

  lemma MatchStart(s: string, rest: string)
    requires s == PREFIX + rest
    ensures PREFIX <= s && s[|PREFIX|..] == rest
  {
  }

  lemma MatchEnd(d: string, post: string)
    requires Digits(d)
    ensures LeadingDigits(d + (SUFFIX + post)) == d && SUFFIX <= (d + (SUFFIX + post))[|d|..]
  {
    DigitsThen(d, SUFFIX + post);
    assert (d + (SUFFIX + post))[|d|..] == SUFFIX + post;
  }

  lemma MatchHereIff(s: string, d: string, post: string)
    ensures Occurs(s, "", d, post) ==> MatchHere(s) == Some(d)
    ensures MatchHere(s) == Some(d) ==> Occurs(s, "", d, s[|PREFIX| + |d| + |SUFFIX|..])
  {
    OccursIff(s, "", d, post);
    if Occurs(s, "", d, post) {
      var rest := d + (SUFFIX + post);
      assert s == PREFIX + rest;
      hide Occurs;
      MatchStart(s, rest);
      MatchEnd(d, post);
    }
    if MatchHere(s) == Some(d) {
      MatchedOccurs(s, d);
    }
  }

  lemma MatchedOccurs(s: string, d: string)
    requires MatchHere(s) == Some(d)
    ensures Occurs(s, "", d, s[|PREFIX| + |d| + |SUFFIX|..])
  {
    hide Occurs, LeadingDigits;
    var r := s[|PREFIX|..];
    assert s == PREFIX + r;
    assert r == d + r[|d|..];
    assert r[|d|..] == SUFFIX + r[|d|..][|SUFFIX|..];
    assert r[|d|..][|SUFFIX|..] == s[|PREFIX| + |d| + |SUFFIX|..];
    assert s == "" + (PREFIX + (d + (SUFFIX + s[|PREFIX| + |d| + |SUFFIX|..])));
    OccursIff(s, "", d, s[|PREFIX| + |d| + |SUFFIX|..]);
  }

  /** The pattern does not occur anywhere before place n. */
  ghost predicate FirstPlace(key: string, n: nat) {
    forall pre, d, post :: Occurs(key, pre, d, post) ==> n <= |pre|
  }

  lemma OccursTail(key: string, pre: string, d: string, post: string)
    ensures Occurs(key, pre, d, post) && |pre| > 0 ==> Occurs(key[1..], pre[1..], d, post)
    ensures |key| > 0 && Occurs(key[1..], pre, d, post) ==> Occurs(key, [key[0]] + pre, d, post)
  {
    if Occurs(key, pre, d, post) && |pre| > 0 {
      assert key[1..] == pre[1..] + (PREFIX + (d + (SUFFIX + post)));
    }
    if |key| > 0 && Occurs(key[1..], pre, d, post) {
      assert key == [key[0]] + key[1..];
      assert key == ([key[0]] + pre) + (PREFIX + (d + (SUFFIX + post)));
    }
  }

  lemma {:induction false} FoundFirst(key: string) returns (pre: string, post: string)
    requires FindPortIndex(key).Some?
    ensures Occurs(key, pre, FindPortIndex(key).value, post) && FirstPlace(key, |pre|)
  {
    if MatchHere(key).Some? {
      var d := MatchHere(key).value;
      MatchHereIff(key, d, "");
      pre, post := "", key[|PREFIX| + |d| + |SUFFIX|..];
    } else {
      pre, post := FoundFirst(key[1..]);
      OccursTail(key, pre, FindPortIndex(key).value, post);
      forall p, d, q | Occurs(key, p, d, q) ensures |pre| + 1 <= |p| {
        if |p| == 0 {
          MatchHereIff(key, d, q);
        }
        OccursTail(key, p, d, q);
      }
      pre := [key[0]] + pre;
    }
  }

  lemma {:induction false} OccursFound(key: string, pre: string, d: string, post: string)
    requires Occurs(key, pre, d, post)
    ensures FindPortIndex(key).Some?
  {
    if pre == "" {
      MatchHereIff(key, d, post);
    } else {
      assert key[1..] == pre[1..] + (PREFIX + (d + (SUFFIX + post)));
      OccursFound(key[1..], pre[1..], d, post);
    }
  }

  /** A key is an ACL label exactly if the pattern occurs somewhere in it. */
  lemma AclLabelIff(key: string)
    ensures FindPortIndex(key).Some? <==> exists pre, d, post :: Occurs(key, pre, d, post)
  {
    if FindPortIndex(key).Some? {
      var pre, post := FoundFirst(key);
    }
    forall pre, d, post | Occurs(key, pre, d, post) ensures FindPortIndex(key).Some? {
      OccursFound(key, pre, d, post);
    }
  }

  /** More than that: the port index is the one of the first place where it occurs. */
  lemma {:induction false} PortIndexIff(key: string, d: string)
    ensures FindPortIndex(key) == Some(d) <==>
            exists pre, post :: Occurs(key, pre, d, post) && FirstPlace(key, |pre|)
  {
    if FindPortIndex(key) == Some(d) {
      var pre, post := FoundFirst(key);
    }
    forall pre, post | Occurs(key, pre, d, post) && FirstPlace(key, |pre|) ensures FindPortIndex(key) == Some(d) {
      FirstFound(key, pre, d, post);
    }
  }

  lemma MatchOccurs(s: string)
    ensures MatchHere(s).Some? ==> exists post :: Occurs(s, "", MatchHere(s).value, post)
  {
    if MatchHere(s).Some? {
      MatchHereIff(s, MatchHere(s).value, "");
    }
  }

  lemma {:induction false} FirstFound(key: string, pre: string, d: string, post: string)
    requires Occurs(key, pre, d, post) && FirstPlace(key, |pre|)
    ensures FindPortIndex(key) == Some(d)
  {
    if |pre| == 0 {
      MatchHereIff(key, d, post);
    } else {
      MatchOccurs(key);
      assert MatchHere(key).None?;
      OccursTail(key, pre, d, post);
      forall p, e, q | Occurs(key[1..], p, e, q) ensures |pre[1..]| <= |p| {
        OccursTail(key, p, e, q);
      }
      FirstFound(key[1..], pre[1..], d, post);
    }
  }

  const MAX_INT: nat := 0x7FFF_FFFF_FFFF_FFFF

  /** The allowed sources of a label, with /32 added to bare addresses, or nothing if one of
      them is neither an address nor a network. */
  function ParseIPs(env: Env, ips: seq<string>): Option<seq<string>> {
    if |ips| == 0 then Some([])
    else
      var rest := ParseIPs(env, ips[1..]);
      if rest.None? then None
      else if env.isIP(ips[0]) then Some([ips[0] + "/32"] + rest.value)
      else if env.isCIDR(ips[0]) then Some([ips[0]] + rest.value)
      else None
  }

  /** A source is accepted as an address or as a network. */
  predicate Accepted(env: Env, ip: string) {
    env.isIP(ip) || env.isCIDR(ip)
  }

  /** A list of sources is accepted exactly if each of them is, and then every address becomes
      a network of one, every network stays, all in their order. */
  lemma {:induction false} ParseIPsIff(env: Env, ips: seq<string>)
    ensures ParseIPs(env, ips).Some? <==> forall i :: 0 <= i < |ips| ==> Accepted(env, ips[i])
    ensures var r := ParseIPs(env, ips);
            r.Some? ==>
              && |r.value| == |ips|
              && forall i :: 0 <= i < |ips| ==> r.value[i] == if env.isIP(ips[i]) then ips[i] + "/32" else ips[i]
  {
    if |ips| == 0 {
    } else {
      var tail := ips[1..];
      ParseIPsIff(env, tail);
      assert forall i :: 0 < i < |ips| ==> ips[i] == tail[i - 1];
      if forall i :: 0 <= i < |ips| ==> Accepted(env, ips[i]) {
        forall i | 0 <= i < |tail| ensures Accepted(env, tail[i]) {
          assert tail[i] == ips[i + 1];
        }
      }
    }
  }

  /** What a label asks for: nothing, rules for a port mapping, or an error. */
  datatype Verdict = Ignored | Allow(port: PortMapping, sources: seq<string>) | Malformed

  function Judge(env: Env, l: Label): Verdict {
    match FindPortIndex(l.key)
    case None => Ignored
    case Some(d) =>
      if Value(d) > MAX_INT || |env.task.ports| <= Value(d) then Malformed
      else
        match ParseIPs(env, Split(l.value, ','))
        case None => Malformed
        case Some(sources) => Allow(env.task.ports[Value(d)], sources)
  }

  /** The label names a port and lists its sources well: the index fits an int, is that of a
      port mapping, and every comma-separated source is an address or a network. */
  ghost predicate WellFormed(env: Env, l: Label, d: string)
    requires Digits(d)
  {
    && Value(d) <= 9_223_372_036_854_775_807 && Value(d) < |env.task.ports|
    && forall i :: 0 <= i < |Split(l.value, ',')| ==> Accepted(env, Split(l.value, ',')[i])
  }

  /** A label is ignored exactly if the pattern occurs nowhere in its key. It is malformed
      exactly if the pattern occurs, and the index of its first place is too large for an int
      or not one of a port mapping, or some source is neither an address nor a network. */
  lemma JudgeIff(env: Env, l: Label)
    ensures Judge(env, l) == Ignored <==> !exists pre, d, post :: Occurs(l.key, pre, d, post)
    ensures Judge(env, l) == Malformed <==>
            exists pre, d, post :: Occurs(l.key, pre, d, post) && FirstPlace(l.key, |pre|) && !WellFormed(env, l, d)
    ensures Judge(env, l).Allow? ==>
              && (exists pre, d, post :: Occurs(l.key, pre, d, post) && FirstPlace(l.key, |pre|)
                                         && WellFormed(env, l, d) && Judge(env, l).port == env.task.ports[Value(d)])
              && |Judge(env, l).sources| == |Split(l.value, ',')|
              && forall i :: 0 <= i < |Split(l.value, ',')| ==>
                   Judge(env, l).sources[i] ==
                   if env.isIP(Split(l.value, ',')[i]) then Split(l.value, ',')[i] + "/32" else Split(l.value, ',')[i]
  {
    AclLabelIff(l.key);
    ParseIPsIff(env, Split(l.value, ','));
    hide FirstPlace, FindPortIndex;
    var found := FindPortIndex(l.key);
    if found.Some? {
      PortIndexIff(l.key, found.value);
      var pre, post :| Occurs(l.key, pre, found.value, post) && FirstPlace(l.key, |pre|);
      assert Judge(env, l) == Malformed <==> !WellFormed(env, l, found.value);
    }
    forall pre, d, post | Occurs(l.key, pre, d, post) && FirstPlace(l.key, |pre|) && !WellFormed(env, l, d)
      ensures Judge(env, l) == Malformed
    {
      PortIndexIff(l.key, d);
    }
  }

  function Interface(env: Env): string {
    if env.acl.externalInterface == "" then "all" else env.acl.externalInterface
  }

  function At(env: Env): ChainRef { ChainRef("filter", env.acl.chain) }

  function AclRule(env: Env, p: PortMapping, source: string): Emission {
    Emission(At(env), Tokens(Acl(Interface(env), p.protocol, source, p.hostPort)))
  }

  /** In literal words: a rule of the configured chain of the filter table, for the configured
      interface or for all of them. */
  lemma AclRuleInWords(env: Env, p: PortMapping, source: string)
    requires Free(env.acl.externalInterface, ' ') && Free(p.protocol, ' ') && Free(source, ' ')
    ensures AclRule(env, p, source) ==
            Emission(ChainRef("filter", env.acl.chain),
                     ["-i", if env.acl.externalInterface == "" then "all" else env.acl.externalInterface,
                      "-p", p.protocol, "-s", source, "--dport", Itoa(p.hostPort), "-j", "ACCEPT"])
  {
    hide Tokens;
    assert Free("all", ' ');
    AclWords(Interface(env), p.protocol, source, p.hostPort);
  }

  function SourceRules(env: Env, p: PortMapping, sources: seq<string>): seq<Emission> {
    if |sources| == 0 then [] else [AclRule(env, p, sources[0])] + SourceRules(env, p, sources[1..])
  }

  lemma {:induction false} SourceRulesAre(env: Env, p: PortMapping, sources: seq<string>)
    ensures |SourceRules(env, p, sources)| == |sources|
    ensures forall i :: 0 <= i < |sources| ==> SourceRules(env, p, sources)[i] == AclRule(env, p, sources[i])
  {
    hide AclRule;
    if |sources| == 0 {
    } else {
      SourceRulesAre(env, p, sources[1..]);
      assert forall i :: 0 < i < |sources| ==> sources[i] == sources[1..][i - 1];
    }
  }

  /** The rules of one label. */
  function LabelRules(env: Env, l: Label): seq<Emission> {
    var v := Judge(env, l);
    if v.Allow? then SourceRules(env, v.port, v.sources) else []
  }

  function LabelsRules(env: Env, labels: seq<Label>): seq<Emission> {
    if |labels| == 0 then [] else LabelRules(env, labels[0]) + LabelsRules(env, labels[1..])
  }

  function CidrRules(env: Env, cidr: string, ports: seq<PortMapping>): seq<Emission> {
    if |ports| == 0 then [] else [AclRule(env, ports[0], cidr)] + CidrRules(env, cidr, ports[1..])
  }

  /** The rules for the networks that are always allowed. */
  function DefaultRules(env: Env, cidrs: seq<string>): seq<Emission> {
    if |cidrs| == 0 then [] else CidrRules(env, cidrs[0], env.task.ports) + DefaultRules(env, cidrs[1..])
  }

  /** The rules come label by label, and within a label source by source. */
  lemma {:induction false} LabelsRulesConcat(env: Env, a: seq<Label>, b: seq<Label>)
    ensures LabelsRules(env, a + b) == LabelsRules(env, a) + LabelsRules(env, b)
  {
    hide LabelRules;
    if |a| == 0 {
      assert a + b == b;
    } else {
      assert (a + b)[1..] == a[1..] + b;
      LabelsRulesConcat(env, a[1..], b);
    }
  }

  lemma OneLabelRules(env: Env, l: Label)
    ensures Judge(env, l).Allow? ==>
              && |LabelsRules(env, [l])| == |Judge(env, l).sources|
              && forall i :: 0 <= i < |Judge(env, l).sources| ==>
                   LabelsRules(env, [l])[i] == AclRule(env, Judge(env, l).port, Judge(env, l).sources[i])
    ensures !Judge(env, l).Allow? ==> LabelsRules(env, [l]) == []
  {
    hide AclRule, Judge;
    assert [l][1..] == [];
    assert LabelsRules(env, [l]) == LabelRules(env, l) + [];
    if Judge(env, l).Allow? {
      SourceRulesAre(env, Judge(env, l).port, Judge(env, l).sources);
    }
  }

  lemma {:induction false} CidrRulesAre(env: Env, cidr: string, ports: seq<PortMapping>)
    ensures |CidrRules(env, cidr, ports)| == |ports|
    ensures forall i :: 0 <= i < |ports| ==> CidrRules(env, cidr, ports)[i] == AclRule(env, ports[i], cidr)
  {
    hide AclRule;
    if |ports| == 0 {
    } else {
      CidrRulesAre(env, cidr, ports[1..]);
      assert forall i :: 0 < i < |ports| ==> ports[i] == ports[1..][i - 1];
    }
  }

  /** The default rules come network by network, and within a network port by port. */
  lemma {:induction false} DefaultRulesConcat(env: Env, a: seq<string>, b: seq<string>)
    ensures DefaultRules(env, a + b) == DefaultRules(env, a) + DefaultRules(env, b)
  {
    hide CidrRules;
    if |a| == 0 {
      assert a + b == b;
    } else {
      assert (a + b)[1..] == a[1..] + b;
      DefaultRulesConcat(env, a[1..], b);
    }
  }

  lemma OneDefaultRules(env: Env, cidr: string)
    ensures |DefaultRules(env, [cidr])| == |env.task.ports|
    ensures forall i :: 0 <= i < |env.task.ports| ==>
              DefaultRules(env, [cidr])[i] == AclRule(env, env.task.ports[i], cidr)
  {
    hide AclRule, CidrRules;
    assert [cidr][1..] == [];
    assert DefaultRules(env, [cidr]) == CidrRules(env, cidr, env.task.ports) + [];
    CidrRulesAre(env, cidr, env.task.ports);
  }

  /** The rules that are applied for the labels from here on, and whether all labels are well
      formed. */
  datatype Plan = Plan(rules: seq<Emission>, complete: bool)

  function Prepend(es: seq<Emission>, p: Plan): Plan {
    Plan(es + p.rules, p.complete)
  }

  function PlanFor(env: Env, labels: seq<Label>): Plan {
    if |labels| == 0 then Plan(DefaultRules(env, env.acl.defaultAllowedCIDR), true)
    else if Judge(env, labels[0]).Malformed? then Plan([], false)
    else Prepend(LabelRules(env, labels[0]), PlanFor(env, labels[1..]))
  }

  /** n is the number of labels before the first malformed one. */
  ghost predicate WellFormedPrefix(env: Env, labels: seq<Label>, n: nat) {
    && n <= |labels|
    && (forall i :: 0 <= i < n ==> !Judge(env, labels[i]).Malformed?)
    && (n < |labels| ==> Judge(env, labels[n]).Malformed?)
  }

  /** With successful driver calls the rules applied are exactly those of the longest prefix of
      well-formed labels, and then, only if that is all of them, the default rules: a label
      is judged as a whole before any of its rules is applied. */
  lemma {:induction false} PlanIsLongestPrefix(env: Env, labels: seq<Label>, n: nat)
    requires WellFormedPrefix(env, labels, n)
    ensures PlanFor(env, labels) ==
            if n == |labels| then Plan(LabelsRules(env, labels) + DefaultRules(env, env.acl.defaultAllowedCIDR), true)
            else Plan(LabelsRules(env, labels[..n]), false)
  {
    hide Tokens, Judge, LabelRules, DefaultRules;
    if |labels| > 0 && n > 0 {
      var t := labels[1..];
      assert Judge(env, labels[0]) == Judge(env, labels[..n][0]);
      forall i | 0 <= i < n - 1 ensures !Judge(env, t[i]).Malformed? {
        assert t[i] == labels[i + 1];
      }
      assert n < |labels| ==> t[n - 1] == labels[n];
      PlanIsLongestPrefix(env, t, n - 1);
      assert labels[..n][1..] == t[..n - 1];
      assert t == labels[1..] && (n == |labels| ==> t[..n - 1] == t);
    }
  }

  /** generateACL as a whole. */
  function Generated(env: Env, t: Table, action: Action, stopOnError: bool, fault: nat -> bool, k: nat): Outcome {
    var p := PlanFor(env, env.task.labels);
    var o := Pass(t, action, stopOnError, p.rules, fault, k);
    Outcome(o.t, o.clock, o.ok && p.complete)
  }

  /** The append and the delete pass agree even on malformed labels: they stop at the same
      label, so a post-run that was stopped by it, or by the driver, is undone exactly. The
      delete pass reports an error exactly if there is such a label. */
  lemma PassesAgree(env: Env, t: Table, fault: nat -> bool, k: nat, quiet: nat -> bool, j: nat)
    requires Fresh(t, PlanFor(env, env.task.labels).rules)
    requires forall i :: j <= i ==> !quiet(i)
    ensures var a := Generated(env, t, Append, true, fault, k);
            var d := Generated(env, a.t, Delete, false, quiet, j);
            d.t == t && (d.ok <==> WellFormedPrefix(env, env.task.labels, |env.task.labels|))
  {
    hide Tokens, Judge;
    var es := PlanFor(env, env.task.labels).rules;
    UndoAfterPartialFailure(t, es, fault, k, quiet, j);
    var a := Pass(t, Append, true, es, fault, k).t;
    DeletePass(a, es, quiet, j);
    CompleteIff(env, env.task.labels);
  }

  lemma {:induction false} CompleteIff(env: Env, labels: seq<Label>)
    ensures PlanFor(env, labels).complete <==> WellFormedPrefix(env, labels, |labels|)
  {
    hide Tokens, Judge;
    if |labels| == 0 {
    } else {
      CompleteIff(env, labels[1..]);
      assert forall i :: 0 <= i < |labels| - 1 ==> labels[1..][i] == labels[i + 1];
      if WellFormedPrefix(env, labels[1..], |labels| - 1) && !Judge(env, labels[0]).Malformed? {
        forall i | 0 <= i < |labels| ensures !Judge(env, labels[i]).Malformed? {
          if i > 0 { assert labels[i] == labels[1..][i - 1]; }
        }
      }
    }
  }

  /** The loop that checks the comma-separated list of a label. */
  method CheckIPs(env: Env, ips: seq<string>) returns (ok: bool, parsedIPs: seq<string>)
    ensures ok <==> forall i :: 0 <= i < |ips| ==> Accepted(env, ips[i])
    ensures ok ==>
              && |parsedIPs| == |ips|
              && forall i :: 0 <= i < |ips| ==> parsedIPs[i] == if env.isIP(ips[i]) then ips[i] + "/32" else ips[i]
    ensures ok ==> ParseIPs(env, ips) == Some(parsedIPs)
  {
    parsedIPs := [];
    var i := 0;
    while i < |ips|
      invariant 0 <= i <= |ips| && |parsedIPs| == i
      invariant forall j :: 0 <= j < i ==> Accepted(env, ips[j])
      invariant forall j :: 0 <= j < i ==> parsedIPs[j] == if env.isIP(ips[j]) then ips[j] + "/32" else ips[j]
    {
      var ip := ips[i];
      if env.isIP(ip) {
        parsedIPs := parsedIPs + [ip + "/32"];
      } else if env.isCIDR(ip) {
        parsedIPs := parsedIPs + [ip];
      } else {
        assert !Accepted(env, ips[i]);
        return false, [];
      }
      i := i + 1;
    }
    ParseIPsIff(env, ips);
    assert ParseIPs(env, ips).value == parsedIPs;
    ok := true;
  }

  /** The loop that applies the rules of one label. */
  method ActSources(m: Machine, env: Env, p: PortMapping, sources: seq<string>,
                    action: Action, stopOnError: bool, fault: nat -> bool,
                    ghost whole: Outcome, ghost later: seq<Emission>) returns (goOn: bool)
    requires whole == Pass(m.tables, action, stopOnError, SourceRules(env, p, sources) + later, fault, m.clock)
    modifies m`tables, m`clock
    ensures !goOn ==> whole == Outcome(m.tables, m.clock, false)
    ensures goOn ==> whole == Pass(m.tables, action, stopOnError, later, fault, m.clock)
  {
    hide Tokens;
    assert sources[0..] == sources;
    var i := 0;
    while i < |sources|
      invariant 0 <= i <= |sources|
      invariant whole == Pass(m.tables, action, stopOnError, SourceRules(env, p, sources[i..]) + later, fault, m.clock)
    {
      ghost var rest := SourceRules(env, p, sources[i + 1..]) + later;
      assert sources[i..][1..] == sources[i + 1..];
      assert SourceRules(env, p, sources[i..]) + later == [AclRule(env, p, sources[i])] + rest;
      var ok := m.Act(action, stopOnError, AclRule(env, p, sources[i]), fault, whole, rest);
      if !ok && stopOnError { return false; }
      i := i + 1;
    }
    assert SourceRules(env, p, sources[i..]) + later == later;
    goOn := true;
  }

  /** The two loops that apply the default rules. */
  method ActDefaults(m: Machine, env: Env, cidrs: seq<string>, action: Action, stopOnError: bool, fault: nat -> bool,
                     ghost whole: Outcome) returns (goOn: bool)
    requires whole == Pass(m.tables, action, stopOnError, DefaultRules(env, cidrs), fault, m.clock)
    modifies m`tables, m`clock
    ensures whole == Outcome(m.tables, m.clock, goOn)
  {
    hide Tokens;
    assert cidrs[0..] == cidrs;
    var ports := env.task.ports;
    var i := 0;
    while i < |cidrs|
      invariant 0 <= i <= |cidrs|
      invariant whole == Pass(m.tables, action, stopOnError, DefaultRules(env, cidrs[i..]), fault, m.clock)
    {
      ghost var later := DefaultRules(env, cidrs[i + 1..]);
      assert cidrs[i..][1..] == cidrs[i + 1..];
      assert ports[0..] == ports;
      var j := 0;
      while j < |ports|
        invariant 0 <= j <= |ports|
        invariant whole == Pass(m.tables, action, stopOnError,
                                CidrRules(env, cidrs[i], ports[j..]) + later, fault, m.clock)
      {
        ghost var rest := CidrRules(env, cidrs[i], ports[j + 1..]) + later;
        assert ports[j..][1..] == ports[j + 1..];
        assert CidrRules(env, cidrs[i], ports[j..]) + later == [AclRule(env, ports[j], cidrs[i])] + rest;
        var ok := m.Act(action, stopOnError, AclRule(env, ports[j], cidrs[i]), fault, whole, rest);
        if !ok && stopOnError { return false; }
        j := j + 1;
      }
      assert CidrRules(env, cidrs[i], ports[j..]) + later == later;
      i := i + 1;
    }
    goOn := true;
  }

  /** The checks of one label: its port index, then the whole list of its sources. */
  method JudgeLabel(env: Env, l: Label) returns (v: Verdict)
    ensures v == Judge(env, l)
  {
    var found := FindPortIndex(l.key);
    if found.None? { return Ignored; }
    var d := found.value;
    if Value(d) > MAX_INT { return Malformed; }
    if |env.task.ports| <= Value(d) { return Malformed; }
    var parsed, sources := CheckIPs(env, Split(l.value, ','));
    ParseIPsIff(env, Split(l.value, ','));
    if !parsed { return Malformed; }
    v := Allow(env.task.ports[Value(d)], sources);
  }

  lemma PlanStep(env: Env, labels: seq<Label>, i: nat)
    requires i < |labels|
    ensures var p, q := PlanFor(env, labels[i..]), PlanFor(env, labels[i + 1..]);
            match Judge(env, labels[i])
            case Ignored => p == q
            case Malformed => p == Plan([], false)
            case Allow(port, sources) => p == Plan(SourceRules(env, port, sources) + q.rules, q.complete)
  {
    hide Tokens;
    assert labels[i..][1..] == labels[i + 1..];
    assert [] + PlanFor(env, labels[i + 1..]).rules == PlanFor(env, labels[i + 1..]).rules;
  }

  /** The loop over the labels is the one pass over the plan, cut short by the first malformed
      label or, when appending, by the first error of the driver. */
  method GenerateACL(m: Machine, env: Env, action: Action, stopOnError: bool, fault: nat -> bool) returns (ok: bool)
    modifies m`tables, m`clock
    ensures Outcome(m.tables, m.clock, ok) ==
            old(Generated(env, m.tables, action, stopOnError, fault, m.clock))
  {
    hide Tokens;
    var labels := env.task.labels;
    ghost var plan := PlanFor(env, labels);
    ghost var whole := Pass(m.tables, action, stopOnError, plan.rules, fault, m.clock);
    assert labels[0..] == labels;
    var i := 0;
    while i < |labels|
      invariant 0 <= i <= |labels|
      invariant plan.complete == PlanFor(env, labels[i..]).complete
      invariant whole == Pass(m.tables, action, stopOnError, PlanFor(env, labels[i..]).rules, fault, m.clock)
    {
      PlanStep(env, labels, i);
      var v := JudgeLabel(env, labels[i]);
      if v.Malformed? { return false; }
      if v.Allow? {
        ghost var later := PlanFor(env, labels[i + 1..]).rules;
        ok := ActSources(m, env, v.port, v.sources, action, stopOnError, fault, whole, later);
        if !ok { return; }
      }
      i := i + 1;
    }
    ok := ActDefaults(m, env, env.acl.defaultAllowedCIDR, action, stopOnError, fault, whole);
  }

  /** checkChain accepts the configured chain exactly if it is set, is neither FORWARD nor
      OUTPUT, exists in the filter table, and the chains can be listed. */
  predicate ChainAccepted(env: Env, t: Table) {
    env.acl.chain != "" && env.acl.chain != "FORWARD" && env.acl.chain != "OUTPUT" && At(env) in t
  }

  /** The chain is set, is neither of the two that are refused, and is listed with call k. */
  predicate ChainUsable(env: Env, t: Table, fault: nat -> bool, k: nat) {
    && env.acl.chain != "" && env.acl.chain != "FORWARD" && env.acl.chain != "OUTPUT"
    && !fault(k) && ChainRef("filter", env.acl.chain) in t
  }

  function ChecksCalls(env: Env): nat {
    if env.acl.chain == "" || env.acl.chain == "FORWARD" || env.acl.chain == "OUTPUT" then 0 else 1
  }

  method CheckChain(m: Machine, env: Env, fault: nat -> bool) returns (ok: bool)
    modifies m`clock
    ensures ok <==> ChainAccepted(env, m.tables) && !fault(old(m.clock))
    ensures ok <==> ChainUsable(env, m.tables, fault, old(m.clock))
    ensures m.clock == old(m.clock) + ChecksCalls(env)
  {
    if env.acl.chain == "" { return false; }
    if env.acl.chain == "FORWARD" || env.acl.chain == "OUTPUT" { return false; }
    var names: seq<string>;
    ok, names := m.ListChains("filter", fault);
    if !ok { return; }
    var i := 0;
    while i < |names|
      invariant 0 <= i <= |names|
      invariant env.acl.chain !in names[..i]
    {
      if names[i] == env.acl.chain { return true; }
      i := i + 1;
    }
    assert names[..i] == names;
    ok := false;
  }

  /** RunPostRun and RunPreStop differ only in the action and in what an error does. */
  function HookResult(env: Env, h: HostState, w: When, action: Action, stopOnError: bool): Result {
    var f := env.fault(w);
    var h1 := h.(clock := h.clock + 1);
    if !Bridged(env.task.network) then Result(h, true)
    else if f(h.clock) then Result(h1, false)
    else if !ChainAccepted(env, h.tables) || f(h.clock + 1) then
      Result(h.(clock := h.clock + 1 + ChecksCalls(env)), false)
    else
      var o := Generated(env, h.tables, action, stopOnError, f, h.clock + 2);
      Result(HostState(o.t, o.clock, h.cache), o.ok)
  }

  lemma {:induction false} PlanChains(env: Env, labels: seq<Label>, e: Emission)
    requires e in PlanFor(env, labels).rules
    ensures e.at == ChainRef("filter", env.acl.chain)
  {
    hide Judge, Tokens;
    if |labels| == 0 {
      DefaultChains(env, env.acl.defaultAllowedCIDR, e);
    } else if e in LabelRules(env, labels[0]) {
      var v := Judge(env, labels[0]);
      SourceRulesAre(env, v.port, v.sources);
    } else {
      PlanChains(env, labels[1..], e);
    }
  }

  lemma {:induction false} DefaultChains(env: Env, cidrs: seq<string>, e: Emission)
    requires e in DefaultRules(env, cidrs)
    ensures e.at == ChainRef("filter", env.acl.chain)
  {
    hide Tokens;
    CidrRulesAre(env, cidrs[0], env.task.ports);
    if e !in CidrRules(env, cidrs[0], env.task.ports) {
      DefaultChains(env, cidrs[1..], e);
    }
  }

  /** What a post-run has done that began with call k on the tables t: on a bridged or user
      network it succeeds exactly if the chain is usable, no call has a fault and all labels are
      well formed, and then all rules are appended; if it fails, a prefix of those of the plan
      is. On any other network it succeeds and does nothing. */
  ghost predicate PostRunDone(env: Env, h: HostState, g: HostState, ok: bool) {
    var f, k, plan := env.fault(PostRun), h.clock, PlanFor(env, env.task.labels);
    if env.task.network == BRIDGE || env.task.network == USER then
      && (ok <==> && !f(k) && ChainUsable(env, h.tables, f, k + 1) && NoFaults(plan.rules, f, k + 2)
                  && WellFormedPrefix(env, env.task.labels, |env.task.labels|))
      && (ok ==> g.tables == AddAll(h.tables, plan.rules))
      && AddedSome(h.tables, g.tables, plan.rules)
      && g.cache == h.cache
    else ok && g == h
  }

  lemma PostRunIsDone(env: Env, h: HostState)
    ensures var r := HookResult(env, h, PostRun, Append, true); PostRunDone(env, h, r.host, r.ok)
  {
    hide PlanFor, AddedSome, WellFormedPrefix, NoFaults;
    var es := PlanFor(env, env.task.labels).rules;
    AddedNone(h.tables, es);
    CompleteIff(env, env.task.labels);
    if ChainRef("filter", env.acl.chain) in h.tables {
      forall e | e in es ensures e.at in h.tables {
        PlanChains(env, env.task.labels, e);
      }
      AppendPassOkIff(h.tables, es, env.fault(PostRun), h.clock + 2);
    }
  }

  /** What a pre-stop has done that began with call k: on a bridged or user network it succeeds
      exactly if the chain is usable and all labels are well formed, whatever becomes of its
      deletes; if the chain is usable, those of the plan without a fault are done. */
  ghost predicate PreStopDone(env: Env, h: HostState, g: HostState, ok: bool) {
    var f, k, plan := env.fault(PreStop), h.clock, PlanFor(env, env.task.labels);
    if env.task.network == BRIDGE || env.task.network == USER then
      var usable := !f(k) && ChainUsable(env, h.tables, f, k + 1);
      && (ok <==> usable && WellFormedPrefix(env, env.task.labels, |env.task.labels|))
      && g.tables == (if usable then DeleteAll(h.tables, Served(plan.rules, f, k + 2)) else h.tables)
      && g.cache == h.cache
    else ok && g == h
  }

  lemma PreStopIsDone(env: Env, h: HostState)
    ensures var r := HookResult(env, h, PreStop, Delete, false); PreStopDone(env, h, r.host, r.ok)
  {
    hide PlanFor, WellFormedPrefix, DeleteAll, Served;
    CompleteIff(env, env.task.labels);
    DeletePassServes(h.tables, PlanFor(env, env.task.labels).rules, env.fault(PreStop), h.clock + 2);
  }

  method RunPostRun(m: Machine, env: Env) returns (ok: bool)
    modifies m`tables, m`clock
    ensures Result(m.State(), ok) == old(HookResult(env, m.State(), PostRun, Append, true))
    ensures PostRunDone(env, old(m.State()), m.State(), ok)
  {
    hide Tokens, PostRunDone;
    PostRunIsDone(env, m.State());
    if env.task.network != BRIDGE && env.task.network != USER { return true; }
    ok := m.New(env.fault(PostRun));
    if !ok { return; }
    ok := CheckChain(m, env, env.fault(PostRun));
    if !ok { return; }
    ok := GenerateACL(m, env, Append, true, env.fault(PostRun));
  }

  method RunPreStop(m: Machine, env: Env) returns (ok: bool)
    modifies m`tables, m`clock
    ensures Result(m.State(), ok) == old(HookResult(env, m.State(), PreStop, Delete, false))
    ensures PreStopDone(env, old(m.State()), m.State(), ok)
  {
    hide Tokens, PreStopDone;
    PreStopIsDone(env, m.State());
    if env.task.network != BRIDGE && env.task.network != USER { return true; }
    ok := m.New(env.fault(PreStop));
    if !ok { return; }
    ok := CheckChain(m, env, env.fault(PreStop));
    if !ok { return; }
    ok := GenerateACL(m, env, Delete, false, env.fault(PreStop));
  }
}
