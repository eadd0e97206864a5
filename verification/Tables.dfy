/** The firewall tables of the host, the driver calls that change them, and the two passes in
    which a hook applies its rules: append, stopping at the first error, and delete, carrying
    on past errors. */
module Tables {

  /** A rule, as the words handed to iptables. */
  type Words = seq<string>

  datatype ChainRef = ChainRef(table: string, chain: string)

  type Table = map<ChainRef, seq<Words>>

  /** One call of the action of a hook: a rule for a chain. */
  datatype Emission = Emission(at: ChainRef, rule: Words)

  datatype Action = Append | Delete

  function RemoveFirst<T(==)>(s: seq<T>, x: T): seq<T> {
    if |s| == 0 then []
    else if s[0] == x then s[1..]
    else [s[0]] + RemoveFirst(s[1..], x)
  }

  predicate Holds(t: Table, e: Emission) {
    e.at in t && e.rule in t[e.at]
  }

  /** What one driver call does when iptables carries it out: append at the end of an existing
      chain, delete the first equal rule. Anything else fails and changes nothing. */
  predicate Works(t: Table, action: Action, e: Emission) {
    match action
    case Append => e.at in t
    case Delete => Holds(t, e)
  }

  function Worked(t: Table, action: Action, e: Emission): (r: Table)
    requires Works(t, action, e)
  {
    match action
    case Append => t[e.at := t[e.at] + [e.rule]]
    case Delete => t[e.at := RemoveFirst(t[e.at], e.rule)]
  }

  /** The result of a pass: the table, the number of driver calls made so far, and whether
      the pass went on to its end. */
  datatype Outcome = Outcome(t: Table, clock: nat, ok: bool)

  /** Driver call number k can also fail for a reason of its own, if fault(k). */
  function Pass(t: Table, action: Action, stopOnError: bool, es: seq<Emission>, fault: nat -> bool, k: nat): Outcome {
    if |es| == 0 then Outcome(t, k, true)
    else if !fault(k) && Works(t, action, es[0]) then
      Pass(Worked(t, action, es[0]), action, stopOnError, es[1..], fault, k + 1)
    else if stopOnError then Outcome(t, k + 1, false)
    else Pass(t, action, stopOnError, es[1..], fault, k + 1)
  }

  /** A pass over two lists in a row goes on to the second one if it is not stopped. */
  lemma {:induction false} PassConcat(t: Table, action: Action, stop: bool, a: seq<Emission>, b: seq<Emission>,
                                      fault: nat -> bool, k: nat)
    ensures var o := Pass(t, action, stop, a, fault, k);
            Pass(t, action, stop, a + b, fault, k) == if o.ok then Pass(o.t, action, stop, b, fault, o.clock) else o
  {
    if |a| == 0 {
      assert a + b == b;
    } else {
      assert (a + b)[1..] == a[1..] + b;
      if !fault(k) && Works(t, action, a[0]) {
        PassConcat(Worked(t, action, a[0]), action, stop, a[1..], b, fault, k + 1);
      } else if !stop {
        PassConcat(t, action, stop, a[1..], b, fault, k + 1);
      }
    }
  }

  /** The rules that a list of emissions has for one chain, in order. */
  function RulesAt(es: seq<Emission>, at: ChainRef): seq<Words> {
    if |es| == 0 then []
    else (if es[0].at == at then [es[0].rule] else []) + RulesAt(es[1..], at)
  }

  /** The table with the emissions appended. */
  function AddAll(t: Table, es: seq<Emission>): (r: Table)
    ensures r.Keys == t.Keys
    ensures forall at :: at in t ==> r[at] == t[at] + RulesAt(es, at)
  {
    map at | at in t :: t[at] + RulesAt(es, at)
  }

  lemma AddNothing(t: Table)
    ensures AddAll(t, []) == t
  {
    assert forall at :: at in t ==> AddAll(t, [])[at] == t[at];
  }

  /** The table after one more emission in front. */
  lemma AddFirst(t: Table, e: Emission, es: seq<Emission>)
    requires e.at in t
    ensures AddAll(Worked(t, Append, e), es) == AddAll(t, [e] + es)
  {
    var u := Worked(t, Append, e);
    assert ([e] + es)[1..] == es;
    forall at | at in t ensures u[at] + RulesAt(es, at) == t[at] + RulesAt([e] + es, at) {}
    assert AddAll(u, es).Keys == AddAll(t, [e] + es).Keys;
  }

  ghost predicate ChainsExist(t: Table, es: seq<Emission>) {
    forall e :: e in es ==> e.at in t
  }

  /** How many rules an append pass gets to. */
  function Reached(t: Table, es: seq<Emission>, fault: nat -> bool, k: nat): (n: nat)
    ensures n <= |es|
  {
    if |es| == 0 || fault(k) || es[0].at !in t then 0 else 1 + Reached(t, es[1..], fault, k + 1)
  }

  lemma {:induction false} ReachedSame(t: Table, u: Table, es: seq<Emission>, fault: nat -> bool, k: nat)
    requires t.Keys == u.Keys
    ensures Reached(t, es, fault, k) == Reached(u, es, fault, k)
  {
    if |es| == 0 {
    } else {
      ReachedSame(t, u, es[1..], fault, k + 1);
    }
  }

  /** It gets to the first rule whose call has a fault or whose chain does not exist. */
  lemma {:induction false} ReachedIs(t: Table, es: seq<Emission>, fault: nat -> bool, k: nat)
    ensures var n := Reached(t, es, fault, k);
            && (forall i :: k <= i < k + n ==> !fault(i))
            && ChainsExist(t, es[..n])
            && (n < |es| ==> fault(k + n) || es[n].at !in t)
  {
    if |es| == 0 || fault(k) || es[0].at !in t {
    } else {
      ReachedIs(t, es[1..], fault, k + 1);
      var m := Reached(t, es[1..], fault, k + 1);
      assert es[..m + 1] == [es[0]] + es[1..][..m];
    }
  }

  lemma {:induction false} AppendPassIs(t: Table, es: seq<Emission>, fault: nat -> bool, k: nat)
    ensures var n := Reached(t, es, fault, k);
            Pass(t, Append, true, es, fault, k) ==
            Outcome(AddAll(t, es[..n]), k + n + (if n < |es| then 1 else 0), n == |es|)
    decreases |es|
  {
    hide AddAll;
    AddNothing(t);
    var n := Reached(t, es, fault, k);
    if n == 0 {
      assert es[..0] == [];
    } else {
      var u := Worked(t, Append, es[0]);
      AppendPassIs(u, es[1..], fault, k + 1);
      ReachedSame(t, u, es[1..], fault, k + 1);
      assert es[..n] == [es[0]] + es[1..][..n - 1];
      AddFirst(t, es[0], es[1..][..n - 1]);
    }
  }

  /** An append pass that stops at the first error has appended a prefix of its rules, and it
      is the whole list exactly if the pass reports no error. It ends before the first rule whose
      call has a fault or whose chain does not exist, and nowhere else. */
  lemma AppendPassAddsPrefix(t: Table, es: seq<Emission>, fault: nat -> bool, k: nat)
    returns (n: nat)
    ensures n <= |es| && ChainsExist(t, es[..n])
    ensures Pass(t, Append, true, es, fault, k).t == AddAll(t, es[..n])
    ensures Pass(t, Append, true, es, fault, k).ok <==> n == |es|
    ensures (forall i :: k <= i < k + n ==> !fault(i)) && (n < |es| ==> fault(k + n) || es[n].at !in t)
    ensures Pass(t, Append, true, es, fault, k).clock == k + n + (if n < |es| then 1 else 0)
  {
    hide AddAll, Pass, ChainsExist;
    n := Reached(t, es, fault, k);
    AppendPassIs(t, es, fault, k);
    ReachedIs(t, es, fault, k);
  }

  /** Some of the rules, from the first one on, have been appended, and nothing else has
      changed. */
  ghost predicate AddedSome(t: Table, u: Table, es: seq<Emission>) {
    exists n :: 0 <= n <= |es| && u == AddAll(t, es[..n])
  }

  lemma AddedNone(t: Table, es: seq<Emission>)
    ensures AddedSome(t, t, es)
  {
    AddNothing(t);
    assert es[..0] == [];
    assert t == AddAll(t, es[..0]);
  }

  /** No call of a pass over es that begins with call k has a fault. */
  predicate NoFaults(es: seq<Emission>, fault: nat -> bool, k: nat) {
    forall i :: k <= i < k + |es| ==> !fault(i)
  }

  /** If all chains exist, an append pass succeeds exactly if no call has a fault, and then has
      appended all rules. */
  lemma AppendPassOkIff(t: Table, es: seq<Emission>, fault: nat -> bool, k: nat)
    requires ChainsExist(t, es)
    ensures var o := Pass(t, Append, true, es, fault, k);
            && (o.ok <==> NoFaults(es, fault, k))
            && (o.ok ==> o.t == AddAll(t, es))
            && AddedSome(t, o.t, es)
  {
    var n := AppendPassAddsPrefix(t, es, fault, k);
    hide Pass, AddAll;
    assert n < |es| ==> es[n] in es;
    assert es[..|es|] == es;
    assert AddedSome(t, AddAll(t, es[..n]), es);
  }

  /** A delete pass in which every present rule is deleted and every missing one skipped. */
  function DeleteAll(t: Table, es: seq<Emission>): (r: Table)
    ensures r.Keys == t.Keys
    decreases |es|
  {
    if |es| == 0 then t
    else DeleteAll(if Holds(t, es[0]) then Worked(t, Delete, es[0]) else t, es[1..])
  }

  lemma {:induction false} DeletePass(t: Table, es: seq<Emission>, fault: nat -> bool, k: nat)
    requires forall i :: k <= i ==> !fault(i)
    ensures Pass(t, Delete, false, es, fault, k) == Outcome(DeleteAll(t, es), k + |es|, true)
  {
    if |es| == 0 {
    } else {
      DeletePass(if Holds(t, es[0]) then Worked(t, Delete, es[0]) else t, es[1..], fault, k + 1);
    }
  }

  /** The rules whose call has no fault. */
  function Served(es: seq<Emission>, fault: nat -> bool, k: nat): seq<Emission> {
    if |es| == 0 then [] else (if fault(k) then [] else [es[0]]) + Served(es[1..], fault, k + 1)
  }

  /** A delete pass with any faults deletes the rules whose call has none, and always goes on to
      its end. */
  lemma {:induction false} DeletePassServes(t: Table, es: seq<Emission>, fault: nat -> bool, k: nat)
    ensures Pass(t, Delete, false, es, fault, k) == Outcome(DeleteAll(t, Served(es, fault, k)), k + |es|, true)
  {
    if |es| == 0 {
    } else {
      var rest := Served(es[1..], fault, k + 1);
      if fault(k) {
        assert [] + rest == rest;
        DeletePassServes(t, es[1..], fault, k + 1);
      } else {
        assert ([es[0]] + rest)[1..] == rest;
        DeletePassServes(if Holds(t, es[0]) then Worked(t, Delete, es[0]) else t, es[1..], fault, k + 1);
      }
    }
  }

  lemma {:induction false} ServedAll(es: seq<Emission>, fault: nat -> bool, k: nat)
    requires forall i :: k <= i ==> !fault(i)
    ensures Served(es, fault, k) == es
  {
    if |es| == 0 {
    } else {
      ServedAll(es[1..], fault, k + 1);
      assert es == [es[0]] + es[1..];
    }
  }

  /** None of the rules is in the table yet. */
  ghost predicate Fresh(t: Table, es: seq<Emission>) {
    forall e :: e in es ==> !Holds(t, e)
  }

  lemma {:induction false} RemoveFirstMiss<T>(s: seq<T>, x: T)
    requires x !in s
    ensures RemoveFirst(s, x) == s
  {
    if |s| == 0 {
    } else {
      assert s == [s[0]] + s[1..];
      RemoveFirstMiss(s[1..], x);
    }
  }

  lemma {:induction false} RemoveFirstAfter<T>(a: seq<T>, b: seq<T>, x: T)
    requires x !in a
    ensures RemoveFirst(a + b, x) == a + RemoveFirst(b, x)
  {
    if |a| == 0 {
      assert a + b == b;
    } else {
      assert (a + b)[1..] == a[1..] + b;
      assert x !in a[1..];
      RemoveFirstAfter(a[1..], b, x);
      calc {
        RemoveFirst(a + b, x);
        [a[0]] + RemoveFirst(a[1..] + b, x);
        [a[0]] + (a[1..] + RemoveFirst(b, x));
        ([a[0]] + a[1..]) + RemoveFirst(b, x);
        { assert a == [a[0]] + a[1..]; }
        a + RemoveFirst(b, x);
      }
    }
  }

  lemma {:induction false} RemoveFirstCounts<T>(s: seq<T>, x: T)
    requires x in s
    ensures multiset(RemoveFirst(s, x)) == multiset(s) - multiset{x}
  {
    assert s == [s[0]] + s[1..];
    if s[0] != x {
      RemoveFirstCounts(s[1..], x);
    }
  }

  lemma {:induction false} RulesAtIn(es: seq<Emission>, at: ChainRef, r: Words)
    ensures r in RulesAt(es, at) <==> Emission(at, r) in es
  {
    if |es| == 0 {
    } else {
      RulesAtIn(es[1..], at, r);
      assert es == [es[0]] + es[1..];
    }
  }

  lemma RulesAtCons(e: Emission, es: seq<Emission>, at: ChainRef)
    ensures RulesAt([e] + es, at) == if e.at == at then [e.rule] + RulesAt(es, at) else RulesAt(es, at)
  {
    assert ([e] + es)[1..] == es;
  }

  lemma {:induction false} RulesAtRemove(es: seq<Emission>, e: Emission, at: ChainRef)
    requires e in es
    ensures RulesAt(RemoveFirst(es, e), at) ==
            if at == e.at then RemoveFirst(RulesAt(es, at), e.rule) else RulesAt(es, at)
  {
    assert es == [es[0]] + es[1..];
    RemoveFirstCons(es[0], es[1..], e);
    RemoveFirstCons(es[0].rule, RulesAt(es[1..], at), e.rule);
    RulesAtCons(es[0], es[1..], at);
    if es[0] != e {
      RulesAtRemove(es[1..], e, at);
      RulesAtCons(es[0], RemoveFirst(es[1..], e), at);
    }
  }

  lemma RemoveFirstCons<T>(x: T, s: seq<T>, y: T)
    ensures RemoveFirst([x] + s, y) == if x == y then s else [x] + RemoveFirst(s, y)
  {
    assert ([x] + s)[1..] == s;
  }

  /** Deleting a rule that only the appended part has takes it out of that part. */
  lemma RemoveAdded(t: Table, a: seq<Emission>, e: Emission)
    requires e in a && e.at in t && !Holds(t, e)
    ensures Holds(AddAll(t, a), e)
    ensures Worked(AddAll(t, a), Delete, e) == AddAll(t, RemoveFirst(a, e))
  {
    RulesAtIn(a, e.at, e.rule);
    var u, v := Worked(AddAll(t, a), Delete, e), AddAll(t, RemoveFirst(a, e));
    forall at | at in t ensures u[at] == v[at] {
      RulesAtRemove(a, e, at);
      if at == e.at {
        RemoveFirstAfter(t[at], RulesAt(a, at), e.rule);
      }
    }
    assert u == v;
  }

  /** The heart of undoing: whatever part of the rules was appended, and in whatever order the
      rules are then deleted, a table that had none of them is restored exactly, chain by
      chain and in order. */
  lemma {:induction false} DeleteUndoesAdd(t: Table, a: seq<Emission>, d: seq<Emission>)
    requires ChainsExist(t, a) && Fresh(t, d)
    requires multiset(a) <= multiset(d)
    ensures DeleteAll(AddAll(t, a), d) == t
    decreases |d|
  {
    if |d| == 0 {
      assert multiset(a) == multiset{};
      assert |a| == |multiset(a)|;
      AddNothing(t);
    } else {
      var e := d[0];
      var b := if e in a then RemoveFirst(a, e) else a;
      WithinTail(a, d);
      UndoOne(t, a, d);
      assert multiset(b) <= multiset(d[1..]);
      DeleteUndoesAdd(t, b, d[1..]);
    }
  }

  /** One delete undoes the append of its rule, if there was one. */
  lemma UndoOne(t: Table, a: seq<Emission>, d: seq<Emission>)
    requires |d| > 0 && ChainsExist(t, a) && Fresh(t, d)
    ensures var b := if d[0] in a then RemoveFirst(a, d[0]) else a;
            && DeleteAll(AddAll(t, a), d) == DeleteAll(AddAll(t, b), d[1..])
            && ChainsExist(t, b) && Fresh(t, d[1..])
  {
    var e := d[0];
    assert e in d;
    if e in a {
      RemoveAdded(t, a, e);
      RemoveFirstWithin(a, e);
    } else {
      RulesAtIn(a, e.at, e.rule);
      assert !Holds(AddAll(t, a), e);
    }
    assert forall x :: x in d[1..] ==> x in d;
  }

  /** Taking the head of d off both lists keeps the one within the other. */
  lemma WithinTail<T>(a: seq<T>, d: seq<T>)
    requires |d| > 0 && multiset(a) <= multiset(d)
    ensures d[0] in a ==> multiset(RemoveFirst(a, d[0])) <= multiset(d[1..])
    ensures d[0] !in a ==> multiset(a) <= multiset(d[1..])
  {
    assert d == [d[0]] + d[1..];
    if d[0] in a {
      RemoveFirstCounts(a, d[0]);
    } else {
      assert multiset(a)[d[0]] == 0;
    }
  }

  lemma {:induction false} RemoveFirstWithin<T>(s: seq<T>, x: T)
    ensures forall y :: y in RemoveFirst(s, x) ==> y in s
  {
    if |s| > 0 && s[0] != x {
      RemoveFirstWithin(s[1..], x);
    }
  }

  lemma {:induction false} DeleteAbsent(t: Table, d: seq<Emission>)
    requires Fresh(t, d)
    ensures DeleteAll(t, d) == t
    decreases |d|
  {
    if |d| == 0 {
    } else {
      assert d[0] in d;
      assert Fresh(t, d[1..]);
      DeleteAbsent(t, d[1..]);
    }
  }

  lemma PrefixWithin(es: seq<Emission>, n: nat)
    requires n <= |es|
    ensures multiset(es[..n]) <= multiset(es)
  {
    assert es == es[..n] + es[n..];
  }

  /** An append pass that stops anywhere, followed by the full delete pass, restores every
      chain as the exact original sequence, duplicates included; a second delete pass then
      changes nothing. */
  lemma UndoAfterPartialFailure(t: Table, es: seq<Emission>, fault: nat -> bool, k: nat, quiet: nat -> bool, j: nat)
    requires Fresh(t, es)
    requires forall i :: j <= i ==> !quiet(i)
    ensures var a := Pass(t, Append, true, es, fault, k).t;
            var d := Pass(a, Delete, false, es, quiet, j);
            d.t == t && Pass(d.t, Delete, false, es, quiet, d.clock).t == t
  {
    var n := AppendPassAddsPrefix(t, es, fault, k);
    PrefixWithin(es, n);
    var es0 := es[..n];
    hide Pass, Fresh, ChainsExist, AddAll, DeleteAll;
    DeleteUndoesAdd(t, es0, es);
    DeletePass(AddAll(t, es0), es, quiet, j);
    DeleteAbsent(t, es);
    DeletePass(t, es, quiet, Pass(AddAll(t, es0), Delete, false, es, quiet, j).clock);
  }
}
