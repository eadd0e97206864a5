/** What append and delete passes do to the number of copies of each rule, with no assumption
    on what the tables held before. */
module Conservation {
  import opened Tables

  /** How many copies of a rule a chain has. */
  function CountAt(t: Table, x: Emission): nat {
    if x.at in t then multiset(t[x.at])[x.rule] else 0
  }

  /** Both tables have the same chains, and each chain the same rules, in any order. */
  ghost predicate SameRules(t: Table, u: Table) {
    t.Keys == u.Keys && forall at :: at in t ==> multiset(t[at]) == multiset(u[at])
  }

  lemma SameRulesIffCounts(t: Table, u: Table)
    requires t.Keys == u.Keys
    ensures SameRules(t, u) <==> forall x :: CountAt(t, x) == CountAt(u, x)
  {
    if forall x :: CountAt(t, x) == CountAt(u, x) {
      forall at | at in t ensures multiset(t[at]) == multiset(u[at]) {
        forall r ensures multiset(t[at])[r] == multiset(u[at])[r] {
          assert CountAt(t, Emission(at, r)) == CountAt(u, Emission(at, r));
        }
      }
    }
  }

  lemma WorkedCounts(t: Table, action: Action, e: Emission, x: Emission)
    requires Works(t, action, e)
    ensures CountAt(Worked(t, action, e), x) ==
            if x != e then CountAt(t, x) else if action == Append then CountAt(t, x) + 1 else CountAt(t, x) - 1
  {
    if action == Delete {
      RemoveFirstCounts(t[e.at], e.rule);
    }
  }

  lemma {:induction false} RulesAtCounts(a: seq<Emission>, x: Emission)
    ensures multiset(RulesAt(a, x.at))[x.rule] == multiset(a)[x]
  {
    if |a| == 0 {
    } else {
      RulesAtCounts(a[1..], x);
      assert a == [a[0]] + a[1..];
    }
  }

  lemma AddAllCounts(t: Table, a: seq<Emission>, x: Emission)
    requires x.at in t
    ensures CountAt(AddAll(t, a), x) == CountAt(t, x) + multiset(a)[x]
  {
    RulesAtCounts(a, x);
  }

  function Minus(m: nat, n: nat): nat {
    if m < n then 0 else m - n
  }

  lemma {:induction false} DeleteAllCounts(t: Table, d: seq<Emission>, x: Emission)
    ensures CountAt(DeleteAll(t, d), x) == Minus(CountAt(t, x), multiset(d)[x])
    decreases |d|
  {
    if |d| == 0 {
    } else {
      assert d == [d[0]] + d[1..];
      var u := if Holds(t, d[0]) then Worked(t, Delete, d[0]) else t;
      DeleteAllCounts(u, d[1..], x);
      if Holds(t, d[0]) {
        WorkedCounts(t, Delete, d[0], x);
      }
      assert Holds(t, x) <==> CountAt(t, x) > 0;
    }
  }

  lemma RestoredCount(t: Table, es: seq<Emission>, n: nat, x: Emission)
    requires n <= |es|
    ensures CountAt(DeleteAll(AddAll(t, es[..n]), es), x) == CountAt(t, x) <==> !(x in es[n..] && Holds(t, x))
  {
    assert es == es[..n] + es[n..];
    DeleteAllCounts(AddAll(t, es[..n]), es, x);
    if x.at in t {
      AddAllCounts(t, es[..n], x);
    }
    assert multiset(es)[x] == multiset(es[..n])[x] + multiset(es[n..])[x];
  }

  /** After an append pass that stopped behind its first n rules, the delete pass gives back
      the rules each chain had exactly if none of the rules that were not reached was there
      before: those the delete pass takes away from somebody else. */
  lemma RulesRestoredIff(t: Table, es: seq<Emission>, n: nat)
    requires n <= |es|
    ensures SameRules(t, DeleteAll(AddAll(t, es[..n]), es)) <==> Fresh(t, es[n..])
  {
    var u := DeleteAll(AddAll(t, es[..n]), es);
    SameRulesIffCounts(t, u);
    forall x ensures CountAt(u, x) == CountAt(t, x) <==> !(x in es[n..] && Holds(t, x)) {
      RestoredCount(t, es, n, x);
    }
  }

  /** Without freshness the order of a chain may change even when all its rules are kept: the
      delete takes the first equal rule, not the one that was appended. */
  lemma OrderMayChange(at: ChainRef, r: Words, q: Words)
    requires r != q
    ensures var t: Table := map[at := [r, q]];
            var es := [Emission(at, r)];
            DeleteAll(AddAll(t, es), es) == map[at := [q, r]]
  {
    var t: Table := map[at := [r, q]];
    var es := [Emission(at, r)];
    assert es[1..] == [];
    assert RulesAt(es, at) == [r];
    assert AddAll(t, es)[at] == [r, q, r];
    assert [r, q, r][1..] == [q, r];
    assert DeleteAll(AddAll(t, es), es) == Worked(AddAll(t, es), Delete, es[0]);
  }

  /** The rules whose delete was refused by the driver, call by call. */
  function Refused(es: seq<Emission>, fault: nat -> bool, k: nat): seq<Emission> {
    if |es| == 0 then []
    else (if fault(k) then [es[0]] else []) + Refused(es[1..], fault, k + 1)
  }

  lemma {:induction false} DeletePassCounts(t: Table, es: seq<Emission>, fault: nat -> bool, k: nat, x: Emission)
    requires multiset(es)[x] <= CountAt(t, x)
    ensures CountAt(Pass(t, Delete, false, es, fault, k).t, x) ==
            CountAt(t, x) - multiset(es)[x] + multiset(Refused(es, fault, k))[x]
    decreases |es|
  {
    if |es| == 0 {
    } else {
      assert es == [es[0]] + es[1..];
      var works := !fault(k) && Works(t, Delete, es[0]);
      var u := if works then Worked(t, Delete, es[0]) else t;
      if works {
        WorkedCounts(t, Delete, es[0], x);
      }
      assert Holds(t, x) <==> CountAt(t, x) > 0;
      DeletePassCounts(u, es[1..], fault, k + 1, x);
    }
  }

  lemma {:induction false} PassKeepsChains(t: Table, action: Action, stop: bool, es: seq<Emission>,
                                           fault: nat -> bool, k: nat)
    ensures Pass(t, action, stop, es, fault, k).t.Keys == t.Keys
    decreases |es|
  {
    if |es| == 0 {
    } else {
      if !fault(k) && Works(t, action, es[0]) {
        PassKeepsChains(Worked(t, action, es[0]), action, stop, es[1..], fault, k + 1);
      } else if !stop {
        PassKeepsChains(t, action, stop, es[1..], fault, k + 1);
      }
    }
  }

  /** Conservation: a fully successful append pass followed by a delete pass leaves, for every
      rule of every chain, the copies there were before plus one for each of its deletes that
      the driver refused. So with no refusal every chain keeps its multiset of rules. */
  lemma PassesConserve(t: Table, es: seq<Emission>, fault: nat -> bool, k: nat, refuse: nat -> bool, j: nat)
    requires Pass(t, Append, true, es, fault, k).ok
    ensures var u := Pass(Pass(t, Append, true, es, fault, k).t, Delete, false, es, refuse, j).t;
            && (forall x :: CountAt(u, x) == CountAt(t, x) + multiset(Refused(es, refuse, j))[x])
            && ((forall i :: j <= i ==> !refuse(i)) ==> SameRules(t, u))
  {
    var n := AppendPassAddsPrefix(t, es, fault, k);
    assert es[..n] == es;
    var a := Pass(t, Append, true, es, fault, k).t;
    var u := Pass(a, Delete, false, es, refuse, j).t;
    PassKeepsChains(t, Append, true, es, fault, k);
    PassKeepsChains(a, Delete, false, es, refuse, j);
    forall x ensures CountAt(u, x) == CountAt(t, x) + multiset(Refused(es, refuse, j))[x] {
      if x.at in t {
        AddAllCounts(t, es, x);
        DeletePassCounts(a, es, refuse, j, x);
      } else {
        RefusedWithin(es, refuse, j);
        assert x !in es;
      }
    }
    if forall i :: j <= i ==> !refuse(i) {
      NothingRefused(es, refuse, j);
      SameRulesIffCounts(t, u);
    }
  }

  lemma {:induction false} RefusedWithin(es: seq<Emission>, fault: nat -> bool, k: nat)
    ensures forall x :: x in Refused(es, fault, k) ==> x in es
  {
    if |es| == 0 {
    } else {
      RefusedWithin(es[1..], fault, k + 1);
    }
  }

  lemma {:induction false} NothingRefused(es: seq<Emission>, fault: nat -> bool, k: nat)
    requires forall i :: k <= i ==> !fault(i)
    ensures Refused(es, fault, k) == []
  {
    if |es| == 0 {
    } else {
      NothingRefused(es[1..], fault, k + 1);
    }
  }
}
