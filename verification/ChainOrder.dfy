/** When an append pass and the delete pass after it leave a chain exactly as it was, order
    included, with no assumption on what the tables held before. */
module ChainOrder {
  import opened Tables
  import opened Conservation

  /** s without the first copies of its elements, as many of each as m has. */
  function Trim<T>(s: seq<T>, m: multiset<T>): seq<T> {
    if |s| == 0 then []
    else if s[0] in m then Trim(s[1..], m - multiset{s[0]})
    else [s[0]] + Trim(s[1..], m)
  }

  lemma {:induction false} TrimOneMore<T>(s: seq<T>, m: multiset<T>, x: T)
    ensures Trim(s, m + multiset{x}) == Trim(RemoveFirst(s, x), m)
  {
    if |s| == 0 {
    } else if s[0] == x {
      assert m + multiset{x} - multiset{x} == m;
    } else {
      var rest := RemoveFirst(s[1..], x);
      assert ([s[0]] + rest)[1..] == rest;
      if s[0] in m {
        assert m + multiset{x} - multiset{s[0]} == m - multiset{s[0]} + multiset{x};
        TrimOneMore(s[1..], m - multiset{s[0]}, x);
      } else {
        TrimOneMore(s[1..], m, x);
      }
    }
  }

  lemma {:induction false} TrimNothing<T>(s: seq<T>)
    ensures Trim(s, multiset{}) == s
  {
    if |s| == 0 {
    } else {
      TrimNothing(s[1..]);
      assert s == [s[0]] + s[1..];
    }
  }

  /** The deletes of a list take the first copies of its rules from every chain, whatever the
      order of the list. */
  lemma {:induction false} DeleteAllTrims(t: Table, d: seq<Emission>, at: ChainRef)
    requires at in t
    ensures at in DeleteAll(t, d) && DeleteAll(t, d)[at] == Trim(t[at], multiset(RulesAt(d, at)))
    decreases |d|
  {
    if |d| == 0 {
      TrimNothing(t[at]);
    } else {
      var e, later := d[0], RulesAt(d[1..], at);
      var u := if Holds(t, e) then Worked(t, Delete, e) else t;
      DeleteAllTrims(u, d[1..], at);
      if e.at == at {
        if e.rule !in t[at] {
          RemoveFirstMiss(t[at], e.rule);
        }
        assert u[at] == RemoveFirst(t[at], e.rule);
        TrimOneMore(t[at], multiset(later), e.rule);
        assert multiset([e.rule] + later) == multiset(later) + multiset{e.rule};
      } else {
        assert [] + later == later;
      }
    }
  }

  /** Number i of s, counted among its equals from the end. */
  function Rank<T(==)>(s: seq<T>, i: nat): nat
    requires i < |s|
  {
    multiset(s[i..])[s[i]]
  }

  /** s[k] is the c-th r from the end and has at least e times q behind it. */
  predicate BeforeAt<T(==)>(s: seq<T>, r: T, c: nat, q: T, e: nat, k: nat) {
    k < |s| && s[k] == r && multiset(s[k..])[r] == c && multiset(s[k + 1..])[q] >= e
  }

  /** In s, the c-th r from the end has the e-th q from the end behind it. */
  ghost predicate Before<T(!new)>(s: seq<T>, r: T, c: nat, q: T, e: nat) {
    exists k: nat :: BeforeAt(s, r, c, q, e, k)
  }

  /** The copies in x that stand for s[i] and s[j] are in that order. */
  ghost predicate PairKept<T(!new)>(x: seq<T>, s: seq<T>, i: nat, j: nat)
    requires i < |s| && j < |s|
  {
    Before(x, s[i], Rank(s, i), s[j], Rank(s, j))
  }

  /** Any two elements of s, taken as copies counted from the end, are in the same order in
      x as in s. */
  ghost predicate OrderKept<T(!new)>(x: seq<T>, s: seq<T>) {
    forall i, j :: 0 <= i < j < |s| ==> PairKept(x, s, i, j)
  }

  lemma CountCons<T>(x: T, s: seq<T>, y: T)
    ensures multiset([x] + s)[y] == multiset(s)[y] + (if x == y then 1 else 0)
  {
  }

  lemma {:induction false} CountSuffix<T>(s: seq<T>, k: nat, y: T)
    requires k <= |s|
    ensures multiset(s[k..])[y] <= multiset(s)[y]
  {
    assert s == s[..k] + s[k..];
  }

  lemma BeforeAtCons<T>(x: T, s: seq<T>, r: T, c: nat, q: T, e: nat, k: nat)
    ensures BeforeAt([x] + s, r, c, q, e, k + 1) <==> BeforeAt(s, r, c, q, e, k)
  {
    if k < |s| {
      assert ([x] + s)[k + 1..] == s[k..] && ([x] + s)[k + 1 + 1..] == s[k + 1..];
    }
  }

  lemma BeforeAtHead<T>(x: T, s: seq<T>, r: T, c: nat, q: T, e: nat)
    ensures BeforeAt([x] + s, r, c, q, e, 0) <==> x == r && multiset([x] + s)[r] == c && multiset(s)[q] >= e
  {
    assert ([x] + s)[0..] == [x] + s && ([x] + s)[1..] == s;
  }

  lemma BeforeCons<T(!new)>(x: T, s: seq<T>, r: T, c: nat, q: T, e: nat)
    ensures Before([x] + s, r, c, q, e) <==>
            (x == r && multiset([x] + s)[r] == c && multiset(s)[q] >= e) || Before(s, r, c, q, e)
  {
    hide BeforeAt;
    BeforeAtHead(x, s, r, c, q, e);
    if k: nat :| BeforeAt(s, r, c, q, e, k) {
      BeforeAtCons(x, s, r, c, q, e, k);
    }
    if k: nat :| BeforeAt([x] + s, r, c, q, e, k) {
      if k > 0 {
        BeforeAtCons(x, s, r, c, q, e, k - 1);
      }
    }
  }

  /** A first element of x that s has no copy for does not matter. */
  lemma SkipHead<T(!new)>(x: T, y: seq<T>, s: seq<T>)
    requires multiset(s)[x] < multiset([x] + y)[x]
    ensures OrderKept([x] + y, s) <==> OrderKept(y, s)
  {
    forall i, j | 0 <= i < j < |s|
      ensures PairKept([x] + y, s, i, j) <==> PairKept(y, s, i, j)
    {
      BeforeCons(x, y, s[i], Rank(s, i), s[j], Rank(s, j));
      CountSuffix(s, i, s[i]);
    }
  }

  lemma RankCons<T>(x: T, s: seq<T>, i: nat)
    requires i < |s|
    ensures ([x] + s)[i + 1] == s[i] && Rank([x] + s, i + 1) == Rank(s, i)
  {
    assert ([x] + s)[i + 1..] == s[i..];
  }

  lemma HeadBefore<T(!new)>(x: T, y: seq<T>, s: seq<T>, j: nat)
    requires multiset(s) <= multiset(y) && multiset(s)[x] == multiset(y)[x] && j < |s|
    ensures PairKept([x] + y, [x] + s, 0, j + 1)
  {
    assert ([x] + s)[0..] == [x] + s;
    RankCons(x, s, j);
    CountCons(x, y, x);
    CountCons(x, s, x);
    CountSuffix(s, j, s[j]);
    BeforeCons(x, y, x, Rank([x] + s, 0), s[j], Rank(s, j));
  }

  lemma PairCons<T(!new)>(x: seq<T>, h: T, s: seq<T>, i: nat, j: nat)
    requires i < j < |s|
    ensures PairKept(x, [h] + s, i + 1, j + 1) <==> PairKept(x, s, i, j)
  {
    RankCons(h, s, i);
    RankCons(h, s, j);
  }

  lemma PairBelow<T(!new)>(x: seq<T>, h: T, s: seq<T>, i: nat, j: nat)
    requires OrderKept(x, [h] + s) && i < j < |s|
    ensures PairKept(x, s, i, j)
  {
    PairCons(x, h, s, i, j);
    assert PairKept(x, [h] + s, i + 1, j + 1);
  }

  lemma PairAbove<T(!new)>(x: T, y: seq<T>, s: seq<T>, i: nat, j: nat)
    requires multiset(s) <= multiset(y) && multiset(s)[x] == multiset(y)[x]
    requires OrderKept([x] + y, s) && i < j < |s| + 1
    ensures PairKept([x] + y, [x] + s, i, j)
  {
    hide PairKept;
    if i == 0 {
      HeadBefore(x, y, s, j - 1);
    } else {
      assert PairKept([x] + y, s, i - 1, j - 1);
      PairCons([x] + y, x, s, i - 1, j - 1);
    }
  }

  /** Neither does an element that both begin with, if x has no other copies than s. */
  lemma KeepHead<T(!new)>(x: T, y: seq<T>, s: seq<T>)
    requires multiset(s) <= multiset(y) && multiset(s)[x] == multiset(y)[x]
    ensures OrderKept([x] + y, [x] + s) <==> OrderKept(y, s)
  {
    CountCons(x, y, x);
    SkipHead(x, y, s);
    if OrderKept([x] + y, [x] + s) {
      forall i, j | 0 <= i < j < |s| ensures PairKept([x] + y, s, i, j) {
        PairBelow([x] + y, x, s, i, j);
      }
      assert OrderKept([x] + y, s);
    }
    if OrderKept([x] + y, s) {
      AllAbove(x, y, s);
    }
  }

  lemma AllAbove<T(!new)>(x: T, y: seq<T>, s: seq<T>)
    requires multiset(s) <= multiset(y) && multiset(s)[x] == multiset(y)[x]
    requires OrderKept([x] + y, s)
    ensures OrderKept([x] + y, [x] + s)
  {
    hide PairKept;
    forall i, j | 0 <= i < j < |[x] + s| ensures PairKept([x] + y, [x] + s, i, j) {
      PairAbove(x, y, s, i, j);
    }
  }

  lemma {:induction false} FirstCopy<T>(s: seq<T>, x: T) returns (p: nat)
    requires x in s
    ensures p < |s| && s[p] == x && Rank(s, p) == multiset(s)[x]
  {
    assert s == [s[0]] + s[1..];
    if s[0] == x {
      p := 0;
      assert s[0..] == s;
    } else {
      p := FirstCopy(s[1..], x);
      assert s[1..][p..] == s[p + 1..];
      p := p + 1;
    }
  }

  lemma BehindFirst<T>(x: T, y: seq<T>, r: T, c: nat, e: nat, k: nat)
    requires BeforeAt([x] + y, r, c, x, e, k)
    ensures e <= multiset(y)[x]
  {
    assert ([x] + y)[k + 1..] == y[k..];
    CountSuffix(y, k, x);
  }

  /** If x begins with an element that s has all the copies of, s begins with it too. */
  lemma SameHead<T(!new)>(x: T, y: seq<T>, s: seq<T>)
    requires multiset(s)[x] == multiset([x] + y)[x] && OrderKept([x] + y, s)
    ensures |s| > 0 && s[0] == x
  {
    CountCons(x, y, x);
    var p := FirstCopy(s, x);
    if p > 0 {
      assert PairKept([x] + y, s, 0, p);
      hide BeforeAt, OrderKept;
      var k: nat :| BeforeAt([x] + y, s[0], Rank(s, 0), s[p], Rank(s, p), k);
      BehindFirst(x, y, s[0], Rank(s, 0), Rank(s, p), k);
      assert false;
    }
  }

  lemma {:induction false} TrimCounts<T>(s: seq<T>, m: multiset<T>, y: T)
    ensures multiset(Trim(s, m))[y] == Minus(multiset(s)[y], m[y])
  {
    if |s| == 0 {
    } else {
      assert s == [s[0]] + s[1..];
      CountCons(s[0], s[1..], y);
      if s[0] in m {
        TrimCounts(s[1..], m - multiset{s[0]}, y);
      } else {
        TrimCounts(s[1..], m, y);
        CountCons(s[0], Trim(s[1..], m), y);
      }
    }
  }

  /** Trimming gives s exactly if it gives as many copies of everything and the order of any
      two copies is kept. */
  lemma {:induction false} TrimIff<T(!new)>(x: seq<T>, m: multiset<T>, s: seq<T>)
    requires multiset(Trim(x, m)) == multiset(s)
    ensures Trim(x, m) == s <==> OrderKept(x, s)
    decreases |x|, 0
  {
    if |x| == 0 {
      assert |s| == |multiset(s)|;
    } else {
      var h, y := x[0], x[1..];
      assert x == [h] + y;
      CountCons(h, y, h);
      TrimCounts(x, m, h);
      if h in m {
        TrimIff(y, m - multiset{h}, s);
        SkipHead(h, y, s);
      } else {
        KeptIff(h, y, m, s);
      }
    }
  }

  lemma {:induction false} KeptIff<T(!new)>(h: T, y: seq<T>, m: multiset<T>, s: seq<T>)
    requires h !in m && multiset([h] + Trim(y, m)) == multiset(s)
    ensures [h] + Trim(y, m) == s <==> OrderKept([h] + y, s)
    decreases |y|, 2
  {
    CountCons(h, Trim(y, m), h);
    TrimCounts(y, m, h);
    CountCons(h, y, h);
    if OrderKept([h] + y, s) {
      SameHead(h, y, s);
    }
    hide OrderKept;
    if |s| > 0 && s[0] == h {
      assert s == [h] + s[1..];
      KeptTail(h, y, m, s[1..]);
    }
  }

  lemma {:induction false} KeptTail<T(!new)>(h: T, y: seq<T>, m: multiset<T>, tail: seq<T>)
    requires h !in m && multiset([h] + Trim(y, m)) == multiset([h] + tail)
    ensures [h] + Trim(y, m) == [h] + tail <==> OrderKept([h] + y, [h] + tail)
    decreases |y|, 1
  {
    hide OrderKept;
    var kept := Trim(y, m);
    assert multiset(kept) == multiset([h] + kept) - multiset{h} == multiset([h] + tail) - multiset{h} == multiset(tail);
    TrimIff(y, m, tail);
    forall q ensures multiset(tail)[q] <= multiset(y)[q] {
      TrimCounts(y, m, q);
    }
    TrimCounts(y, m, h);
    KeepHead(h, y, tail);
    assert ([h] + kept)[1..] == kept && ([h] + tail)[1..] == tail;
  }

  /** The exact condition, for every table, every list of rules and every point at which the
      append pass stopped: all chains are as they were, order included, if and only if none
      of the rules not reached was there before and, for any two rules of a chain, the copy
      that will stand for the first is in front of the copy that will stand for the second.
      Which copies these are is known beforehand: the last ones of what was there and what
      is appended, as many as were there. */
  lemma ChainsRestoredIff(t: Table, es: seq<Emission>, n: nat)
    requires n <= |es|
    ensures DeleteAll(AddAll(t, es[..n]), es) == t <==>
            && Fresh(t, es[n..])
            && forall at :: at in t ==> OrderKept(t[at] + RulesAt(es[..n], at), t[at])
  {
    var a := AddAll(t, es[..n]);
    var u := DeleteAll(a, es);
    RulesRestoredIff(t, es, n);
    if Fresh(t, es[n..]) {
      forall at | at in t ensures u[at] == t[at] <==> OrderKept(t[at] + RulesAt(es[..n], at), t[at]) {
        DeleteAllTrims(a, es, at);
        TrimIff(a[at], multiset(RulesAt(es, at)), t[at]);
      }
      assert u == t <==> forall at :: at in t ==> u[at] == t[at];
    } else {
      assert SameRules(t, t);
    }
  }

  /** The rule was reached by the append pass, if it is in the list at all. */
  lemma WasReached(t: Table, es: seq<Emission>, n: nat, e: Emission)
    requires n <= |es| && Fresh(t, es[n..]) && e in es && Holds(t, e)
    ensures e in es[..n]
  {
    assert es == es[..n] + es[n..];
  }

  /** So if all chains are as they were, then behind a rule that was there before and is in
      the list there was nothing else than rules of the list. */
  lemma NothingForeignBehind(t: Table, es: seq<Emission>, n: nat, at: ChainRef, i: nat, j: nat)
    requires n <= |es| && DeleteAll(AddAll(t, es[..n]), es) == t
    requires at in t && i < j < |t[at]| && Emission(at, t[at][i]) in es
    ensures Emission(at, t[at][j]) in es
  {
    hide OrderKept, DeleteAll, AddAll, RulesAt;
    ChainsRestoredIff(t, es, n);
    WasReached(t, es, n, Emission(at, t[at][i]));
    RulesAtIn(es[..n], at, t[at][i]);
    RulesAtIn(es[..n], at, t[at][j]);
    KeptNothingForeign(t[at], RulesAt(es[..n], at), i, j);
  }

  lemma KeptNothingForeign<T(!new)>(s: seq<T>, d: seq<T>, i: nat, j: nat)
    requires OrderKept(s + d, s) && i < j < |s| && s[i] in d
    ensures s[j] in d
  {
    hide OrderKept;
    if s[j] !in d {
      var k := LastBefore(s, i, j);
      NoRoom(s, d, k, j);
    }
  }

  lemma {:induction false} LastBefore<T>(s: seq<T>, i: nat, j: nat) returns (k: nat)
    requires i < j <= |s|
    ensures i <= k < j && s[k] == s[i] && forall l :: k < l < j ==> s[l] != s[i]
    decreases j
  {
    if s[j - 1] == s[i] {
      k := j - 1;
    } else {
      k := LastBefore(s, i, j - 1);
    }
  }

  /** The copy that stands for s[k] would have to be among the appended ones, behind s[j]. */
  lemma NoRoom<T(!new)>(s: seq<T>, d: seq<T>, k: nat, j: nat)
    requires k < j < |s| && s[k] in d && s[j] !in d
    requires forall l :: k < l < j ==> s[l] != s[k]
    ensures !OrderKept(s + d, s)
  {
    var x, r, q := s + d, s[k], s[j];
    if OrderKept(x, s) {
      assert PairKept(x, s, k, j);
      var p: nat :| BeforeAt(x, r, Rank(s, k), q, Rank(s, j), p);
      hide Before, OrderKept;
      if p <= k {
        TooManyCopies(s, d, k, p);
        assert false;
      } else {
        TooFewBehind(s, d, j, p);
        assert false;
      }
    }
  }

  lemma TooManyCopies<T>(s: seq<T>, d: seq<T>, k: nat, p: nat)
    requires p <= k < |s| && s[k] in d
    ensures multiset((s + d)[p..])[s[k]] > Rank(s, k)
  {
    var x := s + d;
    assert x[k..] == s[k..] + d;
    assert x[p..][k - p..] == x[k..];
    CountSuffix(x[p..], k - p, s[k]);
  }

  lemma TooFewBehind<T>(s: seq<T>, d: seq<T>, j: nat, p: nat)
    requires j < |s| && j < p < |s + d| && s[j] !in d
    ensures multiset((s + d)[p + 1..])[s[j]] < Rank(s, j)
  {
    var x, q := s + d, s[j];
    assert s[j..] == [q] + s[j + 1..];
    CountCons(q, s[j + 1..], q);
    assert x[j + 1..] == s[j + 1..] + d;
    assert x[j + 1..][p - j..] == x[p + 1..];
    CountSuffix(x[j + 1..], p - j, q);
  }

  lemma {:induction false} ShiftIff<T>(s: seq<T>, r: T)
    ensures s + [r] == [r] + s <==> forall j :: 0 <= j < |s| ==> s[j] == r
  {
    if s + [r] == [r] + s {
      forall j | 0 <= j < |s| ensures s[j] == r {
        ShiftAt(s, r, j);
      }
    }
  }

  lemma {:induction false} ShiftAt<T>(s: seq<T>, r: T, j: nat)
    requires s + [r] == [r] + s && j < |s|
    ensures s[j] == r
  {
    assert s[j] == (s + [r])[j] == ([r] + s)[j];
    if j == 0 {
    } else {
      ShiftAt(s, r, j - 1);
    }
  }

  lemma {:induction false} RemoveAppendedIff<T>(s: seq<T>, r: T)
    ensures RemoveFirst(s + [r], r) == s <==> forall i, j :: 0 <= i < j < |s| && s[i] == r ==> s[j] == r
  {
    if |s| == 0 {
      assert s + [r] == [r];
    } else {
      var tail := s[1..];
      assert s == [s[0]] + tail && (s + [r])[1..] == tail + [r];
      if s[0] == r {
        ShiftIff(tail, r);
        assert forall j :: 0 < j < |s| ==> s[j] == tail[j - 1];
      } else {
        RemoveAppendedIff(tail, r);
        var rest := RemoveFirst(tail + [r], r);
        assert ([s[0]] + rest)[1..] == rest;
        assert forall j :: 0 < j < |s| ==> s[j] == tail[j - 1];
        if forall i, j :: 0 <= i < j < |s| && s[i] == r ==> s[j] == r {
          forall i, j | 0 <= i < j < |tail| && tail[i] == r ensures tail[j] == r {
            assert s[i + 1] == r && s[j + 1] == tail[j];
          }
        }
      }
    }
  }

  /** For a single rule the condition is that nothing different stands behind a copy of it. */
  lemma OneRuleRestoredIff(at: ChainRef, s: seq<Words>, r: Words)
    ensures DeleteAll(AddAll(map[at := s], [Emission(at, r)]), [Emission(at, r)]) == map[at := s] <==>
            forall i, j :: 0 <= i < j < |s| && s[i] == r ==> s[j] == r
  {
    var t: Table := map[at := s];
    var es := [Emission(at, r)];
    assert es[1..] == [];
    assert RulesAt(es, at) == [r];
    var a := AddAll(t, es);
    assert a[at] == s + [r] && a.Keys == {at};
    assert DeleteAll(a, es) == Worked(a, Delete, es[0]);
    assert DeleteAll(a, es) == map[at := RemoveFirst(s + [r], r)];
    assert DeleteAll(a, es)[at] == RemoveFirst(s + [r], r);
    RemoveAppendedIff(s, r);
  }
}
