/** The string functions the firewall hooks build their rules with: strings.Split on one
    character, fmt.Sprintf with %s verbs only, and decimal printing. */
module GoStrings {

  /** strings.Split: empty pieces are kept, and the empty string has one empty piece. */
  function Split(s: string, c: char): (r: seq<string>)
    ensures |r| > 0
  {
    if |s| == 0 then [""]
    else
      var r := Split(s[1..], c);
      if s[0] == c then [""] + r else [[s[0]] + r[0]] + r[1..]
  }

  function Join(ts: seq<string>, c: char): string
    requires |ts| > 0
  {
    if |ts| == 1 then ts[0] else ts[0] + [c] + Join(ts[1..], c)
  }

  predicate Free(s: string, c: char) {
    c !in s
  }

  ghost predicate AllFree(ts: seq<string>, c: char) {
    forall i :: 0 <= i < |ts| ==> Free(ts[i], c)
  }

  /** Splitting loses nothing and leaves no separator. */
  lemma {:induction false} JoinSplit(s: string, c: char)
    ensures Join(Split(s, c), c) == s && AllFree(Split(s, c), c)
  {
    if |s| == 0 {
    } else {
      JoinSplit(s[1..], c);
      var r := Split(s[1..], c);
      if s[0] == c {
        assert Split(s, c)[1..] == r;
      } else {
        var t := Split(s, c);
        assert t[1..] == r[1..];
        assert s == [s[0]] + s[1..];
      }
    }
  }

  lemma {:induction false} SplitFree(p: string, c: char)
    requires Free(p, c)
    ensures Split(p, c) == [p]
  {
    if |p| == 0 {
    } else {
      SplitFree(p[1..], c);
      assert p == [p[0]] + p[1..];
    }
  }

  lemma SplitCons(x: char, s: string, c: char)
    requires x != c
    ensures Split([x] + s, c) == [[x] + Split(s, c)[0]] + Split(s, c)[1..]
  {
    assert ([x] + s)[1..] == s;
  }

  /** Text without separators goes in front of the first piece. */
  lemma {:induction false} SplitAfter(p: string, s: string, c: char)
    requires Free(p, c)
    ensures Split(p + s, c) == [p + Split(s, c)[0]] + Split(s, c)[1..]
  {
    if |p| == 0 {
      assert p + s == s;
      assert p + Split(s, c)[0] == Split(s, c)[0];
      assert Split(s, c) == [Split(s, c)[0]] + Split(s, c)[1..];
    } else {
      SplitAfter(p[1..], s, c);
      SplitCons(p[0], p[1..] + s, c);
      hide Split;
      assert p + s == [p[0]] + (p[1..] + s);
      assert p + Split(s, c)[0] == [p[0]] + (p[1..] + Split(s, c)[0]);
    }
  }

  lemma SplitAtSep(p: string, s: string, c: char)
    requires Free(p, c)
    ensures Split(p + [c] + s, c) == [p] + Split(s, c)
  {
    assert p + [c] + s == p + ([c] + s);
    assert ([c] + s)[1..] == s;
    SplitAfter(p, [c] + s, c);
    assert Split([c] + s, c) == [""] + Split(s, c);
    assert p + "" == p;
  }

  /** Joining pieces without separators and splitting again gives back the pieces. */
  lemma {:induction false} SplitJoin(ts: seq<string>, c: char)
    requires |ts| > 0 && AllFree(ts, c)
    ensures Split(Join(ts, c), c) == ts
  {
    if |ts| == 1 {
      SplitFree(ts[0], c);
    } else {
      assert AllFree(ts[1..], c);
      SplitJoin(ts[1..], c);
      SplitAtSep(ts[0], Join(ts[1..], c), c);
    }
  }

  predicate StartsWithVerb(f: string) {
    |f| >= 2 && f[0] == '%' && f[1] == 's'
  }

  /** The number of %s verbs in a format. */
  function Verbs(f: string): nat {
    if |f| == 0 then 0
    else if StartsWithVerb(f) then 1 + Verbs(f[2..])
    else Verbs(f[1..])
  }

  /** fmt.Sprintf for formats whose verbs are all %s, with one argument for each. */
  function Sprintf(f: string, args: seq<string>): string
    requires |args| == Verbs(f)
  {
    if |f| == 0 then ""
    else if StartsWithVerb(f) then args[0] + Sprintf(f[2..], args[1..])
    else [f[0]] + Sprintf(f[1..], args)
  }

  function TotalVerbs(ts: seq<string>): nat {
    if |ts| == 0 then 0 else Verbs(ts[0]) + TotalVerbs(ts[1..])
  }

  /** The tokens of a template with the arguments put in place, from left to right. */
  function Fill(ts: seq<string>, args: seq<string>): (r: seq<string>)
    requires |args| == TotalVerbs(ts)
    ensures |r| == |ts|
  {
    if |ts| == 0 then []
    else
      var n := Verbs(ts[0]);
      [Sprintf(ts[0], args[..n])] + Fill(ts[1..], args[n..])
  }

  lemma {:induction false} VerbsSplit(f: string)
    ensures TotalVerbs(Split(f, ' ')) == Verbs(f)
  {
    if |f| == 0 {
    } else {
      if StartsWithVerb(f) {
        var g := f[2..];
        VerbsSplit(g);
        VerbFirst(f);
      } else {
        VerbsSplit(f[1..]);
        PlainFirst(f);
      }
    }
  }

  /** The pieces of a format that starts with a verb. */
  lemma VerbFirst(f: string)
    requires StartsWithVerb(f)
    ensures var r := Split(f[2..], ' ');
            && Split(f, ' ') == [['%', 's'] + r[0]] + r[1..]
            && (['%', 's'] + r[0])[2..] == r[0]
            && Verbs(['%', 's'] + r[0]) == 1 + Verbs(r[0])
  {
    var r := Split(f[2..], ' ');
    assert f[1..][1..] == f[2..];
    assert Split(f[1..], ' ') == [['s'] + r[0]] + r[1..];
    assert ['%'] + (['s'] + r[0]) == ['%', 's'] + r[0];
    assert (['%', 's'] + r[0])[2..] == r[0];
  }

  /** The pieces of a format that starts with any other character. */
  lemma PlainFirst(f: string)
    requires |f| > 0 && !StartsWithVerb(f)
    ensures var r := Split(f[1..], ' ');
            f[0] != ' ' ==>
              && Split(f, ' ') == [[f[0]] + r[0]] + r[1..]
              && ([f[0]] + r[0])[1..] == r[0]
              && !StartsWithVerb([f[0]] + r[0])
              && Verbs([f[0]] + r[0]) == Verbs(r[0])
    ensures f[0] == ' ' ==> Split(f, ' ') == [""] + Split(f[1..], ' ')
  {
    var r := Split(f[1..], ' ');
    if f[0] != ' ' {
      assert ([f[0]] + r[0])[1..] == r[0];
    }
  }

  /** The encoding of the rules is faithful: for every template, as long as no argument has a
      space in it, splitting the rendered string gives back exactly the tokens of the
      template with the arguments substituted. Empty arguments are no exception. */
  lemma {:induction false} SplitSprintf(f: string, args: seq<string>)
    requires |args| == Verbs(f) && AllFree(args, ' ')
    ensures TotalVerbs(Split(f, ' ')) == Verbs(f)
    ensures Split(Sprintf(f, args), ' ') == Fill(Split(f, ' '), args)
    decreases |f|
  {
    VerbsSplit(f);
    if |f| == 0 {
    } else if StartsWithVerb(f) {
      var r := Split(f[2..], ' ');
      VerbFirst(f);
      VerbsSplit(f[2..]);
      assert AllFree(args[1..], ' ');
      SplitSprintf(f[2..], args[1..]);
      SplitAfter(args[0], Sprintf(f[2..], args[1..]), ' ');
      var n := Verbs(r[0]);
      assert args[..n + 1][1..] == args[1..][..n];
      assert args[n + 1..] == args[1..][n..];
      assert args[..n + 1][0] == args[0];
      assert Split(f, ' ')[1..] == r[1..];
    } else {
      var r := Split(f[1..], ' ');
      PlainFirst(f);
      VerbsSplit(f[1..]);
      SplitSprintf(f[1..], args);
      if f[0] == ' ' {
        assert Split(f, ' ')[1..] == r;
        assert args[0..] == args;
        assert ([' '] + Sprintf(f[1..], args))[1..] == Sprintf(f[1..], args);
      } else {
        SplitAfter([f[0]], Sprintf(f[1..], args), ' ');
        assert Split(f, ' ')[1..] == r[1..];
      }
    }
  }

  predicate IsDigit(c: char) {
    '0' <= c <= '9'
  }

  predicate Digits(s: string) {
    forall i :: 0 <= i < |s| ==> IsDigit(s[i])
  }

  /** strconv.Itoa on a non-negative number. */
  function Itoa(n: nat): (s: string)
    ensures |s| > 0 && Digits(s)
  {
    if n < 10 then ["0123456789"[n]] else Itoa(n / 10) + ["0123456789"[n % 10]]
  }

  function DigitValue(c: char): (n: nat)
    requires IsDigit(c)
    ensures n < 10
  {
    (c as int) - ('0' as int)
  }

  /** The number a digit string stands for. */
  function Value(s: string): nat
    requires Digits(s)
  {
    if |s| == 0 then 0 else 10 * Value(s[..|s| - 1]) + DigitValue(s[|s| - 1])
  }

  lemma {:induction false} ValueItoa(n: nat)
    ensures Value(Itoa(n)) == n
  {
    var d := "0123456789"[n % 10];
    assert DigitValue(d) == n % 10;
    if n < 10 {
    } else {
      ValueItoa(n / 10);
      assert (Itoa(n / 10) + [d])[..|Itoa(n / 10)|] == Itoa(n / 10);
    }
  }

  lemma DigitIs(d: nat)
    requires d < 10
    ensures "0123456789"[d] == ('0' as int + d) as char
  {
  }

  /** Decimal printing is one digit, or the digits of all but the last and then the last, and has
      no leading zero. */
  lemma {:induction false} ItoaDigits(n: nat)
    ensures n < 10 ==> Itoa(n) == [('0' as int + n) as char]
    ensures n >= 10 ==> Itoa(n) == Itoa(n / 10) + [('0' as int + n % 10) as char]
    ensures n > 0 ==> Itoa(n)[0] != '0'
  {
    DigitIs(n % 10);
    if n < 10 {
      assert n % 10 == n;
      assert Itoa(n) == ["0123456789"[n]];
    } else {
      ItoaDigits(n / 10);
      assert Itoa(n) == Itoa(n / 10) + ["0123456789"[n % 10]];
    }
  }

  lemma LastColon(a: string, s: string, b: string, t: string)
    requires a + ":" + s == b + ":" + t && Free(s, ':')
    ensures |b| <= |a|
  {
    var x := a + ":" + s;
    forall i | |a| < i < |x| ensures x[i] != ':' {
      assert x[i] == s[i - |a| - 1];
    }
    assert (b + ":" + t)[|b|] == ':';
  }

  /** An address and a decimal port can be told apart again, even if the address has colons. */
  lemma AddressPortInjective(a: string, m: nat, b: string, n: nat)
    requires a + ":" + Itoa(m) == b + ":" + Itoa(n)
    ensures a == b && m == n
  {
    var x, y := a + ":" + Itoa(m), b + ":" + Itoa(n);
    LastColon(a, Itoa(m), b, Itoa(n));
    LastColon(b, Itoa(n), a, Itoa(m));
    assert a == x[..|a|] && b == y[..|b|];
    assert Itoa(m) == x[|a| + 1..] && Itoa(n) == y[|b| + 1..];
    ValueItoa(m);
    ValueItoa(n);
  }
}
