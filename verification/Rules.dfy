/** The rule templates of hook/iptables.go and hook/acl.go, and the encoding of a rule as the
    list of words that is handed to iptables. */
module Rules {
  import opened GoStrings

  /** A word of a template: fixed text, the verb %s, or the verb followed by /32. */
  datatype Piece = Word(w: string) | Verb | Verb32

  /** A template, word by word; its text has single spaces between the words. */
  datatype Template = End | Then(p: Piece, rest: Template)

  function PieceText(p: Piece): string {
    match p
    case Word(w) => w
    case Verb => "%s"
    case Verb32 => "%s/32"
  }

  function Words(t: Template): seq<string> {
    match t
    case End => []
    case Then(p, rest) => [PieceText(p)] + Words(rest)
  }

  /** The format string itself. */
  function Text(t: Template): string
    requires t.Then?
  {
    Join(Words(t), ' ')
  }

  function Holes(t: Template): nat {
    match t
    case End => 0
    case Then(p, rest) => (if p.Word? then 0 else 1) + Holes(rest)
  }

  function Size(t: Template): nat {
    match t
    case End => 0
    case Then(_, rest) => 1 + Size(rest)
  }

  /** The words of the template with the arguments from the k-th on put in place. */
  function Place(t: Template, args: seq<string>, k: nat): (r: seq<string>)
    requires k + Holes(t) <= |args|
    ensures |r| == Size(t)
    decreases t
  {
    match t
    case End => []
    case Then(Word(w), rest) => [w] + Place(rest, args, k)
    case Then(Verb, rest) => [args[k]] + Place(rest, args, k + 1)
    case Then(Verb32, rest) => [args[k] + "/32"] + Place(rest, args, k + 1)
  }

  predicate Plain(w: string) {
    '%' !in w && ' ' !in w
  }

  predicate AllPlain(t: Template) {
    match t
    case End => true
    case Then(p, rest) => (p.Word? ==> Plain(p.w)) && AllPlain(rest)
  }

  lemma {:induction false} PlainSprintf(w: string)
    requires '%' !in w
    ensures Verbs(w) == 0 && Sprintf(w, []) == w
  {
    if |w| == 0 {
    } else {
      PlainSprintf(w[1..]);
      assert w == [w[0]] + w[1..];
    }
  }

  /** What Sprintf makes of one piece. */
  lemma PieceSprintf(p: Piece, x: string)
    requires p.Word? ==> Plain(p.w)
    ensures Verbs(PieceText(p)) == if p.Word? then 0 else 1
    ensures match p
            case Word(w) => Sprintf(PieceText(p), []) == w
            case Verb => Sprintf(PieceText(p), [x]) == x
            case Verb32 => Sprintf(PieceText(p), [x]) == x + "/32"
    ensures Free(PieceText(p), ' ')
  {
    match p
    case Word(w) => PlainSprintf(w);
    case Verb =>
      assert "%s"[2..] == "";
    case Verb32 =>
      PlainSprintf("/32");
      assert "%s/32"[2..] == "/32";
      assert [x][1..] == [];
  }

  lemma {:induction false} WordsOf(t: Template)
    requires AllPlain(t)
    ensures TotalVerbs(Words(t)) == Holes(t) && AllFree(Words(t), ' ')
  {
    match t
    case End =>
    case Then(p, rest) =>
      PieceSprintf(p, "");
      WordsOf(rest);
      assert Words(t)[1..] == Words(rest);
  }

  lemma {:induction false} FillIsPlace(t: Template, args: seq<string>, k: nat)
    requires AllPlain(t) && k + Holes(t) == |args| && TotalVerbs(Words(t)) == Holes(t)
    ensures Fill(Words(t), args[k..]) == Place(t, args, k)
    decreases t
  {
    match t
    case End =>
    case Then(p, rest) =>
      assert Words(t)[1..] == Words(rest);
      WordsOf(rest);
      if p.Word? {
        PieceSprintf(p, "");
        FillIsPlace(rest, args, k);
        assert args[k..][..0] == [] && args[k..][0..] == args[k..];
      } else {
        PieceSprintf(p, args[k]);
        FillIsPlace(rest, args, k + 1);
        assert args[k..][..1] == [args[k]] && args[k..][1..] == args[k + 1..];
      }
  }

  lemma TextVerbs(t: Template)
    requires t.Then? && AllPlain(t)
    ensures Verbs(Text(t)) == Holes(t)
  {
    WordsOf(t);
    SplitJoin(Words(t), ' ');
    VerbsSplit(Text(t));
  }

  /** Rendering a template and splitting the text is placing its arguments, exactly if no
      argument has a space. */
  lemma RenderSplitIff(t: Template, args: seq<string>)
    requires t.Then? && AllPlain(t) && |args| == Holes(t)
    ensures Verbs(Text(t)) == |args|
    ensures Split(Sprintf(Text(t), args), ' ') == Place(t, args, 0) <==> AllFree(args, ' ')
  {
    TextVerbs(t);
    WordsOf(t);
    SplitJoin(Words(t), ' ');
    if AllFree(args, ' ') {
      SplitSprintf(Text(t), args);
      FillIsPlace(t, args, 0);
      assert args[0..] == args;
    }
    if Split(Sprintf(Text(t), args), ' ') == Place(t, args, 0) {
      JoinSplit(Sprintf(Text(t), args), ' ');
      PlacedFree(t, args, 0);
      assert AllFree(args[0..], ' ');
      assert args[0..] == args;
    }
  }

  lemma {:induction false} PlacedFree(t: Template, args: seq<string>, k: nat)
    requires k + Holes(t) == |args| && AllFree(Place(t, args, k), ' ')
    ensures AllFree(args[k..], ' ')
    decreases t
  {
    match t
    case End =>
    case Then(p, rest) =>
      var r := Place(t, args, k);
      if p.Word? {
        assert r[1..] == Place(rest, args, k);
        PlacedFree(rest, args, k);
      } else {
        assert r[1..] == Place(rest, args, k + 1);
        PlacedFree(rest, args, k + 1);
        assert Free(r[0], ' ');
        assert args[k] <= r[0];
        assert Free(args[k], ' ') by {
          forall i | 0 <= i < |args[k]| ensures args[k][i] != ' ' { assert args[k][i] == r[0][i]; }
        }
        assert args[k..] == [args[k]] + args[k + 1..];
      }
  }

  /** Equal words come from equal arguments. */
  lemma {:induction false} PlaceInjective(t: Template, a: seq<string>, b: seq<string>, k: nat)
    requires k + Holes(t) == |a| == |b| && Place(t, a, k) == Place(t, b, k)
    ensures a[k..] == b[k..]
    decreases t
  {
    match t
    case End =>
    case Then(p, rest) =>
      var x, y := Place(t, a, k), Place(t, b, k);
      var n := if p.Word? then k else k + 1;
      assert x[1..] == Place(rest, a, n) && y[1..] == Place(rest, b, n);
      PlaceInjective(rest, a, b, n);
      if !p.Word? {
        assert x[0] == y[0];
        assert p.Verb32? ==> a[k] == x[0][..|x[0]| - 3] && b[k] == y[0][..|y[0]| - 3];
        assert a[k..] == [a[k]] + a[k + 1..] && b[k..] == [b[k]] + b[k + 1..];
      }
  }

  /** The rules the two hooks generate, with what each template carries. */
  datatype Rule =
    | Dnat(iface: string, proto: string, hostPort: nat, ip: string, containerPort: nat)
    | Masquerade(iface: string, ip: string)
    | SelfMasquerade(ip: string, proto: string, containerPort: nat)
    | ForwardIn(ip: string, iface: string, proto: string, containerPort: nat)
    | ForwardOut(iface: string, proto: string, ip: string, containerPort: nat)
    | Acl(iface: string, proto: string, cidr: string, hostPort: nat)

  /** A word without an argument. */
  function Flag(w: string, rest: Template): (t: Template)
    ensures t.Then? && Holes(t) == Holes(rest) && Size(t) == 1 + Size(rest)
    ensures AllPlain(t) <==> Plain(w) && AllPlain(rest)
  {
    Then(Word(w), rest)
  }

  /** A word followed by an argument. */
  function Opt(w: string, rest: Template): (t: Template)
    ensures t.Then? && Holes(t) == 1 + Holes(rest) && Size(t) == 2 + Size(rest)
    ensures AllPlain(t) <==> Plain(w) && AllPlain(rest)
  {
    Then(Word(w), Then(Verb, rest))
  }

  /** A word followed by an address, as a network of one. */
  function Opt32(w: string, rest: Template): (t: Template)
    ensures t.Then? && Holes(t) == 1 + Holes(rest) && Size(t) == 2 + Size(rest)
    ensures AllPlain(t) <==> Plain(w) && AllPlain(rest)
  {
    Then(Word(w), Then(Verb32, rest))
  }

  function Jump(target: string, rest: Template): (t: Template)
    ensures t.Then? && Holes(t) == Holes(rest) && Size(t) == 2 + Size(rest)
    ensures AllPlain(t) <==> Plain("-j") && Plain(target) && AllPlain(rest)
  {
    Then(Word("-j"), Then(Word(target), rest))
  }

  function TemplateOf(r: Rule): (t: Template)
    ensures t.Then?
  {
    match r
    case Dnat(_, _, _, _, _) =>
      Flag("!", Opt("-i", Opt("-p", Jump("DNAT", Opt("--dport", Opt("--to-destination", Flag("--wait", End)))))))
    case Masquerade(_, _) =>
      Flag("!", Opt("-o", Opt32("-s", Jump("MASQUERADE", Flag("--wait", End)))))
    case SelfMasquerade(_, _, _) =>
      Opt32("-d", Opt("-p", Opt32("-s", Jump("MASQUERADE", Opt("--dport", Flag("--wait", End))))))
    case ForwardIn(_, _, _, _) =>
      Opt32("-d", Flag("!", Opt("-i", Opt("-o", Opt("-p", Jump("ACCEPT", Opt("--dport", Flag("--wait", End))))))))
    case ForwardOut(_, _, _, _) =>
      Opt("-i", Flag("!", Opt("-o", Opt("-p", Opt32("-s", Jump("ACCEPT", Opt("--sport", Flag("--wait", End))))))))
    case Acl(_, _, _, _) =>
      Opt("-i", Opt("-p", Opt("-s", Opt("--dport", Jump("ACCEPT", End)))))
  }

  function ArgsOf(r: Rule): seq<string> {
    match r
    case Dnat(iface, proto, hostPort, ip, containerPort) =>
      [iface, proto, Itoa(hostPort), ip + ":" + Itoa(containerPort)]
    case Masquerade(iface, ip) => [iface, ip]
    case SelfMasquerade(ip, proto, containerPort) => [ip, proto, ip, Itoa(containerPort)]
    case ForwardIn(ip, iface, proto, containerPort) => [ip, iface, iface, proto, Itoa(containerPort)]
    case ForwardOut(iface, proto, ip, containerPort) => [iface, iface, proto, ip, Itoa(containerPort)]
    case Acl(iface, proto, cidr, hostPort) => [iface, proto, cidr, Itoa(hostPort)]
  }

  lemma PlainWords()
    ensures Plain("!") && Plain("-i") && Plain("-o") && Plain("-p") && Plain("-s") && Plain("-d") && Plain("-j")
    ensures Plain("DNAT") && Plain("MASQUERADE") && Plain("ACCEPT")
    ensures Plain("--dport") && Plain("--sport") && Plain("--wait")
    ensures Plain("--to-destination")
  {
    assert Plain("--to-destination");
    assert Plain("MASQUERADE") && Plain("--dport") && Plain("--sport") && Plain("--wait");
  }

  lemma TemplateOk(r: Rule)
    ensures AllPlain(TemplateOf(r)) && Holes(TemplateOf(r)) == |ArgsOf(r)|
  {
    PlainWords();
    hide Plain, Flag, Opt, Opt32, Jump;
  }

  function Render(r: Rule): string {
    TemplateOk(r);
    TextVerbs(TemplateOf(r));
    Sprintf(Text(TemplateOf(r)), ArgsOf(r))
  }

  /** The rule as it is handed to the driver. */
  function Tokens(r: Rule): seq<string> {
    Split(Render(r), ' ')
  }

  /** No text of the rule has a space in it. */
  ghost predicate Clean(r: Rule) {
    AllFree(ArgsOf(r), ' ')
  }

  /** The words of r, without the detour through its text. */
  function Placed(r: Rule): (ws: seq<string>)
    ensures |ws| == Size(TemplateOf(r))
  {
    TemplateOk(r);
    Place(TemplateOf(r), ArgsOf(r), 0)
  }

  /** A template with a space in front of each of its words. */
  function Spaced(t: Template): string {
    match t
    case End => ""
    case Then(p, rest) => " " + PieceText(p) + Spaced(rest)
  }

  lemma {:induction false} SpacedIsText(t: Template)
    requires t.Then?
    ensures Spaced(t) == " " + Text(t)
    decreases t
  {
    if t.rest.End? {
      assert Text(t) == PieceText(t.p) && Spaced(t.rest) == "";
    } else {
      SpacedIsText(t.rest);
      assert Words(t)[1..] == Words(t.rest);
      assert Text(t) == PieceText(t.p) + " " + Text(t.rest);
    }
  }

  /** What each option contributes to the text. */
  lemma OptionTexts()
    ensures forall w, rest {:trigger Spaced(Flag(w, rest))} :: Spaced(Flag(w, rest)) == (" " + w) + Spaced(rest)
    ensures forall w, rest {:trigger Spaced(Opt(w, rest))} :: Spaced(Opt(w, rest)) == (" " + w + " %s") + Spaced(rest)
    ensures forall w, rest {:trigger Spaced(Opt32(w, rest))} ::
              Spaced(Opt32(w, rest)) == (" " + w + " %s/32") + Spaced(rest)
    ensures forall w, rest {:trigger Spaced(Jump(w, rest))} :: Spaced(Jump(w, rest)) == (" -j " + w) + Spaced(rest)
  {
    forall w, rest ensures Spaced(Opt(w, rest)) == (" " + w + " %s") + Spaced(rest) {
      assert Spaced(Opt(w, rest)) == " " + w + (" " + "%s" + Spaced(rest));
    }
    forall w, rest ensures Spaced(Opt32(w, rest)) == (" " + w + " %s/32") + Spaced(rest) {
      assert Spaced(Opt32(w, rest)) == " " + w + (" " + "%s/32" + Spaced(rest));
    }
    forall w, rest ensures Spaced(Jump(w, rest)) == (" -j " + w) + Spaced(rest) {
      assert Spaced(Jump(w, rest)) == " " + "-j" + (" " + w + Spaced(rest));
    }
  }

  /** The format strings of the source with a space in front, cut before each option. */
  function FormatOf(r: Rule): string {
    match r
    case Dnat(_, _, _, _, _) =>
      " !" + (" -i %s" + (" -p %s" + (" -j DNAT" + (" --dport %s" + (" --to-destination %s" + " --wait")))))
    case Masquerade(_, _) =>
      " !" + (" -o %s" + (" -s %s/32" + (" -j MASQUERADE" + " --wait")))
    case SelfMasquerade(_, _, _) =>
      " -d %s/32" + (" -p %s" + (" -s %s/32" + (" -j MASQUERADE" + (" --dport %s" + " --wait"))))
    case ForwardIn(_, _, _, _) =>
      " -d %s/32" + (" !" + (" -i %s" + (" -o %s" + (" -p %s" + (" -j ACCEPT" + (" --dport %s" + " --wait"))))))
    case ForwardOut(_, _, _, _) =>
      " -i %s" + (" !" + (" -o %s" + (" -p %s" + (" -s %s/32" + (" -j ACCEPT" + (" --sport %s" + " --wait"))))))
    case Acl(_, _, _, _) =>
      " -i %s" + (" -p %s" + (" -s %s" + (" --dport %s" + " -j ACCEPT")))
  }

  lemma ShortOptions()
    ensures " -i %s" == " " + "-i" + " %s" && " -o %s" == " " + "-o" + " %s"
    ensures " -p %s" == " " + "-p" + " %s" && " -s %s" == " " + "-s" + " %s"
    ensures " -d %s/32" == " " + "-d" + " %s/32" && " -s %s/32" == " " + "-s" + " %s/32"
    ensures " !" == " " + "!"
  {
  }

  lemma LongOptions()
    ensures " --dport %s" == " " + "--dport" + " %s" && " --sport %s" == " " + "--sport" + " %s"
    ensures " --wait" == " " + "--wait" + ""
  {
  }

  lemma Destination()
    ensures " --to-destination %s" == " " + "--to-destination" + " %s"
  {
  }

  lemma Targets()
    ensures " -j DNAT" == " -j " + "DNAT" && " -j ACCEPT" == " -j " + "ACCEPT" + "" && " -j ACCEPT" == " -j " + "ACCEPT"
    ensures " -j MASQUERADE" == " -j " + "MASQUERADE"
  {
  }

  /** The templates are the format strings of the source. */
  lemma FormatIsText(r: Rule)
    ensures " " + Text(TemplateOf(r)) == FormatOf(r)
  {
    SpacedIsText(TemplateOf(r));
    hide Text;
    FormatIsSpaced(r);
  }

  lemma FormatIsSpaced(r: Rule)
    ensures Spaced(TemplateOf(r)) == FormatOf(r)
  {
    assert Spaced(End) == "";
    hide Spaced, Flag, Opt, Opt32, Jump, PieceText;
    OptionTexts();
    ShortOptions();
    LongOptions();
    Targets();
    match r
    case Dnat(_, _, _, _, _) => Destination();
    case Masquerade(_, _) =>
    case SelfMasquerade(_, _, _) =>
    case ForwardIn(_, _, _, _) =>
    case ForwardOut(_, _, _, _) =>
    case Acl(_, _, _, _) =>
  }

  /** The words handed to the driver are those of the template, with the arguments in place,
      exactly if the rule is clean. */
  lemma TokensFaithful(r: Rule)
    ensures Tokens(r) == Placed(r) <==> Clean(r)
  {
    TemplateOk(r);
    RenderSplitIff(TemplateOf(r), ArgsOf(r));
  }

  /** What each option contributes to the words; the arguments are counted from k on. */
  lemma OptionWords(args: seq<string>)
    ensures forall w, t, k: nat {:trigger Place(Flag(w, t), args, k)} ::
              k + Holes(t) <= |args| ==> Place(Flag(w, t), args, k) == [w] + Place(t, args, k)
    ensures forall w, t, k: nat {:trigger Place(Opt(w, t), args, k)} ::
              k + 1 + Holes(t) <= |args| ==> Place(Opt(w, t), args, k) == [w, args[k]] + Place(t, args, k + 1)
    ensures forall w, t, k: nat {:trigger Place(Opt32(w, t), args, k)} ::
              k + 1 + Holes(t) <= |args| ==> Place(Opt32(w, t), args, k) == [w, args[k] + "/32"] + Place(t, args, k + 1)
    ensures forall w, t, k: nat {:trigger Place(Jump(w, t), args, k)} ::
              k + Holes(t) <= |args| ==> Place(Jump(w, t), args, k) == ["-j", w] + Place(t, args, k)
    ensures forall k: nat {:trigger Place(End, args, k)} :: k <= |args| ==> Place(End, args, k) == []
  {
  }

  // Displays put together from pieces.

  lemma Flat8<T>(a: T, b: T, c: T, d: T, e: T, f: T, g: T, h: T)
    ensures [a] + ([b, c] + ([d, e] + ([f, g] + ([h] + [])))) == [a, b, c, d, e, f, g, h]
  {
  }

  lemma Flat10<T>(a: T, b: T, c: T, d: T, e: T, f: T, g: T, h: T, i: T, j: T)
    ensures [a, b] + ([c, d] + ([e, f] + ([g, h] + ([i, j] + [])))) == [a, b, c, d, e, f, g, h, i, j]
  {
  }

  lemma Flat11<T>(a: T, b: T, c: T, d: T, e: T, f: T, g: T, h: T, i: T, j: T, k: T)
    ensures [a, b] + ([c, d] + ([e, f] + ([g, h] + ([i, j] + ([k] + []))))) == [a, b, c, d, e, f, g, h, i, j, k]
  {
  }

  lemma Flat12<T>(a: T, b: T, c: T, d: T, e: T, f: T, g: T, h: T, i: T, j: T, k: T, l: T)
    ensures [a] + ([b, c] + ([d, e] + ([f, g] + ([h, i] + ([j, k] + ([l] + [])))))) ==
            [a, b, c, d, e, f, g, h, i, j, k, l]
  {
  }

  lemma Flat14<T>(a: T, b: T, c: T, d: T, e: T, f: T, g: T, h: T, i: T, j: T, k: T, l: T, m: T, n: T)
    ensures [a, b] + ([c] + ([d, e] + ([f, g] + ([h, i] + ([j, k] + ([l, m] + ([n] + []))))))) ==
            [a, b, c, d, e, f, g, h, i, j, k, l, m, n]
  {
  }

  lemma {:induction false} DigitsFree(s: string, c: char)
    requires Digits(s) && !IsDigit(c)
    ensures Free(s, c)
  {
    assert forall i :: 0 <= i < |s| ==> IsDigit(s[i]);
  }

  lemma RuleClean(r: Rule)
    requires match r
             case Dnat(iface, proto, _, ip, _) => Free(iface, ' ') && Free(proto, ' ') && Free(ip, ' ')
             case Masquerade(iface, ip) => Free(iface, ' ') && Free(ip, ' ')
             case SelfMasquerade(ip, proto, _) => Free(ip, ' ') && Free(proto, ' ')
             case ForwardIn(ip, iface, proto, _) => Free(iface, ' ') && Free(proto, ' ') && Free(ip, ' ')
             case ForwardOut(iface, proto, ip, _) => Free(iface, ' ') && Free(proto, ' ') && Free(ip, ' ')
             case Acl(iface, proto, cidr, _) => Free(iface, ' ') && Free(proto, ' ') && Free(cidr, ' ')
    ensures Clean(r)
  {
    match r
    case Dnat(_, _, hostPort, _, containerPort) =>
      DigitsFree(Itoa(hostPort), ' ');
      DigitsFree(Itoa(containerPort), ' ');
    case Masquerade(_, _) =>
    case SelfMasquerade(_, _, containerPort) => DigitsFree(Itoa(containerPort), ' ');
    case ForwardIn(_, _, _, containerPort) => DigitsFree(Itoa(containerPort), ' ');
    case ForwardOut(_, _, _, containerPort) => DigitsFree(Itoa(containerPort), ' ');
    case Acl(_, _, _, hostPort) => DigitsFree(Itoa(hostPort), ' ');
  }

  /** The rule of each kind in literal words, for arguments without spaces. */
  lemma DnatWords(iface: string, proto: string, hostPort: nat, ip: string, containerPort: nat)
    requires Free(iface, ' ') && Free(proto, ' ') && Free(ip, ' ')
    ensures Tokens(Dnat(iface, proto, hostPort, ip, containerPort)) ==
            ["!", "-i", iface, "-p", proto, "-j", "DNAT", "--dport", Itoa(hostPort),
             "--to-destination", ip + ":" + Itoa(containerPort), "--wait"]
  {
    var r := Dnat(iface, proto, hostPort, ip, containerPort);
    RuleClean(r);
    TokensFaithful(r);
    TemplateOk(r);
    hide Tokens, Clean, Place, Flag, Opt, Opt32, Jump, AllPlain;
    OptionWords(ArgsOf(r));
    Flat12("!", "-i", iface, "-p", proto, "-j", "DNAT", "--dport", Itoa(hostPort),
           "--to-destination", ip + ":" + Itoa(containerPort), "--wait");
  }

  lemma MasqueradeWords(iface: string, ip: string)
    requires Free(iface, ' ') && Free(ip, ' ')
    ensures Tokens(Masquerade(iface, ip)) ==
            ["!", "-o", iface, "-s", ip + "/32", "-j", "MASQUERADE", "--wait"]
  {
    var r := Masquerade(iface, ip);
    RuleClean(r);
    TokensFaithful(r);
    TemplateOk(r);
    hide Tokens, Clean, Place, Flag, Opt, Opt32, Jump, AllPlain;
    OptionWords(ArgsOf(r));
    Flat8("!", "-o", iface, "-s", ip + "/32", "-j", "MASQUERADE", "--wait");
  }

  lemma SelfMasqueradeWords(ip: string, proto: string, containerPort: nat)
    requires Free(ip, ' ') && Free(proto, ' ')
    ensures Tokens(SelfMasquerade(ip, proto, containerPort)) ==
            ["-d", ip + "/32", "-p", proto, "-s", ip + "/32", "-j", "MASQUERADE",
             "--dport", Itoa(containerPort), "--wait"]
  {
    var r := SelfMasquerade(ip, proto, containerPort);
    RuleClean(r);
    TokensFaithful(r);
    TemplateOk(r);
    hide Tokens, Clean, Place, Flag, Opt, Opt32, Jump, AllPlain;
    OptionWords(ArgsOf(r));
    Flat11("-d", ip + "/32", "-p", proto, "-s", ip + "/32", "-j", "MASQUERADE",
           "--dport", Itoa(containerPort), "--wait");
  }

  lemma ForwardInWords(ip: string, iface: string, proto: string, containerPort: nat)
    requires Free(ip, ' ') && Free(iface, ' ') && Free(proto, ' ')
    ensures Tokens(ForwardIn(ip, iface, proto, containerPort)) ==
            ["-d", ip + "/32", "!", "-i", iface, "-o", iface, "-p", proto, "-j", "ACCEPT",
             "--dport", Itoa(containerPort), "--wait"]
  {
    var r := ForwardIn(ip, iface, proto, containerPort);
    RuleClean(r);
    TokensFaithful(r);
    TemplateOk(r);
    hide Tokens, Clean, Place, Flag, Opt, Opt32, Jump, AllPlain;
    OptionWords(ArgsOf(r));
    Flat14("-d", ip + "/32", "!", "-i", iface, "-o", iface, "-p", proto, "-j", "ACCEPT",
           "--dport", Itoa(containerPort), "--wait");
  }

  lemma ForwardOutWords(iface: string, proto: string, ip: string, containerPort: nat)
    requires Free(iface, ' ') && Free(proto, ' ') && Free(ip, ' ')
    ensures Tokens(ForwardOut(iface, proto, ip, containerPort)) ==
            ["-i", iface, "!", "-o", iface, "-p", proto, "-s", ip + "/32", "-j", "ACCEPT",
             "--sport", Itoa(containerPort), "--wait"]
  {
    var r := ForwardOut(iface, proto, ip, containerPort);
    RuleClean(r);
    TokensFaithful(r);
    TemplateOk(r);
    hide Tokens, Clean, Place, Flag, Opt, Opt32, Jump, AllPlain;
    OptionWords(ArgsOf(r));
    Flat14("-i", iface, "!", "-o", iface, "-p", proto, "-s", ip + "/32", "-j", "ACCEPT",
           "--sport", Itoa(containerPort), "--wait");
  }

  lemma AclWords(iface: string, proto: string, cidr: string, hostPort: nat)
    requires Free(iface, ' ') && Free(proto, ' ') && Free(cidr, ' ')
    ensures Tokens(Acl(iface, proto, cidr, hostPort)) ==
            ["-i", iface, "-p", proto, "-s", cidr, "--dport", Itoa(hostPort), "-j", "ACCEPT"]
  {
    var r := Acl(iface, proto, cidr, hostPort);
    RuleClean(r);
    TokensFaithful(r);
    TemplateOk(r);
    hide Tokens, Clean, Place, Flag, Opt, Opt32, Jump, AllPlain;
    OptionWords(ArgsOf(r));
    Flat10("-i", iface, "-p", proto, "-s", cidr, "--dport", Itoa(hostPort), "-j", "ACCEPT");
  }

  lemma Sizes(r: Rule)
    ensures Size(TemplateOf(r)) ==
            match r
            case Dnat(_, _, _, _, _) => 12
            case Masquerade(_, _) => 8
            case SelfMasquerade(_, _, _) => 11
            case ForwardIn(_, _, _, _) => 14
            case ForwardOut(_, _, _, _) => 14
            case Acl(_, _, _, _) => 10
  {
    hide Flag, Opt, Opt32, Jump;
  }

  lemma FirstWords(r: Rule)
    ensures r.ForwardIn? ==> Placed(r)[0] == "-d"
    ensures r.ForwardOut? ==> Placed(r)[0] == "-i"
  {
    TemplateOk(r);
  }

  /** The words tell the template. */
  lemma SameTemplate(r: Rule, q: Rule)
    requires Placed(r) == Placed(q)
    ensures r.Dnat? == q.Dnat? && r.Masquerade? == q.Masquerade? && r.SelfMasquerade? == q.SelfMasquerade?
    ensures r.ForwardIn? == q.ForwardIn? && r.ForwardOut? == q.ForwardOut? && r.Acl? == q.Acl?
    ensures TemplateOf(r) == TemplateOf(q)
  {
    hide Placed, TemplateOf, ArgsOf;
    Sizes(r);
    Sizes(q);
    FirstWords(r);
    FirstWords(q);
    assert "-d"[1] != "-i"[1];
    SameKind(r, q);
  }

  lemma SameKind(r: Rule, q: Rule)
    requires r.Dnat? == q.Dnat? && r.Masquerade? == q.Masquerade? && r.SelfMasquerade? == q.SelfMasquerade?
    requires r.ForwardIn? == q.ForwardIn? && r.ForwardOut? == q.ForwardOut? && r.Acl? == q.Acl?
    ensures TemplateOf(r) == TemplateOf(q)
  {
    hide Flag, Opt, Opt32, Jump;
  }

  lemma SameArgs(r: Rule, q: Rule, t: Template)
    requires Placed(r) == Placed(q) && t == TemplateOf(r) == TemplateOf(q)
    ensures ArgsOf(r) == ArgsOf(q)
  {
    TemplateOk(r);
    TemplateOk(q);
    hide ArgsOf, TemplateOf, Flag, Opt, Opt32, Jump;
    PlaceInjective(t, ArgsOf(r), ArgsOf(q), 0);
    assert ArgsOf(r) == ArgsOf(r)[0..] && ArgsOf(q) == ArgsOf(q)[0..];
  }

  lemma PlacedInjective(r: Rule, q: Rule)
    requires Placed(r) == Placed(q)
    ensures r == q
  {
    SameTemplate(r, q);
    SameArgs(r, q, TemplateOf(r));
    ArgsInjective(r, q);
  }

  lemma ArgsInjective(r: Rule, q: Rule)
    requires ArgsOf(r) == ArgsOf(q)
    requires r.Dnat? == q.Dnat? && r.Masquerade? == q.Masquerade? && r.SelfMasquerade? == q.SelfMasquerade?
    requires r.ForwardIn? == q.ForwardIn? && r.ForwardOut? == q.ForwardOut? && r.Acl? == q.Acl?
    ensures r == q
  {
    var a, b := ArgsOf(r), ArgsOf(q);
    assert a[|a| - 1] == b[|b| - 1] && a[0] == b[0] && a[1] == b[1];
    match r
    case Dnat(_, _, hostPort, ip, containerPort) =>
      assert a[2] == b[2];
      AddressPortInjective(ip, containerPort, q.ip, q.containerPort);
      ValueItoa(hostPort);
      ValueItoa(q.hostPort);
    case Masquerade(_, _) =>
    case SelfMasquerade(_, _, containerPort) =>
      ValueItoa(containerPort);
      ValueItoa(q.containerPort);
    case ForwardIn(_, _, _, containerPort) =>
      assert a[3] == b[3];
      ValueItoa(containerPort);
      ValueItoa(q.containerPort);
    case ForwardOut(_, _, _, containerPort) =>
      assert a[2] == b[2] && a[3] == b[3];
      ValueItoa(containerPort);
      ValueItoa(q.containerPort);
    case Acl(_, _, _, hostPort) =>
      assert a[2] == b[2];
      ValueItoa(hostPort);
      ValueItoa(q.hostPort);
  }

  /** The encoding is injective: clean rules with the same words are the same rule, so equal
      words force the same template, address, protocol and ports. */
  lemma TokensInjective(r: Rule, q: Rule)
    requires Clean(r) && Clean(q) && Tokens(r) == Tokens(q)
    ensures r == q
  {
    TokensFaithful(r);
    TokensFaithful(q);
    PlacedInjective(r, q);
  }
}
