/** Printing a command and reading it back (user/sh.c). */
module ShellText {
  import opened ShellGrammar
  import opened Shell
  import opened ShellTrees

  /** A word the tokenizer keeps whole. */
  ghost predicate Plain(w: string) {
    w != "" && forall i :: 0 <= i < |w| ==> !Blank(w[i]) && !Symbol(w[i]) && w[i] != NUL
  }

  ghost predicate PlainCmd(c: Cmd<string>) {
    match c
    case Exec(argv) => forall i :: 0 <= i < |argv| ==> Plain(argv[i])
    case Redir(d, f, _) => PlainCmd(d) && Plain(f)
    case Pipe(l, r) => PlainCmd(l) && PlainCmd(r)
    case List(l, r) => PlainCmd(l) && PlainCmd(r)
    case Back(d) => PlainCmd(d)
  }

  // ---------- Printing ----------

  function Spaced(argv: seq<string>): string {
    if argv == [] then "" else argv[0] + (" " + Spaced(argv[1..]))
  }

  function ArrowText(m: Mode): string {
    match m case Input => "<" case Output => ">" case Appending => ">>"
  }

  function Print(c: Cmd<string>): string
    decreases c, 1
  {
    "(" + (Body(c) + ")")
  }

  function Body(c: Cmd<string>): string
    decreases c, 0
  {
    match c
    case Exec(argv) => Spaced(argv)
    case Redir(d, f, m) => Print(d) + (ArrowText(m) + f)
    case Pipe(l, r) => Print(l) + ("|" + Print(r))
    case List(l, r) => Print(l) + (";" + Print(r))
    case Back(d) => Print(d) + "&"
  }

  // ---------- Tokens and the words they spell ----------

  ghost function Text(text: string, w: Span): string {
    if w.b <= w.e <= |text| then text[w.b..w.e] else ""
  }

  ghost function Spell(text: string, t: Token<Span>): Token<string> {
    match t
    case Sym(c) => Sym(c)
    case Append => Append
    case Word(w) => Word(Text(text, w))
  }

  ghost function SpellAll(text: string, ts: seq<Token<Span>>): (r: seq<Token<string>>)
    ensures |r| == |ts| && forall i :: 0 <= i < |ts| ==> r[i] == Spell(text, ts[i])
  {
    seq(|ts|, i requires 0 <= i < |ts| => Spell(text, ts[i]))
  }

  /** The text from p to q is read as the tokens `want`. */
  ghost predicate Reads(text: string, p: nat, q: nat, want: seq<Token<string>>) {
    p <= q <= |text| && exists ts :: Lex(text, p) == ts + Lex(text, q) && SpellAll(text, ts) == want
  }

  lemma ReadsThen(text: string, p: nat, q: nat, r: nat, a: seq<Token<string>>, b: seq<Token<string>>)
    requires Reads(text, p, q, a) && Reads(text, q, r, b)
    ensures Reads(text, p, r, a + b)
  {
    hide Lex;
    var ts :| Lex(text, p) == ts + Lex(text, q) && SpellAll(text, ts) == a;
    var us :| Lex(text, q) == us + Lex(text, r) && SpellAll(text, us) == b;
    assert Lex(text, p) == (ts + us) + Lex(text, r);
    assert SpellAll(text, ts + us) == a + b;
  }

  lemma ReadsOne(text: string, p: nat, q: nat, t: Token<Span>)
    requires p <= |text| && q <= |text| && p < q && Lex(text, p) == [t] + Lex(text, q)
    ensures Reads(text, p, q, [Spell(text, t)])
  {
    hide Lex;
    assert SpellAll(text, [t]) == [Spell(text, t)];
  }

  lemma ReadsSym(text: string, p: nat, c: char)
    requires p < |text| && text[p] == c && Symbol(c) && (c == '>' ==> p + 1 < |text| && text[p + 1] != '>')
    ensures Reads(text, p, p + 1, [Sym(c)])
  {
    assert !Blank(c) && SkipBlanks(text, p) == p;
    ReadsOne(text, p, p + 1, Sym(c));
  }

  lemma ReadsAppend(text: string, p: nat)
    requires p + 1 < |text| && text[p] == '>' && text[p + 1] == '>'
    ensures Reads(text, p, p + 2, [Append])
  {
    assert SkipBlanks(text, p) == p;
    ReadsOne(text, p, p + 2, Append);
  }

  lemma ReadsBlank(text: string, p: nat)
    requires p < |text| && Blank(text[p])
    ensures Reads(text, p, p + 1, [])
  {
    assert SkipBlanks(text, p) == SkipBlanks(text, p + 1);
    assert Lex(text, p) == Lex(text, p + 1) == [] + Lex(text, p + 1);
    hide Lex;
    assert SpellAll(text, []) == [];
  }

  lemma ReadsWord(text: string, p: nat, w: string)
    requires Plain(w) && At(text, p, w) && p + |w| < |text| && (Blank(text[p + |w|]) || Symbol(text[p + |w|]))
    ensures Reads(text, p, p + |w|, [Word(w)])
  {
    var q := p + |w|;
    forall i | p <= i < q
      ensures text[i] == w[i - p]
    {
      assert text[p..q][i - p] == text[i];
    }
    WordEndIs(text, p, q);
    assert SkipBlanks(text, p) == p;
    assert TokenAt(text, p) == (Word(Span(p, q)), q);
    ReadsOne(text, p, q, Word(Span(p, q)));
  }

  lemma {:induction false} WordEndIs(text: string, p: nat, q: nat)
    requires p <= q <= |text| && (q < |text| ==> Blank(text[q]) || Symbol(text[q]))
    requires forall i :: p <= i < q ==> !Blank(text[i]) && !Symbol(text[i])
    ensures WordEnd(text, p) == q
    decreases q - p
  {
    if p < q {
      WordEndIs(text, p + 1, q);
    }
  }

  /** s stands at p. */
  ghost predicate At(text: string, p: nat, s: string) {
    p + |s| <= |text| && text[p..p + |s|] == s
  }

  lemma AtSplit(text: string, p: nat, a: string, b: string)
    requires At(text, p, a + b)
    ensures At(text, p, a) && At(text, p + |a|, b)
  {
    var s := a + b;
    assert text[p..p + |s|][..|a|] == text[p..p + |a|];
    assert text[p..p + |s|][|a|..] == text[p + |a|..p + |s|];
  }

  lemma AtChar(text: string, p: nat, s: string)
    requires At(text, p, s) && s != ""
    ensures p < |text| && text[p] == s[0]
  {
    assert text[p..p + |s|][0] == text[p];
  }

  // ---------- A printed command is read as its tokens ----------

  lemma ReadsNothing(text: string, p: nat)
    requires p <= |text|
    ensures Reads(text, p, p, [])
  {
    hide Lex;
    assert SpellAll(text, []) == [] && Lex(text, p) == [] + Lex(text, p);
  }

  lemma {:induction false} SpacedReads(text: string, p: nat, argv: seq<string>)
    requires At(text, p, Spaced(argv)) && forall i :: 0 <= i < |argv| ==> Plain(argv[i])
    ensures Reads(text, p, p + |Spaced(argv)|, Words(argv))
    decreases |argv|
  {
    hide Reads;
    if argv == [] {
      ReadsNothing(text, p);
    } else {
      var w, more := argv[0], Spaced(argv[1..]);
      AtSplit(text, p, w, " " + more);
      AtSplit(text, p + |w|, " ", more);
      AtChar(text, p + |w|, " ");
      ReadsWord(text, p, w);
      ReadsBlank(text, p + |w|);
      SpacedReads(text, p + |w| + 1, argv[1..]);
      ReadsThen(text, p, p + |w|, p + |w| + 1, [Word(w)], []);
      ReadsThen(text, p, p + |w| + 1, p + |w| + 1 + |more|, [Word(w)] + [], Words(argv[1..]));
      assert [Word(w)] + [] + Words(argv[1..]) == Words(argv);
    }
  }

  lemma ArrowReads(text: string, p: nat, m: Mode, f: string)
    requires At(text, p, ArrowText(m) + f) && Plain(f) && p + |ArrowText(m) + f| < |text|
    requires Symbol(text[p + |ArrowText(m) + f|])
    ensures Reads(text, p, p + |ArrowText(m) + f|, [Arrow(m), Word(f)])
  {
    hide Reads;
    var a := ArrowText(m);
    var q := p + |a|;
    AtSplit(text, p, a, f);
    AtChar(text, p, a);
    AtChar(text, q, f);
    assert text[q] != '>' by { assert !Symbol(f[0]); }
    if m.Appending? {
      assert text[p..p + 2][1] == text[p + 1];
      ReadsAppend(text, p);
    } else {
      ReadsSym(text, p, a[0]);
    }
    ReadsWord(text, q, f);
    ReadsThen(text, p, q, q + |f|, [Arrow(m)], [Word(f)]);
    assert [Arrow(m)] + [Word(f)] == [Arrow(m), Word(f)];
  }

  lemma {:induction false} PrintReads(text: string, p: nat, c: Cmd<string>)
    requires At(text, p, Print(c)) && PlainCmd(c)
    ensures Reads(text, p, p + |Print(c)|, Tokens(c))
    decreases c, 1
  {
    hide Reads;
    var body := Body(c);
    var q := p + 1 + |body|;
    AtSplit(text, p, "(", body + ")");
    AtSplit(text, p + 1, body, ")");
    AtChar(text, p, "(");
    AtChar(text, q, ")");
    ReadsSym(text, p, '(');
    ReadsSym(text, q, ')');
    BodyReads(text, p + 1, c);
    ReadsThen(text, p, p + 1, q, [Sym('(')], Inside(c));
    ReadsThen(text, p, q, q + 1, [Sym('(')] + Inside(c), [Sym(')')]);
  }

  /** Two printed commands with a symbol between them. */
  lemma JoinReads(text: string, p: nat, l: string, sym: char, r: string, ls: seq<Token<string>>, rs: seq<Token<string>>)
    requires At(text, p, l + ([sym] + r)) && Symbol(sym) && sym != '>'
    requires Reads(text, p, p + |l|, ls) && Reads(text, p + |l| + 1, p + |l| + 1 + |r|, rs)
    ensures Reads(text, p, p + |l + ([sym] + r)|, ls + [Sym(sym)] + rs)
  {
    hide Reads;
    AtSplit(text, p, l, [sym] + r);
    AtChar(text, p + |l|, [sym] + r);
    ReadsSym(text, p + |l|, sym);
    ReadsThen(text, p, p + |l|, p + |l| + 1, ls, [Sym(sym)]);
    ReadsThen(text, p, p + |l| + 1, p + |l| + 1 + |r|, ls + [Sym(sym)], rs);
  }

  lemma AtJoin(text: string, p: nat, l: string, sym: char, r: string)
    requires At(text, p, l + ([sym] + r))
    ensures At(text, p, l) && At(text, p + |l| + 1, r)
  {
    AtSplit(text, p, l, [sym] + r);
    AtSplit(text, p + |l|, [sym], r);
  }

  lemma RedirReads(text: string, p: nat, d: Cmd<string>, f: string, m: Mode)
    requires At(text, p, Print(d) + (ArrowText(m) + f)) && Plain(f) && Reads(text, p, p + |Print(d)|, Tokens(d))
    requires var q := p + |Print(d) + (ArrowText(m) + f)|; q < |text| && text[q] == ')'
    ensures Reads(text, p, p + |Print(d) + (ArrowText(m) + f)|, Tokens(d) + [Arrow(m), Word(f)])
  {
    hide Reads; hide Print; hide Tokens; hide ArrowText; hide Plain;
    var arrow := ArrowText(m) + f;
    AtSplit(text, p, Print(d), arrow);
    ArrowReads(text, p + |Print(d)|, m, f);
    ReadsThen(text, p, p + |Print(d)|, p + |Print(d)| + |arrow|, Tokens(d), [Arrow(m), Word(f)]);
  }

  lemma BackReads(text: string, p: nat, d: Cmd<string>)
    requires At(text, p, Print(d) + "&") && Reads(text, p, p + |Print(d)|, Tokens(d))
    ensures Reads(text, p, p + |Print(d) + "&"|, Tokens(d) + [Sym('&')])
  {
    hide Reads; hide Print; hide Tokens;
    AtSplit(text, p, Print(d), "&");
    AtChar(text, p + |Print(d)|, "&");
    ReadsSym(text, p + |Print(d)|, '&');
    ReadsThen(text, p, p + |Print(d)|, p + |Print(d)| + 1, Tokens(d), [Sym('&')]);
  }

  lemma {:induction false} BodyReads(text: string, p: nat, c: Cmd<string>)
    requires At(text, p, Body(c)) && PlainCmd(c) && p + |Body(c)| < |text| && text[p + |Body(c)|] == ')'
    ensures Reads(text, p, p + |Body(c)|, Inside(c))
    decreases c, 0
  {
    hide Reads; hide Print; hide Tokens; hide At; hide Plain;
    match c {
      case Exec(argv) =>
        SpacedReads(text, p, argv);
      case Redir(d, f, m) =>
        AtSplit(text, p, Print(d), ArrowText(m) + f);
        PrintReads(text, p, d);
        RedirReads(text, p, d, f, m);
      case Pipe(l, r) =>
        AtJoin(text, p, Print(l), '|', Print(r));
        PrintReads(text, p, l);
        PrintReads(text, p + |Print(l)| + 1, r);
        JoinReads(text, p, Print(l), '|', Print(r), Tokens(l), Tokens(r));
      case List(l, r) =>
        AtJoin(text, p, Print(l), ';', Print(r));
        PrintReads(text, p, l);
        PrintReads(text, p + |Print(l)| + 1, r);
        JoinReads(text, p, Print(l), ';', Print(r), Tokens(l), Tokens(r));
      case Back(d) =>
        AtSplit(text, p, Print(d), "&");
        PrintReads(text, p, d);
        BackReads(text, p, d);
    }
  }

  // ---------- The command with spans for words ----------

  ghost function View(text: string, c: Cmd<Span>): Cmd<string> {
    match c
    case Exec(argv) => Exec(Texts(text, argv))
    case Redir(d, f, m) => Redir(View(text, d), Text(text, f), m)
    case Pipe(l, r) => Pipe(View(text, l), View(text, r))
    case List(l, r) => List(View(text, l), View(text, r))
    case Back(d) => Back(View(text, d))
  }

  ghost function Texts(text: string, argv: seq<Span>): (r: seq<string>)
    ensures |r| == |argv| && forall i :: 0 <= i < |argv| ==> r[i] == Text(text, argv[i])
  {
    seq(|argv|, i requires 0 <= i < |argv| => Text(text, argv[i]))
  }

  // ---------- The parser does not look into words ----------

  ghost function RedirTexts(text: string, rs: seq<Redirection<Span>>): (r: seq<Redirection<string>>)
    ensures |r| == |rs| && forall i :: 0 <= i < |rs| ==> r[i] == Redirection(Text(text, rs[i].file), rs[i].mode)
  {
    seq(|rs|, i requires 0 <= i < |rs| => Redirection(Text(text, rs[i].file), rs[i].mode))
  }

  ghost function ViewRedirs(text: string, p: Parse<seq<Redirection<Span>>, Span>): Parse<seq<Redirection<string>>, string> {
    match p case Bad => Bad case Good(rs, rest) => Good(RedirTexts(text, rs), SpellAll(text, rest))
  }

  ghost function ViewParse(text: string, p: Parse<Cmd<Span>, Span>): Parse<Cmd<string>, string> {
    match p case Bad => Bad case Good(c, rest) => Good(View(text, c), SpellAll(text, rest))
  }

  lemma SpellFrom(text: string, ts: seq<Token<Span>>, k: nat)
    requires k <= |ts|
    ensures SpellAll(text, ts)[k..] == SpellAll(text, ts[k..])
  {
  }

  lemma SameStart(text: string, ts: seq<Token<Span>>, c: char)
    ensures Starts(SpellAll(text, ts), c) <==> Starts(ts, c)
    ensures StartsRedir(SpellAll(text, ts)) <==> StartsRedir(ts)
  {
  }

  lemma {:induction false} RedirsView(text: string, ts: seq<Token<Span>>)
    ensures Redirs(SpellAll(text, ts)) == ViewRedirs(text, Redirs(ts))
    decreases |ts|
  {
    hide SpellAll; hide Redirs; hide RedirTexts; hide StartsRedir;
    SameStart(text, ts, '<');
    var us := SpellAll(text, ts);
    if !StartsRedir(ts) {
      NoRedirs(ts);
      NoRedirs(us);
      assert RedirTexts(text, []) == [];
    } else {
      RedirsStep(ts);
      RedirsStep(us);
      ArrowSpelled(text, ts);
      if |ts| >= 2 && ts[1].Word? {
        SpellFrom(text, ts, 2);
        RedirsView(text, ts[2..]);
        var p, r := Redirs(ts[2..]), Redirection(ts[1].w, ModeOf(ts[0]));
        if p.Good? {
          assert RedirTexts(text, [r] + p.value) == [Redirection(Text(text, r.file), r.mode)] + RedirTexts(text, p.value);
        }
      }
    }
  }

  lemma ArrowSpelled(text: string, ts: seq<Token<Span>>)
    requires StartsRedir(ts)
    ensures var us := SpellAll(text, ts);
            && |us| == |ts| && ModeOf(us[0]) == ModeOf(ts[0])
            && (|ts| >= 2 ==> us[1] == Spell(text, ts[1]))
  {
  }

  lemma {:induction false} WrapView(text: string, c: Cmd<Span>, rs: seq<Redirection<Span>>)
    ensures Wrap(View(text, c), RedirTexts(text, rs)) == View(text, Wrap(c, rs))
    decreases |rs|
  {
    if rs != [] {
      WrapView(text, Redir(c, rs[0].file, rs[0].mode), rs[1..]);
      assert RedirTexts(text, rs)[1..] == RedirTexts(text, rs[1..]);
    }
  }

  lemma {:induction false} ArgsView(text: string, argv: seq<Span>, rs: seq<Redirection<Span>>, ts: seq<Token<Span>>)
    ensures Args(Texts(text, argv), RedirTexts(text, rs), SpellAll(text, ts)) == ViewParse(text, Args(argv, rs, ts))
    decreases |ts|
  {
    hide Redirs; hide Wrap;
    var us := SpellAll(text, ts);
    SameStart(text, ts, '|');
    SameStart(text, ts, ')');
    SameStart(text, ts, '&');
    SameStart(text, ts, ';');
    if ts == [] || Starts(ts, '|') || Starts(ts, ')') || Starts(ts, '&') || Starts(ts, ';') {
      WrapView(text, Exec(argv), rs);
    } else if ts[0].Word? && |argv| + 1 < MAXARGS {
      SpellFrom(text, ts, 1);
      RedirsView(text, ts[1..]);
      var p := Redirs(ts[1..]);
      if p.Good? {
        var w := ts[0].w;
        assert Texts(text, argv + [w]) == Texts(text, argv) + [Text(text, w)];
        assert RedirTexts(text, rs + p.value) == RedirTexts(text, rs) + RedirTexts(text, p.value);
        ArgsView(text, argv + [w], rs + p.value, p.rest);
      }
    }
  }

  lemma {:induction false} ExecView(text: string, ts: seq<Token<Span>>)
    ensures ParseExec(SpellAll(text, ts)) == ViewParse(text, ParseExec(ts))
    decreases |ts|, 1
  {
    SameStart(text, ts, '(');
    if Starts(ts, '(') {
      BlockView(text, ts);
      hide ParseBlock; hide SpellAll;
    } else {
      RedirsView(text, ts);
      var p := Redirs(ts);
      if p.Good? {
        ArgsView(text, [], p.value, p.rest);
        assert Texts(text, []) == [];
      }
      hide Redirs; hide Args; hide SpellAll;
    }
  }

  lemma {:induction false} BlockView(text: string, ts: seq<Token<Span>>)
    requires Starts(ts, '(')
    ensures Starts(SpellAll(text, ts), '(') && ParseBlock(SpellAll(text, ts)) == ViewParse(text, ParseBlock(ts))
    decreases |ts|, 0
  {
    hide ParseLine; hide Redirs; hide SpellAll; hide Wrap;
    SameStart(text, ts, '(');
    SpellFrom(text, ts, 1);
    LineView(text, ts[1..]);
    var p := ParseLine(ts[1..]);
    if p.Good? {
      SameStart(text, p.rest, ')');
      if Starts(p.rest, ')') {
        SpellFrom(text, p.rest, 1);
        RedirsView(text, p.rest[1..]);
        var r := Redirs(p.rest[1..]);
        if r.Good? {
          WrapView(text, p.value, r.value);
        }
      }
    }
  }

  lemma {:induction false} PipeView(text: string, ts: seq<Token<Span>>)
    ensures ParsePipe(SpellAll(text, ts)) == ViewParse(text, ParsePipe(ts))
    decreases |ts|, 2
  {
    ExecView(text, ts);
    var p := ParseExec(ts);
    if p.Good? {
      SameStart(text, p.rest, '|');
      if Starts(p.rest, '|') {
        SpellFrom(text, p.rest, 1);
        PipeView(text, p.rest[1..]);
      }
    }
    hide ParseExec; hide SpellAll;
  }

  lemma {:induction false} BacksView(text: string, c: Cmd<Span>, ts: seq<Token<Span>>)
    ensures Backs(View(text, c), SpellAll(text, ts)) == (View(text, Backs(c, ts).0), SpellAll(text, Backs(c, ts).1))
    decreases |ts|
  {
    SameStart(text, ts, '&');
    if Starts(ts, '&') {
      SpellFrom(text, ts, 1);
      BacksView(text, Back(c), ts[1..]);
    }
    hide SpellAll;
  }

  lemma {:induction false} LineView(text: string, ts: seq<Token<Span>>)
    ensures ParseLine(SpellAll(text, ts)) == ViewParse(text, ParseLine(ts))
    decreases |ts|, 3
  {
    PipeView(text, ts);
    var p := ParsePipe(ts);
    if p.Good? {
      BacksView(text, p.value, p.rest);
      var (d, rest) := Backs(p.value, p.rest);
      SameStart(text, rest, ';');
      if Starts(rest, ';') {
        SpellFrom(text, rest, 1);
        LineView(text, rest[1..]);
      }
    }
    hide ParsePipe; hide Backs; hide SpellAll;
  }

  /** Parsing spans and then reading the words is reading the words and then parsing. */
  lemma CmdView(text: string, ts: seq<Token<Span>>)
    ensures ParseCmd(SpellAll(text, ts)) == ViewParse(text, ParseCmd(ts))
  {
    LineView(text, ts);
    hide ParseLine;
  }

  // ---------- Texts with any spacing ----------

  function Spelling(t: Token<string>): string {
    match t case Sym(c) => [c] case Append => ">>" case Word(w) => w
  }

  /** Blanks, a token, blanks, a token, .., blanks. */
  function Laid(ts: seq<Token<string>>, gaps: seq<string>): string
    requires |gaps| == |ts| + 1
    decreases |ts|
  {
    gaps[0] + if ts == [] then "" else Spelling(ts[0]) + Laid(ts[1..], gaps[1..])
  }

  ghost predicate Blanks(g: string) {
    forall i :: 0 <= i < |g| ==> Blank(g[i])
  }

  /** A symbol, >>, or a word without blanks and symbols. */
  ghost predicate TokenOk(t: Token<string>) {
    match t
    case Sym(c) => Symbol(c)
    case Append => true
    case Word(w) => w != "" && forall i :: 0 <= i < |w| ==> !Blank(w[i]) && !Symbol(w[i])
  }

  /** Two words, or > and > or >>, are one token unless something is between them. */
  ghost predicate Clings(t: Token<string>, u: Token<string>) {
    (t.Word? && u.Word?) || (t == Sym('>') && (u == Sym('>') || u.Append?))
  }

  ghost predicate Spacing(ts: seq<Token<string>>, gaps: seq<string>) {
    && |gaps| == |ts| + 1 && (forall i :: 0 <= i < |gaps| ==> Blanks(gaps[i]))
    && (forall i :: 0 <= i < |ts| ==> TokenOk(ts[i]))
    && (forall i, j :: 0 <= i < j < |ts| && j == i + 1 && Clings(ts[i], ts[j]) ==> gaps[j] != "")
  }

  lemma SpacingTail(ts: seq<Token<string>>, gaps: seq<string>)
    requires Spacing(ts, gaps) && ts != []
    ensures Spacing(ts[1..], gaps[1..])
  {
    forall i, j | 0 <= i < j < |ts[1..]| && j == i + 1 && Clings(ts[1..][i], ts[1..][j])
      ensures gaps[1..][j] != ""
    {
      assert Clings(ts[i + 1], ts[j + 1]);
    }
  }

  lemma {:induction false} SkipGap(text: string, p: nat, q: nat)
    requires p <= q <= |text| && Blanks(text[p..q]) && (q < |text| ==> !Blank(text[q]))
    ensures SkipBlanks(text, p) == q
    decreases q - p
  {
    if p < q {
      assert text[p] == text[p..q][0];
      assert text[p + 1..q] == text[p..q][1..];
      SkipGap(text, p + 1, q);
    }
  }

  /** The first character after the token does not belong to it. */
  ghost predicate Apart(t: Token<string>, text: string, q: nat) {
    q < |text| ==> (t.Word? ==> Blank(text[q]) || Symbol(text[q])) && (t == Sym('>') ==> text[q] != '>')
  }

  lemma TokenRead(text: string, q: nat, t: Token<string>)
    requires TokenOk(t) && At(text, q, Spelling(t)) && Apart(t, text, q + |Spelling(t)|)
    ensures q < |text| && !Blank(text[q]) && TokenAt(text, q).1 == q + |Spelling(t)| && Spell(text, TokenAt(text, q).0) == t
  {
    var w := Spelling(t);
    AtChar(text, q, w);
    if t.Word? {
      var e := q + |w|;
      forall i | q <= i < e
        ensures text[i] == w[i - q]
      {
        assert text[q..e][i - q] == text[i];
      }
      WordEndIs(text, q, e);
    } else if t.Append? {
      assert text[q..q + 2][1] == text[q + 1];
    }
  }

  /** What stands behind the first token. */
  lemma BehindFirst(ts: seq<Token<string>>, gaps: seq<string>, text: string, q: nat)
    requires Spacing(ts, gaps) && ts != [] && At(text, q, Laid(ts[1..], gaps[1..])) && q + |Laid(ts[1..], gaps[1..])| == |text|
    ensures Apart(ts[0], text, q)
  {
    var g, rest := gaps[1], Laid(ts[1..], gaps[1..]);
    if q < |text| {
      AtChar(text, q, rest);
      if g != "" {
        assert rest[0] == g[0];
      } else {
        var u := ts[1];
        assert TokenOk(u) && ts[1..][0] == u && gaps[1..][0] == g;
        assert rest[0] == Spelling(u)[0];
        assert !Clings(ts[0], ts[1]);
      }
    }
  }

  lemma SpacingHead(ts: seq<Token<string>>, gaps: seq<string>)
    requires Spacing(ts, gaps) && ts != []
    ensures |gaps| == |ts| + 1 && TokenOk(ts[0]) && Blanks(gaps[0])
  {
  }

  /** Where the first token of a layout stands. */
  lemma LaidFirst(text: string, p: nat, ts: seq<Token<string>>, gaps: seq<string>) returns (q: nat, e: nat)
    requires Spacing(ts, gaps) && ts != [] && At(text, p, Laid(ts, gaps)) && p + |Laid(ts, gaps)| == |text|
    ensures p <= q < e <= |text| && SkipBlanks(text, p) == q && !Blank(text[q])
    ensures TokenAt(text, q).1 == e && Spell(text, TokenAt(text, q).0) == ts[0]
    ensures At(text, e, Laid(ts[1..], gaps[1..])) && e + |Laid(ts[1..], gaps[1..])| == |text|
  {
    var g, t, rest := gaps[0], ts[0], Laid(ts[1..], gaps[1..]);
    assert Laid(ts, gaps) == g + (Spelling(t) + rest);
    SpacingHead(ts, gaps);
    hide TokenAt; hide SkipBlanks; hide Laid; hide At; hide Spelling; hide Spell; hide Apart; hide Spacing; hide TokenOk; hide Blanks;
    q := p + |g|;
    e := q + |Spelling(t)|;
    AtSplit(text, p, g, Spelling(t) + rest);
    AtSplit(text, q, Spelling(t), rest);
    BehindFirst(ts, gaps, text, e);
    TokenRead(text, q, t);
    AtGap(text, p, g);
    SkipGap(text, p, q);
  }

  /** Every layout of the tokens is read as these tokens. */
  lemma {:induction false} LaidReads(text: string, p: nat, ts: seq<Token<string>>, gaps: seq<string>)
    requires Spacing(ts, gaps) && At(text, p, Laid(ts, gaps)) && p + |Laid(ts, gaps)| == |text|
    ensures SpellAll(text, Lex(text, p)) == ts
    decreases |ts|
  {
    if ts == [] {
      NoTokensLaid(text, p, gaps);
    } else {
      hide Lex; hide SpellAll; hide TokenAt; hide SkipBlanks; hide Laid; hide At; hide Spell;
      var q, e := LaidFirst(text, p, ts, gaps);
      SpacingTail(ts, gaps);
      hide Spacing;
      LaidReads(text, e, ts[1..], gaps[1..]);
      LexFirst(text, p);
      SpellCons(text, TokenAt(text, q).0, Lex(text, e));
      assert ts == [ts[0]] + ts[1..];
    }
  }

  lemma NoTokensLaid(text: string, p: nat, gaps: seq<string>)
    requires Spacing([], gaps) && At(text, p, Laid([], gaps)) && p + |Laid([], gaps)| == |text|
    ensures SpellAll(text, Lex(text, p)) == []
  {
    assert Laid([], gaps) == gaps[0];
    AtGap(text, p, gaps[0]);
    SkipGap(text, p, |text|);
  }

  lemma AtGap(text: string, p: nat, g: string)
    requires At(text, p, g) && Blanks(g)
    ensures p + |g| <= |text| && Blanks(text[p..p + |g|])
  {
  }

  lemma SpellCons(text: string, u: Token<Span>, us: seq<Token<Span>>)
    ensures SpellAll(text, [u] + us) == [Spell(text, u)] + SpellAll(text, us)
  {
  }

  /** Every text is a layout of its tokens. */
  lemma {:induction false} TextLaid(text: string, p: nat) returns (gaps: seq<string>)
    requires p <= |text|
    ensures var ts := SpellAll(text, Lex(text, p)); Spacing(ts, gaps) && Laid(ts, gaps) == text[p..]
    decreases |text| - p
  {
    var q := SkipBlanks(text, p);
    var g := text[p..q];
    LexFirst(text, p);
    if q == |text| {
      gaps := [g];
      assert text[p..] == g + "";
    } else {
      var (u, e) := TokenAt(text, q);
      var more := TextLaid(text, e);
      gaps := [g] + more;
      SpellCons(text, u, Lex(text, e));
      TokenSpelled(text, q);
      InFront(text, p, q, e, Spell(text, u), SpellAll(text, Lex(text, e)), more);
    }
  }

  /** A first token and the blanks before it, in front of the rest. */
  lemma InFront(text: string, p: nat, q: nat, e: nat, t: Token<string>, ts: seq<Token<string>>, gaps: seq<string>)
    requires p <= q <= e <= |text| && Blanks(text[p..q]) && Spelling(t) == text[q..e] && TokenOk(t) && Apart(t, text, e)
    requires Spacing(ts, gaps) && Laid(ts, gaps) == text[e..]
    ensures Spacing([t] + ts, [text[p..q]] + gaps) && Laid([t] + ts, [text[p..q]] + gaps) == text[p..]
  {
    var g := text[p..q];
    FollowedBy(text, e, t, ts, gaps);
    SpacingCons(t, ts, g, gaps);
    hide Spacing; hide Blanks; hide TokenOk; hide Apart;
    assert ([g] + gaps)[1..] == gaps && ([t] + ts)[1..] == ts;
    assert text[p..] == text[p..q] + (text[q..e] + text[e..]);
  }

  lemma TokenSpelled(text: string, q: nat)
    requires q < |text| && !Blank(text[q])
    ensures var (u, e) := TokenAt(text, q);
            && e <= |text| && Spelling(Spell(text, u)) == text[q..e] && TokenOk(Spell(text, u)) && Apart(Spell(text, u), text, e)
  {
  }

  /** If nothing is between two tokens, they do not cling. */
  lemma FollowedBy(text: string, e: nat, t: Token<string>, ts: seq<Token<string>>, gaps: seq<string>)
    requires e <= |text| && Apart(t, text, e) && Spacing(ts, gaps) && Laid(ts, gaps) == text[e..]
    ensures ts != [] && gaps[0] == "" ==> !Clings(t, ts[0])
  {
    if ts != [] && gaps[0] == "" {
      assert TokenOk(ts[0]);
      assert Laid(ts, gaps)[0] == Spelling(ts[0])[0];
      assert text[e..][0] == text[e];
    }
  }

  lemma SpacingCons(t: Token<string>, ts: seq<Token<string>>, g: string, gaps: seq<string>)
    requires Spacing(ts, gaps) && TokenOk(t) && Blanks(g) && (ts != [] && gaps[0] == "" ==> !Clings(t, ts[0]))
    ensures Spacing([t] + ts, [g] + gaps)
  {
    hide TokenOk; hide Clings; hide Blanks;
    var us, hs := [t] + ts, [g] + gaps;
    forall i, j | 0 <= i < j < |us| && j == i + 1 && Clings(us[i], us[j])
      ensures hs[j] != ""
    {
      if i > 0 {
        assert Clings(ts[i - 1], ts[j - 1]);
      }
    }
  }

  /** The tokenizer reads the text as `ts` exactly when the text is a layout of `ts`. */
  lemma LexExactly(text: string, ts: seq<Token<string>>)
    ensures SpellAll(text, Lex(text, 0)) == ts <==> exists gaps :: Spacing(ts, gaps) && Laid(ts, gaps) == text
  {
    hide Lex; hide SpellAll;
    if SpellAll(text, Lex(text, 0)) == ts {
      var gaps := TextLaid(text, 0);
      assert text[0..] == text;
    }
    if gaps :| Spacing(ts, gaps) && Laid(ts, gaps) == text {
      assert text[0..|text|] == text;
      LaidReads(text, 0, ts, gaps);
    }
  }

  /** A text parses to a command exactly when it is a layout, with any blanks, of the tokens of a
      syntax tree that means the command. */
  lemma TextExactly(text: string, c: Cmd<string>)
    ensures (exists d :: ParseCmd(Lex(text, 0)) == Good(d, []) && View(text, d) == c) <==>
            exists ts, gaps :: Derives(ts, c) && Spacing(ts, gaps) && Laid(ts, gaps) == text
  {
    hide Lex; hide SpellAll; hide ParseCmd; hide Derives;
    var us := Lex(text, 0);
    var ts := SpellAll(text, us);
    CmdView(text, us);
    ParsesExactly(ts, c);
    LexExactly(text, ts);
    if exists d :: ParseCmd(us) == Good(d, []) && View(text, d) == c {
      var d :| ParseCmd(us) == Good(d, []) && View(text, d) == c;
      assert SpellAll(text, []) == [];
    }
    if vs, gaps :| Derives(vs, c) && Spacing(vs, gaps) && Laid(vs, gaps) == text {
      LexExactly(text, vs);
      assert ParseCmd(ts) == Good(c, []);
      var p := ParseCmd(us);
      assert p.Good? && View(text, p.value) == c && |SpellAll(text, p.rest)| == |p.rest|;
      assert p == Good(p.value, []);
    }
  }

  /** Every command of at most nine plain words per exec is read back from its fully
      parenthesised text. */
  lemma TextRoundTrip(c: Cmd<string>) returns (d: Cmd<Span>)
    requires Small(c) && PlainCmd(c)
    ensures ParseCmd(Lex(Print(c), 0)) == Good(d, []) && View(Print(c), d) == c
  {
    var text := Print(c);
    assert At(text, 0, text);
    PrintReads(text, 0, c);
    var ts :| Lex(text, 0) == ts + Lex(text, |text|) && SpellAll(text, ts) == Tokens(c);
    assert Lex(text, |text|) == [] && ts + [] == ts;
    hide Lex; hide Tokens; hide ParseCmd; hide Print; hide SpellAll;
    RoundTrip(c);
    CmdView(text, ts);
    var p := ParseCmd(ts);
    assert |SpellAll(text, p.rest)| == |p.rest|;
    d := p.value;
  }
}
