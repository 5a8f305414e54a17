/** The command language of user/sh.c over tokens: what the parser's mutually recursive
    functions compute from the token list, for words of any kind W. */
module ShellGrammar {

  /** gettoken's result: a symbol, >>, or a word. */
  datatype Token<W> = Sym(c: char) | Append | Word(w: W)

  /** O_RDONLY on fd 0; O_WRONLY|O_CREATE|O_TRUNC and O_WRONLY|O_CREATE on fd 1. */
  datatype Mode = Input | Output | Appending

  datatype Redirection<W> = Redirection(file: W, mode: Mode)

  datatype Cmd<W> =
    | Exec(argv: seq<W>)
    | Redir(cmd: Cmd<W>, file: W, mode: Mode)
    | Pipe(left: Cmd<W>, right: Cmd<W>)
    | List(left: Cmd<W>, right: Cmd<W>)
    | Back(cmd: Cmd<W>)

  /** A parse, with the tokens left; Bad is a panic. */
  datatype Parse<T, W> = Bad | Good(value: T, rest: seq<Token<W>>)

  const MAXARGS := 10

  predicate Starts<W(==)>(ts: seq<Token<W>>, c: char) {
    ts != [] && ts[0] == Sym(c)
  }

  predicate StartsRedir<W(==)>(ts: seq<Token<W>>) {
    Starts(ts, '<') || Starts(ts, '>') || (ts != [] && ts[0] == Append)
  }

  function ModeOf<W>(t: Token<W>): Mode {
    if t.Append? then Appending else if t.Sym? && t.c == '<' then Input else Output
  }

  /** parseredirs wraps a command in its redirections, the first innermost. */
  function Wrap<W>(c: Cmd<W>, rs: seq<Redirection<W>>): Cmd<W>
    decreases |rs|
  {
    if rs == [] then c else Wrap(Redir(c, rs[0].file, rs[0].mode), rs[1..])
  }

  function Redirs<W(==)>(ts: seq<Token<W>>): (p: Parse<seq<Redirection<W>>, W>)
    ensures p.Good? ==> |p.rest| <= |ts|
  {
    if !StartsRedir(ts) then Good([], ts)
    else if |ts| < 2 || !ts[1].Word? then Bad
    else match Redirs(ts[2..])
      case Bad => Bad
      case Good(rs, rest) => Good([Redirection(ts[1].w, ModeOf(ts[0]))] + rs, rest)
  }

  /** The loop of parseexec, with the words and redirections so far. */
  function Args<W(==)>(argv: seq<W>, rs: seq<Redirection<W>>, ts: seq<Token<W>>): (p: Parse<Cmd<W>, W>)
    ensures p.Good? ==> |p.rest| <= |ts|
    decreases |ts|
  {
    if ts == [] || Starts(ts, '|') || Starts(ts, ')') || Starts(ts, '&') || Starts(ts, ';') then Good(Wrap(Exec(argv), rs), ts)
    else if !ts[0].Word? then Bad
    else if |argv| + 1 >= MAXARGS then Bad
    else match Redirs(ts[1..])
      case Bad => Bad
      case Good(more, rest) => Args(argv + [ts[0].w], rs + more, rest)
  }

  function ParseExec<W(==)>(ts: seq<Token<W>>): (p: Parse<Cmd<W>, W>)
    ensures p.Good? ==> |p.rest| <= |ts|
    decreases |ts|, 1
  {
    if Starts(ts, '(') then ParseBlock(ts)
    else match Redirs(ts)
      case Bad => Bad
      case Good(rs, rest) => Args([], rs, rest)
  }

  function ParseBlock<W(==)>(ts: seq<Token<W>>): (p: Parse<Cmd<W>, W>)
    requires Starts(ts, '(')
    ensures p.Good? ==> |p.rest| < |ts|
    decreases |ts|, 0
  {
    match ParseLine(ts[1..])
    case Bad => Bad
    case Good(c, rest) =>
      if !Starts(rest, ')') then Bad
      else match Redirs(rest[1..])
        case Bad => Bad
        case Good(rs, rest') => Good(Wrap(c, rs), rest')
  }

  function ParsePipe<W(==)>(ts: seq<Token<W>>): (p: Parse<Cmd<W>, W>)
    ensures p.Good? ==> |p.rest| <= |ts|
    decreases |ts|, 2
  {
    match ParseExec(ts)
    case Bad => Bad
    case Good(c, rest) =>
      if !Starts(rest, '|') then Good(c, rest)
      else match ParsePipe(rest[1..])
        case Bad => Bad
        case Good(d, rest') => Good(Pipe(c, d), rest')
  }

  /** parseline's loop over &. */
  function Backs<W(==)>(c: Cmd<W>, ts: seq<Token<W>>): (r: (Cmd<W>, seq<Token<W>>))
    ensures |r.1| <= |ts|
    decreases |ts|
  {
    if Starts(ts, '&') then Backs(Back(c), ts[1..]) else (c, ts)
  }

  function ParseLine<W(==)>(ts: seq<Token<W>>): (p: Parse<Cmd<W>, W>)
    ensures p.Good? ==> |p.rest| <= |ts|
    decreases |ts|, 3
  {
    match ParsePipe(ts)
    case Bad => Bad
    case Good(c, rest) =>
      var (d, rest') := Backs(c, rest);
      if !Starts(rest', ';') then Good(d, rest')
      else match ParseLine(rest'[1..])
        case Bad => Bad
        case Good(e, rest'') => Good(List(d, e), rest'')
  }

  function ParseCmd<W(==)>(ts: seq<Token<W>>): (p: Parse<Cmd<W>, W>) {
    match ParseLine(ts)
    case Bad => Bad
    case Good(c, rest) => if rest == [] then Good(c, rest) else Bad
  }

  // ---------- Round trip ----------

  /** At most nine words per command. */
  predicate Small<W>(c: Cmd<W>) {
    match c
    case Exec(argv) => |argv| < MAXARGS
    case Redir(d, _, _) => Small(d)
    case Pipe(l, r) => Small(l) && Small(r)
    case List(l, r) => Small(l) && Small(r)
    case Back(d) => Small(d)
  }

  function Words<W>(argv: seq<W>): (ts: seq<Token<W>>)
    ensures |ts| == |argv| && forall i :: 0 <= i < |argv| ==> ts[i] == Word(argv[i])
  {
    if argv == [] then [] else [Word(argv[0])] + Words(argv[1..])
  }

  function Arrow<W>(m: Mode): Token<W> {
    match m case Input => Sym('<') case Output => Sym('>') case Appending => Append
  }

  /** A command in full parentheses. */
  function Tokens<W>(c: Cmd<W>): (ts: seq<Token<W>>)
    decreases c, 1
  {
    [Sym('(')] + Inside(c) + [Sym(')')]
  }

  function Inside<W>(c: Cmd<W>): (ts: seq<Token<W>>)
    decreases c, 0
  {
    match c
    case Exec(argv) => Words(argv)
    case Redir(d, f, m) => Tokens(d) + [Arrow(m), Word(f)]
    case Pipe(l, r) => Tokens(l) + [Sym('|')] + Tokens(r)
    case List(l, r) => Tokens(l) + [Sym(';')] + Tokens(r)
    case Back(d) => Tokens(d) + [Sym('&')]
  }

  lemma NoRedirs<W>(ts: seq<Token<W>>)
    requires !StartsRedir(ts)
    ensures Redirs(ts) == Good([], ts)
  {
  }

  lemma ArgsStep<W>(done: seq<W>, w: W, next: seq<Token<W>>)
    requires |done| + 1 < MAXARGS && !StartsRedir(next)
    ensures Args(done, [], [Word(w)] + next) == Args(done + [w], [], next)
  {
    var ts := [Word(w)] + next;
    var none: seq<Redirection<W>> := [];
    assert ts[1..] == next && none + none == none;
    NoRedirs(next);
    hide Redirs; hide StartsRedir; hide Wrap;
  }

  lemma {:induction false} ArgsWords<W>(done: seq<W>, argv: seq<W>, rest: seq<Token<W>>)
    requires |done| + |argv| < MAXARGS && Starts(rest, ')')
    ensures Args(done, [], Words(argv) + rest) == Good(Exec(done + argv), rest)
    decreases |argv|
  {
    if argv == [] {
      assert Words(argv) + rest == rest && done + argv == done;
    } else {
      var next := Words(argv[1..]) + rest;
      assert Words(argv) + rest == [Word(argv[0])] + next;
      assert |argv| > 1 ==> next[0] == Word(argv[1]);
      assert |argv| == 1 ==> next == rest;
      assert done + [argv[0]] + argv[1..] == done + argv;
      hide Words; hide Args;
      ArgsStep(done, argv[0], next);
      ArgsWords(done + [argv[0]], argv[1..], rest);
    }
  }

  /** A parenthesised command parses to itself, wrapped in the redirections that follow. */
  ghost predicate Parses<W>(c: Cmd<W>, rest: seq<Token<W>>) {
    ParseExec(Tokens(c) + rest) == match Redirs(rest) { case Bad => Bad case Good(rs, rest') => Good(Wrap(c, rs), rest') }
  }

  lemma {:induction false} BlockParses<W>(c: Cmd<W>, rest: seq<Token<W>>)
    requires Small(c)
    ensures Parses(c, rest)
    decreases c, 1
  {
    var close := [Sym(')')] + rest;
    var ts := Tokens(c) + rest;
    assert ts[1..] == Inside(c) + close && Starts(ts, '(');
    InsideParses(c, close);
    assert close[1..] == rest;
  }

  /** So a pipeline that begins with it goes on as its next token says. */
  lemma PlainParses<W>(c: Cmd<W>, rest: seq<Token<W>>)
    requires Parses(c, rest) && !StartsRedir(rest)
    ensures ParseExec(Tokens(c) + rest) == Good(c, rest)
    ensures !Starts(rest, '|') ==> ParsePipe(Tokens(c) + rest) == Good(c, rest)
  {
    NoRedirs(rest);
    hide Redirs; hide Tokens; hide StartsRedir;
    assert Wrap(c, []) == c;
  }

  lemma {:induction false} InsideParses<W>(c: Cmd<W>, close: seq<Token<W>>)
    requires Small(c) && Starts(close, ')')
    ensures ParseLine(Inside(c) + close) == Good(c, close)
    decreases c, 0
  {
    hide ParseLine; hide Parses;
    match c {
      case Exec(argv) =>
        WordsParse(argv, close);
      case Redir(d, f, m) =>
        BlockParses(d, [Arrow(m), Word(f)] + close);
        RedirParses(d, f, m, close);
      case Pipe(l, r) =>
        BlockParses(r, close);
        BlockParses(l, [Sym('|')] + (Tokens(r) + close));
        PipeParses(l, r, close);
      case List(l, r) =>
        BlockParses(r, close);
        BlockParses(l, [Sym(';')] + (Tokens(r) + close));
        ListParses(l, r, close);
      case Back(d) =>
        BlockParses(d, [Sym('&')] + close);
        BackParses(d, close);
    }
  }

  lemma WordsParse<W>(argv: seq<W>, close: seq<Token<W>>)
    requires |argv| < MAXARGS && Starts(close, ')')
    ensures ParseLine(Words(argv) + close) == Good(Exec(argv), close)
  {
    var ts := Words(argv) + close;
    assert argv != [] ==> ts[0] == Word(argv[0]);
    assert argv == [] ==> ts == close;
    NoRedirs(ts);
    ArgsWords([], argv, close);
    assert [] + argv == argv;
    hide Redirs; hide Args; hide Words;
    assert ParsePipe(ts) == Good(Exec(argv), close);
  }

  lemma RedirParses<W>(d: Cmd<W>, f: W, m: Mode, close: seq<Token<W>>)
    requires Starts(close, ')') && Parses(d, [Arrow(m), Word(f)] + close)
    ensures ParseLine(Inside(Redir(d, f, m)) + close) == Good(Redir(d, f, m), close)
  {
    var tail := [Arrow(m), Word(f)] + close;
    var r := Redirection(f, m);
    NoRedirs(close);
    assert tail[2..] == close && [r] + [] == [r];
    assert Redirs(tail) == Good([r], close);
    assert Wrap(d, [r]) == Redir(d, f, m) by { assert [r][1..] == []; }
    hide Redirs;
    assert Inside(Redir(d, f, m)) + close == Tokens(d) + tail;
    assert ParsePipe(Tokens(d) + tail) == Good(Redir(d, f, m), close);
  }

  lemma Regroup<W>(a: seq<Token<W>>, t: Token<W>, b: seq<Token<W>>, c: seq<Token<W>>)
    ensures a + [t] + b + c == a + ([t] + (b + c)) && ([t] + (b + c))[1..] == b + c
  {
  }

  lemma PipeStep<W>(ts: seq<Token<W>>, l: Cmd<W>, tail: seq<Token<W>>, r: Cmd<W>, close: seq<Token<W>>)
    requires ParseExec(ts) == Good(l, tail) && Starts(tail, '|') && ParsePipe(tail[1..]) == Good(r, close)
    ensures ParsePipe(ts) == Good(Pipe(l, r), close)
  {
    hide ParseExec;
  }

  lemma LineStep<W>(ts: seq<Token<W>>, c: Cmd<W>, close: seq<Token<W>>)
    requires ParsePipe(ts) == Good(c, close) && !Starts(close, '&') && !Starts(close, ';')
    ensures ParseLine(ts) == Good(c, close)
  {
    hide ParsePipe;
  }

  lemma PipeParses<W>(l: Cmd<W>, r: Cmd<W>, close: seq<Token<W>>)
    requires Starts(close, ')') && Parses(r, close) && Parses(l, [Sym('|')] + (Tokens(r) + close))
    ensures ParseLine(Inside(Pipe(l, r)) + close) == Good(Pipe(l, r), close)
  {
    hide Tokens; hide ParseExec; hide Parses; hide ParsePipe; hide ParseLine;
    var tail := [Sym('|')] + (Tokens(r) + close);
    Regroup(Tokens(l), Sym('|'), Tokens(r), close);
    PlainParses(r, close);
    PlainParses(l, tail);
    PipeStep(Tokens(l) + tail, l, tail, r, close);
    LineStep(Tokens(l) + tail, Pipe(l, r), close);
  }

  lemma ListStep<W>(ts: seq<Token<W>>, l: Cmd<W>, tail: seq<Token<W>>, r: Cmd<W>, close: seq<Token<W>>)
    requires ParsePipe(ts) == Good(l, tail) && Starts(tail, ';') && ParseLine(tail[1..]) == Good(r, close)
    ensures ParseLine(ts) == Good(List(l, r), close)
  {
    assert Backs(l, tail) == (l, tail);
    hide ParsePipe; hide Backs;
  }

  lemma ListParses<W>(l: Cmd<W>, r: Cmd<W>, close: seq<Token<W>>)
    requires Starts(close, ')') && Parses(r, close) && Parses(l, [Sym(';')] + (Tokens(r) + close))
    ensures ParseLine(Inside(List(l, r)) + close) == Good(List(l, r), close)
  {
    hide Tokens; hide ParseExec; hide Parses; hide ParsePipe; hide ParseLine;
    var tail := [Sym(';')] + (Tokens(r) + close);
    Regroup(Tokens(l), Sym(';'), Tokens(r), close);
    PlainParses(r, close);
    PlainParses(l, tail);
    LineStep(Tokens(r) + close, r, close);
    ListStep(Tokens(l) + tail, l, tail, r, close);
  }

  lemma BackParses<W>(d: Cmd<W>, close: seq<Token<W>>)
    requires Starts(close, ')') && Parses(d, [Sym('&')] + close)
    ensures ParseLine(Inside(Back(d)) + close) == Good(Back(d), close)
  {
    var tail := [Sym('&')] + close;
    PlainParses(d, tail);
    assert tail[1..] == close;
    assert Inside(Back(d)) + close == Tokens(d) + tail;
    hide Tokens; hide ParsePipe; hide Parses;
    assert Backs(d, tail) == Backs(Back(d), close) == (Back(d), close);
  }

  /** Parsing the fully parenthesised form of a command gives the command. */
  lemma RoundTrip<W>(c: Cmd<W>)
    requires Small(c)
    ensures ParseCmd(Tokens(c)) == Good(c, [])
  {
    BlockParses(c, []);
    PlainParses(c, []);
    assert Tokens(c) + [] == Tokens(c);
    hide Tokens; hide ParsePipe; hide Parses;
  }

  // ---------- Where the words of a command come from ----------

  ghost predicate HasWord<W>(c: Cmd<W>, w: W) {
    match c
    case Exec(argv) => w in argv
    case Redir(d, f, _) => w == f || HasWord(d, w)
    case Pipe(l, r) => HasWord(l, w) || HasWord(r, w)
    case List(l, r) => HasWord(l, w) || HasWord(r, w)
    case Back(d) => HasWord(d, w)
  }

  /** Every word of c is one of the tokens `all`, and so is every token left. */
  ghost predicate Within<W(!new)>(c: Cmd<W>, rest: seq<Token<W>>, all: seq<Token<W>>) {
    (forall w :: HasWord(c, w) ==> Word(w) in all) && forall t :: t in rest ==> t in all
  }

  lemma {:induction false} WrapWords<W>(c: Cmd<W>, rs: seq<Redirection<W>>, w: W)
    ensures HasWord(Wrap(c, rs), w) <==> HasWord(c, w) || exists i :: 0 <= i < |rs| && rs[i].file == w
    decreases |rs|
  {
    if rs != [] {
      var c' := Redir(c, rs[0].file, rs[0].mode);
      WrapWords(c', rs[1..], w);
      assert HasWord(c', w) <==> HasWord(c, w) || rs[0].file == w;
      assert (exists i :: 0 <= i < |rs| && rs[i].file == w) <==> rs[0].file == w || exists i :: 0 <= i < |rs[1..]| && rs[1..][i].file == w by {
        if exists i :: 0 <= i < |rs| && rs[i].file == w {
          var i :| 0 <= i < |rs| && rs[i].file == w;
          assert i > 0 ==> rs[1..][i - 1].file == w;
        }
      }
    }
  }

  /** One round of parseredirs. */
  lemma RedirsStep<W>(ts: seq<Token<W>>)
    requires StartsRedir(ts)
    ensures |ts| < 2 || !ts[1].Word? ==> Redirs(ts).Bad?
    ensures |ts| >= 2 && ts[1].Word? ==>
              Redirs(ts) == match Redirs(ts[2..]) { case Bad => Bad case Good(rs, rest) => Good([Redirection(ts[1].w, ModeOf(ts[0]))] + rs, rest) }
  {
  }

  lemma {:induction false} RedirWords<W>(ts: seq<Token<W>>, all: seq<Token<W>>)
    requires (forall t :: t in ts ==> t in all) && Redirs(ts).Good?
    ensures forall i :: 0 <= i < |Redirs(ts).value| ==> Word(Redirs(ts).value[i].file) in all
    ensures forall t :: t in Redirs(ts).rest ==> t in all
    decreases |ts|
  {
    if StartsRedir(ts) {
      assert ts[1] in ts;
      RedirWords(ts[2..], all);
    }
  }

  lemma {:induction false} ArgWords<W(!new)>(argv: seq<W>, rs: seq<Redirection<W>>, ts: seq<Token<W>>,
      all: seq<Token<W>>)
    requires (forall t :: t in ts ==> t in all) && (forall w :: w in argv ==> Word(w) in all)
    requires (forall i :: 0 <= i < |rs| ==> Word(rs[i].file) in all) && Args(argv, rs, ts).Good?
    ensures Within(Args(argv, rs, ts).value, Args(argv, rs, ts).rest, all)
    decreases |ts|
  {
    if ts == [] || Starts(ts, '|') || Starts(ts, ')') || Starts(ts, '&') || Starts(ts, ';') {
      forall w | HasWord(Wrap(Exec(argv), rs), w)
        ensures Word(w) in all
      {
        WrapWords(Exec(argv), rs, w);
      }
    } else {
      assert ts[0] in ts;
      RedirWords(ts[1..], all);
      hide Redirs; hide Wrap;
      var p := Redirs(ts[1..]);
      ArgWords(argv + [ts[0].w], rs + p.value, p.rest, all);
    }
  }

  lemma {:induction false} LineWords<W(!new)>(ts: seq<Token<W>>, all: seq<Token<W>>)
    requires (forall t :: t in ts ==> t in all) && ParseLine(ts).Good?
    ensures Within(ParseLine(ts).value, ParseLine(ts).rest, all)
    decreases |ts|, 3
  {
    PipeWords(ts, all);
    var p := ParsePipe(ts);
    hide ParsePipe;
    BackWords(p.value, p.rest, all);
    var (d, rest) := Backs(p.value, p.rest);
    hide Backs;
    if Starts(rest, ';') {
      LineWords(rest[1..], all);
    }
  }

  lemma {:induction false} BackWords<W(!new)>(c: Cmd<W>, ts: seq<Token<W>>, all: seq<Token<W>>)
    requires Within(c, ts, all)
    ensures Within(Backs(c, ts).0, Backs(c, ts).1, all)
    decreases |ts|
  {
    if Starts(ts, '&') {
      BackWords(Back(c), ts[1..], all);
    }
  }

  lemma {:induction false} PipeWords<W(!new)>(ts: seq<Token<W>>, all: seq<Token<W>>)
    requires (forall t :: t in ts ==> t in all) && ParsePipe(ts).Good?
    ensures Within(ParsePipe(ts).value, ParsePipe(ts).rest, all)
    decreases |ts|, 2
  {
    ExecWords(ts, all);
    var p := ParseExec(ts);
    hide ParseExec;
    if Starts(p.rest, '|') {
      PipeWords(p.rest[1..], all);
    }
  }

  lemma {:induction false} ExecWords<W(!new)>(ts: seq<Token<W>>, all: seq<Token<W>>)
    requires (forall t :: t in ts ==> t in all) && ParseExec(ts).Good?
    ensures Within(ParseExec(ts).value, ParseExec(ts).rest, all)
    decreases |ts|, 1
  {
    if Starts(ts, '(') {
      LineWords(ts[1..], all);
      var p := ParseLine(ts[1..]);
      hide ParseLine;
      RedirWords(p.rest[1..], all);
      var q := Redirs(p.rest[1..]);
      hide Redirs;
      forall w | HasWord(Wrap(p.value, q.value), w)
        ensures Word(w) in all
      {
        WrapWords(p.value, q.value, w);
      }
    } else {
      RedirWords(ts, all);
      ArgWords([], Redirs(ts).value, Redirs(ts).rest, all);
    }
  }
}
