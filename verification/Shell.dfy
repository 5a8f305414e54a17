/** The shell's tokenizer and parser (user/sh.c): a cursor moving through the input, and
    NULs written behind the words. */
module Shell {
  import opened ShellGrammar
  import opened ShellTrees

  /** q and eq: where a word begins and ends. */
  datatype Span = Span(b: nat, e: nat)

  predicate Blank(c: char) {
    c == ' ' || c == '\t' || c == '\r' || c == '\n' || c == 11 as char
  }

  predicate Symbol(c: char) {
    c == '<' || c == '|' || c == '>' || c == '&' || c == ';' || c == '(' || c == ')'
  }

  // ---------- The token list of a text ----------

  function SkipBlanks(text: string, p: nat): (q: nat)
    requires p <= |text|
    ensures p <= q <= |text| && (q < |text| ==> !Blank(text[q])) && forall i :: p <= i < q ==> Blank(text[i])
    decreases |text| - p
  {
    if p < |text| && Blank(text[p]) then SkipBlanks(text, p + 1) else p
  }

  function WordEnd(text: string, p: nat): (q: nat)
    requires p <= |text|
    ensures p <= q <= |text| && (q < |text| ==> Blank(text[q]) || Symbol(text[q]))
    ensures forall i :: p <= i < q ==> !Blank(text[i]) && !Symbol(text[i])
    decreases |text| - p
  {
    if p < |text| && !Blank(text[p]) && !Symbol(text[p]) then WordEnd(text, p + 1) else p
  }

  /** The token at a character that is not blank, and where it ends. */
  function TokenAt(text: string, p: nat): (t: (Token<Span>, nat))
    requires p < |text| && !Blank(text[p])
    ensures p < t.1 <= |text|
  {
    if text[p] == '>' then (if p + 1 < |text| && text[p + 1] == '>' then (Append, p + 2) else (Sym('>'), p + 1))
    else if Symbol(text[p]) then (Sym(text[p]), p + 1)
    else (Word(Span(p, WordEnd(text, p))), WordEnd(text, p))
  }

  function Lex(text: string, p: nat): (ts: seq<Token<Span>>)
    requires p <= |text|
    decreases |text| - p
  {
    var q := SkipBlanks(text, p);
    if q == |text| then [] else var (t, e) := TokenAt(text, q); [t] + Lex(text, e)
  }

  lemma LexSkip(text: string, p: nat)
    requires p <= |text|
    ensures Lex(text, SkipBlanks(text, p)) == Lex(text, p)
  {
    var q := SkipBlanks(text, p);
    assert SkipBlanks(text, q) == q;
  }

  lemma LexFirst(text: string, p: nat)
    requires p <= |text|
    ensures var q := SkipBlanks(text, p);
            Lex(text, p) == if q == |text| then [] else [TokenAt(text, q).0] + Lex(text, TokenAt(text, q).1)
  {
  }

  /** A token that begins with one of the characters in toks. */
  predicate BeginsIn(t: Token<Span>, toks: string) {
    (t.Sym? && t.c in toks) || (t.Append? && '>' in toks)
  }

  lemma FirstToken(text: string, p: nat, toks: string)
    requires p <= |text| && forall c :: c in toks ==> Symbol(c)
    ensures var q, ts := SkipBlanks(text, p), Lex(text, p);
            (q == |text| <==> ts == []) && (q < |text| ==> (BeginsIn(ts[0], toks) <==> text[q] in toks))
  {
  }

  /** gettoken's return value; End is its 0. */
  datatype Next = End | Got(t: Token<Span>)

  /** parseredirs has read rs, and `all` is what it will have read. */
  ghost predicate Continues(all: Parse<seq<Redirection<Span>>, Span>, rs: seq<Redirection<Span>>,
      ts: seq<Token<Span>>) {
    var p := Redirs(ts); if p.Bad? then all.Bad? else all == Good(rs + p.value, p.rest)
  }

  lemma ContinuesOn(all: Parse<seq<Redirection<Span>>, Span>, rs: seq<Redirection<Span>>, ts: seq<Token<Span>>,
      r: Redirection<Span>, rest: seq<Token<Span>>)
    requires Continues(all, rs, ts)
    requires Redirs(ts) == match Redirs(rest) { case Bad => Bad case Good(more, end) => Good([r] + more, end) }
    ensures Continues(all, rs + [r], rest)
  {
    hide Redirs;
    if Redirs(rest).Good? {
      assert rs + ([r] + Redirs(rest).value) == rs + [r] + Redirs(rest).value;
    }
  }

  class Parser {
    const text: string
    var pos: nat

    ghost predicate Valid()
      reads this
    {
      pos <= |text|
    }

    constructor (s: string)
      ensures text == s && pos == 0
    {
      text := s;
      pos := 0;
    }

    ghost function Rest(): seq<Token<Span>>
      requires Valid()
      reads this
    {
      Lex(text, pos)
    }

    /** while(s < es && strchr(whitespace, *s)) s++; */
    method Skip(p: nat) returns (q: nat)
      requires p <= |text|
      ensures q == SkipBlanks(text, p)
    {
      q := p;
      while q < |text| && Blank(text[q])
        invariant p <= q <= |text| && SkipBlanks(text, p) == SkipBlanks(text, q)
      {
        q := q + 1;
      }
    }

    /** peek, for symbols only. */
    method Peek(toks: string) returns (yes: bool)
      requires Valid() && forall c :: c in toks ==> Symbol(c)
      modifies this
      ensures Valid() && old(pos) <= pos && Rest() == old(Rest())
      ensures pos == |text| <==> Rest() == []
      ensures yes <==> Rest() != [] && BeginsIn(Rest()[0], toks)
    {
      LexSkip(text, pos);
      FirstToken(text, pos, toks);
      var s := Skip(pos);
      pos := s;
      return s < |text| && text[s] in toks;
    }

    /** gettoken: the first token of the rest. */
    method GetToken() returns (r: Next)
      requires Valid()
      modifies this
      ensures Valid() && old(pos) <= pos
      ensures old(Rest()) == [] ==> r == End && Rest() == []
      ensures old(Rest()) != [] ==> r == Got(old(Rest())[0]) && Rest() == old(Rest())[1..] && old(pos) < pos
    {
      var s := Skip(pos);
      LexFirst(text, pos);
      hide Lex;
      if s == |text| {
        LexFirst(text, s);
        pos := s;
        return End;
      }
      var t, e := TakeToken(s);
      LexSkip(text, e);
      s := Skip(e);
      pos := s;
      return Got(t);
    }

    /** gettoken's switch, at a character that is not blank. */
    method TakeToken(q: nat) returns (t: Token<Span>, s: nat)
      requires q < |text| && !Blank(text[q])
      ensures (t, s) == TokenAt(text, q)
    {
      s := q;
      var c := text[q];
      if c == '|' || c == '(' || c == ')' || c == ';' || c == '&' || c == '<' {
        return Sym(c), s + 1;
      }
      if c == '>' {
        s := s + 1;
        if s < |text| && text[s] == '>' {
          return Append, s + 1;
        }
        return Sym('>'), s;
      }
      while s < |text| && !Blank(text[s]) && !Symbol(text[s])
        invariant q <= s <= |text| && WordEnd(text, q) == WordEnd(text, s)
      {
        s := s + 1;
      }
      return Word(Span(q, s)), s;
    }

    /** parseredirs, up to wrapping the command. */
    method ParseRedirs() returns (ok: bool, rs: seq<Redirection<Span>>)
      requires Valid()
      modifies this
      ensures Valid() && old(pos) <= pos
      ensures var p := Redirs(old(Rest())); if p.Bad? then !ok else ok && rs == p.value && Rest() == p.rest
    {
      hide Lex; hide Redirs;
      rs := [];
      ghost var all := Redirs(Rest());
      assert all.Good? ==> rs + all.value == all.value;
      while true
        invariant Valid() && old(pos) <= pos && Continues(all, rs, Rest())
        decreases |text| - pos
      {
        ghost var ts := Rest();
        var more := Peek("<>");
        if !more {
          NoRedirs(ts);
          return true, rs;
        }
        RedirsStep(ts);
        var tok := GetToken();
        var word := GetToken();
        if word.End? || !word.t.Word? {
          return false, rs;
        }
        assert ts[1..][1..] == ts[2..];
        var r := Redirection(word.t.w, ModeOf(tok.t));
        ContinuesOn(all, rs, ts, r, Rest());
        rs := rs + [r];
      }
    }

    /** parseexec */
    method ParseExecCmd() returns (ok: bool, cmd: Cmd<Span>)
      requires Valid()
      modifies this
      ensures Valid() && old(pos) <= pos
      ensures var p := ParseExec(old(Rest())); if p.Bad? then !ok else ok && cmd == p.value && Rest() == p.rest
      decreases |text| - pos, 1
    {
      hide Lex; hide Redirs; hide Wrap;
      cmd := Exec([]);
      var block := Peek("(");
      if block {
        ok, cmd := ParseBlockCmd();
        return;
      }
      var argv: seq<Span>, rs: seq<Redirection<Span>> := [], [];
      ok, rs := ParseRedirs();
      if !ok {
        return;
      }
      ghost var all := Args(argv, rs, Rest());
      while true
        invariant Valid() && old(pos) <= pos && all == Args(argv, rs, Rest()) && |argv| < MAXARGS
        decreases |text| - pos
      {
        var done := Peek("|)&;");
        if done {
          return true, Wrap(Exec(argv), rs);
        }
        var tok := GetToken();
        if tok.End? {
          return true, Wrap(Exec(argv), rs);
        }
        if !tok.t.Word? {
          return false, cmd;
        }
        argv := argv + [tok.t.w];
        if |argv| >= MAXARGS {
          return false, cmd;
        }
        var more;
        ok, more := ParseRedirs();
        if !ok {
          return;
        }
        rs := rs + more;
      }
    }

    /** parseblock */
    method ParseBlockCmd() returns (ok: bool, cmd: Cmd<Span>)
      requires Valid() && Starts(Rest(), '(')
      modifies this
      ensures Valid() && old(pos) <= pos
      ensures var p := ParseBlock(old(Rest())); if p.Bad? then !ok else ok && cmd == p.value && Rest() == p.rest
      decreases |text| - pos, 0
    {
      hide Lex; hide Redirs; hide Wrap; hide ParseLine;
      var open := GetToken();
      ok, cmd := ParseLineCmd();
      if !ok {
        return;
      }
      var close := Peek(")");
      if !close {
        return false, cmd;
      }
      open := GetToken();
      var rs;
      ok, rs := ParseRedirs();
      cmd := Wrap(cmd, rs);
    }

    /** parsepipe */
    method ParsePipeCmd() returns (ok: bool, cmd: Cmd<Span>)
      requires Valid()
      modifies this
      ensures Valid() && old(pos) <= pos
      ensures var p := ParsePipe(old(Rest())); if p.Bad? then !ok else ok && cmd == p.value && Rest() == p.rest
      decreases |text| - pos, 2
    {
      hide Lex; hide ParseExec;
      ok, cmd := ParseExecCmd();
      if !ok {
        return;
      }
      var pipe := Peek("|");
      if pipe {
        var bar := GetToken();
        var right;
        ok, right := ParsePipeCmd();
        cmd := Pipe(cmd, right);
      }
    }

    /** parseline */
    method ParseLineCmd() returns (ok: bool, cmd: Cmd<Span>)
      requires Valid()
      modifies this
      ensures Valid() && old(pos) <= pos
      ensures var p := ParseLine(old(Rest())); if p.Bad? then !ok else ok && cmd == p.value && Rest() == p.rest
      decreases |text| - pos, 3
    {
      hide Lex; hide ParsePipe;
      ok, cmd := ParsePipeCmd();
      if !ok {
        return;
      }
      ghost var all := Backs(cmd, Rest());
      while true
        invariant Valid() && old(pos) <= pos && Backs(cmd, Rest()) == all
        decreases |text| - pos
      {
        var amp := Peek("&");
        if !amp {
          break;
        }
        var tok := GetToken();
        cmd := Back(cmd);
      }
      var semi := Peek(";");
      if semi {
        var tok := GetToken();
        var right;
        ok, right := ParseLineCmd();
        cmd := List(cmd, right);
      }
    }

    /** parsecmd, up to nulterminate. */
    method ParseAll() returns (ok: bool, cmd: Cmd<Span>)
      requires Valid()
      modifies this
      ensures Valid()
      ensures var p := ParseCmd(old(Rest())); if p.Bad? then !ok else ok && p == Good(cmd, [])
    {
      hide Lex; hide ParseLine;
      ok, cmd := ParseLineCmd();
      if !ok {
        return;
      }
      var none := Peek("");
      ok := pos == |text|;
    }
  }

  // ---------- nulterminate ----------

  const NUL := 0 as char

  ghost predicate EndsAt(c: Cmd<Span>, i: int) {
    exists w :: HasWord(c, w) && w.e == i
  }

  /** nulterminate: a NUL at the end of every word of the command, nothing else. */
  method NulTerminate(buf: array<char>, c: Cmd<Span>)
    requires forall w :: HasWord(c, w) ==> w.e < buf.Length
    modifies buf
    ensures forall i :: 0 <= i < buf.Length ==> buf[i] == if EndsAt(c, i) then NUL else old(buf[i])
    decreases c
  {
    match c {
      case Exec(argv) =>
        var k := 0;
        while k < |argv|
          invariant 0 <= k <= |argv|
          invariant forall i :: 0 <= i < buf.Length ==>
                    buf[i] == if exists j :: 0 <= j < k && argv[j].e == i then NUL else old(buf[i])
        {
          assert HasWord(c, argv[k]);
          buf[argv[k].e] := NUL;
          k := k + 1;
        }
        assert forall i :: 0 <= i < buf.Length ==> (EndsAt(c, i) <==> exists j :: 0 <= j < |argv| && argv[j].e == i);
      case Redir(d, f, _) =>
        assert HasWord(c, f);
        assert forall w :: HasWord(d, w) ==> HasWord(c, w);
        NulTerminate(buf, d);
        buf[f.e] := NUL;
        EndsTwo(c, d, Exec([f]));
      case Pipe(l, r) =>
        EndsTwo(c, l, r);
        NulTerminate(buf, l);
        NulTerminate(buf, r);
      case List(l, r) =>
        EndsTwo(c, l, r);
        NulTerminate(buf, l);
        NulTerminate(buf, r);
      case Back(d) =>
        EndsTwo(c, d, d);
        NulTerminate(buf, d);
    }
  }

  lemma EndsTwo(c: Cmd<Span>, l: Cmd<Span>, r: Cmd<Span>)
    requires forall w :: HasWord(c, w) <==> HasWord(l, w) || HasWord(r, w)
    ensures forall i :: EndsAt(c, i) <==> EndsAt(l, i) || EndsAt(r, i)
  {
  }

  /** A word as the tokenizer makes it: no blank or symbol inside, and one behind it. */
  ghost predicate WordOk(text: string, w: Span) {
    && w.b < w.e <= |text| && (forall i :: w.b <= i < w.e ==> !Blank(text[i]) && !Symbol(text[i]))
    && (w.e < |text| ==> Blank(text[w.e]) || Symbol(text[w.e]))
  }

  lemma {:induction false} LexWords(text: string, p: nat, w: Span)
    requires p <= |text| && Word(w) in Lex(text, p)
    ensures WordOk(text, w)
    decreases |text| - p
  {
    var q := SkipBlanks(text, p);
    var (t, e) := TokenAt(text, q);
    if t != Word(w) {
      LexWords(text, e, w);
    }
  }

  /** parsecmd on a NUL-terminated buffer: it succeeds when the grammar accepts the text, and
      then every word of the command is intact in the buffer and followed by a NUL. */
  method ParseCommand(buf: array<char>, n: nat) returns (ok: bool, cmd: Cmd<Span>)
    requires n + 1 == buf.Length && buf[n] == NUL && forall i :: 0 <= i < n ==> buf[i] != NUL
    modifies buf
    ensures var p := ParseCmd(Lex(old(buf[..n]), 0)); ok == p.Good? && (ok ==> cmd == p.value)
    ensures forall c :: Derives(Lex(old(buf[..n]), 0), c) <==> ok && c == cmd
    ensures ok ==> forall w :: HasWord(cmd, w) ==>
                     && w.b < w.e < buf.Length && buf[w.e] == NUL
                     && forall i :: w.b <= i < w.e ==> buf[i] == old(buf[i])
  {
    var text := buf[..n];
    var parser := new Parser(text);
    ok, cmd := parser.ParseAll();
    forall c
      ensures Derives(Lex(text, 0), c) <==> ok && c == cmd
    {
      ParsesExactly(Lex(text, 0), c);
    }
    hide Derives;
    if ok {
      CommandWords(text, cmd);
      hide Lex; hide ParseCmd; hide HasWord;
      NulTerminate(buf, cmd);
      forall w | HasWord(cmd, w)
        ensures w.b < w.e < buf.Length && buf[w.e] == NUL && forall i :: w.b <= i < w.e ==> buf[i] == old(buf[i])
      {
        assert WordOk(text, w) && EndsAt(cmd, w.e);
        forall i | w.b <= i < w.e
          ensures !EndsAt(cmd, i)
        {
          NotInside(text, cmd, w, i);
        }
      }
    }
  }

  lemma NotInside(text: string, cmd: Cmd<Span>, w: Span, i: nat)
    requires (forall v :: HasWord(cmd, v) ==> WordOk(text, v)) && WordOk(text, w) && w.b <= i < w.e
    ensures !EndsAt(cmd, i)
  {
    hide HasWord;
    forall v | HasWord(cmd, v)
      ensures v.e != i
    {
      assert WordOk(text, v);
    }
  }

  lemma CommandWords(text: string, cmd: Cmd<Span>)
    requires ParseCmd(Lex(text, 0)) == Good(cmd, [])
    ensures forall w :: HasWord(cmd, w) ==> WordOk(text, w)
  {
    var ts := Lex(text, 0);
    LineWords(ts, ts);
    forall w | HasWord(cmd, w)
      ensures WordOk(text, w)
    {
      LexWords(text, 0, w);
    }
  }
}
