/** The command language of user/sh.c by its rules: the syntax trees, the tokens each stands for
    and the command each means; and that the parser finds exactly these. */
module ShellTrees {
  import opened ShellGrammar

  // ---------- The rules ----------

  /** A piece of a simple command. */
  datatype Item<W> = Arg(w: W) | Into(r: Redirection<W>)

  /** Words and redirections in any order, or a line in parentheses with redirections behind. */
  datatype Part<W> = Simple(items: seq<Item<W>>) | Block(line: Line<W>, rs: seq<Redirection<W>>)

  /** Parts with | between them. */
  datatype Pipeline<W> = One(part: Part<W>) | Join(part: Part<W>, more: Pipeline<W>)

  /** Pipelines, each with any number of & behind it, with ; between them. */
  datatype Line<W> = Last(pipe: Pipeline<W>, amps: nat) | Then(pipe: Pipeline<W>, amps: nat, more: Line<W>)

  function RedirTokens<W>(rs: seq<Redirection<W>>): (ts: seq<Token<W>>) {
    if rs == [] then [] else [Arrow(rs[0].mode), Word(rs[0].file)] + RedirTokens(rs[1..])
  }

  function ItemTokens<W>(items: seq<Item<W>>): (ts: seq<Token<W>>) {
    if items == [] then []
    else
      (match items[0]
       case Arg(w) => [Word(w)]
       case Into(r) => [Arrow(r.mode), Word(r.file)]) + ItemTokens(items[1..])
  }

  function Amps<W>(n: nat): (ts: seq<Token<W>>) {
    if n == 0 then [] else [Sym('&')] + Amps(n - 1)
  }

  function PartTokens<W>(part: Part<W>): (ts: seq<Token<W>>) {
    match part
    case Simple(items) => ItemTokens(items)
    case Block(line, rs) => [Sym('(')] + (LineTokens(line) + ([Sym(')')] + RedirTokens(rs)))
  }

  function PipeTokens<W>(pipe: Pipeline<W>): (ts: seq<Token<W>>) {
    match pipe
    case One(part) => PartTokens(part)
    case Join(part, more) => PartTokens(part) + ([Sym('|')] + PipeTokens(more))
  }

  function LineTokens<W>(line: Line<W>): (ts: seq<Token<W>>) {
    match line
    case Last(pipe, amps) => PipeTokens(pipe) + Amps(amps)
    case Then(pipe, amps, more) => PipeTokens(pipe) + (Amps(amps) + ([Sym(';')] + LineTokens(more)))
  }

  // ---------- What they mean ----------

  /** The words, in order. */
  function ArgsOf<W>(items: seq<Item<W>>): (argv: seq<W>) {
    if items == [] then [] else (if items[0].Arg? then [items[0].w] else []) + ArgsOf(items[1..])
  }

  /** The redirections, in order. */
  function RedirsOf<W>(items: seq<Item<W>>): (rs: seq<Redirection<W>>) {
    if items == [] then [] else (if items[0].Into? then [items[0].r] else []) + RedirsOf(items[1..])
  }

  /** The last redirection is outermost. */
  function Redirected<W>(c: Cmd<W>, rs: seq<Redirection<W>>): Cmd<W> {
    if rs == [] then c
    else var r := rs[|rs| - 1]; Redir(Redirected(c, rs[..|rs| - 1]), r.file, r.mode)
  }

  function InBackground<W>(c: Cmd<W>, n: nat): Cmd<W> {
    if n == 0 then c else Back(InBackground(c, n - 1))
  }

  function PartMeans<W>(part: Part<W>): Cmd<W> {
    match part
    case Simple(items) => Redirected(Exec(ArgsOf(items)), RedirsOf(items))
    case Block(line, rs) => Redirected(LineMeans(line), rs)
  }

  function PipeMeans<W>(pipe: Pipeline<W>): Cmd<W> {
    match pipe
    case One(part) => PartMeans(part)
    case Join(part, more) => Pipe(PartMeans(part), PipeMeans(more))
  }

  function LineMeans<W>(line: Line<W>): Cmd<W> {
    match line
    case Last(pipe, amps) => InBackground(PipeMeans(pipe), amps)
    case Then(pipe, amps, more) => List(InBackground(PipeMeans(pipe), amps), LineMeans(more))
  }

  /** At most nine words in a simple command. */
  predicate PartOk<W>(part: Part<W>) {
    match part
    case Simple(items) => |ArgsOf(items)| < MAXARGS
    case Block(line, _) => LineOk(line)
  }

  predicate PipeOk<W>(pipe: Pipeline<W>) {
    PartOk(pipe.part) && (pipe.Join? ==> PipeOk(pipe.more))
  }

  predicate LineOk<W>(line: Line<W>) {
    PipeOk(line.pipe) && (line.Then? ==> LineOk(line.more))
  }

  /** The tokens stand for the command. */
  ghost predicate Derives<W(!new)>(ts: seq<Token<W>>, c: Cmd<W>) {
    exists line: Line<W> :: LineOk(line) && LineTokens(line) == ts && LineMeans(line) == c
  }

  // ---------- The parser finds every tree ----------

  /** Where a simple command ends. */
  predicate Stops<W(==)>(ts: seq<Token<W>>) {
    ts == [] || Starts(ts, '|') || Starts(ts, ')') || Starts(ts, '&') || Starts(ts, ';')
  }

  predicate Ends<W(==)>(ts: seq<Token<W>>) {
    ts == [] || Starts(ts, ')')
  }

  lemma {:induction false} WrapIs<W>(c: Cmd<W>, rs: seq<Redirection<W>>)
    ensures Wrap(c, rs) == Redirected(c, rs)
    decreases |rs|
  {
    if rs != [] {
      WrapIs(Redir(c, rs[0].file, rs[0].mode), rs[1..]);
      RedirectedFirst(c, rs);
    }
  }

  lemma {:induction false} RedirectedFirst<W>(c: Cmd<W>, rs: seq<Redirection<W>>)
    requires rs != []
    ensures Redirected(c, rs) == Redirected(Redir(c, rs[0].file, rs[0].mode), rs[1..])
    decreases |rs|
  {
    if |rs| == 1 {
      assert rs[..0] == [] && rs[1..] == [];
    } else {
      var init := rs[..|rs| - 1];
      RedirectedFirst(c, init);
      assert rs[1..][..|rs[1..]| - 1] == init[1..];
    }
  }

  lemma ArrowMode<W>(m: Mode, ts: seq<Token<W>>)
    requires ts != [] && ts[0] == Arrow(m)
    ensures StartsRedir(ts) && ModeOf(ts[0]) == m
  {
  }

  lemma {:induction false} RedirsComplete<W>(rs: seq<Redirection<W>>, rest: seq<Token<W>>)
    requires !StartsRedir(rest)
    ensures Redirs(RedirTokens(rs) + rest) == Good(rs, rest)
    decreases |rs|
  {
    if rs == [] {
      assert RedirTokens(rs) + rest == rest;
      NoRedirs(rest);
    } else {
      var ts := RedirTokens(rs) + rest;
      assert ts[0] == Arrow(rs[0].mode) && ts[1] == Word(rs[0].file) && ts[2..] == RedirTokens(rs[1..]) + rest;
      ArrowMode(rs[0].mode, ts);
      RedirsComplete(rs[1..], rest);
      RedirsStep(ts);
      hide Redirs; hide RedirTokens; hide StartsRedir;
      assert rs == [rs[0]] + rs[1..] && rs[0] == Redirection(rs[0].file, rs[0].mode);
    }
  }

  /** Redirections as items. */
  function Intos<W>(rs: seq<Redirection<W>>): (items: seq<Item<W>>) {
    if rs == [] then [] else [Into(rs[0])] + Intos(rs[1..])
  }

  lemma ItemsArg<W>(w: W, items: seq<Item<W>>)
    ensures var all := [Arg(w)] + items;
            ItemTokens(all) == [Word(w)] + ItemTokens(items) && ArgsOf(all) == [w] + ArgsOf(items) && RedirsOf(all) == RedirsOf(items)
  {
    var all := [Arg(w)] + items;
    assert all[0] == Arg(w) && all[1..] == items;
  }

  lemma ItemsInto<W>(r: Redirection<W>, items: seq<Item<W>>)
    ensures var all := [Into(r)] + items;
            && ItemTokens(all) == [Arrow(r.mode), Word(r.file)] + ItemTokens(items) && ArgsOf(all) == ArgsOf(items)
            && RedirsOf(all) == [r] + RedirsOf(items)
  {
    var all := [Into(r)] + items;
    assert all[0] == Into(r) && all[1..] == items;
  }

  lemma RedirsCons<W>(r: Redirection<W>, rs: seq<Redirection<W>>)
    ensures RedirTokens([r] + rs) == [Arrow(r.mode), Word(r.file)] + RedirTokens(rs) && Intos([r] + rs) == [Into(r)] + Intos(rs)
  {
    assert ([r] + rs)[1..] == rs;
  }

  lemma {:induction false} IntosIs<W>(rs: seq<Redirection<W>>, items: seq<Item<W>>)
    ensures ItemTokens(Intos(rs) + items) == RedirTokens(rs) + ItemTokens(items)
    ensures ArgsOf(Intos(rs) + items) == ArgsOf(items) && RedirsOf(Intos(rs) + items) == rs + RedirsOf(items)
    decreases |rs|
  {
    if rs == [] {
      assert Intos(rs) + items == items && rs + RedirsOf(items) == RedirsOf(items);
      assert RedirTokens(rs) + ItemTokens(items) == ItemTokens(items);
    } else {
      hide ItemTokens; hide ArgsOf; hide RedirsOf; hide RedirTokens; hide Intos;
      var r, more := rs[0], rs[1..];
      assert rs == [r] + more;
      IntosIs(more, items);
      RedirsCons(r, more);
      ItemsInto(r, Intos(more) + items);
      Regrouped([Into(r)], Intos(more), items);
      Regrouped([Arrow(r.mode), Word(r.file)], RedirTokens(more), ItemTokens(items));
      Regrouped([r], more, RedirsOf(items));
    }
  }

  /** The redirections in front of the first word. */
  lemma {:induction false} Front<W>(items: seq<Item<W>>) returns (rs: seq<Redirection<W>>, more: seq<Item<W>>)
    ensures items == Intos(rs) + more && |more| <= |items| && (more == [] || more[0].Arg?)
  {
    if items == [] || items[0].Arg? {
      rs, more := [], items;
    } else {
      var front;
      front, more := Front(items[1..]);
      rs := [items[0].r] + front;
      RedirsCons(items[0].r, front);
      assert items == [items[0]] + items[1..];
    }
  }

  lemma StopsRedirs<W>(items: seq<Item<W>>, rest: seq<Token<W>>)
    requires Stops(rest) && (items == [] || items[0].Arg?)
    ensures !StartsRedir(ItemTokens(items) + rest)
  {
    var ts := ItemTokens(items) + rest;
    if items == [] {
      assert ts == rest;
    } else {
      assert ts[0] == Word(items[0].w);
    }
  }

  lemma Regrouped<T>(a: seq<T>, b: seq<T>, c: seq<T>)
    ensures (a + b) + c == a + (b + c)
  {
  }

  lemma ArgsNone<W>(argv: seq<W>, rs: seq<Redirection<W>>, rest: seq<Token<W>>)
    requires Stops(rest)
    ensures Args(argv, rs, rest) == Good(Wrap(Exec(argv), rs), rest) && ItemTokens<W>([]) + rest == rest
    ensures argv + ArgsOf([]) == argv && rs + RedirsOf([]) == rs
  {
    hide Wrap; hide Redirs;
  }

  lemma ArgsGo<W>(argv: seq<W>, rs: seq<Redirection<W>>, w: W, tail: seq<Token<W>>)
    requires |argv| + 1 < MAXARGS && Redirs(tail).Good?
    ensures Args(argv, rs, [Word(w)] + tail) == Args(argv + [w], rs + Redirs(tail).value, Redirs(tail).rest)
  {
    var ts := [Word(w)] + tail;
    assert ts[1..] == tail && !Stops(ts);
    hide Redirs; hide Wrap;
  }

  lemma {:induction false} ArgsComplete<W>(argv: seq<W>, rs: seq<Redirection<W>>, items: seq<Item<W>>, rest: seq<Token<W>>)
    requires Stops(rest) && (items == [] || items[0].Arg?) && |argv| + |ArgsOf(items)| < MAXARGS
    ensures Args(argv, rs, ItemTokens(items) + rest) == Good(Wrap(Exec(argv + ArgsOf(items)), rs + RedirsOf(items)), rest)
    decreases |items|
  {
    hide Redirs; hide ItemTokens; hide RedirTokens; hide ArgsOf; hide RedirsOf; hide Wrap; hide Args; hide Intos;
    hide StartsRedir; hide Stops;
    if items == [] {
      ArgsNone(argv, rs, rest);
    } else {
      var w, tail := items[0].w, items[1..];
      assert items == [Arg(w)] + tail;
      ItemsArg(w, tail);
      var more, next := Front(tail);
      IntosIs(more, next);
      StopsRedirs(next, rest);
      RedirsComplete(more, ItemTokens(next) + rest);
      Regrouped(RedirTokens(more), ItemTokens(next), rest);
      Regrouped([Word(w)], ItemTokens(tail), rest);
      Regrouped(argv, [w], ArgsOf(next));
      Regrouped(rs, more, RedirsOf(next));
      ArgsGo(argv, rs, w, ItemTokens(tail) + rest);
      ArgsComplete(argv + [w], rs + more, next, rest);
    }
  }

  lemma ExecGo<W>(ts: seq<Token<W>>)
    requires !Starts(ts, '(') && Redirs(ts).Good?
    ensures ParseExec(ts) == Args([], Redirs(ts).value, Redirs(ts).rest)
  {
    hide Redirs; hide Args;
  }

  lemma SimpleComplete<W>(items: seq<Item<W>>, rest: seq<Token<W>>)
    requires |ArgsOf(items)| < MAXARGS && Stops(rest)
    ensures ParseExec(ItemTokens(items) + rest) == Good(PartMeans(Simple(items)), rest)
  {
    SimpleStart(items, rest);
    hide Redirs; hide ItemTokens; hide RedirTokens; hide ArgsOf; hide RedirsOf; hide Wrap; hide Args; hide Intos;
    hide StartsRedir; hide ParseExec; hide Stops;
    var rs, next := Front(items);
    IntosIs(rs, next);
    StopsRedirs(next, rest);
    var ts := ItemTokens(items) + rest;
    Regrouped(RedirTokens(rs), ItemTokens(next), rest);
    RedirsComplete(rs, ItemTokens(next) + rest);
    ExecGo(ts);
    ArgsComplete([], rs, next, rest);
    assert [] + ArgsOf(next) == ArgsOf(items);
    WrapIs(Exec(ArgsOf(items)), RedirsOf(items));
  }

  lemma SimpleStart<W>(items: seq<Item<W>>, rest: seq<Token<W>>)
    requires Stops(rest)
    ensures !Starts(ItemTokens(items) + rest, '(')
  {
    var ts := ItemTokens(items) + rest;
    if items == [] {
      assert ts == rest;
    }
  }

  lemma StopsPlain<W>(rest: seq<Token<W>>)
    requires Stops(rest)
    ensures !StartsRedir(rest)
  {
  }

  lemma {:induction false} PartComplete<W>(part: Part<W>, rest: seq<Token<W>>)
    requires PartOk(part) && Stops(rest)
    ensures ParseExec(PartTokens(part) + rest) == Good(PartMeans(part), rest)
    decreases part
  {
    match part {
      case Simple(items) =>
        SimpleComplete(items, rest);
      case Block(line, rs) =>
        LineComplete(line, [Sym(')')] + (RedirTokens(rs) + rest));
        BlockComplete(line, rs, rest);
    }
  }

  lemma BlockComplete<W>(line: Line<W>, rs: seq<Redirection<W>>, rest: seq<Token<W>>)
    requires Stops(rest)
    requires var close := [Sym(')')] + (RedirTokens(rs) + rest);
             ParseLine(LineTokens(line) + close) == Good(LineMeans(line), close)
    ensures ParseExec(PartTokens(Block(line, rs)) + rest) == Good(PartMeans(Block(line, rs)), rest)
  {
    hide ParseLine; hide Redirs; hide LineTokens; hide RedirTokens; hide Wrap; hide LineMeans; hide Redirected;
    var close := [Sym(')')] + (RedirTokens(rs) + rest);
    var ts := PartTokens(Block(line, rs)) + rest;
    assert close[1..] == RedirTokens(rs) + rest;
    assert ts[0] == Sym('(') && ts[1..] == LineTokens(line) + close;
    StopsPlain(rest);
    RedirsComplete(rs, rest);
    WrapIs(LineMeans(line), rs);
    hide PartTokens; hide Stops;
  }

  lemma {:induction false} PipeComplete<W>(pipe: Pipeline<W>, rest: seq<Token<W>>)
    requires PipeOk(pipe) && Stops(rest) && !Starts(rest, '|')
    ensures ParsePipe(PipeTokens(pipe) + rest) == Good(PipeMeans(pipe), rest)
    decreases pipe
  {
    match pipe {
      case One(part) =>
        PartComplete(part, rest);
        hide ParseExec; hide PartTokens; hide PartMeans;
      case Join(part, more) =>
        var tail := [Sym('|')] + (PipeTokens(more) + rest);
        assert PipeTokens(pipe) + rest == PartTokens(part) + tail && tail[1..] == PipeTokens(more) + rest;
        PartComplete(part, tail);
        PipeComplete(more, rest);
        hide ParseExec; hide ParsePipe; hide PartTokens; hide PartMeans; hide PipeTokens;
        PipeStep(PartTokens(part) + tail, PartMeans(part), tail, PipeMeans(more), rest);
    }
  }

  lemma {:induction false} BacksComplete<W>(c: Cmd<W>, m: nat, n: nat, rest: seq<Token<W>>)
    requires !Starts(rest, '&')
    ensures Backs(InBackground(c, m), Amps(n) + rest) == (InBackground(c, m + n), rest)
    decreases n
  {
    var ts := Amps(n) + rest;
    if n == 0 {
      assert ts == rest;
    } else {
      assert ts[0] == Sym('&') && ts[1..] == Amps(n - 1) + rest;
      BacksComplete(c, m + 1, n - 1, rest);
    }
  }

  lemma AmpsStop<W>(n: nat, rest: seq<Token<W>>)
    requires Stops(rest) && !Starts(rest, '|')
    ensures Stops(Amps(n) + rest) && !Starts(Amps(n) + rest, '|')
  {
    if n == 0 {
      assert Amps(n) + rest == rest;
    } else {
      assert (Amps(n) + rest)[0] == Sym('&');
    }
  }

  lemma {:induction false} LineComplete<W>(line: Line<W>, rest: seq<Token<W>>)
    requires LineOk(line) && Ends(rest)
    ensures ParseLine(LineTokens(line) + rest) == Good(LineMeans(line), rest)
    decreases line
  {
    var pipe, n := line.pipe, line.amps;
    var tail := if line.Last? then rest else [Sym(';')] + (LineTokens(line.more) + rest);
    assert LineTokens(line) + rest == PipeTokens(pipe) + (Amps(n) + tail);
    AmpsStop(n, tail);
    PipeComplete(pipe, Amps(n) + tail);
    BacksComplete(PipeMeans(pipe), 0, n, tail);
    if line.Then? {
      assert tail[1..] == LineTokens(line.more) + rest;
      LineComplete(line.more, rest);
    }
    hide ParsePipe; hide Backs; hide PipeTokens; hide PipeMeans; hide Amps; hide LineTokens;
  }

  // ---------- The parser finds nothing else ----------

  lemma ArrowOf<W>(ts: seq<Token<W>>)
    requires StartsRedir(ts)
    ensures ts[0] == Arrow(ModeOf(ts[0]))
  {
  }

  lemma NoTokens<W>(ts: seq<Token<W>>)
    ensures RedirTokens<W>([]) + ts == ts
  {
  }

  lemma {:induction false} RedirsSound<W>(ts: seq<Token<W>>)
    requires Redirs(ts).Good?
    ensures ts == RedirTokens(Redirs(ts).value) + Redirs(ts).rest && !StartsRedir(Redirs(ts).rest)
    decreases |ts|
  {
    hide Redirs; hide RedirTokens; hide StartsRedir; hide ModeOf;
    if StartsRedir(ts) {
      RedirsStep(ts);
      ArrowOf(ts);
      RedirsSound(ts[2..]);
      var p, r := Redirs(ts[2..]), Redirection(ts[1].w, ModeOf(ts[0]));
      RedirsCons(r, p.value);
      assert ts == [ts[0], ts[1]] + ts[2..];
      Regrouped([Arrow(r.mode), Word(r.file)], RedirTokens(p.value), p.rest);
    } else {
      NoRedirs(ts);
      assert RedirTokens<W>([]) + ts == ts by { NoTokens(ts); }
    }
  }

  lemma NoItems<W>()
    ensures ArgsOf<W>([]) == []
  {
  }

  /** The loop of parseexec goes on only at a word. */
  lemma ArgsOn<W>(argv: seq<W>, rs: seq<Redirection<W>>, ts: seq<Token<W>>)
    requires Args(argv, rs, ts).Good? && !Stops(ts)
    ensures ts != [] && ts[0].Word? && |argv| + 1 < MAXARGS && Redirs(ts[1..]).Good?
    ensures Args(argv, rs, ts) == Args(argv + [ts[0].w], rs + Redirs(ts[1..]).value, Redirs(ts[1..]).rest)
  {
    hide Redirs; hide Wrap;
  }

  lemma {:induction false} ArgsSound<W>(argv: seq<W>, rs: seq<Redirection<W>>, ts: seq<Token<W>>) returns (items: seq<Item<W>>)
    requires |argv| < MAXARGS && Args(argv, rs, ts).Good?
    ensures var p := Args(argv, rs, ts);
            && ts == ItemTokens(items) + p.rest && Stops(p.rest) && |argv| + |ArgsOf(items)| < MAXARGS
            && p.value == Wrap(Exec(argv + ArgsOf(items)), rs + RedirsOf(items))
    decreases |ts|
  {
    hide Redirs; hide ItemTokens; hide RedirTokens; hide ArgsOf; hide RedirsOf; hide Wrap; hide Args; hide Intos;
    hide Stops; hide StartsRedir;
    if Stops(ts) {
      items := [];
      ArgsNone(argv, rs, ts);
      assert ArgsOf<W>([]) == [] by { NoItems<W>(); }
    } else {
      ArgsOn(argv, rs, ts);
      var w, p := ts[0].w, Redirs(ts[1..]);
      RedirsSound(ts[1..]);
      var more := ArgsSound(argv + [w], rs + p.value, p.rest);
      var tail := Intos(p.value) + more;
      IntosIs(p.value, more);
      items := [Arg(w)] + tail;
      ItemsArg(w, tail);
      var rest := Args(argv, rs, ts).rest;
      Regrouped(RedirTokens(p.value), ItemTokens(more), rest);
      Regrouped([Word(w)], ItemTokens(tail), rest);
      Regrouped(argv, [w], ArgsOf(more));
      Regrouped(rs, p.value, RedirsOf(more));
      assert ts == [Word(w)] + ts[1..];
    }
  }

  lemma ExecOn<W>(ts: seq<Token<W>>)
    requires !Starts(ts, '(') && ParseExec(ts).Good?
    ensures Redirs(ts).Good?
  {
    hide Redirs; hide Args;
  }

  lemma SimpleSound<W>(ts: seq<Token<W>>) returns (part: Part<W>)
    requires !Starts(ts, '(') && ParseExec(ts).Good?
    ensures var p := ParseExec(ts); PartOk(part) && ts == PartTokens(part) + p.rest && PartMeans(part) == p.value
  {
    ExecOn(ts);
    ExecGo(ts);
    hide Redirs; hide ItemTokens; hide RedirTokens; hide ArgsOf; hide RedirsOf; hide Wrap; hide Args; hide Intos;
    hide StartsRedir; hide ParseExec; hide Stops;
    RedirsSound(ts);
    var r := Redirs(ts);
    var items := ArgsSound([], r.value, r.rest);
    IntosIs(r.value, items);
    part := Simple(Intos(r.value) + items);
    assert [] + ArgsOf(items) == ArgsOf(items);
    WrapIs(Exec(ArgsOf(items)), r.value + RedirsOf(items));
    Regrouped(RedirTokens(r.value), ItemTokens(items), ParseExec(ts).rest);
  }

  lemma {:induction false} PartSound<W>(ts: seq<Token<W>>) returns (part: Part<W>)
    requires ParseExec(ts).Good?
    ensures var p := ParseExec(ts); PartOk(part) && ts == PartTokens(part) + p.rest && PartMeans(part) == p.value
    decreases |ts|, 1
  {
    if Starts(ts, '(') {
      part := BlockSound(ts);
      hide ParseBlock; hide PartTokens; hide PartMeans; hide PartOk;
    } else {
      part := SimpleSound(ts);
      hide ParseExec; hide PartTokens; hide PartMeans; hide PartOk;
    }
  }

  /** What parseblock has read. */
  lemma BlockOn<W>(ts: seq<Token<W>>)
    requires Starts(ts, '(') && ParseBlock(ts).Good?
    ensures var p := ParseLine(ts[1..]);
            && p.Good? && Starts(p.rest, ')') && Redirs(p.rest[1..]).Good?
            && ParseBlock(ts) == Good(Wrap(p.value, Redirs(p.rest[1..]).value), Redirs(p.rest[1..]).rest)
  {
    hide ParseLine; hide Redirs; hide Wrap;
  }

  lemma {:induction false} BlockSound<W>(ts: seq<Token<W>>) returns (part: Part<W>)
    requires Starts(ts, '(') && ParseBlock(ts).Good?
    ensures var p := ParseBlock(ts); PartOk(part) && ts == PartTokens(part) + p.rest && PartMeans(part) == p.value
    decreases |ts|, 0
  {
    BlockOn(ts);
    hide ParseLine; hide ParseBlock; hide Redirs; hide LineTokens; hide RedirTokens; hide Wrap; hide LineMeans;
    hide Redirected; hide LineOk; hide StartsRedir; hide PartTokens;
    var line := LineSound(ts[1..]);
    var p := ParseLine(ts[1..]);
    RedirsSound(p.rest[1..]);
    var r := Redirs(p.rest[1..]);
    part := Block(line, r.value);
    WrapIs(p.value, r.value);
    BlockTokens(ts, line, p.rest, r.value, r.rest);
  }

  lemma BlockTokens<W>(ts: seq<Token<W>>, line: Line<W>, closing: seq<Token<W>>, rs: seq<Redirection<W>>, rest: seq<Token<W>>)
    requires Starts(ts, '(') && ts[1..] == LineTokens(line) + closing
    requires Starts(closing, ')') && closing[1..] == RedirTokens(rs) + rest
    ensures ts == PartTokens(Block(line, rs)) + rest
  {
    hide LineTokens; hide RedirTokens;
    assert closing == [Sym(')')] + closing[1..];
    Regrouped([Sym(')')], RedirTokens(rs), rest);
    Regrouped(LineTokens(line), [Sym(')')] + RedirTokens(rs), rest);
    Regrouped([Sym('(')], LineTokens(line) + ([Sym(')')] + RedirTokens(rs)), rest);
    assert ts == [Sym('(')] + ts[1..];
  }

  lemma {:induction false} PipeSound<W>(ts: seq<Token<W>>) returns (pipe: Pipeline<W>)
    requires ParsePipe(ts).Good?
    ensures var p := ParsePipe(ts); PipeOk(pipe) && ts == PipeTokens(pipe) + p.rest && PipeMeans(pipe) == p.value
    decreases |ts|, 2
  {
    var part := PartSound(ts);
    var p := ParseExec(ts);
    if Starts(p.rest, '|') {
      var more := PipeSound(p.rest[1..]);
      pipe := Join(part, more);
      hide ParseExec; hide PartTokens; hide PartMeans; hide PipeTokens; hide PipeMeans; hide PartOk; hide PipeOk;
      assert p.rest == [Sym('|')] + p.rest[1..];
      JoinTokens(part, more, ParsePipe(ts).rest);
    } else {
      pipe := One(part);
    }
  }

  lemma JoinTokens<W>(part: Part<W>, more: Pipeline<W>, rest: seq<Token<W>>)
    requires PartOk(part) && PipeOk(more)
    ensures var pipe := Join(part, more);
            && PipeTokens(pipe) + rest == PartTokens(part) + ([Sym('|')] + (PipeTokens(more) + rest))
            && PipeMeans(pipe) == Pipe(PartMeans(part), PipeMeans(more)) && PipeOk(pipe)
  {
    hide PartTokens; hide PartMeans; hide PartOk;
  }

  lemma {:induction false} BacksSound<W>(c: Cmd<W>, m: nat, ts: seq<Token<W>>) returns (n: nat)
    ensures Backs(InBackground(c, m), ts).0 == InBackground(c, m + n)
    ensures ts == Amps(n) + Backs(InBackground(c, m), ts).1
    decreases |ts|
  {
    if Starts(ts, '&') {
      var k := BacksSound(c, m + 1, ts[1..]);
      n := k + 1;
      assert ts == [Sym('&')] + ts[1..];
    } else {
      n := 0;
    }
  }

  lemma {:induction false} LineSound<W>(ts: seq<Token<W>>) returns (line: Line<W>)
    requires ParseLine(ts).Good?
    ensures var p := ParseLine(ts); LineOk(line) && ts == LineTokens(line) + p.rest && LineMeans(line) == p.value
    decreases |ts|, 3
  {
    hide ParsePipe; hide Backs; hide PipeTokens; hide PipeMeans; hide Amps; hide PipeOk; hide InBackground;
    var pipe := PipeSound(ts);
    var p := ParsePipe(ts);
    assert InBackground(p.value, 0) == p.value by { NoAmps(p.value); }
    var n := BacksSound(p.value, 0, p.rest);
    var (d, rest) := Backs(p.value, p.rest);
    if Starts(rest, ';') {
      var more := LineSound(rest[1..]);
      line := Then(pipe, n, more);
      assert rest == [Sym(';')] + rest[1..];
      ThenTokens(pipe, n, more, ParseLine(ts).rest);
    } else {
      line := Last(pipe, n);
    }
  }

  lemma NoAmps<W>(c: Cmd<W>)
    ensures InBackground(c, 0) == c
  {
  }

  lemma ThenTokens<W>(pipe: Pipeline<W>, n: nat, more: Line<W>, rest: seq<Token<W>>)
    requires PipeOk(pipe) && LineOk(more)
    ensures var line := Then(pipe, n, more);
            && LineTokens(line) + rest == PipeTokens(pipe) + (Amps(n) + ([Sym(';')] + (LineTokens(more) + rest)))
            && LineMeans(line) == List(InBackground(PipeMeans(pipe), n), LineMeans(more)) && LineOk(line)
  {
    hide PipeTokens; hide PipeMeans; hide PipeOk; hide Amps; hide InBackground;
  }

  /** The parser accepts exactly the token lists that stand for a command, and gives that command:
      in particular no token list stands for two. */
  lemma ParsesExactly<W(!new)>(ts: seq<Token<W>>, c: Cmd<W>)
    ensures ParseCmd(ts) == Good(c, []) <==> Derives(ts, c)
  {
    if ParseCmd(ts) == Good(c, []) {
      var line := LineSound(ts);
      hide ParseLine;
      assert LineTokens(line) + [] == LineTokens(line);
    }
    if Derives(ts, c) {
      var line: Line<W> :| LineOk(line) && LineTokens(line) == ts && LineMeans(line) == c;
      LineComplete(line, []);
      assert LineTokens(line) + [] == LineTokens(line);
    }
  }
}
