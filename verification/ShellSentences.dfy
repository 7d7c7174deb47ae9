/** The language of the shell: which texts the parser of user/sh.c accepts, and what they mean. */
module ShellSentences {
  import opened ShellGrammar
  import opened ShellTokens

  // ---------------------------------------------------------------------------
  // Sentences
  // ---------------------------------------------------------------------------

  datatype Redirection = Redirection(mode: Mode, file: string)

  /** Words and redirections of a simple command come in any order. */
  datatype Item = Word(text: string) | Redirect(to: Redirection)

  datatype Unit = Simple(items: seq<Item>) | Group(line: Line, redirs: seq<Redirection>)

  /** u | more */
  datatype Pipeline = One(u: Unit) | Bar(u: Unit, more: Pipeline)

  /** first & & ; rest */
  datatype Line = Final(first: Pipeline, backs: nat) | Then(first: Pipeline, backs: nat, rest: Line)

  // --- their tokens ------------------------------------------------------------

  function Symbol(c: char): Tok { Tok(c, [c]) }

  function SignTok(mode: Mode): Tok {
    match mode
    case Read => Symbol('<')
    case Write => Symbol('>')
    case Append => Tok('+', ">>")
  }

  function RedirToks(rs: seq<Redirection>): seq<Tok> {
    if rs == [] then [] else [SignTok(rs[0].mode), Tok('a', rs[0].file)] + RedirToks(rs[1..])
  }

  function ItemToks(items: seq<Item>): seq<Tok> {
    if items == [] then []
    else (match items[0] case Word(w) => [Tok('a', w)] case Redirect(r) => RedirToks([r])) + ItemToks(items[1..])
  }

  function UnitToks(u: Unit): seq<Tok> {
    match u
    case Simple(items) => ItemToks(items)
    case Group(line, redirs) => [Symbol('(')] + (LineToks(line) + ([Symbol(')')] + RedirToks(redirs)))
  }

  function PipeToks(p: Pipeline): seq<Tok> {
    match p
    case One(u) => UnitToks(u)
    case Bar(u, more) => UnitToks(u) + ([Symbol('|')] + PipeToks(more))
  }

  function Amps(n: nat): seq<Tok> { seq(n, _ => Symbol('&')) }

  function LineToks(l: Line): seq<Tok> {
    match l
    case Final(p, n) => PipeToks(p) + Amps(n)
    case Then(p, n, rest) => PipeToks(p) + (Amps(n) + ([Symbol(';')] + LineToks(rest)))
  }

  // --- their meaning -----------------------------------------------------------

  function WordsOf(items: seq<Item>): seq<string> {
    if items == [] then [] else (if items[0].Word? then [items[0].text] else []) + WordsOf(items[1..])
  }

  function RedirsOf(items: seq<Item>): seq<Redirection> {
    if items == [] then [] else (if items[0].Redirect? then [items[0].to] else []) + RedirsOf(items[1..])
  }

  /** The redirections around a command, the first one innermost. */
  function Wrap(c: Cmd<string>, rs: seq<Redirection>): Cmd<string> {
    if rs == [] then c else
      var r := rs[|rs| - 1];
      Redir(Wrap(c, rs[..|rs| - 1]), r.file, r.mode)
  }

  function Backed(c: Cmd<string>, n: nat): Cmd<string> { if n == 0 then c else Back(Backed(c, n - 1)) }

  function UnitMeans(u: Unit): Cmd<string> {
    match u
    case Simple(items) => Wrap(Exec(WordsOf(items)), RedirsOf(items))
    case Group(line, redirs) => Wrap(LineMeans(line), redirs)
  }

  function PipeMeans(p: Pipeline): Cmd<string> {
    match p
    case One(u) => UnitMeans(u)
    case Bar(u, more) => Pipe(UnitMeans(u), PipeMeans(more))
  }

  function LineMeans(l: Line): Cmd<string> {
    match l
    case Final(p, n) => Backed(PipeMeans(p), n)
    case Then(p, n, rest) => List(Backed(PipeMeans(p), n), LineMeans(rest))
  }

  // --- which are too long ------------------------------------------------------

  /** No simple command has MAXARGS words. */
  predicate UnitFits(u: Unit) {
    match u
    case Simple(items) => |WordsOf(items)| < MAXARGS
    case Group(line, _) => LineFits(line)
  }

  predicate PipeFits(p: Pipeline) {
    match p
    case One(u) => UnitFits(u)
    case Bar(u, more) => UnitFits(u) && PipeFits(more)
  }

  predicate LineFits(l: Line) {
    match l
    case Final(p, _) => PipeFits(p)
    case Then(p, _, rest) => PipeFits(p) && LineFits(rest)
  }

  // ---------------------------------------------------------------------------
  // Reading the words of a parsed command
  // ---------------------------------------------------------------------------

  /** The command with its words read from the text. */
  function Text(s: string, c: Cmd<Span>): Cmd<string> {
    match c
    case Exec(args) => Exec(seq(|args|, k requires 0 <= k < |args| => SpanText(s, args[k])))
    case Redir(cmd, file, mode) => Redir(Text(s, cmd), SpanText(s, file), mode)
    case Pipe(left, right) => Pipe(Text(s, left), Text(s, right))
    case List(left, right) => List(Text(s, left), Text(s, right))
    case Back(cmd) => Back(Text(s, cmd))
  }

  lemma {:induction false} WrapMore(c: Cmd<string>, a: seq<Redirection>, b: seq<Redirection>)
    ensures Wrap(Wrap(c, a), b) == Wrap(c, a + b)
    decreases |b|
  {
    if b == [] {
      assert a + b == a;
    } else {
      assert (a + b)[..|a + b| - 1] == a + b[..|b| - 1];
      WrapMore(c, a, b[..|b| - 1]);
    }
  }

  lemma WrapOne(c: Cmd<string>, r: Redirection)
    ensures Wrap(c, [r]) == Redir(c, r.file, r.mode)
  {
    assert Wrap(c, [r][..0]) == c;
  }

  lemma {:induction false} BackedMore(c: Cmd<string>, n: nat)
    ensures Backed(Back(c), n) == Backed(c, n + 1)
  {
    if n > 0 { BackedMore(c, n - 1); }
  }

  /** A word goes to the exec command inside the redirections, after the words before it. */
  lemma {:induction false} AddArgText(s: string, cmd: Cmd<Span>, w: Span, ws: seq<string>, rs: seq<Redirection>)
    requires Text(s, cmd) == Wrap(Exec(ws), rs)
    ensures Text(s, AddArg(cmd, w)) == Wrap(Exec(ws + [SpanText(s, w)]), rs)
    decreases |rs|
  {
    if rs != [] { AddArgText(s, cmd.cmd, w, ws, rs[..|rs| - 1]); }
  }

  // ---------------------------------------------------------------------------
  // Every sentence is accepted, with its meaning
  // ---------------------------------------------------------------------------

  /** The parser has read a command that means m, and `rest` is left. */
  ghost predicate Reads(s: string, r: Parsed, m: Cmd<string>, rest: seq<Tok>)
    requires NUL !in s
  {
    r.Ok? && r.pos <= |s| && Text(s, r.cmd) == m && Toks(s, r.pos) == rest
  }

  /** The next token, if any, is one of these. */
  predicate Before(rest: seq<Tok>, toks: string) { rest == [] || rest[0].kind in toks }

  predicate NotBefore(rest: seq<Tok>, toks: string) { rest == [] || Lead(rest[0].kind) !in toks }

  lemma {:induction false} RedirsAccept(s: string, i: nat, cmd: Cmd<Span>, rs: seq<Redirection>, rest: seq<Tok>)
    requires i <= |s| && NUL !in s && Toks(s, i) == RedirToks(rs) + rest && NotBefore(rest, "<>")
    ensures Reads(s, ParseRedirs(s, i, cmd), Wrap(Text(s, cmd), rs), rest)
    decreases |rs|
  {
    hide Toks, GetToken, Peek, SkipSpace, Wrap;
    SkipTwice(s, i);
    PeekTok(s, i, "<>");
    if rs == [] {
      WrapNone(Text(s, cmd));
    } else {
      TakeTok(s, i);
      var op := GetToken(s, i);
      TakeTok(s, op.next);
      var file := GetToken(s, op.next);
      var more := Redir(cmd, file.word, ModeOf(op.kind));
      assert Toks(s, file.next) == RedirToks(rs[1..]) + rest;
      RedirsAccept(s, file.next, more, rs[1..], rest);
      WrapOne(Text(s, cmd), rs[0]);
      WrapMore(Text(s, cmd), [rs[0]], rs[1..]);
      assert [rs[0]] + rs[1..] == rs;
    }
  }

  lemma WrapNone(c: Cmd<string>)
    ensures Wrap(c, []) == c
  {
  }

  lemma OneRedir(r: Redirection)
    ensures RedirToks([r]) == [SignTok(r.mode), Tok('a', r.file)]
  {
    assert RedirToks([r][1..]) == [];
  }

  lemma FirstRedir(r: Redirection, tail: seq<Item>)
    ensures ItemToks([Redirect(r)] + tail) == [SignTok(r.mode), Tok('a', r.file)] + ItemToks(tail)
    ensures WordsOf([Redirect(r)] + tail) == WordsOf(tail) && RedirsOf([Redirect(r)] + tail) == [r] + RedirsOf(tail)
  {
    OneRedir(r);
    assert ([Redirect(r)] + tail)[1..] == tail;
  }

  /** Redirections up to the next word. */
  lemma {:induction false} SplitItems(items: seq<Item>) returns (rs: seq<Redirection>, more: seq<Item>)
    ensures ItemToks(items) == RedirToks(rs) + ItemToks(more) && (more == [] || more[0].Word?) && |more| <= |items|
    ensures WordsOf(items) == WordsOf(more) && RedirsOf(items) == rs + RedirsOf(more)
    decreases |items|
  {
    hide ItemToks, WordsOf, RedirsOf, SignTok;
    if items == [] || items[0].Word? {
      rs, more := [], items;
    } else {
      var tail;
      tail, more := SplitItems(items[1..]);
      rs := [items[0].to] + tail;
      FirstRedir(items[0].to, items[1..]);
      assert items == [Redirect(items[0].to)] + items[1..];
      assert rs[1..] == tail;
    }
  }

  lemma FirstKind(items: seq<Item>)
    requires items != []
    ensures ItemToks(items) != [] && ItemToks(items)[0].kind == if items[0].Word? then 'a' else SignTok(items[0].to.mode).kind
  {
    if items[0].Redirect? {
      var r := items[0].to;
      assert RedirToks([r])[0] == SignTok(r.mode);
    }
  }

  /** What comes after a simple command is no redirection and opens no block. */
  lemma ItemsLead(items: seq<Item>, rest: seq<Tok>)
    requires Before(rest, "|)&;")
    ensures NotBefore(ItemToks(items) + rest, "(")
    ensures items == [] || items[0].Word? ==> NotBefore(ItemToks(items) + rest, "<>")
    ensures items != [] ==> NotBefore(ItemToks(items) + rest, "|)&;")
  {
    hide ItemToks;
    if items == [] {
      NoItems(rest);
    } else {
      FirstKind(items);
      assert (ItemToks(items) + rest)[0] == ItemToks(items)[0];
    }
  }

  lemma NoItems(rest: seq<Tok>)
    ensures ItemToks([]) + rest == rest
  {
  }

  lemma ArgsStop(s: string, i: nat, cmd: Cmd<Span>, argc: nat, rest: seq<Tok>)
    requires i <= |s| && NUL !in s && Toks(s, i) == rest && Before(rest, "|)&;")
    ensures Reads(s, ParseArgs(s, i, cmd, argc), Text(s, cmd), rest)
  {
    hide Toks, GetToken, SkipSpace, Peek, Text;
    SkipTwice(s, i);
    PeekTok(s, i, "|)&;");
    NoTok(s, i);
  }

  lemma ArgsTurn(s: string, i: nat, cmd: Cmd<Span>, argc: nat, w: Span, next: nat)
    requires i <= |s| && NUL !in s && argc + 1 < MAXARGS && NotBefore(Toks(s, i), "|)&;")
    requires GetToken(s, i) == Token('a', w, next)
    ensures var r := ParseRedirs(s, next, AddArg(cmd, w));
      r.Ok? ==> ParseArgs(s, i, cmd, argc) == ParseArgs(s, r.pos, r.cmd, argc + 1)
  {
    hide Toks, GetToken, SkipSpace, Peek, AddArg, ParseRedirs;
    SkipTwice(s, i);
    PeekTok(s, i, "|)&;");
  }

  lemma FirstWord(items: seq<Item>)
    requires items != [] && items[0].Word?
    ensures ItemToks(items) == [Tok('a', items[0].text)] + ItemToks(items[1..])
    ensures WordsOf(items) == [items[0].text] + WordsOf(items[1..]) && RedirsOf(items) == RedirsOf(items[1..])
  {
  }

  lemma {:induction false} ArgsAccept(s: string, i: nat, cmd: Cmd<Span>, argc: nat, items: seq<Item>, ws: seq<string>, rs: seq<Redirection>, rest: seq<Tok>)
    requires i <= |s| && NUL !in s && Toks(s, i) == ItemToks(items) + rest && Before(rest, "|)&;") && (items == [] || items[0].Word?)
    requires Text(s, cmd) == Wrap(Exec(ws), rs) && argc + |WordsOf(items)| < MAXARGS
    ensures Reads(s, ParseArgs(s, i, cmd, argc), Wrap(Exec(ws + WordsOf(items)), rs + RedirsOf(items)), rest)
    decreases |items|
  {
    hide Toks, GetToken, AddArg, ParseRedirs, ParseArgs, Wrap, Text, RedirToks, ItemToks, WordsOf, RedirsOf, Before, NotBefore;
    if items == [] {
      NoItems(rest);
      Nothing(ws, rs);
      ArgsStop(s, i, cmd, argc, rest);
    } else {
      var word := items[0].text;
      FirstWord(items);
      var red, more := SplitItems(items[1..]);
      ItemsLead(items, rest);
      ItemsLead(more, rest);
      TakeTok(s, i);
      var t := GetToken(s, i);
      assert Toks(s, t.next) == RedirToks(red) + (ItemToks(more) + rest);
      AddArgText(s, cmd, t.word, ws, rs);
      RedirsAccept(s, t.next, AddArg(cmd, t.word), red, ItemToks(more) + rest);
      ArgsTurn(s, i, cmd, argc, t.word, t.next);
      var r := ParseRedirs(s, t.next, AddArg(cmd, t.word));
      WrapMore(Exec(ws + [word]), rs, red);
      ArgsAccept(s, r.pos, r.cmd, argc + 1, more, ws + [word], rs + red, rest);
      assert ws + [word] + WordsOf(more) == ws + WordsOf(items);
      assert rs + red + RedirsOf(more) == rs + RedirsOf(items);
    }
  }

  lemma Nothing(ws: seq<string>, rs: seq<Redirection>)
    ensures ws + WordsOf([]) == ws && rs + RedirsOf([]) == rs
  {
  }

  lemma SimpleAccept(s: string, i: nat, items: seq<Item>, rest: seq<Tok>)
    requires i <= |s| && NUL !in s && Toks(s, i) == ItemToks(items) + rest && Before(rest, "|)&;") && |WordsOf(items)| < MAXARGS
    ensures Reads(s, ParseExec(s, i), Wrap(Exec(WordsOf(items)), RedirsOf(items)), rest)
  {
    hide Toks, GetToken, Peek, SkipSpace, ParseRedirs, ParseArgs, ParseBlock, Wrap, RedirToks, ItemToks, WordsOf, RedirsOf, Text;
    var red, more := SplitItems(items);
    SkipTwice(s, i);
    PeekTok(s, i, "(");
    ItemsLead(items, rest);
    ItemsLead(more, rest);
    assert Toks(s, i) == RedirToks(red) + (ItemToks(more) + rest);
    RedirsAccept(s, SkipSpace(s, i), Exec([]), red, ItemToks(more) + rest);
    var r := ParseRedirs(s, SkipSpace(s, i), Exec([]));
    NoWords(s);
    ArgsAccept(s, r.pos, r.cmd, 0, more, [], red, rest);
    assert [] + WordsOf(more) == WordsOf(items);
  }

  lemma NoWords(s: string)
    ensures Text(s, Exec([])) == Exec([])
  {
  }

  lemma BlockTurn(s: string, i: nat, m: Cmd<string>, rest: seq<Tok>)
    requires i <= |s| && NUL !in s && Toks(s, i) != [] && Toks(s, i)[0].kind == '('
    requires var open := GetToken(s, i);
      Reads(s, ParseLine(s, open.next), m, [Symbol(')')] + rest)
    ensures var body := ParseLine(s, GetToken(s, i).next);
      var close := GetToken(s, body.pos);
      Toks(s, close.next) == rest && ParseExec(s, i) == ParseRedirs(s, close.next, body.cmd)
  {
    hide Toks, GetToken, Peek, SkipSpace, ParseRedirs, ParseArgs, ParseLine, Text;
    SkipTwice(s, i);
    SkipTwice(s, SkipSpace(s, i));
    PeekTok(s, i, "(");
    PeekTok(s, SkipSpace(s, i), "(");
    var body := ParseLine(s, GetToken(s, i).next);
    SkipTwice(s, body.pos);
    PeekTok(s, body.pos, ")");
    TakeTok(s, body.pos);
  }

  lemma PipeTurn(s: string, i: nat, m: Cmd<string>, rest: seq<Tok>)
    requires i <= |s| && NUL !in s && Reads(s, ParseExec(s, i), m, rest)
    ensures NotBefore(rest, "|") ==> Reads(s, ParsePipe(s, i), m, rest)
    ensures rest != [] && rest[0].kind == '|' ==>
      var left := ParseExec(s, i);
      var bar := GetToken(s, left.pos);
      && Toks(s, bar.next) == rest[1..] && i < bar.next
      && (ParsePipe(s, bar.next).Ok? ==> ParsePipe(s, i) == Ok(Pipe(left.cmd, ParsePipe(s, bar.next).cmd), ParsePipe(s, bar.next).pos))
  {
    hide Toks, GetToken, Peek, SkipSpace, ParseExec, Text;
    var left := ParseExec(s, i);
    SkipTwice(s, left.pos);
    PeekTok(s, left.pos, "|");
    if rest != [] { TakeTok(s, left.pos); }
  }

  lemma {:induction false} BacksAccept(s: string, i: nat, cmd: Cmd<Span>, n: nat, rest: seq<Tok>)
    requires i <= |s| && NUL !in s && Toks(s, i) == Amps(n) + rest && NotBefore(rest, "&")
    ensures Reads(s, ParseBacks(s, i, cmd), Backed(Text(s, cmd), n), rest)
    decreases n
  {
    hide Toks, GetToken, Peek, SkipSpace;
    SkipTwice(s, i);
    PeekTok(s, i, "&");
    if n > 0 {
      TakeTok(s, i);
      assert Toks(s, GetToken(s, i).next) == Amps(n - 1) + rest;
      BacksAccept(s, GetToken(s, i).next, Back(cmd), n - 1, rest);
      BackedMore(Text(s, cmd), n - 1);
    }
  }

  lemma LineTurn(s: string, i: nat, m: Cmd<string>, n: nat, rest: seq<Tok>)
    requires i <= |s| && NUL !in s && Reads(s, ParsePipe(s, i), m, Amps(n) + rest) && NotBefore(rest, "&")
    ensures NotBefore(rest, ";") ==> Reads(s, ParseLine(s, i), Backed(m, n), rest)
    ensures rest != [] && rest[0].kind == ';' ==>
      var first := ParsePipe(s, i);
      var left := ParseBacks(s, first.pos, first.cmd);
      var semi := GetToken(s, left.pos);
      && Text(s, left.cmd) == Backed(m, n) && Toks(s, semi.next) == rest[1..] && i < semi.next
      && (ParseLine(s, semi.next).Ok? ==> ParseLine(s, i) == Ok(List(left.cmd, ParseLine(s, semi.next).cmd), ParseLine(s, semi.next).pos))
  {
    hide Toks, GetToken, Peek, SkipSpace, ParsePipe, ParseBacks, Text, Backed;
    var first := ParsePipe(s, i);
    BacksAccept(s, first.pos, first.cmd, n, rest);
    var left := ParseBacks(s, first.pos, first.cmd);
    SkipTwice(s, left.pos);
    PeekTok(s, left.pos, ";");
    if rest != [] { TakeTok(s, left.pos); }
  }

  lemma {:induction false} UnitAccept(s: string, i: nat, u: Unit, rest: seq<Tok>)
    requires i <= |s| && NUL !in s && UnitFits(u) && Toks(s, i) == UnitToks(u) + rest && Before(rest, "|)&;")
    ensures Reads(s, ParseExec(s, i), UnitMeans(u), rest)
    decreases u
  {
    hide Toks, GetToken, ParseExec, ParseRedirs, ParseLine, ParseBlock, Text, Wrap, RedirToks;
    match u
    case Simple(items) => SimpleAccept(s, i, items, rest);
    case Group(line, redirs) =>
      var tail := RedirToks(redirs) + rest;
      assert UnitToks(u) + rest == [Symbol('(')] + (LineToks(line) + ([Symbol(')')] + tail));
      TakeTok(s, i);
      var open := GetToken(s, i);
      LineAccept(s, open.next, line, [Symbol(')')] + tail);
      BlockTurn(s, i, LineMeans(line), tail);
      var body := ParseLine(s, open.next);
      RedirsAccept(s, GetToken(s, body.pos).next, body.cmd, redirs, rest);
  }

  lemma {:induction false} PipeAccept(s: string, i: nat, p: Pipeline, rest: seq<Tok>)
    requires i <= |s| && NUL !in s && PipeFits(p) && Toks(s, i) == PipeToks(p) + rest && Before(rest, ")&;")
    ensures Reads(s, ParsePipe(s, i), PipeMeans(p), rest)
    decreases p
  {
    hide Toks, GetToken, ParseExec, ParsePipe, UnitToks, UnitMeans, UnitFits;
    match p
    case One(u) =>
      UnitAccept(s, i, u, rest);
      PipeTurn(s, i, UnitMeans(u), rest);
    case Bar(u, more) =>
      var tail := [Symbol('|')] + (PipeToks(more) + rest);
      assert PipeToks(p) + rest == UnitToks(u) + tail;
      UnitAccept(s, i, u, tail);
      PipeTurn(s, i, UnitMeans(u), tail);
      PipeAccept(s, GetToken(s, ParseExec(s, i).pos).next, more, rest);
  }

  /** Wherever the tokens of a sentence stand in a text, the parser reads them as that sentence,
      up to the closing parenthesis or the end. */
  lemma {:induction false} LineAccept(s: string, i: nat, l: Line, rest: seq<Tok>)
    requires i <= |s| && NUL !in s && LineFits(l) && Toks(s, i) == LineToks(l) + rest && Before(rest, ")")
    ensures Reads(s, ParseLine(s, i), LineMeans(l), rest)
    decreases l
  {
    hide Toks, GetToken, ParsePipe, ParseLine, ParseBacks, PipeToks, PipeMeans, PipeFits, Backed;
    match l
    case Final(p, n) =>
      assert LineToks(l) + rest == PipeToks(p) + (Amps(n) + rest);
      PipeAccept(s, i, p, Amps(n) + rest);
      LineTurn(s, i, PipeMeans(p), n, rest);
    case Then(p, n, more) =>
      var tail := [Symbol(';')] + (LineToks(more) + rest);
      assert LineToks(l) + rest == PipeToks(p) + (Amps(n) + tail);
      PipeAccept(s, i, p, Amps(n) + tail);
      LineTurn(s, i, PipeMeans(p), n, tail);
      var first := ParsePipe(s, i);
      LineAccept(s, GetToken(s, ParseBacks(s, first.pos, first.cmd).pos).next, more, rest);
  }

  // ---------------------------------------------------------------------------
  // Nothing else is accepted
  // ---------------------------------------------------------------------------

  /** The next token is of the kind that peek has seen. */
  lemma SeenTok(s: string, i: nat, toks: string)
    requires i <= |s| && NUL !in s && OnlySymbols(toks) && Peek(s, i, toks)
    ensures Toks(s, i) != [] && WfTok(Toks(s, i)[0]) && Lead(Toks(s, i)[0].kind) in toks
    ensures GetToken(s, SkipSpace(s, i)) == GetToken(s, i) && i < GetToken(s, i).next <= |s|
    ensures GetToken(s, i).kind == Toks(s, i)[0].kind && Toks(s, i) == [Toks(s, i)[0]] + Toks(s, GetToken(s, i).next)
  {
    hide Toks, WfTok, SkipSpace, Peek, OnlySymbols;
    SkipTwice(s, i);
    PeekTok(s, i, toks);
    NothingLost(s, i);
    TakeTok(s, i);
  }

  lemma SymbolIs(t: Tok, c: char)
    requires WfTok(t) && Lead(t.kind) == c && IsSymbol(c) && c != '>'
    ensures t == Symbol(c)
  {
  }

  lemma SignIs(t: Tok)
    requires WfTok(t) && Lead(t.kind) in "<>"
    ensures t == SignTok(ModeOf(t.kind))
  {
  }

  lemma {:induction false} RedirsOnly(s: string, i: nat, cmd: Cmd<Span>) returns (rs: seq<Redirection>)
    requires i <= |s| && NUL !in s && ParseRedirs(s, i, cmd).Ok?
    ensures var r := ParseRedirs(s, i, cmd);
      Toks(s, i) == RedirToks(rs) + Toks(s, r.pos) && Text(s, r.cmd) == Wrap(Text(s, cmd), rs)
    decreases |s| - i
  {
    hide Toks, GetToken, Peek, SkipSpace, Wrap, WfTok, SignTok, ModeOf;
    SkipTwice(s, i);
    if !Peek(s, i, "<>") {
      rs := [];
      WrapNone(Text(s, cmd));
    } else {
      SeenTok(s, i, "<>");
      SignIs(Toks(s, i)[0]);
      var op := GetToken(s, i);
      var file := GetToken(s, op.next);
      FileTok(s, op.next);
      var r := Redirection(ModeOf(op.kind), SpanText(s, file.word));
      var more := RedirsOnly(s, file.next, Redir(cmd, file.word, r.mode));
      rs := [r] + more;
      assert rs[1..] == more;
      WrapOne(Text(s, cmd), r);
      WrapMore(Text(s, cmd), [r], more);
    }
  }

  lemma FileTok(s: string, i: nat)
    requires i <= |s| && NUL !in s && GetToken(s, i).kind == 'a'
    ensures Toks(s, i) == [Tok('a', SpanText(s, GetToken(s, i).word))] + Toks(s, GetToken(s, i).next) && i < GetToken(s, i).next <= |s|
  {
  }

  /** A word, redirections, and the rest of a simple command. */
  lemma {:induction false} JoinItems(w: string, red: seq<Redirection>, more: seq<Item>) returns (items: seq<Item>)
    ensures ItemToks(items) == [Tok('a', w)] + (RedirToks(red) + ItemToks(more))
    ensures WordsOf(items) == [w] + WordsOf(more) && RedirsOf(items) == red + RedirsOf(more)
  {
    var tail := JoinRedirs(red, more);
    items := [Word(w)] + tail;
    assert items[1..] == tail;
  }

  lemma {:induction false} JoinRedirs(red: seq<Redirection>, more: seq<Item>) returns (items: seq<Item>)
    ensures ItemToks(items) == RedirToks(red) + ItemToks(more)
    ensures WordsOf(items) == WordsOf(more) && RedirsOf(items) == red + RedirsOf(more)
    decreases |red|
  {
    hide ItemToks, WordsOf, RedirsOf, SignTok;
    if red == [] {
      items := more;
    } else {
      var tail := JoinRedirs(red[1..], more);
      items := [Redirect(red[0])] + tail;
      FirstRedir(red[0], tail);
      assert red == [red[0]] + red[1..];
    }
  }

  lemma {:induction false} ArgsOnly(s: string, i: nat, cmd: Cmd<Span>, argc: nat, ws: seq<string>, rs: seq<Redirection>) returns (items: seq<Item>)
    requires i <= |s| && NUL !in s && argc < MAXARGS && ParseArgs(s, i, cmd, argc).Ok? && Text(s, cmd) == Wrap(Exec(ws), rs)
    ensures var r := ParseArgs(s, i, cmd, argc);
      && Toks(s, i) == ItemToks(items) + Toks(s, r.pos) && argc + |WordsOf(items)| < MAXARGS
      && Text(s, r.cmd) == Wrap(Exec(ws + WordsOf(items)), rs + RedirsOf(items))
    decreases |s| - i
  {
    hide Toks, GetToken, Peek, SkipSpace, Wrap, Text, ItemToks, WordsOf, RedirsOf, ParseRedirs, AddArg;
    SkipTwice(s, i);
    NoTok(s, i);
    var t := GetToken(s, i);
    if Peek(s, i, "|)&;") || t.kind == NUL {
      items := [];
      NoItems(Toks(s, i));
      Nothing(ws, rs);
    } else {
      var r := ParseRedirs(s, t.next, AddArg(cmd, t.word));
      FileTok(s, i);
      var red := RedirsOnly(s, t.next, AddArg(cmd, t.word));
      AddArgText(s, cmd, t.word, ws, rs);
      var word := SpanText(s, t.word);
      WrapMore(Exec(ws + [word]), rs, red);
      var more := ArgsOnly(s, r.pos, r.cmd, argc + 1, ws + [word], rs + red);
      items := JoinItems(word, red, more);
      assert ws + [word] + WordsOf(more) == ws + WordsOf(items);
      assert rs + red + RedirsOf(more) == rs + RedirsOf(items);
    }
  }

  lemma SimpleOnly(s: string, i: nat) returns (items: seq<Item>)
    requires i <= |s| && NUL !in s && ParseExec(s, i).Ok? && !Peek(s, i, "(")
    ensures var r := ParseExec(s, i);
      && Toks(s, i) == ItemToks(items) + Toks(s, r.pos) && |WordsOf(items)| < MAXARGS
      && Text(s, r.cmd) == Wrap(Exec(WordsOf(items)), RedirsOf(items))
  {
    hide Toks, GetToken, Peek, SkipSpace, Wrap, Text, ItemToks, WordsOf, RedirsOf, ParseRedirs, ParseArgs, ParseBlock;
    SkipTwice(s, i);
    NoWords(s);
    var r := ParseRedirs(s, SkipSpace(s, i), Exec([]));
    var red := RedirsOnly(s, SkipSpace(s, i), Exec([]));
    var more := ArgsOnly(s, r.pos, r.cmd, 0, [], red);
    items := JoinRedirs(red, more);
    assert [] + WordsOf(more) == WordsOf(items);
  }

  /** A block is its line between parentheses, and redirections. */
  lemma BlockParts(s: string, i: nat)
    requires i <= |s| && NUL !in s && ParseExec(s, i).Ok? && Peek(s, i, "(")
    ensures Toks(s, i) != [] && Toks(s, i)[0] == Symbol('(') && i < GetToken(s, i).next <= |s| && Toks(s, i) == [Symbol('(')] + Toks(s, GetToken(s, i).next)
    ensures var body := ParseLine(s, GetToken(s, i).next);
      && body.Ok? && Peek(s, body.pos, ")") && GetToken(s, body.pos).next <= |s|
      && ParseExec(s, i) == ParseRedirs(s, GetToken(s, body.pos).next, body.cmd)
  {
    hide Toks, Peek, GetToken, SkipSpace, ParseRedirs, ParseArgs, ParseLine, WfTok;
    SkipTwice(s, i);
    SkipTwice(s, SkipSpace(s, i));
    SeenTok(s, i, "(");
    SymbolIs(Toks(s, i)[0], '(');
    var body := ParseLine(s, GetToken(s, i).next);
    if body.Ok? { SkipTwice(s, body.pos); }
  }

  lemma {:induction false} UnitOnly(s: string, i: nat) returns (u: Unit)
    requires i <= |s| && NUL !in s && ParseExec(s, i).Ok?
    ensures var r := ParseExec(s, i);
      UnitFits(u) && Toks(s, i) == UnitToks(u) + Toks(s, r.pos) && Text(s, r.cmd) == UnitMeans(u)
    decreases |s| - i, 0
  {
    hide Toks, GetToken, Peek, SkipSpace, Wrap, Text, ParseExec, ParseRedirs, ParseLine, RedirToks, ItemToks, WordsOf, RedirsOf;
    if !Peek(s, i, "(") {
      var items := SimpleOnly(s, i);
      u := Simple(items);
    } else {
      BlockParts(s, i);
      var open := GetToken(s, i).next;
      var body := ParseLine(s, open);
      SeenTok(s, body.pos, ")");
      SymbolIs(Toks(s, body.pos)[0], ')');
      var line := LineOnly(s, open);
      var redirs := RedirsOnly(s, GetToken(s, body.pos).next, body.cmd);
      u := Group(line, redirs);
      assert UnitToks(u) + Toks(s, ParseExec(s, i).pos) ==
        [Symbol('(')] + (LineToks(line) + ([Symbol(')')] + (RedirToks(redirs) + Toks(s, ParseExec(s, i).pos))));
    }
  }

  lemma {:induction false} PipeOnly(s: string, i: nat) returns (p: Pipeline)
    requires i <= |s| && NUL !in s && ParsePipe(s, i).Ok?
    ensures var r := ParsePipe(s, i);
      PipeFits(p) && Toks(s, i) == PipeToks(p) + Toks(s, r.pos) && Text(s, r.cmd) == PipeMeans(p)
    decreases |s| - i, 1
  {
    hide Toks, GetToken, Peek, SkipSpace, ParseExec, UnitToks, UnitMeans, UnitFits, WfTok;
    var left := ParseExec(s, i);
    var u := UnitOnly(s, i);
    if !Peek(s, left.pos, "|") {
      SkipTwice(s, left.pos);
      p := One(u);
    } else {
      SeenTok(s, left.pos, "|");
      SymbolIs(Toks(s, left.pos)[0], '|');
      var more := PipeOnly(s, GetToken(s, left.pos).next);
      p := Bar(u, more);
      var end := Toks(s, ParsePipe(s, i).pos);
      assert PipeToks(p) + end == UnitToks(u) + ([Symbol('|')] + (PipeToks(more) + end));
    }
  }

  lemma {:induction false} BacksOnly(s: string, i: nat, cmd: Cmd<Span>) returns (n: nat)
    requires i <= |s| && NUL !in s
    ensures var r := ParseBacks(s, i, cmd);
      Toks(s, i) == Amps(n) + Toks(s, r.pos) && Text(s, r.cmd) == Backed(Text(s, cmd), n)
    decreases |s| - i
  {
    hide Toks, GetToken, Peek, SkipSpace, WfTok;
    SkipTwice(s, i);
    if !Peek(s, i, "&") {
      n := 0;
    } else {
      SeenTok(s, i, "&");
      SymbolIs(Toks(s, i)[0], '&');
      var m := BacksOnly(s, GetToken(s, i).next, Back(cmd));
      n := m + 1;
      assert Amps(n) == [Symbol('&')] + Amps(m);
      BackedMore(Text(s, cmd), m);
    }
  }

  /** Whatever the parser accepts is a sentence, and the parsed command is what it means. */
  lemma {:induction false} LineOnly(s: string, i: nat) returns (l: Line)
    requires i <= |s| && NUL !in s && ParseLine(s, i).Ok?
    ensures var r := ParseLine(s, i);
      LineFits(l) && Toks(s, i) == LineToks(l) + Toks(s, r.pos) && Text(s, r.cmd) == LineMeans(l)
    decreases |s| - i, 2
  {
    hide Toks, GetToken, Peek, SkipSpace, ParsePipe, ParseBacks, PipeToks, PipeMeans, PipeFits, Amps, Backed, WfTok;
    var first := ParsePipe(s, i);
    var p := PipeOnly(s, i);
    var left := ParseBacks(s, first.pos, first.cmd);
    var n := BacksOnly(s, first.pos, first.cmd);
    var end := Toks(s, ParseLine(s, i).pos);
    if !Peek(s, left.pos, ";") {
      SkipTwice(s, left.pos);
      l := Final(p, n);
      assert LineToks(l) + end == PipeToks(p) + (Amps(n) + end);
    } else {
      SeenTok(s, left.pos, ";");
      SymbolIs(Toks(s, left.pos)[0], ';');
      var rest := LineOnly(s, GetToken(s, left.pos).next);
      l := Then(p, n, rest);
      assert LineToks(l) + end == PipeToks(p) + (Amps(n) + ([Symbol(';')] + (LineToks(rest) + end)));
    }
  }

  // ---------------------------------------------------------------------------
  // parsecmd
  // ---------------------------------------------------------------------------

  /** The text is this sentence, spaced in some way. */
  ghost predicate Sentence(s: string, l: Line)
    requires NUL !in s
  {
    LineFits(l) && Toks(s, 0) == LineToks(l)
  }

  /** A text whose tokens are those of a sentence is parsed to what the sentence means. */
  lemma Accepts(s: string, l: Line)
    requires NUL !in s && Sentence(s, l)
    ensures ParseCmd(s).Ok? && Text(s, ParseCmd(s).cmd) == LineMeans(l)
  {
    hide Toks, ParseLine, SkipSpace, Text;
    assert LineToks(l) + [] == LineToks(l);
    LineAccept(s, 0, l, []);
    NoTok(s, ParseLine(s, 0).pos);
  }

  /** A text that is parsed is a sentence, and is parsed to what it means; all others panic. */
  lemma AcceptsOnly(s: string) returns (l: Line)
    requires NUL !in s && ParseCmd(s).Ok?
    ensures Sentence(s, l) && Text(s, ParseCmd(s).cmd) == LineMeans(l)
  {
    hide Toks, ParseLine, SkipSpace, Text;
    l := LineOnly(s, 0);
    NoTok(s, ParseLine(s, 0).pos);
    assert LineToks(l) + [] == LineToks(l);
  }

  /** parsecmd accepts exactly the sentences, and returns what they mean. */
  lemma ParsesExactly(s: string)
    requires NUL !in s
    ensures ParseCmd(s).Ok? <==> exists l :: Sentence(s, l)
    ensures forall l | Sentence(s, l) :: ParseCmd(s).Ok? && Text(s, ParseCmd(s).cmd) == LineMeans(l)
  {
    hide ParseCmd, Sentence, Text;
    if ParseCmd(s).Ok? { var l := AcceptsOnly(s); }
    forall l | Sentence(s, l) ensures ParseCmd(s).Ok? && Text(s, ParseCmd(s).cmd) == LineMeans(l) { Accepts(s, l); }
  }
}
