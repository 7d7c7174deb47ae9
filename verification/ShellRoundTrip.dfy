/** Printing any command tree, with parentheses only where the grammar needs them, and parsing the
    text gives the tree back. */
module ShellRoundTrip {
  import opened ShellGrammar
  import opened ShellTokens
  import opened ShellSentences

  // ---------------------------------------------------------------------------
  // Any layout of a sentence
  // ---------------------------------------------------------------------------

  /** However a sentence is spaced, its text is parsed to what the sentence means. */
  lemma ParsesAsWritten(l: Line, gaps: seq<string>)
    requires LineFits(l) && Laid(LineToks(l), gaps)
    ensures var s := Render(LineToks(l), gaps);
      NUL !in s && ParseCmd(s).Ok? && Text(s, ParseCmd(s).cmd) == LineMeans(l)
  {
    hide LineToks, Render, ParseCmd, Text, LineFits, LineMeans, Toks;
    var s := Render(LineToks(l), gaps);
    NoNul(LineToks(l), gaps);
    assert "" + s == s;
    RenderToks("", LineToks(l), gaps);
    Accepts(s, l);
  }

  lemma {:induction false} NoNul(ts: seq<Tok>, gaps: seq<string>)
    requires Laid(ts, gaps)
    ensures NUL !in Render(ts, gaps)
    decreases |ts|
  {
    assert Blank(gaps[0]);
    if ts != [] {
      assert WfTok(ts[0]);
      LaidRest(ts, gaps);
      NoNul(ts[1..], gaps[1..]);
    }
  }

  // ---------------------------------------------------------------------------
  // A sentence for every tree
  // ---------------------------------------------------------------------------

  /** At most nine words for a command, and nothing in a word that has a meaning of its own. */
  predicate Plain(c: Cmd<string>) {
    match c
    case Exec(args) => |args| < MAXARGS && forall k | 0 <= k < |args| :: PlainWord(args[k])
    case Redir(cmd, file, _) => Plain(cmd) && PlainWord(file)
    case Pipe(left, right) => Plain(left) && Plain(right)
    case List(left, right) => Plain(left) && Plain(right)
    case Back(cmd) => Plain(cmd)
  }

  function Height(c: Cmd<string>): (h: nat)
    ensures h > 0
  {
    match c
    case Exec(_) => 1
    case Redir(cmd, _, _) => Height(cmd) + 1
    case Pipe(left, right) => Height(left) + Height(right)
    case List(left, right) => Height(left) + Height(right)
    case Back(cmd) => Height(cmd) + 1
  }

  /** The command inside the redirections. */
  function Base(c: Cmd<string>): (b: Cmd<string>)
    ensures !b.Redir? && Height(b) <= Height(c) && (c.Redir? ==> Height(b) < Height(c))
  {
    if c.Redir? then Base(c.cmd) else c
  }

  function Redirs(c: Cmd<string>): seq<Redirection> {
    if c.Redir? then Redirs(c.cmd) + [Redirection(c.mode, c.file)] else []
  }

  function WordItems(args: seq<string>): seq<Item> { seq(|args|, k requires 0 <= k < |args| => Word(args[k])) }

  function RedirItems(rs: seq<Redirection>): seq<Item> { seq(|rs|, k requires 0 <= k < |rs| => Redirect(rs[k])) }

  /** A simple command, with its redirections after its words, or a block. */
  function AsUnit(c: Cmd<string>): Unit
    decreases Height(c), 1
  {
    if Base(c).Exec? then Simple(WordItems(Base(c).args) + RedirItems(Redirs(c))) else Group(AsBlock(Base(c)), Redirs(c))
  }

  function AsBlock(c: Cmd<string>): Line
    requires !c.Exec? && !c.Redir?
    decreases Height(c), 0
  {
    match c
    case Pipe(left, right) => Final(Bar(AsUnit(left), AsPipe(right)), 0)
    case List(left, right) => Then(Forward(left), Backs(left), AsLine(right))
    case Back(cmd) => Final(Forward(cmd), Backs(cmd) + 1)
  }

  function AsPipe(c: Cmd<string>): Pipeline
    decreases Height(c), 2
  {
    if c.Pipe? then Bar(AsUnit(c.left), AsPipe(c.right)) else One(AsUnit(c))
  }

  /** The pipeline before the ampersands, and their number. */
  function Forward(c: Cmd<string>): Pipeline
    decreases Height(c), 3
  {
    if c.Back? then Forward(c.cmd) else AsPipe(c)
  }

  function Backs(c: Cmd<string>): nat { if c.Back? then Backs(c.cmd) + 1 else 0 }

  function AsLine(c: Cmd<string>): Line
    decreases Height(c), 3
  {
    if c.Exec? || c.Redir? then Final(One(AsUnit(c)), 0) else AsBlock(c)
  }

  // --- it means the tree -------------------------------------------------------

  lemma {:induction false} BaseWraps(c: Cmd<string>)
    ensures Wrap(Base(c), Redirs(c)) == c
  {
    if c.Redir? {
      BaseWraps(c.cmd);
      assert Redirs(c)[..|Redirs(c)| - 1] == Redirs(c.cmd);
    }
  }

  lemma {:induction false} ItemsMean(args: seq<string>, rs: seq<Redirection>)
    ensures WordsOf(WordItems(args) + RedirItems(rs)) == args && RedirsOf(WordItems(args) + RedirItems(rs)) == rs
    decreases |args| + |rs|
  {
    var items := WordItems(args) + RedirItems(rs);
    if args != [] {
      assert items[1..] == WordItems(args[1..]) + RedirItems(rs);
      ItemsMean(args[1..], rs);
    } else if rs != [] {
      assert items[1..] == WordItems(args) + RedirItems(rs[1..]);
      ItemsMean(args, rs[1..]);
    }
  }

  lemma {:induction false} UnitOfTree(c: Cmd<string>)
    ensures UnitMeans(AsUnit(c)) == c
    decreases Height(c), 1
  {
    hide Wrap;
    BaseWraps(c);
    if Base(c).Exec? { ItemsMean(Base(c).args, Redirs(c)); } else { BlockOfTree(Base(c)); }
  }

  lemma {:induction false} BlockOfTree(c: Cmd<string>)
    requires !c.Exec? && !c.Redir?
    ensures LineMeans(AsBlock(c)) == c
    decreases Height(c), 0
  {
    match c
    case Pipe(left, right) => UnitOfTree(left); PipeOfTree(right);
    case List(left, right) => ForwardOfTree(left); LineOfTree(right);
    case Back(cmd) => ForwardOfTree(cmd);
  }

  lemma {:induction false} PipeOfTree(c: Cmd<string>)
    ensures PipeMeans(AsPipe(c)) == c
    decreases Height(c), 2
  {
    if c.Pipe? {
      UnitOfTree(c.left);
      PipeOfTree(c.right);
    } else {
      UnitOfTree(c);
    }
  }

  lemma {:induction false} ForwardOfTree(c: Cmd<string>)
    ensures Backed(PipeMeans(Forward(c)), Backs(c)) == c
    decreases Height(c), 3
  {
    if c.Back? { ForwardOfTree(c.cmd); } else { PipeOfTree(c); }
  }

  lemma {:induction false} LineOfTree(c: Cmd<string>)
    ensures LineMeans(AsLine(c)) == c
    decreases Height(c), 3
  {
    if c.Exec? || c.Redir? { UnitOfTree(c); } else { BlockOfTree(c); }
  }

  // --- it can be written down --------------------------------------------------

  ghost predicate PlainToks(ts: seq<Tok>) { forall k | 0 <= k < |ts| :: WfTok(ts[k]) }

  lemma PlainConcat(a: seq<Tok>, b: seq<Tok>)
    requires PlainToks(a) && PlainToks(b)
    ensures PlainToks(a + b)
  {
  }

  lemma {:induction false} BasePlain(c: Cmd<string>)
    requires Plain(c)
    ensures Plain(Base(c)) && forall k | 0 <= k < |Redirs(c)| :: PlainWord(Redirs(c)[k].file)
  {
    if c.Redir? { BasePlain(c.cmd); }
  }

  lemma {:induction false} RedirsPlain(rs: seq<Redirection>)
    requires forall k | 0 <= k < |rs| :: PlainWord(rs[k].file)
    ensures PlainToks(RedirToks(rs))
  {
    if rs != [] {
      RedirsPlain(rs[1..]);
      assert PlainToks([SignTok(rs[0].mode), Tok('a', rs[0].file)]);
      PlainConcat([SignTok(rs[0].mode), Tok('a', rs[0].file)], RedirToks(rs[1..]));
    }
  }

  predicate PlainItem(item: Item) { match item case Word(w) => PlainWord(w) case Redirect(r) => PlainWord(r.file) }

  lemma {:induction false} ItemsPlain(items: seq<Item>)
    requires forall k | 0 <= k < |items| :: PlainItem(items[k])
    ensures PlainToks(ItemToks(items))
  {
    if items != [] {
      ItemsPlain(items[1..]);
      if items[0].Redirect? {
        RedirsPlain([items[0].to]);
        PlainConcat(RedirToks([items[0].to]), ItemToks(items[1..]));
      } else {
        PlainConcat([Tok('a', items[0].text)], ItemToks(items[1..]));
      }
    }
  }

  lemma {:induction false} UnitPlain(c: Cmd<string>)
    requires Plain(c)
    ensures UnitFits(AsUnit(c)) && PlainToks(UnitToks(AsUnit(c)))
    decreases Height(c), 1
  {
    hide PlainToks, PlainWord;
    BasePlain(c);
    if Base(c).Exec? {
      ItemsMean(Base(c).args, Redirs(c));
      ItemsPlain(WordItems(Base(c).args) + RedirItems(Redirs(c)));
    } else {
      BlockPlain(Base(c));
      RedirsPlain(Redirs(c));
      SymbolPlain('(');
      SymbolPlain(')');
      var line := LineToks(AsBlock(Base(c)));
      PlainConcat([Symbol(')')], RedirToks(Redirs(c)));
      PlainConcat(line, [Symbol(')')] + RedirToks(Redirs(c)));
      PlainConcat([Symbol('(')], line + ([Symbol(')')] + RedirToks(Redirs(c))));
    }
  }

  lemma SymbolPlain(c: char)
    requires IsSymbol(c)
    ensures PlainToks([Symbol(c)])
  {
  }

  lemma AmpsPlain(n: nat)
    ensures PlainToks(Amps(n))
  {
  }

  lemma {:induction false} BlockPlain(c: Cmd<string>)
    requires Plain(c) && !c.Exec? && !c.Redir?
    ensures LineFits(AsBlock(c)) && PlainToks(LineToks(AsBlock(c)))
    decreases Height(c), 0
  {
    hide PlainToks, Amps;
    match c
    case Pipe(left, right) =>
      UnitPlain(left);
      PipePlain(right);
      BarPlain(AsUnit(left), AsPipe(right));
      AmpsPlain(0);
      PlainConcat(PipeToks(Bar(AsUnit(left), AsPipe(right))), Amps(0));
    case List(left, right) =>
      ForwardPlain(left);
      LinePlain(right);
      SymbolPlain(';');
      AmpsPlain(Backs(left));
      PlainConcat([Symbol(';')], LineToks(AsLine(right)));
      PlainConcat(Amps(Backs(left)), [Symbol(';')] + LineToks(AsLine(right)));
      PlainConcat(PipeToks(Forward(left)), Amps(Backs(left)) + ([Symbol(';')] + LineToks(AsLine(right))));
    case Back(cmd) =>
      ForwardPlain(cmd);
      AmpsPlain(Backs(cmd) + 1);
      PlainConcat(PipeToks(Forward(cmd)), Amps(Backs(cmd) + 1));
  }

  lemma BarPlain(u: Unit, more: Pipeline)
    requires PlainToks(UnitToks(u)) && PlainToks(PipeToks(more))
    ensures PlainToks(PipeToks(Bar(u, more)))
  {
    hide PlainToks;
    SymbolPlain('|');
    PlainConcat([Symbol('|')], PipeToks(more));
    PlainConcat(UnitToks(u), [Symbol('|')] + PipeToks(more));
  }

  lemma {:induction false} PipePlain(c: Cmd<string>)
    requires Plain(c)
    ensures PipeFits(AsPipe(c)) && PlainToks(PipeToks(AsPipe(c)))
    decreases Height(c), 2
  {
    hide PlainToks;
    if c.Pipe? {
      UnitPlain(c.left);
      PipePlain(c.right);
      BarPlain(AsUnit(c.left), AsPipe(c.right));
    } else {
      UnitPlain(c);
    }
  }

  lemma {:induction false} ForwardPlain(c: Cmd<string>)
    requires Plain(c)
    ensures PipeFits(Forward(c)) && PlainToks(PipeToks(Forward(c)))
    decreases Height(c), 3
  {
    hide PlainToks;
    if c.Back? { ForwardPlain(c.cmd); } else { PipePlain(c); }
  }

  lemma {:induction false} LinePlain(c: Cmd<string>)
    requires Plain(c)
    ensures LineFits(AsLine(c)) && PlainToks(LineToks(AsLine(c)))
    decreases Height(c), 3
  {
    hide PlainToks, Amps;
    if c.Exec? || c.Redir? {
      UnitPlain(c);
      AmpsPlain(0);
      PlainConcat(UnitToks(AsUnit(c)), Amps(0));
    } else {
      BlockPlain(c);
    }
  }

  // ---------------------------------------------------------------------------
  // The round trip
  // ---------------------------------------------------------------------------

  /** One space between two tokens. */
  function Spaced(n: nat): seq<string> { seq(n + 1, k => if 0 < k < n then " " else "") }

  function Print(c: Cmd<string>): string { Render(LineToks(AsLine(c)), Spaced(|LineToks(AsLine(c))|)) }

  /** Parsing the printed text of a command gives the command. */
  lemma RoundTrip(c: Cmd<string>)
    requires Plain(c)
    ensures NUL !in Print(c) && ParseCmd(Print(c)).Ok? && Text(Print(c), ParseCmd(Print(c)).cmd) == c
  {
    hide AsLine, LineToks, LineMeans, LineFits, ParseCmd, Text, Render, WfTok;
    LinePlain(c);
    LineOfTree(c);
    ParsesAsWritten(AsLine(c), Spaced(|LineToks(AsLine(c))|));
  }
}
