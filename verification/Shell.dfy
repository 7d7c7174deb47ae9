/** The parser of user/sh.c on a character buffer: a cursor that moves through the text, and
    nulterminate, which writes into it. */
module Shell {
  import opened ShellGrammar
  import opened ShellTokens
  import opened ShellSentences

  /** strchr(whitespace, *s) loop. */
  method SkipSpaces(buf: array<char>, es: nat, ps: nat) returns (s: nat)
    requires ps <= es < buf.Length
    ensures s <= es && s == SkipSpace(buf[..es], ps)
  {
    s := ps;
    while s < es && IsSpace(buf[s])
      invariant ps <= s <= es && SkipSpace(buf[..es], s) == SkipSpace(buf[..es], ps)
    {
      s := s + 1;
    }
  }

  method SkipWord(buf: array<char>, es: nat, ps: nat) returns (s: nat)
    requires ps <= es < buf.Length
    ensures s <= es && s == WordEnd(buf[..es], ps)
  {
    s := ps;
    while s < es && !IsSpace(buf[s]) && !IsSymbol(buf[s])
      invariant ps <= s <= es && WordEnd(buf[..es], s) == WordEnd(buf[..es], ps)
    {
      s := s + 1;
    }
  }

  /** gettoken */
  method NextToken(buf: array<char>, es: nat, ps: nat) returns (ret: char, q: nat, eq: nat, next: nat)
    requires ps <= es < buf.Length && buf[es] == NUL && NUL !in buf[..es]
    ensures Token(ret, Span(q, eq), next) == GetToken(buf[..es], ps) && next <= es
  {
    hide SkipSpace, WordEnd, IsSpace;
    ghost var text := buf[..es];
    var s := SkipSpaces(buf, es, ps);
    q := s;
    ret := buf[s];
    assert ret == At(text, q);
    if ret == NUL {
    } else if ret == '|' || ret == '(' || ret == ')' || ret == ';' || ret == '&' || ret == '<' {
      s := s + 1;
    } else if ret == '>' {
      s := s + 1;
      assert buf[s] == At(text, q + 1);
      if buf[s] == '>' {
        ret := '+';
        s := s + 1;
      }
    } else {
      ret := 'a';
      s := SkipWord(buf, es, s);
    }
    eq := s;
    next := SkipSpaces(buf, es, s);
  }

  /** peek */
  method PeekToken(buf: array<char>, es: nat, ps: nat, toks: string) returns (found: bool, next: nat)
    requires ps <= es < buf.Length && buf[es] == NUL
    ensures next <= es && next == SkipSpace(buf[..es], ps) && found == Peek(buf[..es], ps, toks)
  {
    next := SkipSpaces(buf, es, ps);
    found := buf[next] != NUL && buf[next] in toks;
  }

  /** parseredirs */
  method Redirs(buf: array<char>, es: nat, ps: nat, cmd: Cmd<Span>) returns (r: Parsed)
    requires ps <= es < buf.Length && buf[es] == NUL && NUL !in buf[..es]
    ensures r == ParseRedirs(buf[..es], ps, cmd)
  {
    ghost var text := buf[..es];
    var c, at := cmd, ps;
    var more;
    more, at := PeekToken(buf, es, at, "<>");
    ghost var before := ps;
    while more
      invariant at <= es && before <= es && at == SkipSpace(text, before) && more == Peek(text, before, "<>")
      invariant ParseRedirs(text, ps, cmd) == ParseRedirs(text, before, c)
      decreases es - before
    {
      var tok, q, eq, next := NextToken(buf, es, at);
      var kind;
      kind, q, eq, next := NextToken(buf, es, next);
      if kind != 'a' {
        return Panic;
      }
      c := Redir(c, Span(q, eq), ModeOf(tok));
      before := next;
      more, at := PeekToken(buf, es, next, "<>");
    }
    return Ok(c, at);
  }

  /** The loop of parseexec. */
  method Args(buf: array<char>, es: nat, ps: nat, cmd: Cmd<Span>) returns (r: Parsed)
    requires ps <= es < buf.Length && buf[es] == NUL && NUL !in buf[..es]
    ensures r == ParseArgs(buf[..es], ps, cmd, 0)
  {
    ghost var text := buf[..es];
    var c, at, argc := cmd, ps, 0;
    while true
      invariant at <= es && ParseArgs(text, ps, cmd, 0) == ParseArgs(text, at, c, argc)
      decreases es - at
    {
      var stop, next := PeekToken(buf, es, at, "|)&;");
      if stop {
        return Ok(c, next);
      }
      var tok, q, eq, after := NextToken(buf, es, next);
      if tok == NUL {
        return Ok(c, after);
      }
      if tok != 'a' {
        return Panic;
      }
      c := AddArg(c, Span(q, eq));
      argc := argc + 1;
      if argc >= MAXARGS {
        return Panic;
      }
      var rest := Redirs(buf, es, after, c);
      if rest.Panic? {
        return Panic;
      }
      c, at := rest.cmd, rest.pos;
    }
  }

  /** parseexec */
  method Simple(buf: array<char>, es: nat, ps: nat) returns (r: Parsed)
    requires ps <= es < buf.Length && buf[es] == NUL && NUL !in buf[..es]
    ensures r == ParseExec(buf[..es], ps)
    decreases es - ps, 1
  {
    hide ParseLine, ParsePipe, ParseArgs, ParseRedirs;
    var block, at := PeekToken(buf, es, ps, "(");
    if block {
      r := Block(buf, es, at);
      return;
    }
    r := Redirs(buf, es, at, Exec([]));
    if r.Ok? {
      r := Args(buf, es, r.pos, r.cmd);
    }
  }

  /** parseblock */
  method Block(buf: array<char>, es: nat, ps: nat) returns (r: Parsed)
    requires ps <= es < buf.Length && buf[es] == NUL && NUL !in buf[..es]
    ensures r == ParseBlock(buf[..es], ps)
    decreases es - ps, 0
  {
    hide ParseLine, ParsePipe, ParseArgs, ParseRedirs;
    var open, at := PeekToken(buf, es, ps, "(");
    if !open {
      return Panic;
    }
    var tok, q, eq, next := NextToken(buf, es, at);
    r := Line(buf, es, next);
    if r.Panic? {
      return;
    }
    var close;
    close, at := PeekToken(buf, es, r.pos, ")");
    if !close {
      return Panic;
    }
    tok, q, eq, next := NextToken(buf, es, at);
    r := Redirs(buf, es, next, r.cmd);
  }

  /** parsepipe */
  method Pipeline(buf: array<char>, es: nat, ps: nat) returns (r: Parsed)
    requires ps <= es < buf.Length && buf[es] == NUL && NUL !in buf[..es]
    ensures r == ParsePipe(buf[..es], ps)
    decreases es - ps, 2
  {
    hide ParseLine, ParseExec;
    r := Simple(buf, es, ps);
    if r.Panic? {
      return;
    }
    var left := r.cmd;
    var bar, at := PeekToken(buf, es, r.pos, "|");
    r := Ok(left, at);
    if bar {
      var tok, q, eq, next := NextToken(buf, es, at);
      r := Pipeline(buf, es, next);
      if r.Ok? {
        r := Ok(Pipe(left, r.cmd), r.pos);
      }
    }
  }

  /** A token that peek has seen is consumed by gettoken. */
  lemma PeekMoves(s: string, i: nat, toks: string)
    requires i <= |s| && NUL !in s && Peek(s, i, toks)
    ensures i < GetToken(s, SkipSpace(s, i)).next
  {
  }

  /** The loop of parseline over &. */
  method Backs(buf: array<char>, es: nat, ps: nat, first: Cmd<Span>) returns (cmd: Cmd<Span>, at: nat)
    requires ps <= es < buf.Length && buf[es] == NUL && NUL !in buf[..es]
    ensures ParseBacks(buf[..es], ps, first) == Ok(cmd, at)
  {
    hide GetToken, SkipSpace, Peek, Proper;
    ghost var text := buf[..es];
    cmd, at := first, ps;
    var found, next := PeekToken(buf, es, at, "&");
    while found
      invariant at <= es && next == SkipSpace(text, at) && found == Peek(text, at, "&")
      invariant ParseBacks(text, ps, first) == ParseBacks(text, at, cmd)
      decreases es - at
    {
      var tok, q, eq, after := NextToken(buf, es, next);
      PeekMoves(text, at, "&");
      cmd, at := Back(cmd), after;
      found, next := PeekToken(buf, es, at, "&");
    }
    at := next;
  }

  /** parseline */
  method Line(buf: array<char>, es: nat, ps: nat) returns (r: Parsed)
    requires ps <= es < buf.Length && buf[es] == NUL && NUL !in buf[..es]
    ensures r == ParseLine(buf[..es], ps)
    decreases es - ps, 3
  {
    hide ParsePipe, ParseBacks, GetToken, SkipSpace, Peek, Proper;
    ghost var text := buf[..es];
    r := Pipeline(buf, es, ps);
    if r.Panic? {
      return;
    }
    var cmd, at := Backs(buf, es, r.pos, r.cmd);
    var semi, next := PeekToken(buf, es, at, ";");
    r := Ok(cmd, next);
    if semi {
      var tok, q, eq, after := NextToken(buf, es, next);
      PeekMoves(text, at, ";");
      r := Line(buf, es, after);
      if r.Ok? {
        r := Ok(List(cmd, r.cmd), r.pos);
      }
    }
  }

  // ---------------------------------------------------------------------------
  // nulterminate
  // ---------------------------------------------------------------------------

  /** The positions where words of the command end. */
  function Stops(c: Cmd<Span>): set<nat> {
    match c
    case Exec(args) => set k | 0 <= k < |args| :: args[k].eq
    case Redir(cmd, file, _) => Stops(cmd) + {file.eq}
    case Pipe(left, right) => Stops(left) + Stops(right)
    case List(left, right) => Stops(left) + Stops(right)
    case Back(cmd) => Stops(cmd)
  }

  /** w is a word of the command. */
  predicate HasWord(c: Cmd<Span>, w: Span) {
    match c
    case Exec(args) => w in args
    case Redir(cmd, file, _) => HasWord(cmd, w) || w == file
    case Pipe(left, right) => HasWord(left, w) || HasWord(right, w)
    case List(left, right) => HasWord(left, w) || HasWord(right, w)
    case Back(cmd) => HasWord(cmd, w)
  }

  /** A word ends where the text has no character of a word. */
  lemma {:induction false} StopsBetweenWords(s: string, c: Cmd<Span>, k: nat)
    requires Proper(s, c) && k in Stops(c)
    ensures k <= |s| && (k < |s| ==> !IsWordChar(s[k]))
  {
    match c
    case Exec(args) => var j :| 0 <= j < |args| && args[j].eq == k; assert WordAt(s, args[j]);
    case Redir(cmd, file, _) => if k in Stops(cmd) { StopsBetweenWords(s, cmd, k); }
    case Pipe(left, right) => if k in Stops(left) { StopsBetweenWords(s, left, k); } else { StopsBetweenWords(s, right, k); }
    case List(left, right) => if k in Stops(left) { StopsBetweenWords(s, left, k); } else { StopsBetweenWords(s, right, k); }
    case Back(cmd) => StopsBetweenWords(s, cmd, k);
  }

  lemma {:induction false} WordIsProper(s: string, c: Cmd<Span>, w: Span)
    requires Proper(s, c) && HasWord(c, w)
    ensures WordAt(s, w) && w.eq in Stops(c)
  {
    match c
    case Exec(args) => var j :| 0 <= j < |args| && args[j] == w;
    case Redir(cmd, file, _) => if HasWord(cmd, w) { WordIsProper(s, cmd, w); }
    case Pipe(left, right) => if HasWord(left, w) { WordIsProper(s, left, w); } else { WordIsProper(s, right, w); }
    case List(left, right) => if HasWord(left, w) { WordIsProper(s, left, w); } else { WordIsProper(s, right, w); }
    case Back(cmd) => WordIsProper(s, cmd, w);
  }

  /** nulterminate: a NUL at the end of every word, nothing else. */
  method Nulterminate(buf: array<char>, cmd: Cmd<Span>)
    requires forall k | k in Stops(cmd) :: k < buf.Length
    modifies buf
    ensures forall k | 0 <= k < buf.Length :: buf[k] == if k in Stops(cmd) then NUL else old(buf[k])
    decreases cmd
  {
    match cmd
    case Exec(args) =>
      var i := 0;
      while i < |args|
        invariant 0 <= i <= |args|
        invariant forall k | 0 <= k < buf.Length :: buf[k] == if (exists j :: 0 <= j < i && args[j].eq == k) then NUL else old(buf[k])
      {
        assert args[i].eq in Stops(cmd);
        buf[args[i].eq] := NUL;
        i := i + 1;
      }
    case Redir(c, file, _) =>
      assert Stops(c) <= Stops(cmd) && file.eq in Stops(cmd);
      Nulterminate(buf, c);
      buf[file.eq] := NUL;
    case Pipe(left, right) =>
      assert Stops(left) <= Stops(cmd) && Stops(right) <= Stops(cmd);
      Nulterminate(buf, left);
      Nulterminate(buf, right);
    case List(left, right) =>
      assert Stops(left) <= Stops(cmd) && Stops(right) <= Stops(cmd);
      Nulterminate(buf, left);
      Nulterminate(buf, right);
    case Back(c) =>
      assert Stops(c) <= Stops(cmd);
      Nulterminate(buf, c);
  }

  /** The C string that starts at q. */
  function CString(b: seq<char>, q: nat): string
    decreases |b| - q
  {
    if q < |b| && b[q] != NUL then [b[q]] + CString(b, q + 1) else ""
  }

  lemma {:induction false} CStringUpTo(b: seq<char>, q: nat, eq: nat)
    requires q <= eq < |b| && b[eq] == NUL && NUL !in b[q..eq]
    ensures CString(b, q) == b[q..eq]
    decreases eq - q
  {
    if q < eq {
      assert b[q] == b[q..eq][0];
      assert b[q..eq] == [b[q]] + b[q + 1..eq];
      CStringUpTo(b, q + 1, eq);
    }
  }

  /** After nulterminate every word of the command is a C string of its own. */
  lemma WordReads(s: string, b: seq<char>, c: Cmd<Span>, w: Span)
    requires |b| > |s| && NUL !in s && Proper(s, c) && HasWord(c, w)
    requires forall k: nat | k < |b| :: b[k] == if k in Stops(c) || k >= |s| then NUL else s[k]
    ensures CString(b, w.q) == SpanText(s, w)
  {
    WordIsProper(s, c, w);
    forall k | w.q <= k < w.eq ensures b[k] == s[k] && b[k] != NUL {
      if k in Stops(c) { StopsBetweenWords(s, c, k); }
    }
    CStringUpTo(b, w.q, w.eq);
    assert b[w.q..w.eq] == s[w.q..w.eq];
  }

  /** parsecmd: what the grammar says, with every argument and file name ready to be used. */
  method Parsecmd(buf: array<char>, es: nat) returns (r: Parsed)
    requires es < buf.Length && buf[es] == NUL && NUL !in buf[..es]
    modifies buf
    ensures r == ParseCmd(old(buf[..es]))
    ensures r.Ok? <==> exists l :: Sentence(old(buf[..es]), l)
    ensures forall l | Sentence(old(buf[..es]), l) :: r.Ok? && Text(old(buf[..es]), r.cmd) == LineMeans(l)
    ensures r.Ok? ==> forall w | HasWord(r.cmd, w) :: CString(buf[..es + 1], w.q) == SpanText(old(buf[..es]), w)
  {
    hide Sentence, Text, LineMeans;
    ghost var text := buf[..es];
    ParsesExactly(text);
    r := Line(buf, es, 0);
    if r.Panic? {
      return;
    }
    var found, at := PeekToken(buf, es, r.pos, "");
    if at != es {
      return Panic;
    }
    r := Ok(r.cmd, es);
    forall k | k in Stops(r.cmd) ensures k <= es { StopsBetweenWords(text, r.cmd, k); }
    Nulterminate(buf, r.cmd);
    forall w | HasWord(r.cmd, w) ensures CString(buf[..es + 1], w.q) == SpanText(text, w) {
      WordReads(text, buf[..es + 1], r.cmd, w);
    }
  }
}
