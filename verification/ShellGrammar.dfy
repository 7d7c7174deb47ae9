/** The command parser of user/sh.c as functions on the text and a position in it, and what
    printing a command tree and parsing it gives. */
module ShellGrammar {

  const MAXARGS: nat := 10
  const NUL: char := '\0'

  datatype Mode = Read | Write | Append

  /** A parsed command. W is how words are given: by where they are, or by their text. */
  datatype Cmd<W> =
    | Exec(args: seq<W>)
    | Redir(cmd: Cmd<W>, file: W, mode: Mode)
    | Pipe(left: Cmd<W>, right: Cmd<W>)
    | List(left: Cmd<W>, right: Cmd<W>)
    | Back(cmd: Cmd<W>)

  /** argv and eargv, or file and efile: the word starts at q and ends before eq. */
  datatype Span = Span(q: nat, eq: nat)

  // ---------------------------------------------------------------------------
  // Characters and tokens
  // ---------------------------------------------------------------------------

  predicate IsSpace(c: char) { c == ' ' || c == '\t' || c == '\r' || c == '\n' || c == '\U{000b}' }

  predicate IsSymbol(c: char) { c == '<' || c == '|' || c == '>' || c == '&' || c == ';' || c == '(' || c == ')' }

  predicate IsWordChar(c: char) { !IsSpace(c) && !IsSymbol(c) }

  /** *s, which is NUL at the end. */
  function At(s: string, i: nat): char { if i < |s| then s[i] else NUL }

  /** The first position from i on that is not a space. */
  function SkipSpace(s: string, i: nat): (j: nat)
    requires i <= |s|
    ensures i <= j <= |s| && !(j < |s| && IsSpace(s[j])) && forall k | i <= k < j :: IsSpace(s[k])
    decreases |s| - i
  {
    if i < |s| && IsSpace(s[i]) then SkipSpace(s, i + 1) else i
  }

  /** The end of the word that starts at i. */
  function WordEnd(s: string, i: nat): (j: nat)
    requires i <= |s|
    ensures i <= j <= |s| && !(j < |s| && IsWordChar(s[j])) && forall k | i <= k < j :: IsWordChar(s[k])
    decreases |s| - i
  {
    if i < |s| && IsWordChar(s[i]) then WordEnd(s, i + 1) else i
  }

  datatype Token = Token(kind: char, word: Span, next: nat)

  /** gettoken: 'a' for a word, '+' for >>, NUL at the end, otherwise the symbol. */
  function GetToken(s: string, i: nat): (t: Token)
    requires i <= |s|
    ensures i <= t.word.q <= t.word.eq <= t.next <= |s| && (t.kind != NUL && NUL !in s ==> i < t.next)
    ensures t.kind == 'a' && NUL !in s ==> WordAt(s, t.word)
  {
    var q := SkipSpace(s, i);
    var c := At(s, q);
    if c == NUL then Token(NUL, Span(q, q), SkipSpace(s, q))
    else if c == '>' then
      if At(s, q + 1) == '>' then Token('+', Span(q, q + 2), SkipSpace(s, q + 2)) else Token('>', Span(q, q + 1), SkipSpace(s, q + 1))
    else if IsSymbol(c) then Token(c, Span(q, q + 1), SkipSpace(s, q + 1))
    else Token('a', Span(q, WordEnd(s, q)), SkipSpace(s, WordEnd(s, q)))
  }

  /** A whole word of the text: non-empty, and not to be extended. */
  predicate WordAt(s: string, w: Span) {
    && w.q < w.eq <= |s|
    && (forall k | w.q <= k < w.eq :: IsWordChar(s[k]) && s[k] != NUL)
    && (w.eq < |s| ==> !IsWordChar(s[w.eq]))
  }

  /** peek, after it has skipped spaces. */
  predicate Peek(s: string, i: nat, toks: string)
    requires i <= |s|
  {
    At(s, SkipSpace(s, i)) != NUL && At(s, SkipSpace(s, i)) in toks
  }

  // ---------------------------------------------------------------------------
  // The grammar
  // ---------------------------------------------------------------------------

  /** A panic, or a command and where parsing goes on. */
  datatype Parsed = Panic | Ok(cmd: Cmd<Span>, pos: nat)

  /** All words of a command are words of the text. */
  ghost predicate Proper(s: string, c: Cmd<Span>) {
    match c
    case Exec(args) => forall k | 0 <= k < |args| :: WordAt(s, args[k])
    case Redir(cmd, file, _) => Proper(s, cmd) && WordAt(s, file)
    case Pipe(left, right) => Proper(s, left) && Proper(s, right)
    case List(left, right) => Proper(s, left) && Proper(s, right)
    case Back(cmd) => Proper(s, cmd)
  }

  function ModeOf(tok: char): Mode { if tok == '<' then Read else if tok == '>' then Write else Append }

  /** parseredirs */
  function ParseRedirs(s: string, i: nat, cmd: Cmd<Span>): (r: Parsed)
    requires i <= |s| && NUL !in s
    ensures r.Ok? ==> i <= r.pos <= |s|
    ensures r.Ok? && Proper(s, cmd) ==> Proper(s, r.cmd)
    decreases |s| - i
  {
    if !Peek(s, i, "<>") then Ok(cmd, SkipSpace(s, i))
    else
      var op := GetToken(s, SkipSpace(s, i));
      var file := GetToken(s, op.next);
      if file.kind != 'a' then Panic else ParseRedirs(s, file.next, Redir(cmd, file.word, ModeOf(op.kind)))
  }

  /** One more argument for the exec command below the redirections of cmd. */
  function AddArg(cmd: Cmd<Span>, w: Span): (r: Cmd<Span>)
    ensures forall s :: Proper(s, cmd) && WordAt(s, w) ==> Proper(s, r)
  {
    match cmd
    case Redir(c, file, mode) => Redir(AddArg(c, w), file, mode)
    case Exec(args) => Exec(args + [w])
    case _ => cmd
  }

  /** The loop of parseexec, with argc arguments so far. */
  function ParseArgs(s: string, i: nat, cmd: Cmd<Span>, argc: nat): (r: Parsed)
    requires i <= |s| && NUL !in s
    ensures r.Ok? ==> i <= r.pos <= |s|
    ensures r.Ok? && Proper(s, cmd) ==> Proper(s, r.cmd)
    decreases |s| - i
  {
    if Peek(s, i, "|)&;") then Ok(cmd, SkipSpace(s, i))
    else
      var t := GetToken(s, SkipSpace(s, i));
      if t.kind == NUL then Ok(cmd, t.next)
      else if t.kind != 'a' || argc + 1 >= MAXARGS then Panic
      else
        var r := ParseRedirs(s, t.next, AddArg(cmd, t.word));
        if r.Panic? then Panic else ParseArgs(s, r.pos, r.cmd, argc + 1)
  }

  /** parseexec */
  function ParseExec(s: string, i: nat): (r: Parsed)
    requires i <= |s| && NUL !in s
    ensures r.Ok? ==> i <= r.pos <= |s| && Proper(s, r.cmd)
    decreases |s| - i, 1
  {
    if Peek(s, i, "(") then ParseBlock(s, SkipSpace(s, i))
    else
      var r := ParseRedirs(s, SkipSpace(s, i), Exec([]));
      if r.Panic? then Panic else ParseArgs(s, r.pos, r.cmd, 0)
  }

  /** parseblock */
  function ParseBlock(s: string, i: nat): (r: Parsed)
    requires i <= |s| && NUL !in s
    ensures r.Ok? ==> i <= r.pos <= |s| && Proper(s, r.cmd)
    decreases |s| - i, 0
  {
    if !Peek(s, i, "(") then Panic
    else
      var open := GetToken(s, SkipSpace(s, i));
      var body := ParseLine(s, open.next);
      if body.Panic? || !Peek(s, body.pos, ")") then Panic
      else
        var close := GetToken(s, SkipSpace(s, body.pos));
        ParseRedirs(s, close.next, body.cmd)
  }

  /** parsepipe */
  function ParsePipe(s: string, i: nat): (r: Parsed)
    requires i <= |s| && NUL !in s
    ensures r.Ok? ==> i <= r.pos <= |s| && Proper(s, r.cmd)
    decreases |s| - i, 2
  {
    var left := ParseExec(s, i);
    if left.Panic? || !Peek(s, left.pos, "|") then Land(s, left)
    else
      var bar := GetToken(s, SkipSpace(s, left.pos));
      var right := ParsePipe(s, bar.next);
      if right.Panic? then Panic else Ok(Pipe(left.cmd, right.cmd), right.pos)
  }

  /** A peek that fails has still skipped spaces. */
  function Land(s: string, r: Parsed): (t: Parsed)
    requires r.Ok? ==> r.pos <= |s|
    ensures r.Panic? ==> t == Panic
    ensures r.Ok? ==> t.Ok? && t.cmd == r.cmd && r.pos <= t.pos <= |s|
  {
    if r.Panic? then r else Ok(r.cmd, SkipSpace(s, r.pos))
  }

  /** The loop of parseline over &. */
  function ParseBacks(s: string, i: nat, cmd: Cmd<Span>): (r: Parsed)
    requires i <= |s| && NUL !in s
    ensures r.Ok? && i <= r.pos <= |s| && (Proper(s, cmd) ==> Proper(s, r.cmd))
    decreases |s| - i
  {
    if Peek(s, i, "&") then ParseBacks(s, GetToken(s, SkipSpace(s, i)).next, Back(cmd)) else Ok(cmd, SkipSpace(s, i))
  }

  /** parseline */
  function ParseLine(s: string, i: nat): (r: Parsed)
    requires i <= |s| && NUL !in s
    ensures r.Ok? ==> i <= r.pos <= |s| && Proper(s, r.cmd)
    decreases |s| - i, 3
  {
    var first := ParsePipe(s, i);
    if first.Panic? then Panic
    else
      var left := ParseBacks(s, first.pos, first.cmd);
      if !Peek(s, left.pos, ";") then Land(s, left)
      else
        var semi := GetToken(s, SkipSpace(s, left.pos));
        var right := ParseLine(s, semi.next);
        if right.Panic? then Panic else Ok(List(left.cmd, right.cmd), right.pos)
  }

  /** parsecmd up to nulterminate: leftovers are a panic. */
  function ParseCmd(s: string): (r: Parsed)
    requires NUL !in s
    ensures r.Ok? ==> r.pos == |s| && Proper(s, r.cmd)
  {
    var r := ParseLine(s, 0);
    if r.Panic? || SkipSpace(s, r.pos) != |s| then Panic else Ok(r.cmd, |s|)
  }
}
