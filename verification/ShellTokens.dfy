/** The tokens of a text. What the parser of user/sh.c does depends on these alone, and a text
    has the tokens that it is written with, however it is spaced. */
module ShellTokens {
  import opened ShellGrammar

  function SpanText(s: string, w: Span): string { if w.q <= w.eq <= |s| then s[w.q..w.eq] else "" }

  /** A token: what gettoken returns, and its characters. */
  datatype Tok = Tok(kind: char, text: string)

  /** The tokens from position i on. */
  function Toks(s: string, i: nat): seq<Tok>
    requires i <= |s| && NUL !in s
    decreases |s| - i
  {
    var t := GetToken(s, i);
    if t.kind == NUL then [] else [Tok(t.kind, SpanText(s, t.word))] + Toks(s, t.next)
  }

  lemma SkipTwice(s: string, i: nat)
    requires i <= |s| && NUL !in s
    ensures SkipSpace(s, SkipSpace(s, i)) == SkipSpace(s, i) && GetToken(s, SkipSpace(s, i)) == GetToken(s, i)
    ensures Toks(s, SkipSpace(s, i)) == Toks(s, i)
  {
  }

  /** The first character of a token of this kind, when it is no word. */
  function Lead(kind: char): char { if kind == '+' then '>' else kind }

  predicate OnlySymbols(toks: string) { forall c | c in toks :: IsSymbol(c) }

  /** peek looks at the next token. */
  lemma PeekTok(s: string, i: nat, toks: string)
    requires i <= |s| && NUL !in s && OnlySymbols(toks)
    ensures Peek(s, i, toks) <==> Toks(s, i) != [] && Lead(Toks(s, i)[0].kind) in toks
  {
  }

  /** gettoken takes the next token off. */
  lemma TakeTok(s: string, i: nat)
    requires i <= |s| && NUL !in s && Toks(s, i) != []
    ensures var t := GetToken(s, i);
      && t.kind == Toks(s, i)[0].kind && SpanText(s, t.word) == Toks(s, i)[0].text && t.next <= |s|
      && t.kind != NUL && Toks(s, t.next) == Toks(s, i)[1..]
  {
  }

  lemma NoTok(s: string, i: nat)
    requires i <= |s| && NUL !in s
    ensures Toks(s, i) == [] <==> GetToken(s, i).kind == NUL
    ensures Toks(s, i) == [] <==> SkipSpace(s, i) == |s|
    ensures Toks(s, i) == [] ==> Toks(s, GetToken(s, i).next) == []
  {
  }

  // ---------------------------------------------------------------------------
  // Nothing but space is lost
  // ---------------------------------------------------------------------------

  predicate PlainWord(w: string) { w != "" && forall k | 0 <= k < |w| :: IsWordChar(w[k]) && w[k] != NUL }

  /** What a token can look like. */
  predicate WfTok(t: Tok) {
    if t.kind == 'a' then PlainWord(t.text) else if t.kind == '+' then t.text == ">>" else IsSymbol(t.kind) && t.text == [t.kind]
  }

  /** The text without its spaces. */
  function Bare(s: string): string {
    if s == "" then "" else (if IsSpace(s[0]) then "" else [s[0]]) + Bare(s[1..])
  }

  function Glue(ts: seq<Tok>): string {
    if ts == [] then "" else ts[0].text + Glue(ts[1..])
  }

  lemma {:induction false} BareConcat(a: string, b: string)
    ensures Bare(a + b) == Bare(a) + Bare(b)
  {
    if a == "" {
      assert a + b == b;
    } else {
      assert (a + b)[1..] == a[1..] + b;
      BareConcat(a[1..], b);
    }
  }

  lemma {:induction false} BareSpace(a: string)
    requires forall k | 0 <= k < |a| :: IsSpace(a[k])
    ensures Bare(a) == ""
  {
    if a != "" { BareSpace(a[1..]); }
  }

  lemma {:induction false} BareSame(a: string)
    requires forall k | 0 <= k < |a| :: !IsSpace(a[k])
    ensures Bare(a) == a
  {
    if a != "" { BareSame(a[1..]); }
  }

  /** Where a token lies: space before it, and space after it up to where gettoken stops. */
  lemma TokenLies(s: string, i: nat)
    requires i <= |s| && NUL !in s
    ensures var t := GetToken(s, i);
      && (forall k | i <= k < t.word.q :: IsSpace(s[k])) && (forall k | t.word.eq <= k < t.next :: IsSpace(s[k]))
      && (t.kind != NUL ==> WfTok(Tok(t.kind, SpanText(s, t.word)))) && (t.kind == NUL ==> t.word.q == |s|)
  {
  }

  lemma BareSplit(s: string, i: nat, q: nat, e: nat, n: nat)
    requires i <= q <= e <= n <= |s|
    requires (forall k | i <= k < q :: IsSpace(s[k])) && (forall k | e <= k < n :: IsSpace(s[k])) && (forall k | q <= k < e :: !IsSpace(s[k]))
    ensures Bare(s[i..]) == s[q..e] + Bare(s[n..])
  {
    var a, w, b := s[i..q], s[q..e], s[e..n];
    assert s[i..] == a + (w + (b + s[n..]));
    BareConcat(a, w + (b + s[n..]));
    BareConcat(w, b + s[n..]);
    BareConcat(b, s[n..]);
    BareSpace(a);
    BareSpace(b);
    BareSame(w);
  }

  /** The tokens, put together, are the text without its spaces: gettoken loses and adds nothing. */
  lemma {:induction false} NothingLost(s: string, i: nat)
    requires i <= |s| && NUL !in s
    ensures Glue(Toks(s, i)) == Bare(s[i..]) && forall k | 0 <= k < |Toks(s, i)| :: WfTok(Toks(s, i)[k])
    decreases |s| - i
  {
    hide GetToken, Bare, WfTok, IsSpace;
    var t := GetToken(s, i);
    TokenLies(s, i);
    if t.kind == NUL {
      BareSpace(s[i..]);
    } else {
      var w := s[t.word.q..t.word.eq];
      NothingLost(s, t.next);
      NoSpaceIn(Tok(t.kind, w));
      assert forall k | t.word.q <= k < t.word.eq :: s[k] == w[k - t.word.q];
      BareSplit(s, i, t.word.q, t.word.eq, t.next);
    }
  }

  lemma NoSpaceIn(t: Tok)
    requires WfTok(t)
    ensures forall k | 0 <= k < |t.text| :: !IsSpace(t.text[k])
  {
  }

  // ---------------------------------------------------------------------------
  // Writing tokens down
  // ---------------------------------------------------------------------------

  predicate Blank(g: string) { forall k | 0 <= k < |g| :: IsSpace(g[k]) }

  /** The tokens with a gap before each of them and one at the end. */
  function Render(ts: seq<Tok>, gaps: seq<string>): string
    requires |gaps| == |ts| + 1
  {
    if ts == [] then gaps[0] else gaps[0] + ts[0].text + Render(ts[1..], gaps[1..])
  }

  /** Without space between them the two would be read as one: two words, or > and > or >>. */
  predicate Sticky(a: Tok, b: Tok) { (a.kind == 'a' && b.kind == 'a') || (a.kind == '>' && Lead(b.kind) == '>') }

  ghost predicate Laid(ts: seq<Tok>, gaps: seq<string>) {
    && |gaps| == |ts| + 1 && (forall k | 0 <= k < |ts| :: WfTok(ts[k])) && (forall k | 0 <= k < |gaps| :: Blank(gaps[k]))
    && forall k | 0 < k < |ts| && Sticky(ts[k - 1], ts[k]) :: gaps[k] != ""
  }

  lemma LaidRest(ts: seq<Tok>, gaps: seq<string>)
    requires Laid(ts, gaps) && ts != []
    ensures Laid(ts[1..], gaps[1..])
  {
    forall k | 0 < k < |ts[1..]| && Sticky(ts[1..][k - 1], ts[1..][k]) ensures gaps[1..][k] != "" {
      assert Sticky(ts[k], ts[k + 1]);
    }
  }

  lemma {:induction false} SkipGap(s: string, i: nat, j: nat)
    requires i <= j <= |s| && (forall k | i <= k < j :: IsSpace(s[k])) && (j < |s| ==> !IsSpace(s[j]))
    ensures SkipSpace(s, i) == j
    decreases j - i
  {
    if i < j { SkipGap(s, i + 1, j); }
  }

  lemma {:induction false} WordGoes(s: string, i: nat, j: nat)
    requires i <= j <= |s| && (forall k | i <= k < j :: IsWordChar(s[k])) && (j < |s| ==> !IsWordChar(s[j]))
    ensures WordEnd(s, i) == j
    decreases j - i
  {
    if i < j { WordGoes(s, i + 1, j); }
  }

  /** What a rendered text begins with. */
  lemma RenderStart(ts: seq<Tok>, gaps: seq<string>)
    requires Laid(ts, gaps)
    ensures var r := Render(ts, gaps);
      && (gaps[0] != "" ==> r != "" && IsSpace(r[0]))
      && (gaps[0] == "" && ts != [] ==> r != "" && r[0] == ts[0].text[0] && !IsSpace(r[0]) && (ts[0].kind == 'a' <==> IsWordChar(r[0]))
                                        && (ts[0].kind != 'a' ==> r[0] == Lead(ts[0].kind)))
      && (gaps[0] == "" && ts == [] ==> r == "")
  {
    if ts != [] {
      assert WfTok(ts[0]);
      assert gaps[0] == "" ==> Render(ts, gaps) == ts[0].text + Render(ts[1..], gaps[1..]);
    }
    if gaps[0] != "" { assert Blank(gaps[0]); }
  }

  /** gettoken at a token that is followed by something it does not stick to. */
  lemma ReadsToken(s: string, i: nat, t: Tok)
    requires i <= |s| && NUL !in s && WfTok(t) && i + |t.text| <= |s| && s[i..i + |t.text|] == t.text
    requires var e := i + |t.text|;
      e < |s| ==> (t.kind == 'a' ==> !IsWordChar(s[e])) && (t.kind == '>' ==> s[e] != '>')
    ensures var r := GetToken(s, i);
      r.kind == t.kind && r.word == Span(i, i + |t.text|) && r.next == SkipSpace(s, i + |t.text|)
  {
    var e := i + |t.text|;
    forall k | 0 <= k < |t.text| ensures s[i + k] == t.text[k] { assert s[i..e][k] == s[i + k]; }
    assert s[i] == t.text[0];
    SkipGap(s, i, i);
    if t.kind == 'a' {
      assert forall k | i <= k < e :: s[k] == t.text[k - i];
      WordGoes(s, i, e);
    } else if t.kind == '+' {
      assert s[i + 1] == '>';
    }
  }

  /** The token at j, after the gap at i, is the first one; the others are those after it. */
  lemma FirstTok(s: string, i: nat, j: nat, t: Tok)
    requires i <= |s| && NUL !in s && SkipSpace(s, i) == j && WfTok(t) && j + |t.text| <= |s| && s[j..j + |t.text|] == t.text
    requires var e := j + |t.text|;
      e < |s| ==> (t.kind == 'a' ==> !IsWordChar(s[e])) && (t.kind == '>' ==> s[e] != '>')
    ensures Toks(s, i) == [t] + Toks(s, j + |t.text|)
  {
    hide GetToken, SkipSpace, IsWordChar;
    SkipTwice(s, i);
    ReadsToken(s, j, t);
    SkipTwice(s, j + |t.text|);
    KindNotNul(t);
  }

  lemma KindNotNul(t: Tok)
    requires WfTok(t)
    ensures t.kind != NUL
  {
  }

  /** A text is read as the tokens that it was written with, whatever the gaps. */
  lemma {:induction false} RenderToks(pre: string, ts: seq<Tok>, gaps: seq<string>)
    requires Laid(ts, gaps) && NUL !in pre + Render(ts, gaps)
    ensures Toks(pre + Render(ts, gaps), |pre|) == ts
    decreases |ts|
  {
    hide GetToken, SkipSpace, IsWordChar, WfTok, Toks, Sticky;
    var s := pre + Render(ts, gaps);
    GapThen(pre, ts, gaps);
    if ts == [] {
      NoTok(s, |pre|);
    } else {
      var pre', rest := pre + gaps[0] + ts[0].text, Render(ts[1..], gaps[1..]);
      LaidRest(ts, gaps);
      Regroup(pre, gaps[0], ts[0].text, rest);
      NotStuck(ts, gaps);
      FirstTok(s, |pre|, |pre| + |gaps[0]|, ts[0]);
      RenderToks(pre', ts[1..], gaps[1..]);
    }
  }

  lemma Regroup(a: string, b: string, c: string, d: string)
    ensures var s, j := a + (b + c + d), |a| + |b|;
      s == a + b + c + d && s[j..j + |c|] == c && (j + |c| < |s| ==> d != "" && s[j + |c|] == d[0])
  {
  }

  lemma GapThen(pre: string, ts: seq<Tok>, gaps: seq<string>)
    requires Laid(ts, gaps)
    ensures SkipSpace(pre + Render(ts, gaps), |pre|) == |pre| + |gaps[0]|
  {
    var s, j := pre + Render(ts, gaps), |pre| + |gaps[0]|;
    assert Blank(gaps[0]);
    if ts != [] {
      assert WfTok(ts[0]);
      assert s[j] == ts[0].text[0];
    }
    forall k | |pre| <= k < j ensures IsSpace(s[k]) { assert s[k] == gaps[0][k - |pre|]; }
    SkipGap(s, |pre|, j);
  }

  /** The character after the first token does not go on with it. */
  lemma NotStuck(ts: seq<Tok>, gaps: seq<string>)
    requires Laid(ts, gaps) && ts != [] && Laid(ts[1..], gaps[1..])
    ensures var r := Render(ts[1..], gaps[1..]);
      r != "" ==> (ts[0].kind == 'a' ==> !IsWordChar(r[0])) && (ts[0].kind == '>' ==> r[0] != '>')
  {
    RenderStart(ts[1..], gaps[1..]);
    if |ts| > 1 {
      assert ts[1..][0] == ts[1] && gaps[1..][0] == gaps[1];
      assert WfTok(ts[1]);
    }
  }
}
