/** user/sh.c: tokens of a line, the parser over the characters, and nulterminate(). */
module ShellParse {
  import opened Shell
  import opened ShellRoundTrip

  // ------------------------------------------------- tokens

  predicate IsSpace(c: char) {
    c in " \t\r\n\U{0b}"
  }

  predicate IsSym(c: char) {
    c in "<|>&;()"
  }

  predicate IsWordChar(c: char) {
    !IsSpace(c) && !IsSym(c)
  }

  function Skip(s: string, p: nat): (q: nat)
    requires p <= |s|
    ensures p <= q <= |s| && (q < |s| ==> !IsSpace(s[q])) && forall i | p <= i < q :: IsSpace(s[i])
    decreases |s| - p
  {
    if p < |s| && IsSpace(s[p]) then Skip(s, p + 1) else p
  }

  function WordEnd(s: string, p: nat): (q: nat)
    requires p <= |s|
    ensures p <= q <= |s| && (q < |s| ==> !IsWordChar(s[q])) && (forall i | p <= i < q :: IsWordChar(s[i]))
    ensures p < |s| && IsWordChar(s[p]) ==> p < q
    decreases |s| - p
  {
    if p < |s| && IsWordChar(s[p]) then WordEnd(s, p + 1) else p
  }

  /** The tokens of the line from p on. */
  function Lex(s: string, p: nat): seq<Tok>
    requires p <= |s|
    decreases |s| - p
  {
    var q := Skip(s, p);
    if q == |s| then []
    else if s[q] == '>' && q + 1 < |s| && s[q + 1] == '>' then [Sym('+')] + Lex(s, q + 2)
    else if IsSym(s[q]) then [Sym(s[q])] + Lex(s, q + 1)
    else [Word(s[q..WordEnd(s, q)])] + Lex(s, WordEnd(s, q))
  }

  lemma {:induction false} SkipTwice(s: string, p: nat, q: nat)
    requires p <= q <= |s| && forall i | p <= i < q :: IsSpace(s[i])
    ensures Skip(s, p) == Skip(s, q)
    decreases q - p
  {
    if p < q { SkipTwice(s, p + 1, q); }
  }

  /** Spaces before a token do not matter. */
  lemma LexSkips(s: string, p: nat, q: nat)
    requires p <= q <= |s| && forall i | p <= i < q :: IsSpace(s[i])
    ensures Lex(s, p) == Lex(s, q)
  {
    hide IsSpace, IsSym, IsWordChar, WordEnd;
    SkipTwice(s, p, q);
    hide Skip;
  }

  // ------------------------------------------------- spelling tokens out

  predicate TokOk(t: Tok) {
    match t
    case Sym(c) => c == '+' || IsSym(c)
    case Word(w) => w != "" && forall i | 0 <= i < |w| :: IsWordChar(w[i]) && w[i] != '\0'
  }

  predicate ToksOk(ts: seq<Tok>) {
    forall i | 0 <= i < |ts| :: TokOk(ts[i])
  }

  function Spell(t: Tok): string {
    match t
    case Sym(c) => if c == '+' then ">>" else [c]
    case Word(w) => w
  }

  /** The line in which every token is followed by one space. */
  function Unlex(ts: seq<Tok>): string {
    if ts == [] then "" else Spell(ts[0]) + " " + Unlex(ts[1..])
  }

  lemma SpellFirst(t: Tok)
    requires TokOk(t)
    ensures Spell(t) != "" && !IsSpace(Spell(t)[0])
    ensures t.Sym? && t.c != '+' ==> IsSym(Spell(t)[0]) && |Spell(t)| == 1
    ensures t.Word? ==> IsWordChar(Spell(t)[0])
  { }

  lemma {:induction false} WordEndIs(s: string, p: nat, e: nat)
    requires p <= e < |s| && (forall i | p <= i < e :: IsWordChar(s[i])) && !IsWordChar(s[e])
    ensures WordEnd(s, p) == e
    decreases e - p
  {
    if p < e { WordEndIs(s, p + 1, e); }
  }

  lemma LexEnd(s: string)
    ensures Lex(s, |s|) == []
  { }

  lemma LexSym(s: string, p: nat)
    requires p < |s| && IsSym(s[p]) && !IsSpace(s[p]) && !(s[p] == '>' && p + 1 < |s| && s[p + 1] == '>')
    ensures Lex(s, p) == [Sym(s[p])] + Lex(s, p + 1)
  { }

  lemma LexAppend(s: string, p: nat)
    requires p + 1 < |s| && s[p] == '>' && s[p + 1] == '>'
    ensures Lex(s, p) == [Sym('+')] + Lex(s, p + 2)
  { }

  lemma LexWordAt(s: string, p: nat)
    requires p < |s| && IsWordChar(s[p])
    ensures Lex(s, p) == [Word(s[p..WordEnd(s, p)])] + Lex(s, WordEnd(s, p))
  {
    assert Skip(s, p) == p;
  }

  lemma LexWord(s: string, p: nat, e: nat)
    requires p < e < |s| && (forall i | p <= i < e :: IsWordChar(s[i])) && !IsWordChar(s[e])
    ensures Lex(s, p) == [Word(s[p..e])] + Lex(s, e)
  {
    WordEndIs(s, p, e);
    assert IsWordChar(s[p]) && Skip(s, p) == p;
  }

  lemma BlankIsSpace()
    ensures IsSpace(' ')
  { }

  lemma Middle(pre: string, w: string, post: string)
    requires w != ""
    ensures var s, p, e := (pre + w + " ") + post, |pre|, |pre| + |w|;
      s[p..e] == w && s[e] == ' ' && s[p] == s[p..e][0]
  { }

  lemma LexOneSym(s: string, p: nat, t: Tok)
    requires TokOk(t) && t.Sym? && p + |Spell(t)| < |s| && s[p..p + |Spell(t)|] == Spell(t) && s[p + |Spell(t)|] == ' '
    ensures Lex(s, p) == [t] + Lex(s, p + |Spell(t)|)
  {
    assert s[p] == s[p..p + |Spell(t)|][0];
    if t.c == '+' {
      assert s[p + 1] == s[p..p + 2][1];
      LexAppend(s, p);
    } else {
      LexSym(s, p);
    }
  }

  lemma LexOneWord(s: string, p: nat, w: string)
    requires TokOk(Word(w)) && p + |w| < |s| && s[p..p + |w|] == w && s[p + |w|] == ' '
    ensures Lex(s, p) == [Word(w)] + Lex(s, p + |w|)
  {
    hide Lex, WordEnd, Skip;
    forall i | p <= i < p + |w| ensures IsWordChar(s[i]) { assert s[i] == s[p..p + |w|][i - p]; }
    LexWord(s, p, p + |w|);
  }

  /** Reading one spelled token off a line. */
  lemma LexOneAt(s: string, p: nat, t: Tok)
    requires TokOk(t) && p + |Spell(t)| < |s| && s[p..p + |Spell(t)|] == Spell(t) && s[p + |Spell(t)|] == ' '
    ensures Lex(s, p) == [t] + Lex(s, p + |Spell(t)| + 1)
  {
    hide Lex, IsSym, IsSpace;
    var e := p + |Spell(t)|;
    BlankIsSpace();
    LexSkips(s, e, e + 1);
    if t.Sym? { LexOneSym(s, p, t); } else { LexOneWord(s, p, t.w); }
  }

  lemma {:induction false} LexOfUnlex(pre: string, ts: seq<Tok>)
    requires ToksOk(ts)
    ensures Lex(pre + Unlex(ts), |pre|) == ts
    decreases |ts|
  {
    hide Lex, Spell, TokOk;
    if ts == [] {
      assert pre + Unlex(ts) == pre;
      LexEnd(pre);
    } else {
      var next := pre + Spell(ts[0]) + " ";
      UnlexFirst(pre, ts);
      SpellFirst(ts[0]);
      Middle(pre, Spell(ts[0]), Unlex(ts[1..]));
      LexOneAt(next + Unlex(ts[1..]), |pre|, ts[0]);
      LexOfUnlex(next, ts[1..]);
      assert [ts[0]] + ts[1..] == ts;
    }
  }

  lemma UnlexFirst(pre: string, ts: seq<Tok>)
    requires ts != []
    ensures pre + Unlex(ts) == (pre + Spell(ts[0]) + " ") + Unlex(ts[1..])
  { }

  predicate WordsOk(c: Cmd<string>) {
    match c
    case Exec(argv) => forall i | 0 <= i < |argv| :: TokOk(Word(argv[i]))
    case Redir(cmd, file, mode, fd) => WordsOk(cmd) && TokOk(Word(file))
    case Pipe(l, r) => WordsOk(l) && WordsOk(r)
    case List(l, r) => WordsOk(l) && WordsOk(r)
    case Back(cmd) => WordsOk(cmd)
  }

  lemma {:induction false} ShowExecOk(c: Cmd<string>)
    requires WordsOk(c)
    ensures ToksOk(ShowExec(c))
    decreases c, Rank(c, 3)
  {
    match c
    case Exec(argv) =>
    case Redir(cmd, file, mode, fd) => ShowExecOk(cmd);
    case _ => ShowLineOk(c);
  }

  lemma {:induction false} ShowPipeOk(c: Cmd<string>)
    requires WordsOk(c)
    ensures ToksOk(ShowPipe(c))
    decreases c, Rank(c, 2)
  {
    if c.Pipe? {
      ShowExecOk(c.left);
      ShowPipeOk(c.right);
    } else {
      ShowExecOk(c);
    }
  }

  lemma {:induction false} ShowBackOk(c: Cmd<string>)
    requires WordsOk(c)
    ensures ToksOk(ShowBack(c))
    decreases c, Rank(c, 1)
  {
    if c.Back? { ShowBackOk(c.cmd); } else { ShowPipeOk(c); }
  }

  lemma {:induction false} ShowLineOk(c: Cmd<string>)
    requires WordsOk(c)
    ensures ToksOk(ShowLine(c))
    decreases c, Rank(c, 0)
  {
    if c.List? {
      ShowBackOk(c.left);
      ShowLineOk(c.right);
    } else {
      ShowBackOk(c);
    }
  }

  /** Every command can be typed: the line it is printed to parses to it. */
  lemma TypedBack(c: Cmd<string>)
    requires Valid(c) && WordsOk(c)
    ensures ParseCmd(Lex(Unlex(ShowLine(c)), 0)) == Ok(c, [])
  {
    ShowLineOk(c);
    LexOfUnlex("", ShowLine(c));
    assert "" + Unlex(ShowLine(c)) == Unlex(ShowLine(c));
    ParseOfShow(c);
  }
}
