/** user/sh.c: the parser as it runs over the characters of the line. */
module ShellCode {
  import opened Shell
  import opened ShellParse

  /** A word of the line: from q up to eq. */
  datatype Span = Span(q: nat, eq: nat)

  /** A whole word, which ends before a space, a symbol or the end of the line. */
  predicate IsWord(s: string, w: Span) {
    && w.q < w.eq <= |s| && (w.eq < |s| ==> !IsWordChar(s[w.eq]))
    && forall i | w.q <= i < w.eq :: IsWordChar(s[i])
  }

  predicate Spans(s: string, c: Cmd<Span>) {
    match c
    case Exec(argv) => forall i | 0 <= i < |argv| :: IsWord(s, argv[i])
    case Redir(cmd, file, mode, fd) => Spans(s, cmd) && IsWord(s, file)
    case Pipe(l, r) => Spans(s, l) && Spans(s, r)
    case List(l, r) => Spans(s, l) && Spans(s, r)
    case Back(cmd) => Spans(s, cmd)
  }

  function Text(s: string, w: Span): string
    requires IsWord(s, w)
  {
    s[w.q..w.eq]
  }

  function Texts(s: string, argv: seq<Span>): seq<string>
    requires forall i | 0 <= i < |argv| :: IsWord(s, argv[i])
  {
    seq(|argv|, i requires 0 <= i < |argv| => Text(s, argv[i]))
  }

  /** The command that the words of the line spell. */
  function Erase(s: string, c: Cmd<Span>): Cmd<string>
    requires Spans(s, c)
  {
    match c
    case Exec(argv) => Exec(Texts(s, argv))
    case Redir(cmd, file, mode, fd) => Redir(Erase(s, cmd), Text(s, file), mode, fd)
    case Pipe(l, r) => Pipe(Erase(s, l), Erase(s, r))
    case List(l, r) => List(Erase(s, l), Erase(s, r))
    case Back(cmd) => Back(Erase(s, cmd))
  }

  predicate IoSpans(s: string, ios: seq<Io<Span>>) {
    forall i | 0 <= i < |ios| :: IsWord(s, ios[i].file)
  }

  function EraseIos(s: string, ios: seq<Io<Span>>): seq<Io<string>>
    requires IoSpans(s, ios)
  {
    seq(|ios|, i requires 0 <= i < |ios| => Io(ios[i].c, Text(s, ios[i].file)))
  }

  lemma {:induction false} EraseWrap(s: string, c: Cmd<Span>, ios: seq<Io<Span>>)
    requires Spans(s, c) && IoSpans(s, ios)
    ensures Spans(s, Wrap(c, ios)) && Erase(s, Wrap(c, ios)) == Wrap(Erase(s, c), EraseIos(s, ios))
    decreases |ios|
  {
    if |ios| > 0 {
      var n := |ios| - 1;
      EraseWrap(s, c, ios[..n]);
      assert EraseIos(s, ios)[..n] == EraseIos(s, ios[..n]);
    }
  }

  // ------------------------------------------------- characters

  /** The character a token starts with. */
  lemma LexAt(s: string, p: nat)
    requires p <= |s|
    ensures var q, ts := Skip(s, p), Lex(s, p);
      && (ts == [] <==> q == |s|)
      && (q < |s| ==> (ts[0].Word? <==> !IsSym(s[q])) && (AtRedir(ts) <==> s[q] == '<' || s[q] == '>'))
      && (q < |s| ==> forall c | IsSym(c) && c != '>' :: At(ts, c) <==> s[q] == c)
  { }

  /** gettoken() */
  method Gettoken(s: string, ps: nat) returns (ret: char, w: Span, p: nat)
    requires ps <= |s|
    ensures p <= |s| && (Lex(s, ps) == [] <==> ret == '\0')
    ensures Lex(s, ps) == [] ==> Lex(s, p) == []
    ensures Lex(s, ps) != [] ==> Lex(s, p) == Lex(s, ps)[1..]
    ensures Lex(s, ps) != [] && Lex(s, ps)[0].Sym? ==> ret == Lex(s, ps)[0].c && ret != 'a'
    ensures Lex(s, ps) != [] && Lex(s, ps)[0].Word? ==> ret == 'a' && IsWord(s, w) && Text(s, w) == Lex(s, ps)[0].w
  {
    hide Lex;
    p := Blanks(s, ps);
    LexSkips(s, ps, p);
    var q := p;
    if p == |s| {
      LexEnd(s);
      ret := '\0';
    } else if s[p] == '|' || s[p] == '(' || s[p] == ')' || s[p] == ';' || s[p] == '&' || s[p] == '<' {
      LexSym(s, p);
      ret := s[p];
      p := p + 1;
    } else if s[p] == '>' {
      ret := s[p];
      p := p + 1;
      if p < |s| && s[p] == '>' {
        LexAppend(s, q);
        ret := '+';
        p := p + 1;
      } else {
        LexSym(s, q);
      }
    } else {
      LexWordAt(s, p);
      ret := 'a';
      p := WordAt(s, p);
    }
    w := Span(q, p);
    var e := p;
    p := Blanks(s, p);
    LexSkips(s, e, p);
  }

  method WordAt(s: string, q: nat) returns (p: nat)
    requires q <= |s|
    ensures p == WordEnd(s, q)
  {
    p := q;
    while p < |s| && !IsSpace(s[p]) && !IsSym(s[p])
      invariant q <= p <= |s| && WordEnd(s, q) == WordEnd(s, p)
    {
      p := p + 1;
    }
  }

  method Blanks(s: string, ps: nat) returns (p: nat)
    requires ps <= |s|
    ensures p == Skip(s, ps)
  {
    p := ps;
    while p < |s| && IsSpace(s[p])
      invariant ps <= p <= |s| && Skip(s, p) == Skip(s, ps)
    {
      p := p + 1;
    }
  }

  /** peek() */
  method Peek(s: string, ps: nat, toks: string) returns (b: bool, p: nat)
    requires ps <= |s|
    ensures p == Skip(s, ps) && Lex(s, p) == Lex(s, ps)
    ensures b <==> p < |s| && s[p] in toks
  {
    p := Blanks(s, ps);
    LexSkips(s, ps, p);
    b := p < |s| && s[p] in toks;
  }

  // ------------------------------------------------- the parser

  /** A parse that failed, or the command and where the rest of the line begins. */
  datatype Parse = Error | Parsed(cmd: Cmd<Span>, p: nat)

  /** The parse is the one the grammar gives. */
  ghost predicate Agrees(s: string, r: Parse, spec: Res) {
    && (r.Error? <==> spec.Fail?)
    && (r.Parsed? ==> r.p <= |s| && Spans(s, r.cmd) && Erase(s, r.cmd) == spec.cmd && Lex(s, r.p) == spec.rest)
  }

  /** parseredirs(): the redirections read after those in ios0. */
  method Parseredirs(s: string, ps: nat, ios0: seq<Io<Span>>) returns (ok: bool, ios: seq<Io<Span>>, p: nat)
    requires ps <= |s| && IoSpans(s, ios0)
    ensures ok <==> ParseRedirs(EraseIos(s, ios0), Lex(s, ps)).Ios?
    ensures ok ==>
      p <= |s| && IoSpans(s, ios) && ParseRedirs(EraseIos(s, ios0), Lex(s, ps)) == Ios(EraseIos(s, ios), Lex(s, p))
  {
    hide Lex;
    ios := ios0;
    var more, tok, w;
    LexAt(s, ps);
    more, p := Peek(s, ps, "<>");
    while more
      invariant p <= |s| && IoSpans(s, ios) && (more <==> AtRedir(Lex(s, p)))
      invariant ParseRedirs(EraseIos(s, ios0), Lex(s, ps)) == ParseRedirs(EraseIos(s, ios), Lex(s, p))
      decreases |Lex(s, p)|
    {
      ghost var ts := Lex(s, p);
      tok, w, p := Gettoken(s, p);
      var ret;
      ret, w, p := Gettoken(s, p);
      if ret != 'a' { return false, ios, p; }
      assert EraseIos(s, ios + [Io(tok, w)]) == EraseIos(s, ios) + [Io(ts[0].c, ts[1].w)];
      assert ts[1..][1..] == ts[2..];
      ios := ios + [Io(tok, w)];
      LexAt(s, p);
      more, p := Peek(s, p, "<>");
    }
    ok := true;
  }

  /** The loop of parseexec(): arguments and redirections in any order. */
  method Parseargs(s: string, ps: nat, ios0: seq<Io<Span>>) returns (r: Parse)
    requires ps <= |s| && IoSpans(s, ios0)
    ensures Agrees(s, r, ParseArgs([], EraseIos(s, ios0), Lex(s, ps)))
  {
    hide Lex, ParseRedirs, Wrap;
    var argv: seq<Span>, ios, p: nat := [], ios0, ps;
    assert Texts(s, argv) == [];
    LexAt(s, p);
    var stop;
    stop, p := Peek(s, p, "|)&;");
    while !stop
      invariant p <= |s| && IoSpans(s, ios) && (forall i | 0 <= i < |argv| :: IsWord(s, argv[i])) && |argv| < MAXARGS
      invariant stop <==> p < |s| && s[p] in "|)&;"
      invariant Skip(s, p) == p
      invariant ParseArgs([], EraseIos(s, ios0), Lex(s, ps)) == ParseArgs(Texts(s, argv), EraseIos(s, ios), Lex(s, p))
      decreases |Lex(s, p)|
    {
      ghost var ts := Lex(s, p);
      LexAt(s, p);
      ArgsStops(s, p, ts);
      var tok, w, p' := Gettoken(s, p);
      if tok == '\0' { break; }
      if tok != 'a' { return Error; }
      assert Texts(s, argv + [w]) == Texts(s, argv) + [ts[0].w];
      argv := argv + [w];
      if |argv| >= MAXARGS { return Error; }
      var ok;
      ok, ios, p := Parseredirs(s, p', ios);
      if !ok { return Error; }
      SkipTwice(s, p, Skip(s, p));
      stop, p := Peek(s, p, "|)&;");
    }
    LexAt(s, p);
    ArgsStops(s, p, Lex(s, p));
    EraseWrap(s, Exec(argv), ios);
    return Parsed(Wrap(Exec(argv), ios), p);
  }

  lemma ArgsStops(s: string, p: nat, ts: seq<Tok>)
    requires p <= |s| && Skip(s, p) == p && ts == Lex(s, p)
    ensures (p < |s| && s[p] in "|)&;") <==> At(ts, '|') || At(ts, ')') || At(ts, '&') || At(ts, ';')
  {
    LexAt(s, p);
  }

  /** parseexec() */
  method Parseexec(s: string, ps: nat) returns (r: Parse)
    requires ps <= |s|
    ensures Agrees(s, r, ParseExec(Lex(s, ps)))
    decreases |Lex(s, ps)|, 1
  {
    hide Lex, ParseRedirs, ParseArgs, Wrap;
    LexAt(s, ps);
    var block, p := Peek(s, ps, "(");
    if block {
      r := Parseblock(s, p);
      return;
    }
    var ok, ios;
    ok, ios, p := Parseredirs(s, p, []);
    assert EraseIos(s, []) == [];
    if !ok { return Error; }
    r := Parseargs(s, p, ios);
  }

  /** parseblock() */
  method Parseblock(s: string, ps: nat) returns (r: Parse)
    requires ps <= |s| && At(Lex(s, ps), '(')
    ensures Agrees(s, r, ParseExec(Lex(s, ps)))
    decreases |Lex(s, ps)|, 0
  {
    hide Lex, ParseRedirs, ParseArgs, Wrap;
    var tok, w, p := Gettoken(s, ps);
    r := Parseline(s, p);
    if r.Error? { return; }
    LexAt(s, r.p);
    var closed;
    closed, p := Peek(s, r.p, ")");
    if !closed { return Error; }
    tok, w, p := Gettoken(s, p);
    var ok, ios;
    ok, ios, p := Parseredirs(s, p, []);
    assert EraseIos(s, []) == [];
    if !ok { return Error; }
    EraseWrap(s, r.cmd, ios);
    return Parsed(Wrap(r.cmd, ios), p);
  }

  /** parsepipe() */
  method Parsepipe(s: string, ps: nat) returns (r: Parse)
    requires ps <= |s|
    ensures Agrees(s, r, ParsePipe(Lex(s, ps)))
    decreases |Lex(s, ps)|, 2
  {
    hide Lex, ParseExec;
    r := Parseexec(s, ps);
    if r.Error? { return; }
    LexAt(s, r.p);
    var bar, p := Peek(s, r.p, "|");
    if bar {
      var tok, w;
      tok, w, p := Gettoken(s, p);
      var right := Parsepipe(s, p);
      if right.Error? { return Error; }
      return Parsed(Pipe(r.cmd, right.cmd), right.p);
    }
  }

  /** parseline() */
  method Parseline(s: string, ps: nat) returns (r: Parse)
    requires ps <= |s|
    ensures Agrees(s, r, ParseLine(Lex(s, ps)))
    decreases |Lex(s, ps)|, 3
  {
    hide Lex, ParsePipe;
    r := Parsepipe(s, ps);
    if r.Error? { return; }
    ghost var first := ParsePipe(Lex(s, ps));
    var cmd, p: nat := r.cmd, r.p;
    var tok, w;
    LexAt(s, p);
    var more;
    more, p := Peek(s, p, "&");
    while more
      invariant p <= |s| && Spans(s, cmd) && (more <==> At(Lex(s, p), '&'))
      invariant ParseBacks(first.cmd, first.rest) == ParseBacks(Erase(s, cmd), Lex(s, p))
      decreases |Lex(s, p)|
    {
      tok, w, p := Gettoken(s, p);
      cmd := Back(cmd);
      LexAt(s, p);
      more, p := Peek(s, p, "&");
    }
    LexAt(s, p);
    var list;
    list, p := Peek(s, p, ";");
    if list {
      tok, w, p := Gettoken(s, p);
      var right := Parseline(s, p);
      if right.Error? { return Error; }
      return Parsed(List(cmd, right.cmd), right.p);
    }
    return Parsed(cmd, p);
  }

  // ------------------------------------------------- strings in the buffer

  /** The C string at q. */
  function CStr(b: seq<char>, q: nat): (w: string)
    ensures q + |w| <= |b| || w == ""
    decreases |b| - q
  {
    if q >= |b| || b[q] == '\0' then "" else [b[q]] + CStr(b, q + 1)
  }

  /** The command as runcmd() sees it: its words read from the buffer as C strings. */
  function View(b: seq<char>, c: Cmd<Span>): Cmd<string> {
    match c
    case Exec(argv) => Exec(seq(|argv|, i requires 0 <= i < |argv| => CStr(b, argv[i].q)))
    case Redir(cmd, file, mode, fd) => Redir(View(b, cmd), CStr(b, file.q), mode, fd)
    case Pipe(l, r) => Pipe(View(b, l), View(b, r))
    case List(l, r) => List(View(b, l), View(b, r))
    case Back(cmd) => Back(View(b, cmd))
  }

  /** Where the words of a command end. */
  ghost predicate EndsAt(c: Cmd<Span>, x: nat) {
    match c
    case Exec(argv) => exists i | 0 <= i < |argv| :: argv[i].eq == x
    case Redir(cmd, file, mode, fd) => EndsAt(cmd, x) || file.eq == x
    case Pipe(l, r) => EndsAt(l, x) || EndsAt(r, x)
    case List(l, r) => EndsAt(l, x) || EndsAt(r, x)
    case Back(cmd) => EndsAt(cmd, x)
  }

  /** nulterminate(): a NUL after every word, and nothing else. */
  method Nulterminate(s: string, buf: array<char>, c: Cmd<Span>)
    requires Spans(s, c) && |s| < buf.Length
    modifies buf
    ensures forall x | 0 <= x < buf.Length :: buf[x] == if EndsAt(c, x) then '\0' else old(buf[x])
    decreases c
  {
    match c
    case Exec(argv) =>
      for i := 0 to |argv|
        invariant forall x | 0 <= x < buf.Length :: buf[x] == if EndsAt(Exec(argv[..i]), x) then '\0' else old(buf[x])
      {
        buf[argv[i].eq] := '\0';
        EndsMore(argv, i);
      }
      assert argv[..|argv|] == argv;
    case Redir(cmd, file, mode, fd) =>
      Nulterminate(s, buf, cmd);
      buf[file.eq] := '\0';
    case Pipe(l, r) =>
      Nulterminate(s, buf, l);
      Nulterminate(s, buf, r);
    case List(l, r) =>
      Nulterminate(s, buf, l);
      Nulterminate(s, buf, r);
    case Back(cmd) =>
      Nulterminate(s, buf, cmd);
  }

  lemma EndsMore(argv: seq<Span>, i: nat)
    requires i < |argv|
    ensures forall x: nat :: EndsAt(Exec(argv[..i + 1]), x) <==> EndsAt(Exec(argv[..i]), x) || x == argv[i].eq
  {
    forall x: nat ensures EndsAt(Exec(argv[..i + 1]), x) <==> EndsAt(Exec(argv[..i]), x) || x == argv[i].eq {
      assert argv[..i + 1] == argv[..i] + [argv[i]];
      if x == argv[i].eq { assert argv[..i + 1][i].eq == x; }
      if EndsAt(Exec(argv[..i]), x) {
        var j :| 0 <= j < i && argv[..i][j].eq == x;
        assert argv[..i + 1][j].eq == x;
      }
    }
  }

  lemma {:induction false} CStrIs(b: seq<char>, q: nat, e: nat)
    requires q <= e < |b| && b[e] == '\0' && forall i | q <= i < e :: b[i] != '\0'
    ensures CStr(b, q) == b[q..e]
    decreases e - q
  {
    if q < e {
      CStrIs(b, q + 1, e);
      assert b[q..e] == [b[q]] + b[q + 1..e];
    }
  }

  /** The buffer holds the line, cut at places that are not inside any word. */
  ghost predicate Cut(s: string, b: seq<char>) {
    && |s| < |b| && b[|s|] == '\0' && '\0' !in s
    && forall x | 0 <= x < |s| && IsWordChar(s[x]) :: b[x] == s[x]
  }

  lemma WordRead(s: string, b: seq<char>, w: Span)
    requires Cut(s, b) && IsWord(s, w) && b[w.eq] == '\0'
    ensures CStr(b, w.q) == Text(s, w)
  {
    forall i | w.q <= i < w.eq ensures b[i] == s[i] && b[i] != '\0' { assert IsWordChar(s[i]) && s[i] in s; }
    CStrIs(b, w.q, w.eq);
  }

  /** With a NUL after every word the buffer reads as the command that was parsed. */
  lemma {:induction false} ViewIsErase(s: string, b: seq<char>, c: Cmd<Span>)
    requires Cut(s, b) && Spans(s, c) && forall x | 0 <= x < |b| && EndsAt(c, x) :: b[x] == '\0'
    ensures View(b, c) == Erase(s, c)
  {
    match c
    case Exec(argv) =>
      forall i | 0 <= i < |argv| ensures CStr(b, argv[i].q) == Text(s, argv[i]) {
        assert EndsAt(c, argv[i].eq);
        WordRead(s, b, argv[i]);
      }
    case Redir(cmd, file, mode, fd) =>
      ViewIsErase(s, b, cmd);
      WordRead(s, b, file);
    case Pipe(l, r) =>
      ViewIsErase(s, b, l);
      ViewIsErase(s, b, r);
    case List(l, r) =>
      ViewIsErase(s, b, l);
      ViewIsErase(s, b, r);
    case Back(cmd) =>
      ViewIsErase(s, b, cmd);
  }

  /** No word of the line contains the end of another. */
  lemma {:induction false} EndsBetween(s: string, c: Cmd<Span>, x: nat)
    requires Spans(s, c) && EndsAt(c, x)
    ensures x <= |s| && (x < |s| ==> !IsWordChar(s[x]))
  {
    match c
    case Exec(argv) =>
    case Redir(cmd, file, mode, fd) => if EndsAt(cmd, x) { EndsBetween(s, cmd, x); }
    case Pipe(l, r) => if EndsAt(l, x) { EndsBetween(s, l, x); } else { EndsBetween(s, r, x); }
    case List(l, r) => if EndsAt(l, x) { EndsBetween(s, l, x); } else { EndsBetween(s, r, x); }
    case Back(cmd) => EndsBetween(s, cmd, x);
  }

  method Strlen(buf: array<char>) returns (n: nat)
    requires '\0' in buf[..]
    ensures n < buf.Length && buf[n] == '\0' && '\0' !in buf[..n]
  {
    n := 0;
    while buf[n] != '\0'
      invariant n < buf.Length && '\0' !in buf[..n] && '\0' in buf[n..]
      decreases buf.Length - n
    {
      assert buf[n..][1..] == buf[n + 1..] && buf[..n + 1] == buf[..n] + [buf[n]];
      n := n + 1;
    }
  }

  /** parsecmd(): fails exactly when the grammar does; otherwise the words in the buffer are now
      C strings and the command they make up is the one the grammar gives. */
  method Parsecmd(buf: array<char>) returns (r: Parse)
    requires '\0' in buf[..]
    modifies buf
    ensures exists n | 0 <= n < buf.Length ::
      old(buf[n]) == '\0' && '\0' !in old(buf[..n]) && Reads(old(buf[..n]), r, buf[..])
  {
    var n := Strlen(buf);
    var s := buf[..n];
    hide Lex, ParseLine;
    r := Parseline(s, 0);
    if r.Error? {
      assert Reads(s, r, buf[..]);
      return;
    }
    LexAt(s, r.p);
    var b, p := Peek(s, r.p, "");
    if p != |s| {
      assert Reads(s, Error, buf[..]);
      return Error;
    }
    Nulterminate(s, buf, r.cmd);
    forall x | 0 <= x < |s| && IsWordChar(s[x]) ensures buf[..][x] == s[x] {
      if EndsAt(r.cmd, x) { EndsBetween(s, r.cmd, x); }
    }
    ViewIsErase(s, buf[..], r.cmd);
    assert Reads(s, r, buf[..]);
  }

  ghost predicate Reads(line: string, r: Parse, after: seq<char>) {
    match ParseCmd(Lex(line, 0))
    case Fail => r.Error?
    case Ok(cmd, rest) => r.Parsed? && View(after, r.cmd) == cmd
  }
}
