/** user/sh.c: what is printed parses back, and what was parsed prints. */
module ShellRoundTrip {
  import opened Shell

  /** Trees the shell can build: few enough arguments, redirections as parseredirs() makes them. */
  predicate Valid(c: Cmd<string>) {
    match c
    case Exec(argv) => |argv| < MAXARGS
    case Redir(cmd, file, mode, fd) => Valid(cmd)
      && ((mode == O_RDONLY && fd == 0) || (mode == O_WRONLY_CREATE && fd == 1))
    case Pipe(l, r) => Valid(l) && Valid(r)
    case List(l, r) => Valid(l) && Valid(r)
    case Back(cmd) => Valid(cmd)
  }

  // ------------------------------------------------- redirections

  function Core(c: Cmd<string>): (d: Cmd<string>)
    ensures !d.Redir? && (d == c || d < c) && (Valid(c) ==> Valid(d))
  {
    if c.Redir? then Core(c.cmd) else c
  }

  function IosOf(c: Cmd<string>): seq<Io<string>> {
    if c.Redir? then IosOf(c.cmd) + [Io(if c.mode == O_RDONLY then '<' else '>', c.file)] else []
  }

  function IoToks(ios: seq<Io<string>>): seq<Tok> {
    if ios == [] then [] else [Sym(ios[0].c), Word(ios[0].file)] + IoToks(ios[1..])
  }

  predicate Plain(ios: seq<Io<string>>) {
    forall i | 0 <= i < |ios| :: ios[i].c == '<' || ios[i].c == '>'
  }

  lemma {:induction false} IoToksAppend(ios: seq<Io<string>>, io: Io<string>)
    ensures IoToks(ios + [io]) == IoToks(ios) + [Sym(io.c), Word(io.file)]
  {
    if ios == [] {
      assert ios + [io] == [io] && [io][1..] == [];
    } else {
      assert (ios + [io])[1..] == ios[1..] + [io];
      IoToksAppend(ios[1..], io);
    }
  }

  lemma TokAssoc(a: seq<Tok>, b: seq<Tok>, c: seq<Tok>)
    ensures (a + b) + c == a + (b + c) && a + [] == a
  { }

  lemma {:induction false} Unwrapped(c: Cmd<string>)
    requires Valid(c)
    ensures Wrap(Core(c), IosOf(c)) == c && Plain(IosOf(c))
  {
    if c.Redir? {
      Unwrapped(c.cmd);
      assert IosOf(c)[..|IosOf(c)| - 1] == IosOf(c.cmd);
    }
  }

  lemma {:induction false} UnwrapShow(c: Cmd<string>)
    ensures ShowExec(c) == ShowExec(Core(c)) + IoToks(IosOf(c))
  {
    hide ShowLine;
    if c.Redir? {
      UnwrapShow(c.cmd);
      var io := Io(if c.mode == O_RDONLY then '<' else '>', c.file);
      IoToksAppend(IosOf(c.cmd), io);
      TokAssoc(ShowExec(Core(c)), IoToks(IosOf(c.cmd)), [Sym(io.c), Word(io.file)]);
    } else {
      TokAssoc(ShowExec(c), [], []);
    }
  }

  lemma Unwrap(c: Cmd<string>)
    requires Valid(c)
    ensures Wrap(Core(c), IosOf(c)) == c && Plain(IosOf(c)) && ShowExec(c) == ShowExec(Core(c)) + IoToks(IosOf(c))
  {
    Unwrapped(c);
    UnwrapShow(c);
  }

  lemma {:induction false} RedirsBack(pre: seq<Io<string>>, ios: seq<Io<string>>, rest: seq<Tok>)
    requires Plain(ios) && !AtRedir(rest)
    ensures ParseRedirs(pre, IoToks(ios) + rest) == Ios(pre + ios, rest)
    decreases |ios|
  {
    if ios == [] {
      assert IoToks(ios) + rest == rest && pre + ios == pre;
    } else {
      var ts := IoToks(ios) + rest;
      assert ts[2..] == IoToks(ios[1..]) + rest;
      RedirsBack(pre + [ios[0]], ios[1..], rest);
      assert pre + [ios[0]] + ios[1..] == pre + ios;
      assert ios[0] == Io(ts[0].c, ts[1].w);
    }
  }

  // ------------------------------------------------- simple commands

  /** What may follow a simple command or a block. */
  predicate Follow(rest: seq<Tok>) {
    rest == [] || At(rest, '|') || At(rest, ')') || At(rest, '&') || At(rest, ';')
  }

  lemma NoRedirs(ios: seq<Io<string>>, ts: seq<Tok>)
    requires ts == [] || ts[0].Word? || Follow(ts)
    ensures ParseRedirs(ios, ts) == Ios(ios, ts) && !AtRedir(ts)
  { }

  lemma {:induction false} ArgsBack(argv: seq<string>, args: seq<string>, ios: seq<Io<string>>, rest: seq<Tok>)
    requires args != [] && |argv| + |args| < MAXARGS && Plain(ios) && Follow(rest)
    ensures ParseArgs(argv, [], Words(args) + (IoToks(ios) + rest)) == Ok(Wrap(Exec(argv + args), ios), rest)
    decreases |args|
  {
    hide ParseRedirs, IoToks, Wrap;
    NoRedirs(ios, rest);
    var ts, tail := Words(args) + (IoToks(ios) + rest), IoToks(ios) + rest;
    assert ts[0] == Word(args[0]);
    if |args| == 1 {
      assert ts[1..] == tail;
      RedirsBack([], ios, rest);
      assert [] + ios == ios && argv + [args[0]] == argv + args;
    } else {
      assert ts[1..] == Words(args[1..]) + tail;
      assert ts[1..][0] == Word(args[1]);
      NoRedirs([], ts[1..]);
      ArgsBack(argv + [args[0]], args[1..], ios, rest);
      assert argv + [args[0]] + args[1..] == argv + args;
    }
  }

  lemma NoBlock(ios: seq<Io<string>>, rest: seq<Tok>)
    requires Plain(ios) && Follow(rest)
    ensures !At(IoToks(ios) + rest, '(')
  { }

  lemma ArgsStop(argv: seq<string>, ios: seq<Io<string>>, rest: seq<Tok>)
    requires Follow(rest)
    ensures ParseArgs(argv, ios, rest) == Ok(Wrap(Exec(argv), ios), rest)
  { }

  lemma ExecPlain(ts: seq<Tok>)
    requires !At(ts, '(') && ParseRedirs([], ts).Ios?
    ensures ParseExec(ts) == ParseArgs([], ParseRedirs([], ts).ios, ParseRedirs([], ts).rest)
  {
    hide ParseRedirs, ParseArgs, ParseLine;
  }

  lemma SimpleBack(argv: seq<string>, ios: seq<Io<string>>, rest: seq<Tok>)
    requires |argv| < MAXARGS && Plain(ios) && Follow(rest)
    ensures ParseExec(Words(argv) + (IoToks(ios) + rest)) == Ok(Wrap(Exec(argv), ios), rest)
  {
    hide ParseRedirs, IoToks, Wrap, ParseLine, ParseArgs, ParseExec;
    NoRedirs(ios, rest);
    var ts := Words(argv) + (IoToks(ios) + rest);
    if argv == [] {
      assert ts == IoToks(ios) + rest;
      NoBlock(ios, rest);
      RedirsBack([], ios, rest);
      assert [] + ios == ios;
      ExecPlain(ts);
      ArgsStop([], ios, rest);
    } else {
      assert ts[0] == Word(argv[0]);
      NoRedirs([], ts);
      ExecPlain(ts);
      ArgsBack([], argv, ios, rest);
      assert [] + argv == argv;
    }
  }

  // ------------------------------------------------- the levels of the grammar

  lemma {:induction false} ExecBack(c: Cmd<string>, rest: seq<Tok>)
    requires Valid(c) && Follow(rest)
    ensures ParseExec(ShowExec(c) + rest) == Ok(c, rest)
    decreases c, Rank(c, 3)
  {
    var core, ios := Core(c), IosOf(c);
    Unwrap(c);
    hide ParseRedirs, IoToks, Wrap, ParseArgs, ParseLine, ShowLine;
    NoRedirs([], rest);
    assert ShowExec(c) + rest == ShowExec(core) + (IoToks(ios) + rest);
    if core.Exec? {
      SimpleBack(core.argv, ios, rest);
    } else {
      var after := [Sym(')')] + (IoToks(ios) + rest);
      LineBack(core, after);
      RedirsBack([], ios, rest);
      assert [] + ios == ios;
      BlockBack(core, ios, IoToks(ios) + rest, rest);
    }
  }

  /** A block in parentheses and what follows it. */
  lemma BlockBack(core: Cmd<string>, ios: seq<Io<string>>, tail: seq<Tok>, rest: seq<Tok>)
    requires !core.Exec? && !core.Redir?
      && ParseLine(ShowLine(core) + ([Sym(')')] + tail)) == Ok(core, [Sym(')')] + tail)
    requires ParseRedirs([], tail) == Ios(ios, rest)
    ensures ParseExec(ShowExec(core) + tail) == Ok(Wrap(core, ios), rest)
  {
    hide ParseRedirs, Wrap, ParseArgs, ParseLine, ShowLine;
    var after := [Sym(')')] + tail;
    var ts := ShowExec(core) + tail;
    assert ts == [Sym('(')] + (ShowLine(core) + after);
    assert ts[1..] == ShowLine(core) + after && after[1..] == tail;
  }

  lemma {:induction false} PipeBack(c: Cmd<string>, rest: seq<Tok>)
    requires Valid(c) && Follow(rest) && !At(rest, '|')
    ensures ParsePipe(ShowPipe(c) + rest) == Ok(c, rest)
    decreases c, Rank(c, 2)
  {
    if c.Pipe? {
      var after := [Sym('|')] + (ShowPipe(c.right) + rest);
      assert ShowPipe(c) + rest == ShowExec(c.left) + after;
      ExecBack(c.left, after);
      assert after[1..] == ShowPipe(c.right) + rest;
      PipeBack(c.right, rest);
    } else {
      ExecBack(c, rest);
    }
  }

  /** c is the command under all its &. */
  function Fore(c: Cmd<string>): (d: Cmd<string>)
    ensures !d.Back? && (d == c || d < c) && (Valid(c) ==> Valid(d))
  {
    if c.Back? then Fore(c.cmd) else c
  }

  function Backs(c: Cmd<string>): nat {
    if c.Back? then Backs(c.cmd) + 1 else 0
  }

  function Amps(n: nat): seq<Tok> {
    seq(n, _ => Sym('&'))
  }

  lemma {:induction false} ShowBacks(c: Cmd<string>)
    ensures ShowBack(c) == ShowPipe(Fore(c)) + Amps(Backs(c))
  {
    if c.Back? {
      ShowBacks(c.cmd);
      assert ShowBack(c) == ShowPipe(Fore(c)) + (Amps(Backs(c.cmd)) + [Sym('&')]);
      assert Amps(Backs(c)) == Amps(Backs(c.cmd)) + [Sym('&')];
    } else {
      assert ShowPipe(c) + Amps(0) == ShowPipe(c);
    }
  }

  function Backed(c: Cmd<string>, n: nat): Cmd<string>
    decreases n
  {
    if n == 0 then c else Backed(Back(c), n - 1)
  }

  lemma {:induction false} BackedLast(c: Cmd<string>, n: nat)
    ensures Backed(c, n + 1) == Back(Backed(c, n))
    decreases n
  {
    if n > 0 { BackedLast(Back(c), n - 1); }
  }

  lemma {:induction false} BacksBack(c: Cmd<string>, n: nat, rest: seq<Tok>)
    requires !At(rest, '&')
    ensures ParseBacks(c, Amps(n) + rest) == Ok(Backed(c, n), rest)
    decreases n
  {
    if n == 0 {
      assert Amps(n) + rest == rest;
    } else {
      assert (Amps(n) + rest)[1..] == Amps(n - 1) + rest;
      BacksBack(Back(c), n - 1, rest);
    }
  }

  lemma {:induction false} BackedFore(c: Cmd<string>)
    ensures Backed(Fore(c), Backs(c)) == c
  {
    if c.Back? {
      BackedFore(c.cmd);
      BackedLast(Fore(c), Backs(c.cmd));
    }
  }

  /** A command with its &, before a ; or the end. */
  lemma {:induction false} BackBack(c: Cmd<string>, rest: seq<Tok>)
    requires Valid(c) && (rest == [] || At(rest, ')') || At(rest, ';'))
    ensures var r := ParsePipe(ShowBack(c) + rest);
      r.Ok? && ParseBacks(r.cmd, r.rest) == Ok(c, rest)
    decreases c, Rank(c, 1)
  {
    var after := Amps(Backs(c)) + rest;
    ShowBacks(c);
    assert ShowBack(c) + rest == ShowPipe(Fore(c)) + after;
    PipeBack(Fore(c), after);
    BacksBack(Fore(c), Backs(c), rest);
    BackedFore(c);
  }

  lemma {:induction false} LineBack(c: Cmd<string>, rest: seq<Tok>)
    requires Valid(c) && (rest == [] || At(rest, ')'))
    ensures ParseLine(ShowLine(c) + rest) == Ok(c, rest)
    decreases c, Rank(c, 0)
  {
    if c.List? {
      var after := [Sym(';')] + (ShowLine(c.right) + rest);
      assert ShowLine(c) + rest == ShowBack(c.left) + after;
      BackBack(c.left, after);
      assert after[1..] == ShowLine(c.right) + rest;
      LineBack(c.right, rest);
    } else {
      BackBack(c, rest);
    }
  }

  /** Every command prints to a line that parses to it. */
  lemma ParseOfShow(c: Cmd<string>)
    requires Valid(c)
    ensures ParseCmd(ShowLine(c)) == Ok(c, [])
  {
    LineBack(c, []);
    assert ShowLine(c) + [] == ShowLine(c);
  }

  // ------------------------------------------------- what the parser returns

  lemma {:induction false} WrapValid(c: Cmd<string>, ios: seq<Io<string>>)
    requires Valid(c)
    ensures Valid(Wrap(c, ios))
    decreases |ios|
  {
    if ios != [] { WrapValid(c, ios[..|ios| - 1]); }
  }

  lemma {:induction false} ArgsValid(argv: seq<string>, ios: seq<Io<string>>, ts: seq<Tok>)
    requires |argv| < MAXARGS && ParseArgs(argv, ios, ts).Ok?
    ensures Valid(ParseArgs(argv, ios, ts).cmd)
    decreases |ts|
  {
    if Follow(ts) {
      WrapValid(Exec(argv), ios);
    } else {
      var r := ParseRedirs(ios, ts[1..]);
      ArgsValid(argv + [ts[0].w], r.ios, r.rest);
    }
  }

  lemma {:induction false} BacksValid(c: Cmd<string>, ts: seq<Tok>)
    requires Valid(c)
    ensures Valid(ParseBacks(c, ts).cmd)
    decreases |ts|
  {
    if At(ts, '&') { BacksValid(Back(c), ts[1..]); }
  }

  lemma {:induction false} ExecValid(ts: seq<Tok>)
    requires ParseExec(ts).Ok?
    ensures Valid(ParseExec(ts).cmd)
    decreases |ts|, 0
  {
    if At(ts, '(') {
      LineValid(ts[1..]);
      var r := ParseLine(ts[1..]);
      WrapValid(r.cmd, ParseRedirs([], r.rest[1..]).ios);
    } else {
      var r := ParseRedirs([], ts);
      ArgsValid([], r.ios, r.rest);
    }
  }

  lemma {:induction false} PipeValid(ts: seq<Tok>)
    requires ParsePipe(ts).Ok?
    ensures Valid(ParsePipe(ts).cmd)
    decreases |ts|, 1
  {
    ExecValid(ts);
    var r := ParseExec(ts);
    if At(r.rest, '|') { PipeValid(r.rest[1..]); }
  }

  lemma {:induction false} LineValid(ts: seq<Tok>)
    requires ParseLine(ts).Ok?
    ensures Valid(ParseLine(ts).cmd)
    decreases |ts|, 2
  {
    PipeValid(ts);
    var r := ParsePipe(ts);
    BacksValid(r.cmd, r.rest);
    var b := ParseBacks(r.cmd, r.rest);
    if At(b.rest, ';') { LineValid(b.rest[1..]); }
  }

  /** Printing what was parsed gives a line with the same meaning: parsing is idempotent. */
  lemma ShowOfParse(ts: seq<Tok>)
    requires ParseCmd(ts).Ok?
    ensures ParseCmd(ShowLine(ParseCmd(ts).cmd)) == ParseCmd(ts)
  {
    LineValid(ts);
    ParseOfShow(ParseCmd(ts).cmd);
  }
}
