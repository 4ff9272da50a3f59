/** user/sh.c: the grammar of the shell, printing and parsing. */
module Shell {
  const MAXARGS: nat := 10
  const O_RDONLY: nat := 0
  const O_WRONLY_CREATE: nat := 0x201

  datatype Cmd<W> =
    | Exec(argv: seq<W>)
    | Redir(cmd: Cmd<W>, file: W, mode: nat, fd: nat)
    | Pipe(left: Cmd<W>, right: Cmd<W>)
    | List(left: Cmd<W>, right: Cmd<W>)
    | Back(cmd: Cmd<W>)

  /** Tokens as gettoken() reports them; '+' is >>. */
  datatype Tok = Sym(c: char) | Word(w: string)

  datatype Res = Fail | Ok(cmd: Cmd<string>, rest: seq<Tok>)

  predicate At(ts: seq<Tok>, c: char) {
    ts != [] && ts[0] == Sym(c)
  }

  predicate AtRedir(ts: seq<Tok>) {
    At(ts, '<') || At(ts, '>') || At(ts, '+')
  }

  // ------------------------------------------------- parsing

  /** cmd wrapped by one redirection. */
  function Redirect<W>(cmd: Cmd<W>, c: char, file: W): Cmd<W> {
    if c == '<' then Redir(cmd, file, O_RDONLY, 0) else Redir(cmd, file, O_WRONLY_CREATE, 1)
  }

  /** A redirection as it is read: its symbol and file. */
  datatype Io<W> = Io(c: char, file: W)

  function Wrap<W>(cmd: Cmd<W>, ios: seq<Io<W>>): Cmd<W> {
    if |ios| == 0 then cmd else Redirect(Wrap(cmd, ios[..|ios| - 1]), ios[|ios| - 1].c, ios[|ios| - 1].file)
  }

  datatype IoRes = NoFile | Ios(ios: seq<Io<string>>, rest: seq<Tok>)

  /** parseredirs() */
  function ParseRedirs(ios: seq<Io<string>>, ts: seq<Tok>): (r: IoRes)
    ensures r.Ios? ==> |r.rest| <= |ts|
    decreases |ts|
  {
    if !AtRedir(ts) then Ios(ios, ts)
    else if |ts| < 2 || !ts[1].Word? then NoFile
    else ParseRedirs(ios + [Io(ts[0].c, ts[1].w)], ts[2..])
  }

  /** The loop of parseexec(), after argv and ios have been read. */
  function ParseArgs(argv: seq<string>, ios: seq<Io<string>>, ts: seq<Tok>): (r: Res)
    ensures r.Ok? ==> |r.rest| <= |ts|
    decreases |ts|
  {
    if ts == [] || At(ts, '|') || At(ts, ')') || At(ts, '&') || At(ts, ';') then Ok(Wrap(Exec(argv), ios), ts)
    else if !ts[0].Word? || |argv| + 1 >= MAXARGS then Fail
    else
      match ParseRedirs(ios, ts[1..])
      case NoFile => Fail
      case Ios(ios', rest) => ParseArgs(argv + [ts[0].w], ios', rest)
  }

  /** parseexec() and parseblock() */
  function ParseExec(ts: seq<Tok>): (r: Res)
    ensures r.Ok? ==> |r.rest| <= |ts|
    decreases |ts|, 0
  {
    if At(ts, '(') then
      match ParseLine(ts[1..])
      case Fail => Fail
      case Ok(cmd, rest) =>
        if !At(rest, ')') then Fail
        else
          match ParseRedirs([], rest[1..])
          case NoFile => Fail
          case Ios(ios, rest') => Ok(Wrap(cmd, ios), rest')
    else
      match ParseRedirs([], ts)
      case NoFile => Fail
      case Ios(ios, rest) => ParseArgs([], ios, rest)
  }

  /** parsepipe() */
  function ParsePipe(ts: seq<Tok>): (r: Res)
    ensures r.Ok? ==> |r.rest| <= |ts|
    decreases |ts|, 1
  {
    match ParseExec(ts)
    case Fail => Fail
    case Ok(left, rest) =>
      if !At(rest, '|') then Ok(left, rest)
      else
        match ParsePipe(rest[1..])
        case Fail => Fail
        case Ok(right, rest') => Ok(Pipe(left, right), rest')
  }

  /** The loop of parseline() over &. */
  function ParseBacks(cmd: Cmd<string>, ts: seq<Tok>): (r: Res)
    ensures r.Ok? && |r.rest| <= |ts|
    decreases |ts|
  {
    if At(ts, '&') then ParseBacks(Back(cmd), ts[1..]) else Ok(cmd, ts)
  }

  /** parseline() */
  function ParseLine(ts: seq<Tok>): (r: Res)
    ensures r.Ok? ==> |r.rest| <= |ts|
    decreases |ts|, 2
  {
    match ParsePipe(ts)
    case Fail => Fail
    case Ok(cmd, rest) =>
      var b := ParseBacks(cmd, rest);
      if !At(b.rest, ';') then b
      else
        match ParseLine(b.rest[1..])
        case Fail => Fail
        case Ok(right, rest') => Ok(List(b.cmd, right), rest')
  }

  /** parsecmd(): the whole line. */
  function ParseCmd(ts: seq<Tok>): Res {
    match ParseLine(ts)
    case Fail => Fail
    case Ok(cmd, rest) => if rest == [] then Ok(cmd, []) else Fail
  }

  // ------------------------------------------------- printing

  function Rank(c: Cmd<string>, level: nat): nat
    requires level < 4
  {
    var first := if c.List? then 0 else if c.Back? then 1 else if c.Pipe? then 2 else 3;
    if level <= first then first - level else first + 4 - level
  }

  function Words(argv: seq<string>): seq<Tok> {
    seq(|argv|, i requires 0 <= i < |argv| => Word(argv[i]))
  }

  function RedirToks(mode: nat, file: string): seq<Tok> {
    [Sym(if mode == O_RDONLY then '<' else '>'), Word(file)]
  }

  /** Each level puts what belongs to a lower one in parentheses. */
  function ShowLine(c: Cmd<string>): seq<Tok>
    decreases c, Rank(c, 0)
  {
    if c.List? then ShowBack(c.left) + [Sym(';')] + ShowLine(c.right) else ShowBack(c)
  }

  function ShowBack(c: Cmd<string>): seq<Tok>
    decreases c, Rank(c, 1)
  {
    if c.Back? then ShowBack(c.cmd) + [Sym('&')] else ShowPipe(c)
  }

  function ShowPipe(c: Cmd<string>): seq<Tok>
    decreases c, Rank(c, 2)
  {
    if c.Pipe? then ShowExec(c.left) + [Sym('|')] + ShowPipe(c.right) else ShowExec(c)
  }

  function ShowExec(c: Cmd<string>): seq<Tok>
    decreases c, Rank(c, 3)
  {
    match c
    case Exec(argv) => Words(argv)
    case Redir(cmd, file, mode, fd) => ShowExec(cmd) + RedirToks(mode, file)
    case _ => [Sym('(')] + ShowLine(c) + [Sym(')')]
  }
}
