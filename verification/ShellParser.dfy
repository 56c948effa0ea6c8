/** The command parser of the shell: tokens, commands and the recursive-descent parser.  A
    line is the sequence of characters before the terminating NUL. */
module ShellParser {

  const MAXARGS: nat := 10

  predicate IsWhite(c: char) {
    c == ' ' || c == '\t' || c == '\r' || c == '\n' || c == '\U{000B}'
  }

  predicate IsSymbol(c: char) {
    c == '<' || c == '|' || c == '>' || c == '&' || c == ';' || c == '(' || c == ')'
  }

  // ---- Tokens ----

  function SkipSpace(s: string, i: nat): (r: nat)
    requires i <= |s|
    ensures i <= r <= |s| && (r < |s| ==> !IsWhite(s[r]))
    decreases |s| - i
  {
    if i < |s| && IsWhite(s[i]) then SkipSpace(s, i + 1) else i
  }

  function WordEnd(s: string, i: nat): (r: nat)
    requires i <= |s|
    ensures i <= r <= |s|
    decreases |s| - i
  {
    if i < |s| && !IsWhite(s[i]) && !IsSymbol(s[i]) then WordEnd(s, i + 1) else i
  }

  /** A token: its kind (NUL at the end, `+` for `>>`, `a` for a word), the text s[q..eq], and
      where the next one starts. */
  datatype Token = Token(kind: char, q: nat, eq: nat, next: nat)

  /** gettoken. */
  function GetToken(s: string, i: nat): (t: Token)
    requires i <= |s|
    ensures i <= t.q <= t.eq <= t.next <= |s| && (t.kind != '\0' ==> i < t.next)
  {
    var q := SkipSpace(s, i);
    if q == |s| then Token('\0', q, q, q)
    else if s[q] == '>' then
      if q + 1 < |s| && s[q + 1] == '>' then Token('+', q, q + 2, SkipSpace(s, q + 2))
      else Token('>', q, q + 1, SkipSpace(s, q + 1))
    else if IsSymbol(s[q]) then Token(s[q], q, q + 1, SkipSpace(s, q + 1))
    else Token('a', q, WordEnd(s, q), SkipSpace(s, WordEnd(s, q)))
  }

  /** The character peek looks at, NUL at the end. */
  function Peek(s: string, i: nat): char
    requires i <= |s|
  {
    var j := SkipSpace(s, i);
    if j == |s| then '\0' else s[j]
  }

  // ---- Commands ----

  datatype Mode = Input | Truncate | Append

  datatype Cmd =
    | Exec(args: seq<string>)
    | Redir(cmd: Cmd, file: string, mode: Mode)
    | Pipe(left: Cmd, right: Cmd)
    | List(left: Cmd, right: Cmd)
    | Back(cmd: Cmd)

  datatype Redirection = Redirection(file: string, mode: Mode)

  /** The command with redirections around it, the first one innermost. */
  function Wrap(c: Cmd, rs: seq<Redirection>): Cmd {
    if rs == [] then c
    else
      var n := |rs| - 1;
      Redir(Wrap(c, rs[..n]), rs[n].file, rs[n].mode)
  }

  // ---- The parser; Panic stands for a call of panic ----

  datatype Result<T> = Ok(value: T, pos: nat) | Panic

  /** parseredirs, after the redirections `rs`. */
  function Redirs(s: string, i: nat, rs: seq<Redirection>): (r: Result<seq<Redirection>>)
    requires i <= |s|
    ensures r.Ok? ==> i <= r.pos <= |s|
    decreases |s| - i
  {
    if Peek(s, i) == '<' || Peek(s, i) == '>' then
      var t := GetToken(s, i);
      var f := GetToken(s, t.next);
      if f.kind != 'a' then Panic
      else
        var mode := if t.kind == '<' then Input else if t.kind == '>' then Truncate else Append;
        Redirs(s, f.next, rs + [Redirection(s[f.q..f.eq], mode)])
    else Ok(rs, SkipSpace(s, i))
  }

  /** parseline. */
  function ParseLine(s: string, i: nat): (r: Result<Cmd>)
    requires i <= |s|
    ensures r.Ok? ==> i <= r.pos <= |s|
    decreases |s| - i, 5
  {
    match ParsePipe(s, i)
    case Panic => Panic
    case Ok(c, j) => LineRest(s, j, c)
  }

  /** The rest of parseline, after the command `c`. */
  function LineRest(s: string, i: nat, c: Cmd): (r: Result<Cmd>)
    requires i <= |s|
    ensures r.Ok? ==> i <= r.pos <= |s|
    decreases |s| - i, 4
  {
    if Peek(s, i) == '&' then LineRest(s, GetToken(s, i).next, Back(c))
    else if Peek(s, i) == ';' then
      match ParseLine(s, GetToken(s, i).next)
      case Panic => Panic
      case Ok(d, j) => Ok(List(c, d), j)
    else Ok(c, SkipSpace(s, i))
  }

  /** parsepipe. */
  function ParsePipe(s: string, i: nat): (r: Result<Cmd>)
    requires i <= |s|
    ensures r.Ok? ==> i <= r.pos <= |s|
    decreases |s| - i, 3
  {
    match ParseExec(s, i)
    case Panic => Panic
    case Ok(c, j) =>
      if Peek(s, j) == '|' then
        match ParsePipe(s, GetToken(s, j).next)
        case Panic => Panic
        case Ok(d, k) => Ok(Pipe(c, d), k)
      else Ok(c, SkipSpace(s, j))
  }

  /** parseexec. */
  function ParseExec(s: string, i: nat): (r: Result<Cmd>)
    requires i <= |s|
    ensures r.Ok? ==> i <= r.pos <= |s|
    decreases |s| - i, 2
  {
    if Peek(s, i) == '(' then ParseBlock(s, i)
    else
      match Redirs(s, i, [])
      case Panic => Panic
      case Ok(rs, j) => ExecRest(s, j, [], rs)
  }

  /** The loop of parseexec, after the words `args` and the redirections `rs`. */
  function ExecRest(s: string, i: nat, args: seq<string>, rs: seq<Redirection>): (r: Result<Cmd>)
    requires i <= |s|
    ensures r.Ok? ==> i <= r.pos <= |s|
    decreases |s| - i, 1
  {
    var c := Peek(s, i);
    if c == '|' || c == ')' || c == '&' || c == ';' then Ok(Wrap(Exec(args), rs), SkipSpace(s, i))
    else
      var t := GetToken(s, i);
      if t.kind == '\0' then Ok(Wrap(Exec(args), rs), t.next)
      else if t.kind != 'a' then Panic
      else if |args| + 1 >= MAXARGS then Panic
      else
        match Redirs(s, t.next, rs)
        case Panic => Panic
        case Ok(rs', j) => ExecRest(s, j, args + [s[t.q..t.eq]], rs')
  }

  /** parseblock, at an opening parenthesis. */
  function ParseBlock(s: string, i: nat): (r: Result<Cmd>)
    requires i <= |s| && Peek(s, i) == '('
    ensures r.Ok? ==> i <= r.pos <= |s|
    decreases |s| - i, 0
  {
    match ParseLine(s, GetToken(s, i).next)
    case Panic => Panic
    case Ok(c, j) =>
      if Peek(s, j) != ')' then Panic
      else
        match Redirs(s, GetToken(s, j).next, [])
        case Panic => Panic
        case Ok(rs, k) => Ok(Wrap(c, rs), k)
  }

  /** parsecmd. */
  function ParseCmd(s: string): (r: Result<Cmd>) {
    match ParseLine(s, 0)
    case Panic => Panic
    case Ok(c, j) => if SkipSpace(s, j) == |s| then Ok(c, |s|) else Panic
  }
}
