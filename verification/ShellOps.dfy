/** The loops of the shell's parser, with the cursor they move, proved to compute the parser
    of ShellParser. */
module ShellOps {
  import opened ShellParser

  /** gettoken. */
  method Gettoken(s: string, ps: nat) returns (t: Token)
    requires ps <= |s|
    ensures t == GetToken(s, ps)
  {
    var q := SkipWhite(s, ps);
    if q == |s| { return Token('\0', q, q, q); }
    var kind, eq := s[q], q + 1;
    if kind == '>' {
      if eq < |s| && s[eq] == '>' {
        kind, eq := '+', eq + 1;
      }
    } else if !IsSymbol(kind) {
      kind, eq := 'a', q;
      while eq < |s| && !IsWhite(s[eq]) && !IsSymbol(s[eq])
        invariant q <= eq <= |s| && WordEnd(s, eq) == WordEnd(s, q)
      {
        eq := eq + 1;
      }
    }
    var next := SkipWhite(s, eq);
    return Token(kind, q, eq, next);
  }

  method SkipWhite(s: string, i: nat) returns (j: nat)
    requires i <= |s|
    ensures j == SkipSpace(s, i)
  {
    j := i;
    while j < |s| && IsWhite(s[j])
      invariant i <= j <= |s| && SkipSpace(s, j) == SkipSpace(s, i)
    {
      j := j + 1;
    }
  }

  /** peek: the next character is one of `toks`; the cursor moves over white space. */
  method PeekAt(s: string, ps: nat, toks: string) returns (b: bool, ps': nat)
    requires ps <= |s| && '\0' !in toks
    ensures ps' == SkipSpace(s, ps) && (b <==> Peek(s, ps) in toks)
  {
    ps' := SkipWhite(s, ps);
    b := ps' < |s| && s[ps'] in toks;
  }

  lemma {:induction false} Skipped(s: string, i: nat)
    requires i <= |s|
    ensures var j := SkipSpace(s, i);
            SkipSpace(s, j) == j && Peek(s, j) == Peek(s, i) && GetToken(s, j) == GetToken(s, i)
  {
  }

  /** parseredirs. */
  method Parseredirs(s: string, ps: nat, rs0: seq<Redirection>) returns (r: Result<seq<Redirection>>)
    requires ps <= |s|
    ensures r == Redirs(s, ps, rs0)
  {
    var i, rs := ps, rs0;
    while true
      invariant i <= |s| && Redirs(s, i, rs) == Redirs(s, ps, rs0)
      decreases |s| - i
    {
      Skipped(s, i);
      var more, j := PeekAt(s, i, "<>");
      if !more { return Ok(rs, j); }
      var t := Gettoken(s, j);
      var f := Gettoken(s, t.next);
      if f.kind != 'a' { return Panic; }
      var mode := if t.kind == '<' then Input else if t.kind == '>' then Truncate else Append;
      rs := rs + [Redirection(s[f.q..f.eq], mode)];
      i := f.next;
    }
  }

  /** parseline. */
  method Parseline(s: string, ps: nat) returns (r: Result<Cmd>)
    requires ps <= |s|
    ensures r == ParseLine(s, ps)
    decreases |s| - ps, 5
  {
    r := Parsepipe(s, ps);
    if r == Panic { return; }
    var c, i := r.value, r.pos;
    while true
      invariant ps <= i <= |s| && LineRest(s, i, c) == ParseLine(s, ps)
      decreases |s| - i
    {
      Skipped(s, i);
      var back, j := PeekAt(s, i, "&");
      i := j;
      if !back { break; }
      var t := Gettoken(s, i);
      c := Back(c);
      i := t.next;
    }
    Skipped(s, i);
    var list, j := PeekAt(s, i, ";");
    if list {
      var t := Gettoken(s, j);
      r := Parseline(s, t.next);
      return if r == Panic then Panic else Ok(List(c, r.value), r.pos);
    }
    return Ok(c, j);
  }

  /** parsepipe. */
  method Parsepipe(s: string, ps: nat) returns (r: Result<Cmd>)
    requires ps <= |s|
    ensures r == ParsePipe(s, ps)
    decreases |s| - ps, 3
  {
    r := Parseexec(s, ps);
    if r == Panic { return; }
    var c := r.value;
    Skipped(s, r.pos);
    var pipe, j := PeekAt(s, r.pos, "|");
    if pipe {
      var t := Gettoken(s, j);
      r := Parsepipe(s, t.next);
      return if r == Panic then Panic else Ok(Pipe(c, r.value), r.pos);
    }
    return Ok(c, j);
  }

  /** parseexec. */
  method Parseexec(s: string, ps: nat) returns (r: Result<Cmd>)
    requires ps <= |s|
    ensures r == ParseExec(s, ps)
    decreases |s| - ps, 2
  {
    Skipped(s, ps);
    var block, start := PeekAt(s, ps, "(");
    if block {
      r := Parseblock(s, start);
      return;
    }
    var redirs := Parseredirs(s, start, []);
    if redirs == Panic { return Panic; }
    var i, args, rs := redirs.pos, [], redirs.value;
    while true
      invariant i <= |s| && |args| < MAXARGS && ExecRest(s, i, args, rs) == ParseExec(s, ps)
      decreases |s| - i
    {
      Skipped(s, i);
      var end, j := PeekAt(s, i, "|)&;");
      if end { return Ok(Wrap(Exec(args), rs), j); }
      var t := Gettoken(s, j);
      if t.kind == '\0' { return Ok(Wrap(Exec(args), rs), t.next); }
      if t.kind != 'a' || |args| + 1 >= MAXARGS { return Panic; }
      args := args + [s[t.q..t.eq]];
      redirs := Parseredirs(s, t.next, rs);
      if redirs == Panic { return Panic; }
      i, rs := redirs.pos, redirs.value;
    }
  }

  /** parseblock. */
  method Parseblock(s: string, ps: nat) returns (r: Result<Cmd>)
    requires ps <= |s| && Peek(s, ps) == '('
    ensures r == ParseBlock(s, ps)
    decreases |s| - ps, 0
  {
    var t := Gettoken(s, ps);
    r := Parseline(s, t.next);
    if r == Panic { return; }
    var c := r.value;
    Skipped(s, r.pos);
    var close, j := PeekAt(s, r.pos, ")");
    if !close { return Panic; }
    t := Gettoken(s, j);
    var redirs := Parseredirs(s, t.next, []);
    return if redirs == Panic then Panic else Ok(Wrap(c, redirs.value), redirs.pos);
  }
}
