/** The grammar of command lines, on tokens: syntax trees, the tokens they are written with and
    the commands they stand for.  The parser reads exactly what the grammar writes. */
module ShellGrammar {
  import opened ShellParser

  // ---- Tokens ----

  /** A symbol, with `+` for `>>`, or a word. */
  datatype Tok = Sym(c: char) | Word(w: string)

  /** The tokens from place `i` on. */
  function Tokens(s: string, i: nat): (ts: seq<Tok>)
    requires i <= |s|
    decreases |s| - i
  {
    var t := GetToken(s, i);
    if t.kind == '\0' then []
    else [if t.kind == 'a' then Word(s[t.q..t.eq]) else Sym(t.kind)] + Tokens(s, t.next)
  }

  /** The kind of the first token, NUL if there is none. */
  function Kind(ts: seq<Tok>): char {
    if ts == [] then '\0' else match ts[0] case Sym(c) => c case Word(_) => 'a'
  }

  lemma {:induction false} Skipping(s: string, i: nat)
    requires i <= |s|
    ensures var j := SkipSpace(s, i);
            SkipSpace(s, j) == j && Peek(s, j) == Peek(s, i) && GetToken(s, j) == GetToken(s, i)
            && Tokens(s, j) == Tokens(s, i)
  {
  }

  /** What peek and gettoken find is the first token. */
  lemma {:induction false} FirstToken(s: string, i: nat)
    requires i <= |s|
    ensures var t, ts := GetToken(s, i), Tokens(s, i);
            && t.kind == Kind(ts) && (ts == [] <==> t.kind == '\0')
            && (ts == [] ==> SkipSpace(s, i) == |s| == t.next)
            && (ts != [] ==> ts == [ts[0]] + Tokens(s, t.next)
                             && ts[0] == if t.kind == 'a' then Word(s[t.q..t.eq]) else Sym(t.kind))
    ensures var c, k := Peek(s, i), Kind(Tokens(s, i));
            && (c == '|' <==> k == '|') && (c == ')' <==> k == ')') && (c == '&' <==> k == '&')
            && (c == ';' <==> k == ';') && (c == '(' <==> k == '(') && (c == '<' <==> k == '<')
            && (c == '>' <==> k == '>' || k == '+')
  {
  }

  // ---- Syntax ----

  /** What a plain command is made of: its words and redirections in any order. */
  datatype Item = Arg(w: string) | File(r: Redirection)

  datatype Simple = Plain(items: seq<Item>) | Block(line: Line, rs: seq<Redirection>)

  datatype Pipeline = Last(e: Simple) | Into(e: Simple, rest: Pipeline)

  /** A pipeline, some `&`, and perhaps `;` and another line. */
  datatype Line = Line(pipes: Pipeline, amps: nat, rest: Rest)
  datatype Rest = End | Then(line: Line)

  // ---- The tokens of syntax ----

  function ModeSym(m: Mode): char {
    match m case Input => '<' case Truncate => '>' case Append => '+'
  }

  function ShowItem(x: Item): seq<Tok> {
    match x
    case Arg(w) => [Word(w)]
    case File(r) => [Sym(ModeSym(r.mode)), Word(r.file)]
  }

  function ShowItems(xs: seq<Item>): seq<Tok> {
    if xs == [] then [] else ShowItem(xs[0]) + ShowItems(xs[1..])
  }

  function AsItems(rs: seq<Redirection>): (xs: seq<Item>)
    ensures |xs| == |rs| && forall k :: 0 <= k < |rs| ==> xs[k] == File(rs[k])
  {
    seq(|rs|, k requires 0 <= k < |rs| => File(rs[k]))
  }

  function ShowSimple(e: Simple): seq<Tok> {
    match e
    case Plain(xs) => ShowItems(xs)
    case Block(l, rs) => [Sym('(')] + (ShowLine(l) + ([Sym(')')] + ShowItems(AsItems(rs))))
  }

  function ShowPipes(p: Pipeline): seq<Tok> {
    match p
    case Last(e) => ShowSimple(e)
    case Into(e, rest) => ShowSimple(e) + ([Sym('|')] + ShowPipes(rest))
  }

  function ShowLine(l: Line): seq<Tok> {
    ShowPipes(l.pipes) + (Amps(l.amps) + ShowRest(l.rest))
  }

  function ShowRest(r: Rest): seq<Tok> {
    match r
    case End => []
    case Then(d) => [Sym(';')] + ShowLine(d)
  }

  function Amps(n: nat): (ts: seq<Tok>)
    ensures |ts| == n && forall k :: 0 <= k < n ==> ts[k] == Sym('&')
  {
    seq(n, _ => Sym('&'))
  }

  // ---- The command that syntax stands for ----

  function Args(xs: seq<Item>): seq<string> {
    if xs == [] then [] else if xs[0].Arg? then [xs[0].w] + Args(xs[1..]) else Args(xs[1..])
  }

  function Files(xs: seq<Item>): seq<Redirection> {
    if xs == [] then [] else if xs[0].File? then [xs[0].r] + Files(xs[1..]) else Files(xs[1..])
  }

  /** Redirections around a command, one after the other. */
  function Around(c: Cmd, rs: seq<Redirection>): Cmd
    decreases |rs|
  {
    if rs == [] then c else Around(Redir(c, rs[0].file, rs[0].mode), rs[1..])
  }

  lemma {:induction false} WrapIs(c: Cmd, rs: seq<Redirection>)
    ensures Wrap(c, rs) == Around(c, rs)
    decreases |rs|
  {
    if rs != [] {
      var n := |rs| - 1;
      AroundLast(c, rs[..n], rs[n]);
      assert rs == rs[..n] + [rs[n]];
      WrapIs(c, rs[..n]);
    }
  }

  lemma {:induction false} AroundLast(c: Cmd, rs: seq<Redirection>, r: Redirection)
    ensures Around(c, rs + [r]) == Redir(Around(c, rs), r.file, r.mode)
    decreases |rs|
  {
    if rs == [] {
      assert [] + [r] == [r] && [r][1..] == [];
    } else {
      assert (rs + [r])[1..] == rs[1..] + [r];
      AroundLast(Redir(c, rs[0].file, rs[0].mode), rs[1..], r);
    }
  }

  /** The redirections go around the command in their order, the first one innermost. */
  function SimpleCmd(e: Simple): Cmd
    decreases e
  {
    match e
    case Plain(xs) => Around(Exec(Args(xs)), Files(xs))
    case Block(l, rs) => Around(LineCmd(l), rs)
  }

  function PipesCmd(p: Pipeline): Cmd
    decreases p
  {
    match p
    case Last(e) => SimpleCmd(e)
    case Into(e, rest) => Pipe(SimpleCmd(e), PipesCmd(rest))
  }

  function LineCmd(l: Line): Cmd
    decreases l
  {
    RestCmd(Backs(PipesCmd(l.pipes), l.amps), l.rest)
  }

  function RestCmd(c: Cmd, r: Rest): Cmd
    decreases r
  {
    match r
    case End => c
    case Then(d) => List(c, LineCmd(d))
  }

  function Backs(c: Cmd, n: nat): Cmd
    decreases n
  {
    if n == 0 then c else Backs(Back(c), n - 1)
  }

  /** No plain command has more than nine words. */
  predicate LegalSimple(e: Simple) {
    match e
    case Plain(xs) => |Args(xs)| < MAXARGS
    case Block(l, _) => LegalLine(l)
  }

  predicate LegalPipes(p: Pipeline) {
    match p
    case Last(e) => LegalSimple(e)
    case Into(e, rest) => LegalSimple(e) && LegalPipes(rest)
  }

  predicate LegalLine(l: Line) {
    LegalPipes(l.pipes) && LegalRest(l.rest)
  }

  predicate LegalRest(r: Rest) {
    match r
    case End => true
    case Then(d) => LegalLine(d)
  }

  // ---- The parser reads what the grammar writes ----

  ghost predicate NoFile(ts: seq<Tok>) {
    Kind(ts) != '<' && Kind(ts) != '>' && Kind(ts) != '+'
  }

  ghost predicate EndsSimple(ts: seq<Tok>) {
    Kind(ts) in {'\0', '|', ')', '&', ';'}
  }

  lemma {:induction false} RedirsOk(s: string, i: nat, done: seq<Redirection>, rs: seq<Redirection>, rest: seq<Tok>)
    returns (j: nat)
    requires i <= |s| && Tokens(s, i) == ShowItems(AsItems(rs)) + rest && NoFile(rest)
    ensures j <= |s| && Redirs(s, i, done) == Ok(done + rs, j) && Tokens(s, j) == rest
    decreases |rs|
  {
    hide GetToken, Peek, SkipSpace, Tokens, AsItems;
    FirstToken(s, i);
    if rs == [] {
      assert AsItems(rs) == [] && ShowItems([]) + rest == rest && done + rs == done;
      Skipping(s, i);
      j := SkipSpace(s, i);
    } else {
      var t := GetToken(s, i);
      ItemsFirst(AsItems(rs), rest);
      assert AsItems(rs)[1..] == AsItems(rs[1..]);
      FirstToken(s, t.next);
      var f := GetToken(s, t.next);
      TwoFirst(Tokens(s, i), t.kind, Tokens(s, t.next), Tokens(s, f.next), rs[0],
               ShowItems(AsItems(rs[1..])) + rest);
      j := RedirsOk(s, f.next, done + [rs[0]], rs[1..], rest);
      assert done + [rs[0]] + rs[1..] == done + rs;
    }
  }

  lemma {:induction false} ItemsFirst(xs: seq<Item>, rest: seq<Tok>)
    requires xs != []
    ensures ShowItems(xs) + rest == ShowItem(xs[0]) + (ShowItems(xs[1..]) + rest)
  {
    assert ShowItem(xs[0]) + ShowItems(xs[1..]) + rest == ShowItem(xs[0]) + (ShowItems(xs[1..]) + rest);
  }

  /** Two tokens are those of a redirection. */
  lemma {:induction false} TwoFirst(ts: seq<Tok>, k: char, ts1: seq<Tok>, ts2: seq<Tok>, r: Redirection, rest: seq<Tok>)
    requires ts == ShowItem(File(r)) + rest && k == Kind(ts) && ts == [ts[0]] + ts1
    requires ts1 != [] ==> ts1 == [ts1[0]] + ts2
    ensures k == ModeSym(r.mode) && ts1 != [] && ts1[0] == Word(r.file) && ts2 == rest
  {
    assert ts[0] == Sym(ModeSym(r.mode)) && ts[1] == Word(r.file);
    assert ts1 == ts[1..] && ts1[0] == ts[1];
    assert ts2 == ts1[1..] == ts[2..] == rest;
  }

  /** The redirections that items begin with, and the items from the first word on. */
  lemma {:induction false} Leading(xs: seq<Item>) returns (rs: seq<Redirection>, ys: seq<Item>)
    ensures (ys == [] || ys[0].Arg?) && |ys| <= |xs|
    ensures ShowItems(xs) == ShowItems(AsItems(rs)) + ShowItems(ys)
    ensures Args(xs) == Args(ys) && Files(xs) == rs + Files(ys)
  {
    hide ShowItem, AsItems;
    if xs == [] || xs[0].Arg? {
      rs, ys := [], xs;
      assert AsItems([]) == [];
    } else {
      var rs1, ys1 := Leading(xs[1..]);
      rs, ys := [xs[0].r] + rs1, ys1;
      LeadingNext(xs[0].r, rs1);
      hide ShowItems;
      ItemsFirst(xs, []);
      assert ShowItems(xs) == ShowItems(xs) + [] && ShowItems(xs[1..]) == ShowItems(xs[1..]) + [];
      assert [xs[0].r] + (rs1 + Files(ys)) == rs + Files(ys);
    }
  }

  lemma {:induction false} LeadingNext(r: Redirection, rs: seq<Redirection>)
    ensures ShowItems(AsItems([r] + rs)) == ShowItem(File(r)) + ShowItems(AsItems(rs))
  {
    assert AsItems([r] + rs) == [File(r)] + AsItems(rs);
    assert AsItems([r] + rs)[1..] == AsItems(rs);
  }

  /** The loop of parseexec, from a word or the end on. */
  lemma {:induction false} ItemsOk(s: string, i: nat, args: seq<string>, rs: seq<Redirection>, xs: seq<Item>,
                                   rest: seq<Tok>)
    returns (j: nat)
    requires i <= |s| && Tokens(s, i) == ShowItems(xs) + rest && EndsSimple(rest) && (xs == [] || xs[0].Arg?)
    requires |args| + |Args(xs)| < MAXARGS
    ensures j <= |s| && ExecRest(s, i, args, rs) == Ok(Wrap(Exec(args + Args(xs)), rs + Files(xs)), j)
    ensures Tokens(s, j) == rest
    decreases |xs|
  {
    hide GetToken, Peek, SkipSpace, Redirs, Wrap, Tokens, AsItems, ShowItems, Args, Files;
    FirstToken(s, i);
    ItemsNone();
    if xs == [] {
      assert [] + rest == rest && args + [] == args && rs + [] == rs;
      j := ItemsEnd(s, i, args, rs);
    } else {
      var t, w := GetToken(s, i), xs[0].w;
      WordFirst(w, xs[1..]);
      assert xs == [Arg(w)] + xs[1..];
      assert Tokens(s, i) == [Word(w)] + (ShowItems(xs[1..]) + rest);
      OneFirst(Tokens(s, i), Word(w), Tokens(s, t.next), ShowItems(xs[1..]) + rest);
      var fs, ys := Leading(xs[1..]);
      assert ShowItems(xs[1..]) + rest == ShowItems(AsItems(fs)) + (ShowItems(ys) + rest);
      WordsNext(ys, rest);
      var k := RedirsOk(s, t.next, rs, fs, ShowItems(ys) + rest);
      ExecMore(s, i, args, rs, k, rs + fs);
      j := ItemsOk(s, k, args + [w], rs + fs, ys, rest);
      assert args + [w] + Args(ys) == args + Args(xs) && rs + fs + Files(ys) == rs + Files(xs);
    }
  }

  lemma {:induction false} ItemsNone()
    ensures ShowItems([]) == [] && Args([]) == [] && Files([]) == []
  {
  }

  /** A round of the loop of parseexec. */
  lemma {:induction false} ExecMore(s: string, i: nat, args: seq<string>, rs: seq<Redirection>, k: nat,
                                    rs': seq<Redirection>)
    requires i <= |s| && Tokens(s, i) != [] && Tokens(s, i)[0].Word? && |args| + 1 < MAXARGS
    requires Redirs(s, GetToken(s, i).next, rs) == Ok(rs', k) && k <= |s|
    ensures ExecRest(s, i, args, rs) == ExecRest(s, k, args + [Tokens(s, i)[0].w], rs')
  {
    FirstToken(s, i);
    hide GetToken, Peek, SkipSpace, Redirs, Wrap, Tokens;
  }

  lemma {:induction false} ItemsEnd(s: string, i: nat, args: seq<string>, rs: seq<Redirection>) returns (j: nat)
    requires i <= |s| && EndsSimple(Tokens(s, i))
    ensures j <= |s| && ExecRest(s, i, args, rs) == Ok(Wrap(Exec(args), rs), j) && Tokens(s, j) == Tokens(s, i)
  {
    hide GetToken, SkipSpace, Redirs, Wrap;
    FirstToken(s, i);
    Skipping(s, i);
    hide Peek;
    var c := Peek(s, i);
    j := if c == '|' || c == ')' || c == '&' || c == ';' then SkipSpace(s, i) else GetToken(s, i).next;
    if Tokens(s, i) == [] { AtEnd(s); }
  }

  lemma {:induction false} AtEnd(s: string)
    ensures Tokens(s, |s|) == []
  {
  }

  lemma {:induction false} OneFirst(ts: seq<Tok>, t: Tok, ts1: seq<Tok>, rest: seq<Tok>)
    requires ts == [t] + rest && ts == [ts[0]] + ts1
    ensures ts[0] == t && ts1 == rest && Kind(ts) == Kind([t])
  {
    assert ts1 == ts[1..] == rest;
  }

  lemma {:induction false} WordsNext(ys: seq<Item>, rest: seq<Tok>)
    requires EndsSimple(rest) && (ys == [] || ys[0].Arg?)
    ensures NoFile(ShowItems(ys) + rest) && Kind(ShowItems(ys) + rest) != '('
  {
    if ys == [] { assert ShowItems(ys) + rest == rest; } else { assert (ShowItems(ys) + rest)[0] == Word(ys[0].w); }
  }

  lemma {:induction false} SimpleOk(s: string, i: nat, e: Simple, rest: seq<Tok>) returns (j: nat)
    requires i <= |s| && Tokens(s, i) == ShowSimple(e) + rest && EndsSimple(rest) && LegalSimple(e)
    ensures j <= |s| && ParseExec(s, i) == Ok(SimpleCmd(e), j) && Tokens(s, j) == rest
    decreases e
  {
    match e
    case Plain(xs) =>
      WrapIs(Exec(Args(xs)), Files(xs));
      j := PlainOk(s, i, xs, rest);
    case Block(l, rs) =>
      WrapIs(LineCmd(l), rs);
      j := BlockOk(s, i, l, rs, rest);
  }

  lemma {:induction false} PlainOk(s: string, i: nat, xs: seq<Item>, rest: seq<Tok>) returns (j: nat)
    requires i <= |s| && Tokens(s, i) == ShowItems(xs) + rest && EndsSimple(rest) && |Args(xs)| < MAXARGS
    ensures j <= |s| && ParseExec(s, i) == Ok(Wrap(Exec(Args(xs)), Files(xs)), j) && Tokens(s, j) == rest
  {
    hide GetToken, Peek, SkipSpace, Redirs, Wrap, ExecRest, Tokens, ShowItems, AsItems, Args, Files;
    FirstToken(s, i);
    var fs, ys := Leading(xs);
    assert ShowItems(xs) + rest == ShowItems(AsItems(fs)) + (ShowItems(ys) + rest);
    WordsNext(ys, rest);
    NoBlock(xs, rest);
    var k := RedirsOk(s, i, [], fs, ShowItems(ys) + rest);
    assert [] + fs == fs;
    j := ItemsOk(s, k, [], fs, ys, rest);
    assert [] + Args(ys) == Args(xs);
  }

  lemma {:induction false} NoBlock(xs: seq<Item>, rest: seq<Tok>)
    requires EndsSimple(rest)
    ensures Kind(ShowItems(xs) + rest) != '('
  {
    if xs == [] { assert ShowItems(xs) + rest == rest; }
      else { assert (ShowItems(xs) + rest)[0] == ShowItem(xs[0])[0]; }
  }

  lemma {:induction false} BlockOk(s: string, i: nat, l: Line, rs: seq<Redirection>, rest: seq<Tok>) returns (j: nat)
    requires i <= |s| && Tokens(s, i) == ShowSimple(Block(l, rs)) + rest && EndsSimple(rest) && LegalLine(l)
    ensures j <= |s| && ParseExec(s, i) == Ok(Wrap(LineCmd(l), rs), j) && Tokens(s, j) == rest
    decreases l, 1
  {
    hide GetToken, Peek, SkipSpace, Redirs, Wrap, ExecRest, ParseLine, ShowLine, ShowItems, LineCmd;
    var files := ShowItems(AsItems(rs)) + rest;
    assert Tokens(s, i) == [Sym('(')] + (ShowLine(l) + ([Sym(')')] + files));
    FirstToken(s, i);
    var t := GetToken(s, i);
    OneFirst(Tokens(s, i), Sym('('), Tokens(s, t.next), ShowLine(l) + ([Sym(')')] + files));
    var k := LineOk(s, t.next, l, [Sym(')')] + files);
    FirstToken(s, k);
    var u := GetToken(s, k);
    OneFirst(Tokens(s, k), Sym(')'), Tokens(s, u.next), files);
    j := RedirsOk(s, u.next, [], rs, rest);
    assert [] + rs == rs;
  }

  lemma {:induction false} PipesOk(s: string, i: nat, p: Pipeline, rest: seq<Tok>) returns (j: nat)
    requires i <= |s| && Tokens(s, i) == ShowPipes(p) + rest && EndsSimple(rest) && Kind(rest) != '|' && LegalPipes(p)
    ensures j <= |s| && ParsePipe(s, i) == Ok(PipesCmd(p), j) && Tokens(s, j) == rest
    decreases p
  {
    hide GetToken, Peek, SkipSpace, ParseExec, ShowSimple, SimpleCmd;
    match p
    case Last(e) =>
      var k := SimpleOk(s, i, e, rest);
      FirstToken(s, k);
      Skipping(s, k);
      j := SkipSpace(s, k);
    case Into(e, more) =>
      var after := ShowPipes(more) + rest;
      assert Tokens(s, i) == ShowSimple(e) + ([Sym('|')] + after);
      var k := SimpleOk(s, i, e, [Sym('|')] + after);
      FirstToken(s, k);
      OneFirst(Tokens(s, k), Sym('|'), Tokens(s, GetToken(s, k).next), after);
      j := PipesOk(s, GetToken(s, k).next, more, rest);
  }

  lemma {:induction false} LineOk(s: string, i: nat, l: Line, rest: seq<Tok>) returns (j: nat)
    requires i <= |s| && Tokens(s, i) == ShowLine(l) + rest && Kind(rest) in {'\0', ')'} && LegalLine(l)
    ensures j <= |s| && ParseLine(s, i) == Ok(LineCmd(l), j) && Tokens(s, j) == rest
    decreases l, 0
  {
    hide GetToken, Peek, SkipSpace, ParsePipe, LineRest, ShowPipes, PipesCmd, ShowRest, RestCmd, Backs;
    var after := Amps(l.amps) + ShowRest(l.rest) + rest;
    assert Tokens(s, i) == ShowPipes(l.pipes) + after;
    AfterPipes(l.amps, l.rest, rest);
    var k := PipesOk(s, i, l.pipes, after);
    j := RestOk(s, k, PipesCmd(l.pipes), l.amps, l.rest, rest);
  }

  lemma {:induction false} AfterPipes(n: nat, r: Rest, rest: seq<Tok>)
    requires Kind(rest) in {'\0', ')'}
    ensures var ts := Amps(n) + ShowRest(r) + rest; EndsSimple(ts) && Kind(ts) != '|'
  {
    var ts := Amps(n) + ShowRest(r) + rest;
    if n > 0 { assert ts[0] == Sym('&'); } else if r.Then? { assert ts[0] == Sym(';'); } else { assert ts == rest; }
  }

  lemma {:induction false} RestOk(s: string, i: nat, c: Cmd, n: nat, r: Rest, rest: seq<Tok>) returns (j: nat)
    requires i <= |s| && Tokens(s, i) == Amps(n) + ShowRest(r) + rest && Kind(rest) in {'\0', ')'} && LegalRest(r)
    ensures j <= |s| && LineRest(s, i, c) == Ok(RestCmd(Backs(c, n), r), j) && Tokens(s, j) == rest
    decreases r, n
  {
    hide GetToken, Peek, SkipSpace, ParseLine, ShowLine, LineCmd;
    FirstToken(s, i);
    if n > 0 {
      assert Amps(n) == [Sym('&')] + Amps(n - 1);
      var after := Amps(n - 1) + ShowRest(r) + rest;
      assert Tokens(s, i) == [Sym('&')] + after;
      OneFirst(Tokens(s, i), Sym('&'), Tokens(s, GetToken(s, i).next), after);
      j := RestOk(s, GetToken(s, i).next, Back(c), n - 1, r, rest);
    } else if r.Then? {
      assert Tokens(s, i) == [Sym(';')] + (ShowLine(r.line) + rest);
      OneFirst(Tokens(s, i), Sym(';'), Tokens(s, GetToken(s, i).next), ShowLine(r.line) + rest);
      j := LineOk(s, GetToken(s, i).next, r.line, rest);
    } else {
      assert Tokens(s, i) == rest;
      Skipping(s, i);
      j := SkipSpace(s, i);
    }
  }

  // ---- What the parser reads, the grammar writes ----

  lemma {:induction false} ItemsCat(xs: seq<Item>, ys: seq<Item>)
    ensures ShowItems(xs + ys) == ShowItems(xs) + ShowItems(ys)
    ensures Args(xs + ys) == Args(xs) + Args(ys) && Files(xs + ys) == Files(xs) + Files(ys)
    decreases |xs|
  {
    hide ShowItem;
    if xs == [] {
      assert xs + ys == ys;
    } else {
      assert (xs + ys)[1..] == xs[1..] + ys;
      ItemsCat(xs[1..], ys);
      assert ShowItem(xs[0]) + (ShowItems(xs[1..]) + ShowItems(ys)) == ShowItems(xs) + ShowItems(ys);
    }
  }

  lemma {:induction false} FilesOnly(rs: seq<Redirection>)
    ensures Args(AsItems(rs)) == [] && Files(AsItems(rs)) == rs
    decreases |rs|
  {
    if rs != [] {
      assert AsItems(rs)[1..] == AsItems(rs[1..]);
      FilesOnly(rs[1..]);
    }
  }

  lemma {:induction false} RedirsSound(s: string, i: nat, done: seq<Redirection>) returns (rs: seq<Redirection>)
    requires i <= |s| && Redirs(s, i, done).Ok?
    ensures Redirs(s, i, done).value == done + rs
    ensures Tokens(s, i) == ShowItems(AsItems(rs)) + Tokens(s, Redirs(s, i, done).pos)
    decreases |s| - i
  {
    hide GetToken, Peek, SkipSpace, Tokens, AsItems, ShowItems, ShowItem;
    FirstToken(s, i);
    if Peek(s, i) == '<' || Peek(s, i) == '>' {
      var t := GetToken(s, i);
      FirstToken(s, t.next);
      var f := GetToken(s, t.next);
      var mode := if t.kind == '<' then Input else if t.kind == '>' then Truncate else Append;
      var x := Redirection(s[f.q..f.eq], mode);
      var rs1 := RedirsSound(s, f.next, done + [x]);
      rs := [x] + rs1;
      assert done + [x] + rs1 == done + rs;
      LeadingNext(x, rs1);
      RedirWritten(Tokens(s, i), Tokens(s, t.next), Tokens(s, f.next), x, ShowItems(AsItems(rs1)),
                   Tokens(s, Redirs(s, f.next, done + [x]).pos));
    } else {
      rs := [];
      Skipping(s, i);
      NoItems();
      assert [] + Tokens(s, i) == Tokens(s, i) && done + [] == done;
    }
  }

  lemma {:induction false} NoItems()
    ensures ShowItems(AsItems([])) == []
  {
  }

  lemma {:induction false} RedirWritten(ts: seq<Tok>, ts1: seq<Tok>, ts2: seq<Tok>, x: Redirection, show: seq<Tok>,
                                        after: seq<Tok>)
    requires ts != [] && ts1 != [] && ts == [ts[0]] + ts1 && ts1 == [ts1[0]] + ts2 && ts2 == show + after
    requires Kind(ts) == ModeSym(x.mode) && ts1[0] == Word(x.file)
    ensures ts == ShowItem(File(x)) + show + after
  {
    SymbolFirst(ts, ModeSym(x.mode));
    assert ts == [ts[0]] + ([ts1[0]] + (show + after));
  }

  lemma {:induction false} SymbolFirst(ts: seq<Tok>, c: char)
    requires ts != [] && Kind(ts) == c != 'a'
    ensures ts[0] == Sym(c)
  {
  }

  lemma {:induction false} ItemsSound(s: string, i: nat, args: seq<string>, rs: seq<Redirection>)
    returns (xs: seq<Item>)
    requires i <= |s| && ExecRest(s, i, args, rs).Ok? && |args| < MAXARGS
    ensures ExecRest(s, i, args, rs).value == Wrap(Exec(args + Args(xs)), rs + Files(xs))
    ensures |args| + |Args(xs)| < MAXARGS && Tokens(s, i) == ShowItems(xs) + Tokens(s, ExecRest(s, i, args, rs).pos)
    decreases |s| - i
  {
    hide GetToken, Peek, SkipSpace, Redirs, Wrap, Tokens, AsItems, ShowItems, Args, Files;
    FirstToken(s, i);
    Skipping(s, i);
    ItemsNone();
    var c, t := Peek(s, i), GetToken(s, i);
    if c == '|' || c == ')' || c == '&' || c == ';' || t.kind == '\0' {
      xs := [];
      if t.kind == '\0' { AtEnd(s); }
      assert args + Args(xs) == args && rs + Files(xs) == rs;
      assert ShowItems(xs) + Tokens(s, i) == Tokens(s, i);
    } else {
      var w := s[t.q..t.eq];
      var fs := RedirsSound(s, t.next, rs);
      var k := Redirs(s, t.next, rs).pos;
      var ys := ItemsSound(s, k, args + [w], rs + fs);
      xs := [Arg(w)] + (AsItems(fs) + ys);
      ItemsCat(AsItems(fs), ys);
      FilesOnly(fs);
      WordFirst(w, AsItems(fs) + ys);
      assert args + [w] + Args(ys) == args + Args(xs) && rs + fs + Files(ys) == rs + Files(xs);
      var after := Tokens(s, ExecRest(s, k, args + [w], rs + fs).pos);
      assert Tokens(s, i) == [Word(w)] + (ShowItems(AsItems(fs)) + (ShowItems(ys) + after));
    }
  }

  lemma {:induction false} WordFirst(w: string, xs: seq<Item>)
    ensures ShowItems([Arg(w)] + xs) == [Word(w)] + ShowItems(xs)
    ensures Args([Arg(w)] + xs) == [w] + Args(xs) && Files([Arg(w)] + xs) == Files(xs)
  {
    assert ([Arg(w)] + xs)[1..] == xs;
  }

  lemma {:induction false} SimpleSound(s: string, i: nat) returns (e: Simple)
    requires i <= |s| && ParseExec(s, i).Ok?
    ensures ParseExec(s, i).value == SimpleCmd(e) && LegalSimple(e)
    ensures Tokens(s, i) == ShowSimple(e) + Tokens(s, ParseExec(s, i).pos)
    decreases |s| - i, 2
  {
    hide GetToken, Peek, SkipSpace, Redirs, Wrap, Tokens, ExecRest, ShowItems, AsItems;
    FirstToken(s, i);
    if Peek(s, i) == '(' {
      e := BlockSound(s, i);
    } else {
      var fs := RedirsSound(s, i, []);
      var k := Redirs(s, i, []).pos;
      assert [] + fs == fs;
      var ys := ItemsSound(s, k, [], fs);
      var xs := AsItems(fs) + ys;
      ItemsCat(AsItems(fs), ys);
      FilesOnly(fs);
      e := Plain(xs);
      WrapIs(Exec(Args(xs)), Files(xs));
      assert [] + Args(ys) == Args(xs) && fs + Files(ys) == Files(xs);
      var after := Tokens(s, ExecRest(s, k, [], fs).pos);
      assert ShowItems(AsItems(fs)) + (ShowItems(ys) + after) == ShowItems(xs) + after;
    }
  }

  lemma {:induction false} BlockSound(s: string, i: nat) returns (e: Simple)
    requires i <= |s| && Peek(s, i) == '(' && ParseBlock(s, i).Ok?
    ensures ParseBlock(s, i).value == SimpleCmd(e) && LegalSimple(e)
    ensures Tokens(s, i) == ShowSimple(e) + Tokens(s, ParseBlock(s, i).pos)
    decreases |s| - i, 0
  {
    hide GetToken, Peek, SkipSpace, Redirs, Wrap, Tokens, ShowItems, AsItems, ParseLine, LineCmd, ShowLine, LegalLine;
    FirstToken(s, i);
    var t := GetToken(s, i);
    var l := LineSound(s, t.next);
    var k := ParseLine(s, t.next).pos;
    FirstToken(s, k);
    var u := GetToken(s, k);
    var rs := RedirsSound(s, u.next, []);
    assert [] + rs == rs;
    e := Block(l, rs);
    WrapIs(LineCmd(l), rs);
    var files, after := ShowItems(AsItems(rs)), Tokens(s, Redirs(s, u.next, []).pos);
    SymbolFirst(Tokens(s, i), '(');
    SymbolFirst(Tokens(s, k), ')');
    assert Tokens(s, i) == [Sym('(')] + (ShowLine(l) + ([Sym(')')] + (files + after)));
    assert ShowSimple(e) + after == [Sym('(')] + (ShowLine(l) + ([Sym(')')] + (files + after)));
  }

  lemma {:induction false} PipesSound(s: string, i: nat) returns (p: Pipeline)
    requires i <= |s| && ParsePipe(s, i).Ok?
    ensures ParsePipe(s, i).value == PipesCmd(p) && LegalPipes(p)
    ensures Tokens(s, i) == ShowPipes(p) + Tokens(s, ParsePipe(s, i).pos)
    decreases |s| - i, 3
  {
    hide GetToken, Peek, SkipSpace, Tokens, ParseExec, SimpleCmd, ShowSimple, LegalSimple;
    var e := SimpleSound(s, i);
    var j := ParseExec(s, i).pos;
    FirstToken(s, j);
    Skipping(s, j);
    if Peek(s, j) == '|' {
      var t := GetToken(s, j);
      var more := PipesSound(s, t.next);
      p := Into(e, more);
      SymbolFirst(Tokens(s, j), '|');
      var after := Tokens(s, ParsePipe(s, t.next).pos);
      assert ShowSimple(e) + ([Sym('|')] + (ShowPipes(more) + after)) == ShowPipes(p) + after;
    } else {
      p := Last(e);
    }
  }

  lemma {:induction false} LineSound(s: string, i: nat) returns (l: Line)
    requires i <= |s| && ParseLine(s, i).Ok?
    ensures ParseLine(s, i).value == LineCmd(l) && LegalLine(l)
    ensures Tokens(s, i) == ShowLine(l) + Tokens(s, ParseLine(s, i).pos)
    decreases |s| - i, 5
  {
    hide Tokens, ParsePipe, LineRest, PipesCmd, ShowPipes, LegalPipes, RestCmd, Backs, ShowRest, LegalRest;
    var p := PipesSound(s, i);
    var c, j := ParsePipe(s, i).value, ParsePipe(s, i).pos;
    var n, r := RestSound(s, j, c);
    l := Line(p, n, r);
    var after := Tokens(s, LineRest(s, j, c).pos);
    assert ShowPipes(p) + (Amps(n) + ShowRest(r) + after) == ShowLine(l) + after;
  }

  lemma {:induction false} RestSound(s: string, i: nat, c: Cmd) returns (n: nat, r: Rest)
    requires i <= |s| && LineRest(s, i, c).Ok?
    ensures LineRest(s, i, c).value == RestCmd(Backs(c, n), r) && LegalRest(r)
    ensures Tokens(s, i) == Amps(n) + ShowRest(r) + Tokens(s, LineRest(s, i, c).pos)
    decreases |s| - i, 4
  {
    hide GetToken, Peek, SkipSpace, Tokens, ParseLine, LineCmd, ShowLine, LegalLine;
    FirstToken(s, i);
    Skipping(s, i);
    var t := GetToken(s, i);
    if Peek(s, i) == '&' {
      var n1, r1 := RestSound(s, t.next, Back(c));
      n, r := n1 + 1, r1;
      SymbolFirst(Tokens(s, i), '&');
      assert Amps(n) == [Sym('&')] + Amps(n1);
      var after := Tokens(s, LineRest(s, t.next, Back(c)).pos);
      assert [Sym('&')] + (Amps(n1) + ShowRest(r) + after) == Amps(n) + ShowRest(r) + after;
    } else if Peek(s, i) == ';' {
      var d := LineSound(s, t.next);
      n, r := 0, Then(d);
      SymbolFirst(Tokens(s, i), ';');
      var after := Tokens(s, ParseLine(s, t.next).pos);
      assert [Sym(';')] + (ShowLine(d) + after) == Amps(0) + ShowRest(r) + after;
    } else {
      n, r := 0, End;
      assert Amps(0) + ShowRest(End) + Tokens(s, i) == Tokens(s, i);
    }
  }

  // ---- Both ways ----

  /** The line is written with these tokens. */
  ghost predicate Writes(l: Line, ts: seq<Tok>) {
    LegalLine(l) && ShowLine(l) == ts
  }

  /** parsecmd accepts a line if and only if the grammar writes its tokens, and gives the command
      that the syntax stands for. */
  lemma {:induction false} ParseIff(s: string)
    ensures ParseCmd(s).Ok? <==> exists l :: Writes(l, Tokens(s, 0))
    ensures forall l :: Writes(l, Tokens(s, 0)) ==> ParseCmd(s) == Ok(LineCmd(l), |s|)
  {
    hide ParseLine, Tokens, LineCmd, SkipSpace;
    forall l | Writes(l, Tokens(s, 0)) ensures ParseCmd(s) == Ok(LineCmd(l), |s|) {
      assert ShowLine(l) + [] == ShowLine(l);
      var j := LineOk(s, 0, l, []);
      FirstToken(s, j);
    }
    if ParseCmd(s).Ok? {
      var l := LineSound(s, 0);
      var j := ParseLine(s, 0).pos;
      Skipping(s, j);
      AtEnd(s);
      assert ShowLine(l) + [] == ShowLine(l);
      assert Writes(l, Tokens(s, 0));
    }
  }
}
