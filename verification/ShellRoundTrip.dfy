/** The text of command lines: tokens with white space between them.  The shell accepts exactly
    the texts of the grammar and reads each as the command it stands for. */
module ShellRoundTrip {
  import opened ShellParser
  import opened ShellGrammar

  // ---- Writing tokens ----

  predicate IsWord(w: string) {
    w != [] && forall k :: 0 <= k < |w| ==> !IsWhite(w[k]) && !IsSymbol(w[k])
  }

  predicate White(g: string) {
    forall k :: 0 <= k < |g| ==> IsWhite(g[k])
  }

  predicate TokOk(t: Tok) {
    match t
    case Word(w) => IsWord(w)
    case Sym(c) => c == '+' || IsSymbol(c)
  }

  function Text(t: Tok): string {
    match t
    case Word(w) => w
    case Sym(c) => if c == '+' then ">>" else [c]
  }

  /** Tokens that would run into each other. */
  predicate Clash(a: Tok, b: Tok) {
    (a.Word? && b.Word?) || (a == Sym('>') && (b == Sym('>') || b == Sym('+')))
  }

  /** White space before each token and after the last, some of it between tokens that clash. */
  predicate Spaced(ts: seq<Tok>, gaps: seq<string>) {
    && |gaps| == |ts| + 1
    && (forall k :: 0 <= k < |gaps| ==> White(gaps[k]))
    && (forall k :: 0 <= k < |ts| ==> TokOk(ts[k]))
    && (forall k :: 1 <= k < |ts| && Clash(ts[k - 1], ts[k]) ==> gaps[k] != [])
  }

  function Spell(ts: seq<Tok>, gaps: seq<string>): string
    requires |gaps| == |ts| + 1
  {
    if ts == [] then gaps[0] else gaps[0] + (Text(ts[0]) + Spell(ts[1..], gaps[1..]))
  }

  // ---- gettoken reads what is written ----

  lemma {:induction false} SkipGap(s: string, i: nat, g: string)
    requires i + |g| <= |s| && s[i..i + |g|] == g && White(g)
    ensures SkipSpace(s, i) == SkipSpace(s, i + |g|)
    decreases |g|
  {
    if g != [] {
      assert s[i] == s[i..i + |g|][0] == g[0];
      assert s[i + 1..i + 1 + |g[1..]|] == s[i..i + |g|][1..] == g[1..];
      SkipGap(s, i + 1, g[1..]);
    }
  }

  lemma {:induction false} EndOfWord(s: string, i: nat, e: nat)
    requires i <= e <= |s| && (forall k :: i <= k < e ==> !IsWhite(s[k]) && !IsSymbol(s[k]))
             && (e < |s| ==> IsWhite(s[e]) || IsSymbol(s[e]))
    ensures WordEnd(s, i) == e
    decreases e - i
  {
    if i < e { EndOfWord(s, i + 1, e); }
  }

  /** A token is written at place `i`, and what follows does not run into it. */
  ghost predicate Stands(s: string, i: nat, t: Tok) {
    var e := i + |Text(t)|;
    && TokOk(t) && e <= |s| && s[i..e] == Text(t)
    && (t.Word? && e < |s| ==> IsWhite(s[e]) || IsSymbol(s[e]))
    && (t == Sym('>') && e < |s| ==> s[e] != '>')
  }

  lemma {:induction false} TokenIs(s: string, i: nat, t: Tok)
    requires Stands(s, i, t)
    ensures SkipSpace(s, i) == i
    ensures var u := GetToken(s, i);
            && u.kind == Kind([t]) != '\0' && u.q == i && u.eq == i + |Text(t)| && u.next == SkipSpace(s, u.eq)
  {
    var e := i + |Text(t)|;
    assert s[i] == s[i..e][0];
    if t.Word? {
      forall k | i <= k < e ensures s[k] == t.w[k - i] { assert s[i..e][k - i] == s[k]; }
      EndOfWord(s, i, e);
    } else if t.c == '+' {
      assert s[i + 1] == s[i..e][1];
    }
  }

  /** The first token of the tokens written from `i` on. */
  lemma {:induction false} TokensFirst(s: string, i: nat, g: string, t: Tok)
    requires i + |g| <= |s| && s[i..i + |g|] == g && White(g) && Stands(s, i + |g|, t)
    ensures Tokens(s, i) == [t] + Tokens(s, i + |g| + |Text(t)|)
  {
    hide Tokens, GetToken, SkipSpace, Stands, White;
    var q := i + |g|;
    SkipGap(s, i, g);
    TokenIs(s, q, t);
    Skipping(s, i);
    Skipping(s, q);
    var u := GetToken(s, q);
    Skipping(s, u.eq);
    FirstToken(s, q);
    StandsText(s, q, t);
  }

  lemma {:induction false} StandsText(s: string, i: nat, t: Tok)
    requires Stands(s, i, t)
    ensures i + |Text(t)| <= |s| && (t.Word? ==> t == Word(s[i..i + |Text(t)|]) && Kind([t]) == 'a')
    ensures t.Sym? ==> Kind([t]) == t.c != 'a'
  {
  }

  lemma {:induction false} Cut(s: string, i: nat, a: string, b: string)
    requires i <= |s| && s[i..] == a + b
    ensures i + |a| <= |s| && s[i..i + |a|] == a && s[i + |a|..] == b
  {
    assert s[i..i + |a|] == s[i..][..|a|] == (a + b)[..|a|];
    assert s[i + |a|..] == s[i..][|a|..] == (a + b)[|a|..];
  }

  lemma {:induction false} SpellStands(s: string, i: nat, ts: seq<Tok>, gaps: seq<string>)
    requires i <= |s| && Spaced(ts, gaps) && ts != [] && s[i..] == Spell(ts, gaps)
    ensures var q := i + |gaps[0]|;
            && q <= |s| && s[i..q] == gaps[0] && Stands(s, q, ts[0])
            && s[q + |Text(ts[0])|..] == Spell(ts[1..], gaps[1..]) && Spaced(ts[1..], gaps[1..])
  {
    var q, e := i + |gaps[0]|, i + |gaps[0]| + |Text(ts[0])|;
    var rest := Spell(ts[1..], gaps[1..]);
    assert TokOk(ts[0]);
    SpacedNext(ts, gaps);
    Cut(s, i, gaps[0], Text(ts[0]) + rest);
    Cut(s, q, Text(ts[0]), rest);
    hide Spell, Text, TokOk, Spaced;
    if e < |s| {
      assert s[e] == s[e..][0] == rest[0];
      NextChar(ts, gaps);
    }
  }

  /** What follows a token does not run into it. */
  lemma {:induction false} NextChar(ts: seq<Tok>, gaps: seq<string>)
    requires Spaced(ts, gaps) && ts != [] && Spaced(ts[1..], gaps[1..]) && Spell(ts[1..], gaps[1..]) != []
    ensures var c := Spell(ts[1..], gaps[1..])[0];
            (ts[0].Word? ==> IsWhite(c) || IsSymbol(c)) && (ts[0] == Sym('>') ==> c != '>')
  {
    SpellFirst(ts[1..], gaps[1..]);
    hide Spell;
    if |ts| > 1 {
      assert gaps[1..][0] == gaps[1] && ts[1..][0] == ts[1];
      assert TokOk(ts[1]);
    }
  }

  lemma {:induction false} SpacedNext(ts: seq<Tok>, gaps: seq<string>)
    requires Spaced(ts, gaps) && ts != []
    ensures Spaced(ts[1..], gaps[1..])
  {
  }

  /** What a spelling begins with. */
  lemma {:induction false} SpellFirst(ts: seq<Tok>, gaps: seq<string>)
    requires Spaced(ts, gaps) && Spell(ts, gaps) != []
    ensures var c := Spell(ts, gaps)[0];
            || IsWhite(c)
            || (gaps[0] == [] && ts != [] && Text(ts[0]) != [] && c == Text(ts[0])[0])
  {
    if gaps[0] != [] {
      assert Spell(ts, gaps)[0] == gaps[0][0];
    } else if ts != [] {
      assert TokOk(ts[0]) && Text(ts[0]) != [];
      assert Spell(ts, gaps)[0] == Text(ts[0])[0];
    }
  }

  /** The tokens of a spelling are the tokens spelled. */
  lemma {:induction false} LexOk(s: string, i: nat, ts: seq<Tok>, gaps: seq<string>)
    requires i <= |s| && Spaced(ts, gaps) && s[i..] == Spell(ts, gaps)
    ensures Tokens(s, i) == ts
    decreases |ts|
  {
    hide Tokens, Spell, Spaced;
    FirstGap(ts, gaps);
    if ts == [] {
      SpellNone(ts, gaps);
      assert s[i..i + |gaps[0]|] == s[i..];
      SkipGap(s, i, gaps[0]);
      Skipping(s, i);
      AtEnd(s);
    } else {
      SpellStands(s, i, ts, gaps);
      var e := i + |gaps[0]| + |Text(ts[0])|;
      TokensFirst(s, i, gaps[0], ts[0]);
      LexOk(s, e, ts[1..], gaps[1..]);
      assert [ts[0]] + ts[1..] == ts;
    }
  }

  lemma {:induction false} SpellNone(ts: seq<Tok>, gaps: seq<string>)
    requires Spaced(ts, gaps) && ts == []
    ensures |gaps| == 1 && Spell(ts, gaps) == gaps[0] && White(gaps[0])
  {
  }

  lemma {:induction false} FirstGap(ts: seq<Tok>, gaps: seq<string>)
    requires Spaced(ts, gaps)
    ensures |gaps| > 0 && White(gaps[0])
  {
  }

  // ---- Every text is a spelling of its tokens ----

  lemma {:induction false} SkipsWhite(s: string, i: nat)
    requires i <= |s|
    ensures White(s[i..SkipSpace(s, i)])
    decreases |s| - i
  {
    if i < |s| && IsWhite(s[i]) {
      SkipsWhite(s, i + 1);
      assert s[i..SkipSpace(s, i)] == [s[i]] + s[i + 1..SkipSpace(s, i)];
    }
  }

  lemma {:induction false} EndsWord(s: string, i: nat)
    requires i <= |s|
    ensures var e := WordEnd(s, i);
            && (forall k :: i <= k < e ==> !IsWhite(s[k]) && !IsSymbol(s[k]))
            && (e < |s| ==> IsWhite(s[e]) || IsSymbol(s[e]))
    decreases |s| - i
  {
    if i < |s| && !IsWhite(s[i]) && !IsSymbol(s[i]) { EndsWord(s, i + 1); }
  }

  lemma {:induction false} WordStands(s: string, q: nat)
    requires q < |s| && !IsWhite(s[q]) && !IsSymbol(s[q])
    ensures var w := s[q..WordEnd(s, q)]; Stands(s, q, Word(w)) && w != []
  {
    EndsWord(s, q);
    var e := WordEnd(s, q);
    forall k | 0 <= k < e - q ensures !IsWhite(s[q..e][k]) && !IsSymbol(s[q..e][k]) { assert s[q..e][k] == s[q + k]; }
  }

  lemma {:induction false} SymbolStands(s: string, q: nat, c: char)
    requires q < |s| && IsSymbol(s[q])
    requires if s[q] == '>' && q + 1 < |s| && s[q + 1] == '>' then c == '+' else c == s[q]
    ensures Stands(s, q, Sym(c)) && |Text(Sym(c))| == if c == '+' then 2 else 1
  {
    if c == '+' { assert s[q..q + 2] == ">>"; } else { assert s[q..q + 1] == [s[q]]; }
  }

  /** The first token stands in the text. */
  lemma {:induction false} FirstStands(s: string, i: nat)
    requires i <= |s| && Tokens(s, i) != []
    ensures var q, t, ts := SkipSpace(s, i), Tokens(s, i)[0], Tokens(s, i);
            && q < |s| && Stands(s, q, t) && Text(t) != [] && ts == [t] + Tokens(s, q + |Text(t)|)
  {
    hide Stands, Text, WordEnd;
    var q, u := SkipSpace(s, i), GetToken(s, i);
    FirstToken(s, i);
    Skipping(s, u.eq);
    hide SkipSpace, Tokens;
    if IsSymbol(s[q]) {
      SymbolStands(s, q, u.kind);
      assert Tokens(s, i)[0] == Sym(u.kind);
      assert u.eq == q + |Text(Sym(u.kind))|;
    } else {
      WordStands(s, q);
      TextOfWord(s[q..u.eq]);
    }
  }

  lemma {:induction false} TextOfWord(w: string)
    ensures Text(Word(w)) == w
  {
  }

  lemma {:induction false} LexSound(s: string, i: nat) returns (gaps: seq<string>)
    requires i <= |s|
    ensures Spaced(Tokens(s, i), gaps) && Spell(Tokens(s, i), gaps) == s[i..]
    decreases |s| - i
  {
    hide Tokens, GetToken;
    var q, ts := SkipSpace(s, i), Tokens(s, i);
    SkipsWhite(s, i);
    if ts == [] {
      FirstToken(s, i);
      gaps := [s[i..q]];
    } else {
      FirstStands(s, i);
      var e := q + |Text(ts[0])|;
      var more := LexSound(s, e);
      gaps := [s[i..q]] + more;
      assert ts[1..] == Tokens(s, e) && gaps[1..] == more;
      assert s[i..] == s[i..q] + (s[q..e] + s[e..]);
      hide Stands, Text, SkipSpace;
      SpacedFirst(s, q, ts, gaps, e);
    }
  }

  lemma {:induction false} SpacedFirst(s: string, q: nat, ts: seq<Tok>, gaps: seq<string>, e: nat)
    requires |gaps| == |ts| + 1 && ts != [] && White(gaps[0]) && Spaced(ts[1..], gaps[1..])
    requires Stands(s, q, ts[0]) && e == q + |Text(ts[0])| && s[e..] == Spell(ts[1..], gaps[1..])
    ensures Spaced(ts, gaps)
  {
    forall k | 0 <= k < |gaps| ensures White(gaps[k]) { assert k > 0 ==> gaps[k] == gaps[1..][k - 1]; }
    forall k | 0 <= k < |ts| ensures TokOk(ts[k]) { assert k > 0 ==> ts[k] == ts[1..][k - 1]; }
    forall k | 1 <= k < |ts| && Clash(ts[k - 1], ts[k]) ensures gaps[k] != [] {
      if k == 1 {
        if gaps[1] == [] { TouchClash(s, q, ts[0], e, ts[1..], gaps[1..]); }
      } else {
        assert ts[k - 1] == ts[1..][k - 2] && ts[k] == ts[1..][k - 1] && gaps[k] == gaps[1..][k - 1];
      }
    }
  }

  /** Tokens that touch do not clash. */
  lemma {:induction false} TouchClash(s: string, q: nat, t: Tok, e: nat, ts: seq<Tok>, gaps: seq<string>)
    requires Stands(s, q, t) && e == q + |Text(t)| && Spaced(ts, gaps) && s[e..] == Spell(ts, gaps)
    requires ts != [] && gaps[0] == []
    ensures !Clash(t, ts[0])
  {
    assert TokOk(ts[0]) && Text(ts[0]) != [];
    assert Spell(ts, gaps)[0] == Text(ts[0])[0];
    assert s[e] == s[e..][0];
  }

  // ---- Commands and their texts ----

  /** The text is the line, written with these gaps. */
  ghost predicate IsText(s: string, l: Line, gaps: seq<string>) {
    LegalLine(l) && Spaced(ShowLine(l), gaps) && s == Spell(ShowLine(l), gaps)
  }

  /** Every way to write a line is read as the command that the line stands for. */
  lemma {:induction false} RoundTrip(l: Line, gaps: seq<string>)
    requires LegalLine(l) && Spaced(ShowLine(l), gaps)
    ensures var s := Spell(ShowLine(l), gaps); ParseCmd(s) == Ok(LineCmd(l), |s|)
  {
    hide ParseCmd, Tokens, Spell, LegalLine, LineCmd;
    var s := Spell(ShowLine(l), gaps);
    assert s[0..] == s;
    LexOk(s, 0, ShowLine(l), gaps);
    ParseIff(s);
    assert Writes(l, Tokens(s, 0));
  }

  /** parsecmd gives a command for a text if and only if the text is a way to write a line that
      stands for the command; every other text is a syntax error. */
  lemma {:induction false} AcceptsIff(s: string, c: Cmd)
    ensures ParseCmd(s) == Ok(c, |s|) <==> exists l, gaps :: IsText(s, l, gaps) && LineCmd(l) == c
    ensures ParseCmd(s).Ok? ==> ParseCmd(s).pos == |s|
  {
    hide ParseCmd, Tokens, Spell, Spaced, LegalLine, LineCmd, ShowLine;
    ParseIff(s);
    forall l, gaps | IsText(s, l, gaps) ensures ParseCmd(s) == Ok(LineCmd(l), |s|) { RoundTrip(l, gaps); }
    if ParseCmd(s).Ok? {
      var l :| Writes(l, Tokens(s, 0));
      var gaps := LexSound(s, 0);
      assert s[0..] == s;
      assert IsText(s, l, gaps);
    }
  }

  // ---- Every command has a text ----

  /** A command the shell can be given: its words are words, and no command has more than
      nine of them. */
  predicate Printable(c: Cmd) {
    match c
    case Exec(args) => |args| < MAXARGS && forall k :: 0 <= k < |args| ==> IsWord(args[k])
    case Redir(d, file, _) => Printable(d) && IsWord(file)
    case Pipe(l, r) => Printable(l) && Printable(r)
    case List(l, r) => Printable(l) && Printable(r)
    case Back(d) => Printable(d)
  }

  function Words(args: seq<string>): (xs: seq<Item>)
    ensures |xs| == |args| && forall k :: 0 <= k < |args| ==> xs[k] == Arg(args[k])
  {
    seq(|args|, k requires 0 <= k < |args| => Arg(args[k]))
  }

  function Group(c: Cmd, rs: seq<Redirection>): Simple
    decreases c, 1
  {
    Block(LineOf(c), rs)
  }

  /** A line for the command, with parentheses around its parts. */
  function LineOf(c: Cmd): Line
    decreases c, 0
  {
    match c
    case Exec(args) => Line(Last(Plain(Words(args))), 0, End)
    case Redir(d, file, m) => Line(Last(Group(d, [Redirection(file, m)])), 0, End)
    case Pipe(l, r) => Line(Into(Group(l, []), Last(Group(r, []))), 0, End)
    case List(l, r) => Line(Last(Group(l, [])), 0, Then(LineOf(r)))
    case Back(d) => Line(Last(Group(d, [])), 1, End)
  }

  ghost predicate AllOk(ts: seq<Tok>) {
    forall k :: 0 <= k < |ts| ==> TokOk(ts[k])
  }

  lemma {:induction false} WordsMean(args: seq<string>)
    ensures Args(Words(args)) == args && Files(Words(args)) == []
    ensures (forall k :: 0 <= k < |args| ==> IsWord(args[k])) ==> AllOk(ShowItems(Words(args)))
    decreases |args|
  {
    if args != [] {
      assert Words(args)[1..] == Words(args[1..]);
      WordsMean(args[1..]);
    }
  }

  lemma {:induction false} FileMeans(r: Redirection)
    requires IsWord(r.file)
    ensures AllOk(ShowItems(AsItems([r])))
  {
    assert AsItems([r])[1..] == [];
    assert ShowItems(AsItems([r])) == ShowItem(File(r));
  }

  /** A line of one or two commands. */
  lemma {:induction false} ShortLine(e: Simple, e2: Simple)
    ensures var l := Line(Last(e), 0, End);
            LineCmd(l) == SimpleCmd(e) && (LegalLine(l) <==> LegalSimple(e)) && ShowLine(l) == ShowSimple(e)
    ensures var l := Line(Into(e, Last(e2)), 0, End);
            && LineCmd(l) == Pipe(SimpleCmd(e), SimpleCmd(e2)) && (LegalLine(l) <==> LegalSimple(e) && LegalSimple(e2))
            && ShowLine(l) == ShowSimple(e) + [Sym('|')] + ShowSimple(e2)
  {
    hide SimpleCmd, LegalSimple, ShowSimple;
    assert ShowPipes(Last(e)) == ShowSimple(e);
    assert ShowPipes(Last(e2)) == ShowSimple(e2) && PipesCmd(Last(e2)) == SimpleCmd(e2);
    assert LegalPipes(Last(e2)) <==> LegalSimple(e2);
  }

  lemma {:induction false} LongLine(e: Simple, d: Line)
    ensures var l := Line(Last(e), 0, Then(d));
            && LineCmd(l) == List(SimpleCmd(e), LineCmd(d)) && (LegalLine(l) <==> LegalSimple(e) && LegalLine(d))
            && ShowLine(l) == ShowSimple(e) + [Sym(';')] + ShowLine(d)
    ensures var l := Line(Last(e), 1, End);
            && LineCmd(l) == Back(SimpleCmd(e)) && (LegalLine(l) <==> LegalSimple(e))
            && ShowLine(l) == ShowSimple(e) + [Sym('&')]
  {
    hide SimpleCmd, LegalSimple, ShowSimple;
    assert Backs(SimpleCmd(e), 1) == Backs(Back(SimpleCmd(e)), 0);
    assert ShowPipes(Last(e)) == ShowSimple(e);
    assert Amps(1) == [Sym('&')];
    assert ShowRest(Then(d)) == [Sym(';')] + ShowLine(d);
  }

  lemma {:induction false} LineOfMeans(c: Cmd)
    requires Printable(c)
    ensures LineCmd(LineOf(c)) == c && LegalLine(LineOf(c)) && AllOk(ShowLine(LineOf(c)))
    decreases c, 0
  {
    hide LineCmd, LegalLine, ShowLine, Group, SimpleCmd, LegalSimple, ShowSimple, ShowItems, AsItems;
    NoItems();
    match c
    case Exec(args) =>
      PlainMeans(args);
      ShortLine(Plain(Words(args)), Plain([]));
    case Redir(d, file, m) =>
      FileMeans(Redirection(file, m));
      GroupMeans(d, [Redirection(file, m)]);
      ShortLine(Group(d, [Redirection(file, m)]), Plain([]));
      assert [Redirection(file, m)][..0] == [];
    case Pipe(l, r) =>
      GroupMeans(l, []);
      GroupMeans(r, []);
      ShortLine(Group(l, []), Group(r, []));
    case List(l, r) =>
      GroupMeans(l, []);
      LineOfMeans(r);
      LongLine(Group(l, []), LineOf(r));
    case Back(d) =>
      GroupMeans(d, []);
      LongLine(Group(d, []), LineOf(d));
  }

  lemma {:induction false} PlainMeans(args: seq<string>)
    requires Printable(Exec(args))
    ensures var e := Plain(Words(args)); SimpleCmd(e) == Exec(args) && LegalSimple(e) && AllOk(ShowSimple(e))
  {
    WordsMean(args);
  }

  lemma {:induction false} GroupMeans(c: Cmd, rs: seq<Redirection>)
    requires Printable(c) && AllOk(ShowItems(AsItems(rs)))
    ensures SimpleCmd(Group(c, rs)) == Around(c, rs) && LegalSimple(Group(c, rs)) && AllOk(ShowSimple(Group(c, rs)))
    decreases c, 1
  {
    LineOfMeans(c);
  }

  /** The command, with a space before each token and at the end. */
  function Print(c: Cmd): string {
    var ts := ShowLine(LineOf(c));
    Spell(ts, seq(|ts| + 1, _ => " "))
  }

  /** Parsing the printing of a command gives the command. */
  lemma {:induction false} PrintReads(c: Cmd)
    requires Printable(c)
    ensures ParseCmd(Print(c)) == Ok(c, |Print(c)|)
  {
    LineOfMeans(c);
    hide ParseCmd, LineOf, ShowLine, LegalLine, LineCmd, Spell;
    var ts := ShowLine(LineOf(c));
    RoundTrip(LineOf(c), seq(|ts| + 1, _ => " "));
  }
}
