/** The regular-expression matcher of grep, against the languages its patterns denote.  A
    string is the sequence of characters before the terminating NUL. */
module Regex {

  /** A pattern: End is a final `$`, Star(c, rest) is `c*` and what follows it. */
  datatype Re = Nil | End | One(c: char, rest: Re) | Star(c: char, rest: Re)

  /** `.` stands for any character. */
  predicate Fits(c: char, x: char) {
    c == '.' || c == x
  }

  /** The pattern written at position `i`. */
  ghost function Parse(re: string, i: nat): Re
    requires i <= |re|
    decreases |re| - i
  {
    if i == |re| then Nil
    else if i + 1 < |re| && re[i + 1] == '*' then Star(re[i], Parse(re, i + 2))
    else if re[i] == '$' && i + 1 == |re| then End
    else One(re[i], Parse(re, i + 1))
  }

  // ---- Languages ----

  /** The first `m` characters are instances of `c`. */
  ghost predicate Run(c: char, s: string, m: nat) {
    m <= |s| && forall x :: 0 <= x < m ==> Fits(c, s[x])
  }

  /** The string belongs to the language of the pattern. */
  ghost predicate Matches(r: Re, s: string) {
    match r
    case Nil => s == []
    case End => s == []
    case One(c, rest) => s != [] && Fits(c, s[0]) && Matches(rest, s[1..])
    case Star(c, rest) => exists m: nat :: Run(c, s, m) && Matches(rest, s[m..])
  }

  /** The pattern has a final `$`. */
  ghost predicate ToTheEnd(r: Re) {
    match r
    case Nil => false
    case End => true
    case One(_, rest) => ToTheEnd(rest)
    case Star(_, rest) => ToTheEnd(rest)
  }

  /** text[j..k] is matched by the pattern, at a place where it may be. */
  ghost predicate Occurs(r: Re, text: string, j: nat, k: nat) {
    j <= k <= |text| && Matches(r, text[j..k]) && (ToTheEnd(r) ==> k == |text|)
  }

  ghost predicate Here(r: Re, text: string, j: nat) {
    exists k :: Occurs(r, text, j, k)
  }

  lemma {:induction false} OccursOne(c: char, rest: Re, text: string, j: nat, k: nat)
    requires j <= |text|
    ensures Occurs(One(c, rest), text, j, k) <==> j < |text| && Fits(c, text[j]) && Occurs(rest, text, j + 1, k)
  {
    if j < k <= |text| { assert text[j..k][1..] == text[j + 1..k]; }
  }

  lemma {:induction false} HereOne(c: char, rest: Re, text: string, j: nat)
    requires j <= |text|
    ensures Here(One(c, rest), text, j) <==> j < |text| && Fits(c, text[j]) && Here(rest, text, j + 1)
  {
    if Here(One(c, rest), text, j) {
      var k :| Occurs(One(c, rest), text, j, k);
      OccursOne(c, rest, text, j, k);
    }
    if j < |text| && Fits(c, text[j]) && Here(rest, text, j + 1) {
      var k :| Occurs(rest, text, j + 1, k);
      OccursOne(c, rest, text, j, k);
    }
  }

  lemma {:induction false} DropTwice(s: string, m: nat)
    requires m + 1 <= |s|
    ensures s[1..][m..] == s[m + 1..]
  {
  }

  lemma {:induction false} StarMore(c: char, rest: Re, s: string, m: nat)
    requires s != [] && Fits(c, s[0]) && Run(c, s[1..], m) && Matches(rest, s[1..][m..])
    ensures Matches(Star(c, rest), s)
  {
    DropTwice(s, m);
    RunStep(c, s, m);
  }

  lemma {:induction false} StarLess(c: char, rest: Re, s: string, m: nat)
    requires 0 < m && Run(c, s, m) && Matches(rest, s[m..])
    ensures s != [] && Fits(c, s[0]) && Matches(Star(c, rest), s[1..])
  {
    DropTwice(s, m - 1);
    RunStep(c, s, m - 1);
  }

  /** Zero instances, or one more. */
  lemma {:induction false} StarStep(c: char, rest: Re, s: string)
    ensures Matches(Star(c, rest), s) <==> Matches(rest, s)
                                           || (s != [] && Fits(c, s[0]) && Matches(Star(c, rest), s[1..]))
  {
    assert s[0..] == s && Run(c, s, 0);
    if s != [] && Fits(c, s[0]) && Matches(Star(c, rest), s[1..]) {
      var m: nat :| Run(c, s[1..], m) && Matches(rest, s[1..][m..]);
      StarMore(c, rest, s, m);
    }
    if Matches(Star(c, rest), s) && !Matches(rest, s) {
      var m: nat :| Run(c, s, m) && Matches(rest, s[m..]);
      StarLess(c, rest, s, m);
    }
  }

  lemma {:induction false} RunStep(c: char, s: string, m: nat)
    requires s != []
    ensures Run(c, s, m + 1) <==> Fits(c, s[0]) && Run(c, s[1..], m)
  {
    if Run(c, s, m + 1) {
      forall x | 0 <= x < m ensures Fits(c, s[1..][x]) { assert s[1..][x] == s[x + 1]; }
    }
    if Fits(c, s[0]) && Run(c, s[1..], m) {
      forall x | 0 <= x < m + 1 ensures Fits(c, s[x]) { assert x > 0 ==> s[x] == s[1..][x - 1]; }
    }
  }

  lemma {:induction false} OccursStar(c: char, rest: Re, text: string, j: nat, k: nat)
    requires j <= |text|
    ensures Occurs(Star(c, rest), text, j, k) <==>
              Occurs(rest, text, j, k) || (j < |text| && Fits(c, text[j]) && Occurs(Star(c, rest), text, j + 1, k))
  {
    if j <= k <= |text| { StarStep(c, rest, text[j..k]); }
    if j < k <= |text| { assert text[j..k][1..] == text[j + 1..k]; }
  }

  lemma {:induction false} HereStar(c: char, rest: Re, text: string, j: nat)
    requires j <= |text|
    ensures Here(Star(c, rest), text, j) <==>
              Here(rest, text, j) || (j < |text| && Fits(c, text[j]) && Here(Star(c, rest), text, j + 1))
  {
    if Here(Star(c, rest), text, j) {
      var k :| Occurs(Star(c, rest), text, j, k);
      OccursStar(c, rest, text, j, k);
    }
    if Here(rest, text, j) {
      var k :| Occurs(rest, text, j, k);
      OccursStar(c, rest, text, j, k);
    }
    if j < |text| && Fits(c, text[j]) && Here(Star(c, rest), text, j + 1) {
      var k :| Occurs(Star(c, rest), text, j + 1, k);
      OccursStar(c, rest, text, j, k);
    }
  }

  lemma {:induction false} HereEnd(text: string, j: nat)
    requires j <= |text|
    ensures Here(Nil, text, j) && (Here(End, text, j) <==> j == |text|)
  {
    assert Occurs(Nil, text, j, j);
    assert j == |text| ==> Occurs(End, text, j, j);
  }

  // ---- The matcher ----

  /** matchhere: the pattern at `i` matches at the beginning of the text at `j`. */
  method MatchHere(re: string, i: nat, text: string, j: nat) returns (b: bool)
    requires i <= |re| && j <= |text|
    ensures b <==> Here(Parse(re, i), text, j)
    decreases |re| - i, 0
  {
    HereEnd(text, j);
    if i == |re| { return true; }
    if i + 1 < |re| && re[i + 1] == '*' {
      b := MatchStar(re[i], re, i + 2, text, j);
      return;
    }
    if re[i] == '$' && i + 1 == |re| { return j == |text|; }
    HereOne(re[i], Parse(re, i + 1), text, j);
    if j < |text| && (re[i] == '.' || re[i] == text[j]) {
      b := MatchHere(re, i + 1, text, j + 1);
      return;
    }
    return false;
  }

  /** matchstar: `c*` followed by the pattern at `i`. */
  method MatchStar(c: char, re: string, i: nat, text: string, j: nat) returns (b: bool)
    requires i <= |re| && j <= |text|
    ensures b <==> Here(Star(c, Parse(re, i)), text, j)
    decreases |re| - i, 1
  {
    var k := j;
    while true
      invariant j <= k <= |text|
      invariant Here(Star(c, Parse(re, i)), text, j) <==> Here(Star(c, Parse(re, i)), text, k)
      decreases |text| - k
    {
      HereStar(c, Parse(re, i), text, k);
      b := MatchHere(re, i, text, k);
      if b { return true; }
      if !(k < |text| && (text[k] == c || c == '.')) { return false; }
      k := k + 1;
    }
  }

  /** match: some substring of the text belongs to the language of the pattern, at the
      beginning if the pattern starts with `^` and up to the end if it ends with `$`. */
  method Match(re: string, text: string) returns (b: bool)
    ensures var caret := |re| > 0 && re[0] == '^';
            var r := Parse(re, if caret then 1 else 0);
            b <==> exists j, k :: Occurs(r, text, j, k) && (caret ==> j == 0)
  {
    if |re| > 0 && re[0] == '^' {
      b := MatchHere(re, 1, text, 0);
      return;
    }
    var j := 0;
    while true
      invariant j <= |text| && forall i: nat :: i < j ==> !Here(Parse(re, 0), text, i)
      decreases |text| - j
    {
      b := MatchHere(re, 0, text, j);
      if b { return; }
      if j == |text| {
        assert forall i: nat, k: nat :: Occurs(Parse(re, 0), text, i, k) ==> Here(Parse(re, 0), text, i);
        return;
      }
      j := j + 1;
    }
  }
}
