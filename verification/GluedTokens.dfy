/** Operators need no blanks around them: a word ends where an operator starts. */
module GluedTokens {
  import opened Wrappers
  import opened Seqs
  import opened ShellQuote
  import opened Lexer
  import opened PrintedWords
  import opened CommandPrinter

  /** What makes an operator no longer one. */
  predicate Free(rest: string) {
    rest == "" || (rest[0] != '>' && rest[0] != '|' && rest[0] != '&')
  }

  /** An operator is read as itself in front of anything that does not make it a longer one. */
  lemma OpGlued(op: Op, rest: string)
    requires Free(rest)
    ensures OpAt(OpText(op) + rest) == Some(op)
  {
    var s := OpText(op) + rest;
    OpAtIsChain(s);
    PrefixHolds(OpText(op), rest);
    PrefixChar(s, "2>>", 0); PrefixChar(s, "2>>", 2);
    PrefixChar(s, "2>&1", 0); PrefixChar(s, "2>&1", 2);
    PrefixChar(s, "2>", 0); PrefixChar(s, "1>&2", 0);
    PrefixChar(s, ">>", 0); PrefixChar(s, ">>", 1); PrefixChar(s, ">", 0); PrefixChar(s, "<", 0);
    PrefixChar(s, "||", 0); PrefixChar(s, "||", 1); PrefixChar(s, "&&", 0); PrefixChar(s, "|", 0);
    assert forall i :: 0 <= i < |OpText(op)| ==> s[i] == OpText(op)[i];
    assert |s| > |OpText(op)| ==> s[|OpText(op)|] == rest[0];
  }

  /** A plain word, or a quoted one. */
  ghost predicate WordText(w: string) {
    (w != "" && AllSafe(w)) || exists s :: w == Open("", s)
  }

  /** The word and the operator stay two: only a `2` in front of `>` joins it. */
  predicate StayTwo(w: string, op: Op) {
    !(w != "" && w[|w| - 1] == '2' && op in {Great, DGreat})
  }

  lemma OpEnds(w: string, op: Op, rest: string)
    requires WordText(w) && StayTwo(w, op) && Free(rest)
    ensures Ends(w, OpText(op) + rest)
  {
    var s := OpText(op) + rest;
    OpGlued(op, rest);
    OpFirst(s);
    assert s[0] == OpText(op)[0];
    assert |s| >= 3 ==> s[..3][1] == s[1] && s[..3][0] == s[0];
    assert op == Great && rest != "" ==> s[1] == rest[0];
    assert op == DGreat ==> s[1] == '>';
  }

  /** A word directly in front of an operator ends there, and the operator is left. */
  lemma {:induction false} WordGlued(w: string, op: Op, rest: string)
    requires WordText(w) && StayTwo(w, op) && Free(rest)
    ensures LexWord(w + (OpText(op) + rest)) == Ok(Lexed(w, OpText(op) + rest))
    ensures OpAt(OpText(op) + rest) == Some(op)
  {
    OpGlued(op, rest);
    OpEnds(w, op, rest);
    WordBefore(w, OpText(op) + rest);
  }

  lemma WordBefore(w: string, rest: string)
    requires WordText(w) && Ends(w, rest)
    ensures LexWord(w + rest) == Ok(Lexed(w, rest))
  {
    WordGoesOn(w, rest);
    WordAlone(w, rest);
  }

  /** The lexer takes a word's text as it is and goes on behind it. */
  lemma WordGoesOn(w: string, x: string)
    requires WordText(w) && NoJoin(w, x)
    ensures LexWord(w + x) == Prepend(w, LexWord(x))
  {
    if w != "" && AllSafe(w) {
      SafeLex(w, x);
    } else {
      var s :| w == Open("", s);
      QuotedLex("", s, x);
    }
  }

  /** Without a blank, a `2` at the end of a word joins the `>` behind it: the word is shorter, and the
      redirect is another one. */
  lemma TwoJoins(w: string, rest: string)
    requires AllSafe(w) && Free(rest)
    ensures LexWord((w + "2") + (">" + rest)) == Ok(Lexed(w, "2>" + rest))
  {
    var x := "2>" + rest;
    OpGlued(GreatErr, rest);
    assert (w + "2") + (">" + rest) == w + x;
    assert x[0] == '2';
    assert |x| >= 3 ==> x[..3][0] == '2';
    SafeLex(w, x);
    WordAlone(w, x);
  }

  // ---- What is refused outside quotes ----

  /** Background, substitution and globs, by what a text starts with. */
  function Refusal(x: string): Option<Error> {
    if x == "" then None
    else if x[0] == '&' && !(|x| > 1 && x[1] == '&') then Some(Background)
    else if x[0] == '`' then Some(Backtick)
    else if x[0] == '*' || x[0] == '?' || x[0] == '[' then Some(Glob)
    else if x[0] == '$' && |x| > 1 && x[1] == '(' then Some(Substitution)
    else None
  }

  lemma RefusedStep(x: string)
    requires Refusal(x).Some?
    ensures WordStep(x) == Fail(Refusal(x).value) && Tokenize(x) == Err(Refusal(x).value)
  {
    if x[0] == '&' {
      LoneAmpersand(x);
    } else {
      NoOp(x);
    }
  }

  lemma LoneAmpersand(x: string)
    requires x != "" && x[0] == '&' && !(|x| > 1 && x[1] == '&')
    ensures OpAt(x).None?
  {
    OpAtIsChain(x);
    PrefixChar(x, "2>>", 0); PrefixChar(x, "2>&1", 0); PrefixChar(x, "2>", 0); PrefixChar(x, "1>&2", 0);
    PrefixChar(x, ">>", 0); PrefixChar(x, ">", 0); PrefixChar(x, "<", 0); PrefixChar(x, "||", 0);
    PrefixChar(x, "&&", 1); PrefixChar(x, "|", 0); PrefixChar(x, ";", 0);
  }

  /** At the start of a command or anywhere behind a word's text, quoted or not, an unquoted `&` that is no
      `&&`, a backtick, a glob character or `$(` makes the command an error of its kind. */
  lemma RefusedAnywhere(w: string, x: string)
    requires (w == "" || WordText(w)) && Refusal(x).Some?
    ensures Tokenize(w + x) == Err(Refusal(x).value)
  {
    RefusedStep(x);
    if w == "" {
      assert w + x == x;
    } else {
      assert |x| >= 3 ==> x[..3][0] == x[0];
      WordGoesOn(w, x);
      if !AllSafe(w) {
        var s :| w == Open("", s);
        assert w[0] == '\'';
      }
      WordRefused(w, x);
    }
  }

  lemma WordRefused(w: string, x: string)
    requires w != "" && (SafeChar(w[0]) || w[0] == '\'') && LexWord(w + x).Err?
    ensures Tokenize(w + x) == Err(LexWord(w + x).error)
  {
    assert (w + x)[0] == w[0];
    LexErrNoOp(w + x);
  }

  lemma LexErrNoOp(s: string)
    requires LexWord(s).Err?
    ensures OpAt(s).None?
  {
  }

  // ---- Token lists with and without blanks ----

  /** Tokens, each with a blank after it or none. */
  function RenderWith(ts: seq<Token>, gaps: seq<bool>): string
    requires |gaps| == |ts|
  {
    if ts == [] then "" else TokenText(ts[0]) + ((if gaps[0] then " " else "") + RenderWith(ts[1..], gaps[1..]))
  }

  /** Which tokens may stand next to each other without a blank. */
  predicate MayTouch(t: Token, u: Token) {
    match t
    case Word(w) => u.Operator? && StayTwo(w, u.op)
    case Operator(_) => u.Word?
  }

  predicate GapsFit(ts: seq<Token>, gaps: seq<bool>)
    requires |gaps| == |ts|
  {
    forall i :: 0 <= i < |ts| - 1 && !gaps[i] ==> MayTouch(ts[i], ts[i + 1])
  }

  lemma GapsRest(ts: seq<Token>, gaps: seq<bool>)
    requires |gaps| == |ts| && ts != [] && GapsFit(ts, gaps)
    ensures GapsFit(ts[1..], gaps[1..])
    ensures |ts| > 1 && !gaps[0] ==> MayTouch(ts[0], ts[1])
  {
    forall i | 0 <= i < |ts[1..]| - 1 && !gaps[1..][i] ensures MayTouch(ts[1..][i], ts[1..][i + 1]) {
      assert !gaps[i + 1] && ts[1..][i] == ts[i + 1] && ts[1..][i + 1] == ts[i + 2];
    }
  }

  lemma WordStartsFree(w: string, rest: string)
    requires WordText(w)
    ensures Free(w + rest)
  {
    if !(w != "" && AllSafe(w)) {
      var s :| w == Open("", s);
      assert w[0] == '\'';
    }
    assert (w + rest)[0] == w[0];
  }

  ghost predicate AllPrintable(ts: seq<Token>) {
    forall i :: 0 <= i < |ts| ==> Printed(ts[i])
  }

  /** What follows a token. */
  function Following(ts: seq<Token>, gaps: seq<bool>): string
    requires ts != [] && |gaps| == |ts|
  {
    (if gaps[0] then " " else "") + RenderWith(ts[1..], gaps[1..])
  }

  lemma FollowsOperator(ts: seq<Token>, gaps: seq<bool>)
    requires ts != [] && |gaps| == |ts| && AllPrintable(ts) && GapsFit(ts, gaps) && ts[0].Operator?
    ensures Free(Following(ts, gaps))
  {
    GapsRest(ts, gaps);
    if !gaps[0] {
      Nothing(RenderWith(ts[1..], gaps[1..]));
      if |ts| > 1 {
        assert ts[1..][0] == ts[1] && Printed(ts[1]);
        WordStartsFree(ts[1].raw, Following(ts[1..], gaps[1..]));
      }
    }
  }

  lemma FollowsWord(ts: seq<Token>, gaps: seq<bool>)
    requires ts != [] && |gaps| == |ts| && AllPrintable(ts) && GapsFit(ts, gaps) && ts[0].Word?
    ensures Ends(ts[0].raw, Following(ts, gaps))
  {
    GapsRest(ts, gaps);
    assert Printed(ts[0]);
    if gaps[0] {
      EndedEnds(ts[0].raw, Following(ts, gaps));
    } else {
      Nothing(RenderWith(ts[1..], gaps[1..]));
      if |ts| > 1 {
        assert ts[1..][0] == ts[1];
        FollowsOperator(ts[1..], gaps[1..]);
        OpEnds(ts[0].raw, ts[1].op, Following(ts[1..], gaps[1..]));
      } else {
        EndedEnds(ts[0].raw, Following(ts, gaps));
      }
    }
  }

  lemma OpTokenGlued(op: Op, rest: string)
    requires Free(rest)
    ensures Tokenize(OpText(op) + rest) == Cons(Operator(op), Tokenize(rest))
  {
    var s := OpText(op) + rest;
    OpGlued(op, rest);
    assert s[|OpText(op)|..] == rest;
    assert s[0] == OpText(op)[0] && OpChar(s[0]);
    if op == AndIf {
      assert s[1] == '&';
    }
  }

  lemma WordTokenGlued(w: string, rest: string)
    requires WordText(w) && Ends(w, rest)
    ensures Tokenize(w + rest) == Cons(Word(w), Tokenize(rest))
  {
    WordBefore(w, rest);
    if !(w != "" && AllSafe(w)) {
      var s :| w == Open("", s);
      assert w[0] == '\'';
    }
    WordToken(w, rest);
  }

  lemma GapSkipped(gap: bool, text: string)
    ensures Tokenize((if gap then " " else "") + text) == Tokenize(text)
  {
    if gap { BlankSkipped(text); } else { Nothing(text); }
  }

  /** A rendered token list is read back wherever blanks are left out between a word and an operator. */
  lemma {:induction false} LexGlued(ts: seq<Token>, gaps: seq<bool>)
    requires |gaps| == |ts| && AllPrintable(ts) && GapsFit(ts, gaps)
    ensures Tokenize(RenderWith(ts, gaps)) == Ok(ts)
    decreases |ts|
  {
    if ts != [] {
      GapsRest(ts, gaps);
      LexGlued(ts[1..], gaps[1..]);
      GapSkipped(gaps[0], RenderWith(ts[1..], gaps[1..]));
      assert Printed(ts[0]);
      match ts[0] {
        case Operator(op) =>
          FollowsOperator(ts, gaps);
          OpTokenGlued(op, Following(ts, gaps));
        case Word(w) =>
          FollowsWord(ts, gaps);
          WordTokenGlued(w, Following(ts, gaps));
      }
      Uncons(ts, []);
    }
  }

  // ---- Blanks, comments and open quotes ----

  /** A blank, a tab or a line break ends a word and is skipped. */
  lemma BlankEnds(w: string, c: char, rest: string)
    requires WordText(w) && (c == ' ' || c == '\t' || c == '\n')
    ensures Tokenize(w + ([c] + rest)) == Cons(Word(w), Tokenize(rest))
    ensures Tokenize([c] + rest) == Tokenize(rest)
  {
    assert ([c] + rest)[1..] == rest && ([c] + rest)[0] == c;
    assert |[c] + rest| >= 3 ==> ([c] + rest)[..3][0] == c;
    WordTokenGlued(w, [c] + rest);
  }

  /** A `#` ends a word too, and the command. */
  lemma HashEnds(w: string, rest: string)
    requires WordText(w)
    ensures Tokenize(w + ("#" + rest)) == Ok([Word(w)])
  {
    var x := "#" + rest;
    assert x[0] == '#';
    assert |x| >= 3 ==> x[..3][0] == '#';
    WordTokenGlued(w, x);
    assert [Word(w)] + [] == [Word(w)];
  }

  lemma {:induction false} NoQuoteLen(s: string)
    requires '\'' !in s
    ensures SingleLen(s) == |s|
  {
    if s != "" { NoQuoteLen(s[1..]); }
  }

  lemma {:induction false} NoDoubleLen(s: string)
    requires '"' !in s
    ensures DoubleLen(s) == |s|
    decreases |s|
  {
    if s != "" { NoDoubleLen(s[Unit(s)..]); }
  }

  lemma FailBehind(w: string, x: string)
    requires (WordText(w) || w == "") && x != "" && IsQuote(x[0]) && WordStep(x).Fail?
    ensures LexWord(w + x) == Err(WordStep(x).error)
  {
    if w == "" {
      assert w + x == x;
    } else {
      assert |x| >= 3 ==> x[..3][0] == x[0];
      WordGoesOn(w, x);
    }
  }

  /** A quote that is not closed is an error, wherever in a word it opens. */
  lemma OpenQuoteRefused(w: string, s: string)
    requires WordText(w) || w == ""
    ensures '\'' !in s ==> LexWord(w + ("'" + s)) == Err(OpenSingle)
    ensures '"' !in s ==> LexWord(w + ("\"" + s)) == Err(OpenDouble)
  {
    if '\'' !in s {
      SingleOpens(s);
      FailBehind(w, "'" + s);
    }
    if '"' !in s {
      DoubleOpens(s);
      FailBehind(w, "\"" + s);
    }
  }

  lemma SingleOpens(s: string)
    requires '\'' !in s
    ensures WordStep("'" + s) == Fail(OpenSingle)
  {
    var x := "'" + s;
    NoOp(x);
    assert x[1..] == s;
    NoQuoteLen(s);
  }

  lemma DoubleOpens(s: string)
    requires '"' !in s
    ensures WordStep("\"" + s) == Fail(OpenDouble)
  {
    var x := "\"" + s;
    NoOp(x);
    assert x[1..] == s;
    NoDoubleLen(s);
  }
}
