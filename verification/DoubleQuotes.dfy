/** What double quotes protect, and what a backslash does inside them. */
module DoubleQuotes {
  import opened Seqs
  import opened Lexer
  import opened WordParts
  import opened PrintedWords

  /** A backslash before every character. */
  function EscapeAll(s: string): string {
    if s == "" then "" else ['\\', s[0]] + EscapeAll(s[1..])
  }

  lemma EscapedUnit(c: char, t: string)
    ensures var s := ['\\', c] + t; s[0] == '\\' && s[1] == c && s[2..] == t && Unit(s) == 2 && VarLen(s) == 0
  {
  }

  lemma {:induction false} EscapedLen(s: string, t: string)
    ensures DoubleLen(EscapeAll(s) + ("\"" + t)) == |EscapeAll(s)|
  {
    if s == "" {
      Nothing("\"" + t);
    } else {
      var rest := EscapeAll(s[1..]) + ("\"" + t);
      Assoc(['\\', s[0]], EscapeAll(s[1..]), "\"" + t);
      EscapedUnit(s[0], rest);
      EscapedLen(s[1..], t);
    }
  }

  lemma {:induction false} EscapedInside(s: string, env: Env)
    ensures InsideValue(EscapeAll(s), env) == s
  {
    if s != "" {
      EscapedUnit(s[0], EscapeAll(s[1..]));
      EscapedInside(s[1..], env);
      Uncons(s, []);
    }
  }

  /** Text without a double quote, a backslash or a dollar sign. */
  predicate Inactive(s: string) {
    forall i :: 0 <= i < |s| ==> s[i] != '"' && s[i] != '\\' && s[i] != '$'
  }

  lemma {:induction false} InactiveInside(s: string, env: Env)
    requires Inactive(s)
    ensures InsideValue(s, env) == s
  {
    if s != "" {
      assert Unit(s) == 1 && VarLen(s) == 0;
      InactiveInside(s[1..], env);
      Uncons(s, []);
    }
  }

  lemma {:induction false} InactiveLen(s: string, t: string)
    requires Inactive(s)
    ensures DoubleLen(s + ("\"" + t)) == |s|
  {
    if s == "" {
      Nothing("\"" + t);
    } else {
      Uncons(s, "\"" + t);
      assert (s + ("\"" + t))[1..] == s[1..] + ("\"" + t) && Unit(s + ("\"" + t)) == 1;
      InactiveLen(s[1..], t);
    }
  }

  lemma SpanParts(body: string, x: string)
    ensures var s, k := "\"" + (body + ("\"" + x)), |body|;
      k + 1 < |s| && s[0] == '"' && s[1..] == body + ("\"" + x)
      && s[..k + 2] == "\"" + body + "\"" && s[k + 2..] == x
  {
  }

  lemma TakenLex(s: string, size: nat)
    requires 0 < size <= |s| && WordStep(s) == Take(s[..size], size)
    ensures LexWord(s) == Prepend(s[..size], LexWord(s[size..]))
  {
  }

  lemma SpanReads(body: string, x: string)
    requires DoubleLen(body + ("\"" + x)) == |body|
    ensures LexWord("\"" + (body + ("\"" + x))) == Prepend("\"" + body + "\"", LexWord(x))
  {
    var s := "\"" + (body + ("\"" + x));
    SpanParts(body, x);
    SpanTaken('"', s, |body|);
    TakenLex(s, |body| + 2);
  }

  lemma SpanMeans(body: string, y: string, env: Env)
    requires DoubleLen(body + ("\"" + y)) == |body|
    ensures Value("\"" + (body + ("\"" + y)), env) == InsideValue(body, env) + Value(y, env)
  {
    var inner := body + ("\"" + y);
    ValueQuoted('"', inner, |body|, env);
    assert inner[..|body|] == body && inner[|body| + 1..] == y;
  }

  /** Whatever a text is made of, written in double quotes with a backslash before each character it is one
      stretch of a word and expands to itself, in every environment. */
  lemma EscapedReads(s: string, x: string, y: string, env: Env)
    ensures LexWord("\"" + (EscapeAll(s) + ("\"" + x))) == Prepend("\"" + EscapeAll(s) + "\"", LexWord(x))
    ensures Value("\"" + (EscapeAll(s) + ("\"" + y)), env) == s + Value(y, env)
  {
    EscapedLen(s, x);
    EscapedLen(s, y);
    SpanReads(EscapeAll(s), x);
    SpanMeans(EscapeAll(s), y, env);
    EscapedInside(s, env);
  }

  /** So is text without double quotes, backslashes and dollar signs, as it stands: blanks, operators, globs,
      single quotes and line breaks among it. */
  lemma InactiveReads(s: string, x: string, y: string, env: Env)
    requires Inactive(s)
    ensures LexWord("\"" + (s + ("\"" + x))) == Prepend("\"" + s + "\"", LexWord(x))
    ensures Value("\"" + (s + ("\"" + y)), env) == s + Value(y, env)
  {
    InactiveLen(s, x);
    InactiveLen(s, y);
    SpanReads(s, x);
    SpanMeans(s, y, env);
    InactiveInside(s, env);
  }
}
