/** Quoted words go through the lexer whole and expand to what was quoted, whatever the environment. */
module PrintedWords {
  import opened Wrappers
  import opened Seqs
  import opened ShellQuote
  import opened Lexer
  import opened WordParts
  import opened Syntax

  /** What may stand right after a printed word. */
  predicate Ended(rest: string) {
    rest == "" || rest[0] == ' '
  }

  /** The text behind a word does not join the word's last character to an operator. */
  predicate NoJoin(w: string, x: string) {
    (w != "" && w[|w| - 1] == '2' ==> x == "" || x[0] != '>')
    && (w != "" && w[|w| - 1] == '1' ==> !StartsWith(x, ">&2"))
  }

  /** And it ends the word. */
  predicate Ends(w: string, rest: string) {
    WordStep(rest).Stop? && NoJoin(w, rest)
  }

  lemma SafeStep(s: string)
    requires s != "" && SafeChar(s[0])
    requires s[0] == '2' ==> |s| == 1 || s[1] != '>'
    requires s[0] == '1' ==> !StartsWith(s[1..], ">&2")
    ensures WordStep(s) == Take([s[0]], 1)
  {
    if s[0] == '1' {
      OneAlone(s);
    } else {
      NoOp(s);
    }
  }

  lemma OneAlone(s: string)
    requires s != "" && s[0] == '1' && !StartsWith(s[1..], ">&2")
    ensures OpAt(s).None?
  {
    FirstOpFits(OPERATORS, s);
    assert |s| >= 4 ==> s[1..][..3] == s[..4][1..];
    assert forall op: Op :: OpText(op)[0] == '1' ==> op == GreatAndOut;
    assert forall n :: 0 < n <= |s| ==> s[..n][0] == '1';
  }

  lemma StepLex(c: char, t: string)
    requires WordStep([c] + t) == Take([c], 1)
    ensures LexWord([c] + t) == Prepend([c], LexWord(t))
  {
    Drop1(c, t);
  }

  lemma Drop1(c: char, t: string)
    ensures ([c] + t)[1..] == t
  {
  }

  lemma EndStep(rest: string)
    requires WordStep(rest).Stop?
    ensures LexWord(rest) == Ok(Lexed("", rest))
  {
  }

  lemma EndedEnds(w: string, rest: string)
    requires Ended(rest)
    ensures Ends(w, rest)
  {
  }

  lemma PrependNone(r: Result<Lexed, Error>)
    ensures Prepend("", r) == r
  {
    if r.Ok? { Nothing(r.value.raw); }
  }

  lemma PrependBoth(a: string, b: string, r: Result<Lexed, Error>)
    ensures Prepend(a, Prepend(b, r)) == Prepend(a + b, r)
  {
    if r.Ok? { Assoc(a, b, r.value.raw); }
  }

  /** The lexer takes safe characters as they are, and goes on behind them. */
  lemma {:induction false} SafeLex(w: string, x: string)
    requires AllSafe(w) && NoJoin(w, x)
    ensures LexWord(w + x) == Prepend(w, LexWord(x))
  {
    if w == "" {
      assert w + x == x;
      PrependNone(LexWord(x));
    } else {
      SafeLex(w[1..], x);
      Uncons(w, x);
      FirstOfSafe(w, x);
      SafeStep([w[0]] + (w[1..] + x));
      StepLex(w[0], w[1..] + x);
      PrependBoth([w[0]], w[1..], LexWord(x));
    }
  }

  /** A word that its surroundings end. */
  lemma WordAlone(w: string, rest: string)
    requires WordStep(rest).Stop?
    ensures Prepend(w, LexWord(rest)) == Ok(Lexed(w, rest))
  {
    EndStep(rest);
    Nothing(w);
  }

  /** Inside a safe word no operator starts. */
  lemma FirstOfSafe(w: string, rest: string)
    requires w != "" && AllSafe(w) && NoJoin(w, rest)
    ensures NoJoin(w[1..], rest)
    ensures var s := w[1..] + rest;
      (w[0] == '2' ==> s == "" || s[0] != '>') && (w[0] == '1' ==> !StartsWith(s, ">&2"))
  {
    if |w| > 1 {
      assert (w[1..] + rest)[0] == w[1];
      assert SafeChar(w[1]) && w[1] != '>';
      assert |w[1..] + rest| >= 3 ==> (w[1..] + rest)[..3][0] == w[1];
    } else {
      assert w[1..] + rest == rest;
    }
  }

  /** Nothing in `body` ends or escapes a span between two `q`. */
  predicate Inert(q: char, body: string) {
    IsQuote(q) && forall i :: 0 <= i < |body| ==> body[i] != q && (q == '"' ==> body[i] != '\\')
  }

  lemma SpanLen(q: char, body: string, t: string)
    requires Inert(q, body)
    ensures q == '\'' ==> SingleLen(body + [q] + t) == |body|
    ensures q == '"' ==> DoubleLen(body + [q] + t) == |body|
  {
    if body == "" {
      assert body + [q] + t == [q] + t;
    } else {
      assert (body + [q] + t)[1..] == body[1..] + [q] + t;
      SpanLen(q, body[1..], t);
    }
  }

  lemma Front(q: char, body: string, t: string)
    ensures ([q] + (body + [q] + t))[..|body| + 2] == [q] + body + [q]
  {
  }

  lemma SpanStep(q: char, body: string, t: string)
    requires Inert(q, body)
    ensures WordStep([q] + (body + [q] + t)) == Take([q] + body + [q], |body| + 2)
  {
    var u := body + [q] + t;
    SpanLen(q, body, t);
    Halves(body, q, t);
    PutBefore(q, u, |body|);
    SpanTaken(q, [q] + u, |body|);
    Front(q, body, t);
  }

  /** A quote is taken with its span and the quote that closes it. */
  lemma SpanTaken(q: char, s: string, k: nat)
    requires IsQuote(q) && k + 1 < |s| && s[0] == q
    requires k == if q == '\'' then SingleLen(s[1..]) else DoubleLen(s[1..])
    ensures WordStep(s) == Take(s[..k + 2], k + 2)
  {
    NoOp(s);
  }

  /** A quoted span is taken whole, and the lexer goes on behind it. */
  lemma SpanLex(q: char, body: string, t: string)
    requires Inert(q, body)
    ensures LexWord([q] + body + [q] + t) == Prepend([q] + body + [q], LexWord(t))
  {
    var s := [q] + (body + [q] + t);
    SpanStep(q, body, t);
    Enclose(q, body, t);
    Halves(body, q, t);
    PutBefore(q, body + [q] + t, |body|);
  }

  /** What an escaped quote is made of: the end of a span, a span of its own, and a new one. */
  lemma Reopened(a: string, x: string)
    ensures "'" + a + ("'\"'\"'" + x) == "'" + a + "'" + ("\"" + "'" + "\"" + ("'" + "" + x))
  {
    assert "'\"'\"'" + x == "'" + ("\"" + "'" + "\"" + ("'" + "" + x));
    Assoc("'" + a, "'", "\"" + "'" + "\"" + ("'" + "" + x));
  }

  /** Where a quoted word is open, and `a` has been read since the last opening quote. */
  function Open(a: string, s: string): string {
    "'" + a + Escape(s) + "'"
  }

  lemma OpenChar(a: string, s: string)
    requires s != "" && s[0] != '\''
    ensures Open(a, s) == Open(a + [s[0]], s[1..])
  {
    Assoc(a, [s[0]], Escape(s[1..]));
    Assoc("'", a, Escape(s));
    Assoc("'", a + [s[0]], Escape(s[1..]));
  }

  lemma OpenQuote(a: string, s: string)
    requires s != "" && s[0] == '\''
    ensures Open(a, s) == "'" + a + "'" + ("\"" + "'" + "\"" + Open("", s[1..]))
  {
    var x := Escape(s[1..]);
    var y := "'" + "" + x;
    Reopened(a, x);
    Assoc("'" + a + "'", "\"" + "'" + "\"" + y, "'");
    Assoc("\"" + "'" + "\"", y, "'");
  }

  lemma OpenNothing(a: string)
    ensures Open(a, "") == "'" + a + "'"
  {
    Nothing("'" + a);
  }

  /** A quoted word is lexed to its end, and the lexer goes on behind it. */
  lemma {:induction false} QuotedLex(a: string, s: string, x: string)
    requires Inert('\'', a)
    ensures LexWord(Open(a, s) + x) == Prepend(Open(a, s), LexWord(x))
    decreases |s|
  {
    if s == "" {
      SpanLex('\'', a, x);
      OpenNothing(a);
    } else if s[0] != '\'' {
      OpenChar(a, s);
      QuotedLex(a + [s[0]], s[1..], x);
    } else {
      var t := Open("", s[1..]);
      var u := "\"" + "'" + "\"" + t;
      QuotedLex("", s[1..], x);
      SpanLex('"', "'", t + x);
      Assoc("\"" + "'" + "\"", t, x);
      SpanLex('\'', a, u + x);
      Assoc("'" + a + "'", u, x);
      OpenQuote(a, s);
      PrependBoth("\"" + "'" + "\"", t, LexWord(x));
      PrependBoth("'" + a + "'", u, LexWord(x));
    }
  }

  lemma {:induction false} SafeValue(w: string, env: Env)
    requires AllSafe(w)
    ensures Value(w, env) == w
  {
    if w != "" {
      ValuePlain(w, env);
      SafeValue(w[1..], env);
      Uncons(w, []);
    }
  }

  /** The span of its own that stands for a single quote. */
  lemma ValueOfQuote(t: string, env: Env)
    ensures Value("\"" + "'" + "\"" + t, env) == "'" + Value(t, env)
  {
    var inner := "'" + "\"" + t;
    SpanLen('"', "'", t);
    Halves("'", '"', t);
    ValueQuoted('"', inner, 1, env);
    Enclose('"', "'", t);
    assert InsideValue("'", env) == "'" by {
      assert "'"[1..] == "";
    }
  }

  lemma {:induction false} QuotedValue(a: string, s: string, env: Env)
    requires Inert('\'', a)
    ensures Value(Open(a, s), env) == a + s
    decreases |s|
  {
    if s == "" {
      OpenNothing(a);
      ValueSingle(a, "", env);
      Nothing("'" + a + "'");
    } else if s[0] != '\'' {
      OpenChar(a, s);
      QuotedValue(a + [s[0]], s[1..], env);
      Uncons(s, []);
      Assoc(a, [s[0]], s[1..]);
    } else {
      var t := Open("", s[1..]);
      OpenQuote(a, s);
      ValueSingle(a, "\"" + "'" + "\"" + t, env);
      ValueOfQuote(t, env);
      QuotedValue("", s[1..], env);
      Nothing(s[1..]);
      Uncons(s, []);
    }
  }

  /** The lexer reads a quoted argument as one word, whatever it is made of. */
  lemma QuoteLexes(s: string, rest: string)
    requires Ends(Quote(s), rest)
    ensures LexWord(Quote(s) + rest) == Ok(Lexed(Quote(s), rest))
  {
    QuoteForms(s);
    if s != "" && AllSafe(s) {
      SafeLex(s, rest);
    } else {
      Nothing("'");
      QuotedLex("", s, rest);
    }
    WordAlone(Quote(s), rest);
  }

  /** In every environment the word that `Quote(s)` becomes expands to `s` again. */
  lemma QuoteMeans(s: string, env: Env)
    ensures Expand(Parts(Quote(s), ""), env) == s
  {
    PartsMean(Quote(s), "", env);
    QuoteForms(s);
    if s != "" && AllSafe(s) {
      SafeValue(s, env);
    } else {
      Nothing("'");
      QuotedValue("", s, env);
    }
    Nothing(s);
  }

  /** Text that is taken raw, as redirect targets are, survives quoting only if nothing needs it. */
  lemma RawKeptIff(s: string)
    ensures Quote(s) == s <==> s != "" && AllSafe(s)
  {
    QuoteForms(s);
    EscapeGrows(s);
  }

  lemma EscapeGrows(s: string)
    ensures |Escape(s)| >= |s|
  {
  }

  lemma {:induction false} UpToNewlineFacts(s: string)
    ensures |UpToNewline(s)| <= |s| && forall i :: 0 <= i < |UpToNewline(s)| ==> UpToNewline(s)[i] != '\n'
    ensures (forall i :: 0 <= i < |s| ==> s[i] != '\n') ==> UpToNewline(s) == s
  {
    if s != "" && s[0] != '\n' {
      UpToNewlineFacts(s[1..]);
      Uncons(s, []);
    }
  }
}
