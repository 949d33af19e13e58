/**
 * Reading a word takes two passes: the lexer strips unquoted backslashes and keeps quotes, then
 * the raw text is cut and expanded. Here a reader that does everything in one pass over the
 * original text. The two agree on every word without an escape that the second pass could
 * read again; `WordEscapes` says when they agree on one with such an escape in front.
 */
module WordFusion {
  import opened Wrappers
  import opened Lexer
  import opened Seqs
  import opened WordParts

  /** Name characters of the original text, up to where an operator starts. */
  function SourceTail(s: string): (n: nat)
    ensures n <= |s|
  {
    if s == "" || !NameChar(s[0]) || OpAt(s).Some? then 0 else 1 + SourceTail(s[1..])
  }

  function SourceName(s: string): (n: nat)
    ensures n <= |s|
  {
    if s == "" || !NameStart(s[0]) then 0 else 1 + SourceTail(s[1..])
  }

  /** The length of the variable that the original text starts with. */
  function SourceVar(s: string): (n: nat)
    ensures n <= |s|
    ensures n > 0 ==> n >= 2 && s[0] == '$'
  {
    if |s| < 2 || s[0] != '$' then 0
    else if SourceName(s[1..]) > 0 then 1 + SourceName(s[1..])
    else if s[1] != '{' || SourceName(s[2..]) == 0 then 0
    else
      var k := 2 + SourceName(s[2..]);
      if k < |s| && s[k] == '}' then k + 1 else 0
  }

  function SourceVarName(s: string): string
    requires SourceVar(s) > 0
  {
    if s[1] == '{' then s[2..SourceVar(s) - 1] else s[1..SourceVar(s)]
  }

  /** Value and rest of one word, in one pass over the original text. */
  function ReadWord(s: string, env: Env): (r: Result<(string, string), Error>)
    decreases |s|
  {
    match WordStep(s)
    case Stop => Ok(("", s))
    case Fail(e) => Err(e)
    case Take(text, size) =>
      var n := SourceVar(s);
      if n > 0 then
        Before(Lookup(env, SourceVarName(s)), ReadWord(s[n..], env))
      else Before(TakenValue(s, text, env), ReadWord(s[size..], env))
  }

  /** The two passes of the source one after the other: lex, then cut and expand. */
  function Passes(r: Result<Lexed, Error>, env: Env): Result<(string, string), Error> {
    match r
    case Ok(l) => Ok((Expand(Parts(l.raw, ""), env), l.rest))
    case Err(e) => Err(e)
  }

  function Before(text: string, r: Result<(string, string), Error>): Result<(string, string), Error> {
    match r
    case Ok(p) => Ok((text + p.0, p.1))
    case Err(e) => Err(e)
  }

  /** What a step that starts no variable stands for. */
  function TakenValue(s: string, text: string, env: Env): string
    requires s != ""
  {
    if s[0] == '\'' && |text| > 1 then text[1..|text| - 1]
    else if s[0] == '"' && |text| > 1 then InsideValue(text[1..|text| - 1], env)
    else text
  }

  /** A character that the second pass would read again if the first one let it through bare. */
  predicate Touchy(c: char) {
    IsQuote(c) || IsBrace(c) || c == '$' || NameChar(c)
  }

  /** No unquoted backslash of the word protects a touchy character. */
  predicate Tame(s: string)
    decreases |s|
  {
    match WordStep(s)
    case Take(text, size) => (s[0] == '\\' && |s| > 1 ==> !Touchy(s[1])) && Tame(s[size..])
    case _ => true
  }

  /** Letters, underscores, braces and digits no operator starts with are taken one by one. */
  lemma TakeOne(s: string)
    requires s != "" && (NameChar(s[0]) || IsBrace(s[0])) && OpAt(s).None?
    ensures WordStep(s) == Take([s[0]], 1)
  {
  }

  /** Of touchy characters the raw text starts with exactly those the original starts with. */
  lemma FirstAgrees(s: string)
    requires Tame(s) && LexWord(s).Ok?
    ensures var raw := LexWord(s).value.raw;
      if WordStep(s).Stop? then raw == ""
      else raw != "" && (Touchy(raw[0]) || Touchy(s[0]) ==> raw[0] == s[0])
  {
  }

  lemma {:induction false} TailAgrees(s: string)
    requires Tame(s) && LexWord(s).Ok?
    ensures Agree(s, LexWord(s).value, SourceTail(s))
    ensures NameTail(LexWord(s).value.raw) == SourceTail(s)
    decreases |s|
  {
    FirstAgrees(s);
    if s != "" && NameChar(s[0]) && OpAt(s).None? {
      TakeOne(s);
      TakenOne(s, LexWord(s).value);
      TailAgrees(s[1..]);
      AgreeOn(s, LexWord(s).value, SourceTail(s[1..]));
    }
  }

  /** The first `n` characters are the same in both texts, and the rest is lexed from there on. */
  predicate Agree(s: string, l: Lexed, n: nat) {
    n <= |s| && n <= |l.raw| && s[..n] == l.raw[..n]
    && Tame(s[n..]) && LexWord(s[n..]) == Ok(Lexed(l.raw[n..], l.rest))
  }

  lemma Shift(s: string, n: nat)
    requires n < |s|
    ensures s[n + 1..] == s[1..][n..] && s[..n + 1] == [s[0]] + s[1..][..n]
  {
  }

  lemma TakenOne(s: string, l: Lexed)
    requires LexWord(s) == Ok(l) && s != "" && WordStep(s) == Take([s[0]], 1)
    ensures l.raw != "" && l.raw[0] == s[0] && LexWord(s[1..]) == Ok(Lexed(l.raw[1..], l.rest))
  {
    assert ([s[0]] + LexWord(s[1..]).value.raw)[1..] == LexWord(s[1..]).value.raw;
  }

  lemma AgreeOn(s: string, l: Lexed, n: nat)
    requires s != "" && l.raw != "" && s[0] == l.raw[0]
    requires Agree(s[1..], Lexed(l.raw[1..], l.rest), n)
    ensures Agree(s, l, n + 1)
  {
    Shift(s, n);
    Shift(l.raw, n);
  }

  lemma NameAgrees(s: string)
    requires Tame(s) && LexWord(s).Ok?
    ensures Agree(s, LexWord(s).value, SourceName(s))
    ensures NameLen(LexWord(s).value.raw) == SourceName(s)
  {
    FirstAgrees(s);
    if s != "" && NameStart(s[0]) {
      NoOp(s);
      TakeOne(s);
      TakenOne(s, LexWord(s).value);
      TailAgrees(s[1..]);
      AgreeOn(s, LexWord(s).value, SourceTail(s[1..]));
    }
  }

  /** A brace is in the raw text exactly where it is in the original. */
  lemma BraceAgrees(s: string, c: char)
    requires Tame(s) && LexWord(s).Ok? && IsBrace(c)
    ensures var l := LexWord(s).value;
      (s != "" && s[0] == c <==> l.raw != "" && l.raw[0] == c)
      && (s != "" && s[0] == c ==> LexWord(s[1..]) == Ok(Lexed(l.raw[1..], l.rest)) && Tame(s[1..]))
  {
    FirstAgrees(s);
    if s != "" && s[0] == c {
      NoOp(s);
      TakeOne(s);
      TakenOne(s, LexWord(s).value);
    }
  }

  lemma Longer(s: string, l: Lexed, n: nat)
    requires Agree(s, l, n) && n < |s| && n < |l.raw| && s[n] == l.raw[n]
    requires LexWord(s[n..][1..]) == Ok(Lexed(l.raw[n..][1..], l.rest)) && Tame(s[n..][1..])
    ensures Agree(s, l, n + 1)
  {
    Drop2(s, n, 1);
    Drop2(l.raw, n, 1);
    Snoc(s, n);
    Snoc(l.raw, n);
  }

  lemma CloseAt(s: string, l: Lexed, m: nat)
    requires Agree(s, l, m)
    ensures m < |s| && s[m] == '}' <==> m < |l.raw| && l.raw[m] == '}'
    ensures m < |s| && s[m] == '}' ==> Agree(s, l, m + 1)
  {
    BraceAgrees(s[m..], '}');
    if m < |s| && s[m] == '}' {
      Longer(s, l, m);
    }
  }

  /** `NAME}`. */
  lemma ClosedName(s: string)
    requires Tame(s) && LexWord(s).Ok?
    ensures var l := LexWord(s).value; var m := SourceName(s);
      NameLen(l.raw) == m
      && (m < |s| && s[m] == '}' <==> m < |l.raw| && l.raw[m] == '}')
      && (m < |s| && s[m] == '}' ==> Agree(s, l, m + 1))
  {
    NameAgrees(s);
    CloseAt(s, LexWord(s).value, SourceName(s));
  }

  /** `{NAME}` right after a dollar sign. */
  lemma BracedAgrees(s: string)
    requires Tame(s) && LexWord(s).Ok? && s != "" && s[0] == '{'
    ensures var l := LexWord(s).value; var m := SourceName(s[1..]);
      l.raw != "" && l.raw[0] == '{' && NameLen(l.raw[1..]) == m
      && (1 + m < |s| && s[1 + m] == '}' <==> 1 + m < |l.raw| && l.raw[1 + m] == '}')
      && (1 + m < |s| && s[1 + m] == '}' ==> Agree(s, l, 2 + m))
  {
    var l := LexWord(s).value;
    BraceAgrees(s, '{');
    ClosedName(s[1..]);
    var m := SourceName(s[1..]);
    if 1 + m < |s| && s[1 + m] == '}' {
      AgreeOn(s, l, m + 1);
    }
  }

  lemma PlainVarAgrees(s: string, l: Lexed)
    requires s != "" && l.raw != "" && s[0] == '$' == l.raw[0]
    requires SourceName(s[1..]) > 0 && NameLen(l.raw[1..]) == SourceName(s[1..])
    requires Agree(s[1..], Lexed(l.raw[1..], l.rest), SourceName(s[1..]))
    ensures VarLen(l.raw) == SourceVar(s) && Agree(s, l, SourceVar(s))
  {
    AgreeOn(s, l, SourceName(s[1..]));
  }

  lemma BracedLengths(s: string, raw: string)
    requires |s| > 1 && s[0] == '$' && s[1] == '{' && |raw| > 1 && raw[0] == '$' && raw[1] == '{'
    ensures var m := SourceName(s[2..]);
      SourceVar(s) == if m > 0 && 2 + m < |s| && s[2 + m] == '}' then m + 3 else 0
    ensures var m := NameLen(raw[2..]);
      VarLen(raw) == if m > 0 && 2 + m < |raw| && raw[2 + m] == '}' then m + 3 else 0
  {
  }

  lemma BracedVarAgrees(s: string, l: Lexed)
    requires |s| > 1 && s[0] == '$' && s[1] == '{' && |l.raw| > 1 && l.raw[0] == '$' && l.raw[1] == '{'
    requires Tame(s[1..]) && LexWord(s[1..]) == Ok(Lexed(l.raw[1..], l.rest))
    requires Agree(s, l, 0)
    ensures VarLen(l.raw) == SourceVar(s) && Agree(s, l, SourceVar(s))
  {
    BracedLengths(s, l.raw);
    BracedAgrees(s[1..]);
    Drop2(s, 1, 1);
    Drop2(l.raw, 1, 1);
    var m := SourceName(s[2..]);
    if 2 + m < |s| && s[2 + m] == '}' {
      AgreeOn(s, l, m + 2);
    }
  }

  /** Both texts start with the same variable. */
  lemma VarAgrees(s: string)
    requires Tame(s) && LexWord(s).Ok? && s != "" && s[0] == '$'
    ensures var l := LexWord(s).value;
      l.raw != "" && l.raw[0] == '$' && VarLen(l.raw) == SourceVar(s) && Agree(s, l, SourceVar(s))
  {
    var l := LexWord(s).value;
    FirstAgrees(s);
    NoOp(s);
    TakenOne(s, l);
    NameAgrees(s[1..]);
    BraceAgrees(s[1..], '{');
    if SourceName(s[1..]) > 0 {
      PlainVarAgrees(s, l);
    } else if |s| > 1 && s[1] == '{' {
      BracedVarAgrees(s, l);
    }
  }

  /** Both texts are rejected, for the same reason. */
  predicate SameFate(s: string, t: string) {
    Tame(s) && Tame(t) && LexWord(s).Err? && LexWord(t) == LexWord(s)
  }

  lemma TailRejects(s: string)
    requires SameFate(s, s)
    ensures SameFate(s, s[SourceTail(s)..])
  {
    if s != "" && NameChar(s[0]) && OpAt(s).None? {
      TakeOne(s);
      TailRejects(s[1..]);
      Drop2(s, 1, SourceTail(s[1..]));
    }
  }

  lemma NameRejects(s: string)
    requires SameFate(s, s)
    ensures SameFate(s, s[SourceName(s)..])
  {
    if s != "" && NameStart(s[0]) {
      NoOp(s);
      TakeOne(s);
      TailRejects(s[1..]);
      Drop2(s, 1, SourceTail(s[1..]));
    }
  }

  lemma BraceRejects(s: string)
    requires SameFate(s, s) && s != "" && IsBrace(s[0])
    ensures SameFate(s, s[1..])
  {
    NoOp(s);
    TakeOne(s);
  }

  lemma BracedRejects(s: string)
    requires SameFate(s, s) && s != "" && s[0] == '{'
    requires 1 + SourceName(s[1..]) < |s| && s[1 + SourceName(s[1..])] == '}'
    ensures SameFate(s, s[2 + SourceName(s[1..])..])
  {
    var k := 1 + SourceName(s[1..]);
    BraceRejects(s);
    NameRejects(s[1..]);
    Drop2(s, 1, k - 1);
    BraceRejects(s[k..]);
    Drop2(s, k, 1);
  }

  lemma DollarRejects(s: string)
    requires SameFate(s, s) && s != "" && WordStep(s) == Take("$", 1)
    ensures SameFate(s, s[1..])
  {
  }

  lemma PlainVarRejects(s: string)
    requires SameFate(s, s) && |s| > 1 && SourceName(s[1..]) > 0 && WordStep(s) == Take("$", 1)
    ensures SameFate(s, s[1 + SourceName(s[1..])..])
  {
    DollarRejects(s);
    NameRejects(s[1..]);
    Drop2(s, 1, SourceName(s[1..]));
  }

  lemma BracedVarRejects(s: string)
    requires SameFate(s, s) && |s| > 1 && s[1] == '{' && WordStep(s) == Take("$", 1)
    requires 2 + SourceName(s[2..]) < |s| && s[2 + SourceName(s[2..])] == '}'
    ensures SameFate(s, s[3 + SourceName(s[2..])..])
  {
    DollarRejects(s);
    Drop2(s, 1, 1);
    BracedRejects(s[1..]);
    Drop2(s, 1, 2 + SourceName(s[2..]));
  }

  /** Stepping over a variable as a whole loses no error. */
  lemma VarRejects(s: string)
    requires SameFate(s, s) && SourceVar(s) > 0 && WordStep(s) == Take("$", 1)
    ensures SameFate(s, s[SourceVar(s)..])
  {
    if SourceName(s[1..]) > 0 {
      PlainVarRejects(s);
    } else {
      BracedVarRejects(s);
    }
  }

  /** One unit of the raw text that a step of the lexer left there, variables apart. */
  lemma TakenMeans(s: string, rest: string, env: Env)
    requires WordStep(s).Take? && SourceVar(s) == 0 && VarLen(WordStep(s).text + rest) == 0
    requires s[0] == '\\' && |s| > 1 ==> !Touchy(s[1])
    ensures Value(WordStep(s).text + rest, env) == TakenValue(s, WordStep(s).text, env) + Value(rest, env)
  {
    var text := WordStep(s).text;
    if s[0] == '\'' {
      SingleMeans(s, rest, env);
    } else if s[0] == '"' {
      DoubleMeans(s, rest, env);
    } else {
      ValuePlain(text + rest, env);
      assert (text + rest)[1..] == rest;
    }
  }

  lemma SingleFree(s: string)
    ensures forall i :: 0 <= i < SingleLen(s) ==> s[i] != '\''
  {
  }

  lemma SpanText(s: string, k: nat)
    requires k + 1 < |s|
    ensures s[..k + 2] == [s[0]] + s[1..][..k + 1]
    ensures s[..k + 2][1..k + 1] == s[1..][..k]
    ensures s[k + 1] == s[1..][k]
  {
  }

  lemma SpanEnds(s: string, k: nat)
    requires k + 1 < |s|
    ensures s[..k + 2] == [s[0]] + s[1..][..k] + [s[k + 1]]
  {
  }

  lemma SingleMeans(s: string, rest: string, env: Env)
    requires WordStep(s).Take? && s[0] == '\''
    ensures Value(WordStep(s).text + rest, env) == TakenValue(s, WordStep(s).text, env) + Value(rest, env)
  {
    var k := SingleLen(s[1..]);
    SingleFree(s[1..]);
    ValueSingle(s[1..][..k], rest, env);
    SpanText(s, k);
    SpanEnds(s, k);
  }

  lemma DoubleMeans(s: string, rest: string, env: Env)
    requires WordStep(s).Take? && s[0] == '"'
    ensures Value(WordStep(s).text + rest, env) == TakenValue(s, WordStep(s).text, env) + Value(rest, env)
  {
    var k := DoubleLen(s[1..]);
    ValueDouble(s[1..], rest, env);
    SpanText(s, k);
    Assoc("\"", s[1..][..k + 1], rest);
  }

  lemma SameName(s: string, raw: string, n: nat)
    requires VarLen(raw) == n == SourceVar(s) && n > 0 && s[..n] == raw[..n]
    ensures VarName(raw) == SourceVarName(s)
  {
    assert raw[..n][1] == raw[1] && s[..n][1] == s[1];
    if s[1] == '{' {
      SamePart(s, raw, n, 2, n - 1);
    } else {
      SamePart(s, raw, n, 1, n);
    }
  }

  lemma VarMeans(s: string, env: Env)
    requires Tame(s) && LexWord(s).Ok? && SourceVar(s) > 0
    ensures var l := LexWord(s).value; var n := SourceVar(s);
      Agree(s, l, n) && Value(l.raw, env) == Lookup(env, SourceVarName(s)) + Value(l.raw[n..], env)
  {
    VarAgrees(s);
    var l := LexWord(s).value;
    SameName(s, l.raw, SourceVar(s));
    ValueVar(l.raw, env);
  }

  lemma NoVar(s: string)
    requires Tame(s) && LexWord(s).Ok? && WordStep(s).Take? && SourceVar(s) == 0
    ensures VarLen(LexWord(s).value.raw) == 0
  {
    FirstAgrees(s);
    if s[0] == '$' {
      VarAgrees(s);
    }
  }

  function Valued(r: Result<Lexed, Error>, env: Env): Result<(string, string), Error> {
    match r
    case Ok(l) => Ok((Value(l.raw, env), l.rest))
    case Err(e) => Err(e)
  }

  lemma FusionVar(s: string, env: Env)
    requires Tame(s) && WordStep(s).Take? && SourceVar(s) > 0
    ensures var t := s[SourceVar(s)..];
      Tame(t) && Valued(LexWord(s), env) == Before(Lookup(env, SourceVarName(s)), Valued(LexWord(t), env))
  {
    if LexWord(s).Ok? {
      VarMeans(s, env);
    } else {
      VarRejects(s);
    }
  }

  lemma FusionTaken(s: string, env: Env)
    requires Tame(s) && WordStep(s).Take? && SourceVar(s) == 0
    ensures var t := s[WordStep(s).size..];
      Tame(t)
      && Valued(LexWord(s), env) == Before(TakenValue(s, WordStep(s).text, env), Valued(LexWord(t), env))
  {
    if LexWord(s).Ok? {
      NoVar(s);
      TakenMeans(s, LexWord(s[WordStep(s).size..]).value.raw, env);
    }
  }

  lemma {:induction false} FusionValue(s: string, env: Env)
    requires Tame(s)
    ensures ReadWord(s, env) == Valued(LexWord(s), env)
    decreases |s|
  {
    if WordStep(s).Take? {
      if SourceVar(s) > 0 {
        FusionVar(s, env);
        FusionValue(s[SourceVar(s)..], env);
      } else {
        FusionTaken(s, env);
        FusionValue(s[WordStep(s).size..], env);
      }
    }
  }

  /** Lexing, cutting and expanding agree with the one-pass reader on every tame word. */
  lemma {:induction false} Fusion(s: string, env: Env)
    requires Tame(s)
    ensures ReadWord(s, env) == Passes(LexWord(s), env)
  {
    FusionValue(s, env);
    if LexWord(s).Ok? {
      PartsMean(LexWord(s).value.raw, "", env);
      Nothing(Value(LexWord(s).value.raw, env));
    }
  }
}
