/**
 * Escapes that the second pass reads again. The lexer drops an unquoted backslash and lets the
 * character behind it through bare, so an escaped quote opens a span and an escaped variable is
 * expanded. Here exactly when a word with such an escape in front still means what it says.
 */
module WordEscapes {
  import opened Wrappers
  import opened Lexer
  import opened Seqs
  import opened WordParts
  import opened WordFusion

  // ---- Reading raw text from inside or outside quotes ----

  datatype Mode = Outside | InSingle | InDouble

  predicate Delimits(mode: Mode, c: char) {
    (c == '\'' && mode != InDouble) || (c == '"' && mode != InSingle)
  }

  function Toggled(mode: Mode, c: char): Mode {
    if !Delimits(mode, c) then mode
    else if mode != Outside then Outside
    else if c == '\'' then InSingle
    else InDouble
  }

  /** Whether a variable is expanded here. */
  predicate Expands(mode: Mode, s: string) {
    mode != InSingle && VarLen(s) > 0
  }

  /** The value of the rest of a raw text, in the middle of which the reader stands. */
  function ReadOn(mode: Mode, s: string, env: Env): string
    decreases |s|
  {
    if s == "" then ""
    else if Expands(mode, s) then Lookup(env, VarName(s)) + ReadOn(mode, s[VarLen(s)..], env)
    else if mode == InDouble && s[0] == '\\' && |s| > 1 then [s[1]] + ReadOn(mode, s[2..], env)
    else if Delimits(mode, s[0]) then ReadOn(Toggled(mode, s[0]), s[1..], env)
    else [s[0]] + ReadOn(mode, s[1..], env)
  }

  /** What follows a span of length `k`, its closing quote passed over. */
  function AfterSpan(s: string, k: nat, env: Env): string
    requires k <= |s|
  {
    if k < |s| then Value(s[k + 1..], env) else ""
  }

  lemma {:induction false} ReadOutside(s: string, env: Env)
    ensures ReadOn(Outside, s, env) == Value(s, env)
    decreases |s|, 1
  {
    if s != "" {
      if IsQuote(s[0]) {
        OpenSpan(s, env);
        if s[0] == '\'' { ReadSingle(s[1..], env); } else { ReadDouble(s[1..], env); }
      } else {
        ReadOutside(s[UnitSize(s)..], env);
      }
    }
  }

  lemma ValueStep(s: string, env: Env)
    requires s != ""
    ensures Value(s, env) == UnitValue(s, env) + Value(s[UnitSize(s)..], env)
  {
  }

  lemma RestValue(s: string, k: nat, env: Env)
    requires s != "" && IsQuote(s[0]) && k == |Body(s)|
    ensures k <= |s[1..]| && Value(s[UnitSize(s)..], env) == AfterSpan(s[1..], k, env)
  {
    SpanRest(s, k);
  }

  lemma OpenSpan(s: string, env: Env)
    requires s != "" && IsQuote(s[0])
    ensures VarLen(s) == 0
    ensures var k := if s[0] == '\'' then SingleLen(s[1..]) else DoubleLen(s[1..]);
      Value(s, env) == UnitValue(s, env) + AfterSpan(s[1..], k, env)
      && Body(s) == s[1..][..k]
  {
    ValueStep(s, env);
    RestValue(s, |Body(s)|, env);
    BodyIs(s);
  }

  lemma BodyIs(s: string)
    requires s != "" && IsQuote(s[0])
    ensures var k := if s[0] == '\'' then SingleLen(s[1..]) else DoubleLen(s[1..]);
      Body(s) == s[1..][..k] && |Body(s)| == k
  {
  }

  lemma SpanRest(s: string, k: nat)
    requires s != "" && IsQuote(s[0]) && k == |Body(s)|
    ensures k <= |s| - 1 && s[UnitSize(s)..] == if k < |s| - 1 then s[1..][k + 1..] else ""
  {
    if 1 + k < |s| { Drop2(s, 1, k + 1); }
  }

  /** The rest of a text inside single quotes: up to the closing one, and what follows it. */
  function RestOfSingle(s: string, env: Env): string {
    s[..SingleLen(s)] + AfterSpan(s, SingleLen(s), env)
  }

  function RestOfDouble(s: string, env: Env): string {
    InsideValue(s[..DoubleLen(s)], env) + AfterSpan(s, DoubleLen(s), env)
  }

  lemma SingleCloses(s: string, env: Env)
    requires s != "" && s[0] == '\''
    ensures RestOfSingle(s, env) == Value(s[1..], env)
  {
    Nothing(Value(s[1..], env));
  }

  lemma SingleGoesOn(s: string, env: Env)
    requires s != "" && s[0] != '\''
    ensures RestOfSingle(s, env) == [s[0]] + RestOfSingle(s[1..], env)
  {
    var k := SingleLen(s[1..]);
    assert s[..k + 1] == [s[0]] + s[1..][..k];
    SpanStep(s, 1, k, env);
    Assoc([s[0]], s[1..][..k], AfterSpan(s, k + 1, env));
  }

  lemma {:induction false} ReadSingle(s: string, env: Env)
    ensures ReadOn(InSingle, s, env) == RestOfSingle(s, env)
    decreases |s|, 0
  {
    if s != "" {
      if s[0] == '\'' {
        ReadOutside(s[1..], env);
        SingleCloses(s, env);
      } else {
        ReadSingle(s[1..], env);
        SingleGoesOn(s, env);
      }
    }
  }

  lemma {:induction false} TailPrefix(s: string, k: nat)
    requires k <= |s|
    ensures NameTail(s[..k]) == if NameTail(s) <= k then NameTail(s) else k
  {
    if k > 0 && NameChar(s[0]) {
      assert s[..k][1..] == s[1..][..k - 1];
      TailPrefix(s[1..], k - 1);
    }
  }

  lemma LenPrefix(s: string, k: nat)
    requires k <= |s|
    ensures NameLen(s[..k]) == if NameLen(s) <= k then NameLen(s) else k
  {
    if k > 0 && NameStart(s[0]) {
      assert s[..k][1..] == s[1..][..k - 1];
      TailPrefix(s[1..], k - 1);
    }
  }

  /** A prefix that holds the whole variable, if there is one, starts with the same. */
  lemma VarPrefix(s: string, k: nat)
    requires VarLen(s) <= k <= |s|
    ensures VarLen(s[..k]) == VarLen(s)
  {
    if k >= 2 && s[0] == '$' {
      assert s[..k][1..] == s[1..][..k - 1] && s[..k][2..] == s[2..][..k - 2];
      LenPrefix(s[1..], k - 1);
      LenPrefix(s[2..], k - 2);
    }
  }

  predicate VarChar(c: char) {
    c == '$' || NameChar(c) || IsBrace(c)
  }

  lemma VarChars(s: string)
    ensures forall i :: 0 <= i < VarLen(s) ==> VarChar(s[i])
  {
    if VarLen(s) > 0 {
      NameChars(s[1..]);
      NameChars(s[2..]);
      forall i | 0 <= i < VarLen(s) ensures VarChar(s[i]) {
        if i >= 2 { assert s[i] == s[1..][i - 1] == s[2..][i - 2]; }
      }
    }
  }

  lemma {:induction false} SpanOver(s: string, n: nat)
    requires n <= |s| && forall i :: 0 <= i < n ==> VarChar(s[i])
    ensures DoubleLen(s) == n + DoubleLen(s[n..])
    decreases n
  {
    if n > 0 {
      assert Unit(s) == 1 && s[0] != '"';
      SpanOver(s[1..], n - 1);
      assert s[1..][n - 1..] == s[n..];
    } else {
      assert s[0..] == s;
    }
  }

  /** One unit of a span and the rest of it. */
  lemma SpanStep(s: string, u: nat, k: nat, env: Env)
    requires u + k <= |s|
    ensures s[..u + k][u..] == s[u..][..k] && AfterSpan(s, u + k, env) == AfterSpan(s[u..], k, env)
  {
    if u + k < |s| { Drop2(s, u, k + 1); }
  }

  lemma {:induction false} ReadDouble(s: string, env: Env)
    ensures ReadOn(InDouble, s, env) == RestOfDouble(s, env)
    decreases |s|, 0
  {
    if s != "" {
      if s[0] == '"' {
        ReadOutside(s[1..], env);
        DoubleCloses(s, env);
      } else if VarLen(s) > 0 {
        ReadDouble(s[VarLen(s)..], env);
        VarRead(InDouble, s, env);
        RestOverVar(s, env);
      } else {
        ReadDouble(s[Unit(s)..], env);
        RestOverUnit(s, env);
      }
    }
  }

  lemma DoubleCloses(s: string, env: Env)
    requires s != "" && s[0] == '"'
    ensures RestOfDouble(s, env) == Value(s[1..], env)
  {
    Nothing(Value(s[1..], env));
  }

  lemma RestOverVar(s: string, env: Env)
    requires VarLen(s) > 0
    ensures RestOfDouble(s, env) == Lookup(env, VarName(s)) + RestOfDouble(s[VarLen(s)..], env)
  {
    var n := VarLen(s);
    var k := SpanOverVar(s);
    SpanStep(s, n, k, env);
    VarOfSpan(s, n, k, env, AfterSpan(s, n + k, env));
  }

  lemma SpanOverVar(s: string) returns (k: nat)
    requires VarLen(s) > 0
    ensures k == DoubleLen(s[VarLen(s)..]) && DoubleLen(s) == VarLen(s) + k
  {
    k := DoubleLen(s[VarLen(s)..]);
    VarChars(s);
    SpanOver(s, VarLen(s));
  }

  lemma VarOfSpan(s: string, n: nat, k: nat, env: Env, after: string)
    requires 0 < n == VarLen(s) && n + k <= |s|
    ensures Lookup(env, VarName(s)) + (InsideValue(s[n..][..k], env) + after) == InsideValue(s[..n + k], env) + after
  {
    InsideVar(s, n, k, env);
    Assoc(Lookup(env, VarName(s)), InsideValue(s[n..][..k], env), after);
  }

  lemma InsideVar(s: string, n: nat, k: nat, env: Env)
    requires 0 < n == VarLen(s) && n + k <= |s|
    ensures InsideValue(s[..n + k], env) == Lookup(env, VarName(s)) + InsideValue(s[n..][..k], env)
  {
    VarPrefix(s, n + k);
    SameVarName(s, n + k);
    assert s[..n + k][n..] == s[n..][..k];
  }

  lemma SameVarName(s: string, k: nat)
    requires 0 < VarLen(s) <= k <= |s| && VarLen(s[..k]) == VarLen(s)
    ensures VarName(s[..k]) == VarName(s)
  {
    assert s[..k][1] == s[1];
  }

  lemma RestOverUnit(s: string, env: Env)
    requires s != "" && s[0] != '"' && VarLen(s) == 0
    ensures RestOfDouble(s, env) == [s[Unit(s) - 1]] + RestOfDouble(s[Unit(s)..], env)
  {
    var u, k := Unit(s), DoubleLen(s[Unit(s)..]);
    SpanStep(s, u, k, env);
    InsideUnit(s, u, k, env);
    Assoc([s[u - 1]], InsideValue(s[u..][..k], env), AfterSpan(s, u + k, env));
  }

  lemma InsideUnit(s: string, u: nat, k: nat, env: Env)
    requires s != "" && VarLen(s) == 0 && u == Unit(s) && u + k <= |s|
    ensures InsideValue(s[..u + k], env) == [s[u - 1]] + InsideValue(s[u..][..k], env)
  {
    VarPrefix(s, u + k);
    assert Unit(s[..u + k]) == u && s[..u + k][u - 1] == s[u - 1];
    assert s[..u + k][u..] == s[u..][..k];
  }

  // ---- Two readers in different places never come to the same text ----

  /** Whether `q` occurs an odd number of times. */
  function Odd(q: char, s: string): bool {
    if s == "" then false else (s[0] == q) != Odd(q, s[1..])
  }

  lemma {:induction false} OddConcat(q: char, a: string, b: string)
    ensures Odd(q, a + b) == (Odd(q, a) != Odd(q, b))
  {
    if a == "" {
      Nothing(b);
    } else {
      Uncons(a, b);
      OddConcat(q, a[1..], b);
    }
  }

  lemma {:induction false} OddNone(q: char, s: string)
    requires q !in s
    ensures !Odd(q, s)
  {
    if s != "" { OddNone(q, s[1..]); }
  }

  predicate InsideOf(q: char, mode: Mode) {
    (q == '\'' && mode == InSingle) || (q == '"' && mode == InDouble)
  }

  /** No value of a variable holds a quote. */
  predicate QuoteFree(env: Env) {
    forall name :: name in env ==> '\'' !in env[name] && '"' !in env[name]
  }

  /** What the readers have given so far holds, up to the span each stands in, the same quotes
      modulo two. */
  predicate Even(q: char, a: string, l: Mode, b: string, r: Mode) {
    (Odd(q, a) != InsideOf(q, l)) == (Odd(q, b) != InsideOf(q, r))
  }

  predicate Balanced(a: string, l: Mode, b: string, r: Mode) {
    Even('\'', a, l, b, r) && Even('"', a, l, b, r)
  }

  predicate NoQuotes(s: string) {
    '\'' !in s && '"' !in s
  }

  lemma StillBalanced(a: string, l: Mode, b: string, r: Mode, x: string, y: string)
    requires Balanced(a, l, b, r) && NoQuotes(x) && NoQuotes(y)
    ensures Balanced(a + x, l, b + y, r)
  {
    forall q | IsQuote(q) ensures Even(q, a + x, l, b + y, r) {
      OddConcat(q, a, x);
      OddConcat(q, b, y);
      OddNone(q, x);
      OddNone(q, y);
    }
    assert IsQuote('\'') && IsQuote('"');
  }

  /** What a reader gives for one character. */
  function Given(mode: Mode, c: char): string {
    if Delimits(mode, c) then "" else [c]
  }

  lemma BalancedStep(a: string, l: Mode, b: string, r: Mode, c: char)
    requires Balanced(a, l, b, r) && l != r
    ensures Balanced(a + Given(l, c), Toggled(l, c), b + Given(r, c), Toggled(r, c))
    ensures Toggled(l, c) != Toggled(r, c)
  {
    forall q | IsQuote(q) ensures Even(q, a + Given(l, c), Toggled(l, c), b + Given(r, c), Toggled(r, c)) {
      OddConcat(q, a, Given(l, c));
      OddConcat(q, b, Given(r, c));
      assert Odd(q, [c]) == (c == q) by { assert [c][1..] == ""; }
    }
    assert IsQuote('\'') && IsQuote('"');
  }

  /** A reader inside single quotes takes text without them as it is. */
  lemma {:induction false} SingleOver(s: string, n: nat, env: Env)
    requires n <= |s| && forall i :: 0 <= i < n ==> s[i] != '\''
    ensures ReadOn(InSingle, s, env) == s[..n] + ReadOn(InSingle, s[n..], env)
    decreases n
  {
    if n == 0 {
      Nothing(ReadOn(InSingle, s, env));
      assert s[0..] == s;
    } else {
      SingleOver(s[1..], n - 1, env);
      Drop2(s, 1, n - 1);
      assert s[..n] == [s[0]] + s[1..][..n - 1];
      Assoc([s[0]], s[1..][..n - 1], ReadOn(InSingle, s[n..], env));
    }
  }

  /** What a reader gives for a variable: its value, or its text inside single quotes. */
  function VarGiven(mode: Mode, s: string, env: Env): string
    requires VarLen(s) > 0
  {
    if mode == InSingle then s[..VarLen(s)] else Lookup(env, VarName(s))
  }

  lemma VarRead(mode: Mode, s: string, env: Env)
    requires VarLen(s) > 0
    ensures ReadOn(mode, s, env) == VarGiven(mode, s, env) + ReadOn(mode, s[VarLen(s)..], env)
  {
    if mode == InSingle {
      VarChars(s);
      SingleOver(s, VarLen(s), env);
    }
  }

  lemma VarGivenFree(mode: Mode, s: string, env: Env)
    requires VarLen(s) > 0 && QuoteFree(env)
    ensures NoQuotes(VarGiven(mode, s, env))
  {
    VarChars(s);
    forall c | c in s[..VarLen(s)] ensures VarChar(c) {
    }
  }

  /** A character that is no backslash inside double quotes, and starts no variable. */
  lemma CharRead(mode: Mode, s: string, env: Env)
    requires s != "" && !Expands(mode, s) && !(mode == InDouble && s[0] == '\\' && |s| > 1)
    ensures ReadOn(mode, s, env) == Given(mode, s[0]) + ReadOn(Toggled(mode, s[0]), s[1..], env)
  {
    Nothing(ReadOn(Toggled(mode, s[0]), s[1..], env));
  }

  lemma PairRead(s: string, env: Env)
    requires |s| > 1 && s[0] == '\\'
    ensures ReadOn(InDouble, s, env) == [s[1]] + ReadOn(InDouble, s[2..], env)
  {
  }

  lemma FrontStep(s: string, n: nat, rest: string)
    requires 0 < n <= |s|
    ensures s[1..][n - 1..] == s[n..] && s[..n] + rest == [s[0]] + (s[1..][..n - 1] + rest)
  {
    Drop2(s, 1, n - 1);
    assert s[..n] == [s[0]] + s[1..][..n - 1];
    Assoc([s[0]], s[1..][..n - 1], rest);
  }

  lemma PlainStep(s: string, env: Env)
    requires s != "" && (NameChar(s[0]) || IsBrace(s[0]))
    ensures ReadOn(InDouble, s, env) == [s[0]] + ReadOn(InDouble, s[1..], env)
  {
  }

  /** Inside double quotes name characters and braces are taken as they are. */
  lemma {:induction false} PlainInDouble(s: string, n: nat, env: Env)
    requires n <= |s| && forall i :: 0 <= i < n ==> NameChar(s[i]) || IsBrace(s[i])
    ensures ReadOn(InDouble, s, env) == s[..n] + ReadOn(InDouble, s[n..], env)
    decreases n
  {
    if n == 0 {
      Nothing(ReadOn(InDouble, s, env));
      assert s[0..] == s;
    } else {
      PlainStep(s, env);
      PlainInDouble(s[1..], n - 1, env);
      FrontStep(s, n, ReadOn(InDouble, s[n..], env));
    }
  }

  /** An escaped variable inside double quotes is its own text. */
  lemma EscapedVarInDouble(s: string, env: Env)
    requires |s| > 1 && s[0] == '\\' && VarLen(s[1..]) > 0
    ensures ReadOn(InDouble, s, env) == s[1..][..VarLen(s[1..])] + ReadOn(InDouble, s[1..][VarLen(s[1..])..], env)
  {
    var t := s[1..];
    var n := VarLen(t);
    PairRead(s, env);
    Drop2(s, 1, 1);
    AfterDollar(t);
    NameInDouble(t, n, env);
    FrontStep(t, n, ReadOn(InDouble, t[n..], env));
  }

  lemma NameInDouble(t: string, n: nat, env: Env)
    requires 0 < n <= |t| && forall i :: 0 <= i < n - 1 ==> NameChar(t[1..][i]) || IsBrace(t[1..][i])
    ensures ReadOn(InDouble, t[1..], env) == t[1..][..n - 1] + ReadOn(InDouble, t[n..], env)
  {
    Drop2(t, 1, n - 1);
    PlainInDouble(t[1..], n - 1, env);
  }

  lemma AfterDollar(s: string)
    requires VarLen(s) > 0
    ensures forall i :: 0 <= i < VarLen(s) - 1 ==> NameChar(s[1..][i]) || IsBrace(s[1..][i])
  {
    NameChars(s[1..]);
    NameChars(s[2..]);
    forall i | 0 <= i < VarLen(s) - 1 ensures NameChar(s[1..][i]) || IsBrace(s[1..][i]) {
      if i >= 1 { assert s[1..][i] == s[2..][i - 1]; }
    }
  }

  // ---- No agreement ----

  /** Texts that end differently, with the same text after them, differ. */
  lemma EndsDiffer(a: string, x: char, b: string, y: char, rest: string)
    requires x != y
    ensures a + [x] + rest != b + [y] + rest
  {
    if |a| == |b| {
      assert (a + [x] + rest)[|a|] == x && (b + [y] + rest)[|a|] == y;
    } else {
      assert |a + [x] + rest| != |b + [y] + rest|;
    }
  }

  /** Readers in different places, whose texts so far balance, never come to the same text: the
      quotes they take as text differ in number, or one of them gives a backslash where the other
      gives a quote. */
  lemma {:induction false} NeverMeet(a: string, l: Mode, b: string, r: Mode, s: string, env: Env)
    requires QuoteFree(env) && l != r && Balanced(a, l, b, r)
    ensures a + ReadOn(l, s, env) != b + ReadOn(r, s, env)
    decreases |s|, 2
  {
    if s == "" {
      Nothing(a);
      Nothing(b);
      assert exists q | IsQuote(q) :: Odd(q, a) != Odd(q, b) by {
        assert IsQuote('\'') && IsQuote('"');
        assert InsideOf('\'', l) != InsideOf('\'', r) || InsideOf('"', l) != InsideOf('"', r);
      }
    } else if VarLen(s) > 0 {
      var x, y := VarGiven(l, s, env), VarGiven(r, s, env);
      VarGivenFree(l, s, env);
      VarGivenFree(r, s, env);
      StillBalanced(a, l, b, r, x, y);
      VarRead(l, s, env);
      VarRead(r, s, env);
      NeverMeet(a + x, l, b + y, r, s[VarLen(s)..], env);
      Assoc(a, x, ReadOn(l, s[VarLen(s)..], env));
      Assoc(b, y, ReadOn(r, s[VarLen(s)..], env));
    } else if s[0] == '\\' && |s| > 1 && l == InDouble {
      PairNeverMeets(a, b, r, s, env);
    } else if s[0] == '\\' && |s| > 1 && r == InDouble {
      PairNeverMeets(b, a, l, s, env);
    } else {
      var x, y := Given(l, s[0]), Given(r, s[0]);
      BalancedStep(a, l, b, r, s[0]);
      CharRead(l, s, env);
      CharRead(r, s, env);
      NeverMeet(a + x, Toggled(l, s[0]), b + y, Toggled(r, s[0]), s[1..], env);
      Assoc(a, x, ReadOn(Toggled(l, s[0]), s[1..], env));
      Assoc(b, y, ReadOn(Toggled(r, s[0]), s[1..], env));
    }
  }

  /** The case of a backslash, the first reader being inside double quotes. */
  lemma {:induction false} PairNeverMeets(a: string, b: string, r: Mode, s: string, env: Env)
    requires QuoteFree(env) && r != InDouble && Balanced(a, InDouble, b, r) && |s| > 1 && s[0] == '\\'
    ensures a + ReadOn(InDouble, s, env) != b + ReadOn(r, s, env)
    decreases |s|, 1
  {
    CharRead(r, s, env);
    if Expands(r, s[1..]) {
      EscapedVarNeverMeets(a, b, r, s, env);
    } else {
      var x, y := s[1], Given(r, s[1]);
      PairRead(s, env);
      CharRead(r, s[1..], env);
      assert s[1..][1..] == s[2..];
      assert ReadOn(r, s, env) == "\\" + (y + ReadOn(Toggled(r, x), s[2..], env));
      if Toggled(r, x) == InDouble {
        MergeNeverMeets(a, b, s, env);
      } else {
        PairBalances(a, b, r, x);
        NeverMeet(a + [x], InDouble, b + ("\\" + y), Toggled(r, x), s[2..], env);
        Assoc(a, [x], ReadOn(InDouble, s[2..], env));
        Assoc("\\", y, ReadOn(Toggled(r, x), s[2..], env));
        Assoc(b, "\\" + y, ReadOn(Toggled(r, x), s[2..], env));
      }
    }
  }

  lemma PairBalances(a: string, b: string, r: Mode, x: char)
    requires Balanced(a, InDouble, b, r) && r != InDouble && Toggled(r, x) != InDouble
    ensures Balanced(a + [x], InDouble, b + ("\\" + Given(r, x)), Toggled(r, x))
  {
    var y := Given(r, x);
    forall q | IsQuote(q) ensures Even(q, a + [x], InDouble, b + ("\\" + y), Toggled(r, x)) {
      OddConcat(q, a, [x]);
      OddConcat(q, b, "\\" + y);
      OddConcat(q, "\\", y);
      assert ("\\")[1..] == "" && [x][1..] == "";
      assert !Odd(q, "\\") && Odd(q, [x]) == (x == q);
    }
    assert IsQuote('\'') && IsQuote('"');
  }

  /** Both are inside double quotes from here on, but what they gave last differs. */
  lemma MergeNeverMeets(a: string, b: string, s: string, env: Env)
    requires |s| > 1 && s[0] == '\\' && s[1] == '"'
    ensures a + ([s[1]] + ReadOn(InDouble, s[2..], env)) != b + ("\\" + ("" + ReadOn(InDouble, s[2..], env)))
  {
    var rest := ReadOn(InDouble, s[2..], env);
    Nothing(rest);
    Assoc(a, [s[1]], rest);
    Assoc(b, "\\", rest);
    EndsDiffer(a, '"', b, '\\', rest);
  }

  lemma {:induction false} EscapedVarNeverMeets(a: string, b: string, r: Mode, s: string, env: Env)
    requires QuoteFree(env) && r != InDouble && Balanced(a, InDouble, b, r) && |s| > 1 && s[0] == '\\'
    requires VarLen(s[1..]) > 0 && ReadOn(r, s, env) == "\\" + ReadOn(r, s[1..], env)
    ensures a + ReadOn(InDouble, s, env) != b + ReadOn(r, s, env)
    decreases |s|, 0
  {
    var t := s[1..];
    var n := VarLen(t);
    var x, y := t[..n], VarGiven(r, t, env);
    EscapedVarInDouble(s, env);
    VarRead(r, t, env);
    VarGivenFree(InSingle, t, env);
    VarGivenFree(r, t, env);
    StillBalanced(a, InDouble, b, r, x, "\\" + y);
    NeverMeet(a + x, InDouble, b + ("\\" + y), r, t[n..], env);
    Assoc(a, x, ReadOn(InDouble, t[n..], env));
    Assoc("\\", y, ReadOn(r, t[n..], env));
    Assoc(b, "\\" + y, ReadOn(r, t[n..], env));
  }

  /** A quote in front of a raw text is never read as itself. */
  lemma QuoteIsLost(q: char, raw: string, env: Env)
    requires IsQuote(q) && QuoteFree(env)
    ensures Value([q] + raw, env) != [q] + Value(raw, env)
  {
    var mode := Toggled(Outside, q);
    assert ([q] + raw)[1..] == raw;
    ReadOutside([q] + raw, env);
    ReadOutside(raw, env);
    CharRead(Outside, [q] + raw, env);
    Nothing(ReadOn(mode, raw, env));
    assert [q][1..] == "" && forall c :: Odd(c, [q]) == (c == q);
    NeverMeet("", mode, [q], Outside, raw, env);
  }

  // ---- Escapes in front of a tame rest ----

  lemma EscapeTaken(t: string)
    requires t != ""
    ensures WordStep("\\" + t) == Take([t[0]], 2) && SourceVar("\\" + t) == 0 && ("\\" + t)[2..] == t[1..]
  {
    var s := "\\" + t;
    NoOp(s);
    assert s[1] == t[0] && s[2..] == t[1..];
  }

  lemma EscapeStep(t: string)
    requires t != ""
    ensures WordStep("\\" + t) == Take([t[0]], 2) && ("\\" + t)[2..] == t[1..]
    ensures LexWord("\\" + t) == Prepend([t[0]], LexWord(t[1..])) && SourceVar("\\" + t) == 0
  {
    EscapeTaken(t);
  }

  /** Both readings of the word, over the raw text of the rest. */
  lemma EscapeReads(t: string, env: Env)
    requires t != "" && Tame(t[1..])
    ensures var rest := LexWord(t[1..]);
      ReadWord("\\" + t, env) == (if rest.Err? then Err(rest.error)
                                  else Ok(([t[0]] + Value(rest.value.raw, env), rest.value.rest)))
      && Passes(LexWord("\\" + t), env) == (if rest.Err? then Err(rest.error)
                                            else Ok((Value([t[0]] + rest.value.raw, env), rest.value.rest)))
  {
    EscapeStep(t);
    FusionValue(t[1..], env);
    if LexWord(t[1..]).Ok? {
      var raw := [t[0]] + LexWord(t[1..]).value.raw;
      PartsMean(raw, "", env);
      Nothing(Value(raw, env));
    }
  }

  /** An escaped dollar sign in front of a tame rest starts in the raw text the variable that
      it would start without its backslash. */
  lemma DollarAgrees(t: string)
    requires t != "" && t[0] == '$' && Tame(t[1..]) && LexWord(t[1..]).Ok?
    ensures var raw := "$" + LexWord(t[1..]).value.raw; var n := SourceVar(t);
      VarLen(raw) == n && n <= |t| && t[..n] == raw[..n] && (n > 0 ==> VarName(raw) == SourceVarName(t))
  {
    var raw := "$" + LexWord(t[1..]).value.raw;
    NoOp(t);
    if |t| > 1 && t[1] == '(' {
      NoOp(t[1..]);
      assert raw[1] == '(';
    } else {
      assert WordStep(t) == Take("$", 1);
      VarAgrees(t);
      if SourceVar(t) > 0 { SameName(t, raw, SourceVar(t)); }
    }
  }

  /** Read bare, the text of a variable without its dollar sign is that text. */
  lemma {:induction false} PlainOutside(s: string, n: nat, env: Env)
    requires n <= |s| && forall i :: 0 <= i < n ==> NameChar(s[i]) || IsBrace(s[i])
    ensures Value(s, env) == s[..n] + Value(s[n..], env)
    decreases n
  {
    if n == 0 {
      Nothing(Value(s, env));
      assert s[0..] == s;
    } else {
      ValuePlain(s, env);
      PlainOutside(s[1..], n - 1, env);
      FrontStep(s, n, Value(s[n..], env));
    }
  }

  lemma SameFront(a: string, b: string, rest: string)
    ensures a + rest == b + rest <==> a == b
  {
    if a + rest == b + rest {
      assert |a| == |b|;
      assert a == (a + rest)[..|a|] && b == (b + rest)[..|a|];
    }
  }

  /** A dollar sign that starts a variable is read as itself only if the value is the text. */
  lemma DollarKeptIff(raw: string, env: Env)
    requires raw != "" && raw[0] == '$' && VarLen(raw) > 0
    ensures Value(raw, env) == "$" + Value(raw[1..], env) <==> Lookup(env, VarName(raw)) == raw[..VarLen(raw)]
  {
    NameAsText(raw, env);
    ValueVar(raw, env);
    SameFront(Lookup(env, VarName(raw)), raw[..VarLen(raw)], Value(raw[VarLen(raw)..], env));
  }

  lemma NameAsText(raw: string, env: Env)
    requires VarLen(raw) > 0
    ensures "$" + Value(raw[1..], env) == raw[..VarLen(raw)] + Value(raw[VarLen(raw)..], env)
  {
    AfterDollar(raw);
    NameOutside(raw, VarLen(raw), env);
    FrontStep(raw, VarLen(raw), Value(raw[VarLen(raw)..], env));
  }

  lemma NameOutside(t: string, n: nat, env: Env)
    requires 0 < n <= |t| && forall i :: 0 <= i < n - 1 ==> NameChar(t[1..][i]) || IsBrace(t[1..][i])
    ensures Value(t[1..], env) == t[1..][..n - 1] + Value(t[n..], env)
  {
    Drop2(t, 1, n - 1);
    PlainOutside(t[1..], n - 1, env);
  }

  lemma PlainKept(c: char, raw: string, env: Env)
    requires !IsQuote(c) && VarLen([c] + raw) == 0
    ensures Value([c] + raw, env) == [c] + Value(raw, env)
  {
    assert ([c] + raw)[1..] == raw;
  }

  /** What an escape protects: everything but quotes, and variables. Where no variable holds a
      quote, a word that starts with an escape in front of a tame rest means what it says if and
      only if the escaped character is no quote and starts no variable, unless that variable's
      value happens to be its own text. */
  lemma {:induction false} EscapeAgreesIff(t: string, env: Env)
    requires t != "" && Tame(t[1..]) && QuoteFree(env)
    ensures ReadWord("\\" + t, env) == Passes(LexWord("\\" + t), env) <==>
      LexWord(t[1..]).Err? ||
      (!IsQuote(t[0]) && (SourceVar(t) > 0 ==> Lookup(env, SourceVarName(t)) == t[..SourceVar(t)]))
  {
    EscapeReads(t, env);
    if LexWord(t[1..]).Ok? {
      var raw := LexWord(t[1..]).value.raw;
      if IsQuote(t[0]) {
        QuoteIsLost(t[0], raw, env);
      } else if t[0] == '$' {
        DollarAgrees(t);
        assert ("$" + raw)[1..] == raw;
        if SourceVar(t) > 0 { DollarKeptIff("$" + raw, env); } else { PlainKept(t[0], raw, env); }
      } else {
        PlainKept(t[0], raw, env);
      }
    }
  }

  /** In every environment alike: only an escaped quote or variable makes a difference. */
  lemma {:induction false} EscapeAlwaysAgreesIff(t: string)
    requires t != "" && Tame(t[1..]) && LexWord(t[1..]).Ok?
    ensures (forall env: Env :: ReadWord("\\" + t, env) == Passes(LexWord("\\" + t), env)) <==>
            !IsQuote(t[0]) && SourceVar(t) == 0
  {
    if !IsQuote(t[0]) && SourceVar(t) == 0 {
      forall env: Env ensures ReadWord("\\" + t, env) == Passes(LexWord("\\" + t), env) {
        EscapeReads(t, env);
        if t[0] == '$' { DollarAgrees(t); }
        PlainKept(t[0], LexWord(t[1..]).value.raw, env);
      }
    } else {
      EscapeAgreesIff(t, map[]);
    }
  }

  /** An escaped quote that nothing follows is lost, whatever the environment. */
  lemma QuoteAlone(env: Env)
    ensures ReadWord("\\'", env) == Ok(("'", "")) && Passes(LexWord("\\'"), env) == Ok(("", ""))
  {
    LastQuoteIsLost('\'', env);
    assert "\\'" == "\\" + ['\''];
  }

  lemma LastQuoteIsLost(q: char, env: Env)
    requires IsQuote(q)
    ensures ReadWord("\\" + [q], env) == Ok(([q], "")) && Passes(LexWord("\\" + [q]), env) == Ok(("", ""))
  {
    var t, none := [q], "";
    assert t[1..] == none && [t[0]] + none == t;
    assert LexWord(none) == Ok(Lexed("", "")) && Value(none, env) == "";
    EscapeReads(t, env);
    ReadOutside(t, env);
    CharRead(Outside, t, env);
  }

  lemma OneNameRead(c: char, env: Env)
    requires NameStart(c)
    ensures Value("$" + [c], env) == Lookup(env, [c])
  {
    var s := "$" + [c];
    assert s[1..] == [c] && [c][1..] == "" && NameTail("") == 0;
    assert VarLen(s) == 2 && s[1..2] == [c] && c != '{';
    ValueVar(s, env);
  }

  lemma DollarTaken(t: string)
    requires t != "" && t[0] == '\\'
    ensures WordStep("$" + t) == Take("$", 1) && SourceVar("$" + t) == 0 && ("$" + t)[1..] == t
  {
    NoOp("$" + t);
  }

  /** Behind a dollar sign an escaped name character is read as the variable's name: the escape of
      a character that needs none changes what the dollar sign means. */
  lemma EscapedNameIsRead(c: char, env: Env)
    requires NameStart(c)
    ensures ReadWord("$" + ("\\" + [c]), env) == Ok(("$" + [c], ""))
    ensures Passes(LexWord("$" + ("\\" + [c])), env) == Ok((Lookup(env, [c]), ""))
  {
    var t, none, raw := [c], "", "$" + [c];
    assert t[1..] == none && t[0] == c;
    assert LexWord(none) == Ok(Lexed("", "")) && Tame(none);
    DollarTaken("\\" + t);
    EscapeStep(t);
    EscapeReads(t, env);
    PlainKept(c, none, env);
    Nothing([c]);
    assert LexWord("$" + ("\\" + t)) == Ok(Lexed(raw, ""));
    PartsMean(raw, "", env);
    Nothing(Value(raw, env));
    OneNameRead(c, env);
  }

  /**
   * The lexer forgets the backslash before a character it would have taken anyway: the second
   * pass sees the same text with and without it.
   */
  lemma EscapeIsForgotten(t: string, env: Env)
    requires t != "" && WordStep(t) == Take([t[0]], 1)
    ensures LexWord("\\" + t) == LexWord(t)
    ensures ReadWord("\\" + t, env) == Before([t[0]], ReadWord(t[1..], env))
    ensures Tame(t) ==> Passes(LexWord("\\" + t), env) == ReadWord(t, env)
  {
    EscapeStep(t);
    if Tame(t) {
      Fusion(t, env);
    }
  }
}
