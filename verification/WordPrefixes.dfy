/** An escape further on in a word: behind a tame prefix that does not end inside a variable it means
    exactly what it means at the front. */
module WordPrefixes {
  import opened Wrappers
  import opened Lexer
  import opened Seqs
  import opened WordParts
  import opened WordFusion
  import opened WordEscapes
  import opened CommandPrinter

  /** The beginning of a word: whole steps of the lexer, none of them a backslash before a touchy
      character, and no lone backslash at the end. */
  predicate Front(p: string)
    decreases |p|
  {
    p == "" ||
    match WordStep(p)
    case Take(_, size) => p != "\\" && (p[0] == '\\' ==> !Touchy(p[1])) && Front(p[size..])
    case _ => false
  }

  lemma {:induction false} FrontIsTame(p: string)
    requires Front(p)
    ensures Tame(p) && LexWord(p).Ok? && LexWord(p).value.rest == ""
    decreases |p|
  {
    if p != "" { FrontIsTame(p[WordStep(p).size..]); }
  }

  // ---- What follows a backslash does not change what comes before ----

  predicate Escaping(x: string) {
    x != "" && x[0] == '\\'
  }

  lemma PrefixWith(q: string, x: string, text: string)
    requires Escaping(x) && '\\' !in text
    ensures StartsWith(q + x, text) <==> StartsWith(q, text)
  {
    if |text| <= |q| {
      assert (q + x)[..|text|] == q[..|text|];
    } else if |text| <= |q + x| {
      assert (q + x)[|q|] == '\\' && text[|q|] in text;
      assert (q + x)[..|text|][|q|] == '\\';
    }
  }

  lemma OpWith(q: string, x: string)
    requires Escaping(x)
    ensures OpAt(q + x) == OpAt(q)
  {
    OpAtIsChain(q);
    OpAtIsChain(q + x);
    PrefixWith(q, x, "2>>"); PrefixWith(q, x, "2>&1"); PrefixWith(q, x, "2>"); PrefixWith(q, x, "1>&2");
    PrefixWith(q, x, ">>"); PrefixWith(q, x, ">"); PrefixWith(q, x, "<"); PrefixWith(q, x, "||");
    PrefixWith(q, x, "&&"); PrefixWith(q, x, "|"); PrefixWith(q, x, ";");
  }

  lemma {:induction false} SingleWith(a: string, b: string)
    requires SingleLen(a) < |a|
    ensures SingleLen(a + b) == SingleLen(a)
  {
    if a[0] != '\'' {
      assert (a + b)[1..] == a[1..] + b;
      SingleWith(a[1..], b);
    }
  }

  lemma Rejoin(a: string, k: nat, b: string)
    requires k <= |a|
    ensures a[..k] + (a[k..] + b) == a + b
  {
  }

  lemma DoubleWith(a: string, b: string)
    requires DoubleLen(a) < |a|
    ensures DoubleLen(a + b) == DoubleLen(a)
  {
    DoubleBody(a, a[DoubleLen(a) + 1..] + b);
    Rejoin(a, DoubleLen(a) + 1, b);
  }

  lemma FrontOf(p: string, x: string, n: nat)
    requires 0 < n <= |p|
    ensures (p + x)[1..] == p[1..] + x && (p + x)[..n] == p[..n] && (p + x)[n..] == p[n..] + x && (p + x)[0] == p[0]
  {
  }

  lemma SingleStep(s: string, k: nat)
    requires s != "" && s[0] == '\'' && k == SingleLen(s[1..])
    ensures WordStep(s) == if 1 + k < |s| then Take(s[..k + 2], k + 2) else Fail(OpenSingle)
  {
    NoOp(s);
  }

  lemma DoubleStep(s: string, k: nat)
    requires s != "" && s[0] == '"' && k == DoubleLen(s[1..])
    ensures WordStep(s) == if 1 + k < |s| then Take(s[..k + 2], k + 2) else Fail(OpenDouble)
  {
    NoOp(s);
  }

  lemma SpanWith(p: string, x: string)
    requires p != "" && IsQuote(p[0]) && WordStep(p).Take?
    ensures WordStep(p + x) == WordStep(p)
  {
    FrontOf(p, x, 1);
    if p[0] == '\'' {
      var k := SingleLen(p[1..]);
      SingleStep(p, k);
      SingleWith(p[1..], x);
      SingleStep(p + x, k);
      FrontOf(p, x, k + 2);
    } else {
      var k := DoubleLen(p[1..]);
      DoubleStep(p, k);
      DoubleWith(p[1..], x);
      DoubleStep(p + x, k);
      FrontOf(p, x, k + 2);
    }
  }

  /** A step of the lexer before an escape is the step it takes without it. */
  lemma StepWith(p: string, x: string)
    requires p != "" && p != "\\" && WordStep(p).Take? && Escaping(x)
    ensures WordStep(p + x) == WordStep(p)
  {
    if IsQuote(p[0]) {
      SpanWith(p, x);
    } else {
      OpWith(p, x);
      assert (p + x)[0] == p[0] && (|p| > 1 ==> (p + x)[1] == p[1]) && (|p| == 1 ==> (p + x)[1] == '\\');
    }
  }

  lemma {:induction false} LexWith(p: string, x: string)
    requires Front(p) && Escaping(x)
    ensures LexWord(p).Ok? && LexWord(p + x) == Prepend(LexWord(p).value.raw, LexWord(x))
    decreases |p|
  {
    FrontIsTame(p);
    if p == "" {
      assert p + x == x;
      if LexWord(x).Ok? { Nothing(LexWord(x).value.raw); }
    } else {
      var size := WordStep(p).size;
      StepWith(p, x);
      assert (p + x)[size..] == p[size..] + x;
      LexWith(p[size..], x);
      if LexWord(x).Ok? { Assoc(WordStep(p).text, LexWord(p[size..]).value.raw, LexWord(x).value.raw); }
    }
  }

  lemma {:induction false} TailWith(q: string, x: string)
    requires Escaping(x)
    ensures SourceTail(q + x) == SourceTail(q)
    decreases |q|
  {
    OpWith(q, x);
    if q == "" {
      assert q + x == x;
    } else {
      assert (q + x)[1..] == q[1..] + x;
      TailWith(q[1..], x);
    }
  }

  lemma NameWith(q: string, x: string)
    requires Escaping(x)
    ensures SourceName(q + x) == SourceName(q)
  {
    if q == "" {
      assert q + x == x;
    } else {
      assert (q + x)[1..] == q[1..] + x;
      TailWith(q[1..], x);
    }
  }

  /** The variable a text starts with is the same. */
  lemma VarWith(p: string, x: string)
    requires p != "" && Escaping(x)
    ensures SourceVar(p + x) == SourceVar(p)
    ensures SourceVar(p) > 0 ==> SourceVarName(p + x) == SourceVarName(p)
  {
    assert (p + x)[1..] == p[1..] + x && (|p| > 1 ==> (p + x)[2..] == p[2..] + x);
    NameWith(p[1..], x);
    if |p| > 1 { NameWith(p[2..], x); }
    var n := SourceVar(p);
    if n > 0 { assert (p + x)[..n] == p[..n]; SamePart(p + x, p, n, 1, n); }
  }

  // ---- The rest of a prefix behind a variable ----

  lemma {:induction false} FrontAfterTail(q: string)
    requires Front(q)
    ensures Front(q[SourceTail(q)..])
    decreases |q|
  {
    if q != "" && NameChar(q[0]) && OpAt(q).None? {
      TakeOne(q);
      FrontAfterTail(q[1..]);
      Drop2(q, 1, SourceTail(q[1..]));
    }
  }

  lemma FrontAfterName(q: string)
    requires Front(q)
    ensures Front(q[SourceName(q)..])
  {
    if q != "" && NameStart(q[0]) {
      NoOp(q);
      TakeOne(q);
      FrontAfterTail(q[1..]);
      Drop2(q, 1, SourceTail(q[1..]));
    }
  }

  lemma FrontAfterBrace(q: string)
    requires Front(q) && q != "" && IsBrace(q[0])
    ensures Front(q[1..])
  {
    NoOp(q);
    TakeOne(q);
  }

  lemma FrontAfterVar(p: string)
    requires Front(p) && SourceVar(p) > 0
    ensures Front(p[SourceVar(p)..]) && WordStep(p).Take?
  {
    NoOp(p);
    assert WordStep(p) == Take("$", 1);
    if SourceName(p[1..]) > 0 {
      FrontAfterName(p[1..]);
      Drop2(p, 1, SourceName(p[1..]));
    } else {
      var m := SourceName(p[2..]);
      Drop2(p, 1, 1);
      FrontAfterBrace(p[1..]);
      FrontAfterName(p[2..]);
      Drop2(p, 2, m);
      FrontAfterBrace(p[m + 2..]);
      Drop2(p, m + 2, 1);
    }
  }

  // ---- One pass over a prefix and what follows ----

  lemma BeforeTwice(a: string, b: string, r: Result<(string, string), Error>)
    ensures Before(a, Before(b, r)) == Before(a + b, r)
  {
    if r.Ok? { Assoc(a, b, r.value.0); }
  }

  lemma ReadVarStep(s: string, env: Env)
    requires WordStep(s).Take? && SourceVar(s) > 0
    ensures ReadWord(s, env) == Before(Lookup(env, SourceVarName(s)), ReadWord(s[SourceVar(s)..], env))
  {
  }

  lemma ReadTakenStep(s: string, env: Env)
    requires WordStep(s).Take? && SourceVar(s) == 0
    ensures ReadWord(s, env) == Before(TakenValue(s, WordStep(s).text, env), ReadWord(s[WordStep(s).size..], env))
  {
  }

  lemma ReadVarWith(p: string, x: string, v: string, env: Env)
    requires SourceVar(p) > 0 && WordStep(p).Take? && p != "\\" && Escaping(x)
    requires ReadWord(p[SourceVar(p)..], env) == Ok((v, ""))
    requires ReadWord(p[SourceVar(p)..] + x, env) == Before(v, ReadWord(x, env))
    ensures ReadWord(p, env) == Ok((Lookup(env, SourceVarName(p)) + v, ""))
    ensures ReadWord(p + x, env) == Before(Lookup(env, SourceVarName(p)) + v, ReadWord(x, env))
  {
    StepWith(p, x);
    VarWith(p, x);
    FrontOf(p, x, SourceVar(p));
    ReadVarStep(p, env);
    ReadVarStep(p + x, env);
    BeforeTwice(Lookup(env, SourceVarName(p)), v, ReadWord(x, env));
  }

  lemma ReadTakenWith(p: string, x: string, v: string, env: Env)
    requires p != "" && p != "\\" && WordStep(p).Take? && SourceVar(p) == 0 && Escaping(x)
    requires ReadWord(p[WordStep(p).size..], env) == Ok((v, ""))
    requires ReadWord(p[WordStep(p).size..] + x, env) == Before(v, ReadWord(x, env))
    ensures ReadWord(p, env) == Ok((TakenValue(p, WordStep(p).text, env) + v, ""))
    ensures ReadWord(p + x, env) == Before(TakenValue(p, WordStep(p).text, env) + v, ReadWord(x, env))
  {
    StepWith(p, x);
    VarWith(p, x);
    FrontOf(p, x, WordStep(p).size);
    ReadTakenStep(p, env);
    ReadTakenStep(p + x, env);
    BeforeTwice(TakenValue(p, WordStep(p).text, env), v, ReadWord(x, env));
  }

  lemma {:induction false} ReadWith(p: string, x: string, env: Env) returns (v: string)
    requires Front(p) && Escaping(x)
    ensures ReadWord(p, env) == Ok((v, "")) && ReadWord(p + x, env) == Before(v, ReadWord(x, env))
    decreases |p|
  {
    if p == "" {
      v := "";
      assert p + x == x;
      if ReadWord(x, env).Ok? { Nothing(ReadWord(x, env).value.0); }
    } else if SourceVar(p) > 0 {
      FrontAfterVar(p);
      var w := ReadWith(p[SourceVar(p)..], x, env);
      ReadVarWith(p, x, w, env);
      v := Lookup(env, SourceVarName(p)) + w;
    } else {
      var w := ReadWith(p[WordStep(p).size..], x, env);
      ReadTakenWith(p, x, w, env);
      v := TakenValue(p, WordStep(p).text, env) + w;
    }
  }

  // ---- The second pass over a prefix and what follows ----

  /** `$`, `$NAME`, `${` or `${NAME`, up to the end: more text could go on with it. */
  predicate OpenVar(r: string) {
    r != "" && r[0] == '$' &&
    (NameLen(r[1..]) == |r| - 1 || (|r| > 1 && r[1] == '{' && NameLen(r[2..]) == |r| - 2))
  }

  /** The raw text ends inside a variable. */
  predicate EndsOpen(r: string)
    decreases |r|
  {
    r != "" && (OpenVar(r) || EndsOpen(r[UnitSize(r)..]))
  }

  /** Every span is closed, and so is every variable. */
  predicate Closed(r: string)
    decreases |r|
  {
    r == "" ||
    ((IsQuote(r[0]) ==> 1 + |Body(r)| < |r|) && !OpenVar(r) && Closed(r[UnitSize(r)..]))
  }

  lemma {:induction false} TailAppend(a: string, b: string)
    requires NameTail(a) < |a|
    ensures NameTail(a + b) == NameTail(a)
  {
    if NameChar(a[0]) {
      assert (a + b)[1..] == a[1..] + b;
      TailAppend(a[1..], b);
    }
  }

  lemma NameAppend(a: string, b: string)
    requires NameLen(a) < |a|
    ensures NameLen(a + b) == NameLen(a)
  {
    if NameStart(a[0]) {
      assert (a + b)[1..] == a[1..] + b;
      TailAppend(a[1..], b);
    }
  }

  lemma VarAppend(r: string, y: string)
    requires r != "" && !OpenVar(r)
    ensures VarLen(r + y) == VarLen(r)
    ensures VarLen(r) > 0 ==> VarName(r + y) == VarName(r)
  {
    if r[0] == '$' {
      assert (r + y)[1..] == r[1..] + y && (|r| > 1 ==> (r + y)[2..] == r[2..] + y);
      NameAppend(r[1..], y);
      if r[1] == '{' { NameAppend(r[2..], y); }
      var n := VarLen(r);
      if n > 0 { assert (r + y)[..n] == r[..n]; SamePart(r + y, r, n, 1, n); }
    }
  }

  /** One unit of a raw text, and the rest of it. */
  lemma UnitStep(r: string, y: string, env: Env)
    requires r != "" && !OpenVar(r) && (IsQuote(r[0]) ==> 1 + |Body(r)| < |r|)
    ensures UnitSize(r + y) == UnitSize(r) && UnitValue(r + y, env) == UnitValue(r, env)
  {
    FrontOf(r, y, 1);
    if IsQuote(r[0]) {
      BodyWith(r, y);
    } else {
      VarAppend(r, y);
    }
  }

  lemma BodyWith(r: string, y: string)
    requires r != "" && IsQuote(r[0]) && 1 + |Body(r)| < |r|
    ensures (r + y)[0] == r[0] && Body(r + y) == Body(r)
  {
    FrontOf(r, y, 1);
    BodyIs(r);
    BodyIs(r + y);
    if r[0] == '\'' { SingleWith(r[1..], y); } else { DoubleWith(r[1..], y); }
    assert (r[1..] + y)[..|Body(r)|] == r[1..][..|Body(r)|];
  }

  lemma ValueUnit(r: string, y: string, env: Env)
    requires r != "" && !OpenVar(r) && (IsQuote(r[0]) ==> 1 + |Body(r)| < |r|)
    requires Value(r[UnitSize(r)..] + y, env) == Value(r[UnitSize(r)..], env) + Value(y, env)
    ensures Value(r + y, env) == Value(r, env) + Value(y, env)
  {
    UnitStep(r, y, env);
    FrontOf(r, y, UnitSize(r));
    ValueStep(r, env);
    ValueStep(r + y, env);
    Assoc(UnitValue(r, env), Value(r[UnitSize(r)..], env), Value(y, env));
  }

  /** A closed raw text is read the same whatever follows it, and so is what follows. */
  lemma {:induction false} ValueWith(r: string, y: string, env: Env)
    requires Closed(r)
    ensures Value(r + y, env) == Value(r, env) + Value(y, env)
    decreases |r|
  {
    if r == "" {
      Nothing(y);
      assert r + y == y;
      Nothing(Value(y, env));
    } else {
      ValueWith(r[UnitSize(r)..], y, env);
      ValueUnit(r, y, env);
    }
  }

  lemma QuotedRaw(p: string, rest: string)
    requires p != "" && IsQuote(p[0]) && WordStep(p).Take?
    ensures var r := WordStep(p).text + rest;
      r[0] == p[0] && UnitSize(r) == |WordStep(p).text| && 1 + |Body(r)| < |r| && r[UnitSize(r)..] == rest
      && |WordStep(p).text| > 0
  {
    var r := WordStep(p).text + rest;
    var k := if p[0] == '\'' then SingleLen(p[1..]) else DoubleLen(p[1..]);
    if p[0] == '\'' { SingleStep(p, k); } else { DoubleStep(p, k); }
    SpanText(p, k);
    FrontOf(p[..k + 2], rest, 1);
    BodyIs(r);
    if p[0] == '\'' {
      SingleTake(p[1..], k, rest);
    } else {
      DoubleTake(p[1..], k, rest);
    }
  }

  lemma SingleTake(s: string, k: nat, rest: string)
    requires k == SingleLen(s) < |s|
    ensures SingleLen(s[..k + 1] + rest) == k
  {
    SingleFree(s);
    assert s[..k + 1] + rest == s[..k] + "'" + rest;
    SingleBody(s[..k], rest);
  }

  lemma DoubleTake(s: string, k: nat, rest: string)
    requires k == DoubleLen(s) < |s|
    ensures DoubleLen(s[..k + 1] + rest) == k
  {
    DoubleBody(s, rest);
  }

  /** The raw text of a prefix is closed, unless it ends inside a variable. */
  lemma {:induction false} FrontCloses(p: string)
    requires Front(p) && LexWord(p).Ok? && !EndsOpen(LexWord(p).value.raw)
    ensures Closed(LexWord(p).value.raw)
    decreases |p|
  {
    if p != "" {
      FrontIsTame(p);
      var raw := LexWord(p).value.raw;
      var size := WordStep(p).size;
      if IsQuote(p[0]) {
        QuotedRaw(p, LexWord(p[size..]).value.raw);
        FrontCloses(p[size..]);
      } else if SourceVar(p) > 0 {
        FrontAfterVar(p);
        VarAgrees(p);
        FrontCloses(p[SourceVar(p)..]);
      } else {
        NoVar(p);
        assert raw[1..] == LexWord(p[size..]).value.raw;
        FrontCloses(p[size..]);
      }
    }
  }

  // ---- Escapes further on ----

  lemma PassesWith(p: string, x: string, env: Env)
    requires Front(p) && Escaping(x) && LexWord(p).Ok? && !EndsOpen(LexWord(p).value.raw)
    ensures Passes(LexWord(p + x), env) == Before(Value(LexWord(p).value.raw, env), Passes(LexWord(x), env))
  {
    LexWith(p, x);
    FrontCloses(p);
    if LexWord(x).Ok? {
      var r, y := LexWord(p).value.raw, LexWord(x).value.raw;
      ValueWith(r, y, env);
      PartsMean(r + y, "", env);
      PartsMean(y, "", env);
      Nothing(Value(r + y, env));
      Nothing(Value(y, env));
    }
  }

  lemma FrontValue(p: string, v: string, env: Env)
    requires Front(p) && ReadWord(p, env) == Ok((v, "")) && LexWord(p).Ok?
    ensures v == Value(LexWord(p).value.raw, env)
  {
    FrontIsTame(p);
    FusionValue(p, env);
  }

  lemma SameBefore(v: string, a: Result<(string, string), Error>, b: Result<(string, string), Error>)
    ensures Before(v, a) == Before(v, b) <==> a == b
  {
    if a.Ok? && b.Ok? && v + a.value.0 == v + b.value.0 {
      assert a.value.0 == (v + a.value.0)[|v|..] && b.value.0 == (v + b.value.0)[|v|..];
    }
  }

  /** Behind a tame prefix that does not end inside a variable, an escape is read by the two passes
      as it stands if and only if it is at the front of a word. */
  lemma {:induction false} BehindIff(p: string, x: string, env: Env)
    requires Front(p) && Escaping(x) && LexWord(p).Ok? && !EndsOpen(LexWord(p).value.raw)
    ensures ReadWord(p + x, env) == Passes(LexWord(p + x), env) <==> ReadWord(x, env) == Passes(LexWord(x), env)
  {
    var v := ReadWith(p, x, env);
    FrontValue(p, v, env);
    PassesWith(p, x, env);
    SameBefore(v, ReadWord(x, env), Passes(LexWord(x), env));
  }

  /** So the condition is the same: the escaped character is no quote and starts no variable, unless
      that variable's value happens to be its own text. */
  lemma {:induction false} LaterEscapeAgreesIff(p: string, t: string, env: Env)
    requires Front(p) && LexWord(p).Ok? && !EndsOpen(LexWord(p).value.raw)
    requires t != "" && Tame(t[1..]) && QuoteFree(env)
    ensures ReadWord(p + ("\\" + t), env) == Passes(LexWord(p + ("\\" + t)), env) <==>
      LexWord(t[1..]).Err? ||
      (!IsQuote(t[0]) && (SourceVar(t) > 0 ==> Lookup(env, SourceVarName(t)) == t[..SourceVar(t)]))
  {
    BehindIff(p, "\\" + t, env);
    EscapeAgreesIff(t, env);
  }
}
