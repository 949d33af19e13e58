/** Words: the second pass that cuts raw text into parts, and what a word expands to. */
module WordParts {
  import opened Lexer
  import opened Seqs

  datatype PartKind = Bare | SingleQuoted | DoubleQuoted | Var

  datatype WordPart = WordPart(text: string, kind: PartKind)

  type Env = map<string, string>

  function Lookup(env: Env, name: string): string {
    if name in env then env[name] else ""
  }

  /** Python's `text.strip("{}")`. */
  function Strip(text: string): string {
    StripRight(StripLeft(text))
  }

  function StripLeft(text: string): string {
    if text != "" && IsBrace(text[0]) then StripLeft(text[1..]) else text
  }

  function StripRight(text: string): string {
    if text != "" && IsBrace(text[|text| - 1]) then StripRight(text[..|text| - 1]) else text
  }

  function ExpandPart(p: WordPart, env: Env): string {
    if p.kind == Var then Lookup(env, Strip(p.text)) else p.text
  }

  function Expand(parts: seq<WordPart>, env: Env): string {
    if parts == [] then "" else ExpandPart(parts[0], env) + Expand(parts[1..], env)
  }

  /** A pending buffer becomes a part unless it is empty. */
  function Flush(buf: string, kind: PartKind): seq<WordPart> {
    if buf == "" then [] else [WordPart(buf, kind)]
  }

  /** The parts of a double-quoted span, `buf` being what is pending. */
  function InsideParts(body: string, buf: string): seq<WordPart>
    decreases |body|
  {
    if body == "" then Flush(buf, DoubleQuoted)
    else if VarLen(body) > 0 then
      Flush(buf, DoubleQuoted) + [WordPart(body[1..VarLen(body)], Var)] + InsideParts(body[VarLen(body)..], "")
    else InsideParts(body[Unit(body)..], buf + [body[Unit(body) - 1]])
  }

  /** A character outside quotes that starts nothing. */
  predicate Plain(s: string)
    requires s != ""
  {
    s[0] != '\'' && s[0] != '"' && VarLen(s) == 0
  }

  /** The body of the quoted span that `s` starts with. */
  function Body(s: string): string
    requires s != "" && IsQuote(s[0])
  {
    s[1..1 + if s[0] == '\'' then SingleLen(s[1..]) else DoubleLen(s[1..])]
  }

  /** The size of what `s` starts with: a span with its quotes, a variable or one character. */
  function UnitSize(s: string): (n: nat)
    requires s != ""
    ensures 0 < n <= |s|
  {
    if IsQuote(s[0]) then
      var k := 1 + |Body(s)|;
      if k < |s| then k + 1 else k
    else if VarLen(s) > 0 then VarLen(s)
    else 1
  }

  function UnitParts(s: string): seq<WordPart>
    requires s != "" && !Plain(s)
  {
    if s[0] == '\'' then [WordPart(Body(s), SingleQuoted)]
    else if s[0] == '"' then InsideParts(Body(s), "")
    else [WordPart(s[1..VarLen(s)], Var)]
  }

  /** The parts of a word, `bare` being what is pending outside quotes. */
  function Parts(s: string, bare: string): seq<WordPart>
    decreases |s|
  {
    if s == "" then Flush(bare, Bare)
    else if Plain(s) then Parts(s[1..], bare + [s[0]])
    else Flush(bare, Bare) + UnitParts(s) + Parts(s[UnitSize(s)..], "")
  }

  /** The name in the `$NAME` or `${NAME}` that `s` starts with. */
  function VarName(s: string): string
    requires VarLen(s) > 0
  {
    if s[1] == '{' then s[2..VarLen(s) - 1] else s[1..VarLen(s)]
  }

  /** The value of a double-quoted span, read in one pass. */
  function InsideValue(body: string, env: Env): string
    decreases |body|
  {
    if body == "" then ""
    else if VarLen(body) > 0 then Lookup(env, VarName(body)) + InsideValue(body[VarLen(body)..], env)
    else [body[Unit(body) - 1]] + InsideValue(body[Unit(body)..], env)
  }

  function UnitValue(s: string, env: Env): string
    requires s != ""
  {
    if s[0] == '\'' then Body(s)
    else if s[0] == '"' then InsideValue(Body(s), env)
    else if VarLen(s) > 0 then Lookup(env, VarName(s))
    else [s[0]]
  }

  /** The value of a word's raw text, read in one pass and without parts. */
  function Value(s: string, env: Env): string
    decreases |s|
  {
    if s == "" then "" else UnitValue(s, env) + Value(s[UnitSize(s)..], env)
  }

  lemma {:induction false} ExpandConcat(a: seq<WordPart>, b: seq<WordPart>, env: Env)
    ensures Expand(a + b, env) == Expand(a, env) + Expand(b, env)
  {
    if a == [] {
      assert a + b == b;
    } else {
      assert (a + b)[1..] == a[1..] + b;
      ExpandConcat(a[1..], b, env);
    }
  }

  lemma ExpandOne(p: WordPart, env: Env)
    ensures Expand([p], env) == ExpandPart(p, env)
  {
    assert [p][1..] == [];
  }

  lemma ExpandFlush(buf: string, kind: PartKind, env: Env)
    requires kind != Var
    ensures Expand(Flush(buf, kind), env) == buf
  {
    if buf != "" {
      ExpandOne(WordPart(buf, kind), env);
    }
  }

  lemma NameChars(s: string)
    ensures forall i :: 0 <= i < NameTail(s) ==> NameChar(s[i])
    ensures forall i :: 0 <= i < NameLen(s) ==> NameChar(s[i])
  {
    if s != "" && NameChar(s[0]) {
      NameChars(s[1..]);
      assert forall i :: 0 < i < NameTail(s) ==> s[i] == s[1..][i - 1];
      assert forall i :: 0 < i < NameLen(s) ==> s[i] == s[1..][i - 1];
    }
  }

  lemma StripPlain(text: string)
    requires forall i :: 0 <= i < |text| ==> NameChar(text[i])
    ensures StripLeft(text) == text && StripRight(text) == text
  {
  }

  lemma StripBraced(name: string)
    requires forall i :: 0 <= i < |name| ==> NameChar(name[i])
    ensures Strip("{" + name + "}") == name
  {
    var t := name + "}";
    assert ("{" + t)[1..] == t && "{" + name + "}" == "{" + t;
    assert StripLeft(t) == (if name == "" then "" else t);
    StripPlain(name);
    if name != "" {
      assert t[..|t| - 1] == name;
    }
  }

  /** Stripping the braces off a variable's match leaves its name. */
  lemma StripName(s: string)
    requires VarLen(s) > 0
    ensures Strip(s[1..VarLen(s)]) == VarName(s)
  {
    NameChars(s[1..]);
    NameChars(s[2..]);
    var n := VarLen(s);
    if s[1] == '{' {
      StripBraced(s[2..n - 1]);
      assert s[1..n] == "{" + s[2..n - 1] + "}";
    } else {
      StripPlain(s[1..n]);
    }
  }

  lemma VarPart(s: string, env: Env)
    requires VarLen(s) > 0
    ensures Expand([WordPart(s[1..VarLen(s)], Var)], env) == Lookup(env, VarName(s))
  {
    ExpandOne(WordPart(s[1..VarLen(s)], Var), env);
    StripName(s);
  }

  lemma Expand3(a: seq<WordPart>, b: seq<WordPart>, c: seq<WordPart>, env: Env)
    ensures Expand(a + b + c, env) == Expand(a, env) + (Expand(b, env) + Expand(c, env))
  {
    ExpandConcat(a + b, c, env);
    ExpandConcat(a, b, env);
  }

  /** What a span or a variable adds, between the pending text and what the rest expands to. */
  lemma Joined(buf: string, kind: PartKind, mid: seq<WordPart>, tail: seq<WordPart>, y: string, env: Env)
    requires kind != Var && Expand(tail, env) == "" + y
    ensures Expand(Flush(buf, kind) + mid + tail, env) == buf + (Expand(mid, env) + y)
  {
    ExpandFlush(buf, kind, env);
    Expand3(Flush(buf, kind), mid, tail, env);
    Nothing(y);
  }

  lemma {:induction false} InsidePartsMean(body: string, buf: string, env: Env)
    ensures Expand(InsideParts(body, buf), env) == buf + InsideValue(body, env)
    decreases |body|
  {
    if body == "" {
      ExpandFlush(buf, DoubleQuoted, env);
    } else if VarLen(body) > 0 {
      var rest := body[VarLen(body)..];
      InsidePartsMean(rest, "", env);
      VarPart(body, env);
      Joined(buf, DoubleQuoted, [WordPart(body[1..VarLen(body)], Var)], InsideParts(rest, ""),
             InsideValue(rest, env), env);
    } else {
      var rest := body[Unit(body)..];
      var c := body[Unit(body) - 1];
      InsidePartsMean(rest, buf + [c], env);
      Assoc(buf, [c], InsideValue(rest, env));
    }
  }

  lemma UnitMeans(s: string, env: Env)
    requires s != "" && !Plain(s)
    ensures Expand(UnitParts(s), env) == UnitValue(s, env)
  {
    if s[0] == '\'' {
      ExpandOne(WordPart(Body(s), SingleQuoted), env);
    } else if s[0] == '"' {
      InsidePartsMean(Body(s), "", env);
    } else {
      VarPart(s, env);
    }
  }

  /** Cutting into parts and expanding them loses nothing: it is the one-pass value of the raw text. */
  lemma {:induction false} PartsMean(s: string, bare: string, env: Env)
    ensures Expand(Parts(s, bare), env) == bare + Value(s, env)
    decreases |s|
  {
    if s == "" {
      ExpandFlush(bare, Bare, env);
    } else if Plain(s) {
      PartsMean(s[1..], bare + [s[0]], env);
      Assoc(bare, [s[0]], Value(s[1..], env));
    } else {
      var rest := s[UnitSize(s)..];
      PartsMean(rest, "", env);
      UnitMeans(s, env);
      Joined(bare, Bare, UnitParts(s), Parts(rest, ""), Value(rest, env), env);
    }
  }

  lemma SingleBody(body: string, t: string)
    requires forall i :: 0 <= i < |body| ==> body[i] != '\''
    ensures SingleLen(body + "'" + t) == |body|
  {
    if body == "" {
      assert body + "'" + t == "'" + t;
    } else {
      assert (body + "'" + t)[1..] == body[1..] + "'" + t;
      SingleBody(body[1..], t);
    }
  }

  /** The length of a double-quoted span does not depend on what follows its closing quote. */
  lemma DoubleBody(s: string, t: string)
    requires DoubleLen(s) < |s|
    ensures DoubleLen(s[..DoubleLen(s) + 1] + t) == DoubleLen(s)
    decreases |s|
  {
    var k := DoubleLen(s);
    if s[0] != '"' {
      var u := Unit(s);
      DoubleBody(s[u..], t);
      assert (s[..k + 1] + t)[u..] == s[u..][..k - u + 1] + t;
    }
  }

  lemma PutAfter(s: string, k: nat, t: string)
    requires k < |s|
    ensures (s[..k + 1] + t)[..k] == s[..k] && (s[..k + 1] + t)[k + 1..] == t
  {
  }

  lemma ValueQuoted(q: char, inner: string, k: nat, env: Env)
    requires IsQuote(q) && k < |inner| && k == if q == '\'' then SingleLen(inner) else DoubleLen(inner)
    ensures Value([q] + inner, env)
         == (if q == '\'' then inner[..k] else InsideValue(inner[..k], env)) + Value(inner[k + 1..], env)
  {
    PutBefore(q, inner, k);
    assert ([q] + inner)[0] == q;
  }

  lemma ValueSingle(body: string, t: string, env: Env)
    requires forall i :: 0 <= i < |body| ==> body[i] != '\''
    ensures Value("'" + body + "'" + t, env) == body + Value(t, env)
  {
    var inner := body + "'" + t;
    SingleBody(body, t);
    Halves(body, '\'', t);
    ValueQuoted('\'', inner, |body|, env);
    Enclose('\'', body, t);
  }

  lemma ValueDouble(s: string, t: string, env: Env)
    requires DoubleLen(s) < |s|
    ensures Value("\"" + (s[..DoubleLen(s) + 1] + t), env)
         == InsideValue(s[..DoubleLen(s)], env) + Value(t, env)
  {
    var k := DoubleLen(s);
    DoubleBody(s, t);
    PutAfter(s, k, t);
    ValueQuoted('"', s[..k + 1] + t, k, env);
  }

  lemma ValueVar(s: string, env: Env)
    requires VarLen(s) > 0
    ensures Value(s, env) == Lookup(env, VarName(s)) + Value(s[VarLen(s)..], env)
  {
  }

  lemma ValuePlain(s: string, env: Env)
    requires s != "" && Plain(s)
    ensures Value(s, env) == [s[0]] + Value(s[1..], env)
  {
  }
}
