/** Which texts are variables and assignments, by the names of section 3.235 of the POSIX.1-2017 Base
    Definitions: letters, digits and underscores, the first one no digit. */
module VariableNames {
  import opened Wrappers
  import opened Seqs
  import opened ShellQuote
  import opened Lexer
  import opened WordParts
  import opened Syntax
  import opened PrintedWords
  import opened ParserRoundTrip

  /** By ASCII code: `A` to `Z`, `a` to `z`, and the underscore. */
  predicate Letter(c: char) {
    var n := c as int;
    65 <= n <= 90 || 97 <= n <= 122 || n == 95
  }

  predicate LetterOrDigit(c: char) {
    Letter(c) || 48 <= c as int <= 57
  }

  predicate Name(n: string) {
    n != "" && Letter(n[0]) && forall i :: 0 <= i < |n| ==> LetterOrDigit(n[i])
  }

  /** What ends a name. */
  predicate NoMore(rest: string) {
    rest == "" || !LetterOrDigit(rest[0])
  }

  lemma {:induction false} TailOfName(n: string, rest: string)
    requires (forall i :: 0 <= i < |n| ==> LetterOrDigit(n[i])) && NoMore(rest)
    ensures NameTail(n + rest) == |n|
  {
    if n == "" {
      assert n + rest == rest;
    } else {
      assert (n + rest)[1..] == n[1..] + rest && (n + rest)[0] == n[0];
      TailOfName(n[1..], rest);
    }
  }

  lemma LenOfName(n: string, rest: string)
    requires Name(n) && NoMore(rest)
    ensures NameLen(n + rest) == |n|
  {
    assert (n + rest)[1..] == n[1..] + rest && (n + rest)[0] == n[0];
    TailOfName(n[1..], rest);
  }

  /** And nothing else is read as a name. */
  lemma NameRead(s: string)
    ensures NameLen(s) > 0 ==> Name(s[..NameLen(s)]) && NoMore(s[NameLen(s)..])
    ensures NameLen(s) == 0 ==> s == "" || !Letter(s[0])
  {
    NameChars(s);
    if NameLen(s) > 0 { TailEnds(s[1..]); }
  }

  lemma {:induction false} TailEnds(s: string)
    ensures NoMore(s[NameTail(s)..])
  {
    if s != "" && NameChar(s[0]) {
      TailEnds(s[1..]);
      Drop2(s, 1, NameTail(s[1..]));
    }
  }

  // ---- Variables in raw text ----

  lemma PlainVar(n: string, rest: string)
    requires Name(n) && NoMore(rest)
    ensures var s := "$" + n + rest; VarLen(s) == |n| + 1 && VarName(s) == n && s[|n| + 1..] == rest
  {
    var s := "$" + n + rest;
    assert s == "$" + (n + rest) && s[1..] == n + rest;
    LenOfName(n, rest);
    assert s[1] == n[0] && s[1..|n| + 1] == n;
  }

  lemma BracedVar(n: string, rest: string)
    requires Name(n)
    ensures var s := "${" + n + "}" + rest; VarLen(s) == |n| + 3 && VarName(s) == n && s[|n| + 3..] == rest
  {
    var s := "${" + n + "}" + rest;
    var t := "}" + rest;
    assert s == "${" + (n + t) && s[2..] == n + t && s[1..][0] == '{';
    LenOfName(n, t);
    assert s[|n| + 2] == '}' && s[2..|n| + 2] == n;
  }

  /** `$n` in front of anything that does not go on with the name, and `${n}` in front of anything, is
      read as the variable's value, outside quotes and inside double quotes. */
  lemma VariableReads(n: string, rest: string, env: Env)
    requires Name(n)
    ensures NoMore(rest) ==> Value("$" + n + rest, env) == Lookup(env, n) + Value(rest, env)
    ensures NoMore(rest) ==> InsideValue("$" + n + rest, env) == Lookup(env, n) + InsideValue(rest, env)
    ensures Value("${" + n + "}" + rest, env) == Lookup(env, n) + Value(rest, env)
    ensures InsideValue("${" + n + "}" + rest, env) == Lookup(env, n) + InsideValue(rest, env)
  {
    if NoMore(rest) {
      PlainVar(n, rest);
      ValueVar("$" + n + rest, env);
    }
    BracedVar(n, rest);
    ValueVar("${" + n + "}" + rest, env);
  }

  /** The converse: what is read as a variable is `$n` or `${n}` with such a name, as long as it goes. */
  lemma VariableIsName(s: string)
    requires VarLen(s) > 0
    ensures var n, rest := VarName(s), s[VarLen(s)..];
      Name(n) && ((s == "$" + n + rest && NoMore(rest)) || s == "${" + n + "}" + rest)
  {
    NameRead(s[1..]);
    NameRead(s[2..]);
    if NameLen(s[1..]) > 0 {
      var n := s[1..][..NameLen(s[1..])];
      assert VarName(s) == n;
      assert s == "$" + n + s[|n| + 1..];
    } else {
      var n := s[2..][..NameLen(s[2..])];
      assert VarName(s) == n;
      assert s == "${" + n + "}" + s[|n| + 3..];
    }
  }

  // ---- Variables in commands ----

  lemma {:induction false} NameLexes(n: string, x: string)
    requires (forall i :: 0 <= i < |n| ==> LetterOrDigit(n[i])) && NoJoin(n, x)
    ensures LexWord(n + x) == Prepend(n, LexWord(x))
  {
    SafeLex(n, x);
  }

  /** A whole word `$n` or `${n}` of a command is one word, and expands to the variable's value, or to
      nothing where it has none. */
  lemma VariableWord(n: string, rest: string, env: Env)
    requires Name(n) && Ended(rest)
    ensures Tokenize("$" + n + rest) == Cons(Word("$" + n), Tokenize(rest))
    ensures Expand(Parts("$" + n, ""), env) == if n in env then env[n] else ""
    ensures Tokenize("${" + n + "}" + rest) == Cons(Word("${" + n + "}"), Tokenize(rest))
    ensures Expand(Parts("${" + n + "}", ""), env) == if n in env then env[n] else ""
  {
    PlainVarLexes(n, rest);
    BracedVarLexes(n, rest);
    WordMeans("$" + n, n, env) by { PlainVar(n, ""); Nothing("$" + n); }
    WordMeans("${" + n + "}", n, env) by { BracedVar(n, ""); Nothing("${" + n + "}"); }
  }

  lemma WordMeans(s: string, n: string, env: Env)
    requires VarLen(s) == |s| > 0 && VarName(s) == n
    ensures Expand(Parts(s, ""), env) == Lookup(env, n)
  {
    PartsMean(s, "", env);
    ValueVar(s, env);
    assert s[|s|..] == "";
    Nothing(Lookup(env, n));
    Nothing(Value(s, env));
  }

  lemma DollarStep(x: string)
    requires x == "" || x[0] != '('
    ensures LexWord("$" + x) == Prepend("$", LexWord(x))
  {
    NoOp("$" + x);
    assert ("$" + x)[1..] == x;
  }

  lemma BraceStep(c: char, x: string)
    requires IsBrace(c)
    ensures LexWord([c] + x) == Prepend([c], LexWord(x))
  {
    NoOp([c] + x);
    StepLex(c, x);
  }

  /** A text that starts with `$` and lexes is a word, unless it is a substitution or a bad expansion. */
  lemma DollarWord(s: string, raw: string, rest: string)
    requires |s| > 1 && s[0] == '$' && s[1] != '(' && (s[1] == '{' ==> VarLen(s) > 0)
    requires raw != "" && LexWord(s) == Ok(Lexed(raw, rest))
    ensures Tokenize(s) == Cons(Word(raw), Tokenize(rest))
  {
    NoOp(s);
  }

  lemma PlainVarLexes(n: string, rest: string)
    requires Name(n) && Ended(rest)
    ensures Tokenize("$" + n + rest) == Cons(Word("$" + n), Tokenize(rest))
  {
    EndedEnds(n, rest);
    NameLexes(n, rest);
    DollarStep(n + rest);
    Assoc("$", n, rest);
    PrependBoth("$", n, LexWord(rest));
    WordAlone("$" + n, rest);
    assert ("$" + n + rest)[1] == n[0];
    DollarWord("$" + n + rest, "$" + n, rest);
  }

  lemma BracedText(n: string, rest: string)
    ensures "${" + n + "}" + rest == "$" + ("{" + (n + ("}" + rest)))
    ensures "${" + n + "}" == "$" + ("{" + (n + "}"))
  {
    assert "${" == "$" + "{";
    Assoc("$", "{", n);
    Assoc("$", "{" + n, "}");
    Assoc("{", n, "}");
    Assoc("$", "{" + (n + "}"), rest);
    Assoc("{", n + "}", rest);
    Assoc(n, "}", rest);
  }

  lemma BracedLexes(n: string, rest: string)
    requires Name(n) && Ended(rest)
    ensures LexWord("$" + ("{" + (n + ("}" + rest)))) == Ok(Lexed("$" + ("{" + (n + "}")), rest))
  {
    EndedEnds("}", rest);
    BraceStep('}', rest);
    NameLexes(n, "}" + rest);
    BraceStep('{', n + ("}" + rest));
    DollarStep("{" + (n + ("}" + rest)));
    PrependBoth(n, "}", LexWord(rest));
    PrependBoth("{", n + "}", LexWord(rest));
    PrependBoth("$", "{" + (n + "}"), LexWord(rest));
    WordAlone("$" + ("{" + (n + "}")), rest);
  }

  lemma BracedVarLexes(n: string, rest: string)
    requires Name(n) && Ended(rest)
    ensures Tokenize("${" + n + "}" + rest) == Cons(Word("${" + n + "}"), Tokenize(rest))
  {
    BracedText(n, rest);
    BracedLexes(n, rest);
    BracedVar(n, rest);
    DollarWord("${" + n + "}" + rest, "${" + n + "}", rest);
  }

  // ---- Assignments ----

  lemma NamesAgree(n: string)
    ensures GoodName(n) <==> Name(n)
  {
    Nothing(n);
    if Name(n) { LenOfName(n, ""); }
    if GoodName(n) { NameRead(n); assert n[..|n|] == n; }
  }

  lemma {:induction false} CutAtNewline(v: string, more: string)
    requires '\n' !in v && (more == "" || more[0] == '\n')
    ensures UpToNewline(v + more) == v
  {
    if v == "" {
      assert v + more == more;
    } else {
      assert (v + more)[1..] == v[1..] + more;
      CutAtNewline(v[1..], more);
    }
  }

  /** Before the first argument and the first redirect `n=v` is the assignment of the value to the name;
      from a line break on the rest of the word is dropped. */
  lemma AssignmentReads(n: string, v: string, more: string, rest: seq<Token>, node: CommandNode)
    requires Name(n) && node.argv == [] && node.redirects == []
    requires '\n' !in v && (more == "" || more[0] == '\n')
    ensures Command([Word(n + "=" + (v + more))] + rest, node)
            == Command(rest, node.(assignments := node.assignments + [(n, v)]))
  {
    NamesAgree(n);
    RawAssignment(n, v + more);
    CutAtNewline(v, more);
    assert ([Word(n + "=" + (v + more))] + rest)[1..] == rest;
  }

  /** After an argument or a redirect it is an argument. */
  lemma LaterIsArgument(raw: string, rest: seq<Token>, node: CommandNode)
    requires node.argv != [] || node.redirects != [] || !IsAssignment(raw)
    ensures Command([Word(raw)] + rest, node) == Command(rest, node.(argv := node.argv + [Parts(raw, "")]))
  {
    assert ([Word(raw)] + rest)[1..] == rest;
  }

  /** The converse: what is taken for an assignment starts with such a name and an equals sign. */
  lemma AssignmentIsName(raw: string)
    ensures IsAssignment(raw) <==> exists n | Name(n) :: StartsWith(raw, n + "=")
    ensures IsAssignment(raw) ==> Name(Assignment(raw).0) && StartsWith(raw, Assignment(raw).0 + "=")
  {
    NameRead(raw);
    if IsAssignment(raw) {
      var n := raw[..NameLen(raw)];
      assert raw[..|n| + 1] == n + "=";
    }
    forall n | Name(n) && StartsWith(raw, n + "=") ensures IsAssignment(raw) {
      var rest := raw[|n| + 1..];
      assert raw == n + ("=" + rest);
      LenOfName(n, "=" + rest);
    }
  }

  lemma BracedShape(s: string)
    requires VarLen(s) > 0 && s[1] == '{'
    ensures Name(VarName(s)) && StartsWith(s, "${" + VarName(s) + "}")
  {
    NameRead(s[2..]);
    var n := s[2..][..NameLen(s[2..])];
    assert VarName(s) == n;
    assert s[..|n| + 3] == "${" + n + "}";
  }

  /** A word that starts with `${` is refused where no name and closing brace follow. */
  lemma ExpansionRefused(s: string)
    requires |s| >= 2 && s[0] == '$' && s[1] == '{'
    requires forall n | Name(n) :: !StartsWith(s, "${" + n + "}")
    ensures Tokenize(s) == Err(Expansion)
  {
    if VarLen(s) > 0 { BracedShape(s); }
  }

  /** The characters that quoting leaves alone: letters, digits and `_ % + , - . / : = @`. */
  lemma SafeSpelled(c: char)
    ensures SafeChar(c) <==> LetterOrDigit(c) || c as int in {37, 43, 44, 45, 46, 47, 58, 61, 64}
  {
  }
}
