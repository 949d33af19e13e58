/**
 * How `/bin/sh` reads a command line into tokens: sections 2.2 (quoting) and 2.3 (token
 * recognition) of POSIX.1-2017 XCU, up to the point where an expansion would be needed.
 */
module ShellReader {
  import opened Wrappers
  import opened Seqs
  import opened ShellQuote
  import opened Lexer
  import opened PrintedWords

  /** `number` is a string of digits right before `<` or `>`. */
  datatype ShToken = ShWord(text: string) | ShOp(text: string) | ShIo(number: string)

  /** Characters that end an unquoted word (section 2.3). */
  predicate MetaChar(c: char) {
    c == ' ' || c == '\t' || c == '\n' || c == '|' || c == '&' || c == ';' || c == '<' || c == '>'
    || c == '(' || c == ')'
  }

  /** Characters that start an expansion when unquoted; the reader gives up there. */
  predicate Expanding(c: char) {
    c == '$' || c == '`' || c == '*' || c == '?' || c == '['
  }

  function Push(text: string, r: Option<(string, string)>): Option<(string, string)> {
    match r
    case Some(p) => Some((text + p.0, p.1))
    case None => None
  }

  /** Section 2.2.3: inside double quotes a backslash keeps its meaning only before `$`, backtick, `"`, itself. */
  function DoubleContent(s: string): Option<(string, string)>
    ensures DoubleContent(s).Some? ==> |DoubleContent(s).value.1| < |s|
    decreases |s|
  {
    if s == "" || s[0] == '$' || s[0] == '`' then None
    else if s[0] == '"' then Some(("", s[1..]))
    else if s[0] == '\\' && |s| > 1 && (s[1] == '$' || s[1] == '`' || s[1] == '"' || s[1] == '\\') then
      Push([s[1]], DoubleContent(s[2..]))
    else if s[0] == '\\' && |s| > 1 && s[1] == '\n' then DoubleContent(s[2..])
    else Push([s[0]], DoubleContent(s[1..]))
  }

  /** The value of the word at the front of `s`, quotes removed, and what follows it. */
  function ReadShWord(s: string): (r: Option<(string, string)>)
    ensures r.Some? ==> |r.value.1| <= |s|
    ensures r.Some? && s != "" && !MetaChar(s[0]) ==> |r.value.1| < |s|
    decreases |s|
  {
    if s == "" || MetaChar(s[0]) then Some(("", s))
    else if Expanding(s[0]) then None
    else if s[0] == '\'' then
      var k := SingleLen(s[1..]);
      if 1 + k < |s| then Push(s[1..1 + k], ReadShWord(s[k + 2..])) else None
    else if s[0] == '"' then
      match DoubleContent(s[1..])
      case None => None
      case Some(p) => Push(p.0, ReadShWord(p.1))
    else if s[0] == '\\' then
      if |s| == 1 then None
      else if s[1] == '\n' then ReadShWord(s[2..])
      else Push([s[1]], ReadShWord(s[2..]))
    else Push([s[0]], ReadShWord(s[1..]))
  }

  predicate AllDigits(s: string) {
    forall i :: 0 <= i < |s| ==> IsDigit(s[i])
  }

  /** The operator that an operator character starts; the longest one wins. */
  function ShOpLen(s: string): (n: nat)
    requires s != "" && MetaChar(s[0])
    ensures 0 < n <= |s|
  {
    if s[0] == '<' && |s| > 2 && s[1] == '<' && s[2] == '-' then 3
    else if |s| > 1 && ((s[0] == s[1] && s[0] in {'|', '&', ';', '<', '>'})
                        || (s[0] == '<' && s[1] in {'&', '>'}) || (s[0] == '>' && s[1] in {'&', '|'})) then 2
    else 1
  }

  function Then(t: ShToken, r: Option<seq<ShToken>>): Option<seq<ShToken>> {
    match r
    case Some(ts) => Some([t] + ts)
    case None => None
  }

  /** A comment or a tilde where a word starts is out of what this reader models. */
  function ReadSh(s: string): Option<seq<ShToken>>
    decreases |s|
  {
    if s == "" then Some([])
    else if s[0] == ' ' || s[0] == '\t' then ReadSh(s[1..])
    else if MetaChar(s[0]) then Then(ShOp(s[..ShOpLen(s)]), ReadSh(s[ShOpLen(s)..]))
    else if s[0] == '#' || s[0] == '~' then None
    else match ReadShWord(s)
      case None => None
      case Some(p) =>
        var taken := s[..|s| - |p.1|];
        var io := AllDigits(taken) && p.1 != "" && p.1[0] in {'<', '>'};
        Then(if io then ShIo(taken) else ShWord(p.0), ReadSh(p.1))
  }

  lemma {:induction false} SafeRead(w: string, rest: string)
    requires AllSafe(w) && Ended(rest)
    ensures ReadShWord(w + rest) == Some((w, rest))
  {
    if w == "" {
      Nothing(rest);
    } else {
      SafeRead(w[1..], rest);
      Uncons(w, rest);
      Drop1(w[0], w[1..] + rest);
    }
  }

  lemma SpanRead(body: string, t: string)
    requires Inert('\'', body)
    ensures ReadShWord("'" + body + "'" + t) == Push(body, ReadShWord(t))
  {
    SpanLen('\'', body, t);
    Halves(body, '\'', t);
    PutBefore('\'', body + "'" + t, |body|);
    Enclose('\'', body, t);
  }

  lemma QuoteContent(t: string)
    ensures DoubleContent("'" + "\"" + t) == Some(("'", t))
  {
    Drop1('\'', "\"" + t);
    Assoc("'", "\"", t);
    Drop1('"', t);
    Nothing("'");
    assert DoubleContent("\"" + t) == Some(("", t));
  }

  lemma DoubleRead(inner: string)
    ensures ReadShWord("\"" + inner) == match DoubleContent(inner)
            case None => None
            case Some(p) => Push(p.0, ReadShWord(p.1))
  {
    Drop1('"', inner);
  }

  /** The span of its own that stands for a single quote. */
  lemma QuoteRead(t: string)
    ensures ReadShWord("\"" + "'" + "\"" + t) == Push("'", ReadShWord(t))
  {
    QuoteContent(t);
    DoubleRead("'" + "\"" + t);
    Enclose('"', "'", t);
  }

  lemma {:induction false} QuotedRead(a: string, s: string, rest: string)
    requires Inert('\'', a) && Ended(rest)
    ensures ReadShWord(Open(a, s) + rest) == Some((a + s, rest))
    decreases |s|
  {
    if s == "" {
      OpenNothing(a);
      SpanRead(a, rest);
      Nothing(a);
    } else if s[0] != '\'' {
      OpenChar(a, s);
      QuotedRead(a + [s[0]], s[1..], rest);
      Uncons(s, []);
      Assoc(a, [s[0]], s[1..]);
    } else {
      var t := Open("", s[1..]);
      var u := "\"" + "'" + "\"" + t;
      OpenQuote(a, s);
      Assoc("'" + a + "'", u, rest);
      Assoc("\"" + "'" + "\"", t, rest);
      SpanRead(a, u + rest);
      QuoteRead(t + rest);
      QuotedRead("", s[1..], rest);
      Nothing(s[1..]);
      Uncons(s, []);
    }
  }

  /** The shell reads a quoted word back as it was before quoting. */
  lemma QuoteReads(s: string, rest: string)
    requires Ended(rest)
    ensures ReadShWord(Quote(s) + rest) == Some((s, rest))
  {
    QuoteForms(s);
    if s != "" && AllSafe(s) {
      SafeRead(s, rest);
    } else {
      Nothing("'");
      QuotedRead("", s, rest);
      Nothing(s);
    }
  }
}
