/**
 * The tokenizer of the command language. The specification reads the text from the front;
 * the methods are the index-based loops of the source, proved against it.
 */
module Lexer {
  import opened Wrappers

  datatype Op =
    | DGreatErr | GreatAndErr | GreatErr | GreatAndOut | DGreat | Great | Less
    | OrIf | AndIf | Pipe | Semi

  datatype Token = Word(raw: string) | Operator(op: Op)

  datatype Error =
    | Background | Backtick | Glob | Substitution | Expansion
    | OpenSingle | OpenDouble | Unexpected

  function OpText(op: Op): string {
    match op
    case DGreatErr => "2>>"
    case GreatAndErr => "2>&1"
    case GreatErr => "2>"
    case GreatAndOut => "1>&2"
    case DGreat => ">>"
    case Great => ">"
    case Less => "<"
    case OrIf => "||"
    case AndIf => "&&"
    case Pipe => "|"
    case Semi => ";"
  }

  /** Longest match first. */
  const OPERATORS: seq<Op> :=
    [DGreatErr, GreatAndErr, GreatErr, GreatAndOut, DGreat, Great, Less, OrIf, AndIf, Pipe, Semi]

  predicate StartsWith(s: string, p: string) {
    |p| <= |s| && s[..|p|] == p
  }

  function FirstOp(ops: seq<Op>, s: string): Option<Op> {
    if ops == [] then None
    else if StartsWith(s, OpText(ops[0])) then Some(ops[0])
    else FirstOp(ops[1..], s)
  }

  function OpAt(s: string): Option<Op> {
    FirstOp(OPERATORS, s)
  }

  predicate Blank(c: char) {
    c == ' ' || c == '\t' || c == '\n'
  }

  predicate IsGlob(c: char) {
    c == '*' || c == '?' || c == '['
  }

  predicate IsQuote(c: char) {
    c in "'\""
  }

  predicate IsBrace(c: char) {
    c in "{}"
  }

  predicate IsDigit(c: char) {
    '0' <= c <= '9'
  }

  /** What operators start with. */
  predicate OpChar(c: char) {
    c == '2' || c == '1' || c == '>' || c == '<' || c == '|' || c == '&' || c == ';'
  }

  predicate NameStart(c: char) {
    'a' <= c <= 'z' || 'A' <= c <= 'Z' || c == '_'
  }

  predicate NameChar(c: char) {
    NameStart(c) || IsDigit(c)
  }

  /** How many characters of a name `s` starts with; none unless the first may start one. */
  function NameLen(s: string): (n: nat)
    ensures n <= |s|
  {
    if s == "" || !NameStart(s[0]) then 0 else 1 + NameTail(s[1..])
  }

  function NameTail(s: string): (n: nat)
    ensures n <= |s|
  {
    if s == "" || !NameChar(s[0]) then 0 else 1 + NameTail(s[1..])
  }

  /** The length of the `$NAME` or `${NAME}` that `s` starts with, 0 when there is none. */
  function VarLen(s: string): (n: nat)
    ensures n <= |s|
    ensures n > 0 ==> n >= 2 && s[0] == '$'
  {
    if |s| < 2 || s[0] != '$' then 0
    else if NameLen(s[1..]) > 0 then 1 + NameLen(s[1..])
    else if s[1] != '{' || NameLen(s[2..]) == 0 then 0
    else
      var k := 2 + NameLen(s[2..]);
      if k < |s| && s[k] == '}' then k + 1 else 0
  }

  /** Up to the next single quote. */
  function SingleLen(s: string): (n: nat)
    ensures n <= |s|
    ensures n < |s| ==> s[n] == '\''
  {
    if s == "" || s[0] == '\'' then 0 else 1 + SingleLen(s[1..])
  }

  /** Inside double quotes a backslash and what follows it are taken together. */
  function Unit(s: string): (n: nat)
    requires s != ""
    ensures 0 < n <= |s|
  {
    if s[0] == '\\' && |s| > 1 then 2 else 1
  }

  /** Up to the next double quote that no backslash protects. */
  function DoubleLen(s: string): (n: nat)
    ensures n <= |s|
    ensures n < |s| ==> s[n] == '"'
  {
    if s == "" || s[0] == '"' then 0 else Unit(s) + DoubleLen(s[Unit(s)..])
  }

  /** One step of reading a word: stop before `s`, reject it, or take `size` characters as `text`. */
  datatype Step = Stop | Fail(error: Error) | Take(text: string, size: nat)

  function WordStep(s: string): (r: Step)
    ensures r.Take? ==> 0 < r.size <= |s| && r.text != ""
  {
    if s == "" || Blank(s[0]) || s[0] == '#' || OpAt(s).Some? then Stop
    else if s[0] == '&' then Fail(Background)
    else if s[0] == '`' then Fail(Backtick)
    else if IsGlob(s[0]) then Fail(Glob)
    else if s[0] == '$' && |s| > 1 && s[1] == '(' then Fail(Substitution)
    else if s[0] == '\'' then
      var k := SingleLen(s[1..]);
      if 1 + k < |s| then Take(s[..k + 2], k + 2) else Fail(OpenSingle)
    else if s[0] == '"' then
      var k := DoubleLen(s[1..]);
      if 1 + k < |s| then Take(s[..k + 2], k + 2) else Fail(OpenDouble)
    else if s[0] == '\\' && |s| > 1 then Take([s[1]], 2)
    else Take([s[0]], 1)
  }

  datatype Lexed = Lexed(raw: string, rest: string)

  function Prepend(text: string, r: Result<Lexed, Error>): Result<Lexed, Error> {
    match r
    case Ok(l) => Ok(Lexed(text + l.raw, l.rest))
    case Err(e) => Err(e)
  }

  function LexWord(s: string): (r: Result<Lexed, Error>)
    ensures r.Ok? ==> |r.value.rest| <= |s| && (r.value.rest == s <==> r.value.raw == "")
    ensures r.Ok? ==> WordStep(r.value.rest).Stop?
    decreases |s|
  {
    match WordStep(s)
    case Stop => Ok(Lexed("", s))
    case Fail(e) => Err(e)
    case Take(text, size) => Prepend(text, LexWord(s[size..]))
  }

  function Cons(t: Token, r: Result<seq<Token>, Error>): Result<seq<Token>, Error> {
    match r
    case Ok(ts) => Ok([t] + ts)
    case Err(e) => Err(e)
  }

  /** The whole command. A comment ends it: nothing after the first `#` between words is read. */
  function Tokenize(s: string): Result<seq<Token>, Error>
    decreases |s|
  {
    if s == "" || s[0] == '#' then Ok([])
    else if Blank(s[0]) then Tokenize(s[1..])
    else if s[0] == '&' && (|s| == 1 || s[1] != '&') then Err(Background)
    else if s[0] == '&' then Cons(Operator(AndIf), Tokenize(s[2..]))
    else if s[0] == '`' then Err(Backtick)
    else if IsGlob(s[0]) then Err(Glob)
    else if s[0] == '$' && |s| > 1 && s[1] == '(' then Err(Substitution)
    else if s[0] == '$' && |s| > 1 && s[1] == '{' && VarLen(s) == 0 then Err(Expansion)
    else match OpAt(s)
      case Some(op) => OpFits(s); Cons(Operator(op), Tokenize(s[|OpText(op)|..]))
      case None => match LexWord(s)
        case Err(e) => Err(e)
        case Ok(l) => if l.raw == "" then Err(Unexpected) else Cons(Word(l.raw), Tokenize(l.rest))
  }

  lemma FirstOpFits(ops: seq<Op>, s: string)
    ensures FirstOp(ops, s).Some? ==> StartsWith(s, OpText(FirstOp(ops, s).value))
  {
  }

  lemma OpFits(s: string)
    ensures OpAt(s).Some? ==> 0 < |OpText(OpAt(s).value)| <= |s|
  {
    FirstOpFits(OPERATORS, s);
  }

  /** The characters operators start with; a digit does only before `>`. */
  lemma OpFirst(s: string)
    requires OpAt(s).Some?
    ensures s != "" && OpChar(s[0])
    ensures IsDigit(s[0]) ==> |s| > 1 && s[1] == '>'
  {
    FirstOpFits(OPERATORS, s);
    var text := OpText(OpAt(s).value);
    assert s[..|text|][0] == s[0];
    if IsDigit(s[0]) {
      assert s[..|text|][1] == s[1];
    }
  }

  lemma NoOp(s: string)
    requires s == "" || !OpChar(s[0]) || (IsDigit(s[0]) && (|s| == 1 || s[1] != '>'))
    ensures OpAt(s).None?
  {
    if OpAt(s).Some? {
      OpFirst(s);
    }
  }

  /** Every lexer step makes progress: the source's "unexpected character" branch cannot be reached. */
  lemma {:induction false} NeverUnexpected(s: string)
    ensures LexWord(s) != Err(Unexpected)
    ensures Tokenize(s) != Err(Unexpected)
    decreases |s|
  {
    WordNeverUnexpected(s);
    if s == "" || s[0] == '#' {
    } else if Blank(s[0]) {
      NeverUnexpected(s[1..]);
    } else if s[0] == '&' {
      if |s| > 1 {
        NeverUnexpected(s[2..]);
      }
    } else if OpAt(s).Some? {
      OpFits(s);
      NeverUnexpected(s[|OpText(OpAt(s).value)|..]);
    } else if LexWord(s).Ok? && LexWord(s).value.raw != "" {
      NeverUnexpected(LexWord(s).value.rest);
    }
  }

  lemma WordNeverUnexpected(s: string)
    ensures LexWord(s) != Err(Unexpected)
    decreases |s|
  {
    if WordStep(s).Take? {
      WordNeverUnexpected(s[WordStep(s).size..]);
    }
  }

  /** A word that comes out of the tokenizer is never empty. */
  lemma {:induction false} WordsNonEmpty(s: string, i: nat)
    requires Tokenize(s).Ok? && i < |Tokenize(s).value|
    ensures Tokenize(s).value[i].Word? ==> Tokenize(s).value[i].raw != ""
    decreases |s|
  {
    if Blank(s[0]) {
      WordsNonEmpty(s[1..], i);
    } else if i > 0 {
      if s[0] == '&' {
        WordsNonEmpty(s[2..], i - 1);
      } else if OpAt(s).Some? {
        OpFits(s);
        WordsNonEmpty(s[|OpText(OpAt(s).value)|..], i - 1);
      } else {
        WordsNonEmpty(LexWord(s).value.rest, i - 1);
      }
    }
  }
}
