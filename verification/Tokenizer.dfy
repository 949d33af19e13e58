/** The lexer's loops, index by index, proved to compute what `Lexer` specifies. */
module Tokenizer {
  import opened Wrappers
  import opened Lexer
  import opened Seqs

  method MatchOperator(command: string, i: nat) returns (found: Option<Op>)
    requires i <= |command|
    ensures found == OpAt(command[i..])
  {
    for k := 0 to |OPERATORS|
      invariant FirstOp(OPERATORS[k..], command[i..]) == OpAt(command[i..])
    {
      assert OPERATORS[k..][1..] == OPERATORS[k + 1..];
      if StartsWith(command[i..], OpText(OPERATORS[k])) {
        return Some(OPERATORS[k]);
      }
    }
    found := None;
  }

  /** The inner loop of a single-quoted span, from after the opening quote. */
  method SkipSingle(command: string, start: nat) returns (i: nat)
    requires start <= |command|
    ensures i == start + SingleLen(command[start..]) <= |command|
  {
    i := start;
    while i < |command| && command[i] != '\''
      invariant start <= i <= |command|
      invariant i + SingleLen(command[i..]) == start + SingleLen(command[start..])
      decreases |command| - i
    {
      Drop2(command, i, 1);
      i := i + 1;
    }
  }

  lemma DoubleStep(command: string, i: nat)
    requires i < |command| && command[i] != '"'
    ensures var u := if command[i] == '\\' && i + 1 < |command| then 2 else 1;
      DoubleLen(command[i..]) == u + DoubleLen(command[i + u..])
  {
    Drop2(command, i, Unit(command[i..]));
  }

  /** The inner loop of a double-quoted span. */
  method SkipDouble(command: string, start: nat) returns (i: nat)
    requires start <= |command|
    ensures i == start + DoubleLen(command[start..]) <= |command|
  {
    i := start;
    while i < |command| && command[i] != '"'
      invariant start <= i <= |command|
      invariant i + DoubleLen(command[i..]) == start + DoubleLen(command[start..])
      decreases |command| - i
    {
      DoubleStep(command, i);
      if command[i] == '\\' && i + 1 < |command| {
        i := i + 2;
      } else {
        i := i + 1;
      }
    }
  }

  lemma PrependNothing(r: Result<Lexed, Error>)
    ensures Prepend("", r) == r
  {
    if r.Ok? {
      assert "" + r.value.raw == r.value.raw;
    }
  }

  lemma PrependTwice(a: string, b: string, r: Result<Lexed, Error>)
    ensures Prepend(a, Prepend(b, r)) == Prepend(a + b, r)
  {
    if r.Ok? {
      assert a + (b + r.value.raw) == a + b + r.value.raw;
    }
  }

  /** A quoted span with both its quotes, `close` being the position of the second. */
  lemma SpanTaken(command: string, i: nat, close: nat)
    requires i < close < |command|
    ensures command[i..][..close - i + 1] == command[i..close + 1]
  {
  }

  /** One turn of the word loop. */
  method ReadStep(command: string, i: nat) returns (step: Step)
    requires i < |command|
    ensures step == WordStep(command[i..])
  {
    var ch := command[i];
    if Blank(ch) || ch == '#' {
      return Stop;
    }
    var op := MatchOperator(command, i);
    if op.Some? {
      return Stop;
    }
    Drop2(command, i, 1);
    if ch == '&' {
      return Fail(Background);
    }
    if ch == '`' {
      return Fail(Backtick);
    }
    if IsGlob(ch) {
      return Fail(Glob);
    }
    if ch == '$' && i + 1 < |command| && command[i + 1] == '(' {
      return Fail(Substitution);
    }
    if ch == '\'' {
      var close := SkipSingle(command, i + 1);
      if close >= |command| {
        return Fail(OpenSingle);
      }
      SpanTaken(command, i, close);
      return Take(command[i..close + 1], close + 1 - i);
    }
    if ch == '"' {
      var close := SkipDouble(command, i + 1);
      if close >= |command| {
        return Fail(OpenDouble);
      }
      SpanTaken(command, i, close);
      return Take(command[i..close + 1], close + 1 - i);
    }
    if ch == '\\' && i + 1 < |command| {
      return Take([command[i + 1]], 2);
    }
    step := Take([ch], 1);
  }

  /** Reads one word; the new position comes with its raw text. */
  method LexWordText(command: string, start: nat) returns (r: Result<(string, nat), Error>)
    requires start <= |command|
    ensures r.Err? <==> LexWord(command[start..]).Err?
    ensures r.Err? ==> LexWord(command[start..]) == Err(r.error)
    ensures r.Ok? ==> start <= r.value.1 <= |command|
    ensures r.Ok? ==> LexWord(command[start..]) == Ok(Lexed(r.value.0, command[r.value.1..]))
  {
    var i := start;
    var buf := "";
    ghost var whole := LexWord(command[start..]);
    PrependNothing(whole);
    while i < |command|
      invariant start <= i <= |command|
      invariant whole == Prepend(buf, LexWord(command[i..]))
    {
      var step := ReadStep(command, i);
      match step
      case Stop => break;
      case Fail(e) => return Err(e);
      case Take(text, size) =>
        Drop2(command, i, size);
        PrependTwice(buf, text, LexWord(command[i + size..]));
        buf := buf + text;
        i := i + size;
    }
    assert buf + "" == buf;
    r := Ok((buf, i));
  }

  function Append(ts: seq<Token>, r: Result<seq<Token>, Error>): Result<seq<Token>, Error> {
    match r
    case Ok(us) => Ok(ts + us)
    case Err(e) => Err(e)
  }

  lemma AppendCons(ts: seq<Token>, t: Token, r: Result<seq<Token>, Error>)
    ensures Append(ts + [t], r) == Append(ts, Cons(t, r))
  {
    if r.Ok? {
      assert ts + [t] + r.value == ts + ([t] + r.value);
    }
  }

  lemma AppendNothing(r: Result<seq<Token>, Error>)
    ensures Append([], r) == r
  {
    if r.Ok? {
      assert [] + r.value == r.value;
    }
  }

  /** The `$`-rejections that are made only where a word starts. */
  method CheckDollar(command: string, i: nat) returns (error: Option<Error>)
    requires i < |command| && command[i] == '$'
    ensures error == (if i + 1 < |command| && command[i + 1] == '(' then Some(Substitution)
                      else if i + 1 < |command| && command[i + 1] == '{' && VarLen(command[i..]) == 0
                      then Some(Expansion) else None)
  {
    if i + 1 < |command| && command[i + 1] == '(' {
      return Some(Substitution);
    }
    if i + 1 < |command| && command[i + 1] == '{' && VarLen(command[i..]) == 0 {
      return Some(Expansion);
    }
    error := None;
  }

  /** What one turn of the tokenizer's loop does: end, move on, emit a token or reject. */
  datatype Turn = End | Skip(next: nat) | Emit(token: Token, next: nat) | Reject(error: Error)

  /** The turn is right if the rest of the text is tokenized accordingly. */
  predicate TurnFits(command: string, i: nat, turn: Turn)
    requires i <= |command|
  {
    var all := Tokenize(command[i..]);
    match turn
    case End => all == Ok([])
    case Skip(next) => i < next <= |command| && all == Tokenize(command[next..])
    case Emit(token, next) => i < next <= |command| && all == Cons(token, Tokenize(command[next..]))
    case Reject(e) => all == Err(e)
  }

  method OperatorOrWord(command: string, i: nat) returns (turn: Turn)
    requires i < |command| && !Blank(command[i]) && command[i] != '#' && command[i] != '&'
    requires command[i] != '`' && !IsGlob(command[i])
    requires command[i] == '$' && i + 1 < |command| ==>
      command[i + 1] != '(' && !(command[i + 1] == '{' && VarLen(command[i..]) == 0)
    ensures TurnFits(command, i, turn)
  {
    var op := MatchOperator(command, i);
    if op.Some? {
      OpFits(command[i..]);
      Drop2(command, i, |OpText(op.value)|);
      return Emit(Operator(op.value), i + |OpText(op.value)|);
    }
    var word := LexWordText(command, i);
    if word.Err? {
      return Reject(word.error);
    }
    if word.value.0 == "" {
      return Reject(Unexpected);
    }
    turn := Emit(Word(word.value.0), word.value.1);
  }

  method TokenTurn(command: string, i: nat) returns (turn: Turn)
    requires i < |command|
    ensures TurnFits(command, i, turn)
  {
    var ch := command[i];
    Drop2(command, i, 1);
    if Blank(ch) {
      return Skip(i + 1);
    }
    if ch == '#' {
      return End;
    }
    if ch == '&' {
      if i + 1 < |command| && command[i + 1] == '&' {
        Drop2(command, i, 2);
        return Emit(Operator(AndIf), i + 2);
      }
      return Reject(Background);
    }
    if ch == '`' {
      return Reject(Backtick);
    }
    if IsGlob(ch) {
      return Reject(Glob);
    }
    if ch == '$' {
      var bad := CheckDollar(command, i);
      if bad.Some? {
        return Reject(bad.value);
      }
    }
    turn := OperatorOrWord(command, i);
  }

  method TokenizeCommand(command: string) returns (r: Result<seq<Token>, Error>)
    ensures r == Tokenize(command)
  {
    var i := 0;
    var tokens: seq<Token> := [];
    assert command[0..] == command;
    AppendNothing(Tokenize(command));
    while i < |command|
      invariant 0 <= i <= |command|
      invariant Append(tokens, Tokenize(command[i..])) == Tokenize(command)
    {
      var turn := TokenTurn(command, i);
      match turn
      case End => break;
      case Reject(e) => return Err(e);
      case Skip(next) => i := next;
      case Emit(token, next) =>
        AppendCons(tokens, token, Tokenize(command[next..]));
        tokens := tokens + [token];
        i := next;
    }
    Nothing(tokens);
    r := Ok(tokens);
  }
}
