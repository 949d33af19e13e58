/** A whole command read in one pass: operators as they are, and each word as its value. */
module CommandFusion {
  import opened Wrappers
  import opened Lexer
  import opened WordParts
  import opened WordFusion

  datatype Piece = Text(value: string) | Op(op: Lexer.Op)

  function Put(p: Piece, r: Result<seq<Piece>, Error>): Result<seq<Piece>, Error> {
    match r
    case Ok(ps) => Ok([p] + ps)
    case Err(e) => Err(e)
  }

  /** Blanks, comments and operators as the tokenizer takes them; words read by `ReadWord`. */
  function ReadCommand(s: string, env: Env): Result<seq<Piece>, Error>
    decreases |s|
  {
    if s == "" || s[0] == '#' then Ok([])
    else if Blank(s[0]) then ReadCommand(s[1..], env)
    else if s[0] == '&' && (|s| == 1 || s[1] != '&') then Err(Background)
    else if s[0] == '&' then Put(Op(AndIf), ReadCommand(s[2..], env))
    else if s[0] == '`' then Err(Backtick)
    else if IsGlob(s[0]) then Err(Glob)
    else if s[0] == '$' && |s| > 1 && s[1] == '(' then Err(Substitution)
    else if s[0] == '$' && |s| > 1 && s[1] == '{' && VarLen(s) == 0 then Err(Expansion)
    else match OpAt(s)
      case Some(op) => OpFits(s); Put(Op(op), ReadCommand(s[|OpText(op)|..], env))
      case None => match ReadWord(s, env)
        case Err(e) => Err(e)
        case Ok(p) => if |p.1| >= |s| then Err(Unexpected) else Put(Text(p.0), ReadCommand(p.1, env))
  }

  /** Every word of the command is tame. */
  predicate TameCommand(s: string)
    decreases |s|
  {
    if s == "" || s[0] == '#' then true
    else if Blank(s[0]) then TameCommand(s[1..])
    else if s[0] == '&' then |s| > 1 && s[1] == '&' ==> TameCommand(s[2..])
    else match OpAt(s)
      case Some(op) => OpFits(s); TameCommand(s[|OpText(op)|..])
      case None => Tame(s) && (LexWord(s).Ok? && LexWord(s).value.raw != "" ==> TameCommand(LexWord(s).value.rest))
  }

  function Meaning(t: Token, env: Env): Piece {
    match t
    case Operator(op) => Op(op)
    case Word(raw) => Text(Expand(Parts(raw, ""), env))
  }

  function Meanings(ts: seq<Token>, env: Env): seq<Piece> {
    if ts == [] then [] else [Meaning(ts[0], env)] + Meanings(ts[1..], env)
  }

  function Meant(r: Result<seq<Token>, Error>, env: Env): Result<seq<Piece>, Error> {
    match r
    case Ok(ts) => Ok(Meanings(ts, env))
    case Err(e) => Err(e)
  }

  lemma MeantCons(t: Token, r: Result<seq<Token>, Error>, env: Env)
    ensures Meant(Cons(t, r), env) == Put(Meaning(t, env), Meant(r, env))
  {
    if r.Ok? { assert ([t] + r.value)[1..] == r.value; }
  }

  lemma OperatorMeans(s: string, op: Lexer.Op, env: Env)
    requires s != "" && s[0] != '#' && !Blank(s[0]) && s[0] != '&' && s[0] != '`' && !IsGlob(s[0]) && s[0] != '$'
    requires OpAt(s) == Some(op) && |OpText(op)| <= |s|
    requires ReadCommand(s[|OpText(op)|..], env) == Meant(Tokenize(s[|OpText(op)|..]), env)
    ensures ReadCommand(s, env) == Meant(Tokenize(s), env)
  {
    MeantCons(Operator(op), Tokenize(s[|OpText(op)|..]), env);
  }

  lemma WordMeans(s: string, env: Env)
    requires s != "" && s[0] != '#' && !Blank(s[0]) && s[0] != '&' && OpAt(s).None? && Tame(s)
    requires LexWord(s).Ok? && LexWord(s).value.raw != "" ==>
      ReadCommand(LexWord(s).value.rest, env) == Meant(Tokenize(LexWord(s).value.rest), env)
    ensures ReadCommand(s, env) == Meant(Tokenize(s), env)
  {
    Fusion(s, env);
    if LexWord(s).Ok? && LexWord(s).value.raw != "" {
      MeantCons(Word(LexWord(s).value.raw), Tokenize(LexWord(s).value.rest), env);
    }
  }

  /** Tokenizing a command, then cutting and expanding its words, is reading it in one pass, errors
      included, if every word is tame. */
  lemma {:induction false} CommandFuses(s: string, env: Env)
    requires TameCommand(s)
    ensures ReadCommand(s, env) == Meant(Tokenize(s), env)
    decreases |s|
  {
    if s == "" || s[0] == '#' {
    } else if Blank(s[0]) {
      CommandFuses(s[1..], env);
    } else if s[0] == '&' {
      if |s| > 1 && s[1] == '&' {
        CommandFuses(s[2..], env);
        MeantCons(Operator(AndIf), Tokenize(s[2..]), env);
      }
    } else if OpAt(s).Some? {
      OpFits(s);
      OpFirst(s);
      CommandFuses(s[|OpText(OpAt(s).value)|..], env);
      OperatorMeans(s, OpAt(s).value, env);
    } else {
      if LexWord(s).Ok? && LexWord(s).value.raw != "" {
        CommandFuses(LexWord(s).value.rest, env);
      }
      WordMeans(s, env);
    }
  }
}
