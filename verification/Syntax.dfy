/** The command language's tree and its grammar, read from the front of the token list. */
module Syntax {
  import opened Wrappers
  import opened Lexer
  import opened WordParts

  datatype RedirectSpec = RedirectSpec(fd: Option<nat>, op: string, target: string)

  datatype CommandNode = CommandNode(
    argv: seq<seq<WordPart>>, redirects: seq<RedirectSpec>, assignments: seq<(string, string)>)

  const NO_COMMAND := CommandNode([], [], [])

  datatype PipelineNode = PipelineNode(commands: seq<CommandNode>)

  datatype AndOrNode = AndOrNode(pipelines: seq<PipelineNode>, ops: seq<Op>)

  datatype ProgramNode = ProgramNode(andors: seq<AndOrNode>)

  datatype SyntaxError = Empty | ExpectedWord | TooManyStages | ExpectedSemi | Lexical(error: Error)

  /** A node and the tokens after it. */
  type Parsed<T> = Result<(T, seq<Token>), SyntaxError>

  predicate IsRedirect(op: Op) {
    op in {Less, Great, DGreat, GreatErr, DGreatErr, GreatAndOut, GreatAndErr}
  }

  predicate IsLink(op: Op) {
    op == OrIf || op == AndIf
  }

  /** The shape `NAME=...` at the front of a word. */
  predicate IsAssignment(raw: string) {
    0 < NameLen(raw) < |raw| && raw[NameLen(raw)] == '='
  }

  /** `.*` stops before a newline. */
  function UpToNewline(s: string): string {
    if s == "" || s[0] == '\n' then "" else [s[0]] + UpToNewline(s[1..])
  }

  function Assignment(raw: string): (string, string)
    requires IsAssignment(raw)
  {
    (raw[..NameLen(raw)], UpToNewline(raw[NameLen(raw) + 1..]))
  }

  /** A redirect's descriptor number; the two merges carry their target with them. */
  function RedirectFd(op: Op): nat {
    if op == Less then 0 else if op in {GreatErr, DGreatErr, GreatAndErr} then 2 else 1
  }

  function Redirect(op: Op, ts: seq<Token>): (r: Parsed<RedirectSpec>)
    requires IsRedirect(op)
    ensures r.Ok? ==> |r.value.1| <= |ts|
  {
    if op == GreatAndOut then Ok((RedirectSpec(Some(1), OpText(op), "2"), ts))
    else if op == GreatAndErr then Ok((RedirectSpec(Some(2), OpText(op), "1"), ts))
    else if ts == [] || !ts[0].Word? then Err(ExpectedWord)
    else Ok((RedirectSpec(Some(RedirectFd(op)), OpText(op), ts[0].raw), ts[1..]))
  }

  /** A word is an assignment only before the first argument and the first redirect. */
  function AddWord(node: CommandNode, raw: string): CommandNode {
    if IsAssignment(raw) && node.argv == [] && node.redirects == []
    then node.(assignments := node.assignments + [Assignment(raw)])
    else node.(argv := node.argv + [Parts(raw, "")])
  }

  function AddRedirect(node: CommandNode, r: RedirectSpec): CommandNode {
    node.(redirects := node.redirects + [r])
  }

  function Command(ts: seq<Token>, node: CommandNode): (r: Parsed<CommandNode>)
    ensures r.Ok? ==> |r.value.1| <= |ts|
    decreases |ts|
  {
    if ts == [] then Ok((node, ts))
    else match ts[0]
      case Word(raw) => Command(ts[1..], AddWord(node, raw))
      case Operator(op) =>
        if !IsRedirect(op) then Ok((node, ts))
        else match Redirect(op, ts[1..])
          case Err(e) => Err(e)
          case Ok(p) => Command(p.1, AddRedirect(node, p.0))
  }

  function PipelineTail(ts: seq<Token>, cmds: seq<CommandNode>): (r: Parsed<PipelineNode>)
    ensures r.Ok? ==> |r.value.1| <= |ts|
    decreases |ts|
  {
    if ts == [] || ts[0] != Operator(Pipe) then Ok((PipelineNode(cmds), ts))
    else if |cmds| >= 2 then Err(TooManyStages)
    else match Command(ts[1..], NO_COMMAND)
      case Err(e) => Err(e)
      case Ok(p) => PipelineTail(p.1, cmds + [p.0])
  }

  function Pipeline(ts: seq<Token>): (r: Parsed<PipelineNode>)
    ensures r.Ok? ==> |r.value.1| <= |ts|
  {
    match Command(ts, NO_COMMAND)
    case Err(e) => Err(e)
    case Ok(p) => PipelineTail(p.1, [p.0])
  }

  function AndOrTail(ts: seq<Token>, node: AndOrNode): (r: Parsed<AndOrNode>)
    ensures r.Ok? ==> |r.value.1| <= |ts|
    decreases |ts|
  {
    if ts == [] || !ts[0].Operator? || !IsLink(ts[0].op) then Ok((node, ts))
    else match Pipeline(ts[1..])
      case Err(e) => Err(e)
      case Ok(p) => AndOrTail(p.1, AndOrNode(node.pipelines + [p.0], node.ops + [ts[0].op]))
  }

  function AndOr(ts: seq<Token>): (r: Parsed<AndOrNode>)
    ensures r.Ok? ==> |r.value.1| <= |ts|
  {
    match Pipeline(ts)
    case Err(e) => Err(e)
    case Ok(p) => AndOrTail(p.1, AndOrNode([p.0], []))
  }

  /** A trailing semicolon is allowed. */
  function ProgramTail(ts: seq<Token>, andors: seq<AndOrNode>): Result<ProgramNode, SyntaxError>
    decreases |ts|
  {
    if ts == [] then Ok(ProgramNode(andors))
    else if ts[0] != Operator(Semi) then Err(ExpectedSemi)
    else if ts[1..] == [] then Ok(ProgramNode(andors))
    else match AndOr(ts[1..])
      case Err(e) => Err(e)
      case Ok(p) => ProgramTail(p.1, andors + [p.0])
  }

  function ParseTokens(ts: seq<Token>): Result<ProgramNode, SyntaxError> {
    if ts == [] then Err(Empty)
    else match AndOr(ts)
      case Err(e) => Err(e)
      case Ok(p) => ProgramTail(p.1, [p.0])
  }

  function Parse(command: string): Result<ProgramNode, SyntaxError> {
    match Tokenize(command)
    case Err(e) => Err(Lexical(e))
    case Ok(ts) => ParseTokens(ts)
  }

  /** Where a construct ends nothing is left, or an operator that is none of its own. */
  predicate EndsAt(ts: seq<Token>, own: set<Op>) {
    ts == [] || (ts[0].Operator? && !IsRedirect(ts[0].op) && ts[0].op !in own)
  }

  lemma {:induction false} CommandEnds(ts: seq<Token>, node: CommandNode)
    ensures Command(ts, node).Ok? ==> EndsAt(Command(ts, node).value.1, {})
    decreases |ts|
  {
    if ts != [] {
      match ts[0]
      case Word(raw) => CommandEnds(ts[1..], AddWord(node, raw));
      case Operator(op) =>
        if IsRedirect(op) && Redirect(op, ts[1..]).Ok? {
          var p := Redirect(op, ts[1..]).value;
          CommandEnds(p.1, AddRedirect(node, p.0));
        }
    }
  }

  lemma {:induction false} PipelineTailEnds(ts: seq<Token>, cmds: seq<CommandNode>)
    requires EndsAt(ts, {})
    ensures PipelineTail(ts, cmds).Ok? ==> EndsAt(PipelineTail(ts, cmds).value.1, {Pipe})
    decreases |ts|
  {
    if ts != [] && ts[0] == Operator(Pipe) && |cmds| < 2 && Command(ts[1..], NO_COMMAND).Ok? {
      var p := Command(ts[1..], NO_COMMAND).value;
      CommandEnds(ts[1..], NO_COMMAND);
      PipelineTailEnds(p.1, cmds + [p.0]);
    }
  }

  lemma PipelineEnds(ts: seq<Token>)
    ensures Pipeline(ts).Ok? ==> EndsAt(Pipeline(ts).value.1, {Pipe})
  {
    CommandEnds(ts, NO_COMMAND);
    if Command(ts, NO_COMMAND).Ok? {
      var p := Command(ts, NO_COMMAND).value;
      PipelineTailEnds(p.1, [p.0]);
    }
  }

  lemma {:induction false} AndOrTailEnds(ts: seq<Token>, node: AndOrNode)
    requires EndsAt(ts, {Pipe})
    ensures AndOrTail(ts, node).Ok? ==> EndsAt(AndOrTail(ts, node).value.1, {Pipe, OrIf, AndIf})
    decreases |ts|
  {
    if ts != [] && IsLink(ts[0].op) && Pipeline(ts[1..]).Ok? {
      var p := Pipeline(ts[1..]).value;
      PipelineEnds(ts[1..]);
      AndOrTailEnds(p.1, AndOrNode(node.pipelines + [p.0], node.ops + [ts[0].op]));
    }
  }

  lemma AndOrEnds(ts: seq<Token>)
    ensures AndOr(ts).Ok? ==> EndsAt(AndOr(ts).value.1, {Pipe, OrIf, AndIf})
  {
    PipelineEnds(ts);
    if Pipeline(ts).Ok? {
      var p := Pipeline(ts).value;
      AndOrTailEnds(p.1, AndOrNode([p.0], []));
    }
  }

  lemma OnlySemi(op: Op)
    requires !IsRedirect(op) && op !in {Pipe, OrIf, AndIf}
    ensures op == Semi
  {
    match op
    case DGreatErr => case GreatAndErr => case GreatErr => case GreatAndOut => case DGreat => case Great =>
    case Less => case OrIf => case AndIf => case Pipe => case Semi =>
  }

  lemma {:induction false} ProgramTailExpectsNothing(ts: seq<Token>, andors: seq<AndOrNode>)
    requires EndsAt(ts, {Pipe, OrIf, AndIf})
    ensures ProgramTail(ts, andors) != Err(ExpectedSemi)
    decreases |ts|
  {
    if ts != [] {
      OnlySemi(ts[0].op);
    }
    if ts != [] && ts[1..] != [] {
      NotSemiError(ts[1..]);
      AndOrEnds(ts[1..]);
      if AndOr(ts[1..]).Ok? {
        var p := AndOr(ts[1..]).value;
        ProgramTailExpectsNothing(p.1, andors + [p.0]);
      }
    }
  }

  lemma CommandErrors(ts: seq<Token>, node: CommandNode)
    ensures Command(ts, node) in {Err(ExpectedWord)} || Command(ts, node).Ok?
    decreases |ts|
  {
  }

  lemma PipelineErrors(ts: seq<Token>, cmds: seq<CommandNode>)
    ensures PipelineTail(ts, cmds) in {Err(ExpectedWord), Err(TooManyStages)} || PipelineTail(ts, cmds).Ok?
    decreases |ts|
  {
    if ts != [] {
      CommandErrors(ts[1..], NO_COMMAND);
    }
  }

  lemma AndOrErrors(ts: seq<Token>, node: AndOrNode)
    ensures AndOrTail(ts, node) in {Err(ExpectedWord), Err(TooManyStages)} || AndOrTail(ts, node).Ok?
    decreases |ts|
  {
    if ts != [] {
      PipelineError(ts[1..]);
    }
  }

  lemma PipelineError(ts: seq<Token>)
    ensures Pipeline(ts) in {Err(ExpectedWord), Err(TooManyStages)} || Pipeline(ts).Ok?
  {
    CommandErrors(ts, NO_COMMAND);
    if Command(ts, NO_COMMAND).Ok? {
      PipelineErrors(Command(ts, NO_COMMAND).value.1, [Command(ts, NO_COMMAND).value.0]);
    }
  }

  lemma NotSemiError(ts: seq<Token>)
    ensures AndOr(ts) != Err(ExpectedSemi)
  {
    PipelineError(ts);
    if Pipeline(ts).Ok? {
      AndOrErrors(Pipeline(ts).value.1, AndOrNode([Pipeline(ts).value.0], []));
    }
  }

  /** The checks for a missing `;` and for trailing garbage can never fail. */
  lemma NeverExpectsSemi(ts: seq<Token>)
    ensures ParseTokens(ts) != Err(ExpectedSemi)
  {
    NotSemiError(ts);
    AndOrEnds(ts);
    if AndOr(ts).Ok? {
      ProgramTailExpectsNothing(AndOr(ts).value.1, [AndOr(ts).value.0]);
    }
  }
}
