/** The recursive-descent parser: nested functions that share one position, here a class. */
module CommandParser {
  import opened Wrappers
  import opened Lexer
  import opened Syntax
  import Tokenizer
  import WordReader

  /** The result and the new position are those the grammar gives for the tokens that were left. */
  predicate Reads<T(==)>(spec: Parsed<T>, r: Result<T, SyntaxError>, left: seq<Token>) {
    match spec
    case Ok(p) => r == Ok(p.0) && left == p.1
    case Err(e) => r == Err(e)
  }

  class Parser {
    const tokens: seq<Token>
    var pos: nat

    constructor (tokens: seq<Token>)
      ensures this.tokens == tokens && pos == 0
    {
      this.tokens := tokens;
      pos := 0;
    }

    predicate Valid()
      reads this
    {
      pos <= |tokens|
    }

    function Left(): seq<Token>
      requires Valid()
      reads this
    {
      tokens[pos..]
    }

    method Peek() returns (t: Option<Token>)
      requires Valid()
      ensures t == if Left() == [] then None else Some(Left()[0])
    {
      t := if pos < |tokens| then Some(tokens[pos]) else None;
    }

    method Advance() returns (t: Token)
      requires Valid() && Left() != []
      modifies `pos
      ensures Valid() && t == old(Left()[0]) && Left() == old(Left()[1..])
    {
      t := tokens[pos];
      pos := pos + 1;
    }

    method ParseRedirect() returns (r: Result<RedirectSpec, SyntaxError>)
      requires Valid() && Left() != [] && Left()[0].Operator? && IsRedirect(Left()[0].op)
      modifies `pos
      ensures Valid() && |Left()| < old(|Left()|)
      ensures Reads(old(Redirect(Left()[0].op, Left()[1..])), r, Left())
    {
      var t := Advance();
      if t.op == GreatAndOut {
        return Ok(RedirectSpec(Some(1), "1>&2", "2"));
      }
      if t.op == GreatAndErr {
        return Ok(RedirectSpec(Some(2), "2>&1", "1"));
      }
      var next := Peek();
      if next == None || !next.value.Word? {
        return Err(ExpectedWord);
      }
      var w := Advance();
      if t.op == Less {
        return Ok(RedirectSpec(Some(0), "<", w.raw));
      }
      if t.op == Great || t.op == DGreat {
        return Ok(RedirectSpec(Some(1), OpText(t.op), w.raw));
      }
      r := Ok(RedirectSpec(Some(2), OpText(t.op), w.raw));
    }

    method ParseCommand() returns (r: Result<CommandNode, SyntaxError>)
      requires Valid()
      modifies `pos
      ensures Valid() && |Left()| <= old(|Left()|)
      ensures Reads(old(Command(Left(), NO_COMMAND)), r, Left())
    {
      var node := NO_COMMAND;
      while true
        invariant Valid() && |Left()| <= old(|Left()|)
        invariant Command(Left(), node) == old(Command(Left(), NO_COMMAND))
        decreases |Left()|
      {
        var t := Peek();
        if t == None {
          break;
        }
        if t.value.Operator? {
          if !IsRedirect(t.value.op) {
            break;
          }
          var redirect := ParseRedirect();
          if redirect.Err? {
            return Err(redirect.error);
          }
          node := AddRedirect(node, redirect.value);
        } else {
          var w := Advance();
          if IsAssignment(w.raw) && node.argv == [] && node.redirects == [] {
            node := node.(assignments := node.assignments + [Assignment(w.raw)]);
          } else {
            var parts := WordReader.ParseWordParts(w.raw);
            node := node.(argv := node.argv + [parts]);
          }
        }
      }
      r := Ok(node);
    }

    method ParsePipeline() returns (r: Result<PipelineNode, SyntaxError>)
      requires Valid()
      modifies `pos
      ensures Valid() && |Left()| <= old(|Left()|)
      ensures Reads(old(Pipeline(Left())), r, Left())
    {
      var first := ParseCommand();
      if first.Err? {
        return Err(first.error);
      }
      var cmds := [first.value];
      while true
        invariant Valid() && |Left()| <= old(|Left()|)
        invariant PipelineTail(Left(), cmds) == old(Pipeline(Left()))
        decreases |Left()|
      {
        var t := Peek();
        if t == None || t.value != Operator(Pipe) {
          break;
        }
        var bar := Advance();
        if |cmds| >= 2 {
          return Err(TooManyStages);
        }
        var cmd := ParseCommand();
        if cmd.Err? {
          return Err(cmd.error);
        }
        cmds := cmds + [cmd.value];
      }
      r := Ok(PipelineNode(cmds));
    }

    method ParseAndOr() returns (r: Result<AndOrNode, SyntaxError>)
      requires Valid()
      modifies `pos
      ensures Valid() && |Left()| <= old(|Left()|)
      ensures Reads(old(AndOr(Left())), r, Left())
    {
      var first := ParsePipeline();
      if first.Err? {
        return Err(first.error);
      }
      var pipelines, ops := [first.value], [];
      while true
        invariant Valid() && |Left()| <= old(|Left()|)
        invariant AndOrTail(Left(), AndOrNode(pipelines, ops)) == old(AndOr(Left()))
        decreases |Left()|
      {
        var t := Peek();
        if t == None || !t.value.Operator? || !IsLink(t.value.op) {
          break;
        }
        var link := Advance();
        var next := ParsePipeline();
        if next.Err? {
          return Err(next.error);
        }
        ops := ops + [link.op];
        pipelines := pipelines + [next.value];
      }
      r := Ok(AndOrNode(pipelines, ops));
    }

    method ParseProgram() returns (r: Result<ProgramNode, SyntaxError>)
      requires Valid() && Left() != []
      modifies `pos
      ensures r == old(ParseTokens(Left()))
    {
      var first := ParseAndOr();
      if first.Err? {
        return Err(first.error);
      }
      var andors := [first.value];
      while true
        invariant Valid() && |Left()| <= old(|Left()|)
        invariant ProgramTail(Left(), andors) == old(ParseTokens(Left()))
        decreases |Left()|
      {
        var t := Peek();
        if t == None {
          break;
        }
        if t.value != Operator(Semi) {
          return Err(ExpectedSemi);
        }
        var semi := Advance();
        t := Peek();
        if t == None {
          break;
        }
        var next := ParseAndOr();
        if next.Err? {
          return Err(next.error);
        }
        andors := andors + [next.value];
      }
      r := Ok(ProgramNode(andors));
    }
  }

  method ParseCommandText(command: string) returns (r: Result<ProgramNode, SyntaxError>)
    ensures r == Parse(command)
  {
    var tokens := Tokenizer.TokenizeCommand(command);
    if tokens.Err? {
      return Err(Lexical(tokens.error));
    }
    if tokens.value == [] {
      return Err(Empty);
    }
    var parser := new Parser(tokens.value);
    assert parser.Left() == tokens.value;
    r := parser.ParseProgram();
  }
}
