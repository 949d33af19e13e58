/** What every node the parser returns looks like. */
module ParsedNodes {
  import opened Wrappers
  import opened Lexer
  import opened Syntax

  /** Redirects as the parser makes them: the operator fixes the descriptor. */
  predicate ParsedRedirect(r: RedirectSpec) {
    || (r.op == "<" && r.fd == Some(0))
    || ((r.op == ">" || r.op == ">>") && r.fd == Some(1))
    || ((r.op == "2>" || r.op == "2>>") && r.fd == Some(2))
    || r == RedirectSpec(Some(1), "1>&2", "2")
    || r == RedirectSpec(Some(2), "2>&1", "1")
  }

  predicate ParsedAssignment(a: (string, string)) {
    a.0 != "" && NameLen(a.0) == |a.0|
  }

  predicate ParsedCommand(c: CommandNode) {
    && (forall i :: 0 <= i < |c.redirects| ==> ParsedRedirect(c.redirects[i]))
    && (forall i :: 0 <= i < |c.assignments| ==> ParsedAssignment(c.assignments[i]))
  }

  predicate ParsedPipeline(p: PipelineNode) {
    1 <= |p.commands| <= 2 && forall i :: 0 <= i < |p.commands| ==> ParsedCommand(p.commands[i])
  }

  predicate ParsedAndOr(a: AndOrNode) {
    && |a.pipelines| == |a.ops| + 1
    && (forall i :: 0 <= i < |a.pipelines| ==> ParsedPipeline(a.pipelines[i]))
    && (forall i :: 0 <= i < |a.ops| ==> IsLink(a.ops[i]))
  }

  predicate ParsedProgram(p: ProgramNode) {
    p.andors != [] && forall i :: 0 <= i < |p.andors| ==> ParsedAndOr(p.andors[i])
  }

  lemma RedirectParsed(op: Op, ts: seq<Token>)
    requires IsRedirect(op)
    ensures Redirect(op, ts).Ok? ==> ParsedRedirect(Redirect(op, ts).value.0)
  {
  }

  lemma NameAlone(s: string)
    ensures NameTail(s[..NameTail(s)]) == NameTail(s)
    ensures NameLen(s[..NameLen(s)]) == NameLen(s)
  {
    if s != "" && NameChar(s[0]) {
      NameAlone(s[1..]);
      assert s[..1 + NameTail(s[1..])][1..] == s[1..][..NameTail(s[1..])];
    }
  }

  lemma AddWordParsed(node: CommandNode, raw: string)
    requires ParsedCommand(node)
    ensures ParsedCommand(AddWord(node, raw))
  {
    NameAlone(raw);
  }

  lemma {:induction false} CommandParsed(ts: seq<Token>, node: CommandNode)
    requires ParsedCommand(node)
    ensures Command(ts, node).Ok? ==> ParsedCommand(Command(ts, node).value.0)
    decreases |ts|
  {
    if ts != [] {
      match ts[0]
      case Word(raw) =>
        AddWordParsed(node, raw);
        CommandParsed(ts[1..], AddWord(node, raw));
      case Operator(op) =>
        if IsRedirect(op) && Redirect(op, ts[1..]).Ok? {
          RedirectParsed(op, ts[1..]);
          var p := Redirect(op, ts[1..]).value;
          CommandParsed(p.1, AddRedirect(node, p.0));
        }
    }
  }

  lemma {:induction false} PipelineTailParsed(ts: seq<Token>, cmds: seq<CommandNode>)
    requires ParsedPipeline(PipelineNode(cmds))
    ensures PipelineTail(ts, cmds).Ok? ==> ParsedPipeline(PipelineTail(ts, cmds).value.0)
    decreases |ts|
  {
    if ts != [] && ts[0] == Operator(Pipe) && |cmds| < 2 && Command(ts[1..], NO_COMMAND).Ok? {
      CommandParsed(ts[1..], NO_COMMAND);
      var p := Command(ts[1..], NO_COMMAND).value;
      PipelineTailParsed(p.1, cmds + [p.0]);
    }
  }

  lemma PipelineParsed(ts: seq<Token>)
    ensures Pipeline(ts).Ok? ==> ParsedPipeline(Pipeline(ts).value.0)
  {
    CommandParsed(ts, NO_COMMAND);
    if Command(ts, NO_COMMAND).Ok? {
      var p := Command(ts, NO_COMMAND).value;
      PipelineTailParsed(p.1, [p.0]);
    }
  }

  lemma {:induction false} AndOrTailParsed(ts: seq<Token>, node: AndOrNode)
    requires ParsedAndOr(node)
    ensures AndOrTail(ts, node).Ok? ==> ParsedAndOr(AndOrTail(ts, node).value.0)
    decreases |ts|
  {
    if ts != [] && ts[0].Operator? && IsLink(ts[0].op) && Pipeline(ts[1..]).Ok? {
      PipelineParsed(ts[1..]);
      var p := Pipeline(ts[1..]).value;
      AndOrTailParsed(p.1, AndOrNode(node.pipelines + [p.0], node.ops + [ts[0].op]));
    }
  }

  lemma AndOrParsed(ts: seq<Token>)
    ensures AndOr(ts).Ok? ==> ParsedAndOr(AndOr(ts).value.0)
  {
    PipelineParsed(ts);
    if Pipeline(ts).Ok? {
      var p := Pipeline(ts).value;
      AndOrTailParsed(p.1, AndOrNode([p.0], []));
    }
  }

  lemma {:induction false} ProgramTailParsed(ts: seq<Token>, andors: seq<AndOrNode>)
    requires ParsedProgram(ProgramNode(andors))
    ensures ProgramTail(ts, andors).Ok? ==> ParsedProgram(ProgramTail(ts, andors).value)
    decreases |ts|
  {
    if ts != [] && ts[0] == Operator(Semi) && ts[1..] != [] && AndOr(ts[1..]).Ok? {
      AndOrParsed(ts[1..]);
      var p := AndOr(ts[1..]).value;
      ProgramTailParsed(p.1, andors + [p.0]);
    }
  }

  /**
   * Whatever the text, a program the parser accepts has one or two commands a pipeline, one link
   * fewer than pipelines, redirects whose operator and descriptor agree, and proper names.
   */
  lemma ParseParsed(command: string)
    ensures Parse(command).Ok? ==> ParsedProgram(Parse(command).value)
  {
    if Tokenize(command).Ok? {
      var ts := Tokenize(command).value;
      AndOrParsed(ts);
      if ts != [] && AndOr(ts).Ok? {
        ProgramTailParsed(AndOr(ts).value.1, [AndOr(ts).value.0]);
      }
    }
  }
}
