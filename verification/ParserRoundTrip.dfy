/** Programs as their authors mean them, printed with quoting, and parsed back. */
module ParserRoundTrip {
  import opened Wrappers
  import opened Seqs
  import opened ShellQuote
  import opened Lexer
  import opened WordParts
  import opened Syntax
  import opened PrintedWords
  import opened CommandPrinter

  datatype Redirection = ToFile(op: Op, target: string) | Merge(op: Op)

  datatype Simple = Simple(assigns: seq<(string, string)>, argv: seq<string>, redirects: seq<Redirection>)

  /** Pipelines joined by `&&` and `||`. */
  datatype Chain = Chain(first: seq<Simple>, rest: seq<(Op, seq<Simple>)>)

  predicate GoodName(name: string) {
    name != "" && NameLen(name) == |name|
  }

  predicate GoodAssign(a: (string, string)) {
    GoodName(a.0) && AllSafe(a.1)
  }

  predicate GoodRedirect(r: Redirection) {
    match r
    case ToFile(op, target) => op in {Less, Great, DGreat, GreatErr, DGreatErr} && target != "" && AllSafe(target)
    case Merge(op) => op in {GreatAndOut, GreatAndErr}
  }

  /** The first word must not look like an assignment once it is quoted. */
  predicate GoodArgs(argv: seq<string>) {
    GoodWords(Quoted(argv))
  }

  predicate GoodWords(raws: seq<string>) {
    raws == [] || !IsAssignment(raws[0])
  }

  predicate GoodSimple(c: Simple) {
    && (forall i :: 0 <= i < |c.assigns| ==> GoodAssign(c.assigns[i]))
    && (forall i :: 0 <= i < |c.redirects| ==> GoodRedirect(c.redirects[i]))
    && GoodArgs(c.argv)
  }

  predicate GoodPipe(p: seq<Simple>) {
    1 <= |p| <= 2 && forall i :: 0 <= i < |p| ==> GoodSimple(p[i])
  }

  predicate GoodRest(rest: seq<(Op, seq<Simple>)>) {
    forall i :: 0 <= i < |rest| ==> IsLink(rest[i].0) && GoodPipe(rest[i].1)
  }

  predicate GoodChain(c: Chain) {
    GoodPipe(c.first) && GoodRest(c.rest)
  }

  function AssignTokens(assigns: seq<(string, string)>): seq<Token> {
    if assigns == [] then []
    else [Word(assigns[0].0 + "=" + assigns[0].1)] + AssignTokens(assigns[1..])
  }

  function Quoted(argv: seq<string>): (r: seq<string>)
    ensures |r| == |argv|
  {
    if argv == [] then [] else [Quote(argv[0])] + Quoted(argv[1..])
  }

  function WordTokens(raws: seq<string>): seq<Token> {
    if raws == [] then [] else [Word(raws[0])] + WordTokens(raws[1..])
  }

  function ArgTokens(argv: seq<string>): seq<Token> {
    WordTokens(Quoted(argv))
  }

  function RedirectTokens(redirects: seq<Redirection>): seq<Token> {
    if redirects == [] then []
    else
      var more := RedirectTokens(redirects[1..]);
      match redirects[0]
      case ToFile(op, target) => [Operator(op)] + ([Word(target)] + more)
      case Merge(op) => [Operator(op)] + more
  }

  function SimpleTokens(c: Simple): seq<Token> {
    AssignTokens(c.assigns) + (ArgTokens(c.argv) + RedirectTokens(c.redirects))
  }

  function PipeTokens(p: seq<Simple>): seq<Token>
    requires 1 <= |p| <= 2
  {
    if |p| == 1 then SimpleTokens(p[0])
    else SimpleTokens(p[0]) + ([Operator(Pipe)] + SimpleTokens(p[1]))
  }

  function RestTokens(rest: seq<(Op, seq<Simple>)>): seq<Token>
    requires GoodRest(rest)
  {
    if rest == [] then []
    else [Operator(rest[0].0)] + (PipeTokens(rest[0].1) + RestTokens(rest[1..]))
  }

  function ChainTokens(c: Chain): seq<Token>
    requires GoodChain(c)
  {
    PipeTokens(c.first) + RestTokens(c.rest)
  }

  predicate GoodChains(cs: seq<Chain>) {
    forall i :: 0 <= i < |cs| ==> GoodChain(cs[i])
  }

  function MoreTokens(cs: seq<Chain>): seq<Token>
    requires GoodChains(cs)
  {
    if cs == [] then [] else [Operator(Semi)] + (ChainTokens(cs[0]) + MoreTokens(cs[1..]))
  }

  function ProgramTokens(cs: seq<Chain>): seq<Token>
    requires cs != [] && GoodChains(cs)
  {
    ChainTokens(cs[0]) + MoreTokens(cs[1..])
  }

  function Print(cs: seq<Chain>): string
    requires cs != [] && GoodChains(cs)
  {
    Render(ProgramTokens(cs))
  }

  function WordTrees(raws: seq<string>): (r: seq<seq<WordPart>>)
    ensures |r| == |raws|
  {
    if raws == [] then [] else [Parts(raws[0], "")] + WordTrees(raws[1..])
  }

  function ArgTrees(argv: seq<string>): (r: seq<seq<WordPart>>)
    ensures |r| == |argv|
  {
    WordTrees(Quoted(argv))
  }

  function RedirectTree(r: Redirection): RedirectSpec {
    match r
    case ToFile(op, target) => RedirectSpec(Some(RedirectFd(op)), OpText(op), target)
    case Merge(op) => RedirectSpec(Some(RedirectFd(op)), OpText(op), if op == GreatAndOut then "2" else "1")
  }

  function RedirectTrees(redirects: seq<Redirection>): seq<RedirectSpec> {
    if redirects == [] then [] else [RedirectTree(redirects[0])] + RedirectTrees(redirects[1..])
  }

  function SimpleTree(c: Simple): CommandNode {
    CommandNode(ArgTrees(c.argv), RedirectTrees(c.redirects), c.assigns)
  }

  function PipeTree(p: seq<Simple>): PipelineNode
    requires 1 <= |p| <= 2
  {
    PipelineNode(if |p| == 1 then [SimpleTree(p[0])] else [SimpleTree(p[0]), SimpleTree(p[1])])
  }

  function RestTrees(rest: seq<(Op, seq<Simple>)>): seq<PipelineNode>
    requires GoodRest(rest)
  {
    if rest == [] then [] else [PipeTree(rest[0].1)] + RestTrees(rest[1..])
  }

  function RestOps(rest: seq<(Op, seq<Simple>)>): seq<Op> {
    if rest == [] then [] else [rest[0].0] + RestOps(rest[1..])
  }

  function ChainTree(c: Chain): AndOrNode
    requires GoodChain(c)
  {
    AndOrNode([PipeTree(c.first)] + RestTrees(c.rest), RestOps(c.rest))
  }

  function Trees(cs: seq<Chain>): seq<AndOrNode>
    requires GoodChains(cs)
  {
    if cs == [] then [] else [ChainTree(cs[0])] + Trees(cs[1..])
  }

  lemma NameWhole(name: string, rest: string)
    requires rest != "" && !NameChar(rest[0])
    ensures NameTail(name) == |name| ==> NameTail(name + rest) == |name|
    ensures NameLen(name) == |name| > 0 ==> NameLen(name + rest) == |name|
  {
    if name == "" {
      assert name + rest == rest;
    } else {
      NameWhole(name[1..], rest);
      assert (name + rest)[1..] == name[1..] + rest;
    }
  }

  lemma AssignmentText(a: (string, string))
    requires GoodAssign(a)
    ensures IsAssignment(a.0 + "=" + a.1) && Assignment(a.0 + "=" + a.1) == a
  {
    var raw := a.0 + "=" + a.1;
    assert raw == a.0 + ("=" + a.1);
    NameWhole(a.0, "=" + a.1);
    Halves(a.0, '=', a.1);
    UpToNewlineFacts(a.1);
  }

  /** One token off the front. */
  lemma Pop(t: Token, more: seq<Token>, rest: seq<Token>)
    ensures ([t] + more + rest)[0] == t && ([t] + more + rest)[1..] == more + rest
    ensures [t] + more + rest != []
  {
  }

  lemma {:induction false} ParseAssigns(assigns: seq<(string, string)>, rest: seq<Token>, node: CommandNode)
    requires forall i :: 0 <= i < |assigns| ==> GoodAssign(assigns[i])
    requires node.argv == [] && node.redirects == []
    ensures Command(AssignTokens(assigns) + rest, node)
         == Command(rest, node.(assignments := node.assignments + assigns))
  {
    if assigns == [] {
      Nothing(rest);
      Nothing(node.assignments);
    } else {
      var a := assigns[0];
      AssignmentText(a);
      Pop(Word(a.0 + "=" + a.1), AssignTokens(assigns[1..]), rest);
      ParseAssigns(assigns[1..], rest, node.(assignments := node.assignments + [a]));
      Assoc(node.assignments, [a], assigns[1..]);
      Uncons(assigns, []);
    }
  }

  lemma {:induction false} ParseWords(raws: seq<string>, rest: seq<Token>, node: CommandNode)
    requires node.argv != [] || GoodWords(raws)
    ensures Command(WordTokens(raws) + rest, node) == Command(rest, node.(argv := node.argv + WordTrees(raws)))
  {
    if raws == [] {
      Nothing(rest);
      Nothing(node.argv);
    } else {
      var tree := Parts(raws[0], "");
      Pop(Word(raws[0]), WordTokens(raws[1..]), rest);
      ParseWords(raws[1..], rest, node.(argv := node.argv + [tree]));
      Assoc(node.argv, [tree], WordTrees(raws[1..]));
    }
  }

  lemma OneRedirect(r: Redirection, more: seq<Token>, node: CommandNode)
    requires GoodRedirect(r)
    ensures r.ToFile? ==>
      Command([Operator(r.op)] + ([Word(r.target)] + more), node) == Command(more, AddRedirect(node, RedirectTree(r)))
    ensures r.Merge? ==>
      Command([Operator(r.op)] + more, node) == Command(more, AddRedirect(node, RedirectTree(r)))
  {
    Pop(Operator(r.op), more, []);
    Nothing(more);
    if r.ToFile? {
      Nothing([Word(r.target)] + more);
      Pop(Operator(r.op), [Word(r.target)] + more, []);
      Pop(Word(r.target), more, []);
    }
  }

  lemma {:induction false} ParseRedirects(redirects: seq<Redirection>, rest: seq<Token>, node: CommandNode)
    requires forall i :: 0 <= i < |redirects| ==> GoodRedirect(redirects[i])
    ensures Command(RedirectTokens(redirects) + rest, node)
         == Command(rest, node.(redirects := node.redirects + RedirectTrees(redirects)))
  {
    if redirects == [] {
      Nothing(rest);
      Nothing(node.redirects);
    } else {
      var r := redirects[0];
      var more := RedirectTokens(redirects[1..]);
      ParseRedirects(redirects[1..], rest, AddRedirect(node, RedirectTree(r)));
      OneRedirect(r, more + rest, node);
      Assoc([Operator(r.op)], more, rest);
      if r.ToFile? {
        Assoc([Operator(r.op)], [Word(r.target)] + more, rest);
        Assoc([Word(r.target)], more, rest);
      }
      Assoc(node.redirects, [RedirectTree(r)], RedirectTrees(redirects[1..]));
    }
  }

  lemma ParseSimple(c: Simple, rest: seq<Token>)
    requires GoodSimple(c) && EndsAt(rest, {})
    ensures Command(SimpleTokens(c) + rest, NO_COMMAND) == Ok((SimpleTree(c), rest))
  {
    var rs := RedirectTokens(c.redirects);
    var args := ArgTokens(c.argv);
    Assoc(AssignTokens(c.assigns), args + rs, rest);
    Assoc(args, rs, rest);
    Nothing(c.assigns);
    Nothing(ArgTrees(c.argv));
    Nothing(RedirectTrees(c.redirects));
    var n1 := CommandNode([], [], c.assigns);
    ParseAssigns(c.assigns, args + (rs + rest), NO_COMMAND);
    ParseWords(Quoted(c.argv), rs + rest, n1);
    ParseRedirects(c.redirects, rest, CommandNode(ArgTrees(c.argv), [], c.assigns));
  }

  lemma SecondStage(c: Simple, first: CommandNode, rest: seq<Token>)
    requires GoodSimple(c) && EndsAt(rest, {Pipe})
    ensures PipelineTail([Operator(Pipe)] + SimpleTokens(c) + rest, [first])
         == Ok((PipelineNode([first, SimpleTree(c)]), rest))
  {
    Pop(Operator(Pipe), SimpleTokens(c), rest);
    ParseSimple(c, rest);
    assert [first] + [SimpleTree(c)] == [first, SimpleTree(c)];
  }

  lemma ParsePipe(p: seq<Simple>, rest: seq<Token>)
    requires GoodPipe(p) && EndsAt(rest, {Pipe})
    ensures Pipeline(PipeTokens(p) + rest) == Ok((PipeTree(p), rest))
  {
    var tail := if |p| == 1 then rest else [Operator(Pipe)] + SimpleTokens(p[1]) + rest;
    if |p| == 2 {
      Pop(Operator(Pipe), SimpleTokens(p[1]), rest);
      SecondStage(p[1], SimpleTree(p[0]), rest);
      Assoc(SimpleTokens(p[0]), [Operator(Pipe)] + SimpleTokens(p[1]), rest);
    }
    ParseSimple(p[0], tail);
  }

  lemma {:induction false} ParseRest(links: seq<(Op, seq<Simple>)>, rest: seq<Token>, node: AndOrNode)
    requires GoodRest(links) && EndsAt(rest, {Pipe, OrIf, AndIf})
    ensures EndsAt(RestTokens(links) + rest, {Pipe})
    ensures AndOrTail(RestTokens(links) + rest, node)
         == Ok((AndOrNode(node.pipelines + RestTrees(links), node.ops + RestOps(links)), rest))
    decreases |links|
  {
    if links == [] {
      Nothing(rest);
      Nothing(node.pipelines);
      Nothing(node.ops);
    } else {
      var op, p, more := links[0].0, links[0].1, RestTokens(links[1..]);
      var next := AndOrNode(node.pipelines + [PipeTree(p)], node.ops + [op]);
      Pop(Operator(op), PipeTokens(p) + more, rest);
      Assoc(PipeTokens(p), more, rest);
      ParseRest(links[1..], rest, next);
      ParsePipe(p, more + rest);
      Assoc(node.pipelines, [PipeTree(p)], RestTrees(links[1..]));
      Assoc(node.ops, [op], RestOps(links[1..]));
    }
  }

  lemma ParseChain(c: Chain, rest: seq<Token>)
    requires GoodChain(c) && EndsAt(rest, {Pipe, OrIf, AndIf})
    ensures AndOr(ChainTokens(c) + rest) == Ok((ChainTree(c), rest))
  {
    var node := AndOrNode([PipeTree(c.first)], []);
    ParseRest(c.rest, rest, node);
    Assoc(PipeTokens(c.first), RestTokens(c.rest), rest);
    ParsePipe(c.first, RestTokens(c.rest) + rest);
    Nothing(RestOps(c.rest));
  }

  /** The last list is what a trailing semicolon may leave out. */
  predicate LastPrints(cs: seq<Chain>)
    requires GoodChains(cs)
  {
    cs != [] ==> ChainTokens(cs[|cs| - 1]) != []
  }

  lemma MoreStarts(cs: seq<Chain>)
    requires GoodChains(cs)
    ensures EndsAt(MoreTokens(cs), {Pipe, OrIf, AndIf})
  {
  }

  lemma {:induction false} ParseMore(cs: seq<Chain>, andors: seq<AndOrNode>)
    requires GoodChains(cs) && LastPrints(cs)
    ensures ProgramTail(MoreTokens(cs), andors) == Ok(ProgramNode(andors + Trees(cs)))
    decreases |cs|
  {
    if cs == [] {
      Nothing(andors);
    } else {
      var more := MoreTokens(cs[1..]);
      MoreStarts(cs[1..]);
      ParseChain(cs[0], more);
      Pop(Operator(Semi), ChainTokens(cs[0]) + more, []);
      Nothing([Operator(Semi)] + (ChainTokens(cs[0]) + more));
      Nothing(ChainTokens(cs[0]) + more);
      Nothing(ChainTokens(cs[0]));
      ParseMore(cs[1..], andors + [ChainTree(cs[0])]);
      Assoc(andors, [ChainTree(cs[0])], Trees(cs[1..]));
      assert ChainTokens(cs[0]) + more != [];
    }
  }

  lemma LastOfRest(first: Chain, more: seq<Chain>)
    requires GoodChain(first) && GoodChains(more) && LastPrints([first] + more)
    ensures LastPrints(more)
    ensures MoreTokens(more) == [] ==> ChainTokens(first) != []
  {
    var cs := [first] + more;
    if more != [] {
      assert cs[|cs| - 1] == more[|more| - 1];
    } else {
      assert cs[|cs| - 1] == first;
    }
  }

  lemma ParseFirst(first: Chain, more: seq<Chain>)
    requires GoodChain(first) && GoodChains(more) && LastPrints(more)
    requires MoreTokens(more) == [] ==> ChainTokens(first) != []
    ensures ParseTokens(ChainTokens(first) + MoreTokens(more)) == Ok(ProgramNode([ChainTree(first)] + Trees(more)))
  {
    MoreStarts(more);
    ParseChain(first, MoreTokens(more));
    ParseMore(more, [ChainTree(first)]);
  }

  lemma ParseProgram(cs: seq<Chain>)
    requires cs != [] && GoodChains(cs) && LastPrints(cs)
    ensures ParseTokens(ProgramTokens(cs)) == Ok(ProgramNode(Trees(cs)))
  {
    Uncons(cs, []);
    LastOfRest(cs[0], cs[1..]);
    ParseFirst(cs[0], cs[1..]);
  }

  ghost predicate AllPrinted(ts: seq<Token>) {
    forall i :: 0 <= i < |ts| ==> Printed(ts[i])
  }

  lemma PrintedConcat(a: seq<Token>, b: seq<Token>)
    requires AllPrinted(a) && AllPrinted(b)
    ensures AllPrinted(a + b)
  {
  }

  lemma GoodNameSafe(name: string)
    requires NameLen(name) == |name| || NameTail(name) == |name|
    ensures AllSafe(name)
  {
    NameChars(name);
  }

  lemma {:induction false} AssignsPrinted(assigns: seq<(string, string)>)
    requires forall i :: 0 <= i < |assigns| ==> GoodAssign(assigns[i])
    ensures AllPrinted(AssignTokens(assigns))
  {
    if assigns != [] {
      GoodNameSafe(assigns[0].0);
      assert AllSafe(assigns[0].0 + "=" + assigns[0].1);
      AssignsPrinted(assigns[1..]);
    }
  }

  lemma {:induction false} ArgsPrinted(argv: seq<string>)
    ensures AllPrinted(ArgTokens(argv))
  {
    if argv != [] {
      QuoteIsPrinted(argv[0]);
      ArgsPrinted(argv[1..]);
    }
  }

  lemma {:induction false} RedirectsPrinted(redirects: seq<Redirection>)
    requires forall i :: 0 <= i < |redirects| ==> GoodRedirect(redirects[i])
    ensures AllPrinted(RedirectTokens(redirects))
  {
    if redirects != [] {
      RedirectsPrinted(redirects[1..]);
    }
  }

  lemma PipePrinted(p: seq<Simple>)
    requires GoodPipe(p)
    ensures AllPrinted(PipeTokens(p))
  {
    forall c | c in p
      ensures AllPrinted(SimpleTokens(c))
    {
      AssignsPrinted(c.assigns);
      ArgsPrinted(c.argv);
      RedirectsPrinted(c.redirects);
    }
  }

  lemma {:induction false} RestPrinted(links: seq<(Op, seq<Simple>)>)
    requires GoodRest(links)
    ensures AllPrinted(RestTokens(links))
  {
    if links != [] {
      PipePrinted(links[0].1);
      RestPrinted(links[1..]);
    }
  }

  lemma ChainPrinted(c: Chain)
    requires GoodChain(c)
    ensures AllPrinted(ChainTokens(c))
  {
    PipePrinted(c.first);
    RestPrinted(c.rest);
  }

  lemma {:induction false} MorePrinted(cs: seq<Chain>)
    requires GoodChains(cs)
    ensures AllPrinted(MoreTokens(cs))
  {
    if cs != [] {
      ChainPrinted(cs[0]);
      MorePrinted(cs[1..]);
      PrintedConcat(ChainTokens(cs[0]), MoreTokens(cs[1..]));
      PrintedConcat([Operator(Semi)], ChainTokens(cs[0]) + MoreTokens(cs[1..]));
    }
  }

  lemma ProgramPrinted(cs: seq<Chain>)
    requires cs != [] && GoodChains(cs)
    ensures AllPrinted(ProgramTokens(cs))
  {
    ChainPrinted(cs[0]);
    MorePrinted(cs[1..]);
  }

  /** The parser undoes the printer: same lists, pipelines, redirects and assignments. */
  lemma {:induction false} ParserUndoesPrinter(cs: seq<Chain>)
    requires cs != [] && GoodChains(cs) && LastPrints(cs)
    ensures Parse(Print(cs)) == Ok(ProgramNode(Trees(cs)))
  {
    ProgramPrinted(cs);
    LexRendered(ProgramTokens(cs));
    ParseProgram(cs);
  }

  /** And every argument expands to the string it was printed from, in every environment. */
  lemma ArgumentsExpand(argv: seq<string>, i: nat, env: Env)
    requires i < |argv|
    ensures Expand(ArgTrees(argv)[i], env) == argv[i]
  {
    if i == 0 {
      QuoteMeans(argv[0], env);
    } else {
      ArgumentsExpand(argv[1..], i - 1, env);
    }
  }

  lemma MoreSplit(c: Chain, cs: seq<Chain>)
    requires GoodChain(c) && GoodChains(cs)
    ensures GoodChains([c] + cs) && MoreTokens([c] + cs) == [Operator(Semi)] + (ChainTokens(c) + MoreTokens(cs))
  {
    assert ([c] + cs)[1..] == cs;
  }

  lemma {:induction false} MoreLast(front: seq<Chain>, last: Chain)
    requires GoodChains(front) && GoodChain(last) && ChainTokens(last) == []
    ensures GoodChains(front + [last]) && MoreTokens(front + [last]) == MoreTokens(front) + [Operator(Semi)]
  {
    var semi := [Operator(Semi)];
    if front == [] {
      MoreSplit(last, []);
      Nothing([last]);
      Nothing(semi);
    } else {
      var more := MoreTokens(front[1..]);
      Uncons(front, [last]);
      MoreLast(front[1..], last);
      MoreSplit(front[0], front[1..] + [last]);
      Assoc(semi, ChainTokens(front[0]) + more, semi);
      Assoc(ChainTokens(front[0]), more, semi);
    }
  }

  lemma {:induction false} TrailingSemi(front: seq<Chain>, andors: seq<AndOrNode>)
    requires GoodChains(front)
    ensures ProgramTail(MoreTokens(front) + [Operator(Semi)], andors) == Ok(ProgramNode(andors + Trees(front)))
    decreases |front|
  {
    var semi := [Operator(Semi)];
    if front == [] {
      Nothing(semi);
      Nothing(andors);
    } else {
      var more := MoreTokens(front[1..]);
      MoreStarts(front[1..]);
      Pop(Operator(Semi), ChainTokens(front[0]) + more, semi);
      Assoc(ChainTokens(front[0]), more, semi);
      ParseChain(front[0], more + semi);
      TrailingSemi(front[1..], andors + [ChainTree(front[0])]);
      Assoc(andors, [ChainTree(front[0])], Trees(front[1..]));
    }
  }

  lemma ParseWithSemi(first: Chain, more: seq<Chain>)
    requires GoodChain(first) && GoodChains(more)
    ensures ParseTokens(ChainTokens(first) + (MoreTokens(more) + [Operator(Semi)]))
         == Ok(ProgramNode([ChainTree(first)] + Trees(more)))
  {
    MoreStarts(more);
    ParseChain(first, MoreTokens(more) + [Operator(Semi)]);
    TrailingSemi(more, [ChainTree(first)]);
  }

  lemma ProgramSplit(c: Chain, cs: seq<Chain>)
    requires GoodChain(c) && GoodChains(cs)
    ensures GoodChains([c] + cs) && ProgramTokens([c] + cs) == ChainTokens(c) + MoreTokens(cs)
  {
    assert ([c] + cs)[1..] == cs;
  }

  lemma ParseLast(first: Chain, more: seq<Chain>, last: Chain)
    requires GoodChain(first) && GoodChains(more) && GoodChain(last) && ChainTokens(last) == []
    ensures var cs := [first] + (more + [last]);
      GoodChains(cs) && ParseTokens(ProgramTokens(cs)) == Ok(ProgramNode([ChainTree(first)] + Trees(more)))
  {
    MoreLast(more, last);
    ProgramSplit(first, more + [last]);
    ParseWithSemi(first, more);
  }

  lemma ParseOnlyLast(last: Chain)
    requires GoodChain(last) && ChainTokens(last) == []
    ensures GoodChains([last]) && ParseTokens(ProgramTokens([last])) == Err(Empty)
  {
    ProgramSplit(last, []);
    Nothing([last]);
  }

  /** A last list that prints nothing is dropped; a program that prints nothing is rejected as empty. */
  lemma {:induction false} EmptyLastList(front: seq<Chain>, last: Chain)
    requires GoodChains(front) && GoodChain(last) && ChainTokens(last) == []
    ensures GoodChains(front + [last])
    ensures Parse(Print(front + [last])) == if front == [] then Err(Empty) else Ok(ProgramNode(Trees(front)))
  {
    if front == [] {
      Nothing([last]);
      ParseOnlyLast(last);
    } else {
      Uncons(front, [last]);
      ParseLast(front[0], front[1..], last);
    }
    ProgramPrinted(front + [last]);
    LexRendered(ProgramTokens(front + [last]));
  }

  /** Exactly the commands whose first word stays unquoted and looks like an assignment lose it. */
  lemma FirstWordKeptIff(argv: seq<string>, rest: seq<Token>)
    requires argv != []
    ensures GoodArgs(argv) <==> !(argv[0] != "" && AllSafe(argv[0]) && IsAssignment(argv[0]))
    ensures !GoodArgs(argv) ==>
      Command(ArgTokens(argv) + rest, NO_COMMAND)
      == Command(ArgTokens(argv[1..]) + rest, CommandNode([], [], [Assignment(argv[0])]))
  {
    QuoteForms(argv[0]);
    Pop(Word(Quote(argv[0])), ArgTokens(argv[1..]), rest);
    if !GoodArgs(argv) {
      assert argv[0] != "" && AllSafe(argv[0]);
      Nothing([Assignment(argv[0])]);
    }
  }

  /** The parser stores a redirect's target as it was written: printed with quoting, it is stored
      as meant if and only if quoting left it alone. */
  lemma TargetKeptIff(op: Op, target: string)
    requires op in {Less, Great, DGreat, GreatErr, DGreatErr}
    ensures var r := Parse(Render([Operator(op), Word(Quote(target))]));
      r.Ok? && |r.value.andors| == 1 && |r.value.andors[0].pipelines| == 1
      && |r.value.andors[0].pipelines[0].commands| == 1
      && var c := r.value.andors[0].pipelines[0].commands[0];
        (c.redirects == [RedirectSpec(Some(RedirectFd(op)), OpText(op), target)] <==> target != "" && AllSafe(target))
        && c.redirects == [RedirectSpec(Some(RedirectFd(op)), OpText(op), Quote(target))]
  {
    var ts := [Operator(op), Word(Quote(target))];
    QuoteIsPrinted(target);
    LexRendered(ts);
    RedirectAlone(op, Quote(target));
    RawKeptIff(target);
  }

  lemma RedirectAlone(op: Op, raw: string)
    requires op in {Less, Great, DGreat, GreatErr, DGreatErr}
    ensures var c := CommandNode([], [RedirectSpec(Some(RedirectFd(op)), OpText(op), raw)], []);
      ParseTokens([Operator(op), Word(raw)]) == Ok(ProgramNode([AndOrNode([PipelineNode([c])], [])]))
  {
    var ts := [Operator(op), Word(raw)];
    var spec := RedirectSpec(Some(RedirectFd(op)), OpText(op), raw);
    assert ts[1..] == [Word(raw)] && ts[1..][1..] == [];
    Nothing([spec]);
    assert Command(ts, NO_COMMAND) == Ok((CommandNode([], [spec], []), []));
  }

  lemma RawAssignment(name: string, raw: string)
    requires GoodName(name)
    ensures IsAssignment(name + "=" + raw) && Assignment(name + "=" + raw) == (name, UpToNewline(raw))
  {
    Assoc(name, "=", raw);
    NameWhole(name, "=" + raw);
    Halves(name, '=', raw);
  }

  lemma CutQuoteIff(value: string)
    ensures UpToNewline(Quote(value)) == value <==> value != "" && AllSafe(value)
  {
    UpToNewlineFacts(Quote(value));
    RawKeptIff(value);
    QuoteForms(value);
    EscapeGrows(value);
    EscapeKeepsNewlines(value);
  }

  /** An assignment takes its value raw: a quoted value is kept exactly when quoting left it alone. */
  lemma AssignedValueKeptIff(name: string, value: string)
    requires GoodName(name)
    ensures IsAssignment(name + "=" + Quote(value))
    ensures Assignment(name + "=" + Quote(value)) == (name, value) <==> value != "" && AllSafe(value)
  {
    RawAssignment(name, Quote(value));
    CutQuoteIff(value);
  }

  lemma EscapeKeepsNewlines(s: string)
    ensures (forall i :: 0 <= i < |s| ==> s[i] != '\n') ==>
            forall i :: 0 <= i < |Escape(s)| ==> Escape(s)[i] != '\n'
  {
  }
}
