/**
 * The file tools send content through two parsers: they quote it into a command, the command is
 * parsed, expanded and rendered again, and the shell in the sandbox reads the result.
 */
module FileTools {
  import opened Wrappers
  import opened Seqs
  import opened ShellQuote
  import opened Lexer
  import opened WordParts
  import opened Syntax
  import opened PrintedWords
  import opened CommandPrinter
  import opened ParserRoundTrip
  import opened ShellReader
  import opened Payload

  /** The command that creates a file: its directory first, then the content through `tee`. */
  function WriteCommand(dirname: string, content: string, path: string): string {
    "mkdir -p " + Quote(dirname) + " && " + "printf '%s' " + Quote(content) + " | tee " + Quote(path)
  }

  /** The command that replaces a file: the content into a temporary one, then a rename. */
  function EditCommand(content: string, tmp: string, path: string): string {
    "printf '%s' " + Quote(content) + " | tee " + Quote(tmp) + " && " + "mv -- " + Quote(tmp) + " " + Quote(path)
  }

  function TwoTokens(a: seq<string>, b: seq<string>): seq<Token> {
    WordTokens(a) + ([Operator(Pipe)] + WordTokens(b))
  }

  function WordNode(raws: seq<string>): CommandNode {
    CommandNode(WordTrees(raws), [], [])
  }

  /** A command of plain words. */
  lemma WordsCommand(raws: seq<string>, rest: seq<Token>)
    requires GoodWords(raws) && EndsAt(rest, {})
    ensures Command(WordTokens(raws) + rest, NO_COMMAND) == Ok((WordNode(raws), rest))
  {
    ParseWords(raws, rest, NO_COMMAND);
    Nothing(WordTrees(raws));
  }

  lemma NoName(raw: string)
    requires raw in {"printf", "tee", "mkdir", "mv"}
    ensures !IsAssignment(raw)
  {
  }

  lemma OneParses(raws: seq<string>, rest: seq<Token>)
    requires GoodWords(raws) && EndsAt(rest, {Pipe})
    ensures Pipeline(WordTokens(raws) + rest) == Ok((PipelineNode([WordNode(raws)]), rest))
  {
    WordsCommand(raws, rest);
  }

  lemma SecondParses(first: CommandNode, b: seq<string>, rest: seq<Token>)
    requires GoodWords(b) && EndsAt(rest, {Pipe})
    ensures PipelineTail([Operator(Pipe)] + WordTokens(b) + rest, [first])
         == Ok((PipelineNode([first, WordNode(b)]), rest))
  {
    Pop(Operator(Pipe), WordTokens(b), rest);
    WordsCommand(b, rest);
    assert [first] + [WordNode(b)] == [first, WordNode(b)];
  }

  lemma TwoParses(a: seq<string>, b: seq<string>, rest: seq<Token>)
    requires GoodWords(a) && GoodWords(b) && EndsAt(rest, {Pipe})
    ensures Pipeline(TwoTokens(a, b) + rest) == Ok((PipelineNode([WordNode(a), WordNode(b)]), rest))
  {
    Assoc(WordTokens(a), [Operator(Pipe)] + WordTokens(b), rest);
    Pop(Operator(Pipe), WordTokens(b), rest);
    WordsCommand(a, [Operator(Pipe)] + WordTokens(b) + rest);
    SecondParses(WordNode(a), b, rest);
  }

  /** `A && B`, where each is a pipeline of plain words. */
  lemma AndParses(ts: seq<Token>, p: PipelineNode, us: seq<Token>, q: PipelineNode)
    requires Pipeline(ts + ([Operator(AndIf)] + us)) == Ok((p, [Operator(AndIf)] + us))
    requires Pipeline(us) == Ok((q, []))
    ensures ParseTokens(ts + ([Operator(AndIf)] + us)) == Ok(ProgramNode([AndOrNode([p, q], [AndIf])]))
  {
    var all := ts + ([Operator(AndIf)] + us);
    var tail := [Operator(AndIf)] + us;
    assert tail[0] == Operator(AndIf) && tail[1..] == us;
    assert [p] + [q] == [p, q] && [] + [AndIf] == [AndIf];
    assert AndOrTail(tail, AndOrNode([p], [])) == Ok((AndOrNode([p, q], [AndIf]), []));
  }

  lemma WordsPrinted(raws: seq<string>)
    requires forall i :: 0 <= i < |raws| ==> Printed(Word(raws[i]))
    ensures AllPrinted(WordTokens(raws)) && |WordTokens(raws)| == |raws|
  {
    if raws != [] {
      WordsPrinted(raws[1..]);
    }
  }

  lemma LiteralPrinted(raw: string)
    requires raw in {"mkdir", "-p", "printf", "'%s'", "tee", "mv", "--"}
    ensures Printed(Word(raw))
  {
    if raw == "'%s'" {
      assert Escape("s") == "s" && Escape("%s") == "%s";
      assert raw == Open("", "%s");
    }
  }

  lemma RenderTwo(a: string, b: string)
    ensures Render(WordTokens([a, b])) == a + " " + b
  {
    assert [a, b][1..] == [b] && [b][1..] == [];
    RenderConcat([Word(a)], [Word(b)]);
    Nothing([Word(b)]);
    assert WordTokens([b]) == [Word(b)];
    assert WordTokens([a, b]) == [Word(a)] + [Word(b)];
    assert [Word(a)][1..] == [] && [Word(b)][1..] == [];
    Nothing(a);
    Nothing(b);
    Assoc(a, " ", b);
  }

  lemma RenderMore(a: string, raws: seq<string>)
    requires raws != []
    ensures Render(WordTokens([a] + raws)) == a + " " + Render(WordTokens(raws))
  {
    assert ([a] + raws)[1..] == raws;
    RenderConcat([Word(a)], WordTokens(raws));
    assert [Word(a)][1..] == [];
    Nothing(a);
    Assoc(a, " ", Render(WordTokens(raws)));
  }

  lemma Spaced(t: string, r: string)
    ensures " " + (t + (" " + r)) == " " + t + " " + r
  {
    Assoc(" ", t, " " + r);
    Assoc(" " + t, " ", r);
  }

  /** `A | B` as text. */
  lemma RenderPipe(a: seq<string>, b: seq<string>)
    requires a != [] && b != []
    ensures TwoTokens(a, b) != []
    ensures Render(TwoTokens(a, b)) == Render(WordTokens(a)) + (" | " + Render(WordTokens(b)))
  {
    RenderConcat(WordTokens(a), [Operator(Pipe)] + WordTokens(b));
    RenderOp(Pipe, WordTokens(b));
    Spaced("|", Render(WordTokens(b)));
    assert " " + "|" + " " == " | ";
  }

  lemma RenderAnd(ts: seq<Token>, us: seq<Token>)
    requires ts != [] && us != []
    ensures Render(ts + ([Operator(AndIf)] + us)) == Render(ts) + (" && " + Render(us))
  {
    RenderConcat(ts, [Operator(AndIf)] + us);
    RenderOp(AndIf, us);
    Spaced("&&", Render(us));
    assert " " + "&&" + " " == " && ";
  }

  function PrintWords(content: string): seq<string> {
    ["printf", "'%s'", Quote(content)]
  }

  function TeeWords(path: string): seq<string> {
    ["tee", Quote(path)]
  }

  function MkdirWords(dirname: string): seq<string> {
    ["mkdir", "-p", Quote(dirname)]
  }

  function MvWords(tmp: string, path: string): seq<string> {
    ["mv", "--", Quote(tmp), Quote(path)]
  }

  lemma RenderPrint(content: string)
    ensures Render(WordTokens(PrintWords(content))) == "printf '%s' " + Quote(content)
  {
    RenderTwo("'%s'", Quote(content));
    RenderMore("printf", ["'%s'", Quote(content)]);
    assert ["printf"] + ["'%s'", Quote(content)] == PrintWords(content);
    Assoc("printf ", "'%s'" + " ", Quote(content));
    assert "printf" + " " == "printf " && "printf " + ("'%s'" + " ") == "printf '%s' ";
  }

  lemma RenderTee(path: string)
    ensures Render(WordTokens(TeeWords(path))) == "tee " + Quote(path)
  {
    RenderTwo("tee", Quote(path));
    assert "tee" + " " == "tee ";
  }

  lemma RenderMkdir(dirname: string)
    ensures Render(WordTokens(MkdirWords(dirname))) == "mkdir -p " + Quote(dirname)
  {
    RenderTwo("-p", Quote(dirname));
    RenderMore("mkdir", ["-p", Quote(dirname)]);
    assert ["mkdir"] + ["-p", Quote(dirname)] == MkdirWords(dirname);
    Assoc("mkdir ", "-p" + " ", Quote(dirname));
    assert "mkdir" + " " == "mkdir " && "mkdir " + ("-p" + " ") == "mkdir -p ";
  }

  lemma RenderMv(tmp: string, path: string)
    ensures Render(WordTokens(MvWords(tmp, path))) == "mv -- " + Quote(tmp) + " " + Quote(path)
  {
    var q, r := Quote(tmp), Quote(path);
    RenderTwo(q, r);
    RenderMore("--", [q, r]);
    assert ["--"] + [q, r] == ["--", q, r];
    RenderMore("mv", ["--", q, r]);
    assert ["mv"] + ["--", q, r] == MvWords(tmp, path);
    assert "mv" + " " + ("--" + " ") == "mv -- ";
    Assoc("mv" + " ", "--" + " ", q + " " + r);
    Assoc("mv -- ", q, " " + r);
    Assoc(q, " ", r);
    Assoc("mv -- " + q, " ", r);
  }

  function WriteTokens(dirname: string, content: string, path: string): seq<Token> {
    WordTokens(MkdirWords(dirname)) + ([Operator(AndIf)] + TwoTokens(PrintWords(content), TeeWords(path)))
  }

  function EditTokens(content: string, tmp: string, path: string): seq<Token> {
    TwoTokens(PrintWords(content), TeeWords(tmp)) + ([Operator(AndIf)] + WordTokens(MvWords(tmp, path)))
  }

  lemma RenderCopy(content: string, path: string)
    ensures Render(TwoTokens(PrintWords(content), TeeWords(path)))
         == "printf '%s' " + Quote(content) + " | tee " + Quote(path)
  {
    RenderPipe(PrintWords(content), TeeWords(path));
    RenderPrint(content);
    RenderTee(path);
    Assoc(" | ", "tee ", Quote(path));
    assert " | " + "tee " == " | tee ";
    Assoc("printf '%s' " + Quote(content), " | tee ", Quote(path));
  }

  lemma WriteText(dirname: string, content: string, path: string)
    ensures Render(WriteTokens(dirname, content, path)) == WriteCommand(dirname, content, path)
  {
    var mkdir, copy := WordTokens(MkdirWords(dirname)), TwoTokens(PrintWords(content), TeeWords(path));
    RenderPipe(PrintWords(content), TeeWords(path));
    RenderAnd(mkdir, copy);
    RenderMkdir(dirname);
    RenderCopy(content, path);
    WriteShape("mkdir -p " + Quote(dirname), " && ", "printf '%s' ", Quote(content), " | tee ", Quote(path));
  }

  lemma WriteShape(a: string, b: string, c: string, d: string, e: string, f: string)
    ensures a + (b + (c + d + e + f)) == a + b + c + d + e + f
  {
    Assoc(a + b, c + d + e, f);
    Assoc(a + b, c + d, e);
    Assoc(a + b, c, d);
    Assoc(a, b, c + d + e + f);
  }

  lemma EditText(content: string, tmp: string, path: string)
    ensures Render(EditTokens(content, tmp, path)) == EditCommand(content, tmp, path)
  {
    var mv, copy := WordTokens(MvWords(tmp, path)), TwoTokens(PrintWords(content), TeeWords(tmp));
    RenderPipe(PrintWords(content), TeeWords(tmp));
    RenderAnd(copy, mv);
    RenderMv(tmp, path);
    RenderCopy(content, tmp);
    var front := "printf '%s' " + Quote(content) + " | tee " + Quote(tmp);
    EditShape(front, " && ", "mv -- ", Quote(tmp), " ", Quote(path));
  }

  lemma EditShape(a: string, b: string, c: string, d: string, e: string, f: string)
    ensures a + (b + (c + d + e + f)) == a + b + c + d + e + f
  {
    WriteShape(a, b, c, d, e, f);
  }

  lemma CopyPrinted(content: string, path: string)
    ensures AllPrinted(TwoTokens(PrintWords(content), TeeWords(path)))
  {
    LiteralPrinted("printf");
    LiteralPrinted("'%s'");
    LiteralPrinted("tee");
    QuoteIsPrinted(content);
    QuoteIsPrinted(path);
    WordsPrinted(PrintWords(content));
    WordsPrinted(TeeWords(path));
  }

  lemma WritePrinted(dirname: string, content: string, path: string)
    ensures AllPrinted(WriteTokens(dirname, content, path))
  {
    LiteralPrinted("mkdir");
    LiteralPrinted("-p");
    QuoteIsPrinted(dirname);
    WordsPrinted(MkdirWords(dirname));
    CopyPrinted(content, path);
  }

  lemma EditPrinted(content: string, tmp: string, path: string)
    ensures AllPrinted(EditTokens(content, tmp, path))
  {
    LiteralPrinted("mv");
    LiteralPrinted("--");
    QuoteIsPrinted(tmp);
    QuoteIsPrinted(path);
    WordsPrinted(MvWords(tmp, path));
    CopyPrinted(content, tmp);
  }

  function CopyNode(content: string, path: string): PipelineNode {
    PipelineNode([WordNode(PrintWords(content)), WordNode(TeeWords(path))])
  }

  lemma WriteParses(dirname: string, content: string, path: string)
    ensures Parse(WriteCommand(dirname, content, path))
         == Ok(ProgramNode([AndOrNode([PipelineNode([WordNode(MkdirWords(dirname))]), CopyNode(content, path)],
                                      [AndIf])]))
  {
    var copy := TwoTokens(PrintWords(content), TeeWords(path));
    NoName("mkdir");
    NoName("printf");
    NoName("tee");
    OneParses(MkdirWords(dirname), [Operator(AndIf)] + copy);
    TwoParses(PrintWords(content), TeeWords(path), []);
    Nothing(copy);
    AndParses(WordTokens(MkdirWords(dirname)), PipelineNode([WordNode(MkdirWords(dirname))]), copy,
              CopyNode(content, path));
    WriteText(dirname, content, path);
    WritePrinted(dirname, content, path);
    LexRendered(WriteTokens(dirname, content, path));
  }

  lemma EditParses(content: string, tmp: string, path: string)
    ensures Parse(EditCommand(content, tmp, path))
         == Ok(ProgramNode([AndOrNode([CopyNode(content, tmp), PipelineNode([WordNode(MvWords(tmp, path))])],
                                      [AndIf])]))
  {
    var mv := WordTokens(MvWords(tmp, path));
    NoName("mv");
    NoName("printf");
    NoName("tee");
    TwoParses(PrintWords(content), TeeWords(tmp), [Operator(AndIf)] + mv);
    OneParses(MvWords(tmp, path), []);
    Nothing(mv);
    AndParses(TwoTokens(PrintWords(content), TeeWords(tmp)), CopyNode(content, tmp), mv,
              PipelineNode([WordNode(MvWords(tmp, path))]));
    EditText(content, tmp, path);
    EditPrinted(content, tmp, path);
    LexRendered(EditTokens(content, tmp, path));
  }

  lemma SafeMeans(raw: string, env: Env)
    requires AllSafe(raw)
    ensures Expand(Parts(raw, ""), env) == raw
  {
    PartsMean(raw, "", env);
    SafeValue(raw, env);
    Nothing(raw);
  }

  lemma OpenMeans(text: string, env: Env)
    ensures Expand(Parts(Open("", text), ""), env) == text
  {
    PartsMean(Open("", text), "", env);
    QuotedValue("", text, env);
    Nothing(text);
    Nothing("" + text);
  }

  lemma FormatOpen()
    ensures "'%s'" == Open("", "%s")
  {
    assert Escape("s") == "s" && Escape("%s") == "%s";
  }

  function KeptAll(texts: seq<string>): seq<string> {
    if texts == [] then [] else Kept(texts[0]) + KeptAll(texts[1..])
  }

  /** Raw words that expand to given texts. */
  lemma ResolveAll(raws: seq<string>, texts: seq<string>, env: Env)
    requires |raws| == |texts| && forall i :: 0 <= i < |raws| ==> Expand(Parts(raws[i], ""), env) == texts[i]
    ensures Resolve(WordTrees(raws), env) == KeptAll(texts)
  {
    if raws != [] {
      ResolveAll(raws[1..], texts[1..], env);
      var tree := [Parts(raws[0], "")];
      assert (tree + WordTrees(raws[1..]))[1..] == WordTrees(raws[1..]);
    }
  }

  lemma KeptMore(a: string, more: seq<string>)
    requires a != ""
    ensures KeptAll([a] + more) == [a] + KeptAll(more)
  {
    assert ([a] + more)[1..] == more;
  }

  lemma KeptTwo(a: string, b: string)
    requires a != ""
    ensures KeptAll([a, b]) == [a] + Kept(b)
  {
    KeptMore(a, [b]);
    assert [a] + [b] == [a, b] && [b][1..] == [];
    Nothing(Kept(b));
  }

  lemma TwoMean(a: string, b: string, ta: string, tb: string, env: Env)
    requires Expand(Parts(a, ""), env) == ta != "" && Expand(Parts(b, ""), env) == tb
    ensures Resolve(WordTrees([a, b]), env) == [ta] + Kept(tb)
  {
    ResolveAll([a, b], [ta, tb], env);
    KeptTwo(ta, tb);
  }

  lemma MoreMean(a: string, ta: string, raws: seq<string>, env: Env)
    requires Expand(Parts(a, ""), env) == ta != ""
    ensures Resolve(WordTrees([a] + raws), env) == [ta] + Resolve(WordTrees(raws), env)
  {
    var tree := [Parts(a, "")];
    assert ([a] + raws)[1..] == raws;
    assert (tree + WordTrees(raws))[1..] == WordTrees(raws);
  }

  lemma PrintMeans(a: string, t: string, content: string, env: Env)
    requires AllSafe(a) && a != "" && t != ""
    ensures Resolve(WordTrees([a, Open("", t), Quote(content)]), env) == [a, t] + Kept(content)
  {
    SafeMeans(a, env);
    OpenMeans(t, env);
    QuoteMeans(content, env);
    TwoMean(Open("", t), Quote(content), t, content, env);
    MoreMean(a, a, [Open("", t), Quote(content)], env);
    assert [a] + [Open("", t), Quote(content)] == [a, Open("", t), Quote(content)];
    Assoc([a], [t], Kept(content));
    assert [a] + [t] == [a, t];
  }

  lemma ResolvePrint(content: string, env: Env)
    ensures Resolve(WordTrees(PrintWords(content)), env) == ["printf", "%s"] + Kept(content)
  {
    PrintMeans("printf", "%s", content, env);
    FormatOpen();
  }

  lemma ResolveTee(path: string, env: Env)
    ensures Resolve(WordTrees(TeeWords(path)), env) == ["tee"] + Kept(path)
  {
    var a := "tee";
    SafeMeans(a, env);
    QuoteMeans(path, env);
    TwoMean(a, Quote(path), a, path, env);
  }

  lemma FourMean(a: string, b: string, c: string, d: string, tc: string, td: string, env: Env)
    requires Expand(Parts(a, ""), env) == a != "" && Expand(Parts(b, ""), env) == b != ""
    requires Expand(Parts(c, ""), env) == tc != "" && Expand(Parts(d, ""), env) == td != ""
    ensures Resolve(WordTrees([a] + ([b] + [c, d])), env) == [a] + ([b] + [tc, td])
  {
    KeptPair(c, d, tc, td, env);
    MoreMean(b, b, [c, d], env);
    MoreMean(a, a, [b] + [c, d], env);
  }

  lemma KeptPair(c: string, d: string, tc: string, td: string, env: Env)
    requires Expand(Parts(c, ""), env) == tc != "" && Expand(Parts(d, ""), env) == td != ""
    ensures Resolve(WordTrees([c, d]), env) == [tc, td]
  {
    TwoMean(c, d, tc, td, env);
    assert [tc] + Kept(td) == [tc, td];
  }

  lemma Four<T>(a: T, b: T, c: T, d: T)
    ensures [a] + ([b] + [c, d]) == [a, b, c, d]
  {
  }

  lemma MvMeans(a: string, b: string, tmp: string, path: string, env: Env)
    requires AllSafe(a) && AllSafe(b) && a != "" && b != "" && tmp != "" && path != ""
    ensures Resolve(WordTrees([a, b, Quote(tmp), Quote(path)]), env) == [a, b, tmp, path]
  {
    SafeMeans(a, env);
    SafeMeans(b, env);
    QuoteMeans(tmp, env);
    QuoteMeans(path, env);
    FourMean(a, b, Quote(tmp), Quote(path), tmp, path, env);
    Four(a, b, Quote(tmp), Quote(path));
    Four(a, b, tmp, path);
  }

  lemma MkdirMeans(a: string, b: string, dirname: string, env: Env)
    requires AllSafe(a) && AllSafe(b) && a != "" && b != ""
    ensures Resolve(WordTrees([a, b, Quote(dirname)]), env) == [a, b] + Kept(dirname)
  {
    SafeMeans(a, env);
    SafeMeans(b, env);
    QuoteMeans(dirname, env);
    TwoMean(b, Quote(dirname), b, dirname, env);
    MoreMean(a, a, [b, Quote(dirname)], env);
    assert [a] + [b, Quote(dirname)] == [a, b, Quote(dirname)];
    Assoc([a], [b], Kept(dirname));
    assert [a] + [b] == [a, b];
  }

  lemma ResolveMkdir(dirname: string, env: Env)
    ensures Resolve(WordTrees(MkdirWords(dirname)), env) == ["mkdir", "-p"] + Kept(dirname)
  {
    MkdirMeans("mkdir", "-p", dirname, env);
  }

  lemma ResolveMv(tmp: string, path: string, env: Env)
    requires tmp != "" && path != ""
    ensures Resolve(WordTrees(MvWords(tmp, path)), env) == ["mv", "--", tmp, path]
  {
    MvMeans("mv", "--", tmp, path, env);
  }

  function ShWords(words: seq<string>): seq<ShToken> {
    if words == [] then [] else [ShWord(words[0])] + ShWords(words[1..])
  }

  lemma ArgTokensAre(words: seq<string>)
    ensures AllTokens(ArgPieces(words)) == ShWords(words)
  {
  }

  lemma NodeTokens(raws: seq<string>, env: Env)
    ensures AllTokens(Pieces(WordNode(raws), env)) == ShWords(Resolve(WordTrees(raws), env))
  {
    var ps := ArgPieces(Resolve(WordTrees(raws), env));
    Nothing(ps);
    ArgTokensAre(Resolve(WordTrees(raws), env));
  }

  /** What the shell is to run: print the content into `tee`. */
  function CopyWords(content: string, path: string): seq<ShToken> {
    ShWords(["printf", "%s"] + Kept(content)) + ([ShOp("|")] + ShWords(["tee"] + Kept(path)))
  }

  lemma TwoTokensRead(c: CommandNode, d: CommandNode, env: Env)
    ensures PipelineTokens([c, d], env) == AllTokens(Pieces(c, env)) + ([ShOp("|")] + AllTokens(Pieces(d, env)))
  {
    assert [c, d][1..] == [d];
  }

  lemma TwoPayload(c: CommandNode, d: CommandNode, env: Env)
    requires Resolve(c.argv, env) != [] && Resolve(d.argv, env) != []
    ensures PipelinePayload(PipelineNode([c, d]), env).Some?
  {
  }

  lemma TwoRead(a: seq<string>, b: seq<string>, env: Env)
    requires Resolve(WordTrees(a), env) != [] && Resolve(WordTrees(b), env) != []
    ensures var p := PipelineNode([WordNode(a), WordNode(b)]);
      PipelinePayload(p, env).Some?
      && ReadSh(PipelinePayload(p, env).value)
         == Some(ShWords(Resolve(WordTrees(a), env)) + ([ShOp("|")] + ShWords(Resolve(WordTrees(b), env))))
  {
    var c, d := WordNode(a), WordNode(b);
    NodeTokens(a, env);
    NodeTokens(b, env);
    TwoTokensRead(c, d, env);
    TwoPayload(c, d, env);
    PayloadReads(PipelineNode([c, d]), env);
  }

  lemma CopyReads(content: string, path: string, env: Env)
    ensures PipelinePayload(CopyNode(content, path), env).Some?
    ensures ReadSh(PipelinePayload(CopyNode(content, path), env).value) == Some(CopyWords(content, path))
  {
    ResolvePrint(content, env);
    ResolveTee(path, env);
    TwoRead(PrintWords(content), TeeWords(path), env);
  }

  lemma ShWordsOne(a: string, more: seq<string>)
    ensures ShWords([a] + more) == [ShWord(a)] + ShWords(more)
    ensures ShWords([a]) == [ShWord(a)]
  {
    assert ([a] + more)[1..] == more;
    assert [a][1..] == [];
  }

  /** Empty content is the only content that is no word of its own. */
  lemma WholeCopy(content: string, path: string)
    requires content != "" && path != ""
    ensures CopyWords(content, path)
         == [ShWord("printf"), ShWord("%s"), ShWord(content), ShOp("|"), ShWord("tee"), ShWord(path)]
    ensures CopyWords("", path) == [ShWord("printf"), ShWord("%s"), ShOp("|"), ShWord("tee"), ShWord(path)]
  {
    ShWordsOne("tee", [path]);
    ShWordsOne(path, []);
    ShWordsOne(content, []);
    ShWordsOne("%s", [content]);
    ShWordsOne("%s", []);
    ShWordsOne("printf", ["%s"] + [content]);
    ShWordsOne("printf", ["%s"]);
    Assoc(["printf"], ["%s"], [content]);
    assert ["printf"] + ["%s"] == ["printf", "%s"];
    Nothing(["printf", "%s"]);
  }

  /**
   * Writing a file: whatever the content, the command parses to the two pipelines it means; the first
   * runs `mkdir`, `-p` and the directory, and the shell of the second reads `printf`, `%s`, the
   * content, a bar, `tee` and the path. Only empty content is missing from that list.
   */
  lemma {:induction false} WriteRoundTrip(dirname: string, content: string, path: string, env: Env)
    ensures var r := Parse(WriteCommand(dirname, content, path));
      r.Ok? && |r.value.andors| == 1 && r.value.andors[0].ops == [AndIf]
      && |r.value.andors[0].pipelines| == 2
      && r.value.andors[0].pipelines[0] == PipelineNode([WordNode(MkdirWords(dirname))])
      && Resolve(WordTrees(MkdirWords(dirname)), env) == ["mkdir", "-p"] + Kept(dirname)
      && var payload := PipelinePayload(r.value.andors[0].pipelines[1], env);
        payload.Some? && ReadSh(payload.value) == Some(CopyWords(content, path))
  {
    WriteParses(dirname, content, path);
    ResolveMkdir(dirname, env);
    CopyReads(content, path, env);
  }

  /** Replacing a file: the same for the temporary one, before the rename. */
  lemma {:induction false} EditRoundTrip(content: string, tmp: string, path: string, env: Env)
    requires tmp != "" && path != ""
    ensures var r := Parse(EditCommand(content, tmp, path));
      r.Ok? && |r.value.andors| == 1 && r.value.andors[0].ops == [AndIf]
      && |r.value.andors[0].pipelines| == 2
      && (var payload := PipelinePayload(r.value.andors[0].pipelines[0], env);
        payload.Some? && ReadSh(payload.value) == Some(CopyWords(content, tmp)))
      && r.value.andors[0].pipelines[1] == PipelineNode([WordNode(MvWords(tmp, path))])
      && Resolve(WordTrees(MvWords(tmp, path)), env) == ["mv", "--", tmp, path]
  {
    EditParses(content, tmp, path);
    CopyReads(content, tmp, env);
    ResolveMv(tmp, path, env);
  }
}
