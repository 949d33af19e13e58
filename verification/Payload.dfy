/** The text a pipeline is given to `/bin/sh -c` as, and what the shell reads in it. */
module Payload {
  import opened Wrappers
  import opened Seqs
  import opened ShellQuote
  import opened Lexer
  import opened WordParts
  import opened Syntax
  import opened PrintedWords
  import opened ParsedNodes
  import opened ShellReader
  import WordReader

  function Kept(text: string): seq<string> {
    if text == "" then [] else [text]
  }

  /** The words of a command that expand to something; empty ones are dropped. */
  function Resolve(argv: seq<seq<WordPart>>, env: Env): seq<string> {
    if argv == [] then [] else Kept(Expand(argv[0], env)) + Resolve(argv[1..], env)
  }

  function Decimal(n: nat): string {
    if n < 10 then ["0123456789"[n]] else Decimal(n / 10) + ["0123456789"[n % 10]]
  }

  function FdText(fd: Option<nat>): string {
    if fd.None? then "" else Decimal(fd.value)
  }

  predicate IsMerge(op: string) {
    op == "1>&2" || op == "2>&1"
  }

  function RedirectText(r: RedirectSpec): string {
    if IsMerge(r.op) then r.op else FdText(r.fd) + r.op + " " + Quote(r.target)
  }

  /** What a rendered command is made of. */
  datatype Piece = Assigned(name: string, value: string) | Argument(text: string) | Redirected(spec: RedirectSpec)

  function PieceText(p: Piece): string {
    match p
    case Assigned(name, value) => name + "=" + Quote(value)
    case Argument(text) => Quote(text)
    case Redirected(spec) => RedirectText(spec)
  }

  function PieceTexts(ps: seq<Piece>): seq<string> {
    if ps == [] then [] else [PieceText(ps[0])] + PieceTexts(ps[1..])
  }

  function AssignPieces(assignments: seq<(string, string)>): seq<Piece> {
    if assignments == [] then []
    else [Assigned(assignments[0].0, assignments[0].1)] + AssignPieces(assignments[1..])
  }

  function ArgPieces(words: seq<string>): seq<Piece> {
    if words == [] then [] else [Argument(words[0])] + ArgPieces(words[1..])
  }

  function RedirectPieces(redirects: seq<RedirectSpec>): seq<Piece> {
    if redirects == [] then [] else [Redirected(redirects[0])] + RedirectPieces(redirects[1..])
  }

  function Pieces(c: CommandNode, env: Env): seq<Piece> {
    AssignPieces(c.assignments) + ArgPieces(Resolve(c.argv, env)) + RedirectPieces(c.redirects)
  }

  function RenderCommand(c: CommandNode, env: Env): string {
    JoinWith(PieceTexts(Pieces(c, env)), " ")
  }

  function Rendered(cs: seq<CommandNode>, env: Env): seq<string> {
    if cs == [] then [] else [RenderCommand(cs[0], env)] + Rendered(cs[1..], env)
  }

  /** The payload, unless some command has no executable words. */
  function PipelinePayload(p: PipelineNode, env: Env): Option<string> {
    if exists i :: 0 <= i < |p.commands| && Resolve(p.commands[i].argv, env) == [] then None
    else Some(JoinWith(Rendered(p.commands, env), " | "))
  }

  /** What the shell is meant to read: each word whole, each redirect with a descriptor number. */
  function PieceTokens(p: Piece): seq<ShToken> {
    match p
    case Assigned(name, value) => [ShWord(name + "=" + value)]
    case Argument(text) => [ShWord(text)]
    case Redirected(spec) =>
      if spec.op == "1>&2" then [ShIo("1"), ShOp(">&"), ShWord("2")]
      else if spec.op == "2>&1" then [ShIo("2"), ShOp(">&"), ShWord("1")]
      else [ShIo(ReadFd(spec)), ShOp(PlainOp(spec.op)), ShWord(spec.target)]
  }

  /** The operator without a descriptor in front of it. */
  function PlainOp(op: string): string {
    if op == "2>" then ">" else if op == "2>>" then ">>" else op
  }

  /** The descriptor number the shell reads: an operator that brings its own makes it longer. */
  function ReadFd(spec: RedirectSpec): string {
    FdText(spec.fd) + if spec.op == "2>" || spec.op == "2>>" then "2" else ""
  }

  predicate GoodPiece(p: Piece) {
    match p
    case Assigned(name, value) => ParsedAssignment((name, value))
    case Argument(text) => true
    case Redirected(spec) => ParsedRedirect(spec)
  }

  function AllTokens(ps: seq<Piece>): seq<ShToken> {
    if ps == [] then [] else PieceTokens(ps[0]) + AllTokens(ps[1..])
  }

  function Prefixed(ts: seq<ShToken>, r: Option<seq<ShToken>>): Option<seq<ShToken>> {
    match r
    case Some(us) => Some(ts + us)
    case None => None
  }

  lemma PrefixedTwice(a: seq<ShToken>, b: seq<ShToken>, r: Option<seq<ShToken>>)
    ensures Prefixed(a, Prefixed(b, r)) == Prefixed(a + b, r)
  {
    if r.Some? {
      Assoc(a, b, r.value);
    }
  }

  lemma PrefixedOne(t: ShToken, r: Option<seq<ShToken>>)
    ensures Then(t, r) == Prefixed([t], r)
  {
  }

  /** A word with a blank or nothing after it is read as one word. */
  lemma WholeWord(raw: string, text: string, rest: string)
    requires raw != "" && !MetaChar(raw[0]) && raw[0] != '#' && raw[0] != '~' && Ended(rest)
    requires ReadShWord(raw + rest) == Some((text, rest))
    ensures ReadSh(raw + rest) == Prefixed([ShWord(text)], ReadSh(rest))
  {
    assert (raw + rest)[0] == raw[0];
    PrefixedOne(ShWord(text), ReadSh(rest));
  }

  lemma ArgumentReads(text: string, rest: string)
    requires Ended(rest)
    ensures ReadSh(Quote(text) + rest) == Prefixed([ShWord(text)], ReadSh(rest))
  {
    QuoteReads(text, rest);
    QuoteForms(text);
    WholeWord(Quote(text), text, rest);
  }

  /** Safe characters in front of a word belong to it. */
  lemma {:induction false} SafePrefix(w: string, tail: string)
    requires AllSafe(w)
    ensures ReadShWord(w + tail) == Push(w, ReadShWord(tail))
  {
    if w == "" {
      Nothing(tail);
      PushNothing(ReadShWord(tail));
    } else {
      SafePrefix(w[1..], tail);
      Uncons(w, tail);
      Drop1(w[0], w[1..] + tail);
      PushTwice(w, ReadShWord(tail));
    }
  }

  lemma PushNothing(r: Option<(string, string)>)
    ensures Push("", r) == r
  {
    if r.Some? {
      Nothing(r.value.0);
    }
  }

  lemma PushTwice(w: string, r: Option<(string, string)>)
    requires w != ""
    ensures Push([w[0]], Push(w[1..], r)) == Push(w, r)
  {
    if r.Some? {
      Uncons(w, r.value.0);
    }
  }

  lemma AssignedReads(name: string, value: string, rest: string)
    requires name != "" && NameLen(name) == |name| && Ended(rest)
    ensures ReadSh(name + "=" + Quote(value) + rest) == Prefixed([ShWord(name + "=" + value)], ReadSh(rest))
  {
    NameChars(name);
    var front := name + "=";
    Assoc(front, Quote(value), rest);
    SafePrefix(front, Quote(value) + rest);
    QuoteReads(value, rest);
    WholeWord(front + Quote(value), front + value, rest);
  }

  lemma DigitsSafe(ds: string)
    requires AllDigits(ds)
    ensures AllSafe(ds)
  {
  }

  /** Digits right before a redirection operator are a descriptor number. */
  lemma IoReads(ds: string, t: string)
    requires ds != "" && AllDigits(ds) && t != "" && (t[0] == '<' || t[0] == '>')
    ensures ReadSh(ds + t) == Then(ShIo(ds), ReadSh(t))
  {
    DigitsSafe(ds);
    SafePrefix(ds, t);
    Nothing(ds);
    assert (ds + t)[0] == ds[0];
    assert (ds + t)[..|ds|] == ds;
  }

  predicate FileOp(op: string) {
    op == "<" || op == ">" || op == ">>"
  }

  lemma OpReads(op: string, t: string)
    requires (FileOp(op) && t != "" && t[0] == ' ') || (op == ">&" && t != "" && IsDigit(t[0]))
    ensures ReadSh(op + t) == Then(ShOp(op), ReadSh(t))
  {
    var s := op + t;
    assert s[0] == op[0] && s[|op|] == t[0];
    if |op| == 2 {
      assert s[1] == op[1];
    }
    assert s[..|op|] == op && s[|op|..] == t;
  }

  lemma BlankReads(t: string)
    ensures ReadSh(" " + t) == ReadSh(t)
  {
    Drop1(' ', t);
  }

  lemma FileReads(ds: string, op: string, target: string, rest: string)
    requires ds != "" && AllDigits(ds) && FileOp(op) && Ended(rest)
    ensures ReadSh(ds + (op + (" " + (Quote(target) + rest))))
         == Prefixed([ShIo(ds), ShOp(op), ShWord(target)], ReadSh(rest))
  {
    ArgumentReads(target, rest);
    BlankReads(Quote(target) + rest);
    OpReads(op, " " + (Quote(target) + rest));
    assert (op + (" " + (Quote(target) + rest)))[0] == op[0];
    IoReads(ds, op + (" " + (Quote(target) + rest)));
    ThreeTokens(ShIo(ds), ShOp(op), ShWord(target), ReadSh(rest));
  }

  lemma ThreeTokens(a: ShToken, b: ShToken, c: ShToken, r: Option<seq<ShToken>>)
    ensures Then(a, Then(b, Prefixed([c], r))) == Prefixed([a, b, c], r)
  {
    if r.Some? {
      assert [a] + ([b] + ([c] + r.value)) == [a, b, c] + r.value;
    }
  }

  lemma MergeReads(a: char, b: char, rest: string)
    requires IsDigit(a) && IsDigit(b) && Ended(rest)
    ensures ReadSh([a] + (">&" + ([b] + rest))) == Prefixed([ShIo([a]), ShOp(">&"), ShWord([b])], ReadSh(rest))
  {
    SafeRead([b], rest);
    WholeWord([b], [b], rest);
    OpReads(">&", [b] + rest);
    IoReads([a], ">&" + ([b] + rest));
    ThreeTokens(ShIo([a]), ShOp(">&"), ShWord([b]), ReadSh(rest));
  }

  lemma Decimals()
    ensures Decimal(0) == "0" && Decimal(1) == "1" && Decimal(2) == "2"
  {
  }

  /** The text of a redirect to a file, taken apart where the shell takes it apart. */
  lemma FileText(spec: RedirectSpec, rest: string)
    requires ParsedRedirect(spec) && !IsMerge(spec.op)
    ensures FileOp(PlainOp(spec.op)) && ReadFd(spec) != "" && AllDigits(ReadFd(spec))
    ensures RedirectText(spec) + rest == ReadFd(spec) + (PlainOp(spec.op) + (" " + (Quote(spec.target) + rest)))
  {
    Decimals();
    var q := Quote(spec.target);
    var fd := FdText(spec.fd);
    assert spec.op == (if spec.op == "2>" || spec.op == "2>>" then "2" else "") + PlainOp(spec.op);
    Assoc(fd + spec.op + " ", q, rest);
    Assoc(fd + spec.op, " ", q + rest);
    Assoc(fd, ReadFd(spec)[|fd|..], PlainOp(spec.op));
    Assoc(ReadFd(spec), PlainOp(spec.op), " " + (q + rest));
    assert fd + spec.op == ReadFd(spec) + PlainOp(spec.op);
  }

  lemma MergeText(a: char, b: char, rest: string)
    ensures [a] + ">&" + [b] + rest == [a] + (">&" + ([b] + rest))
  {
    Assoc([a] + ">&", [b], rest);
    Assoc([a], ">&", [b] + rest);
  }

  lemma RedirectReads(spec: RedirectSpec, rest: string)
    requires ParsedRedirect(spec) && Ended(rest)
    ensures ReadSh(RedirectText(spec) + rest) == Prefixed(PieceTokens(Redirected(spec)), ReadSh(rest))
  {
    if spec.op == "1>&2" {
      MergeReads('1', '2', rest);
      MergeText('1', '2', rest);
      assert "1" + ">&" + "2" == "1>&2";
    } else if spec.op == "2>&1" {
      MergeReads('2', '1', rest);
      MergeText('2', '1', rest);
      assert "2" + ">&" + "1" == "2>&1";
    } else {
      FileText(spec, rest);
      FileReads(ReadFd(spec), PlainOp(spec.op), spec.target, rest);
    }
  }

  lemma PieceReads(p: Piece, rest: string)
    requires GoodPiece(p) && Ended(rest)
    ensures ReadSh(PieceText(p) + rest) == Prefixed(PieceTokens(p), ReadSh(rest))
  {
    match p
    case Assigned(name, value) => AssignedReads(name, value, rest);
    case Argument(text) => ArgumentReads(text, rest);
    case Redirected(spec) => RedirectReads(spec, rest);
  }

  predicate GoodPieces(ps: seq<Piece>) {
    forall i :: 0 <= i < |ps| ==> GoodPiece(ps[i])
  }

  lemma {:induction false} PiecesRead(ps: seq<Piece>, rest: string)
    requires GoodPieces(ps) && ps != [] && Ended(rest)
    ensures ReadSh(JoinWith(PieceTexts(ps), " ") + rest) == Prefixed(AllTokens(ps), ReadSh(rest))
    decreases |ps|
  {
    if |ps| == 1 {
      assert AllTokens(ps[1..]) == [] && PieceTexts(ps[1..]) == [];
      PieceReads(ps[0], rest);
      Nothing(PieceTokens(ps[0]));
    } else {
      var more := JoinWith(PieceTexts(ps[1..]), " ");
      PiecesRead(ps[1..], rest);
      BlankReads(more + rest);
      Assoc(" ", more, rest);
      PieceReads(ps[0], " " + more + rest);
      Assoc(PieceText(ps[0]), " " + more, rest);
      PrefixedTwice(PieceTokens(ps[0]), AllTokens(ps[1..]), ReadSh(rest));
    }
  }

  lemma PiecesGood(c: CommandNode, env: Env)
    requires ParsedCommand(c)
    ensures GoodPieces(Pieces(c, env))
    ensures Resolve(c.argv, env) != [] ==> Pieces(c, env) != []
  {
    AssignPiecesGood(c.assignments);
    ArgPiecesGood(Resolve(c.argv, env));
    RedirectPiecesGood(c.redirects);
  }

  lemma AssignPiecesGood(assignments: seq<(string, string)>)
    requires forall i :: 0 <= i < |assignments| ==> ParsedAssignment(assignments[i])
    ensures GoodPieces(AssignPieces(assignments))
  {
  }

  lemma ArgPiecesGood(words: seq<string>)
    ensures GoodPieces(ArgPieces(words)) && |ArgPieces(words)| == |words|
  {
  }

  lemma RedirectPiecesGood(redirects: seq<RedirectSpec>)
    requires forall i :: 0 <= i < |redirects| ==> ParsedRedirect(redirects[i])
    ensures GoodPieces(RedirectPieces(redirects))
  {
  }

  /** The tokens the commands stand for, with a bar between them. */
  function PipelineTokens(cs: seq<CommandNode>, env: Env): seq<ShToken> {
    if cs == [] then []
    else if |cs| == 1 then AllTokens(Pieces(cs[0], env))
    else AllTokens(Pieces(cs[0], env)) + ([ShOp("|")] + PipelineTokens(cs[1..], env))
  }

  lemma BarOp(t: string)
    ensures ReadSh("|" + (" " + t)) == Then(ShOp("|"), ReadSh(" " + t))
  {
    var s := "|" + (" " + t);
    Drop1('|', " " + t);
    assert s[0] == '|' && s[1] == ' ' && s[..1] == "|";
  }

  lemma BarReads(t: string)
    ensures ReadSh(" | " + t) == Then(ShOp("|"), ReadSh(t))
  {
    assert " | " == " " + ("|" + " ");
    Assoc(" ", "|" + " ", t);
    Assoc("|", " ", t);
    BlankReads("|" + (" " + t));
    BarOp(t);
    BlankReads(t);
  }

  lemma {:induction false} CommandsRead(cs: seq<CommandNode>, env: Env)
    requires cs != [] && forall i :: 0 <= i < |cs| ==> ParsedCommand(cs[i]) && Resolve(cs[i].argv, env) != []
    ensures ReadSh(JoinWith(Rendered(cs, env), " | ")) == Some(PipelineTokens(cs, env))
    decreases |cs|
  {
    var ps := Pieces(cs[0], env);
    PiecesGood(cs[0], env);
    if |cs| == 1 {
      PiecesRead(ps, "");
      Nothing(RenderCommand(cs[0], env));
      Nothing(AllTokens(ps));
      assert Rendered(cs[1..], env) == [];
    } else {
      var more := JoinWith(Rendered(cs[1..], env), " | ");
      CommandsRead(cs[1..], env);
      BarReads(more);
      PiecesRead(ps, " | " + more);
      assert Rendered(cs, env)[1..] == Rendered(cs[1..], env);
    }
  }

  /**
   * The shell reads back from the payload of any parsed pipeline its assignments, its non-empty
   * expanded words, its bars, and its redirects with the descriptors `ReadFd` gives.
   */
  lemma PayloadReads(p: PipelineNode, env: Env)
    requires ParsedPipeline(p) && PipelinePayload(p, env).Some?
    ensures ReadSh(PipelinePayload(p, env).value) == Some(PipelineTokens(p.commands, env))
  {
    CommandsRead(p.commands, env);
  }

  /** The shell tokens of one redirect. */
  function RedirectTokens(r: RedirectSpec): seq<ShToken> {
    if r.op == "1>&2" then [ShIo("1"), ShOp(">&"), ShWord("2")]
    else if r.op == "2>&1" then [ShIo("2"), ShOp(">&"), ShWord("1")]
    else if r.op == "2>" then [ShIo("22"), ShOp(">"), ShWord(r.target)]
    else if r.op == "2>>" then [ShIo("22"), ShOp(">>"), ShWord(r.target)]
    else if r.op == "<" then [ShIo("0"), ShOp("<"), ShWord(r.target)]
    else [ShIo("1"), ShOp(r.op), ShWord(r.target)]
  }

  lemma RedirectPieceIs(r: RedirectSpec)
    requires ParsedRedirect(r)
    ensures PieceTokens(Redirected(r)) == RedirectTokens(r)
  {
    Decimals();
    if !IsMerge(r.op) {
      DescriptorDiffers(r);
      FdText01(r);
    }
  }

  lemma FdText01(r: RedirectSpec)
    requires ParsedRedirect(r) && !IsMerge(r.op)
    ensures FdText(r.fd) == if r.op == "<" then "0" else if r.op == ">" || r.op == ">>" then "1" else "2"
  {
    Decimals();
  }

  lemma {:induction false} AssignTokensAre(assignments: seq<(string, string)>, i: nat)
    requires i < |assignments|
    ensures |AllTokens(AssignPieces(assignments))| == |assignments|
    ensures AllTokens(AssignPieces(assignments))[i] == ShWord(assignments[i].0 + "=" + assignments[i].1)
  {
    if |assignments| > 1 {
      AssignTokensAre(assignments[1..], if i > 0 then i - 1 else 0);
    } else {
      assert AssignPieces(assignments)[1..] == [];
    }
  }

  lemma {:induction false} ArgTokensAre(words: seq<string>, i: nat)
    requires i < |words|
    ensures |AllTokens(ArgPieces(words))| == |words|
    ensures AllTokens(ArgPieces(words))[i] == ShWord(words[i])
  {
    if |words| > 1 {
      ArgTokensAre(words[1..], if i > 0 then i - 1 else 0);
    } else {
      assert ArgPieces(words)[1..] == [];
    }
  }

  lemma {:induction false} RedirectTokensAre(rs: seq<RedirectSpec>, i: nat)
    requires i < |rs| && forall j :: 0 <= j < |rs| ==> ParsedRedirect(rs[j])
    ensures |AllTokens(RedirectPieces(rs))| == 3 * |rs|
    ensures AllTokens(RedirectPieces(rs))[3 * i..3 * i + 3] == RedirectTokens(rs[i])
  {
    RedirectPieceIs(rs[0]);
    if |rs| > 1 {
      RedirectTokensAre(rs[1..], if i > 0 then i - 1 else 0);
    } else {
      assert RedirectPieces(rs)[1..] == [];
    }
  }

  lemma {:induction false} TokensConcat(a: seq<Piece>, b: seq<Piece>)
    ensures AllTokens(a + b) == AllTokens(a) + AllTokens(b)
  {
    if a == [] {
      Nothing(b);
      Nothing(AllTokens(b));
    } else {
      Uncons(a, b);
      TokensConcat(a[1..], b);
      Assoc(PieceTokens(a[0]), AllTokens(a[1..]), AllTokens(b));
    }
  }

  /** Tokens place by place: each assignment, each word, and three tokens for each redirect, in this order
      and nothing else. */
  predicate LaidOut(ts: seq<ShToken>, assignments: seq<(string, string)>, words: seq<string>, rs: seq<RedirectSpec>) {
    && |ts| == |assignments| + |words| + 3 * |rs|
    && (forall i :: 0 <= i < |assignments| ==> ts[i] == ShWord(assignments[i].0 + "=" + assignments[i].1))
    && (forall i :: 0 <= i < |words| ==> ts[|assignments| + i] == ShWord(words[i]))
    && (forall i :: 0 <= i < |rs| ==> RedirectAt(ts, |assignments| + |words| + 3 * i, rs[i]))
  }

  predicate RedirectAt(ts: seq<ShToken>, at: nat, r: RedirectSpec) {
    at + 3 <= |ts| && ts[at..at + 3] == RedirectTokens(r)
  }

  /** What the shell is given of a command: its assignments, its words that expand to something and its
      redirects. */
  lemma CommandTokensAre(c: CommandNode, env: Env)
    requires ParsedCommand(c)
    ensures LaidOut(AllTokens(Pieces(c, env)), c.assignments, Resolve(c.argv, env), c.redirects)
  {
    var words := Resolve(c.argv, env);
    PiecesTokens(c, env);
    var x, y := AllTokens(AssignPieces(c.assignments)), AllTokens(ArgPieces(words));
    var z := AllTokens(RedirectPieces(c.redirects));
    AssignsLaid(c.assignments);
    WordsLaid(words);
    RedirectsLaid(c.redirects);
    LayTogether(x, y, z, c.assignments, words, c.redirects);
  }

  lemma AssignsLaid(assignments: seq<(string, string)>)
    ensures LaidOut(AllTokens(AssignPieces(assignments)), assignments, [], [])
  {
    forall i | 0 <= i < |assignments|
      ensures |AllTokens(AssignPieces(assignments))| == |assignments|
      ensures AllTokens(AssignPieces(assignments))[i] == ShWord(assignments[i].0 + "=" + assignments[i].1)
    {
      AssignTokensAre(assignments, i);
    }
  }

  lemma WordsLaid(words: seq<string>)
    ensures LaidOut(AllTokens(ArgPieces(words)), [], words, [])
  {
    forall i | 0 <= i < |words|
      ensures |AllTokens(ArgPieces(words))| == |words| && AllTokens(ArgPieces(words))[i] == ShWord(words[i])
    {
      ArgTokensAre(words, i);
    }
  }

  lemma RedirectsLaid(rs: seq<RedirectSpec>)
    requires forall j :: 0 <= j < |rs| ==> ParsedRedirect(rs[j])
    ensures LaidOut(AllTokens(RedirectPieces(rs)), [], [], rs)
  {
    var ts := AllTokens(RedirectPieces(rs));
    forall i | 0 <= i < |rs| ensures |ts| == 3 * |rs| && RedirectAt(ts, 3 * i, rs[i]) {
      RedirectTokensAre(rs, i);
    }
  }

  lemma LayTogether(x: seq<ShToken>, y: seq<ShToken>, z: seq<ShToken>, assignments: seq<(string, string)>,
                    words: seq<string>, rs: seq<RedirectSpec>)
    requires LaidOut(x, assignments, [], []) && LaidOut(y, [], words, []) && LaidOut(z, [], [], rs)
    ensures LaidOut(x + y + z, assignments, words, rs)
  {
    var ts := x + y + z;
    forall i | 0 <= i < |words| ensures ts[|assignments| + i] == ShWord(words[i]) {
      assert y[i] == ShWord(words[i]);
    }
    forall i | 0 <= i < |rs| ensures RedirectAt(ts, |assignments| + |words| + 3 * i, rs[i]) {
      assert RedirectAt(z, 3 * i, rs[i]);
      var at := |assignments| + |words| + 3 * i;
      assert ts[at..at + 3] == z[3 * i..3 * i + 3];
    }
  }

  lemma PiecesTokens(c: CommandNode, env: Env)
    ensures AllTokens(Pieces(c, env))
            == AllTokens(AssignPieces(c.assignments)) + AllTokens(ArgPieces(Resolve(c.argv, env)))
               + AllTokens(RedirectPieces(c.redirects))
  {
    var a, w, r := AssignPieces(c.assignments), ArgPieces(Resolve(c.argv, env)), RedirectPieces(c.redirects);
    TokensConcat(a + w, r);
    TokensConcat(a, w);
  }

  /** Between two commands of a pipeline there is a bar. */
  lemma PipelineTokensAre(c: CommandNode, d: CommandNode, env: Env)
    ensures PipelineTokens([c], env) == AllTokens(Pieces(c, env))
    ensures PipelineTokens([c, d], env) == AllTokens(Pieces(c, env)) + ([ShOp("|")] + AllTokens(Pieces(d, env)))
  {
    assert [c, d][1..] == [d] && [c][1..] == [];
    Nothing(AllTokens(Pieces(c, env)));
  }

  /** The shell reads a rendered redirect with its operator, its target and the descriptor the
      command asked for, if and only if its operator does not name a descriptor itself; otherwise
      it reads the descriptor 22. */
  lemma DescriptorKeptIff(spec: RedirectSpec)
    requires ParsedRedirect(spec) && !IsMerge(spec.op)
    ensures ReadSh(RedirectText(spec)) == Some([ShIo(FdText(spec.fd)), ShOp(PlainOp(spec.op)), ShWord(spec.target)])
            <==> spec.op != "2>" && spec.op != "2>>"
    ensures spec.op == "2>" || spec.op == "2>>" ==>
      ReadSh(RedirectText(spec)) == Some([ShIo("22"), ShOp(PlainOp(spec.op)), ShWord(spec.target)])
  {
    Decimals();
    var none := "";
    assert ReadSh(none) == Some([]);
    RedirectReads(spec, none);
    Nothing(RedirectText(spec));
    Nothing(PieceTokens(Redirected(spec)));
    assert PieceTokens(Redirected(spec)) == [ShIo(ReadFd(spec)), ShOp(PlainOp(spec.op)), ShWord(spec.target)];
    DescriptorDiffers(spec);
  }

  lemma DescriptorDiffers(spec: RedirectSpec)
    requires ParsedRedirect(spec) && !IsMerge(spec.op)
    ensures ReadFd(spec) == FdText(spec.fd) <==> spec.op != "2>" && spec.op != "2>>"
    ensures spec.op == "2>" || spec.op == "2>>" ==> ReadFd(spec) == "22"
  {
    Decimals();
  }

  lemma ResolveStep(argv: seq<seq<WordPart>>, i: nat, env: Env)
    requires i < |argv|
    ensures Resolve(argv[i..], env) == Kept(Expand(argv[i], env)) + Resolve(argv[i + 1..], env)
  {
    Drop2(argv, i, 1);
  }

  method ResolveArgv(argv: seq<seq<WordPart>>, env: Env) returns (words: seq<string>)
    ensures words == Resolve(argv, env)
  {
    words := [];
    Nothing(Resolve(argv, env));
    for i := 0 to |argv|
      invariant words + Resolve(argv[i..], env) == Resolve(argv, env)
    {
      var text := WordReader.ExpandWord(argv[i], env);
      ResolveStep(argv, i, env);
      Assoc(words, Kept(text), Resolve(argv[i + 1..], env));
      words := words + Kept(text);
    }
    Nothing(words);
  }

  lemma TextsConcat(a: seq<Piece>, b: seq<Piece>)
    ensures PieceTexts(a + b) == PieceTexts(a) + PieceTexts(b)
  {
    if a == [] {
      Nothing(b);
      Nothing(PieceTexts(b));
    } else {
      TextsConcat(a[1..], b);
      Uncons(a, b);
      Assoc([PieceText(a[0])], PieceTexts(a[1..]), PieceTexts(b));
    }
  }

  lemma RedirectStep(redirects: seq<RedirectSpec>, i: nat, parts: seq<string>)
    requires i < |redirects|
    ensures parts + PieceTexts(RedirectPieces(redirects[i..]))
         == parts + [RedirectText(redirects[i])] + PieceTexts(RedirectPieces(redirects[i + 1..]))
  {
    Drop2(redirects, i, 1);
    Assoc(parts, [RedirectText(redirects[i])], PieceTexts(RedirectPieces(redirects[i + 1..])));
  }

  lemma AssignStep(assignments: seq<(string, string)>, i: nat, parts: seq<string>)
    requires i < |assignments|
    ensures var text := assignments[i].0 + "=" + Quote(assignments[i].1);
      parts + PieceTexts(AssignPieces(assignments[i..]))
      == parts + [text] + PieceTexts(AssignPieces(assignments[i + 1..]))
  {
    Drop2(assignments, i, 1);
    var text := assignments[i].0 + "=" + Quote(assignments[i].1);
    Assoc(parts, [text], PieceTexts(AssignPieces(assignments[i + 1..])));
  }

  lemma ArgStep(words: seq<string>, i: nat, parts: seq<string>)
    requires i < |words|
    ensures parts + PieceTexts(ArgPieces(words[i..]))
         == parts + [Quote(words[i])] + PieceTexts(ArgPieces(words[i + 1..]))
  {
    Drop2(words, i, 1);
    Assoc(parts, [Quote(words[i])], PieceTexts(ArgPieces(words[i + 1..])));
  }

  method AssignParts(assignments: seq<(string, string)>) returns (parts: seq<string>)
    ensures parts == PieceTexts(AssignPieces(assignments))
  {
    parts := [];
    Nothing(PieceTexts(AssignPieces(assignments)));
    for i := 0 to |assignments|
      invariant parts + PieceTexts(AssignPieces(assignments[i..])) == PieceTexts(AssignPieces(assignments))
    {
      AssignStep(assignments, i, parts);
      parts := parts + [assignments[i].0 + "=" + Quote(assignments[i].1)];
    }
    Nothing(parts);
  }

  method ArgParts(words: seq<string>) returns (parts: seq<string>)
    ensures parts == PieceTexts(ArgPieces(words))
  {
    parts := [];
    Nothing(PieceTexts(ArgPieces(words)));
    for i := 0 to |words|
      invariant parts + PieceTexts(ArgPieces(words[i..])) == PieceTexts(ArgPieces(words))
    {
      ArgStep(words, i, parts);
      parts := parts + [Quote(words[i])];
    }
    Nothing(parts);
  }

  method RedirectParts(redirects: seq<RedirectSpec>) returns (parts: seq<string>)
    ensures parts == PieceTexts(RedirectPieces(redirects))
  {
    parts := [];
    Nothing(PieceTexts(RedirectPieces(redirects)));
    for i := 0 to |redirects|
      invariant parts + PieceTexts(RedirectPieces(redirects[i..])) == PieceTexts(RedirectPieces(redirects))
    {
      RedirectStep(redirects, i, parts);
      var r := redirects[i];
      if r.op == "1>&2" || r.op == "2>&1" {
        parts := parts + [r.op];
      } else {
        parts := parts + [FdText(r.fd) + r.op + " " + Quote(r.target)];
      }
    }
    Nothing(parts);
  }

  method RenderNode(c: CommandNode, env: Env) returns (text: string)
    ensures text == RenderCommand(c, env)
  {
    var assigns := AssignParts(c.assignments);
    var words := ResolveArgv(c.argv, env);
    var args := ArgParts(words);
    var redirects := RedirectParts(c.redirects);
    TextsConcat(AssignPieces(c.assignments) + ArgPieces(words), RedirectPieces(c.redirects));
    TextsConcat(AssignPieces(c.assignments), ArgPieces(words));
    text := JoinWith(assigns + args + redirects, " ");
  }

  lemma RenderStep(cs: seq<CommandNode>, i: nat, env: Env, rendered: seq<string>)
    requires i < |cs|
    ensures rendered + Rendered(cs[i..], env)
         == rendered + [RenderCommand(cs[i], env)] + Rendered(cs[i + 1..], env)
  {
    Drop2(cs, i, 1);
    Assoc(rendered, [RenderCommand(cs[i], env)], Rendered(cs[i + 1..], env));
  }

  /** The loop that renders the stages; it stops at the first one without executable words. */
  method BuildPayload(p: PipelineNode, env: Env) returns (payload: Option<string>)
    ensures payload == PipelinePayload(p, env)
  {
    var rendered: seq<string> := [];
    Nothing(Rendered(p.commands, env));
    for i := 0 to |p.commands|
      invariant rendered + Rendered(p.commands[i..], env) == Rendered(p.commands, env)
      invariant forall j :: 0 <= j < i ==> Resolve(p.commands[j].argv, env) != []
    {
      var argv := ResolveArgv(p.commands[i].argv, env);
      if argv == [] {
        return None;
      }
      var text := RenderNode(p.commands[i], env);
      RenderStep(p.commands, i, env, rendered);
      rendered := rendered + [text];
    }
    Nothing(rendered);
    payload := Some(JoinWith(rendered, " | "));
  }
}
