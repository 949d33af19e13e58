/** Printing a program back to text, and what the lexer makes of the printed text. */
module CommandPrinter {
  import opened Wrappers
  import opened Seqs
  import opened ShellQuote
  import opened Lexer
  import opened PrintedWords

  function TokenText(t: Token): string {
    match t
    case Word(raw) => raw
    case Operator(op) => OpText(op)
  }

  /** Tokens with one blank between them. */
  function Render(ts: seq<Token>): string
    decreases |ts|, 0
  {
    if ts == [] then "" else TokenText(ts[0]) + RenderRest(ts[1..])
  }

  function RenderRest(ts: seq<Token>): string
    decreases |ts|, 1
  {
    if ts == [] then "" else " " + Render(ts)
  }

  /** A printed word is safe as it stands, or in quotes. */
  ghost predicate Printed(t: Token) {
    t.Word? ==> (t.raw != "" && AllSafe(t.raw)) || exists s :: t.raw == Open("", s)
  }

  lemma QuoteIsPrinted(s: string)
    ensures Printed(Word(Quote(s)))
  {
    QuoteForms(s);
    Nothing("'");
    assert Open("", s) == "'" + Escape(s) + "'";
  }

  lemma Unroll(k: nat, s: string)
    requires k < |OPERATORS|
    ensures FirstOp(OPERATORS[k..], s)
         == if StartsWith(s, OpText(OPERATORS[k])) then Some(OPERATORS[k]) else FirstOp(OPERATORS[k + 1..], s)
  {
    Drop2(OPERATORS, k, 1);
  }

  /** The longest-match list, entry by entry. */
  function OpChain(s: string): Option<Op> {
    if StartsWith(s, "2>>") then Some(DGreatErr)
    else if StartsWith(s, "2>&1") then Some(GreatAndErr)
    else if StartsWith(s, "2>") then Some(GreatErr)
    else if StartsWith(s, "1>&2") then Some(GreatAndOut)
    else if StartsWith(s, ">>") then Some(DGreat)
    else if StartsWith(s, ">") then Some(Great)
    else if StartsWith(s, "<") then Some(Less)
    else if StartsWith(s, "||") then Some(OrIf)
    else if StartsWith(s, "&&") then Some(AndIf)
    else if StartsWith(s, "|") then Some(Pipe)
    else if StartsWith(s, ";") then Some(Semi)
    else None
  }

  lemma OpAtIsChain(s: string)
    ensures OpAt(s) == OpChain(s)
  {
    assert OPERATORS[0..] == OPERATORS && OPERATORS[11..] == [];
    Unroll(0, s); Unroll(1, s); Unroll(2, s); Unroll(3, s); Unroll(4, s); Unroll(5, s);
    Unroll(6, s); Unroll(7, s); Unroll(8, s); Unroll(9, s); Unroll(10, s);
  }

  lemma PrefixChar(s: string, p: string, i: nat)
    requires i < |p|
    ensures StartsWith(s, p) ==> i < |s| && s[i] == p[i]
  {
    if StartsWith(s, p) {
      assert s[..|p|][i] == s[i];
    }
  }

  lemma PrefixHolds(p: string, rest: string)
    ensures StartsWith(p + rest, p)
  {
  }

  /** An operator that nothing but a blank follows is read as itself. */
  lemma OpAlone(op: Op, rest: string)
    requires Ended(rest)
    ensures OpAt(OpText(op) + rest) == Some(op)
  {
    var s := OpText(op) + rest;
    OpAtIsChain(s);
    PrefixHolds(OpText(op), rest);
    PrefixChar(s, "2>>", 0); PrefixChar(s, "2>>", 2);
    PrefixChar(s, "2>&1", 0); PrefixChar(s, "2>&1", 2);
    PrefixChar(s, "2>", 0); PrefixChar(s, "1>&2", 0);
    PrefixChar(s, ">>", 0); PrefixChar(s, ">>", 1); PrefixChar(s, ">", 0); PrefixChar(s, "<", 0);
    PrefixChar(s, "||", 0); PrefixChar(s, "||", 1); PrefixChar(s, "&&", 0); PrefixChar(s, "|", 0);
    assert forall i :: 0 <= i < |OpText(op)| ==> s[i] == OpText(op)[i];
    assert |s| > |OpText(op)| ==> s[|OpText(op)|] == ' ';
  }

  lemma WordToken(raw: string, rest: string)
    requires raw != "" && raw[0] != '$' && LexWord(raw + rest) == Ok(Lexed(raw, rest))
    ensures Tokenize(raw + rest) == Cons(Word(raw), Tokenize(rest))
  {
    assert (raw + rest)[0] == raw[0];
    assert WordStep(raw + rest).Take?;
  }

  lemma OpToken(op: Op, rest: string)
    requires Ended(rest)
    ensures Tokenize(OpText(op) + rest) == Cons(Operator(op), Tokenize(rest))
  {
    var s := OpText(op) + rest;
    OpAlone(op, rest);
    assert s[|OpText(op)|..] == rest;
    assert s[0] == OpText(op)[0] && OpChar(s[0]);
    if op == AndIf {
      assert s[1] == '&';
    }
  }

  lemma TokenReads(t: Token, rest: string)
    requires Printed(t) && Ended(rest)
    ensures Tokenize(TokenText(t) + rest) == Cons(t, Tokenize(rest))
  {
    match t
    case Operator(op) => OpToken(op, rest);
    case Word(raw) =>
      if raw != "" && AllSafe(raw) {
        EndedEnds(raw, rest);
        SafeLex(raw, rest);
      } else {
        var s :| raw == Open("", s);
        QuotedLex("", s, rest);
      }
      EndedEnds(raw, rest);
      WordAlone(raw, rest);
      WordToken(raw, rest);
  }

  lemma BlankSkipped(text: string)
    ensures Tokenize(" " + text) == Tokenize(text)
  {
    assert (" " + text)[1..] == text;
  }

  /** The lexer reads a rendered token list back. */
  lemma {:induction false} LexRendered(ts: seq<Token>)
    requires forall i :: 0 <= i < |ts| ==> Printed(ts[i])
    ensures Tokenize(Render(ts)) == Ok(ts)
    ensures Ended(RenderRest(ts)) && Tokenize(RenderRest(ts)) == Ok(ts)
    decreases |ts|
  {
    if ts != [] {
      var rest := RenderRest(ts[1..]);
      LexRendered(ts[1..]);
      TokenReads(ts[0], rest);
      BlankSkipped(Render(ts));
      Uncons(ts, []);
    }
  }

  function Followed(ts: seq<Token>, r: Result<seq<Token>, Error>): Result<seq<Token>, Error> {
    match r
    case Ok(us) => Ok(ts + us)
    case Err(e) => Err(e)
  }

  lemma FollowedCons(t: Token, ts: seq<Token>, r: Result<seq<Token>, Error>)
    ensures Cons(t, Followed(ts, r)) == Followed([t] + ts, r)
  {
    if r.Ok? { Assoc([t], ts, r.value); }
  }

  lemma {:induction false} LexBefore(ts: seq<Token>, rest: string)
    requires (forall i :: 0 <= i < |ts| ==> Printed(ts[i])) && Ended(rest)
    ensures Ended(RenderRest(ts) + rest) && Tokenize(RenderRest(ts) + rest) == Followed(ts, Tokenize(rest))
    decreases |ts|
  {
    if ts == [] {
      Nothing(rest);
      if Tokenize(rest).Ok? { Nothing(Tokenize(rest).value); }
    } else {
      var after := RenderRest(ts[1..]);
      LexBefore(ts[1..], rest);
      TokenReads(ts[0], after + rest);
      Assoc(TokenText(ts[0]), after, rest);
      Assoc(" ", Render(ts), rest);
      BlankSkipped(Render(ts) + rest);
      FollowedCons(ts[0], ts[1..], Tokenize(rest));
      Uncons(ts, []);
    }
  }

  /** A comment ends the whole command: the lines after it, and any commands on them, are not
      read. */
  lemma CommentEndsCommand(ts: seq<Token>, more: string)
    requires forall i :: 0 <= i < |ts| ==> Printed(ts[i])
    ensures Tokenize(RenderRest(ts) + (" #" + more)) == Ok(ts)
  {
    var rest := " #" + more;
    assert rest[0] == ' ' && rest[1..] == "#" + more;
    LexBefore(ts, rest);
    Nothing(ts);
  }

  lemma {:induction false} RenderConcat(a: seq<Token>, b: seq<Token>)
    requires a != [] && b != []
    ensures Render(a + b) == Render(a) + (" " + Render(b))
    decreases |a|
  {
    Uncons(a, b);
    if |a| == 1 {
      assert a[1..] == [];
      Nothing(b);
      Nothing(TokenText(a[0]));
    } else {
      RenderConcat(a[1..], b);
      Assoc(" ", Render(a[1..]), " " + Render(b));
      Assoc(TokenText(a[0]), RenderRest(a[1..]), " " + Render(b));
    }
  }

  lemma RenderOp(op: Op, b: seq<Token>)
    requires b != []
    ensures Render([Operator(op)] + b) == OpText(op) + (" " + Render(b))
  {
    RenderConcat([Operator(op)], b);
    assert [Operator(op)][1..] == [];
    Nothing(OpText(op));
  }
}
