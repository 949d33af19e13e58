/** The loops that cut raw text into parts and that expand a word, proved against `WordParts`. */
module WordReader {
  import opened Lexer
  import opened Seqs
  import opened WordParts
  import Tokenizer

  method ExpandWord(parts: seq<WordPart>, env: Env) returns (text: string)
    ensures text == Expand(parts, env)
  {
    text := "";
    for i := 0 to |parts|
      invariant text + Expand(parts[i..], env) == Expand(parts, env)
    {
      assert parts[i..][0] == parts[i] && parts[i..][1..] == parts[i + 1..];
      var piece := parts[i].text;
      if parts[i].kind == Var {
        var name := Strip(parts[i].text);
        piece := if name in env then env[name] else "";
      }
      Assoc(text, piece, Expand(parts[i + 1..], env));
      text := text + piece;
    }
  }

  lemma NameTailLocal(s: string, k: nat)
    requires k <= |s| && (k == |s| || !NameChar(s[k]))
    ensures NameTail(s[..k]) == NameTail(s) <= k
  {
    if k > 0 && NameChar(s[0]) {
      assert s[..k][1..] == s[1..][..k - 1];
      NameTailLocal(s[1..], k - 1);
    }
  }

  lemma NameLenLocal(s: string, k: nat)
    requires k <= |s| && (k == |s| || !NameChar(s[k]))
    ensures NameLen(s[..k]) == NameLen(s) <= k
  {
    if k > 0 && NameStart(s[0]) {
      assert s[..k][1..] == s[1..][..k - 1];
      NameTailLocal(s[1..], k - 1);
    }
  }

  /** A variable never reaches over a character that is no part of one. */
  lemma VarLocal(s: string, k: nat)
    requires 0 < k <= |s| && (k == |s| || !(NameChar(s[k]) || IsBrace(s[k])))
    ensures VarLen(s[..k]) == VarLen(s) <= k
  {
    if k > 1 {
      assert s[..k][1..] == s[1..][..k - 1];
      assert s[..k][2..] == s[2..][..k - 2];
      NameLenLocal(s[1..], k - 1);
      NameLenLocal(s[2..], k - 2);
    }
  }

  /** Characters that are neither a double quote nor a backslash do not end a double-quoted span. */
  lemma DoubleSkip(s: string, k: nat)
    requires k <= |s| && forall i :: 0 <= i < k ==> s[i] != '"' && s[i] != '\\'
    ensures DoubleLen(s) == k + DoubleLen(s[k..])
  {
    if k > 0 {
      DoubleSkip(s[1..], k - 1);
      Drop2(s, 1, k - 1);
    }
  }

  lemma VarChars(s: string)
    ensures forall i :: 0 <= i < VarLen(s) ==> s[i] != '"' && s[i] != '\\'
  {
    if VarLen(s) > 0 {
      NameChars(s[1..]);
      NameChars(s[2..]);
      assert forall i :: 1 <= i < VarLen(s) ==> s[i] == s[1..][i - 1];
      assert forall i :: 2 <= i < VarLen(s) ==> s[i] == s[2..][i - 2];
    }
  }

  /** Where a variable stands inside double quotes, it ends before the closing quote. */
  lemma VarInside(s: string, k: nat)
    requires 0 < k == DoubleLen(s)
    ensures VarLen(s[..k]) == VarLen(s) <= k
    ensures k == VarLen(s) + DoubleLen(s[VarLen(s)..])
  {
    VarLocal(s, k);
    VarChars(s);
    DoubleSkip(s, VarLen(s));
  }

  /** What is still to come of the parts of a span that closes at `close`. */
  ghost function ToCome(raw: string, i: nat, close: nat, buf: string): seq<WordPart>
    requires i <= close <= |raw|
  {
    InsideParts(raw[i..close], buf)
  }

  lemma VarAtFront(s: string, body: string, k: nat, n: nat, buf: string)
    requires 0 < k == DoubleLen(s) && body == s[..k] && 0 < n == VarLen(s)
    ensures n <= k && k == n + DoubleLen(s[n..])
    ensures InsideParts(body, buf)
         == Flush(buf, DoubleQuoted) + [WordPart(body[1..n], Var)] + InsideParts(body[n..], "")
  {
    VarInside(s, k);
    VarParts(body, n, buf);
  }

  lemma Cuts(s: string, i: nat, next: nat, close: nat)
    requires i < next <= close <= |s|
    ensures s[i..close][next - i..] == s[next..close] && s[i..close][1..next - i] == s[i + 1..next]
    ensures s[i..][next - i..] == s[next..]
  {
    Window(s, i, close, next - i);
  }

  lemma VarStep(raw: string, i: nat, close: nat, buf: string, next: nat)
    requires i < close <= |raw| && close == i + DoubleLen(raw[i..]) && next == i + VarLen(raw[i..]) > i
    ensures next <= close && close == next + DoubleLen(raw[next..])
    ensures ToCome(raw, i, close, buf)
         == Flush(buf, DoubleQuoted) + [WordPart(raw[i + 1..next], Var)] + ToCome(raw, next, close, "")
  {
    Window(raw, i, close, 0);
    VarAtFront(raw[i..], raw[i..close], close - i, next - i, buf);
    Cuts(raw, i, next, close);
  }

  lemma VarParts(body: string, n: nat, buf: string)
    requires 0 < n == VarLen(body)
    ensures InsideParts(body, buf)
         == Flush(buf, DoubleQuoted) + [WordPart(body[1..n], Var)] + InsideParts(body[n..], "")
  {
  }

  lemma CharStep(raw: string, i: nat, close: nat, buf: string, k: nat)
    requires i < close <= |raw| && close == i + DoubleLen(raw[i..]) && VarLen(raw[i..]) == 0
    requires k == Unit(raw[i..])
    ensures i + k <= close && close == i + k + DoubleLen(raw[i + k..])
    ensures ToCome(raw, i, close, buf) == ToCome(raw, i + k, close, buf + [raw[i + k - 1]])
  {
    VarInside(raw[i..], close - i);
    Window(raw, i, close, k);
  }

  method CharTurn(raw: string, i: nat, buf: string, ghost close: nat) returns (next: nat, pending: string)
    requires i < close <= |raw| && close == i + DoubleLen(raw[i..]) && VarLen(raw[i..]) == 0
    ensures i < next <= close == next + DoubleLen(raw[next..])
    ensures ToCome(raw, i, close, buf) == [] + ToCome(raw, next, close, pending)
  {
    var k := Unit(raw[i..]);
    CharStep(raw, i, close, buf, k);
    next, pending := i + k, buf + [raw[i + k - 1]];
    Nothing(ToCome(raw, next, close, pending));
  }

  method VarTurn(raw: string, i: nat, buf: string, ghost close: nat) returns (added: seq<WordPart>, next: nat)
    requires i < close <= |raw| && close == i + DoubleLen(raw[i..]) && VarLen(raw[i..]) > 0
    ensures i < next <= close == next + DoubleLen(raw[next..])
    ensures ToCome(raw, i, close, buf) == added + ToCome(raw, next, close, "")
  {
    next := i + VarLen(raw[i..]);
    VarStep(raw, i, close, buf, next);
    added := Flush(buf, DoubleQuoted) + [WordPart(raw[i + 1..next], Var)];
  }

  /** One turn of the loop inside double quotes. */
  method InsideTurn(raw: string, i: nat, buf: string, ghost close: nat)
    returns (added: seq<WordPart>, next: nat, pending: string)
    requires i < close <= |raw| && close == i + DoubleLen(raw[i..])
    ensures i < next <= close == next + DoubleLen(raw[next..])
    ensures ToCome(raw, i, close, buf) == added + ToCome(raw, next, close, pending)
  {
    if VarLen(raw[i..]) > 0 {
      added, next := VarTurn(raw, i, buf, close);
      pending := "";
    } else {
      next, pending := CharTurn(raw, i, buf, close);
      added := [];
    }
  }

  /** The inner loop for a double-quoted span that opens just before `start`. */
  method ReadInside(raw: string, start: nat) returns (parts: seq<WordPart>, i: nat)
    requires start <= |raw|
    ensures i == start + DoubleLen(raw[start..]) <= |raw|
    ensures parts == InsideParts(raw[start..i], "")
  {
    i := start;
    parts := [];
    var buf := "";
    ghost var close := start + DoubleLen(raw[start..]);
    while i < |raw| && raw[i] != '"'
      invariant start <= i <= close <= |raw|
      invariant close == i + DoubleLen(raw[i..])
      invariant parts + ToCome(raw, i, close, buf) == ToCome(raw, start, close, "")
      decreases |raw| - i
    {
      var added, next, pending := InsideTurn(raw, i, buf, close);
      Assoc(parts, added, ToCome(raw, next, close, pending));
      parts, i, buf := parts + added, next, pending;
    }
    assert raw[i..close] == "";
    parts := parts + Flush(buf, DoubleQuoted);
  }

  lemma BodyAt(raw: string, i: nat)
    requires i < |raw| && IsQuote(raw[i])
    ensures var k := if raw[i] == '\'' then SingleLen(raw[i + 1..]) else DoubleLen(raw[i + 1..]);
      i + 1 + k <= |raw| && Body(raw[i..]) == raw[i + 1..i + 1 + k]
  {
    Drop2(raw, i, 1);
  }

  /** One unit that is more than a plain character. */
  method ReadUnit(raw: string, i: nat) returns (parts: seq<WordPart>, next: nat)
    requires i < |raw| && !Plain(raw[i..])
    ensures parts == UnitParts(raw[i..]) && next == i + UnitSize(raw[i..]) <= |raw|
  {
    if raw[i] == '\'' || raw[i] == '"' {
      BodyAt(raw, i);
      parts, next := ReadQuoted(raw, i);
      if next < |raw| {
        next := next + 1;
      }
    } else {
      var n := VarLen(raw[i..]);
      Window(raw, i, |raw|, n);
      assert raw[i..|raw|] == raw[i..];
      return [WordPart(raw[i + 1..i + n], Var)], i + n;
    }
  }

  /** A quoted span, up to its closing quote. */
  method ReadQuoted(raw: string, i: nat) returns (parts: seq<WordPart>, close: nat)
    requires i < |raw| && IsQuote(raw[i])
    ensures close == i + 1 + (if raw[i] == '\'' then SingleLen(raw[i + 1..]) else DoubleLen(raw[i + 1..])) <= |raw|
    ensures parts == if raw[i] == '\'' then [WordPart(raw[i + 1..close], SingleQuoted)]
                     else InsideParts(raw[i + 1..close], "")
  {
    if raw[i] == '\'' {
      close := Tokenizer.SkipSingle(raw, i + 1);
      parts := [WordPart(raw[i + 1..close], SingleQuoted)];
    } else {
      parts, close := ReadInside(raw, i + 1);
    }
  }

  lemma UnitAtFront(s: string, bare: string, n: nat, rest: string)
    requires s != "" && !Plain(s) && n == UnitSize(s) && rest == s[n..]
    ensures Parts(s, bare) == Flush(bare, Bare) + UnitParts(s) + Parts(rest, "")
  {
  }

  lemma PlainStep(raw: string, i: nat, bare: string)
    requires i < |raw| && Plain(raw[i..])
    ensures Parts(raw[i..], bare) == Parts(raw[i + 1..], bare + [raw[i]])
  {
    Drop2(raw, i, 1);
  }

  method UnitTurn(raw: string, i: nat, bare: string) returns (added: seq<WordPart>, next: nat)
    requires i < |raw| && !Plain(raw[i..])
    ensures i < next <= |raw| && Parts(raw[i..], bare) == added + Parts(raw[next..], "")
  {
    var unit;
    unit, next := ReadUnit(raw, i);
    Drop2(raw, i, next - i);
    UnitAtFront(raw[i..], bare, next - i, raw[next..]);
    added := Flush(bare, Bare) + unit;
  }

  /** One turn of the loop over the word. */
  method WordTurn(raw: string, i: nat, bare: string) returns (added: seq<WordPart>, next: nat, pending: string)
    requires i < |raw|
    ensures i < next <= |raw| && Parts(raw[i..], bare) == added + Parts(raw[next..], pending)
  {
    if Plain(raw[i..]) {
      PlainStep(raw, i, bare);
      added, next, pending := [], i + 1, bare + [raw[i]];
      Nothing(Parts(raw[next..], pending));
    } else {
      added, next := UnitTurn(raw, i, bare);
      pending := "";
    }
  }

  method ParseWordParts(raw: string) returns (parts: seq<WordPart>)
    ensures parts == Parts(raw, "")
  {
    parts := [];
    var bare := "";
    var i := 0;
    Nothing(Parts(raw, ""));
    assert raw[0..] == raw;
    while i < |raw|
      invariant 0 <= i <= |raw|
      invariant parts + Parts(raw[i..], bare) == Parts(raw, "")
    {
      var added, next, pending := WordTurn(raw, i, bare);
      Assoc(parts, added, Parts(raw[next..], pending));
      parts, i, bare := parts + added, next, pending;
    }
    assert raw[i..] == "";
    parts := parts + Flush(bare, Bare);
  }
}
