/** Joining strings, and facts about slices and concatenation. */
module Seqs {
  function JoinWith(parts: seq<string>, sep: string): string {
    if parts == [] then ""
    else if |parts| == 1 then parts[0]
    else parts[0] + (sep + JoinWith(parts[1..], sep))
  }

  lemma Drop2<T>(s: seq<T>, i: nat, k: nat)
    requires i + k <= |s|
    ensures s[i..][k..] == s[i + k..]
  {
  }

  lemma Window<T>(s: seq<T>, i: nat, close: nat, n: nat)
    requires i + n <= close <= |s|
    ensures s[i..][..close - i] == s[i..close] && s[i..][n..] == s[i + n..]
    ensures s[i..close][n..] == s[i + n..close] && s[i..close][..n] == s[i..i + n]
    ensures n > 0 ==> s[i..close][1..n] == s[i + 1..i + n]
  {
  }

  lemma Assoc<T>(a: seq<T>, b: seq<T>, c: seq<T>)
    ensures a + (b + c) == a + b + c
  {
  }

  lemma Enclose<T>(q: T, body: seq<T>, t: seq<T>)
    ensures [q] + (body + [q] + t) == [q] + body + [q] + t
  {
  }

  lemma Halves<T>(a: seq<T>, x: T, b: seq<T>)
    ensures |a + [x] + b| == |a| + 1 + |b|
    ensures (a + [x] + b)[..|a|] == a && (a + [x] + b)[|a|] == x && (a + [x] + b)[|a| + 1..] == b
  {
  }

  lemma PutBefore<T>(c: T, inner: seq<T>, k: nat)
    requires k < |inner|
    ensures ([c] + inner)[0] == c && ([c] + inner)[1..] == inner && ([c] + inner)[1..1 + k] == inner[..k]
    ensures ([c] + inner)[k + 2..] == inner[k + 1..]
  {
  }

  lemma Uncons<T>(w: seq<T>, rest: seq<T>)
    requires w != []
    ensures [w[0]] + w[1..] == w && w + rest == [w[0]] + (w[1..] + rest)
  {
  }

  lemma SamePart<T>(a: seq<T>, b: seq<T>, n: nat, i: nat, j: nat)
    requires n <= |a| && n <= |b| && a[..n] == b[..n] && i <= j <= n
    ensures a[i..j] == b[i..j]
  {
    assert a[..n][i..j] == a[i..j] && b[..n][i..j] == b[i..j];
  }

  lemma Snoc<T>(s: seq<T>, n: nat)
    requires n < |s|
    ensures s[..n + 1] == s[..n] + [s[n]]
  {
  }

  lemma Nothing<T>(a: seq<T>)
    ensures [] + a == a && a + [] == a
  {
  }
}
