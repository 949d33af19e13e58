/** Python's `shlex.quote`, which the file tools and the payload printer use to protect a word. */
module ShellQuote {
  /** The ASCII characters `shlex.quote` leaves alone: `[\w@%+=:,./-]`. */
  predicate SafeChar(c: char) {
    'a' <= c <= 'z' || 'A' <= c <= 'Z' || '0' <= c <= '9' || c in {'_', '@', '%', '+', '=', ':', ',', '.', '/', '-'}
  }

  predicate AllSafe(s: string) {
    forall i :: 0 <= i < |s| ==> SafeChar(s[i])
  }

  /** Every single quote becomes: close, a double-quoted single quote, reopen. */
  function Escape(s: string): string {
    if s == "" then "" else (if s[0] == '\'' then "'\"'\"'" else [s[0]]) + Escape(s[1..])
  }

  function Quote(s: string): string {
    if s == "" then "''"
    else if AllSafe(s) then s
    else "'" + Escape(s) + "'"
  }

  /** What `Quote` returns when it does quote; `''` is the case of the empty string. */
  lemma QuoteForms(s: string)
    ensures Quote(s) == if s != "" && AllSafe(s) then s else "'" + Escape(s) + "'"
    ensures Quote(s) != ""
  {
    if s == "" {
      assert "'" + Escape(s) + "'" == "''";
    }
  }
}
