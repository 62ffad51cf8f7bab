/** Character classes and trimming, as the Go strings package does them on UTF-8 text.
    A `string` here is the sequence of Unicode characters of such a text. */
module Text {

  predicate IsSpace(c: char) {
    c in "\t\n\U{000B}\U{000C}\r \U{0085}\U{00A0}\U{1680}\U{2028}\U{2029}\U{202F}\U{205F}\U{3000}"
    || '\U{2000}' <= c <= '\U{200A}'
  }

  function TrimLeft(s: string): string {
    if s != "" && IsSpace(s[0]) then TrimLeft(s[1..]) else s
  }

  function TrimRight(s: string): string {
    if s != "" && IsSpace(s[|s| - 1]) then TrimRight(s[..|s| - 1]) else s
  }

  function TrimSpace(s: string): string {
    TrimRight(TrimLeft(s))
  }

  predicate Blank(s: string) {
    TrimSpace(s) == ""
  }

  lemma {:induction false} TrimRightEmpty(s: string)
    ensures TrimRight(s) == "" <==> forall c | c in s :: IsSpace(c)
  {
    if s != "" {
      var rest, last := s[..|s| - 1], s[|s| - 1];
      assert s == rest + [last];
      TrimRightEmpty(rest);
    }
  }

  /** Trimming leaves nothing exactly when every character is white space. */
  lemma {:induction false} BlankMeaning(s: string)
    ensures Blank(s) <==> forall c | c in s :: IsSpace(c)
  {
    TrimRightEmpty(s);
    if s != "" && IsSpace(s[0]) {
      assert s == [s[0]] + s[1..];
      BlankMeaning(s[1..]);
    }
  }

  predicate Contains(s: string, sub: string) {
    exists i | 0 <= i <= |s| :: sub <= s[i..]
  }
}
