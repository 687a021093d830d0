// The few string operations of Go's `strings` package that the modelled code relies on.
module Text {

  /** unicode.IsSpace. */
  predicate IsSpace(c: char) {
    || c in "\t\n\U{0B}\U{0C}\r \U{85}\U{A0}\U{1680}\U{2028}\U{2029}\U{202F}\U{205F}\U{3000}"
    || '\U{2000}' <= c <= '\U{200A}'
  }

  /** strings.TrimSpace(s) == "". */
  predicate IsBlank(s: string) {
    forall c | c in s :: IsSpace(c)
  }

  /** stringOr: the value, or the fallback when the value is blank. */
  function StringOr(value: string, fallback: string): string {
    if IsBlank(value) then fallback else value
  }

  /** strings.Contains(s, sub). */
  predicate Contains(s: string, sub: string) {
    exists i | 0 <= i <= |s| :: sub <= s[i..]
  }

  /** That is, s is made of something, sub, and something. */
  lemma ContainsMeans(s: string, sub: string)
    ensures Contains(s, sub) <==> exists before: string, after: string :: s == before + sub + after
  {
    if i :| 0 <= i <= |s| && sub <= s[i..] {
      assert s == s[..i] + sub + s[i + |sub|..];
    }
    if before: string, after: string :| s == before + sub + after {
      assert s[|before|..] == sub + after;
    }
  }
}
