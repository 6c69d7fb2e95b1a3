/** Trimming of text as done by Rust's `str::trim` and `str::trim_end_matches`. */
module Text {
  /** The characters that `str::trim` removes: Unicode White_Space. */
  predicate IsWhitespace(c: char) {
    var n := c as int;
    || 0x9 <= n <= 0xD || n == 0x20 || n == 0x85 || n == 0xA0 || n == 0x1680
    || 0x2000 <= n <= 0x200A || n == 0x2028 || n == 0x2029 || n == 0x202F || n == 0x205F || n == 0x3000
  }

  /** `s.trim().is_empty()` */
  predicate IsBlank(s: string) {
    forall c :: c in s ==> IsWhitespace(c)
  }

  function Trim(s: string): string {
    if s != "" && IsWhitespace(s[0]) then Trim(s[1..])
    else if s != "" && IsWhitespace(s[|s| - 1]) then Trim(s[..|s| - 1])
    else s
  }

  predicate IsEndOfLine(c: char) {
    c == '\r' || c == '\n'
  }

  /** `s.trim_end_matches(['\r', '\n'])` */
  function TrimEndOfLine(s: string): string {
    if s != "" && IsEndOfLine(s[|s| - 1]) then TrimEndOfLine(s[..|s| - 1]) else s
  }

  lemma {:induction false} TrimIsBlank(s: string)
    ensures Trim(s) == "" <==> IsBlank(s)
  {
    if s != "" && IsWhitespace(s[0]) {
      TrimIsBlank(s[1..]);
      assert s == [s[0]] + s[1..];
    } else if s != "" && IsWhitespace(s[|s| - 1]) {
      TrimIsBlank(s[..|s| - 1]);
      assert s == s[..|s| - 1] + [s[|s| - 1]];
    } else if s != "" {
      assert s[0] in s;
    }
  }
}
