/** Character classes of Python strings, and character replacement. Whitespace and line boundaries are
    those of the string methods `split` and `splitlines`, which differ: every line boundary is white
    space, but not the other way round. Names are the ASCII identifiers that environment variables
    use. Replacing a character by a text is the only form of `replace` the modelled code relies on, and
    Latin-1 with replacement the only encoding. */
module Chars {

  /** Whitespace: what `str.split()` splits at and what `\s` matches. */
  predicate IsSpace(c: char) {
    var n := c as int;
    9 <= n <= 13 || 0x1c <= n <= 0x20 || n == 0x85 || n == 0xa0 || n == 0x1680 || 0x2000 <= n <= 0x200a
    || n == 0x2028 || n == 0x2029 || n == 0x202f || n == 0x205f || n == 0x3000
  }

  /** The line boundaries of `str.splitlines()`. */
  predicate IsBreak(c: char) {
    var n := c as int;
    10 <= n <= 13 || 0x1c <= n <= 0x1e || n == 0x85 || n == 0x2028 || n == 0x2029
  }

  /** ASCII letters and the underscore: what may open a name. */
  predicate IsNameStart(c: char) {
    'A' <= c <= 'Z' || 'a' <= c <= 'z' || c == '_'
  }

  predicate IsNameChar(c: char) {
    IsNameStart(c) || '0' <= c <= '9'
  }

  /** `str.replace` of one character. */
  function Replace(s: string, c: char, with: string): string {
    if s == "" then ""
    else (if s[0] == c then with else [s[0]]) + Replace(s[1..], c, with)
  }

  lemma {:induction false} ReplaceConcat(a: string, b: string, c: char, with: string)
    ensures Replace(a + b, c, with) == Replace(a, c, with) + Replace(b, c, with)
  {
    if a == "" {
      assert a + b == b;
    } else {
      assert (a + b)[1..] == a[1..] + b;
      ReplaceConcat(a[1..], b, c, with);
    }
  }

  /** `str.encode` to Latin-1 with replacement: one byte a character. */
  function Latin1(s: string): (r: string)
    ensures |r| == |s|
    ensures forall i :: 0 <= i < |r| ==> r[i] as int < 256 && (r[i] == s[i] || (s[i] as int >= 256 && r[i] == '?'))
  {
    seq(|s|, i requires 0 <= i < |s| => if s[i] as int < 256 then s[i] else '?')
  }
}
