/** Escaping of PDF literal strings (section 7.3.4.2 of ISO 32000-1). */
module PdfEscape {
  import opened Chars

  /** Backslashes first, then the parentheses. */
  function Escape(s: string): string {
    Replace(Replace(Replace(s, '\\', "\\\\"), '(', "\\("), ')', "\\)")
  }

  /** What a single pass would write for each character. */
  function EscapeChar(c: char): string {
    if c == '\\' || c == '(' || c == ')' then ['\\', c] else [c]
  }

  function EscapeOnce(s: string): string {
    if s == "" then "" else EscapeChar(s[0]) + EscapeOnce(s[1..])
  }

  lemma ReplaceShort(a: char, b: char, c: char, with: string)
    ensures Replace([a], c, with) == if a == c then with else [a]
    ensures Replace([a, b], c, with) == (if a == c then with else [a]) + (if b == c then with else [b])
  {
    assert [a][1..] == "" && [a, b][1..] == [b];
    assert Replace([b], c, with) == (if b == c then with else [b]) + Replace("", c, with);
  }

  /** The three passes do not disturb each other: together they escape each character once. */
  lemma {:induction false} PassesAreOnePass(s: string)
    ensures Escape(s) == EscapeOnce(s)
  {
    if s != "" {
      PassesAreOnePass(s[1..]);
      var c, first := s[0], Replace(s[1..], '\\', "\\\\");
      var head := if c == '\\' then "\\\\" else [c];
      ReplaceConcat(head, first, '(', "\\(");
      ReplaceConcat(Replace(head, '(', "\\("), Replace(first, '(', "\\("), ')', "\\)");
      ReplaceShort('\\', '\\', '(', "\\(");
      ReplaceShort('\\', '\\', ')', "\\)");
      ReplaceShort(c, c, '(', "\\(");
      ReplaceShort(c, c, ')', "\\)");
      ReplaceShort('\\', '(', ')', "\\)");
    }
  }

  datatype Literal = Literal(text: string, rest: string) | Unterminated

  predicate IsOctal(c: char) { '0' <= c <= '7' }

  /** The digits an octal escape takes: at most three. */
  function OctalRun(s: string, most: nat): (n: nat)
    ensures n <= |s| && n <= most
  {
    if s == "" || most == 0 || !IsOctal(s[0]) then 0 else 1 + OctalRun(s[1..], most - 1)
  }

  function OctalValue(digits: string): nat
    requires forall i :: 0 <= i < |digits| ==> IsOctal(digits[i])
  {
    if digits == "" then 0
    else
      assert IsOctal(digits[|digits| - 1]);
      8 * OctalValue(digits[..|digits| - 1]) + (digits[|digits| - 1] as int - '0' as int)
  }

  lemma {:induction false} RunIsOctal(s: string, most: nat)
    ensures forall i :: 0 <= i < OctalRun(s, most) ==> IsOctal(s[i])
  {
    if s != "" && most > 0 && IsOctal(s[0]) {
      RunIsOctal(s[1..], most - 1);
      forall i | 0 <= i < OctalRun(s, most) ensures IsOctal(s[i]) {
        if i > 0 {
          assert s[i] == s[1..][i - 1];
        }
      }
    }
  }

  /** What a backslash and the text after it stand for, and how much of that text is used up. */
  function ReadEscape(s: string): (r: (string, nat))
    requires s != ""
    ensures 0 < r.1 <= |s|
  {
    var c := s[0];
    if c == 'n' then ("\n", 1)
    else if c == 'r' then ("\r", 1)
    else if c == 't' then ("\t", 1)
    else if c == 'b' then ([8 as char], 1)
    else if c == 'f' then ([12 as char], 1)
    else if IsOctal(c) then
      RunIsOctal(s, 3);
      ([(OctalValue(s[..OctalRun(s, 3)]) % 256) as char], OctalRun(s, 3))
    else if c == '\r' then ("", EndOfLine(s))
    else if c == '\n' then ("", 1)
    else ([c], 1)
  }

  /** A return and a newline after it are one end of line. */
  function EndOfLine(s: string): (n: nat)
    requires s != ""
    ensures 0 < n <= |s|
  {
    if s[0] == '\r' && |s| > 1 && s[1] == '\n' then 2 else 1
  }

  /** A reader of literal strings: from just after the opening parenthesis to the parenthesis that
      balances it. A backslash begins an escape; an end of line that is not escaped is read as a newline,
      however it is written. */
  function ReadLiteral(s: string, depth: nat): Literal
    decreases |s|
  {
    if s == "" then Unterminated
    else if s[0] == '\\' then
      if |s| == 1 then Unterminated
      else
        var (text, used) := ReadEscape(s[1..]);
        Prepend(text, ReadLiteral(s[1 + used..], depth))
    else if s[0] == ')' then
      if depth == 0 then Literal("", s[1..]) else Prepend(")", ReadLiteral(s[1..], depth - 1))
    else if s[0] == '(' then Prepend("(", ReadLiteral(s[1..], depth + 1))
    else if s[0] == '\r' then Prepend("\n", ReadLiteral(s[EndOfLine(s)..], depth))
    else Prepend([s[0]], ReadLiteral(s[1..], depth))
  }

  function Prepend(front: string, l: Literal): Literal {
    match l case Literal(text, rest) => Literal(front + text, rest) case Unterminated => Unterminated
  }

  /** The text with every end of line written as a newline. */
  function Normal(s: string): string
    decreases |s|
  {
    if s == "" then ""
    else if s[0] == '\r' then "\n" + Normal(s[EndOfLine(s)..])
    else [s[0]] + Normal(s[1..])
  }

  lemma {:induction false} NormalWithoutReturns(s: string)
    ensures '\r' !in Normal(s) && |Normal(s)| <= |s|
    ensures '\r' !in s ==> Normal(s) == s
    decreases |s|
  {
    if s != "" {
      if s[0] == '\r' {
        NormalWithoutReturns(s[EndOfLine(s)..]);
      } else {
        NormalWithoutReturns(s[1..]);
        assert s == [s[0]] + s[1..];
      }
    }
  }

  /** Encoding and escaping do not disturb each other. */
  lemma {:induction false} EncodedEscapes(s: string)
    ensures Latin1(EscapeOnce(s)) == EscapeOnce(Latin1(s))
  {
    if s != "" {
      EncodedEscapes(s[1..]);
      var more := EscapeOnce(s[1..]);
      EncodedConcat(EscapeChar(s[0]), more);
      assert Latin1(s)[1..] == Latin1(s[1..]);
      assert Latin1(EscapeChar(s[0])) == EscapeChar(Latin1(s)[0]);
    }
  }

  lemma EncodedConcat(a: string, b: string)
    ensures Latin1(a + b) == Latin1(a) + Latin1(b)
  {}

  lemma EncodedIsSame(s: string)
    ensures Latin1(s) == s <==> forall i :: 0 <= i < |s| ==> s[i] as int < 256
  {
    if Latin1(s) == s {
      forall i | 0 <= i < |s| ensures s[i] as int < 256 {
        assert Latin1(s)[i] == s[i];
      }
    }
  }

  lemma NormalOfEncoded(s: string)
    ensures Normal(Latin1(s)) == s <==> '\r' !in s && Latin1(s) == s
  {
    NormalWithoutReturns(Latin1(s));
  }

  /** Whatever the text, its escaped and encoded literal ends at its own closing parenthesis and reads back
      as the encoded text with its line ends normalised; so it reads back as the text itself exactly when
      that holds no return and no character beyond Latin-1. */
  lemma EscapedLiteralReadsBack(s: string, rest: string)
    ensures ReadLiteral(Latin1(Escape(s)) + ")" + rest, 0) == Literal(Normal(Latin1(s)), rest)
    ensures ReadLiteral(Latin1(Escape(s)) + ")" + rest, 0) == Literal(s, rest)
            <==> '\r' !in s && forall i :: 0 <= i < |s| ==> s[i] as int < 256
  {
    PassesAreOnePass(s);
    EncodedEscapes(s);
    OnePassReadsBack(Latin1(s), rest);
    NormalOfEncoded(s);
    EncodedIsSame(s);
  }

  lemma {:induction false} OnePassReadsBack(s: string, rest: string)
    ensures ReadLiteral(EscapeOnce(s) + ")" + rest, 0) == Literal(Normal(s), rest)
    decreases |s|
  {
    var all := EscapeOnce(s) + ")" + rest;
    if s == "" {
      assert all[0] == ')' && all[1..] == rest;
    } else if s[0] == '\r' {
      var after := s[EndOfLine(s)..];
      OnePassReadsBack(after, rest);
      ReturnIsRead(s, rest, EscapeOnce(after) + ")" + rest);
    } else {
      OnePassReadsBack(s[1..], rest);
      var tail := EscapeOnce(s[1..]) + ")" + rest;
      assert all == EscapeChar(s[0]) + tail;
      if |EscapeChar(s[0])| == 2 {
        assert all[0] == '\\' && all[1] == s[0] && all[1..][1..] == all[2..] == tail;
        assert ReadEscape(all[1..]) == ([s[0]], 1);
      } else {
        assert all[0] == s[0] && all[1..] == tail;
      }
    }
  }

  lemma EscapeStart(s: string)
    requires s != ""
    ensures EscapeOnce(s)[..1] == EscapeChar(s[0])[..1]
    ensures s[0] == '\r' || s[0] == '\n' ==> EscapeOnce(s) == [s[0]] + EscapeOnce(s[1..])
  {}

  /** A return takes a newline after it along, in the text and in the literal alike. */
  lemma ReturnIsRead(s: string, rest: string, tail: string)
    requires s != "" && s[0] == '\r' && tail == EscapeOnce(s[EndOfLine(s)..]) + ")" + rest
    ensures ReadLiteral(EscapeOnce(s) + ")" + rest, 0) == Prepend("\n", ReadLiteral(tail, 0))
  {
    var all := EscapeOnce(s) + ")" + rest;
    EscapeStart(s);
    if |s| > 1 {
      EscapeStart(s[1..]);
    }
    if EndOfLine(s) == 2 {
      assert s[1..][1..] == s[2..];
      assert all == "\r\n" + tail;
      assert all[2..] == tail;
    } else {
      assert all == "\r" + tail;
      assert all[1..] == tail;
      assert tail[0] != '\n';
    }
  }
}
