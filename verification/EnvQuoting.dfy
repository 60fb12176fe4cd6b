/** Values in the environment file: how they are quoted, and how python-dotenv, which loads the file, reads
    a single-quoted value. Its pattern for the body backtracks: an escaped quote is given up, and taken for
    the end, only when no other quote follows. Its second pattern substitutes variables, which the quotes
    do not prevent; what a variable stands for is up to the environment. */
module EnvQuoting {
  import opened Chars
  import opened Sequences

  const QUOTE := '\''

  function WithoutUnderscores(v: string): string {
    if v == "" then "" else (if v[0] == '_' then "" else [v[0]]) + WithoutUnderscores(v[1..])
  }

  /** `str.isalnum()` for a given character class. */
  predicate IsAlnum(v: string, alnum: char -> bool) {
    v != "" && forall i :: 0 <= i < |v| ==> alnum(v[i])
  }

  /** `_quote_env_value`: bare words stay as they are, everything else is single-quoted. */
  function Quote(v: string, alnum: char -> bool): string {
    if IsAlnum(WithoutUnderscores(v), alnum) then v else "'" + EscapeQuotes(v) + "'"
  }

  datatype Reading = Unterminated | Value(value: string, rest: string)

  /** The body of a single-quoted value as python-dotenv's pattern finds it: as many escaped quotes and
      other characters as possible before a closing quote, giving up an escape only if no quote follows. */
  function Body(s: string): (r: Reading)
    ensures r.Value? <==> QUOTE in s
    ensures r.Value? ==> |r.rest| < |s|
  {
    if s == "" then Unterminated
    else if s[0] == QUOTE then Value("", s[1..])
    else if s[0] == '\\' && |s| > 1 && s[1] == QUOTE && Body(s[2..]).Value? then
      Value("\\'" + Body(s[2..]).value, Body(s[2..]).rest)
    else
      var r := Body(s[1..]);
      assert s == [s[0]] + s[1..];
      if r.Unterminated? then r else Value([s[0]] + r.value, r.rest)
  }

  /** Its escapes: a backslash before a backslash or a quote is dropped. */
  function Decode(s: string): string {
    if s == "" then ""
    else if s[0] == '\\' && |s| > 1 && (s[1] == '\\' || s[1] == QUOTE) then [s[1]] + Decode(s[2..])
    else [s[0]] + Decode(s[1..])
  }

  /** A variable at the start of a text, `${name}` or `${name:-default}`, and its length. */
  datatype Variable = Variable(name: string, default: string, length: nat)

  /** The first place from `i` on where a character of `stops` stands. */
  function Until(s: string, i: nat, stops: string): (j: nat)
    requires i <= |s|
    ensures i <= j <= |s|
    decreases |s| - i
  {
    if i == |s| || s[i] in stops then i else Until(s, i + 1, stops)
  }

  function VariableAt(s: string): (r: Option<Variable>)
    ensures r.Some? ==> 0 < r.value.length <= |s|
  {
    if |s| < 3 || s[0] != '$' || s[1] != '{' then None
    else
      var end := Until(s, 2, "}:");
      if end == |s| then None
      else if s[end] == '}' then Some(Variable(s[2..end], "", end + 1))
      else if end + 1 == |s| || s[end + 1] != '-' then None
      else
        var close := Until(s, end + 2, "}");
        if close == |s| then None else Some(Variable(s[2..end], s[end + 2..close], close + 1))
  }

  /** Variables are replaced by their values, or by their defaults if they are not set. */
  function Substitute(s: string, env: string -> Option<string>): string
    decreases |s|
  {
    if s == "" then ""
    else match VariableAt(s)
      case Some(v) => (match env(v.name) case Some(t) => t case None => v.default) + Substitute(s[v.length..], env)
      case None => [s[0]] + Substitute(s[1..], env)
  }

  predicate HasVariable(s: string) { s != "" && (VariableAt(s).Some? || HasVariable(s[1..])) }

  lemma {:induction false} NothingToSubstitute(s: string, env: string -> Option<string>)
    requires !HasVariable(s)
    ensures Substitute(s, env) == s
  {
    if s != "" {
      NothingToSubstitute(s[1..], env);
      assert s == [s[0]] + s[1..];
    }
  }

  function Always(t: string): string -> Option<string> { (name: string) => Some(t) }

  lemma {:induction false} SubstitutedIsLong(s: string, t: string)
    requires HasVariable(s)
    ensures |Substitute(s, Always(t))| >= |t|
  {
    if VariableAt(s).None? {
      SubstitutedIsLong(s[1..], t);
    }
  }

  /** Reading from after the opening quote on: find the body, decode it, substitute variables. */
  function ReadQuoted(s: string, env: string -> Option<string>): Reading {
    var r := Body(s);
    if r.Unterminated? then r else Value(Substitute(Decode(r.value), env), r.rest)
  }

  function EscapeQuotes(v: string): string { Replace(v, QUOTE, "\\'") }

  predicate EndsInBackslash(v: string) { v != "" && v[|v| - 1] == '\\' }

  predicate HasDoubleBackslash(v: string) {
    |v| > 1 && ((v[0] == '\\' && v[1] == '\\') || HasDoubleBackslash(v[1..]))
  }

  lemma EscapedFirst(v: string)
    requires v != ""
    ensures EscapeQuotes(v) == (if v[0] == QUOTE then "\\'" else [v[0]]) + EscapeQuotes(v[1..])
  {}

  lemma EscapeStep(s: string)
    ensures Body("\\'" + s) == if QUOTE in s then Value("\\'" + Body(s).value, Body(s).rest) else Value("\\", s)
  {
    var t := "\\'" + s;
    assert t[0] == '\\' && t[1] == QUOTE && t[2..] == s;
    assert t[1..][0] == QUOTE && t[1..][1..] == s;
  }

  lemma PlainStep(c: char, s: string)
    requires c != QUOTE && !(c == '\\' && s != "" && s[0] == QUOTE)
    ensures Body([c] + s) == if Body(s).Unterminated? then Unterminated else Value([c] + Body(s).value, Body(s).rest)
  {
    assert ([c] + s)[1..] == s;
  }

  /** A written value from after its opening quote on, and what follows it. */
  function AfterQuote(v: string, rest: string): (s: string)
    ensures QUOTE in s
  {
    var s := EscapeQuotes(v) + "'" + rest;
    assert s[|EscapeQuotes(v)|] == QUOTE;
    s
  }

  lemma RestFirst(v: string, rest: string)
    requires v != ""
    ensures AfterQuote(v, rest) == (if v[0] == QUOTE then "\\'" else [v[0]]) + AfterQuote(v[1..], rest)
    ensures v == "\\" ==> AfterQuote(v, rest) == "\\'" + rest
  {
    EscapedFirst(v);
    assert v == "\\" ==> AfterQuote(v[1..], rest) == "'" + rest;
  }

  lemma RestStart(v: string, rest: string)
    requires v != "" && v != "\\" && v[0] == '\\'
    ensures AfterQuote(v[1..], rest)[0] != QUOTE
  {
    assert v == [v[0]] + v[1..];
    RestFirst(v[1..], rest);
  }

  lemma EndOfRest(v: string)
    requires v != ""
    ensures EndsInBackslash(v) <==> v == "\\" || EndsInBackslash(v[1..])
  {
    assert v == [v[0]] + v[1..];
  }

  /** The body of a written value is found where it ends, except that a backslash at its end escapes the
      closing quote if another quote follows anywhere. */
  lemma {:induction false} BodyOfEscaped(v: string, rest: string)
    ensures var r := Body(AfterQuote(v, rest));
            if EndsInBackslash(v) && QUOTE in rest then r.Value? && |r.rest| < |rest| else r == Value(EscapeQuotes(v), rest)
  {
    if v == "" {
      assert AfterQuote(v, rest) == "'" + rest;
    } else {
      BodyOfEscaped(v[1..], rest);
      EscapedFirst(v);
      EndOfRest(v);
      RestFirst(v, rest);
      if v[0] == QUOTE {
        EscapeStep(AfterQuote(v[1..], rest));
      } else if v == "\\" {
        EscapeStep(rest);
      } else {
        if v[0] == '\\' {
          RestStart(v, rest);
        }
        PlainStep(v[0], AfterQuote(v[1..], rest));
      }
    }
  }

  lemma DecodeEscape(d: char, s: string)
    requires d == '\\' || d == QUOTE
    ensures Decode(['\\', d] + s) == [d] + Decode(s)
  {
    assert (['\\', d] + s)[2..] == s;
  }

  lemma DecodePlain(c: char, s: string)
    requires !(c == '\\' && s != "" && (s[0] == '\\' || s[0] == QUOTE))
    ensures Decode([c] + s) == [c] + Decode(s)
  {
    assert ([c] + s)[1..] == s;
  }

  /** What decoding makes of a written value: two backslashes in a row become one. */
  function Collapsed(v: string): (r: string)
    ensures |r| <= |v| && (r == v <==> !HasDoubleBackslash(v))
    decreases |v|
  {
    if v == "" then ""
    else
      assert v == [v[0]] + v[1..];
      if v[0] == '\\' && |v| > 1 && v[1] == '\\' then "\\" + Collapsed(v[2..])
      else [v[0]] + Collapsed(v[1..])
  }

  lemma {:induction false} DecodedIsCollapsed(v: string)
    ensures Decode(EscapeQuotes(v)) == Collapsed(v)
    decreases |v|
  {
    if v != "" {
      EscapedFirst(v);
      DecodedIsCollapsed(v[1..]);
      if v[0] == QUOTE {
        DecodeEscape(QUOTE, EscapeQuotes(v[1..]));
      } else if v[0] == '\\' && |v| > 1 && (v[1] == '\\' || v[1] == QUOTE) {
        DecodedIsCollapsed(v[2..]);
        BackslashDecodes(v);
      } else {
        if |v| > 1 {
          EscapedFirst(v[1..]);
        }
        DecodePlain(v[0], EscapeQuotes(v[1..]));
      }
    }
  }

  lemma EscapedPair(v: string)
    requires |v| > 1 && v[0] == '\\' && (v[1] == '\\' || v[1] == QUOTE)
    ensures EscapeQuotes(v) == ['\\', '\\'] + ((if v[1] == QUOTE then [QUOTE] else []) + EscapeQuotes(v[2..]))
  {
    EscapedFirst(v);
    EscapedFirst(v[1..]);
    assert v[1..][1..] == v[2..];
  }

  lemma CollapsedPair(v: string)
    requires |v| > 1 && v[0] == '\\' && (v[1] == '\\' || v[1] == QUOTE)
    ensures Collapsed(v) == ['\\'] + ((if v[1] == QUOTE then [QUOTE] else []) + Collapsed(v[2..]))
  {
    assert v[1..][1..] == v[2..];
    assert v[1] == QUOTE ==> Collapsed(v[1..]) == [QUOTE] + Collapsed(v[2..]);
  }

  lemma BackslashDecodes(v: string)
    requires |v| > 1 && v[0] == '\\' && (v[1] == '\\' || v[1] == QUOTE)
    requires Decode(EscapeQuotes(v[2..])) == Collapsed(v[2..])
    ensures Decode(EscapeQuotes(v)) == Collapsed(v)
  {
    var more := EscapeQuotes(v[2..]);
    EscapedPair(v);
    CollapsedPair(v);
    DecodeEscape('\\', (if v[1] == QUOTE then [QUOTE] else []) + more);
    if v[1] == QUOTE {
      DecodePlain(QUOTE, more);
    } else {
      assert [] + more == more;
    }
  }

  predicate IsPlain(v: string, rest: string) {
    !HasDoubleBackslash(v) && !HasVariable(v) && !(EndsInBackslash(v) && QUOTE in rest)
  }

  lemma PlainReadsBack(v: string, rest: string, env: string -> Option<string>)
    requires IsPlain(v, rest)
    ensures ReadQuoted(AfterQuote(v, rest), env) == Value(v, rest)
  {
    BodyOfEscaped(v, rest);
    DecodedIsCollapsed(v);
    NothingToSubstitute(v, env);
  }

  /** A value that is not plain is lost in every environment, or in one where variables are long. */
  lemma OthersAreLost(v: string, rest: string) returns (env: string -> Option<string>)
    requires !IsPlain(v, rest)
    ensures ReadQuoted(AfterQuote(v, rest), env) != Value(v, rest)
  {
    env := Always(v + "x");
    BodyOfEscaped(v, rest);
    DecodedIsCollapsed(v);
    if !(EndsInBackslash(v) && QUOTE in rest) {
      if HasVariable(Collapsed(v)) {
        SubstitutedIsLong(Collapsed(v), v + "x");
      } else {
        NothingToSubstitute(Collapsed(v), env);
      }
    }
  }

  /** A quoted value is read back in every environment exactly when it has no two backslashes in a row, no
      variable, and does not end in a backslash before a file that holds another quote. */
  lemma QuotedReadsBackIff(v: string, alnum: char -> bool, rest: string)
    requires !IsAlnum(WithoutUnderscores(v), alnum)
    ensures var s := Quote(v, alnum) + rest;
            s[0] == QUOTE && ((forall env :: ReadQuoted(s[1..], env) == Value(v, rest)) <==> IsPlain(v, rest))
  {
    assert Quote(v, alnum) + rest == "'" + AfterQuote(v, rest);
    assert ("'" + AfterQuote(v, rest))[1..] == AfterQuote(v, rest);
    if IsPlain(v, rest) {
      forall env ensures ReadQuoted(AfterQuote(v, rest), env) == Value(v, rest) {
        PlainReadsBack(v, rest, env);
      }
    } else {
      var env := OthersAreLost(v, rest);
    }
  }

  predicate NoBreaks(v: string) { forall i :: 0 <= i < |v| ==> !IsBreak(v[i]) }

  lemma {:induction false} ReplaceKeepsLines(v: string)
    requires NoBreaks(v)
    ensures NoBreaks(EscapeQuotes(v))
  {
    if v != "" {
      ReplaceKeepsLines(v[1..]);
    }
  }

  lemma QuoteIsOneLine(v: string, alnum: char -> bool)
    requires NoBreaks(v)
    ensures NoBreaks(Quote(v, alnum))
  {
    ReplaceKeepsLines(v);
  }
}
