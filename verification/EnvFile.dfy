/** In-place rewriting of the environment file that holds the configuration. */
module EnvFile {
  import opened Chars
  import opened Sequences
  import opened EnvLines
  import opened EnvQuoting
  import opened EnvSyntax

  // ---------------------------------------------------------------------------------------
  // Rewriting

  /** The new values, by key, in order. */
  datatype Update = Update(keys: seq<string>, values: map<string, string>, alnum: char -> bool)
  {
    ghost predicate Valid() {
      && NoRepeats(keys) && (forall k :: k in keys <==> k in values)
      && (forall k :: k in values ==> IsName(k) && NoBreaks(values[k]))
    }

    predicate Has(l: string) { Parse(l).Some? && Key(l) in values }

    function Assignment(prefix: string, key: string): string
      requires key in values
    {
      prefix + key + "=" + Quote(values[key], alnum)
    }

    function Unset(updated: set<string>): string -> bool { (k: string) => k !in updated }
  }

  predicate EndsWithCrLf(l: string) { |l| >= 2 && l[|l| - 2] == '\r' && l[|l| - 1] == '\n' }

  function NewlineOf(l: string): string { if EndsWithCrLf(l) then "\r\n" else "\n" }

  /** The line that replaces `l`. */
  function Rewritten(l: string, u: Update): string
    requires u.Has(l)
  {
    u.Assignment(Prefix(l), Key(l)) + NewlineOf(l)
  }

  /** What one line becomes, when the keys in `updated` have been written. */
  function Piece(l: string, u: Update, updated: set<string>): seq<string> {
    if !u.Has(l) then [l] else if Key(l) in updated then [] else [Rewritten(l, u)]
  }

  function Next(l: string, u: Update, updated: set<string>): set<string> {
    if u.Has(l) then updated + {Key(l)} else updated
  }

  /** The kept and rewritten lines. */
  function Out(ls: seq<string>, u: Update, updated: set<string>): seq<string> {
    if ls == [] then [] else Piece(ls[0], u, updated) + Out(ls[1..], u, Next(ls[0], u, updated))
  }

  function Written(ls: seq<string>, u: Update): set<string> {
    set l | l in ls && u.Has(l) :: Key(l)
  }

  predicate IsClosed(l: string) { l != "" && (l[|l| - 1] == '\n' || l[|l| - 1] == '\r') }

  /** A last line without a newline gets one. */
  function Closed(output: seq<string>): seq<string> {
    if output != [] && !IsClosed(output[|output| - 1]) then
      output[..|output| - 1] + [output[|output| - 1] + "\n"]
    else output
  }

  function Appended(u: Update): string -> string {
    (k: string) => if k in u.values then u.Assignment("", k) + "\n" else ""
  }

  function Remaining(ls: seq<string>, u: Update): seq<string> { Filter(u.keys, u.Unset(Written(ls, u))) }

  function UpdatedLines(ls: seq<string>, u: Update): seq<string> {
    Closed(Out(ls, u, {})) + Map(Remaining(ls, u), Appended(u))
  }

  function UpdatedText(text: string, u: Update): string {
    if u.keys == [] then text else Flatten(UpdatedLines(SplitLines(text), u))
  }

  lemma WrittenStep(ls: seq<string>, i: nat, u: Update)
    requires i < |ls|
    ensures Written(ls[..i + 1], u) == Next(ls[i], u, Written(ls[..i], u))
  {
    assert ls[..i + 1] == ls[..i] + [ls[i]];
  }

  lemma WrittenFirst(ls: seq<string>, u: Update)
    requires ls != []
    ensures Written(ls, u) == Next(ls[0], u, Written(ls[1..], u))
  {
    assert ls == [ls[0]] + ls[1..];
  }

  /** One line: what it contributes, and which key it takes from the remaining ones. */
  method RewriteLine(line: string, u: Update, updated: set<string>, remaining: seq<string>)
    returns (written: seq<string>, updated': set<string>, remaining': seq<string>)
    requires u.Valid() && remaining == Filter(u.keys, u.Unset(updated)) && updated <= u.values.Keys
    ensures written == Piece(line, u, updated) && updated' == Next(line, u, updated)
    ensures remaining' == Filter(u.keys, u.Unset(updated'))
  {
    updated', remaining' := updated, remaining;
    if Parse(line).None? {
      return [line], updated, remaining;
    }
    var key := Key(line);
    if key in updated {
      assert updated + {key} == updated;
      return [], updated, remaining;
    }
    FilterMembers(u.keys, u.Unset(updated));
    if key !in remaining {
      return [line], updated, remaining;
    }
    written := [Prefix(line) + key + "=" + Quote(u.values[key], u.alnum) + NewlineOf(line)];
    PopKey(u, updated, key);
    remaining' := Without(remaining, key);
    updated' := updated + {key};
  }

  method RewriteLines(lines: seq<string>, u: Update) returns (output: seq<string>, remaining: seq<string>)
    requires u.Valid()
    ensures output == Out(lines, u, {}) && remaining == Remaining(lines, u)
  {
    output, remaining := [], u.keys;
    var updated: set<string> := {};
    FilterAll(u.keys, u.Unset({}));
    assert lines[0..] == lines;
    for i := 0 to |lines|
      invariant output + Out(lines[i..], u, updated) == Out(lines, u, {})
      invariant updated == Written(lines[..i], u)
      invariant remaining == Filter(u.keys, u.Unset(updated))
    {
      assert lines[i..][0] == lines[i] && lines[i..][1..] == lines[i + 1..];
      WrittenStep(lines, i, u);
      var written;
      written, updated, remaining := RewriteLine(lines[i], u, updated, remaining);
      output := output + written;
    }
    assert lines[..|lines|] == lines && lines[|lines|..] == [];
  }

  method AppendRemaining(output: seq<string>, remaining: seq<string>, u: Update) returns (r: seq<string>)
    requires forall k :: k in remaining ==> k in u.values
    ensures r == output + Map(remaining, Appended(u))
  {
    r := output;
    for i := 0 to |remaining|
      invariant r == output + Map(remaining[..i], Appended(u))
    {
      var key := remaining[i];
      var line := key + "=" + Quote(u.values[key], u.alnum) + "\n";
      assert Appended(u)(key) == line by {
        assert "" + key == key;
      }
      assert Map(remaining[..i + 1], Appended(u)) == Map(remaining[..i], Appended(u)) + [line];
      r := r + [line];
    }
    assert remaining[..|remaining|] == remaining;
  }

  /** `_update_env_text`. */
  method UpdateEnvText(original: string, u: Update) returns (text: string)
    requires u.Valid()
    ensures text == UpdatedText(original, u)
  {
    if u.keys == [] {
      return original;
    }
    var lines := SplitLines(original);
    var output, remaining := RewriteLines(lines, u);
    if output != [] && !IsClosed(output[|output| - 1]) {
      output := output[..|output| - 1] + [output[|output| - 1] + "\n"];
    }
    assert output == Closed(Out(lines, u, {}));
    RemainingAreKeys(lines, u);
    output := AppendRemaining(output, remaining, u);
    assert output == UpdatedLines(lines, u);
    text := Flatten(output);
  }

  lemma RemainingAreKeys(ls: seq<string>, u: Update)
    requires u.Valid()
    ensures NoRepeats(Remaining(ls, u))
    ensures forall k :: k in Remaining(ls, u) <==> k in u.values && k !in Written(ls, u)
  {
    FilterMembers(u.keys, u.Unset(Written(ls, u)));
    FilterKeepsNoRepeats(u.keys, u.Unset(Written(ls, u)));
  }

  function Other(key: string): string -> bool { (k: string) => k != key }

  function Without(keys: seq<string>, key: string): seq<string> { Filter(keys, Other(key)) }

  lemma PopKey(u: Update, updated: set<string>, key: string)
    ensures Without(Filter(u.keys, u.Unset(updated)), key) == Filter(u.keys, u.Unset(updated + {key}))
  {
    FilterTwice(u.keys, u.Unset(updated), Other(key), u.Unset(updated + {key}));
  }

  // ---------------------------------------------------------------------------------------
  // What a file says

  datatype Binding = Binding(key: string, value: string)

  /** The length of a line without its terminator. */
  function BodyLength(l: string): (n: nat)
    ensures n <= |l|
  {
    if EndsWithCrLf(l) then |l| - 2 else if Ended(l) then |l| - 1 else |l|
  }

  /** The text after the equals sign. */
  function ValueOf(l: string): string
    requires Parse(l).Some?
  {
    l[Parse(l).value.eq + 1..BodyLength(l)]
  }

  function BindingIn(l: string, keep: string -> bool): seq<Binding> {
    if Parse(l).Some? && keep(Key(l)) then [Binding(Key(l), ValueOf(l))] else []
  }

  /** The assignments of the kept keys, in order. */
  function Bindings(ls: seq<string>, keep: string -> bool): seq<Binding> {
    if ls == [] then [] else BindingIn(ls[0], keep) + Bindings(ls[1..], keep)
  }

  function Untouched(u: Update): string -> bool { (k: string) => k !in u.values }

  function Is(key: string): string -> bool { (k: string) => k == key }

  lemma {:induction false} BindingsConcat(a: seq<string>, b: seq<string>, keep: string -> bool)
    ensures Bindings(a + b, keep) == Bindings(a, keep) + Bindings(b, keep)
  {
    if a == [] {
      assert a + b == b;
    } else {
      assert (a + b)[1..] == a[1..] + b;
      BindingsConcat(a[1..], b, keep);
    }
  }

  /** A line boundary can only end a line. */
  lemma {:induction false} BreaksEndLines(l: string, p: nat)
    requires IsLine(l) && p < BodyLength(l)
    ensures !IsBreak(l[p])
  {
    if |l| > 1 && p > 0 {
      assert LineLength(l[1..]) == |l| - 1;
      BreaksEndLines(l[1..], p - 1);
    }
  }

  /** A body without boundaries, followed by a terminator, is one line. */
  lemma {:induction false} LineOfBody(body: string, newline: string)
    requires NoBreaks(body) && (newline == "\n" || newline == "\r\n")
    ensures var l := body + newline; IsLine(l) && Ended(l) && BodyLength(l) == |body| && NewlineOf(l) == newline
  {
    var l := body + newline;
    LineLengthOfBody(body, newline);
    assert newline == "\n" && body != "" ==> l[|l| - 2] == body[|body| - 1];
  }

  lemma {:induction false} LineLengthOfBody(body: string, newline: string)
    requires NoBreaks(body) && (newline == "\n" || newline == "\r\n")
    ensures LineLength(body + newline) == |body| + |newline|
  {
    if body == "" {
      assert body + newline == newline;
    } else {
      assert (body + newline)[1..] == body[1..] + newline;
      LineLengthOfBody(body[1..], newline);
    }
  }

  /** A written assignment is one line that reads back as written. */
  lemma AssignmentReadsBack(prefix: string, key: string, u: Update, newline: string)
    requires u.Valid() && key in u.values && IsPrefix(prefix) && NoBreaks(prefix)
    requires newline == "\n" || newline == "\r\n"
    ensures var l := u.Assignment(prefix, key) + newline;
            && IsLine(l) && Ended(l) && Parse(l).Some? && Prefix(l) == prefix && Key(l) == key
            && ValueOf(l) == Quote(u.values[key], u.alnum) && NewlineOf(l) == newline
  {
    var value := Quote(u.values[key], u.alnum);
    var body := u.Assignment(prefix, key);
    QuoteIsOneLine(u.values[key], u.alnum);
    assert NoBreaks(body);
    LineOfBody(body, newline);
    ParseOfAssignment(prefix, key, value + newline);
    var l := body + newline;
    assert prefix + key + "=" + (value + newline) == l;
    assert l[|prefix| + |key| + 1..|body|] == value;
  }

  lemma RewrittenReadsBack(l: string, u: Update)
    requires u.Valid() && IsLine(l) && u.Has(l)
    ensures var r := Rewritten(l, u);
            && IsLine(r) && Ended(r) && IsClosed(r) && Parse(r).Some? && Key(r) == Key(l)
            && ValueOf(r) == Quote(u.values[Key(l)], u.alnum) && Rewritten(r, u) == r
  {
    PrefixParts(l);
    var m := Parse(l).value;
    EqualsInBody(l);
    forall p | 0 <= p < m.start ensures !IsBreak(l[p]) {
      BreaksEndLines(l, p);
    }
    AssignmentReadsBack(Prefix(l), Key(l), u, NewlineOf(l));
  }

  lemma EqualsInBody(l: string)
    requires Parse(l).Some?
    ensures Parse(l).value.eq < BodyLength(l)
  {
    var eq := Parse(l).value.eq;
    assert l[eq] == '=';
  }

  /** A rewritten line is the old one up to and with its key; then come the new value and the old line's kind
      of newline. */
  lemma RewrittenKeepsTheFront(l: string, u: Update)
    requires u.Valid() && u.Has(l)
    ensures exists n: nat, key ::
              && n + |key| < |l| && l[n..n + |key|] == key && IsPrefix(l[..n]) && IsName(key) && key in u.values
              && Rewritten(l, u) == l[..n + |key|] + "=" + Quote(u.values[key], u.alnum)
                                    + (if |l| >= 2 && l[|l| - 2..] == "\r\n" then "\r\n" else "\n")
  {
    PrefixParts(l);
    var n, key := Parse(l).value.start, Key(l);
    assert l[..n + |key|] == Prefix(l) + key;
    assert n + |key| < |l| && l[n..n + |key|] == key && IsPrefix(l[..n]);
  }

  lemma {:induction false} OutSplits(ls: seq<string>, i: nat, u: Update, updated: set<string>)
    requires i <= |ls|
    ensures Out(ls, u, updated) == Out(ls[..i], u, updated) + Out(ls[i..], u, updated + Written(ls[..i], u))
  {
    if i == 0 {
      assert ls[..0] == [] && ls[0..] == ls && updated + Written([], u) == updated;
    } else {
      var next := Next(ls[0], u, updated);
      OutSplits(ls[1..], i - 1, u, next);
      OutFirst(ls, i, u, updated);
      Regroup(Piece(ls[0], u, updated), Out(ls[1..][..i - 1], u, next), Out(ls[i..], u, updated + Written(ls[..i], u)));
    }
  }

  lemma Regroup(a: seq<string>, b: seq<string>, c: seq<string>)
    ensures a + (b + c) == (a + b) + c
  {}

  lemma {:induction false} OutFirst(ls: seq<string>, i: nat, u: Update, updated: set<string>)
    requires 0 < i <= |ls|
    ensures Out(ls[..i], u, updated) == Piece(ls[0], u, updated) + Out(ls[1..][..i - 1], u, Next(ls[0], u, updated))
    ensures ls[1..][i - 1..] == ls[i..]
    ensures Next(ls[0], u, updated) + Written(ls[1..][..i - 1], u) == updated + Written(ls[..i], u)
  {
    assert ls[..i][0] == ls[0] && ls[..i][1..] == ls[1..][..i - 1];
    WrittenFirst(ls[..i], u);
  }

  /** The first line that assigns a key is replaced where it stands. */
  lemma {:induction false} FirstIsReplaced(ls: seq<string>, i: nat, u: Update)
    requires i < |ls| && u.Has(ls[i]) && forall j :: 0 <= j < i && u.Has(ls[j]) ==> Key(ls[j]) != Key(ls[i])
    ensures Out(ls, u, {}) == Out(ls[..i], u, {}) + ([Rewritten(ls[i], u)] + Out(ls[i + 1..], u, Next(ls[i], u, Written(ls[..i], u))))
  {
    OutSplits(ls, i, u, {});
    assert {} + Written(ls[..i], u) == Written(ls[..i], u);
    assert ls[i..][0] == ls[i] && ls[i..][1..] == ls[i + 1..];
    NotYetWritten(ls, i, u);
  }

  lemma NotYetWritten(ls: seq<string>, i: nat, u: Update)
    requires i < |ls| && u.Has(ls[i]) && forall j :: 0 <= j < i && u.Has(ls[j]) ==> Key(ls[j]) != Key(ls[i])
    ensures Key(ls[i]) !in Written(ls[..i], u)
  {
    forall l | l in ls[..i] && u.Has(l) ensures Key(l) != Key(ls[i]) {
      var j :| 0 <= j < i && ls[j] == l;
    }
  }
}
