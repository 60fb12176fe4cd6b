/** Lines of a text as `str.splitlines(keepends=True)` sees them: "\r\n" or any single line boundary
    ends a line and stays with it. Joining the lines gives the text back. Splitting joined lines gives
    the lines back with one exception: where a line that ends in a lone "\r" comes to stand before a
    line that is just "\n", which happens when the line between them is dropped, the two become one. */
module EnvLines {
  import opened Chars
  import opened Sequences

  /** The length of the first line, terminator included. */
  function LineLength(s: string): (n: nat)
    requires s != ""
    ensures 1 <= n <= |s|
  {
    if s[0] == '\r' && |s| > 1 && s[1] == '\n' then 2
    else if IsBreak(s[0]) || |s| == 1 then 1
    else 1 + LineLength(s[1..])
  }

  function SplitLines(s: string): seq<string>
    decreases |s|
  {
    if s == "" then [] else [s[..LineLength(s)]] + SplitLines(s[LineLength(s)..])
  }

  predicate IsLine(l: string) { l != "" && LineLength(l) == |l| }

  predicate Ended(l: string) { l != "" && IsBreak(l[|l| - 1]) }

  predicate EndsInReturn(l: string) { l != "" && l[|l| - 1] == '\r' }

  /** Lines that can follow each other; only the last may lack a terminator. */
  ghost predicate AreLines(ls: seq<string>) {
    && (forall i :: 0 <= i < |ls| ==> IsLine(ls[i]))
    && (forall i :: 0 <= i < |ls| - 1 ==> Ended(ls[i]))
  }

  /** Where a lone "\r" meets a line that is just "\n", the text has one line instead of two. */
  ghost predicate Meet(l: string, m: string) { EndsInReturn(l) && m != "" && m[0] == '\n' }

  function MergeFirst(l: string, rest: seq<string>): seq<string> {
    if l != "" && l[|l| - 1] == '\r' && rest != [] && rest[0] == "\n" then [l + "\n"] + rest[1..] else [l] + rest
  }

  function Merge(ls: seq<string>): seq<string> {
    if |ls| <= 1 then ls else MergeFirst(ls[0], Merge(ls[1..]))
  }

  lemma {:induction false} FirstLine(s: string)
    requires s != ""
    ensures IsLine(s[..LineLength(s)])
    ensures LineLength(s) < |s| ==> Ended(s[..LineLength(s)]) && !Meet(s[..LineLength(s)], s[LineLength(s)..])
  {
    var n := LineLength(s);
    if n > 1 && !(s[0] == '\r' && s[1] == '\n') {
      FirstLine(s[1..]);
      assert s[..n][1..] == s[1..][..n - 1];
    }
  }

  lemma {:induction false} LinesOf(s: string)
    ensures AreLines(SplitLines(s)) && Flatten(SplitLines(s)) == s
    ensures forall i :: 0 <= i < |SplitLines(s)| - 1 ==> !Meet(SplitLines(s)[i], SplitLines(s)[i + 1])
    decreases |s|
  {
    if s != "" {
      var n := LineLength(s);
      FirstLine(s);
      LinesOf(s[n..]);
      assert s == s[..n] + s[n..];
      LineBefore(s[..n], s[n..], SplitLines(s[n..]));
    }
  }

  lemma SplitStart(s: string)
    requires s != ""
    ensures SplitLines(s) != [] && SplitLines(s)[0] != "" && SplitLines(s)[0][0] == s[0]
  {}

  /** A line before the lines of the text that follows it. */
  lemma LineBefore(l: string, rest: string, ls: seq<string>)
    requires IsLine(l) && (rest == "" || (Ended(l) && !Meet(l, rest))) && ls == SplitLines(rest)
    requires AreLines(ls) && forall i :: 0 <= i < |ls| - 1 ==> !Meet(ls[i], ls[i + 1])
    ensures AreLines([l] + ls) && Flatten([l] + ls) == l + Flatten(ls)
    ensures forall i :: 0 <= i < |[l] + ls| - 1 ==> !Meet(([l] + ls)[i], ([l] + ls)[i + 1])
  {
    if rest != "" {
      SplitStart(rest);
    }
    assert ([l] + ls)[1..] == ls;
    forall i | 0 <= i < |ls| ensures ([l] + ls)[i + 1] == ls[i] {}
  }

  lemma {:induction false} LengthOfLine(l: string, rest: string)
    requires IsLine(l) && (rest == "" || Ended(l)) && !Meet(l, rest)
    ensures LineLength(l + rest) == |l|
  {
    var s := l + rest;
    if l[0] == '\r' && |l| > 1 && l[1] == '\n' {
    } else if IsBreak(l[0]) || |l| == 1 {
      assert |l| == 1;
    } else {
      LengthOfLine(l[1..], rest);
      assert s[1..] == l[1..] + rest;
    }
  }

  lemma SplitFirst(l: string, rest: string)
    requires IsLine(l) && (rest == "" || Ended(l)) && !Meet(l, rest)
    ensures SplitLines(l + rest) == [l] + SplitLines(rest)
  {
    LengthOfLine(l, rest);
    assert (l + rest)[..|l|] == l && (l + rest)[|l|..] == rest;
  }

  lemma {:induction false} ReturnGrows(l: string)
    requires IsLine(l) && EndsInReturn(l)
    ensures IsLine(l + "\n") && Ended(l + "\n") && !EndsInReturn(l + "\n")
  {
    if |l| > 1 {
      assert (l + "\n")[1..] == l[1..] + "\n";
      ReturnGrows(l[1..]);
    } else {
      assert l == "\r";
    }
  }

  lemma SplitTail(l: string, rest: seq<string>)
    requires AreLines([l] + rest) && SplitLines(l + Flatten(rest)) == [l] + rest
    requires !Meet(l, Flatten(rest))
    ensures SplitLines(Flatten(rest)) == rest
  {
    assert ([l] + rest)[0] == l;
    assert rest != [] ==> Ended(([l] + rest)[0]);
    SplitFirst(l, Flatten(rest));
    assert ([l] + rest)[1..] == rest;
  }

  lemma LinesPrepended(l: string, rest: seq<string>)
    requires IsLine(l) && (Ended(l) || rest == []) && AreLines(rest)
    ensures AreLines([l] + rest)
  {
    forall i | 0 <= i < |rest| ensures ([l] + rest)[i + 1] == rest[i] {}
  }

  lemma LinesTail(rest: seq<string>)
    requires rest != [] && AreLines(rest)
    ensures AreLines(rest[1..]) && IsLine(rest[0]) && (rest[1..] == [] || Ended(rest[0]))
  {
    assert |rest| > 1 ==> Ended(rest[0]);
  }

  lemma SplitMeeting(l: string, tail: seq<string>)
    requires IsLine(l) && EndsInReturn(l) && AreLines(["\n"] + tail) && SplitLines("\n" + Flatten(tail)) == ["\n"] + tail
    ensures SplitLines(l + ("\n" + Flatten(tail))) == [l + "\n"] + tail
    ensures AreLines([l + "\n"] + tail)
  {
    ReturnGrows(l);
    SplitTail("\n", tail);
    LinesTail(["\n"] + tail);
    assert (["\n"] + tail)[1..] == tail;
    LinesPrepended(l + "\n", tail);
    assert l + ("\n" + Flatten(tail)) == (l + "\n") + Flatten(tail);
    SplitFirst(l + "\n", Flatten(tail));
  }

  /** One more line in front. */
  lemma SplitPrepended(l: string, rest: seq<string>)
    requires IsLine(l) && Ended(l) && rest != [] && AreLines(rest) && SplitLines(Flatten(rest)) == rest
    ensures SplitLines(l + Flatten(rest)) == MergeFirst(l, rest)
    ensures AreLines(MergeFirst(l, rest))
  {
    if EndsInReturn(l) && rest[0] == "\n" {
      assert rest == ["\n"] + rest[1..];
      SplitMeeting(l, rest[1..]);
    } else {
      LinesTail(rest);
      assert Flatten(rest)[0] == rest[0][0];
      SplitFirst(l, Flatten(rest));
      LinesPrepended(l, rest);
    }
  }

  /** Splitting joined lines gives them back, up to merging. */
  lemma {:induction false} SplitOfJoined(ls: seq<string>)
    requires AreLines(ls)
    ensures SplitLines(Flatten(ls)) == Merge(ls) && AreLines(Merge(ls)) && Flatten(Merge(ls)) == Flatten(ls)
    ensures ls != [] ==> Merge(ls) != []
  {
    if |ls| == 1 {
      assert ls == [ls[0]] && Flatten(ls) == ls[0] + Flatten(ls[1..]) == ls[0] + "";
      SplitFirst(ls[0], "");
    } else if |ls| > 1 {
      SplitOfJoined(ls[1..]);
      assert Ended(ls[0]);
      SplitPrepended(ls[0], Merge(ls[1..]));
      LinesOf(Flatten(ls));
    }
  }
}
