/** Greedy word wrapping. */
module TextWrap {
  import opened Chars
  import opened Sequences

  // ---------------------------------------------------------------------------------------
  // Words

  predicate IsWord(w: string) {
    w != "" && forall i :: 0 <= i < |w| ==> !IsSpace(w[i])
  }

  predicate AreWords(ws: seq<string>) {
    forall i :: 0 <= i < |ws| ==> IsWord(ws[i])
  }

  /** `str.split()`: the maximal runs of non-space characters; `current` is the run being read. */
  function SplitFrom(s: string, current: string): (ws: seq<string>)
    requires current == "" || IsWord(current)
    ensures AreWords(ws)
    decreases |s|
  {
    if s == "" then (if current == "" then [] else [current])
    else if IsSpace(s[0]) then (if current == "" then [] else [current]) + SplitFrom(s[1..], "")
    else SplitFrom(s[1..], current + [s[0]])
  }

  function Split(s: string): (ws: seq<string>)
    ensures AreWords(ws)
  {
    SplitFrom(s, "")
  }

  function JoinWords(ws: seq<string>): string {
    if ws == [] then ""
    else if |ws| == 1 then ws[0]
    else JoinWords(ws[..|ws| - 1]) + " " + ws[|ws| - 1]
  }

  lemma {:induction false} JoinFromFront(ws: seq<string>)
    requires |ws| > 1
    ensures JoinWords(ws) == ws[0] + " " + JoinWords(ws[1..])
  {
    if |ws| > 2 {
      var front := ws[..|ws| - 1];
      JoinFromFront(front);
      assert ws[1..][..|ws| - 2] == front[1..];
    } else {
      assert ws[..1] == [ws[0]] && ws[1..] == [ws[1]];
    }
  }

  lemma {:induction false} SplitReadsWord(w: string, rest: string, current: string)
    requires current == "" || IsWord(current)
    requires w == "" || IsWord(w)
    ensures current + w == "" || IsWord(current + w)
    ensures SplitFrom(w + rest, current) == SplitFrom(rest, current + w)
    decreases |w|
  {
    if w == "" {
      assert w + rest == rest && current + w == current;
    } else {
      assert (w + rest)[1..] == w[1..] + rest;
      assert current + [w[0]] + w[1..] == current + w;
      SplitReadsWord(w[1..], rest, current + [w[0]]);
    }
  }

  /** A joined line gives its words back. */
  lemma {:induction false} SplitOfJoin(ws: seq<string>)
    requires AreWords(ws)
    ensures Split(JoinWords(ws)) == ws
    decreases |ws|
  {
    if |ws| == 1 {
      assert ws[0] + "" == ws[0];
      SplitReadsWord(ws[0], "", "");
      assert "" + ws[0] == ws[0] && ws == [ws[0]];
    } else if |ws| > 1 {
      JoinFromFront(ws);
      var rest := " " + JoinWords(ws[1..]);
      assert JoinWords(ws) == ws[0] + rest;
      SplitReadsWord(ws[0], rest, "");
      assert "" + ws[0] == ws[0] && rest[1..] == JoinWords(ws[1..]);
      SplitOfJoin(ws[1..]);
    }
  }

  // ---------------------------------------------------------------------------------------
  // Lines

  /** A line fits, or is a single overlong word. */
  predicate Fits(group: seq<string>, width: int) {
    |group| == 1 || (|group| > 1 && |JoinWords(group)| <= width)
  }

  /** A split of the words into consecutive lines under the wrapping rule. */
  ghost predicate IsBreaking(groups: seq<seq<string>>, words: seq<string>, width: int) {
    && Flatten(groups) == words
    && forall i :: 0 <= i < |groups| ==> Fits(groups[i], width)
  }

  /** A breaking in which no line could have taken the word that opens the next line. */
  ghost predicate IsGreedy(groups: seq<seq<string>>, words: seq<string>, width: int) {
    && IsBreaking(groups, words, width)
    && forall i :: 0 <= i < |groups| - 1 ==> |JoinWords(groups[i])| + 1 + |groups[i + 1][0]| > width
  }

  function Render(groups: seq<seq<string>>): (lines: seq<string>)
    ensures |lines| == |groups|
    ensures forall i :: 0 <= i < |groups| ==> lines[i] == JoinWords(groups[i])
  {
    seq(|groups|, i requires 0 <= i < |groups| => JoinWords(groups[i]))
  }

  /** What the loop knows after some of the words: the finished lines, the current one, and the groups of
      words they stand for. */
  ghost predicate Wrapped(lines: seq<string>, current: string, groups: seq<seq<string>>, group: seq<string>,
                          words: seq<string>, width: int)
  {
    && group != [] && current == JoinWords(group) && lines == Render(groups)
    && IsGreedy(groups + [group], words, width)
  }

  lemma WordJoinsLine(lines: seq<string>, current: string, groups: seq<seq<string>>, group: seq<string>,
                      words: seq<string>, width: int, word: string)
    requires Wrapped(lines, current, groups, group, words, width) && |current| + |word| + 1 <= width
    ensures Wrapped(lines, current + " " + word, groups, group + [word], words + [word], width)
  {
    assert (group + [word])[..|group|] == group;
    GreedyGrows(groups, group, word, words, width);
  }

  lemma WordOpensLine(lines: seq<string>, current: string, groups: seq<seq<string>>, group: seq<string>,
                      words: seq<string>, width: int, word: string)
    requires Wrapped(lines, current, groups, group, words, width) && |current| + |word| + 1 > width
    ensures Wrapped(lines + [current], word, groups + [group], [word], words + [word], width)
  {
    GreedyBreaks(groups, group, word, words, width);
    assert Render(groups + [group]) == Render(groups) + [JoinWords(group)];
  }

  method WrapWords(words: seq<string>, width: int) returns (lines: seq<string>)
    ensures words == [] ==> lines == [""]
    ensures words != [] ==> exists groups :: IsGreedy(groups, words, width) && lines == Render(groups)
  {
    if words == [] {
      return [""];
    }
    lines := [];
    var current := words[0];
    ghost var groups, group := [], [words[0]];
    assert [words[0]] == words[..1] && [[words[0]]][1..] == [];
    for i := 1 to |words|
      invariant Wrapped(lines, current, groups, group, words[..i], width)
    {
      var word := words[i];
      assert words[..i + 1] == words[..i] + [word];
      if |current| + |word| + 1 <= width {
        WordJoinsLine(lines, current, groups, group, words[..i], width, word);
        current := current + " " + word;
        group := group + [word];
      } else {
        WordOpensLine(lines, current, groups, group, words[..i], width, word);
        lines := lines + [current];
        groups, group := groups + [group], [word];
        current := word;
      }
    }
    lines := lines + [current];
    assert words[..|words|] == words;
    assert lines == Render(groups + [group]);
  }

  lemma GreedyGrows(groups: seq<seq<string>>, group: seq<string>, word: string, words: seq<string>, width: int)
    requires IsGreedy(groups + [group], words, width) && group != []
    requires |JoinWords(group)| + |word| + 1 <= width
    ensures IsGreedy(groups + [group + [word]], words + [word], width)
  {
    var before, after := groups + [group], groups + [group + [word]];
    FlattenSnoc(groups, group);
    FlattenSnoc(groups, group + [word]);
    assert (group + [word])[..|group|] == group;
    assert forall i :: 0 <= i < |groups| ==> after[i] == before[i];
    forall i | 0 <= i < |after| - 1 ensures |JoinWords(after[i])| + 1 + |after[i + 1][0]| > width {
      assert after[i] == before[i] && after[i + 1][0] == before[i + 1][0];
    }
  }

  lemma GreedyBreaks(groups: seq<seq<string>>, group: seq<string>, word: string, words: seq<string>, width: int)
    requires IsGreedy(groups + [group], words, width)
    requires |JoinWords(group)| + |word| + 1 > width
    ensures IsGreedy(groups + [group] + [[word]], words + [word], width)
  {
    var before, after := groups + [group], groups + [group] + [[word]];
    FlattenSnoc(before, [word]);
    forall i | 0 <= i < |after| ensures Fits(after[i], width) {
      if i < |before| { assert after[i] == before[i]; }
    }
    forall i | 0 <= i < |after| - 1 ensures |JoinWords(after[i])| + 1 + |after[i + 1][0]| > width {
      if i < |before| - 1 {
        assert after[i] == before[i] && after[i + 1] == before[i + 1];
      } else {
        assert after[i] == group && after[i + 1] == [word];
      }
    }
  }

  // ---------------------------------------------------------------------------------------
  // Optimality

  /** The characters of the words with one separator each. */
  function Extent(ws: seq<string>): nat {
    if ws == [] then 0 else |ws[0]| + 1 + Extent(ws[1..])
  }

  lemma {:induction false} ExtentConcat(a: seq<string>, b: seq<string>)
    ensures Extent(a + b) == Extent(a) + Extent(b)
  {
    if a == [] {
      assert a + b == b;
    } else {
      assert (a + b)[1..] == a[1..] + b;
      ExtentConcat(a[1..], b);
    }
  }

  lemma {:induction false} JoinedLength(ws: seq<string>)
    requires ws != []
    ensures |JoinWords(ws)| == Extent(ws) - 1
  {
    if |ws| > 1 {
      JoinedLength(ws[..|ws| - 1]);
      ExtentConcat(ws[..|ws| - 1], [ws[|ws| - 1]]);
      assert ws == ws[..|ws| - 1] + [ws[|ws| - 1]];
    }
  }

  /** The first greedy line reaches at least as far as the words of `tail` that the first line
      of any other breaking contains. */
  lemma FirstLineReaches(g: seq<seq<string>>, h: seq<seq<string>>, words: seq<string>, skip: nat, width: int)
    requires skip < |words| && IsGreedy(g, words[skip..], width) && IsBreaking(h, words, width)
    ensures g != [] && h != []
    ensures |g[0]| <= |words| - skip && g[0] == words[skip..skip + |g[0]|]
    ensures |h[0]| <= |words| && h[0] == words[..|h[0]|]
    ensures skip + |g[0]| >= |h[0]|
  {
    assert g[0] == words[skip..][..|g[0]|];
    var reach := skip + |g[0]|;
    if reach < |h[0]| {
      assert |h[0]| > 1;
      assert Flatten(g) == g[0] + Flatten(g[1..]);
      assert Flatten(g) == g[0] + (g[1] + Flatten(g[2..])) by { assert g[1..][1..] == g[2..]; }
      var next := g[1][0];
      assert next == words[skip..][|g[0]|] == words[reach];
      var taken := g[0] + [next];
      assert taken == words[skip..reach + 1];
      assert h[0] == words[..skip] + taken + words[reach + 1..|h[0]|];
      ExtentConcat(words[..skip] + taken, words[reach + 1..|h[0]|]);
      ExtentConcat(words[..skip], taken);
      ExtentConcat(g[0], [next]);
      JoinedLength(g[0]);
      JoinedLength(h[0]);
      assert false;
    }
  }

  /** Greedy lines of a tail never outnumber the lines of any breaking of the whole. */
  lemma {:induction false} GreedyStaysAhead(g: seq<seq<string>>, h: seq<seq<string>>, words: seq<string>, skip: nat, width: int)
    requires skip <= |words| && IsGreedy(g, words[skip..], width) && IsBreaking(h, words, width)
    ensures |g| <= |h|
    decreases |h|
  {
    if skip == |words| {
      assert Flatten(g) == [];
    } else {
      FirstLineReaches(g, h, words, skip, width);
      var rest := words[|h[0]|..];
      assert Flatten(h[1..]) == rest;
      if |h[0]| <= skip {
        assert rest[skip - |h[0]|..] == words[skip..];
        GreedyStaysAhead(g, h[1..], rest, skip - |h[0]|, width);
      } else {
        var reach := skip + |g[0]|;
        assert Flatten(g[1..]) == words[skip..][|g[0]|..] == words[reach..];
        assert rest[reach - |h[0]|..] == words[reach..];
        forall i | 0 <= i < |g[1..]| - 1 ensures |JoinWords(g[1..][i])| + 1 + |g[1..][i + 1][0]| > width {
          assert g[1..][i] == g[i + 1] && g[1..][i + 1] == g[i + 2];
        }
        GreedyStaysAhead(g[1..], h[1..], rest, reach - |h[0]|, width);
      }
    }
  }

  /** The greedy wrapping uses the fewest lines of any split under the same rule. */
  lemma GreedyIsOptimal(g: seq<seq<string>>, h: seq<seq<string>>, words: seq<string>, width: int)
    requires IsGreedy(g, words, width) && IsBreaking(h, words, width)
    ensures |g| <= |h|
  {
    assert words[0..] == words;
    GreedyStaysAhead(g, h, words, 0, width);
  }

  // ---------------------------------------------------------------------------------------
  // The whole of `_wrap`

  function LineWords(lines: seq<string>): seq<string> {
    if lines == [] then [] else Split(lines[0]) + LineWords(lines[1..])
  }

  lemma {:induction false} RenderedWords(groups: seq<seq<string>>)
    requires forall i :: 0 <= i < |groups| ==> AreWords(groups[i])
    ensures LineWords(Render(groups)) == Flatten(groups)
  {
    if groups != [] {
      assert Render(groups)[1..] == Render(groups[1..]);
      RenderedWords(groups[1..]);
      SplitOfJoin(groups[0]);
    }
  }

  lemma {:induction false} GroupsAreWords(groups: seq<seq<string>>)
    requires AreWords(Flatten(groups))
    ensures forall i :: 0 <= i < |groups| ==> AreWords(groups[i])
  {
    if groups != [] {
      var all := Flatten(groups);
      assert forall j :: 0 <= j < |groups[0]| ==> all[j] == groups[0][j];
      assert forall j :: 0 <= j < |Flatten(groups[1..])| ==> all[|groups[0]| + j] == Flatten(groups[1..])[j];
      GroupsAreWords(groups[1..]);
    }
  }

  method Wrap(value: string, width: int) returns (lines: seq<string>)
    // Reading the lines again gives exactly the words of the value, in order.
    ensures LineWords(lines) == Split(value)
    ensures lines != []
    // Every line fits the width or is one overlong word.
    ensures forall i :: 0 <= i < |lines| ==> |lines[i]| <= width || |Split(lines[i])| <= 1
    // No other split of the words into consecutive lines needs fewer lines.
    ensures Split(value) != [] ==> forall h :: IsBreaking(h, Split(value), width) ==> |lines| <= |h|
    ensures Split(value) == [] ==> lines == [""]
  {
    var words := Split(value);
    lines := WrapWords(words, width);
    if words != [] {
      ghost var groups :| IsGreedy(groups, words, width) && lines == Render(groups);
      GroupsAreWords(groups);
      RenderedWords(groups);
      forall i | 0 <= i < |lines| ensures |lines[i]| <= width || |Split(lines[i])| <= 1 {
        assert Fits(groups[i], width);
        SplitOfJoin(groups[i]);
      }
      forall h | IsBreaking(h, words, width) ensures |lines| <= |h| {
        GreedyIsOptimal(groups, h, words, width);
      }
    }
  }
}
