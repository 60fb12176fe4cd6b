/** What becomes of the lines of an environment file that assign no replaced key: comments, blank lines
    and other assignments. */
module EnvOtherLines {
  import opened Sequences
  import opened EnvLines
  import opened EnvSyntax
  import opened EnvFile
  import opened EnvReading
  import opened EnvPromises
  import opened EnvQuoting

  function Keeps(u: Update): string -> bool { (l: string) => !u.Has(l) }

  lemma PieceKeeps(l: string, u: Update, updated: set<string>)
    requires u.Valid() && IsLine(l)
    ensures Filter(Piece(l, u, updated), Keeps(u)) == if Keeps(u)(l) then [l] else []
  {
    if u.Has(l) {
      RewrittenReadsBack(l, u);
      FilterNone(Piece(l, u, updated), Keeps(u));
    } else {
      FilterAll(Piece(l, u, updated), Keeps(u));
    }
  }

  /** Rewriting drops no line that does not assign a replaced key. */
  lemma {:induction false} OthersAreKept(ls: seq<string>, u: Update, updated: set<string>)
    requires u.Valid() && AreLines(ls)
    ensures Filter(Out(ls, u, updated), Keeps(u)) == Filter(ls, Keeps(u))
  {
    if ls != [] {
      LinesTail(ls);
      OthersAreKept(ls[1..], u, Next(ls[0], u, updated));
      PieceKeeps(ls[0], u, updated);
      FilterConcat(Piece(ls[0], u, updated), Out(ls[1..], u, Next(ls[0], u, updated)), Keeps(u));
    }
  }

  /** The line assigns a replaced key that was written before it. */
  predicate Dropped(ls: seq<string>, u: Update, updated: set<string>, k: nat)
    requires k < |ls|
  {
    u.Has(ls[k]) && (Key(ls[k]) in updated || exists h :: 0 <= h < k && Writes(u, Key(ls[k]))(ls[h]))
  }

  function Writes(u: Update, key: string): string -> bool { (l: string) => u.Has(l) && Key(l) == key }

  lemma EarlierTail(ls: seq<string>, p: string -> bool, k: nat)
    requires 0 < k < |ls|
    ensures (exists h :: 0 <= h < k && p(ls[h])) <==> p(ls[0]) || exists h :: 0 <= h < k - 1 && p(ls[1..][h])
  {
    var rest := ls[1..];
    if exists h :: 0 <= h < k && p(ls[h]) {
      var h :| 0 <= h < k && p(ls[h]);
      assert h > 0 ==> rest[h - 1] == ls[h];
    }
    if exists h :: 0 <= h < k - 1 && p(rest[h]) {
      var h :| 0 <= h < k - 1 && p(rest[h]);
      assert rest[h] == ls[h + 1];
    }
  }

  lemma DroppedTail(ls: seq<string>, u: Update, updated: set<string>, k: nat)
    requires 0 < k < |ls|
    ensures Dropped(ls, u, updated, k) <==> Dropped(ls[1..], u, Next(ls[0], u, updated), k - 1)
  {
    assert ls[1..][k - 1] == ls[k];
    if u.Has(ls[k]) {
      EarlierTail(ls, Writes(u, Key(ls[k])), k);
    }
  }

  /** Only dropped lines stand before the blank line at `j`. */
  predicate OpensBlank(ls: seq<string>, u: Update, updated: set<string>, j: nat) {
    j < |ls| && ls[j] == "\n" && forall k :: 0 <= k < j ==> Dropped(ls, u, updated, k)
  }

  /** Only dropped lines stand between a kept line that ends in a lone return and the blank line at `j`. */
  predicate Gap(ls: seq<string>, u: Update, updated: set<string>, i: nat, j: nat) {
    && i < j < |ls| && Keeps(u)(ls[i]) && EndsInReturn(ls[i]) && ls[j] == "\n"
    && forall k :: i < k < j ==> Dropped(ls, u, updated, k)
  }

  ghost predicate SomeOpensBlank(ls: seq<string>, u: Update, updated: set<string>) {
    exists j: nat :: OpensBlank(ls, u, updated, j)
  }

  ghost predicate SomeGap(ls: seq<string>, u: Update, updated: set<string>) {
    exists i: nat, j: nat :: Gap(ls, u, updated, i, j)
  }

  /** Two neighbours that become one line. */
  ghost predicate SomeMeet(ls: seq<string>) {
    exists i :: 0 <= i < |ls| - 1 && EndsInReturn(ls[i]) && ls[i + 1] == "\n"
  }

  predicate StartsBlank(ls: seq<string>) { ls != [] && ls[0] == "\n" }

  /** Being dropped is the same from the second line on. */
  lemma DroppedRun(ls: seq<string>, u: Update, updated: set<string>, from: nat, to: nat)
    requires 0 < from <= to <= |ls|
    ensures (forall k :: from <= k < to ==> Dropped(ls, u, updated, k))
            <==> forall k :: from - 1 <= k < to - 1 ==> Dropped(ls[1..], u, Next(ls[0], u, updated), k)
  {
    var rest, next := ls[1..], Next(ls[0], u, updated);
    if forall k :: from <= k < to ==> Dropped(ls, u, updated, k) {
      forall k | from - 1 <= k < to - 1 ensures Dropped(rest, u, next, k) {
        DroppedTail(ls, u, updated, k + 1);
      }
    }
    if forall k :: from - 1 <= k < to - 1 ==> Dropped(rest, u, next, k) {
      forall k | from <= k < to ensures Dropped(ls, u, updated, k) {
        DroppedTail(ls, u, updated, k);
        assert Dropped(rest, u, next, k - 1);
      }
    }
  }

  lemma OpensBlankTail(ls: seq<string>, u: Update, updated: set<string>, j: nat)
    requires ls != []
    ensures OpensBlank(ls, u, updated, j + 1) <==>
              Dropped(ls, u, updated, 0) && OpensBlank(ls[1..], u, Next(ls[0], u, updated), j)
  {
    if j + 1 < |ls| {
      DroppedRun(ls, u, updated, 1, j + 1);
    }
  }

  lemma GapTail(ls: seq<string>, u: Update, updated: set<string>, i: nat, j: nat)
    requires ls != []
    ensures Gap(ls, u, updated, i + 1, j + 1) <==> Gap(ls[1..], u, Next(ls[0], u, updated), i, j)
    ensures Gap(ls, u, updated, 0, j + 1) <==>
              Keeps(u)(ls[0]) && EndsInReturn(ls[0]) && OpensBlank(ls[1..], u, Next(ls[0], u, updated), j)
  {
    if j + 1 < |ls| {
      DroppedRun(ls, u, updated, 1, j + 1);
      if i < j {
        DroppedRun(ls, u, updated, i + 2, j + 1);
      }
    }
  }

  lemma SomeOpensBlankFirst(ls: seq<string>, u: Update, updated: set<string>)
    requires ls != []
    ensures SomeOpensBlank(ls, u, updated) <==>
              ls[0] == "\n" || (Dropped(ls, u, updated, 0) && SomeOpensBlank(ls[1..], u, Next(ls[0], u, updated)))
  {
    if ls[0] == "\n" {
      assert OpensBlank(ls, u, updated, 0);
    }
    if SomeOpensBlank(ls, u, updated) {
      var j: nat :| OpensBlank(ls, u, updated, j);
      if j > 0 {
        OpensBlankTail(ls, u, updated, j - 1);
      }
    }
    if Dropped(ls, u, updated, 0) && SomeOpensBlank(ls[1..], u, Next(ls[0], u, updated)) {
      var j: nat :| OpensBlank(ls[1..], u, Next(ls[0], u, updated), j);
      OpensBlankTail(ls, u, updated, j);
    }
  }

  lemma SomeGapFirst(ls: seq<string>, u: Update, updated: set<string>)
    requires ls != []
    ensures var rest, next := ls[1..], Next(ls[0], u, updated);
            SomeGap(ls, u, updated) <==>
              (Keeps(u)(ls[0]) && EndsInReturn(ls[0]) && SomeOpensBlank(rest, u, next)) || SomeGap(rest, u, next)
  {
    var rest, next := ls[1..], Next(ls[0], u, updated);
    if SomeGap(ls, u, updated) {
      var i: nat, j: nat :| Gap(ls, u, updated, i, j);
      GapTail(ls, u, updated, if i == 0 then 0 else i - 1, j - 1);
    }
    if Keeps(u)(ls[0]) && EndsInReturn(ls[0]) && SomeOpensBlank(rest, u, next) {
      var j: nat :| OpensBlank(rest, u, next, j);
      GapTail(ls, u, updated, 0, j);
      assert Gap(ls, u, updated, 0, j + 1);
    }
    if SomeGap(rest, u, next) {
      var i: nat, j: nat :| Gap(rest, u, next, i, j);
      GapTail(ls, u, updated, i, j);
      assert Gap(ls, u, updated, i + 1, j + 1);
    }
  }

  lemma SomeMeetFirst(l: string, rest: seq<string>)
    ensures SomeMeet([l] + rest) <==> (EndsInReturn(l) && StartsBlank(rest)) || SomeMeet(rest)
  {
    var ls := [l] + rest;
    if EndsInReturn(l) && StartsBlank(rest) {
      assert EndsInReturn(ls[0]) && ls[0 + 1] == "\n";
    }
    if SomeMeet(rest) {
      var i :| 0 <= i < |rest| - 1 && EndsInReturn(rest[i]) && rest[i + 1] == "\n";
      assert EndsInReturn(ls[i + 1]) && ls[i + 1 + 1] == "\n";
    }
    if SomeMeet(ls) {
      var i :| 0 <= i < |ls| - 1 && EndsInReturn(ls[i]) && ls[i + 1] == "\n";
      if i > 0 {
        assert EndsInReturn(rest[i - 1]) && rest[i - 1 + 1] == "\n";
      }
    }
  }

  lemma RewrittenIsNotBlank(l: string, u: Update)
    requires u.Has(l)
    ensures !EndsInReturn(Rewritten(l, u)) && Rewritten(l, u) != "\n" && l != "\n"
  {
    RewrittenEnds(l, u);
    NewlineSaysNothing(Untouched(u));
    assert Rewritten(l, u)[|Prefix(l)|..][|Key(l)|] == '=';
  }

  /** Lines come to meet in the rewritten lines exactly where a dropped duplicate kept them apart. */
  lemma {:induction false} MeetIffGap(ls: seq<string>, u: Update, updated: set<string>)
    ensures StartsBlank(Out(ls, u, updated)) <==> SomeOpensBlank(ls, u, updated)
    ensures SomeMeet(Out(ls, u, updated)) <==> SomeGap(ls, u, updated)
  {
    if ls != [] {
      var rest := Out(ls[1..], u, Next(ls[0], u, updated));
      MeetIffGap(ls[1..], u, Next(ls[0], u, updated));
      SomeOpensBlankFirst(ls, u, updated);
      SomeGapFirst(ls, u, updated);
      if u.Has(ls[0]) {
        RewrittenIsNotBlank(ls[0], u);
      }
      if Dropped(ls, u, updated, 0) {
        assert Out(ls, u, updated) == rest;
      } else {
        var l := Piece(ls[0], u, updated)[0];
        assert Out(ls, u, updated) == [l] + rest;
        SomeMeetFirst(l, rest);
      }
    }
  }

  // ---------------------------------------------------------------------------------------
  // The new text, read again

  lemma SomeMeetConcat(a: seq<string>, b: seq<string>)
    ensures SomeMeet(a + b) <==>
              SomeMeet(a) || SomeMeet(b) || (a != [] && EndsInReturn(a[|a| - 1]) && StartsBlank(b))
    decreases |a|
  {
    if a == [] {
      assert a + b == b;
    } else {
      assert a == [a[0]] + a[1..] && a + b == [a[0]] + (a[1..] + b);
      SomeMeetFirst(a[0], a[1..] + b);
      SomeMeetFirst(a[0], a[1..]);
      SomeMeetConcat(a[1..], b);
    }
  }

  lemma {:induction false} MergeStarts(ls: seq<string>)
    requires ls != [] && forall i :: 0 <= i < |ls| ==> ls[i] != ""
    ensures StartsBlank(Merge(ls)) <==> StartsBlank(ls)
  {
    if |ls| > 1 {
      MergeStarts(ls[1..]);
    }
  }

  lemma {:induction false} NoMeetNoMerge(ls: seq<string>)
    requires !SomeMeet(ls) && forall i :: 0 <= i < |ls| ==> ls[i] != ""
    ensures Merge(ls) == ls
  {
    if |ls| > 1 {
      assert ls == [ls[0]] + ls[1..];
      SomeMeetFirst(ls[0], ls[1..]);
      NoMeetNoMerge(ls[1..]);
    }
  }

  /** Somewhere before its end the list on the right has a shorter line. */
  ghost predicate Longer(a: seq<string>, b: seq<string>) {
    exists p :: 0 <= p < |a| && p < |b| - 1 && |a[p]| > |b[p]|
  }

  lemma LongerLater(l: string, a: seq<string>, b: seq<string>)
    requires Longer(a, b)
    ensures Longer([l] + a, [l] + b)
  {
    var p :| 0 <= p < |a| && p < |b| - 1 && |a[p]| > |b[p]|;
    assert ([l] + a)[p + 1] == a[p] && ([l] + b)[p + 1] == b[p];
  }

  lemma FilterFirst(l: string, rest: seq<string>, u: Update)
    ensures Filter([l] + rest, Keeps(u)) == (if Keeps(u)(l) then [l] else []) + Filter(rest, Keeps(u))
  {
    assert ([l] + rest)[1..] == rest;
  }

  lemma GrownLineIsKept(l: string, u: Update)
    requires IsLine(l) && (EndsInReturn(l) || !Ended(l)) && Keeps(u)(l)
    ensures Keeps(u)(l + "\n")
  {
    GrownLineReads(l, Untouched(u));
  }

  lemma BlankIsKept(u: Update)
    ensures Keeps(u)("\n")
  {
    NewlineSaysNothing(Untouched(u));
  }

  lemma MeetingIsLonger(l: string, rest: seq<string>, merged: seq<string>, u: Update)
    requires IsLine(l) && EndsInReturn(l) && Keeps(u)(l) && StartsBlank(rest)
    ensures Longer(Filter([l + "\n"] + merged, Keeps(u)), Filter([l] + rest, Keeps(u)))
  {
    GrownLineIsKept(l, u);
    BlankIsKept(u);
    FilterFirst(l + "\n", merged, u);
    FilterFirst(l, rest, u);
    assert rest == ["\n"] + rest[1..];
    FilterFirst("\n", rest[1..], u);
    var a, b := Filter([l + "\n"] + merged, Keeps(u)), Filter([l] + rest, Keeps(u));
    assert a[0] == l + "\n" && b[0] == l && |b| > 1;
  }

  lemma {:induction false} MergingShows(ls: seq<string>, u: Update)
    requires SomeMeet(ls) && forall i :: 0 <= i < |ls| ==> IsLine(ls[i]) && (u.Has(ls[i]) ==> !EndsInReturn(ls[i]))
    ensures Longer(Filter(Merge(ls), Keeps(u)), Filter(ls, Keeps(u)))
  {
    var l, rest := ls[0], ls[1..];
    assert ls == [l] + rest;
    SomeMeetFirst(l, rest);
    MergeStarts(rest);
    if EndsInReturn(l) && StartsBlank(rest) {
      MeetingIsLonger(l, rest, Merge(rest)[1..], u);
    } else {
      MergingShows(rest, u);
      assert Merge(ls) == [l] + Merge(rest);
      FilterFirst(l, rest, u);
      FilterFirst(l, Merge(rest), u);
      if Keeps(u)(l) {
        LongerLater(l, Filter(Merge(rest), Keeps(u)), Filter(rest, Keeps(u)));
      } else {
        assert [] + Filter(rest, Keeps(u)) == Filter(rest, Keeps(u));
        assert [] + Filter(Merge(rest), Keeps(u)) == Filter(Merge(rest), Keeps(u));
      }
    }
  }

  lemma FilterLast(front: seq<string>, last: string, u: Update)
    requires Keeps(u)(last)
    ensures Filter(front + [last], Keeps(u)) == Filter(front, Keeps(u)) + [last]
  {
    FilterConcat(front, [last], Keeps(u));
    FilterAll([last], Keeps(u));
  }

  lemma ClosedLast(front: seq<string>, last: string)
    requires !IsClosed(last)
    ensures ClosedLines(front + [last]) == if Ended(last) then front + [last] + ["\n"] else front + [last + "\n"]
  {
    assert (front + [last])[..|front|] == front;
  }

  lemma ClosedKeepsLast(front: seq<string>, last: string, u: Update)
    requires Keeps(u)(last) && !IsClosed(last) && IsLine(last)
    ensures Filter(ClosedLines(front + [last]), Keeps(u)) == ClosedLines(Filter(front + [last], Keeps(u)))
  {
    FilterLast(front, last, u);
    ClosedLast(front, last);
    ClosedLast(Filter(front, Keeps(u)), last);
    if Ended(last) {
      BlankIsKept(u);
      FilterLast(front + [last], "\n", u);
    } else {
      GrownLineIsKept(last, u);
      FilterLast(front, last + "\n", u);
    }
  }

  /** Closing the rewritten lines closes the last kept line, or nothing. */
  lemma ClosedKeeps(out: seq<string>, u: Update)
    requires AreLines(out) && forall i :: 0 <= i < |out| ==> IsFinal(out[i], u)
    ensures var kept, closed := Filter(out, Keeps(u)), Filter(ClosedLines(out), Keeps(u));
            closed == kept || closed == ClosedLines(kept)
  {
    if out != [] && !IsClosed(out[|out| - 1]) {
      assert out == out[..|out| - 1] + [out[|out| - 1]];
      ClosedKeepsLast(out[..|out| - 1], out[|out| - 1], u);
    }
  }

  lemma ClosingMeets(out: seq<string>)
    requires AreLines(out)
    ensures SomeMeet(ClosedLines(out)) <==> SomeMeet(out)
  {
    if out != [] && !IsClosed(out[|out| - 1]) {
      var front, last := out[..|out| - 1], out[|out| - 1];
      assert out == front + [last];
      if Ended(last) {
        SomeMeetConcat(out, ["\n"]);
      } else {
        SomeMeetConcat(front, [last]);
        SomeMeetConcat(front, [last + "\n"]);
      }
    }
  }

  lemma AppendedAreReplaced(keys: seq<string>, u: Update)
    requires u.Valid() && forall k :: k in keys ==> k in u.values
    ensures var app := Map(keys, Appended(u));
            Filter(app, Keeps(u)) == [] && !StartsBlank(app) && !SomeMeet(app)
            && forall i :: 0 <= i < |app| ==> IsLine(app[i]) && !EndsInReturn(app[i])
  {
    var app := Map(keys, Appended(u));
    NewlineSaysNothing(Untouched(u));
    forall i | 0 <= i < |app| ensures u.Has(app[i]) && app[i] != "\n" && IsLine(app[i]) && !EndsInReturn(app[i]) {
      assert keys[i] in keys;
      AssignmentReadsBack("", keys[i], u, "\n");
    }
    FilterNone(app, Keeps(u));
  }

  lemma NewLinesKeep(text: string, u: Update)
    requires u.Valid() && u.keys != []
    ensures var ls := SplitLines(text);
            var kept, lines := Filter(ls, Keeps(u)), NewLines(ls, u);
            && (Filter(lines, Keeps(u)) == kept || Filter(lines, Keeps(u)) == ClosedLines(kept))
            && (SomeMeet(lines) <==> SomeGap(ls, u, {}))
            && forall i :: 0 <= i < |lines| ==> IsLine(lines[i]) && (u.Has(lines[i]) ==> !EndsInReturn(lines[i]))
  {
    var ls := SplitLines(text);
    var out, keys := Out(ls, u, {}), Remaining(ls, u);
    LinesOf(text);
    NewText(text, u);
    OutIsLines(ls, u, {});
    OutIsSettled(ls, u, {});
    OthersAreKept(ls, u, {});
    ClosedKeeps(out, u);
    RemainingAreKeys(ls, u);
    AppendedAreReplaced(keys, u);
    FilterConcat(ClosedLines(out), Map(keys, Appended(u)), Keeps(u));
    MeetIffGap(ls, u, {});
    ClosingMeets(out);
    SomeMeetConcat(ClosedLines(out), Map(keys, Appended(u)));
    NewLinesAreSettled(ls, u);
    forall i | 0 <= i < |NewLines(ls, u)| && u.Has(NewLines(ls, u)[i]) ensures !EndsInReturn(NewLines(ls, u)[i]) {
      RewrittenEnds(NewLines(ls, u)[i], u);
    }
  }

  lemma LongerIsNeither(after: seq<string>, lines: seq<string>, before: seq<string>)
    requires lines == before || lines == ClosedLines(before)
    requires Longer(after, lines)
    ensures after != before && after != ClosedLines(before)
  {
    var p :| 0 <= p < |after| && p < |lines| - 1 && |after[p]| > |lines[p]|;
    assert p < |before| && before[p] == lines[p] == ClosedLines(before)[p];
  }

  /** The lines of `text` that assign no replaced key. */
  function Others(text: string, u: Update): seq<string> { Filter(SplitLines(text), Keeps(u)) }

  /** Every line that assigns no replaced key survives, in order, up to a final newline, exactly when the
      text has no gap: no line that ends in a lone return is parted from a blank line by nothing but
      duplicates that are dropped. */
  lemma OtherLinesSurviveIff(text: string, u: Update)
    requires u.Valid()
    ensures Others(UpdatedText(text, u), u) == Others(text, u)
            || Others(UpdatedText(text, u), u) == ClosedLines(Others(text, u))
            <==> !exists i: nat, j: nat :: Gap(SplitLines(text), u, {}, i, j)
  {
    var ls := SplitLines(text);
    LinesOf(text);
    if u.keys == [] {
      forall i: nat, j: nat ensures !Gap(ls, u, {}, i, j) {
        if i + 1 < j < |ls| {
          assert !Dropped(ls, u, {}, i + 1);
        }
      }
    } else {
      var lines := NewLines(ls, u);
      NewLinesKeep(text, u);
      NewText(text, u);
      if SomeMeet(lines) {
        MergingShows(lines, u);
        LongerIsNeither(Others(UpdatedText(text, u), u), Filter(lines, Keeps(u)), Others(text, u));
      } else {
        NoMeetNoMerge(lines);
      }
    }
  }

  lemma {:induction false} LinePartOfText(ls: seq<string>, i: nat, c: char)
    requires i < |ls| && c in ls[i]
    ensures c in Flatten(ls)
  {
    if i > 0 {
      LinePartOfText(ls[1..], i - 1, c);
    }
  }

  lemma GapHasReturn(text: string, u: Update, i: nat, j: nat)
    ensures Gap(SplitLines(text), u, {}, i, j) ==> '\r' in text
  {
    LinesOf(text);
    if Gap(SplitLines(text), u, {}, i, j) {
      LinePartOfText(SplitLines(text), i, '\r');
    }
  }

  /** The configuration file is read with every line end as a newline, so the text that arrives has no
      return, and on such a text every line that assigns no replaced key survives. */
  lemma LinesSurviveAsRead(text: string, u: Update)
    requires u.Valid() && '\r' !in text
    ensures Others(UpdatedText(text, u), u) == Others(text, u)
            || Others(UpdatedText(text, u), u) == ClosedLines(Others(text, u))
  {
    forall i: nat, j: nat ensures !Gap(SplitLines(text), u, {}, i, j) {
      GapHasReturn(text, u, i, j);
    }
    OtherLinesSurviveIff(text, u);
  }

  lemma OneMoreLine(l: string, rest: string, ls: seq<string>)
    requires IsLine(l) && Ended(l) && rest != "" && SplitLines(rest) == ls
    requires EndsInReturn(l) ==> rest[0] != '\n'
    ensures SplitLines(l + rest) == [l] + ls && (l + rest)[0] == l[0]
  {
    SplitFirst(l, rest);
  }

  lemma LastLine(l: string)
    requires IsLine(l)
    ensures SplitLines(l) == [l]
  {
    SplitFirst(l, "");
    assert l + "" == l;
  }

  lemma FourLines(a: string, b: string, c: string, d: string)
    requires IsLine(a) && Ended(a) && IsLine(b) && Ended(b) && IsLine(c) && Ended(c) && IsLine(d)
    requires !EndsInReturn(a) && c[0] != '\n' && !EndsInReturn(c)
    ensures SplitLines(a + (b + (c + d))) == [a, b, c, d]
  {
    LastLine(d);
    OneMoreLine(c, d, [d]);
    OneMoreLine(b, c + d, [c] + [d]);
    OneMoreLine(a, b + (c + d), [b] + ([c] + [d]));
  }

  lemma AssignmentLine(value: string)
    requires NoBreaks(value)
    ensures var l := "K=" + value + "\n"; IsLine(l) && Ended(l) && !EndsInReturn(l) && l[0] == 'K' && Parse(l).Some? && Key(l) == "K"
  {
    ParseOfAssignment("", "K", value + "\n");
    assert "" + "K" + "=" + (value + "\n") == "K=" + value + "\n";
    LineOfBody("K=" + value, "\n");
  }

  lemma CommentLine(l: string)
    requires l == "#\r"
    ensures IsLine(l) && Ended(l) && EndsInReturn(l) && l[0] == '#' && Parse(l).None?
  {
    assert l[1..] == "\r";
  }

  /** An input on which a line is lost, though not one the configuration service can pass: the second
      assignment of `K` is dropped, and the blank line after it becomes the end of the comment before it. */
  lemma BlankLineIsLost(u: Update)
    requires u.Valid() && u.values.Keys == {"K"}
    ensures var text := "K=1\n" + ("#\r" + ("K=2\n" + "\n"));
            && SplitLines(text) == ["K=1\n", "#\r", "K=2\n", "\n"]
            && Others(UpdatedText(text, u), u) != Others(text, u)
            && Others(UpdatedText(text, u), u) != ClosedLines(Others(text, u))
  {
    var a, b, c, d := "K=1\n", "#\r", "K=2\n", "\n";
    assert a == "K=" + "1" + "\n" && c == "K=" + "2" + "\n";
    AssignmentLine("1");
    AssignmentLine("2");
    CommentLine(b);
    FourLines(a, b, c, d);
    TextIsCut(a, b, c, d, u);
  }

  lemma TextIsCut(a: string, b: string, c: string, d: string, u: Update)
    requires u.Valid() && u.Has(a) && u.Has(c) && Key(a) == Key(c) && Parse(b).None? && EndsInReturn(b) && d == "\n"
    requires SplitLines(a + (b + (c + d))) == [a, b, c, d]
    ensures var text := a + (b + (c + d));
            && Others(UpdatedText(text, u), u) != Others(text, u)
            && Others(UpdatedText(text, u), u) != ClosedLines(Others(text, u))
  {
    var ls := [a, b, c, d];
    assert u.Has(ls[0]) && Dropped(ls, u, {}, 2);
    assert Gap(ls, u, {}, 1, 3);
    OtherLinesSurviveIff(a + (b + (c + d)), u);
  }
}
