/** What `_update_env_text` promises, about its text read again. */
module EnvPromises {
  import opened Sequences
  import opened EnvLines
  import opened EnvSyntax
  import opened EnvFile
  import opened EnvReading

  lemma EndedLinesConcat(a: seq<string>, b: seq<string>)
    requires AreLines(a) && AreLines(b) && forall i :: 0 <= i < |a| ==> Ended(a[i])
    ensures AreLines(a + b)
  {}

  lemma NewText(text: string, u: Update)
    requires u.Valid() && u.keys != []
    ensures AreLines(NewLines(SplitLines(text), u))
    ensures SplitLines(UpdatedText(text, u)) == Merge(NewLines(SplitLines(text), u))
    ensures Flatten(Merge(NewLines(SplitLines(text), u))) == UpdatedText(text, u)
  {
    var ls := SplitLines(text);
    LinesOf(text);
    OutIsLines(ls, u, {});
    ClosedLinesAreLines(Out(ls, u, {}));
    RemainingAreKeys(ls, u);
    AppendedAreLines(Remaining(ls, u), u);
    EndedLinesConcat(ClosedLines(Out(ls, u, {})), Map(Remaining(ls, u), Appended(u)));
    SameText(ls, u);
    SplitOfJoined(NewLines(ls, u));
  }

  lemma NewTextReads(text: string, u: Update, keep: string -> bool)
    requires u.Valid() && u.keys != []
    ensures var ls := SplitLines(text);
            Bindings(SplitLines(UpdatedText(text, u)), keep)
            == Bindings(Out(ls, u, {}), keep) + NewBindings(Remaining(ls, u), u, keep)
  {
    var ls := SplitLines(text);
    LinesOf(text);
    NewText(text, u);
    MergeReads(NewLines(ls, u), keep);
    OutIsLines(ls, u, {});
    ClosedLinesRead(Out(ls, u, {}), keep);
    RemainingAreKeys(ls, u);
    AppendedReads(Remaining(ls, u), u, keep);
    BindingsConcat(ClosedLines(Out(ls, u, {})), Map(Remaining(ls, u), Appended(u)), keep);
  }

  /** Read again, the new text assigns each replaced key exactly once, to its new value. */
  lemma EachKeyIsAssignedOnce(text: string, u: Update, key: string)
    requires u.Valid() && key in u.values
    ensures Bindings(SplitLines(UpdatedText(text, u)), Is(key)) == NewBinding(u, key)
  {
    var ls := SplitLines(text);
    LinesOf(text);
    assert key in u.keys;
    NewTextReads(text, u, Is(key));
    OutWritesOnce(ls, u, {}, key);
    AssignsIff(ls, u, key);
    RemainingAreKeys(ls, u);
    NewBindingsOfOne(Remaining(ls, u), u, key);
  }

  /** All other assignments are there as before, in order, so every lookup of another key gives the
      same answer. */
  lemma OtherKeysAreUnchanged(text: string, u: Update)
    requires u.Valid()
    ensures Bindings(SplitLines(UpdatedText(text, u)), Untouched(u)) == Bindings(SplitLines(text), Untouched(u))
  {
    if u.keys != [] {
      LinesOf(text);
      NewTextReads(text, u, Untouched(u));
      OutKeepsOthers(SplitLines(text), u, {});
      NewBindingsOfOthers(Remaining(SplitLines(text), u), u);
    }
  }

  // ---------------------------------------------------------------------------------------
  // Applying an update twice

  /** A line that rewriting leaves alone. */
  predicate IsSettled(l: string, u: Update) { u.Has(l) ==> Rewritten(l, u) == l }

  /** Settled, and closed if it assigns a replaced key. */
  predicate IsFinal(l: string, u: Update) { IsSettled(l, u) && (u.Has(l) ==> IsClosed(l)) }

  lemma PieceIsFinal(l: string, u: Update, updated: set<string>)
    requires u.Valid() && IsLine(l)
    ensures forall i :: 0 <= i < |Piece(l, u, updated)| ==> IsFinal(Piece(l, u, updated)[i], u)
  {
    if u.Has(l) {
      RewrittenReadsBack(l, u);
    }
  }

  lemma FinalConcat(a: seq<string>, b: seq<string>, u: Update)
    requires forall i :: 0 <= i < |a| ==> IsFinal(a[i], u)
    requires forall i :: 0 <= i < |b| ==> IsFinal(b[i], u)
    ensures forall i :: 0 <= i < |a + b| ==> IsFinal((a + b)[i], u)
  {}

  lemma {:induction false} OutIsSettled(ls: seq<string>, u: Update, updated: set<string>)
    requires u.Valid() && AreLines(ls)
    ensures forall i :: 0 <= i < |Out(ls, u, updated)| ==> IsFinal(Out(ls, u, updated)[i], u)
  {
    if ls != [] {
      LinesTail(ls);
      OutIsSettled(ls[1..], u, Next(ls[0], u, updated));
      PieceIsFinal(ls[0], u, updated);
      FinalConcat(Piece(ls[0], u, updated), Out(ls[1..], u, Next(ls[0], u, updated)), u);
    }
  }

  lemma ClosedLinesAreSettled(out: seq<string>, u: Update)
    requires AreLines(out)
    requires forall i :: 0 <= i < |out| ==> IsFinal(out[i], u)
    ensures forall i :: 0 <= i < |ClosedLines(out)| ==> IsSettled(ClosedLines(out)[i], u)
  {
    NewlineSaysNothing(Untouched(u));
    if out != [] && !Ended(out[|out| - 1]) {
      GrownLineReads(out[|out| - 1], Untouched(u));
    }
  }

  lemma AppendedAreSettled(keys: seq<string>, u: Update)
    requires u.Valid() && forall k :: k in keys ==> k in u.values
    ensures forall i :: 0 <= i < |keys| ==> IsSettled(Map(keys, Appended(u))[i], u)
  {
    forall i | 0 <= i < |keys| ensures IsSettled(Map(keys, Appended(u))[i], u) {
      assert keys[i] in keys;
      AssignmentReadsBack("", keys[i], u, "\n");
    }
  }

  lemma MeetIsSettled(l: string, u: Update)
    requires IsLine(l) && EndsInReturn(l) && IsSettled(l, u)
    ensures IsSettled(l + "\n", u)
  {
    GrownLineReads(l, Untouched(u));
    if u.Has(l) {
      RewrittenEnds(l, u);
      assert false;
    }
  }

  lemma RewrittenEnds(l: string, u: Update)
    requires u.Has(l)
    ensures Rewritten(l, u) != "" && !EndsInReturn(Rewritten(l, u))
  {
    var newline := NewlineOf(l);
    assert newline[|newline| - 1] == '\n';
  }

  lemma {:induction false} MergeIsSettled(ls: seq<string>, u: Update)
    requires AreLines(ls) && forall i :: 0 <= i < |ls| ==> IsSettled(ls[i], u)
    ensures forall i :: 0 <= i < |Merge(ls)| ==> IsSettled(Merge(ls)[i], u)
  {
    if |ls| > 1 {
      LinesTail(ls);
      MergeIsSettled(ls[1..], u);
      var rest := Merge(ls[1..]);
      if EndsInReturn(ls[0]) && rest != [] && rest[0] == "\n" {
        MeetIsSettled(ls[0], u);
      }
    }
  }

  lemma {:induction false} MergeKeepsLast(ls: seq<string>)
    requires ls != [] && IsClosed(ls[|ls| - 1])
    ensures Merge(ls) != [] && IsClosed(Merge(ls)[|Merge(ls)| - 1])
  {
    if |ls| > 1 {
      MergeKeepsLast(ls[1..]);
    }
  }

  lemma {:induction false} BoundIsWritten(ls: seq<string>, u: Update, key: string)
    requires key in u.values && Bindings(ls, Is(key)) != []
    ensures key in Written(ls, u)
  {
    WrittenFirst(ls, u);
    if BindingIn(ls[0], Is(key)) == [] {
      assert Bindings(ls[1..], Is(key)) != [];
      BoundIsWritten(ls[1..], u, key);
    }
  }

  lemma Once(ls: seq<string>, u: Update, updated: set<string>, k: string)
    requires ls != [] && k in u.values && |Bindings(ls, Is(k))| <= if k in updated then 0 else 1
    ensures |Bindings(ls[1..], Is(k))| <= if k in Next(ls[0], u, updated) then 0 else 1
    ensures u.Has(ls[0]) && Key(ls[0]) == k ==> k !in updated
  {
    assert Bindings(ls, Is(k)) == BindingIn(ls[0], Is(k)) + Bindings(ls[1..], Is(k));
  }

  /** No key that was written is assigned again, and none is assigned twice. */
  ghost predicate NoRewrites(ls: seq<string>, u: Update, updated: set<string>) {
    forall k :: k in u.values ==> |Bindings(ls, Is(k))| <= if k in updated then 0 else 1
  }

  lemma NoRewritesTail(ls: seq<string>, u: Update, updated: set<string>)
    requires ls != [] && NoRewrites(ls, u, updated)
    ensures NoRewrites(ls[1..], u, Next(ls[0], u, updated))
    ensures u.Has(ls[0]) ==> Key(ls[0]) !in updated
  {
    forall k | k in u.values ensures |Bindings(ls[1..], Is(k))| <= if k in Next(ls[0], u, updated) then 0 else 1 {
      Once(ls, u, updated, k);
    }
    if u.Has(ls[0]) {
      Once(ls, u, updated, Key(ls[0]));
    }
  }

  /** Settled lines that assign every replaced key at most once are rewritten to themselves. */
  lemma {:induction false} SettledOut(ls: seq<string>, u: Update, updated: set<string>)
    requires forall i :: 0 <= i < |ls| ==> IsSettled(ls[i], u)
    requires NoRewrites(ls, u, updated)
    ensures Out(ls, u, updated) == ls
  {
    if ls != [] {
      NoRewritesTail(ls, u, updated);
      SettledOut(ls[1..], u, Next(ls[0], u, updated));
      assert Piece(ls[0], u, updated) == [ls[0]];
    }
  }

  lemma NewLinesAreSettled(ls: seq<string>, u: Update)
    requires u.Valid() && u.keys != [] && AreLines(ls)
    ensures forall i :: 0 <= i < |NewLines(ls, u)| ==> IsSettled(NewLines(ls, u)[i], u)
  {
    OutIsLines(ls, u, {});
    OutIsSettled(ls, u, {});
    ClosedLinesAreSettled(Out(ls, u, {}), u);
    RemainingAreKeys(ls, u);
    AppendedAreSettled(Remaining(ls, u), u);
  }

  lemma LastIsClosed(a: seq<string>, b: seq<string>)
    requires a != [] ==> IsClosed(a[|a| - 1])
    requires forall i :: 0 <= i < |b| ==> IsClosed(b[i])
    ensures a + b != [] ==> IsClosed((a + b)[|a + b| - 1])
  {}

  lemma NewLinesAreClosed(ls: seq<string>, u: Update)
    requires u.Valid() && u.keys != [] && AreLines(ls)
    ensures NewLines(ls, u) != [] && IsClosed(NewLines(ls, u)[|NewLines(ls, u)| - 1])
  {
    OutIsLines(ls, u, {});
    ClosedLinesAreLines(Out(ls, u, {}));
    RemainingAreKeys(ls, u);
    AppendedAreLines(Remaining(ls, u), u);
    SomethingIsWritten(ls, u);
    LastIsClosed(ClosedLines(Out(ls, u, {})), Map(Remaining(ls, u), Appended(u)));
  }

  lemma MergedIsSettled(ls: seq<string>, u: Update)
    requires u.Valid() && u.keys != [] && AreLines(ls) && AreLines(NewLines(ls, u))
    ensures var merged := Merge(NewLines(ls, u));
            && (forall i :: 0 <= i < |merged| ==> IsSettled(merged[i], u))
            && merged != [] && IsClosed(merged[|merged| - 1])
  {
    NewLinesAreSettled(ls, u);
    NewLinesAreClosed(ls, u);
    MergeIsSettled(NewLines(ls, u), u);
    MergeKeepsLast(NewLines(ls, u));
  }

  lemma NewTextIsSettled(text: string, u: Update)
    requires u.Valid() && u.keys != []
    ensures var ls := SplitLines(UpdatedText(text, u));
            && (forall i :: 0 <= i < |ls| ==> IsSettled(ls[i], u))
            && ls != [] && IsClosed(ls[|ls| - 1])
  {
    LinesOf(text);
    NewText(text, u);
    MergedIsSettled(SplitLines(text), u);
  }

  lemma {:induction false} SomethingIsWritten(ls: seq<string>, u: Update)
    requires u.Valid() && u.keys != []
    ensures ClosedLines(Out(ls, u, {})) != [] || Remaining(ls, u) != []
  {
    RemainingAreKeys(ls, u);
    if ls == [] {
      assert u.keys[0] in Remaining(ls, u);
    } else {
      assert Piece(ls[0], u, {}) != [];
    }
  }

  lemma EveryKeyIsWritten(text: string, u: Update, key: string)
    requires u.Valid() && key in u.values
    ensures var ls := SplitLines(UpdatedText(text, u)); |Bindings(ls, Is(key))| == 1 && key in Written(ls, u)
  {
    EachKeyIsAssignedOnce(text, u, key);
    BoundIsWritten(SplitLines(UpdatedText(text, u)), u, key);
  }

  lemma NothingIsLeft(ls: seq<string>, u: Update)
    requires u.Valid() && forall k :: k in u.values ==> k in Written(ls, u)
    ensures Remaining(ls, u) == []
  {
    FilterNone(u.keys, u.Unset(Written(ls, u)));
  }

  ghost predicate SettledLines(ls: seq<string>, u: Update) {
    && ls != [] && IsClosed(ls[|ls| - 1]) && (forall i :: 0 <= i < |ls| ==> IsSettled(ls[i], u))
    && forall k :: k in u.values ==> |Bindings(ls, Is(k))| == 1 && k in Written(ls, u)
  }

  lemma NewLinesSettle(text: string, u: Update)
    requires u.Valid() && u.keys != []
    ensures SettledLines(SplitLines(UpdatedText(text, u)), u)
  {
    var ls := SplitLines(UpdatedText(text, u));
    NewTextIsSettled(text, u);
    forall k | k in u.values ensures |Bindings(ls, Is(k))| == 1 && k in Written(ls, u) {
      EveryKeyIsWritten(text, u, k);
    }
  }

  /** A text of settled lines that assigns every replaced key once is left as it is. */
  lemma SettledText(text: string, u: Update, ls: seq<string>)
    requires u.Valid() && ls == SplitLines(text) && SettledLines(ls, u)
    ensures UpdatedText(text, u) == text
  {
    LinesOf(text);
    assert NoRewrites(ls, u, {});
    SettledOut(ls, u, {});
    NothingIsLeft(ls, u);
    assert UpdatedLines(ls, u) == ls;
  }

  /** Applying the same update again changes nothing, to the last character. */
  lemma UpdatingTwice(text: string, u: Update)
    requires u.Valid()
    ensures UpdatedText(UpdatedText(text, u), u) == UpdatedText(text, u)
  {
    if u.keys != [] {
      NewLinesSettle(text, u);
      SettledText(UpdatedText(text, u), u, SplitLines(UpdatedText(text, u)));
    }
  }

  lemma {:induction false} ClosedAfter(front: seq<string>, l: string, back: seq<string>)
    requires IsClosed(l)
    ensures Closed(front + ([l] + back)) == front + [l] + Closed(back)
  {}

  lemma {:induction false} ReplacedLines(ls: seq<string>, u: Update, i: nat) returns (more: seq<string>)
    requires u.Valid() && AreLines(ls) && i < |ls|
    requires u.Has(ls[i]) && forall j :: 0 <= j < i && u.Has(ls[j]) ==> Key(ls[j]) != Key(ls[i])
    ensures UpdatedLines(ls, u) == Out(ls[..i], u, {}) + ([Rewritten(ls[i], u)] + more)
  {
    RewrittenReadsBack(ls[i], u);
    FirstIsReplaced(ls, i, u);
    var back := Out(ls[i + 1..], u, Next(ls[i], u, Written(ls[..i], u)));
    more := Closed(back) + Map(Remaining(ls, u), Appended(u));
    LinesAround(ls, u, Out(ls[..i], u, {}), Rewritten(ls[i], u), back);
  }

  lemma {:induction false} LinesAround(ls: seq<string>, u: Update, front: seq<string>, l: string, back: seq<string>)
    requires Out(ls, u, {}) == front + ([l] + back) && IsClosed(l)
    ensures UpdatedLines(ls, u) == front + ([l] + (Closed(back) + Map(Remaining(ls, u), Appended(u))))
  {
    ClosedAfter(front, l, back);
    AppendedAfter(front, [l], Closed(back), Map(Remaining(ls, u), Appended(u)));
  }

  lemma AppendedAfter(a: seq<string>, b: seq<string>, c: seq<string>, d: seq<string>)
    ensures (a + b + c) + d == a + (b + (c + d))
  {}

  lemma {:induction false} FlattenAround(front: seq<string>, l: string, more: seq<string>)
    ensures Flatten(front + ([l] + more)) == Flatten(front) + (l + Flatten(more))
  {
    FlattenConcat(front, [l] + more);
    assert ([l] + more)[1..] == more;
  }

  /** The first line that assigns a key becomes its new assignment, right after what became of the lines before
      it. */
  lemma {:induction false} ReplacedInPlace(text: string, u: Update, i: nat) returns (rest: string)
    requires u.Valid() && i < |SplitLines(text)|
    requires var ls := SplitLines(text);
             u.Has(ls[i]) && forall j :: 0 <= j < i && u.Has(ls[j]) ==> Key(ls[j]) != Key(ls[i])
    ensures UpdatedText(text, u) == Flatten(Out(SplitLines(text)[..i], u, {})) + (Rewritten(SplitLines(text)[i], u) + rest)
  {
    var ls := SplitLines(text);
    LinesOf(text);
    assert Key(ls[i]) in u.keys;
    var more := ReplacedLines(ls, u, i);
    FlattenAround(Out(ls[..i], u, {}), Rewritten(ls[i], u), more);
    rest := Flatten(more);
  }
}
