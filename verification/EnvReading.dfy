/** How the rewritten environment file reads: what each line of the old text contributes to the new one,
    that closing the last line, appending lines and joining everything change no assignment, and that the
    joined text splits into the expected lines up to the merging that `EnvLines` describes. Everything is
    said about the assignments of the keys a caller is interested in, given as a predicate on keys, so
    that the same lemmas serve the replaced keys and the others. */
module EnvReading {
  import opened Chars
  import opened Sequences
  import opened EnvLines
  import opened EnvSyntax
  import opened EnvQuoting
  import opened EnvFile

  // ---------------------------------------------------------------------------------------
  // The rewritten lines

  /** The first line's part of the new text, and the rest. */
  lemma OutReads(ls: seq<string>, u: Update, updated: set<string>, keep: string -> bool)
    requires ls != []
    ensures Bindings(Out(ls, u, updated), keep)
            == Bindings(Piece(ls[0], u, updated), keep) + Bindings(Out(ls[1..], u, Next(ls[0], u, updated)), keep)
  {
    BindingsConcat(Piece(ls[0], u, updated), Out(ls[1..], u, Next(ls[0], u, updated)), keep);
  }

  function NewBinding(u: Update, key: string): seq<Binding>
    requires key in u.values
  {
    [Binding(key, Quote(u.values[key], u.alnum))]
  }

  lemma PieceReads(l: string, u: Update, updated: set<string>, keep: string -> bool)
    requires u.Valid() && IsLine(l)
    ensures Bindings(Piece(l, u, updated), keep)
            == if !u.Has(l) then BindingIn(l, keep)
               else if Key(l) in updated || !keep(Key(l)) then []
               else NewBinding(u, Key(l))
  {
    if u.Has(l) && Key(l) !in updated {
      RewrittenReadsBack(l, u);
    }
  }

  lemma PieceIsLines(l: string, u: Update, updated: set<string>, rest: seq<string>)
    requires u.Valid() && IsLine(l) && (Ended(l) || rest == []) && AreLines(rest)
    ensures AreLines(Piece(l, u, updated) + rest)
  {
    if !u.Has(l) {
      LinesPrepended(l, rest);
    } else if Key(l) !in updated {
      RewrittenReadsBack(l, u);
      LinesPrepended(Rewritten(l, u), rest);
    } else {
      assert [] + rest == rest;
    }
  }

  lemma {:induction false} OutIsLines(ls: seq<string>, u: Update, updated: set<string>)
    requires u.Valid() && AreLines(ls)
    ensures AreLines(Out(ls, u, updated))
  {
    if ls != [] {
      LinesTail(ls);
      OutIsLines(ls[1..], u, Next(ls[0], u, updated));
      if |ls| == 1 {
        assert Out(ls[1..], u, Next(ls[0], u, updated)) == [];
      }
      PieceIsLines(ls[0], u, updated, Out(ls[1..], u, Next(ls[0], u, updated)));
    }
  }

  lemma {:induction false} OutKeepsOthers(ls: seq<string>, u: Update, updated: set<string>)
    requires u.Valid() && AreLines(ls)
    ensures Bindings(Out(ls, u, updated), Untouched(u)) == Bindings(ls, Untouched(u))
  {
    if ls != [] {
      LinesTail(ls);
      var next := Next(ls[0], u, updated);
      OutKeepsOthers(ls[1..], u, next);
      PieceReads(ls[0], u, updated, Untouched(u));
      OutReads(ls, u, updated, Untouched(u));
    }
  }

  predicate Assigns(ls: seq<string>, u: Update, key: string) {
    ls != [] && ((u.Has(ls[0]) && Key(ls[0]) == key) || Assigns(ls[1..], u, key))
  }

  lemma {:induction false} AssignsIff(ls: seq<string>, u: Update, key: string)
    ensures Assigns(ls, u, key) <==> key in Written(ls, u)
  {
    if ls != [] {
      AssignsIff(ls[1..], u, key);
      WrittenFirst(ls, u);
    }
  }

  /** What a line writes for a key, before what the lines after it write. */
  lemma PieceWrites(l: string, u: Update, updated: set<string>, key: string, later: seq<Binding>, more: bool)
    requires u.Valid() && IsLine(l) && key in u.values
    requires later == if key in Next(l, u, updated) || !more then [] else NewBinding(u, key)
    ensures Bindings(Piece(l, u, updated), Is(key)) + later
            == if key in updated || !((u.Has(l) && Key(l) == key) || more) then [] else NewBinding(u, key)
  {
    PieceReads(l, u, updated, Is(key));
  }

  lemma {:induction false} OutWritesOnce(ls: seq<string>, u: Update, updated: set<string>, key: string)
    requires u.Valid() && AreLines(ls) && key in u.values
    ensures Bindings(Out(ls, u, updated), Is(key)) == if key in updated || !Assigns(ls, u, key) then [] else NewBinding(u, key)
  {
    if ls != [] {
      LinesTail(ls);
      OutWritesOnce(ls[1..], u, Next(ls[0], u, updated), key);
      OutReads(ls, u, updated, Is(key));
      PieceWrites(ls[0], u, updated, key, Bindings(Out(ls[1..], u, Next(ls[0], u, updated)), Is(key)), Assigns(ls[1..], u, key));
    }
  }

  // ---------------------------------------------------------------------------------------
  // The rewritten text, read again

  /** The lines of the new text: a newline put after an unusual line boundary is a line of its own. */
  function ClosedLines(ls: seq<string>): seq<string> {
    if ls == [] || IsClosed(ls[|ls| - 1]) then ls
    else if Ended(ls[|ls| - 1]) then ls + ["\n"]
    else ls[..|ls| - 1] + [ls[|ls| - 1] + "\n"]
  }

  function NewLines(ls: seq<string>, u: Update): seq<string> {
    ClosedLines(Out(ls, u, {})) + Map(Remaining(ls, u), Appended(u))
  }

  lemma {:induction false} FlattenConcat<T>(a: seq<seq<T>>, b: seq<seq<T>>)
    ensures Flatten(a + b) == Flatten(a) + Flatten(b)
  {
    if a == [] {
      assert a + b == b;
    } else {
      assert (a + b)[1..] == a[1..] + b;
      FlattenConcat(a[1..], b);
    }
  }

  lemma ClosedText(out: seq<string>)
    ensures Flatten(ClosedLines(out)) == Flatten(Closed(out))
  {
    if out != [] && !IsClosed(out[|out| - 1]) {
      var front, last := out[..|out| - 1], out[|out| - 1];
      assert out == front + [last];
      FlattenSnoc(front, last);
      FlattenSnoc(front, last + "\n");
      FlattenSnoc(out, "\n");
    }
  }

  lemma SameText(ls: seq<string>, u: Update)
    ensures Flatten(NewLines(ls, u)) == Flatten(UpdatedLines(ls, u))
  {
    ClosedText(Out(ls, u, {}));
    FlattenConcat(ClosedLines(Out(ls, u, {})), Map(Remaining(ls, u), Appended(u)));
    FlattenConcat(Closed(Out(ls, u, {})), Map(Remaining(ls, u), Appended(u)));
  }

  lemma {:induction false} GrowsByNewline(l: string)
    requires IsLine(l) && !Ended(l)
    ensures IsLine(l + "\n") && Ended(l + "\n") && BodyLength(l + "\n") == |l| && BodyLength(l) == |l|
  {
    forall p | 0 <= p < |l| ensures !IsBreak(l[p]) {
      BreaksEndLines(l, p);
    }
    LineOfBody(l, "\n");
  }

  lemma SameParse(l: string)
    ensures Parse(l + "\n") == Parse(l)
  {
    var m := l + "\n";
    if Parse(m).Some? {
      var eq := Parse(m).value.eq;
      assert m[eq] == '=';
      assert m[..eq + 1] == l[..eq + 1];
      ParseAgrees(m, l);
    } else if Parse(l).Some? {
      var eq := Parse(l).value.eq;
      assert m[..eq + 1] == l[..eq + 1];
      ParseAgrees(l, m);
    }
  }

  lemma SameKey(l: string)
    requires Parse(l).Some? && Parse(l + "\n") == Parse(l)
    ensures Key(l + "\n") == Key(l)
  {
    SliceOfLonger(l, "\n", Parse(l).value.start, Parse(l).value.end);
  }

  lemma SameSlice(l: string, m: string)
    requires Parse(l).Some? && Parse(m) == Parse(l) && m == l + "\n"
    requires Parse(l).value.eq < BodyLength(l) && BodyLength(m) == BodyLength(l)
    ensures ValueOf(m) == ValueOf(l)
  {
    SliceOfLonger(l, "\n", Parse(l).value.eq + 1, BodyLength(l));
  }

  lemma SameValue(l: string)
    requires IsLine(l) && (EndsInReturn(l) || !Ended(l)) && Parse(l).Some? && Parse(l + "\n") == Parse(l)
    ensures ValueOf(l + "\n") == ValueOf(l)
  {
    EqualsInBody(l);
    SameBody(l);
    SameSlice(l, l + "\n");
  }

  lemma SliceOfLonger(s: string, more: string, from: nat, to: nat)
    requires from <= to <= |s|
    ensures (s + more)[from..to] == s[from..to]
  {}

  /** A terminator may grow without changing what the line says. */
  lemma GrownLineReads(l: string, keep: string -> bool)
    requires IsLine(l) && (EndsInReturn(l) || !Ended(l))
    ensures BindingIn(l + "\n", keep) == BindingIn(l, keep)
    ensures Parse(l + "\n").Some? <==> Parse(l).Some?
    ensures Parse(l).Some? ==> Key(l + "\n") == Key(l)
  {
    SameParse(l);
    if Parse(l).Some? {
      SameKey(l);
      SameValue(l);
    }
  }

  lemma SameBody(l: string)
    requires IsLine(l) && (EndsInReturn(l) || !Ended(l))
    ensures BodyLength(l + "\n") == BodyLength(l)
  {
    if !EndsInReturn(l) {
      GrowsByNewline(l);
    }
  }

  lemma NewlineSaysNothing(keep: string -> bool)
    ensures Parse("\n").None? && BindingIn("\n", keep) == []
  {
    if Parse("\n").Some? {
      EqualsInBody("\n");
    }
  }

  ghost predicate AllEnded(ls: seq<string>) { forall i :: 0 <= i < |ls| ==> Ended(ls[i]) }

  lemma LineAppended(ls: seq<string>, l: string)
    requires AreLines(ls) && AllEnded(ls) && IsLine(l) && Ended(l)
    ensures AreLines(ls + [l]) && AllEnded(ls + [l])
  {}

  lemma LinesFront(ls: seq<string>)
    requires AreLines(ls) && ls != []
    ensures AreLines(ls[..|ls| - 1]) && AllEnded(ls[..|ls| - 1])
  {}

  lemma ClosedLinesAreLines(ls: seq<string>)
    requires AreLines(ls)
    ensures AreLines(ClosedLines(ls)) && AllEnded(ClosedLines(ls))
    ensures ls != [] ==> ClosedLines(ls) != [] && IsClosed(ClosedLines(ls)[|ClosedLines(ls)| - 1])
  {
    if ls != [] {
      LinesFront(ls);
      var front, last := ls[..|ls| - 1], ls[|ls| - 1];
      assert ls == front + [last];
      if Ended(last) {
        LineAppended(front, last);
        LineAppended(ls, "\n");
      } else {
        GrowsByNewline(last);
        LineAppended(front, last + "\n");
      }
    }
  }

  lemma ClosedLinesRead(ls: seq<string>, keep: string -> bool)
    requires AreLines(ls)
    ensures Bindings(ClosedLines(ls), keep) == Bindings(ls, keep)
  {
    if ls != [] && !IsClosed(ls[|ls| - 1]) {
      var front, last := ls[..|ls| - 1], ls[|ls| - 1];
      assert ls == front + [last];
      BindingsConcat(front, [last], keep);
      if Ended(last) {
        BindingsConcat(ls, ["\n"], keep);
        NewlineSaysNothing(keep);
      } else {
        GrownLineReads(last, keep);
        BindingsConcat(front, [last + "\n"], keep);
      }
    }
  }

  lemma BindingsCons(l: string, rest: seq<string>, keep: string -> bool)
    ensures Bindings([l] + rest, keep) == BindingIn(l, keep) + Bindings(rest, keep)
  {
    assert ([l] + rest)[1..] == rest;
  }

  lemma TwoLinesAsOne(l: string, blank: string, joined: string, tail: seq<string>, keep: string -> bool)
    requires BindingIn(blank, keep) == [] && BindingIn(joined, keep) == BindingIn(l, keep)
    ensures Bindings([joined] + tail, keep) == BindingIn(l, keep) + Bindings([blank] + tail, keep)
  {
    BindingsCons(joined, tail, keep);
    BindingsCons(blank, tail, keep);
    assert [] + Bindings(tail, keep) == Bindings(tail, keep);
  }

  lemma MergeFirstReads(l: string, rest: seq<string>, keep: string -> bool)
    requires IsLine(l)
    ensures Bindings(MergeFirst(l, rest), keep) == BindingIn(l, keep) + Bindings(rest, keep)
  {
    if EndsInReturn(l) && rest != [] && rest[0] == "\n" {
      assert rest == ["\n"] + rest[1..];
      GrownLineReads(l, keep);
      NewlineSaysNothing(keep);
      TwoLinesAsOne(l, "\n", l + "\n", rest[1..], keep);
    } else {
      BindingsCons(l, rest, keep);
    }
  }

  lemma {:induction false} MergeReads(ls: seq<string>, keep: string -> bool)
    requires AreLines(ls)
    ensures Bindings(Merge(ls), keep) == Bindings(ls, keep)
  {
    if |ls| > 1 {
      LinesTail(ls);
      MergeReads(ls[1..], keep);
      MergeFirstReads(ls[0], Merge(ls[1..]), keep);
    }
  }

  /** The bindings of the appended lines. */
  function NewBindings(keys: seq<string>, u: Update, keep: string -> bool): seq<Binding> {
    if keys == [] then []
    else (if keep(keys[0]) && keys[0] in u.values then NewBinding(u, keys[0]) else [])
         + NewBindings(keys[1..], u, keep)
  }

  lemma AppendedLine(key: string, u: Update, keep: string -> bool)
    requires u.Valid() && key in u.values
    ensures var l := Appended(u)(key);
            IsLine(l) && Ended(l) && IsClosed(l) && BindingIn(l, keep) == if keep(key) then NewBinding(u, key) else []
  {
    AssignmentReadsBack("", key, u, "\n");
  }

  lemma MapFirst(keys: seq<string>, f: string -> string)
    requires keys != []
    ensures Map(keys, f) == [f(keys[0])] + Map(keys[1..], f)
  {}

  lemma AppendedAreLines(keys: seq<string>, u: Update)
    requires u.Valid() && forall k :: k in keys ==> k in u.values
    ensures AreLines(Map(keys, Appended(u)))
    ensures forall i :: 0 <= i < |keys| ==> Ended(Map(keys, Appended(u))[i]) && IsClosed(Map(keys, Appended(u))[i])
  {
    var lines := Map(keys, Appended(u));
    forall i | 0 <= i < |keys| ensures IsLine(lines[i]) && Ended(lines[i]) && IsClosed(lines[i]) {
      assert keys[i] in keys;
      AppendedLine(keys[i], u, Untouched(u));
    }
  }

  lemma {:induction false} AppendedReads(keys: seq<string>, u: Update, keep: string -> bool)
    requires u.Valid() && forall k :: k in keys ==> k in u.values
    ensures Bindings(Map(keys, Appended(u)), keep) == NewBindings(keys, u, keep)
  {
    if keys != [] {
      AppendedReads(keys[1..], u, keep);
      AppendedLine(keys[0], u, keep);
      MapFirst(keys, Appended(u));
      BindingsCons(Appended(u)(keys[0]), Map(keys[1..], Appended(u)), keep);
    }
  }

  lemma {:induction false} NewBindingsOfOthers(keys: seq<string>, u: Update)
    ensures NewBindings(keys, u, Untouched(u)) == []
  {
    if keys != [] {
      NewBindingsOfOthers(keys[1..], u);
    }
  }

  lemma {:induction false} NewBindingsOfOne(keys: seq<string>, u: Update, key: string)
    requires NoRepeats(keys) && key in u.values
    ensures NewBindings(keys, u, Is(key)) == if key in keys then NewBinding(u, key) else []
  {
    if keys != [] {
      NewBindingsOfOne(keys[1..], u, key);
      assert keys == [keys[0]] + keys[1..];
      assert keys[0] !in keys[1..];
    }
  }
}
