/** Comma-separated settings, from which the classification sets are read. */
module CsvSettings {
  import opened Chars

  /** `str.split(",")`; `current` is the item being read. */
  function SplitFrom(s: string, current: string): (items: seq<string>)
    ensures items != []
    decreases |s|
  {
    if s == "" then [current]
    else if s[0] == ',' then [current] + SplitFrom(s[1..], "")
    else SplitFrom(s[1..], current + [s[0]])
  }

  /** `str.strip()`. */
  function Strip(s: string): (r: string)
    ensures r == "" || (!IsSpace(r[0]) && !IsSpace(r[|r| - 1]))
    ensures r == "" <==> forall i :: 0 <= i < |s| ==> IsSpace(s[i])
    decreases |s|
  {
    if s == "" then ""
    else if IsSpace(s[0]) then
      assert s == [s[0]] + s[1..];
      Strip(s[1..])
    else if IsSpace(s[|s| - 1]) then
      assert s[..|s| - 1][0] == s[0];
      Strip(s[..|s| - 1])
    else s
  }

  /** Only white space around the text is taken away. */
  lemma {:induction false} StripTakesSpaces(s: string) returns (from: nat, to: nat)
    ensures from <= to <= |s| && Strip(s) == s[from..to]
    ensures forall i :: 0 <= i < from || to <= i < |s| ==> IsSpace(s[i])
    decreases |s|
  {
    if s == "" {
      from, to := 0, 0;
    } else if IsSpace(s[0]) {
      from, to := StripTakesSpaces(s[1..]);
      assert s[1..][from..to] == s[from + 1..to + 1];
      forall i | 0 <= i < from + 1 || to + 1 <= i < |s| ensures IsSpace(s[i]) {
        assert i > 0 ==> s[i] == s[1..][i - 1];
      }
      from, to := from + 1, to + 1;
    } else if IsSpace(s[|s| - 1]) {
      var front := s[..|s| - 1];
      from, to := StripTakesSpaces(front);
      assert front[from..to] == s[from..to];
      forall i | 0 <= i < from || to <= i < |s| ensures IsSpace(s[i]) {
        assert i < |s| - 1 ==> s[i] == front[i];
      }
    } else {
      from, to := 0, |s|;
    }
  }

  /** What the items stand for: blank ones nothing, the others their stripped and case-folded text. */
  function Meant(items: seq<string>, fold: string -> string): set<string> {
    set item | item in items && Strip(item) != "" :: fold(Strip(item))
  }

  /** `_csv_to_set`. */
  function CsvToSet(value: string, fold: string -> string): set<string> { Meant(SplitFrom(value, ""), fold) }

  function Join(items: seq<string>): string {
    if items == [] then "" else if |items| == 1 then items[0] else items[0] + "," + Join(items[1..])
  }

  lemma {:induction false} SplitReadsItem(item: string, current: string, rest: string)
    requires ',' !in item
    ensures SplitFrom(item, current) == [current + item]
    ensures SplitFrom(item + "," + rest, current) == [current + item] + SplitFrom(rest, "")
    decreases |item|
  {
    var s := item + "," + rest;
    if item == "" {
      assert s == "," + rest && s[1..] == rest;
      assert current + item == current;
    } else {
      SplitReadsItem(item[1..], current + [item[0]], rest);
      assert s[1..] == item[1..] + "," + rest;
      assert current + item == current + [item[0]] + item[1..];
    }
  }

  lemma {:induction false} SplitOfJoined(items: seq<string>)
    requires items != [] && forall i :: 0 <= i < |items| ==> ',' !in items[i]
    ensures SplitFrom(Join(items), "") == items
  {
    assert "" + items[0] == items[0] && items == [items[0]] + items[1..];
    if |items| == 1 {
      SplitReadsItem(items[0], "", "");
    } else {
      SplitOfJoined(items[1..]);
      SplitReadsItem(items[0], "", Join(items[1..]));
    }
  }

  /** A setting written as a list gives the set of its items: order, repetition, blanks around an item and
      blank items do not matter. */
  lemma CsvOfJoined(items: seq<string>, fold: string -> string)
    requires forall i :: 0 <= i < |items| ==> ',' !in items[i]
    ensures forall t :: t in CsvToSet(Join(items), fold) <==>
              exists i :: 0 <= i < |items| && Strip(items[i]) != "" && t == fold(Strip(items[i]))
  {
    if items == [] {
      assert SplitFrom("", "") == [""];
      assert Strip("") == "";
    } else {
      SplitOfJoined(items);
    }
    forall t | t in Meant(items, fold)
      ensures exists i :: 0 <= i < |items| && Strip(items[i]) != "" && t == fold(Strip(items[i]))
    {
      var item :| item in items && Strip(item) != "" && t == fold(Strip(item));
      var i :| 0 <= i < |items| && items[i] == item;
    }
    assert forall i :: 0 <= i < |items| ==> items[i] in items;
  }

  /** Whatever the setting, no set holds the empty text, which stands for a missing value: case folding
      leaves no text empty. */
  lemma NeverBlank(value: string, fold: string -> string)
    requires forall s :: s != "" ==> fold(s) != ""
    ensures "" !in CsvToSet(value, fold)
  {}
}
