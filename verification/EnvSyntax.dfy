/** Assignments in an environment file: optional blanks, an optional `export`, a name, optional blanks
    and an equals sign. The pattern tries `export` first and falls back to reading the word as a name,
    so a variable may itself be called `export`. The lemmas say that a match depends only on the text up
    to the equals sign, and that an assignment written out is matched with the parts it was made of. */
module EnvSyntax {
  import opened Chars
  import opened Sequences

  const EXPORT := "export"

  function SkipSpaces(s: string, i: nat): (r: nat)
    requires i <= |s|
    ensures i <= r <= |s|
    ensures forall j :: i <= j < r ==> IsSpace(s[j])
    ensures r < |s| ==> !IsSpace(s[r])
    decreases |s| - i
  {
    if i < |s| && IsSpace(s[i]) then SkipSpaces(s, i + 1) else i
  }

  function SkipName(s: string, i: nat): (r: nat)
    requires i <= |s|
    ensures i <= r <= |s|
    ensures forall j :: i <= j < r ==> IsNameChar(s[j])
    ensures r < |s| ==> !IsNameChar(s[r])
    decreases |s| - i
  {
    if i < |s| && IsNameChar(s[i]) then SkipName(s, i + 1) else i
  }

  predicate IsName(key: string) {
    key != "" && IsNameStart(key[0]) && forall i :: 0 <= i < |key| ==> IsNameChar(key[i])
  }

  /** A name from `start` to `end`, and the equals sign at `eq`. */
  datatype Match = Match(start: nat, end: nat, eq: nat)

  ghost predicate IsMatch(s: string, m: Match) {
    && m.start < m.end <= m.eq < |s|
    && IsNameStart(s[m.start])
    && (forall j :: m.start <= j < m.end ==> IsNameChar(s[j]))
    && (forall j :: m.end <= j < m.eq ==> IsSpace(s[j]))
    && s[m.eq] == '='
  }

  function MatchName(s: string, i: nat): (r: Option<Match>)
    requires i <= |s|
    ensures r.Some? ==> r.value.start == i && IsMatch(s, r.value)
    ensures r.None? ==> forall m: Match :: m.start == i ==> !IsMatch(s, m)
  {
    if i < |s| && IsNameStart(s[i]) then
      var end := SkipName(s, i);
      var eq := SkipSpaces(s, end);
      NamesEnd(s, i, end, eq);
      if eq < |s| && s[eq] == '=' then Some(Match(i, end, eq)) else None
    else None
  }

  lemma NamesEnd(s: string, i: nat, end: nat, eq: nat)
    requires i < |s| && IsNameStart(s[i]) && end == SkipName(s, i) && eq == SkipSpaces(s, end)
    ensures i < end
    ensures forall m: Match :: m.start == i && IsMatch(s, m) ==> m.end == end && m.eq == eq
  {
    forall m: Match | m.start == i && IsMatch(s, m) ensures m.end == end && m.eq == eq {
      assert !IsNameChar(s[m.eq]) && !IsSpace(s[m.eq]);
      assert m.end < m.eq ==> !IsNameChar(s[m.end]);
    }
  }

  predicate SaysExport(s: string, i: nat) {
    i + 6 < |s| && s[i..i + 6] == EXPORT && IsSpace(s[i + 6])
  }

  /** The pattern match at the start of a line: with `export` if that succeeds, else without. */
  function Parse(s: string): (r: Option<Match>)
    ensures r.Some? ==> IsMatch(s, r.value)
  {
    var a := SkipSpaces(s, 0);
    var exported := if SaysExport(s, a) then MatchName(s, SkipSpaces(s, a + 6)) else None;
    if exported.Some? then exported else MatchName(s, a)
  }

  function Prefix(s: string): string
    requires Parse(s).Some?
  {
    s[..Parse(s).value.start]
  }

  function Key(s: string): string
    requires Parse(s).Some?
  {
    var m := Parse(s).value;
    s[m.start..m.end]
  }

  /** What may stand before the name. */
  predicate IsPrefix(p: string) {
    var a := SkipSpaces(p, 0);
    a == |p| || (SaysExport(p, a) && SkipSpaces(p, a + 6) == |p|)
  }

  lemma SkipSpacesAgrees(s: string, t: string, i: nat, r: nat)
    requires i <= r < |s| && r < |t| && s[..r + 1] == t[..r + 1]
    ensures SkipSpaces(s, i) == r <==> SkipSpaces(t, i) == r
  {
    forall j | i <= j <= r ensures s[j] == t[j] {
      assert s[..r + 1][j] == t[..r + 1][j];
    }
  }

  lemma MatchAgrees(s: string, t: string, m: Match)
    requires IsMatch(s, m) && m.eq < |t| && s[..m.eq + 1] == t[..m.eq + 1]
    ensures IsMatch(t, m) && MatchName(t, m.start) == Some(m)
  {
    forall j | 0 <= j <= m.eq ensures s[j] == t[j] {
      assert s[..m.eq + 1][j] == t[..m.eq + 1][j];
    }
    var end, eq := SkipName(t, m.start), SkipSpaces(t, SkipName(t, m.start));
    NamesEnd(t, m.start, end, eq);
  }

  /** A successful match depends only on the text up to the equals sign. */
  lemma ParseAgrees(s: string, t: string)
    requires Parse(s).Some?
    requires var eq := Parse(s).value.eq; eq < |t| && s[..eq + 1] == t[..eq + 1]
    ensures Parse(t) == Parse(s)
  {
    var m := Parse(s).value;
    var a := SkipSpaces(s, 0);
    forall j | 0 <= j <= m.eq ensures s[j] == t[j] {
      assert s[..m.eq + 1][j] == t[..m.eq + 1][j];
    }
    MatchAgrees(s, t, m);
    assert a <= m.start;
    assert s[..a + 1] == s[..m.eq + 1][..a + 1] == t[..a + 1];
    SkipSpacesAgrees(s, t, 0, a);
    SameExport(s, t, a, m);
  }

  lemma SameExport(s: string, t: string, a: nat, m: Match)
    requires a == SkipSpaces(s, 0) == SkipSpaces(t, 0) && Parse(s) == Some(m)
    requires IsMatch(t, m) && MatchName(t, m.start) == Some(m)
    requires m.eq < |t| && s[..m.eq + 1] == t[..m.eq + 1]
    ensures Parse(t) == Some(m)
  {
    if m.start == a {
      // Without `export`: the name ends at a blank or at the equals sign.
      if SaysExport(t, a) {
        NameIsExport(t, a, m);
        assert !IsNameStart(t[SkipSpaces(t, a + 6)]);
      }
    } else {
      SameAfterExport(s, t, a, m);
    }
  }

  lemma SameAfterExport(s: string, t: string, a: nat, m: Match)
    requires a + 6 < m.start < m.eq < |s| && m.eq < |t| && s[..m.eq + 1] == t[..m.eq + 1]
    requires SaysExport(s, a) && m.start == SkipSpaces(s, a + 6)
    ensures SaysExport(t, a) && m.start == SkipSpaces(t, a + 6)
  {
    assert s[a..a + 6] == s[..m.eq + 1][a..a + 6] == t[a..a + 6];
    assert s[a + 6] == s[..m.eq + 1][a + 6] == t[a + 6];
    assert s[..m.start + 1] == s[..m.eq + 1][..m.start + 1] == t[..m.start + 1];
    SkipSpacesAgrees(s, t, a + 6, m.start);
  }

  lemma NameIsExport(t: string, a: nat, m: Match)
    requires SaysExport(t, a) && IsMatch(t, m) && m.start == a
    ensures m.end == a + 6 && SkipSpaces(t, a + 6) == m.eq
  {
    forall j | a <= j < a + 6 ensures IsNameChar(t[j]) {
      assert t[j] == EXPORT[j - a];
    }
    assert !IsNameChar(t[a + 6]);
    assert !IsNameChar(t[m.end]);
  }

  // ---------------------------------------------------------------------------------------
  // Writing an assignment

  lemma PrefixParts(s: string)
    requires Parse(s).Some?
    ensures IsPrefix(Prefix(s)) && IsName(Key(s))
  {
    var m, p := Parse(s).value, Prefix(s);
    var a := SkipSpaces(s, 0);
    forall j | m.start <= j < m.end ensures IsNameChar(s[j]) {}
    if m.start == a {
    } else {
      assert s[..a + 1] == p[..a + 1];
      SkipSpacesAgrees(s, p, 0, a);
      assert p[a..a + 6] == s[a..a + 6];
    }
  }

  /** Reading an assignment back: blanks and `export` as written, the name, the equals sign after it. */
  lemma ParseOfAssignment(p: string, key: string, rest: string)
    requires IsPrefix(p) && IsName(key)
    ensures var s := p + key + "=" + rest;
            Parse(s) == Some(Match(|p|, |p| + |key|, |p| + |key|)) && Prefix(s) == p && Key(s) == key
  {
    var s := p + key + "=" + rest;
    var m := Match(|p|, |p| + |key|, |p| + |key|);
    forall j | 0 <= j < |key| ensures s[|p| + j] == key[j] {}
    assert IsMatch(s, m);
    NamesEnd(s, |p|, SkipName(s, |p|), SkipSpaces(s, SkipName(s, |p|)));
    assert MatchName(s, |p|) == Some(m);
    PrefixIsSkipped(p, s);
    assert s[..|p|] == p && s[|p|..|p| + |key|] == key;
    var a := SkipSpaces(p, 0);
    if a == |p| && SaysExport(s, a) {
      NameIsExport(s, a, m);
      assert false;
    }
  }

  lemma PrefixIsSkipped(p: string, s: string)
    requires IsPrefix(p) && |p| < |s| && p == s[..|p|] && !IsSpace(s[|p|])
    ensures var a := SkipSpaces(p, 0);
            SkipSpaces(s, 0) == a && (a < |p| ==> SaysExport(s, a) && SkipSpaces(s, a + 6) == |p|)
  {
    var a := SkipSpaces(p, 0);
    forall j | 0 <= j < |p| ensures s[j] == p[j] {}
    if a < |p| {
      assert p[..a + 1] == s[..a + 1];
      SkipSpacesAgrees(p, s, 0, a);
      assert p[a..a + 6] == s[a..a + 6];
    }
  }

  predicate Blanks(s: string) { forall i :: 0 <= i < |s| ==> IsSpace(s[i]) }

  lemma SkipsTo(s: string, i: nat, r: nat)
    requires i <= r <= |s| && (forall j :: i <= j < r ==> IsSpace(s[j])) && (r < |s| ==> !IsSpace(s[r]))
    ensures SkipSpaces(s, i) == r
  {}

  /** A line may begin with blanks, and then with `export` and blanks. */
  lemma ExportIsMatched(before: string, between: string, key: string, rest: string)
    requires Blanks(before) && Blanks(between) && IsName(key)
    ensures var s := before + key + "=" + rest; Parse(s).Some? && Prefix(s) == before && Key(s) == key
    ensures var p := before + "export" + between; var s := p + key + "=" + rest;
            between != "" ==> Parse(s).Some? && Prefix(s) == p && Key(s) == key
  {
    SkipsTo(before, 0, |before|);
    ParseOfAssignment(before, key, rest);
    if between != "" {
      var p := before + "export" + between;
      assert p[|before|] == 'e';
      SkipsTo(p, 0, |before|);
      assert p[|before|..|before| + 6] == EXPORT;
      SkipsTo(p, |before| + 6, |p|);
      ParseOfAssignment(p, key, rest);
    }
  }

  /** Blanks may stand between the name and the equals sign. */
  lemma BlanksBeforeEquals(before: string, key: string, blanks: string, rest: string)
    requires Blanks(before) && Blanks(blanks) && IsName(key) && key != "export"
    ensures var s := before + key + blanks + "=" + rest; Parse(s).Some? && Prefix(s) == before && Key(s) == key
  {
    var s := before + key + blanks + "=" + rest;
    var m := Match(|before|, |before| + |key|, |before| + |key| + |blanks|);
    PartsInPlace(before, key, blanks, rest);
    assert forall j :: 0 <= j < |before| ==> s[j] == before[j];
    SkipsTo(s, 0, |before|);
    NamesEnd(s, |before|, SkipName(s, |before|), SkipSpaces(s, SkipName(s, |before|)));
    NotExport(s, before, key, m);
  }

  lemma PartsInPlace(before: string, key: string, blanks: string, rest: string)
    requires Blanks(before) && Blanks(blanks) && IsName(key)
    ensures var s := before + key + blanks + "=" + rest;
            && IsMatch(s, Match(|before|, |before| + |key|, |before| + |key| + |blanks|))
            && s[..|before|] == before && s[|before|..|before| + |key|] == key
            && Blanks(s[..|before|]) && !IsSpace(s[|before|])
  {
    var s := before + key + blanks + "=" + rest;
    assert forall j :: 0 <= j < |key| ==> s[|before| + j] == key[j];
    assert forall j :: 0 <= j < |blanks| ==> s[|before| + |key| + j] == blanks[j];
    assert s[|before| + |key| + |blanks|] == '=' && s[|before|] == key[0];
    assert s[..|before|] == before;
  }

  /** A name that only begins like `export`, or is another, is not read as that word. */
  lemma NotExport(s: string, before: string, key: string, m: Match)
    requires IsMatch(s, m) && m.start == |before| && s[m.start..m.end] == key && key != "export"
    ensures !SaysExport(s, |before|)
  {
    if SaysExport(s, |before|) {
      NameIsExport(s, |before|, m);
    }
  }
}
