/** The closed sprints whose velocity the delivery-confidence score compares with: the latest three that
    have enough story points, or all of them if there are fewer. The program sorts the sprints that ended
    no later than the one being scored starts, and stops reading at the third that counts; the description
    it is proved against mentions no order of reading, and has one answer. */
module VelocityBaseline {
  import opened Sequences
  import opened Ordering
  import opened Classification
  import DeliveryConfidence
  import F = DeliveryFormula

  const BASELINE_COUNT := 3

  /** A closed sprint of the same project, other than the one being scored. */
  datatype Candidate = Candidate(id: string, completeAt: Option<int>, endAt: Option<int>, issues: seq<Issue>)

  function DateOf(c: Candidate): Option<int> {
    if c.completeAt.Some? then c.completeAt else c.endAt
  }

  predicate Dated(c: Candidate, start: Option<int>) {
    DateOf(c).Some? && (start.None? || DateOf(c).value <= start.value)
  }

  predicate Covered(c: Candidate) { DeliveryConfidence.CoveragePct(c.issues) >= DeliveryConfidence.MIN_COVERAGE }

  function Eligible(start: Option<int>): Candidate -> bool { (c: Candidate) => Dated(c, start) && Covered(c) }

  function IsDated(start: Option<int>): Candidate -> bool { (c: Candidate) => Dated(c, start) }

  /** Sprint ids are primary keys. */
  ghost predicate DistinctIds(cs: seq<Candidate>) {
    forall i, j :: 0 <= i < j < |cs| ==> cs[i].id != cs[j].id
  }

  /** Sort key: later dates first, then larger ids. An undated sprint never reaches the sort. */
  predicate Latest(a: Candidate, b: Candidate) {
    var x, y := DateKey(a), DateKey(b);
    x > y || (x == y && StringLe(b.id, a.id))
  }

  function DateKey(c: Candidate): int { if DateOf(c).Some? then DateOf(c).value else 0 }

  ghost predicate Above(a: Candidate, b: Candidate) { Latest(a, b) && !Latest(b, a) }

  lemma LatestIsRanking()
    ensures Ranking(Latest)
    ensures forall a, b :: Latest(a, b) && Latest(b, a) ==> a.id == b.id
  {
    StringLeIsTotalOrder();
    forall a, b ensures Latest(a, b) || Latest(b, a) {
      assert StringLe(a.id, b.id) || StringLe(b.id, a.id);
    }
    forall a, b, c | Latest(a, b) && Latest(b, c) ensures Latest(a, c) {
      if DateKey(a) == DateKey(b) == DateKey(c) {
        assert StringLe(c.id, b.id) && StringLe(b.id, a.id);
      }
    }
  }

  /** The baseline: the top eligible sprints in strictly descending (date, id) order, and every eligible
      sprint left out is below every one chosen. */
  ghost predicate IsBaseline(r: seq<Candidate>, cs: seq<Candidate>, start: Option<int>) {
    var eligible := Filter(cs, Eligible(start));
    && |r| == (if |eligible| < BASELINE_COUNT then |eligible| else BASELINE_COUNT)
    && (forall c :: c in r ==> c in eligible)
    && (forall i, j :: 0 <= i < j < |r| ==> Above(r[i], r[j]))
    && (forall c, d :: c in r && d in eligible && d !in r ==> Above(c, d))
  }

  /** `_list_velocity_baseline_sprints`. */
  method ListBaselineSprints(candidates: seq<Candidate>, start: Option<int>) returns (eligible: seq<Candidate>)
    requires DistinctIds(candidates)
    ensures IsBaseline(eligible, candidates, start)
  {
    var dated := [];
    for i := 0 to |candidates|
      invariant dated == Filter(candidates[..i], IsDated(start))
    {
      FilterSnoc(candidates, i, IsDated(start));
      var date := DateOf(candidates[i]);
      if date.None? {
        continue;
      }
      if start.Some? && date.value > start.value {
        continue;
      }
      dated := dated + [candidates[i]];
    }
    assert candidates[..|candidates|] == candidates;
    var ranked := Sort(dated, Latest);
    RankedDescending(candidates, start);
    eligible := [];
    var k := 0;
    while k < |ranked|
      invariant 0 <= k <= |ranked|
      invariant eligible == Filter(ranked[..k], Covered)
      invariant |eligible| < BASELINE_COUNT
    {
      FilterSnoc(ranked, k, Covered);
      k := k + 1;
      if !Covered(ranked[k - 1]) {
        continue;
      }
      eligible := eligible + [ranked[k - 1]];
      if |eligible| == BASELINE_COUNT {
        break;
      }
    }
    PrefixIsBaseline(candidates, start, ranked, k);
  }

  lemma {:induction false} DistinctAfterFilter(cs: seq<Candidate>, keep: Candidate -> bool)
    requires DistinctIds(cs)
    ensures DistinctIds(Filter(cs, keep))
  {
    if cs != [] {
      DistinctAfterFilter(cs[1..], keep);
      FilterMembers(cs[1..], keep);
      forall c | c in Filter(cs[1..], keep) ensures c.id != cs[0].id {
        assert c in cs[1..];
      }
    }
  }

  lemma {:induction false} DistinctMeansOneEach(cs: seq<Candidate>, c: Candidate)
    requires DistinctIds(cs)
    ensures multiset(cs)[c] <= 1
  {
    if cs != [] {
      assert cs == [cs[0]] + cs[1..];
      DistinctMeansOneEach(cs[1..], c);
    }
  }

  lemma DistinctAfterSort(cs: seq<Candidate>, ranked: seq<Candidate>)
    requires DistinctIds(cs) && multiset(ranked) == multiset(cs)
    ensures DistinctIds(ranked)
  {
    SameElements(cs, ranked);
    forall i, j | 0 <= i < j < |ranked| ensures ranked[i].id != ranked[j].id {
      assert ranked[i] in cs && ranked[j] in cs;
      if ranked[i] == ranked[j] {
        DistinctMeansOneEach(cs, ranked[i]);
        TwiceMeansTwo(ranked, i, j);
        assert false;
      }
    }
  }

  /** The sorted list is strictly descending. */
  lemma RankedDescending(candidates: seq<Candidate>, start: Option<int>)
    requires DistinctIds(candidates)
    ensures var ranked := Sort(Filter(candidates, IsDated(start)), Latest);
            forall i, j :: 0 <= i < j < |ranked| ==> Above(ranked[i], ranked[j])
  {
    var dated := Filter(candidates, IsDated(start));
    LatestIsRanking();
    SortSorted(dated, Latest);
    DistinctAfterFilter(candidates, IsDated(start));
    DistinctAfterSort(dated, Sort(dated, Latest));
  }

  lemma EligibleAreRanked(candidates: seq<Candidate>, start: Option<int>, ranked: seq<Candidate>)
    requires ranked == Sort(Filter(candidates, IsDated(start)), Latest)
    ensures forall c :: c in Filter(ranked, Covered) <==> c in Filter(candidates, Eligible(start))
    ensures |Filter(ranked, Covered)| == |Filter(candidates, Eligible(start))|
  {
    FilterTwice(candidates, IsDated(start), Covered, Eligible(start));
    FilterPermutation(ranked, Filter(candidates, IsDated(start)), Covered);
    SameElements(Filter(ranked, Covered), Filter(candidates, Eligible(start)));
  }

  /** Stopping at the third eligible sprint loses nothing: the kept prefix is the baseline. */
  lemma PrefixIsBaseline(candidates: seq<Candidate>, start: Option<int>, ranked: seq<Candidate>, k: nat)
    requires ranked == Sort(Filter(candidates, IsDated(start)), Latest)
    requires forall i, j :: 0 <= i < j < |ranked| ==> Above(ranked[i], ranked[j])
    requires k <= |ranked|
    requires |Filter(ranked[..k], Covered)| <= BASELINE_COUNT
    requires k == |ranked| || |Filter(ranked[..k], Covered)| == BASELINE_COUNT
    ensures IsBaseline(Filter(ranked[..k], Covered), candidates, start)
  {
    var r := Filter(ranked[..k], Covered);
    var eligible := Filter(candidates, Eligible(start));
    EligibleAreRanked(candidates, start, ranked);
    assert ranked == ranked[..k] + ranked[k..];
    FilterConcat(ranked[..k], ranked[k..], Covered);
    FilterMembers(ranked[..k], Covered);
    FilterMembers(ranked[k..], Covered);
    FilterKeepsOrder(ranked[..k], Covered);
    if k == |ranked| {
      assert ranked[k..] == [];
    }
    forall c, d | c in r && d in eligible && d !in r ensures Above(c, d) {
      assert d in Filter(ranked[k..], Covered);
    }
  }

  lemma {:induction false} FilterKeepsOrder(cs: seq<Candidate>, keep: Candidate -> bool)
    requires forall i, j :: 0 <= i < j < |cs| ==> Above(cs[i], cs[j])
    ensures var r := Filter(cs, keep); forall i, j :: 0 <= i < j < |r| ==> Above(r[i], r[j])
  {
    if cs != [] {
      FilterKeepsOrder(cs[1..], keep);
      FilterMembers(cs[1..], keep);
      var rest := Filter(cs[1..], keep);
      forall c | c in rest ensures Above(cs[0], c) {
        assert c in cs[1..];
      }
    }
  }

  /** The description has one answer, whatever order the query returns its rows in. */
  lemma BaselineIsUnique(a: seq<Candidate>, b: seq<Candidate>, cs: seq<Candidate>, ds: seq<Candidate>, start: Option<int>)
    requires multiset(cs) == multiset(ds)
    requires IsBaseline(a, cs, start) && IsBaseline(b, ds, start)
    ensures a == b
  {
    FilterPermutation(cs, ds, Eligible(start));
    SameElements(Filter(cs, Eligible(start)), Filter(ds, Eligible(start)));
    for i := 0 to |a|
      invariant a[..i] == b[..i]
    {
      SameNext(a, b, i, Filter(cs, Eligible(start)));
    }
    assert a == a[..|a|] == b[..|a|] == b;
  }

  lemma SameNext(a: seq<Candidate>, b: seq<Candidate>, i: nat, eligible: seq<Candidate>)
    requires |a| == |b| && i < |a| && a[..i] == b[..i]
    requires forall c :: c in a || c in b ==> c in eligible
    requires forall j, k :: 0 <= j < k < |a| ==> Above(a[j], a[k])
    requires forall j, k :: 0 <= j < k < |b| ==> Above(b[j], b[k])
    requires forall c, d :: c in a && d in eligible && d !in a ==> Above(c, d)
    requires forall c, d :: c in b && d in eligible && d !in b ==> Above(c, d)
    ensures a[i] == b[i]
  {
    LatestIsRanking();
    forall j | 0 <= j < i ensures a[j] == b[j] {
      assert a[..i][j] == b[..i][j];
    }
    if a[i] != b[i] {
      BehindTheOther(a, b, i, eligible);
      BehindTheOther(b, a, i, eligible);
    }
  }

  lemma BehindTheOther(a: seq<Candidate>, b: seq<Candidate>, i: nat, eligible: seq<Candidate>)
    requires |a| == |b| && i < |a| && a[i] != b[i]
    requires forall j :: 0 <= j < i ==> a[j] == b[j]
    requires a[i] in eligible
    requires forall j, k :: 0 <= j < k < |a| ==> Above(a[j], a[k])
    requires forall j, k :: 0 <= j < k < |b| ==> Above(b[j], b[k])
    requires forall c, d :: c in b && d in eligible && d !in b ==> Above(c, d)
    ensures Above(b[i], a[i])
  {
    forall l | 0 <= l < i ensures b[l] != a[i] {
      assert Above(a[l], a[i]);
    }
  }

  // ---------------------------------------------------------------------------------------
  // The result in terms of the sprints' own fields

  /** A sprint ended when it was completed, or else when it was planned to end. */
  predicate EndedAt(c: Candidate, date: int) {
    c.completeAt == Some(date) || (c.completeAt == None && c.endAt == Some(date))
  }

  lemma DateIsEnd(c: Candidate, date: int)
    ensures EndedAt(c, date) <==> DateOf(c) == Some(date)
  {}

  lemma {:induction false} CoveredByPoints(c: Candidate)
    ensures Covered(c) ==> 20000 * |F.Pointed(c.issues)| >= 9999 * |c.issues| && c.issues != []
    ensures c.issues != [] && 20000 * |F.Pointed(c.issues)| > 9999 * |c.issues| ==> Covered(c)
  {
    F.PointedAreCounted(c.issues);
    if c.issues != [] {
      DeliveryConfidence.CoverageThresholds(c.issues);
    }
  }

  /** Every sprint of the baseline ended no later than the scored one starts and is pointed enough; there are three
      of them, or all such sprints; and no other such sprint ended later than one of them. */
  lemma {:induction false} BaselineIsRight(r: seq<Candidate>, cs: seq<Candidate>, start: Option<int>, c: Candidate, d: Candidate)
    requires IsBaseline(r, cs, start) && c in r && d in cs
    ensures |r| <= 3 && c in cs && 20000 * |F.Pointed(c.issues)| >= 9999 * |c.issues|
    ensures exists date :: EndedAt(c, date) && (start.Some? ==> date <= start.value)
    ensures (exists date :: EndedAt(d, date) && (start.Some? ==> date <= start.value))
            && d.issues != [] && 20000 * |F.Pointed(d.issues)| > 9999 * |d.issues| && d !in r ==>
              |r| == 3 && forall x, y :: EndedAt(c, x) && EndedAt(d, y) ==> x >= y
  {
    FilterMembers(cs, Eligible(start));
    CoveredByPoints(c);
    CoveredByPoints(d);
    DateIsEnd(c, DateKey(c));
    forall x ensures EndedAt(c, x) <==> DateOf(c) == Some(x) {
      DateIsEnd(c, x);
    }
    forall y ensures EndedAt(d, y) <==> DateOf(d) == Some(y) {
      DateIsEnd(d, y);
    }
    if d in Filter(cs, Eligible(start)) && d !in r && |r| < 3 {
      AllAreChosen(r, Filter(cs, Eligible(start)), d);
    }
  }

  /** A selection without repetitions that is as long as the list leaves nothing out. */
  lemma {:induction false} AllAreChosen(r: seq<Candidate>, all: seq<Candidate>, d: Candidate)
    requires |r| == |all| && d in all && (forall c :: c in r ==> c in all)
    requires forall i, j :: 0 <= i < j < |r| ==> Above(r[i], r[j])
    ensures d in r
  {
    forall i, j | 0 <= i < j < |r| ensures r[i] != r[j] {
      assert Above(r[i], r[j]);
    }
    ElementsOfDistinct(r);
    ElementsBound(all);
    SubsetSize(Elements(r), Elements(all));
  }

  lemma {:induction false} ElementsOfDistinct<T(!new)>(xs: seq<T>)
    requires NoRepeats(xs)
    ensures |Elements(xs)| == |xs|
  {
    if xs != [] {
      ElementsOfDistinct(xs[1..]);
      assert xs == [xs[0]] + xs[1..];
      assert Elements(xs) == {xs[0]} + Elements(xs[1..]);
      assert xs[0] !in xs[1..];
    }
  }

  lemma {:induction false} ElementsBound<T(!new)>(xs: seq<T>)
    ensures |Elements(xs)| <= |xs|
  {
    if xs != [] {
      ElementsBound(xs[1..]);
      assert xs == [xs[0]] + xs[1..];
      assert Elements(xs) == {xs[0]} + Elements(xs[1..]);
    }
  }
}
