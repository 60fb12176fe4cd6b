/** Workload concentration: the active, pointed tickets of a sprint are gathered into one bucket per
    assignee, in a dictionary that keeps the order of first appearance, and the heaviest bucket is
    compared with the whole. Points are rounded per bucket and again in the total. */
module Workload {
  import opened Sequences
  import opened Ordering
  import opened Rounding
  import C = Classification
  import D = DeliveryConfidence

  /** A stored ticket; the assignee's display name and account id are stripped, "" if missing. */
  datatype Ticket = Ticket(issue: C.Issue, assignee: string, accountId: string)

  /** Case folding of display names. */
  type Fold = string -> string

  predicate IsActive(t: Ticket, m: C.Mapper) { t.issue.status != "" && t.issue.status !in m.done }

  predicate Pointed(t: Ticket) { D.IsPointed(t.issue) }

  function PointsOf(t: Ticket): (p: real)
    ensures p >= 0.0
  {
    if Pointed(t) then t.issue.points.value else 0.0
  }

  function KeyOf(t: Ticket): string { t.issue.key }

  function IssueOf(t: Ticket): C.Issue { t.issue }

  predicate UsesFallback(t: Ticket) { t.accountId == "" && t.assignee != "" }

  function BucketKey(t: Ticket, fold: Fold): string {
    if t.accountId != "" then "jira:" + t.accountId
    else if t.assignee != "" then "display:" + fold(t.assignee)
    else "unassigned"
  }

  function LabelOf(t: Ticket): string {
    if t.assignee != "" then t.assignee else if t.accountId != "" then t.accountId else "Unassigned"
  }

  /** The textual keys never confuse two people: an account is known by its id, whatever its display name, and
      a ticket without one by the folded display name. */
  lemma BucketKeysAreFaithful(a: Ticket, b: Ticket, fold: Fold)
    ensures BucketKey(a, fold) == BucketKey(b, fold) <==>
              a.accountId == b.accountId
              && (a.accountId == "" ==> (a.assignee == "" <==> b.assignee == "")
                                        && (a.assignee != "" ==> fold(a.assignee) == fold(b.assignee)))
    ensures LabelOf(a) != "" && (a.assignee != "" ==> LabelOf(a) == a.assignee)
  {
    var x, y := BucketKey(a, fold), BucketKey(b, fold);
    assert x[0] == (if a.accountId != "" then 'j' else if a.assignee != "" then 'd' else 'u');
    assert y[0] == (if b.accountId != "" then 'j' else if b.assignee != "" then 'd' else 'u');
    if x == y {
      assert x[5..] == y[5..] && (|x| >= 8 ==> x[8..] == y[8..]);
    }
  }

  /** How tickets are named: their bucket, their label, and the case folding used to sort labels. */
  datatype Naming = Naming(key: Ticket -> string, name: Ticket -> string, fold: Fold)

  function BucketKeys(fold: Fold): Ticket -> string { (t: Ticket) => BucketKey(t, fold) }

  function StandardNaming(fold: Fold): Naming { Naming(BucketKeys(fold), LabelOf, fold) }

  // ---------------------------------------------------------------------------------------
  // Buckets

  datatype Bucket = Bucket(labels: seq<string>, points: real, keys: seq<string>)

  function InBucket(k: string, names: Naming): Ticket -> bool { (t: Ticket) => names.key(t) == k }

  function Sum(xs: seq<real>): real {
    if xs == [] then 0.0 else xs[0] + Sum(xs[1..])
  }

  /** The bucket of one assignee, as a description of the tickets it holds. */
  function BucketOf(tickets: seq<Ticket>, k: string, names: Naming): Bucket {
    var mine := Filter(tickets, InBucket(k, names));
    Bucket(Map(mine, names.name), Sum(Map(mine, PointsOf)), Map(mine, KeyOf))
  }

  /** The bucket keys in the order in which they first appear. */
  function Order(tickets: seq<Ticket>, names: Naming): seq<string> {
    if tickets == [] then []
    else
      var n := |tickets| - 1;
      var before := Order(tickets[..n], names);
      var k := names.key(tickets[n]);
      if k in before then before else before + [k]
  }

  lemma {:induction false} OrderMembers(tickets: seq<Ticket>, names: Naming)
    ensures NoRepeats(Order(tickets, names))
    ensures forall t :: t in tickets ==> names.key(t) in Order(tickets, names)
    ensures forall k :: k in Order(tickets, names) ==> exists t :: t in tickets && names.key(t) == k
  {
    if tickets != [] {
      var n := |tickets| - 1;
      OrderMembers(tickets[..n], names);
      assert tickets == tickets[..n] + [tickets[n]];
    }
  }

  const EMPTY := Bucket([], 0.0, [])

  function Buckets(tickets: seq<Ticket>, names: Naming): string -> Bucket {
    (k: string) => BucketOf(tickets, k, names)
  }

  ghost predicate Holds(order: seq<string>, buckets: map<string, Bucket>, bucketOf: string -> Bucket) {
    && (forall k :: k in buckets <==> k in order)
    && (forall k :: k in buckets ==> buckets[k] == bucketOf(k))
  }

  ghost predicate Describes(order: seq<string>, buckets: map<string, Bucket>, tickets: seq<Ticket>, names: Naming) {
    order == Order(tickets, names) && Holds(order, buckets, Buckets(tickets, names))
  }

  function FallbackKeys(tickets: seq<Ticket>): seq<string> { Map(Filter(tickets, UsesFallback), KeyOf) }

  lemma FallbackStep(tickets: seq<Ticket>, i: nat)
    requires i < |tickets|
    ensures FallbackKeys(tickets[..i + 1])
            == FallbackKeys(tickets[..i]) + (if UsesFallback(tickets[i]) then [KeyOf(tickets[i])] else [])
  {
    FilterSnoc(tickets, i, UsesFallback);
  }

  method PutTicket(order: seq<string>, buckets: map<string, Bucket>, k: string, t: Ticket, names: Naming)
    returns (order': seq<string>, buckets': map<string, Bucket>)
    ensures order' == if k in buckets then order else order + [k]
    ensures buckets' == buckets[k := Added(if k in buckets then buckets[k] else EMPTY, t, names)]
  {
    order', buckets' := order, buckets;
    if k !in buckets' {
      buckets' := buckets'[k := EMPTY];
      order' := order' + [k];
    }
    buckets' := buckets'[k := Added(buckets'[k], t, names)];
  }

  method FillBuckets(included: seq<Ticket>, names: Naming) returns (order: seq<string>, buckets: map<string, Bucket>, fallback: seq<string>)
    ensures Describes(order, buckets, included, names)
    ensures fallback == FallbackKeys(included)
  {
    order, buckets, fallback := [], map[], [];
    for i := 0 to |included|
      invariant Describes(order, buckets, included[..i], names)
      invariant fallback == FallbackKeys(included[..i])
    {
      var t := included[i];
      var k := names.key(t);
      if t.accountId == "" && t.assignee != "" {
        fallback := fallback + [KeyOf(t)];
      }
      FallbackStep(included, i);
      BucketsStep(included, i, order, buckets, names);
      order, buckets := PutTicket(order, buckets, k, t, names);
    }
    assert included[..|included|] == included;
  }

  lemma HoldsStep(order: seq<string>, buckets: map<string, Bucket>, before: string -> Bucket, after: string -> Bucket,
                  k: string, t: Ticket, names: Naming)
    requires Holds(order, buckets, before)
    requires k !in order ==> before(k) == EMPTY
    requires forall j :: after(j) == if j == k then Added(before(j), t, names) else before(j)
    ensures Holds(if k in buckets then order else order + [k],
                  buckets[k := Added(if k in buckets then buckets[k] else EMPTY, t, names)], after)
  {}

  lemma BucketsStep(tickets: seq<Ticket>, i: nat, order: seq<string>, buckets: map<string, Bucket>, names: Naming)
    requires i < |tickets| && Describes(order, buckets, tickets[..i], names)
    ensures var k := names.key(tickets[i]);
            Describes(if k in buckets then order else order + [k],
                      buckets[k := Added(if k in buckets then buckets[k] else EMPTY, tickets[i], names)], tickets[..i + 1], names)
  {
    var k := names.key(tickets[i]);
    var before, after := Buckets(tickets[..i], names), Buckets(tickets[..i + 1], names);
    assert tickets[..i + 1][..i] == tickets[..i] && tickets[..i + 1][i] == tickets[i];
    forall j ensures after(j) == if j == k then Added(before(j), tickets[i], names) else before(j) {
      AddToBucket(tickets, i, j, names);
    }
    if k !in order {
      NewBucketIsEmpty(tickets[..i], k, names);
    }
    HoldsStep(order, buckets, before, after, k, tickets[i], names);
  }

  function Added(b: Bucket, t: Ticket, names: Naming): Bucket {
    Bucket(b.labels + [names.name(t)], b.points + PointsOf(t), b.keys + [KeyOf(t)])
  }

  lemma NewBucketIsEmpty(tickets: seq<Ticket>, k: string, names: Naming)
    requires k !in Order(tickets, names)
    ensures BucketOf(tickets, k, names) == EMPTY
  {
    OrderMembers(tickets, names);
    FilterNone(tickets, InBucket(k, names));
  }

  lemma AddToBucket(tickets: seq<Ticket>, i: nat, k: string, names: Naming)
    requires i < |tickets|
    ensures var before := BucketOf(tickets[..i], k, names);
            BucketOf(tickets[..i + 1], k, names) == if names.key(tickets[i]) == k then Added(before, tickets[i], names) else before
  {
    var t, mine := tickets[i], Filter(tickets[..i], InBucket(k, names));
    FilterSnoc(tickets, i, InBucket(k, names));
    var extra := if InBucket(k, names)(t) then [t] else [];
    MapConcat(mine, extra, names.name);
    MapConcat(mine, extra, PointsOf);
    MapConcat(mine, extra, KeyOf);
    SumConcat(Map(mine, PointsOf), Map(extra, PointsOf));
  }

  lemma {:induction false} SumConcat(a: seq<real>, b: seq<real>)
    ensures Sum(a + b) == Sum(a) + Sum(b)
  {
    if a == [] {
      assert a + b == b;
    } else {
      assert (a + b)[1..] == a[1..] + b;
      SumConcat(a[1..], b);
    }
  }

  // ---------------------------------------------------------------------------------------
  // Totals

  datatype AssigneeTotal = AssigneeTotal(key: string, name: string, points: real, issueKeys: seq<string>)

  function First(labels: seq<string>): string {
    if labels == [] then "" else Sort(labels, StringLe)[0]
  }

  function TotalOf(k: string, b: Bucket): AssigneeTotal {
    AssigneeTotal(k, First(b.labels), Round2(b.points), Sort(b.keys, StringLe))
  }

  function TotalFor(bucketOf: string -> Bucket): string -> AssigneeTotal {
    (k: string) => TotalOf(k, bucketOf(k))
  }

  function ByLabel(names: Naming): (AssigneeTotal, AssigneeTotal) -> bool {
    (a: AssigneeTotal, b: AssigneeTotal) =>
      (names.fold(a.name) != names.fold(b.name) && StringLe(names.fold(a.name), names.fold(b.name)))
      || (names.fold(a.name) == names.fold(b.name) && StringLe(a.key, b.key))
  }

  function HeaviestFirst(names: Naming): (AssigneeTotal, AssigneeTotal) -> bool {
    (a: AssigneeTotal, b: AssigneeTotal) => a.points > b.points || (a.points == b.points && ByLabel(names)(a, b))
  }

  function Totals(tickets: seq<Ticket>, names: Naming): seq<AssigneeTotal> {
    Sort(Map(Order(tickets, names), TotalFor(Buckets(tickets, names))), ByLabel(names))
  }

  method ListTotals(order: seq<string>, buckets: map<string, Bucket>, ghost bucketOf: string -> Bucket, names: Naming)
    returns (totals: seq<AssigneeTotal>)
    requires Holds(order, buckets, bucketOf)
    ensures totals == Sort(Map(order, TotalFor(bucketOf)), ByLabel(names))
  {
    totals := [];
    for i := 0 to |order|
      invariant totals == Map(order[..i], TotalFor(bucketOf))
    {
      var k := order[i];
      MapSnoc(order, i, TotalFor(bucketOf));
      totals := totals + [TotalOf(k, buckets[k])];
    }
    assert order[..|order|] == order;
    totals := Sort(totals, ByLabel(names));
  }

  function PointsIn(t: AssigneeTotal): real { t.points }

  function TotalPoints(totals: seq<AssigneeTotal>): real { Round2(Sum(Map(totals, PointsIn))) }

  // ---------------------------------------------------------------------------------------
  // The result

  datatype Status = Computed | Partial | NotComputed | NotApplicable | Inconclusive
  datatype Band = Critical | Watch | Healthy

  datatype Distribution = Distribution(status: Status, value: Option<real>, band: Option<Band>, top: Option<AssigneeTotal>,
                                       totals: seq<AssigneeTotal>, totalPoints: Option<real>,
                                       active: seq<string>, included: seq<string>, excluded: seq<string>,
                                       fallback: seq<string>, missingStatus: seq<string>)

  function SortedKeys(tickets: seq<Ticket>): seq<string> { Sort(Map(tickets, KeyOf), StringLe) }

  function Active(m: C.Mapper): Ticket -> bool { (t: Ticket) => IsActive(t, m) }

  predicate HasNoStatus(t: Ticket) { t.issue.status == "" }

  predicate Unpointed(t: Ticket) { !Pointed(t) }

  function BandOf(pct: real): Band { if pct > 50.0 then Critical else if pct >= 35.0 then Watch else Healthy }

  function Heaviest(totals: seq<AssigneeTotal>, names: Naming): AssigneeTotal
    requires TotalPoints(totals) > 0.0
  {
    Round2Exact(0);
    Sort(totals, HeaviestFirst(names))[0]
  }

  function Concentration(totals: seq<AssigneeTotal>, top: AssigneeTotal): real
    requires TotalPoints(totals) > 0.0
  {
    Round2(100.0 * top.points / TotalPoints(totals))
  }

  /** The last step: the heaviest assignee's share, if there are any points. */
  function Rate(d: Distribution, coverage: real, names: Naming): Distribution {
    if TotalPoints(d.totals) <= 0.0 then d
    else
      var top := Heaviest(d.totals, names);
      var pct := Concentration(d.totals, top);
      d.(status := if coverage < 100.0 || d.fallback != [] then Partial else Computed,
         value := Some(pct), band := Some(BandOf(pct)), top := Some(top))
  }

  function Coverage(tickets: seq<Ticket>): real { D.CoveragePct(Map(tickets, IssueOf)) }

  function Bare(tickets: seq<Ticket>, m: C.Mapper): Distribution {
    Distribution(NotComputed, None, None, None, [], None, SortedKeys(Filter(tickets, Active(m))), [], [], [],
                 SortedKeys(Filter(tickets, HasNoStatus)))
  }

  /** Everything known before the share is rated. */
  function Gathered(tickets: seq<Ticket>, m: C.Mapper, names: Naming): Distribution {
    var actives := Filter(tickets, Active(m));
    var included := Filter(actives, Pointed);
    var totals := Totals(included, names);
    Bare(tickets, m).(totals := totals, totalPoints := Some(TotalPoints(totals)), included := SortedKeys(included),
                      excluded := SortedKeys(Filter(actives, Unpointed)),
                      fallback := SortedKeys(Filter(included, UsesFallback)))
  }

  function Distribute(tickets: seq<Ticket>, m: C.Mapper, names: Naming): Distribution {
    if tickets == [] then Bare(tickets, m)
    else if Coverage(tickets) < D.MIN_COVERAGE || Filter(tickets, HasNoStatus) != [] then Bare(tickets, m).(status := Inconclusive)
    else if Filter(tickets, Active(m)) == [] then Bare(tickets, m).(status := NotApplicable)
    else Rate(Gathered(tickets, m, names), Coverage(tickets), names)
  }

  method SplitPointed(actives: seq<Ticket>) returns (included: seq<Ticket>, excluded: seq<string>)
    ensures included == Filter(actives, Pointed)
    ensures excluded == Map(Filter(actives, Unpointed), KeyOf)
  {
    included, excluded := [], [];
    for i := 0 to |actives|
      invariant included == Filter(actives[..i], Pointed)
      invariant excluded == Map(Filter(actives[..i], Unpointed), KeyOf)
    {
      FilterSnoc(actives, i, Pointed);
      FilterSnoc(actives, i, Unpointed);
      if !Pointed(actives[i]) {
        excluded := excluded + [KeyOf(actives[i])];
      } else {
        included := included + [actives[i]];
      }
    }
    assert actives[..|actives|] == actives;
  }

  method Gather(tickets: seq<Ticket>, m: C.Mapper, names: Naming) returns (r: Distribution)
    ensures r == Gathered(tickets, m, names)
  {
    var actives := Filter(tickets, Active(m));
    var included, excluded := SplitPointed(actives);
    var order, buckets, fallback := FillBuckets(included, names);
    var totals := ListTotals(order, buckets, Buckets(included, names), names);
    r := Bare(tickets, m).(totals := totals, totalPoints := Some(TotalPoints(totals)), included := SortedKeys(included),
                           excluded := Sort(excluded, StringLe), fallback := Sort(fallback, StringLe));
  }

  method RateTotals(d: Distribution, coverage: real, names: Naming) returns (r: Distribution)
    ensures r == Rate(d, coverage, names)
  {
    r := d;
    if TotalPoints(r.totals) <= 0.0 {
      return;
    }
    var top := Heaviest(r.totals, names);
    var pct := Concentration(r.totals, top);
    var isPartial := coverage < 100.0 || r.fallback != [];
    r := r.(status := if isPartial then Partial else Computed, value := Some(pct), band := Some(BandOf(pct)), top := Some(top));
  }

  /** `_compute_workload_distribution`; the program's naming is `StandardNaming`. */
  method ComputeWorkload(tickets: seq<Ticket>, m: C.Mapper, names: Naming) returns (r: Distribution)
    ensures r == Distribute(tickets, m, names)
  {
    var coverage := Coverage(tickets);
    r := Bare(tickets, m);
    if tickets == [] {
      return;
    }
    if coverage < D.MIN_COVERAGE || Filter(tickets, HasNoStatus) != [] {
      return r.(status := Inconclusive);
    }
    if Filter(tickets, Active(m)) == [] {
      return r.(status := NotApplicable);
    }
    r := Gather(tickets, m, names);
    r := RateTotals(r, coverage, names);
  }

  // ---------------------------------------------------------------------------------------
  // Every ticket in one bucket

  lemma OrdersRank(names: Naming)
    ensures Ranking(ByLabel(names)) && Ranking(HeaviestFirst(names))
    ensures forall a, b :: ByLabel(names)(a, b) && ByLabel(names)(b, a) ==> a.key == b.key
    ensures forall a, b :: HeaviestFirst(names)(a, b) && HeaviestFirst(names)(b, a) ==> a.key == b.key
  {
    var le := ByLabel(names);
    forall a, b, c | le(a, b) && le(b, c) ensures le(a, c) {
      StringLeTotal(names.fold(a.name), names.fold(b.name));
      StringLeTotal(names.fold(b.name), names.fold(c.name));
      StringLeTransitive(names.fold(a.name), names.fold(b.name), names.fold(c.name));
      if names.fold(a.name) == names.fold(b.name) == names.fold(c.name) {
        StringLeTransitive(a.key, b.key, c.key);
      }
    }
    forall a, b ensures le(a, b) || le(b, a) {
      StringLeTotal(names.fold(a.name), names.fold(b.name));
      StringLeTotal(a.key, b.key);
    }
    forall a, b | le(a, b) && le(b, a) ensures a.key == b.key {
      StringLeTotal(names.fold(a.name), names.fold(b.name));
      StringLeTotal(a.key, b.key);
    }
    var heavy := HeaviestFirst(names);
    forall a, b, c | heavy(a, b) && heavy(b, c) ensures heavy(a, c) {
      if a.points == b.points == c.points {
        assert le(a, c);
      }
    }
  }

  ghost predicate DistinctKeys(tickets: seq<Ticket>) {
    forall t, u :: t in tickets && u in tickets && KeyOf(t) == KeyOf(u) ==> t == u
  }

  lemma TotalsMembers(tickets: seq<Ticket>, names: Naming)
    ensures |Totals(tickets, names)| == |Order(tickets, names)|
    ensures forall a :: a in Totals(tickets, names) <==> a.key in Order(tickets, names) && a == TotalFor(Buckets(tickets, names))(a.key)
  {
    SameElements(Map(Order(tickets, names), TotalFor(Buckets(tickets, names))), Totals(tickets, names));
  }

  lemma SortedKeysMembers(mine: seq<Ticket>, key: string)
    ensures key in SortedKeys(mine) <==> exists t :: t in mine && KeyOf(t) == key
  {
    var keys := Map(mine, KeyOf);
    SameElements(keys, SortedKeys(mine));
    if key in keys {
      var i :| 0 <= i < |keys| && keys[i] == key;
      assert mine[i] in mine;
    }
    forall t | t in mine && KeyOf(t) == key ensures key in keys {
      var i :| 0 <= i < |mine| && mine[i] == t;
      assert keys[i] == key;
    }
  }

  lemma InBucketIff(tickets: seq<Ticket>, k: string, names: Naming, t: Ticket)
    requires DistinctKeys(tickets) && t in tickets
    ensures KeyOf(t) in SortedKeys(Filter(tickets, InBucket(k, names))) <==> names.key(t) == k
  {
    var mine := Filter(tickets, InBucket(k, names));
    FilterMembers(tickets, InBucket(k, names));
    SortedKeysMembers(mine, KeyOf(t));
    assert t in mine <==> names.key(t) == k;
  }

  /** Every included ticket is listed under exactly one assignee, its own. */
  lemma OneAssigneeEach(tickets: seq<Ticket>, names: Naming, t: Ticket)
    requires DistinctKeys(tickets) && t in tickets
    ensures exists a :: a in Totals(tickets, names) && a.key == names.key(t)
    ensures forall a :: a in Totals(tickets, names) ==> (KeyOf(t) in a.issueKeys <==> a.key == names.key(t))
    ensures forall a, b :: a in Totals(tickets, names) && b in Totals(tickets, names) && a.key == b.key ==> a == b
  {
    TotalsMembers(tickets, names);
    OrderMembers(tickets, names);
    assert TotalFor(Buckets(tickets, names))(names.key(t)) in Totals(tickets, names);
    forall a | a in Totals(tickets, names) ensures KeyOf(t) in a.issueKeys <==> a.key == names.key(t) {
      InBucketIff(tickets, a.key, names, t);
      assert a.issueKeys == SortedKeys(Filter(tickets, InBucket(a.key, names)));
    }
  }

  // ---------------------------------------------------------------------------------------
  // Points are conserved up to rounding

  /** The unrounded points of the listed buckets. */
  function RawPoints(ks: seq<string>, bucketOf: string -> Bucket): real {
    if ks == [] then 0.0 else RawPoints(ks[..|ks| - 1], bucketOf) + bucketOf(ks[|ks| - 1]).points
  }

  lemma {:induction false} RawPointsStep(ks: seq<string>, before: string -> Bucket, after: string -> Bucket, k: string, p: real)
    requires NoRepeats(ks)
    requires forall j :: after(j).points == before(j).points + (if j == k then p else 0.0)
    ensures RawPoints(ks, after) == RawPoints(ks, before) + (if k in ks then p else 0.0)
  {
    if ks != [] {
      var n := |ks| - 1;
      assert ks == ks[..n] + [ks[n]];
      RawPointsStep(ks[..n], before, after, k, p);
    }
  }

  lemma RawPointsGrow(order: seq<string>, before: string -> Bucket, after: string -> Bucket, k: string, p: real)
    requires NoRepeats(order)
    requires k !in order ==> before(k).points == 0.0
    requires forall j :: after(j).points == before(j).points + (if j == k then p else 0.0)
    ensures RawPoints(if k in order then order else order + [k], after) == RawPoints(order, before) + p
  {
    RawPointsStep(order, before, after, k, p);
    assert (order + [k])[..|order|] == order;
  }

  lemma SumSnoc(tickets: seq<Ticket>)
    requires tickets != []
    ensures var n := |tickets| - 1; Sum(Map(tickets, PointsOf)) == Sum(Map(tickets[..n], PointsOf)) + PointsOf(tickets[n])
  {
    var n := |tickets| - 1;
    assert Map(tickets, PointsOf) == Map(tickets[..n], PointsOf) + [PointsOf(tickets[n])];
    SumConcat(Map(tickets[..n], PointsOf), [PointsOf(tickets[n])]);
  }

  lemma {:induction false} RawPointsAreAll(tickets: seq<Ticket>, names: Naming)
    ensures RawPoints(Order(tickets, names), Buckets(tickets, names)) == Sum(Map(tickets, PointsOf))
  {
    if tickets != [] {
      var n := |tickets| - 1;
      var k := names.key(tickets[n]);
      assert tickets == tickets[..n + 1];
      RawPointsAreAll(tickets[..n], names);
      OrderMembers(tickets[..n], names);
      SumSnoc(tickets);
      forall j ensures Buckets(tickets, names)(j).points == Buckets(tickets[..n], names)(j).points
                                                            + (if j == k then PointsOf(tickets[n]) else 0.0)
      {
        AddToBucket(tickets, n, j, names);
      }
      if k !in Order(tickets[..n], names) {
        NewBucketIsEmpty(tickets[..n], k, names);
      }
      RawPointsGrow(Order(tickets[..n], names), Buckets(tickets[..n], names), Buckets(tickets, names), k, PointsOf(tickets[n]));
    }
  }

  function ReportedPoints(ks: seq<string>, bucketOf: string -> Bucket): real {
    Sum(Map(Map(ks, TotalFor(bucketOf)), PointsIn))
  }

  lemma OneMoreTotal(ks: seq<string>, bucketOf: string -> Bucket)
    requires ks != []
    ensures var n := |ks| - 1;
            ReportedPoints(ks, bucketOf) == ReportedPoints(ks[..n], bucketOf) + Round2(bucketOf(ks[n]).points)
  {
    var n := |ks| - 1;
    assert ks[..n + 1] == ks;
    MapSnoc(ks, n, TotalFor(bucketOf));
    var totals := Map(ks, TotalFor(bucketOf));
    assert totals[..n] == Map(ks[..n], TotalFor(bucketOf)) && totals[..n + 1] == totals;
    MapSnoc(totals, n, PointsIn);
    SumConcat(Map(totals[..n], PointsIn), [PointsIn(totals[n])]);
  }

  lemma {:induction false} RoundingError(ks: seq<string>, bucketOf: string -> Bucket)
    ensures -0.005 * |ks| as real <= ReportedPoints(ks, bucketOf) - RawPoints(ks, bucketOf) <= 0.005 * |ks| as real
  {
    if ks != [] {
      RoundingError(ks[..|ks| - 1], bucketOf);
      OneMoreTotal(ks, bucketOf);
    }
  }

  lemma {:induction false} SumRemoved(xs: seq<real>, i: nat)
    requires i < |xs|
    ensures Sum(xs) == xs[i] + Sum(RemoveAt(xs, i))
  {
    if i == 0 {
      assert RemoveAt(xs, 0) == xs[1..];
    } else {
      SumRemoved(xs[1..], i - 1);
      assert RemoveAt(xs, i) == [xs[0]] + RemoveAt(xs[1..], i - 1);
    }
  }

  lemma {:induction false} SumPermutation(a: seq<real>, b: seq<real>)
    requires multiset(a) == multiset(b)
    ensures Sum(a) == Sum(b)
    decreases |a|
  {
    if a == [] {
      assert |multiset(b)| == 0;
    } else {
      var i := FindFirst(a, b);
      SumPermutation(a[1..], RemoveAt(b, i));
      SumRemoved(b, i);
    }
  }

  lemma Round2Twice(x: real)
    ensures Round2(Round2(x)) == Round2(x)
  {
    Round2Exact(Hundredths(x));
  }

  lemma {:induction false} SumOfRounded(xs: seq<real>)
    requires forall i :: 0 <= i < |xs| ==> Round2(xs[i]) == xs[i]
    ensures Round2(Sum(xs)) == Sum(xs)
  {
    if xs == [] {
      Round2Exact(0);
    } else {
      SumOfRounded(xs[1..]);
      var h := Hundredths(xs[0]) + Hundredths(Sum(xs[1..]));
      assert Sum(xs) == h as real / 100.0;
      Round2Exact(h);
    }
  }

  /** The outer rounding of the total loses nothing. */
  lemma TotalIsSum(tickets: seq<Ticket>, names: Naming)
    ensures TotalPoints(Totals(tickets, names)) == Sum(Map(Totals(tickets, names), PointsIn))
  {
    var totals := Totals(tickets, names);
    TotalsMembers(tickets, names);
    forall i | 0 <= i < |totals| ensures Round2(totals[i].points) == totals[i].points {
      assert totals[i] in totals;
      Round2Twice(Buckets(tickets, names)(totals[i].key).points);
    }
    SumOfRounded(Map(totals, PointsIn));
  }

  /** The reported total is within half a hundredth per assignee of the included points. */
  lemma TotalIsConserved(tickets: seq<Ticket>, names: Naming)
    ensures var n := |Totals(tickets, names)| as real;
            -0.005 * n <= TotalPoints(Totals(tickets, names)) - Sum(Map(tickets, PointsOf)) <= 0.005 * n
  {
    var listed := Map(Order(tickets, names), TotalFor(Buckets(tickets, names)));
    TotalsMembers(tickets, names);
    TotalIsSum(tickets, names);
    MapPermutation(listed, Totals(tickets, names), PointsIn);
    SumPermutation(Map(listed, PointsIn), Map(Totals(tickets, names), PointsIn));
    RoundingError(Order(tickets, names), Buckets(tickets, names));
    RawPointsAreAll(tickets, names);
  }

  // ---------------------------------------------------------------------------------------
  // Concentration

  lemma {:induction false} SumBounds(xs: seq<real>, top: real)
    requires forall i :: 0 <= i < |xs| ==> 0.0 <= xs[i] <= top
    ensures 0.0 <= Sum(xs) <= top * |xs| as real
    ensures forall i :: 0 <= i < |xs| ==> xs[i] <= Sum(xs)
  {
    if xs != [] {
      SumBounds(xs[1..], top);
      assert top * |xs| as real == top + top * |xs[1..]| as real;
      forall i | 0 <= i < |xs| ensures xs[i] <= Sum(xs) {
        assert i > 0 ==> xs[i] == xs[1..][i - 1];
      }
    }
  }

  lemma {:induction false} SumNonNegative(xs: seq<real>)
    requires forall i :: 0 <= i < |xs| ==> xs[i] >= 0.0
    ensures Sum(xs) >= 0.0
  {
    if xs != [] {
      SumNonNegative(xs[1..]);
    }
  }

  lemma TotalsNonNegative(tickets: seq<Ticket>, names: Naming)
    ensures forall a :: a in Totals(tickets, names) ==> a.points >= 0.0
  {
    TotalsMembers(tickets, names);
    Round2Exact(0);
    forall a | a in Totals(tickets, names) ensures a.points >= 0.0 {
      SumNonNegative(Map(Filter(tickets, InBucket(a.key, names)), PointsOf));
      Round2Monotone(0.0, BucketOf(tickets, a.key, names).points);
    }
  }

  /** The reported share is between an equal share, rounded, and everything; and the top assignee
      carries at least as much as any other. */
  lemma ConcentrationBounds(tickets: seq<Ticket>, names: Naming)
    requires TotalPoints(Totals(tickets, names)) > 0.0
    ensures var totals := Totals(tickets, names);
            var top := Heaviest(totals, names);
            && totals != [] && top in totals && (forall a :: a in totals ==> a.points <= top.points)
            && Round2(100.0 / |totals| as real) <= Concentration(totals, top) <= 100.0
  {
    TotalsNonNegative(tickets, names);
    TotalIsSum(tickets, names);
    TopIsHeaviest(Totals(tickets, names), names);
    TopShare(Totals(tickets, names), Heaviest(Totals(tickets, names), names));
  }

  lemma LargestIsShare(points: seq<real>, i: nat)
    requires i < |points| && forall j :: 0 <= j < |points| ==> 0.0 <= points[j] <= points[i]
    ensures points[i] <= Sum(points) <= points[i] * |points| as real
  {
    SumBounds(points, points[i]);
  }

  lemma TopIsShare(totals: seq<AssigneeTotal>, top: AssigneeTotal)
    requires top in totals
    requires forall a :: a in totals ==> 0.0 <= a.points <= top.points
    ensures var sum := Sum(Map(totals, PointsIn)); top.points <= sum <= top.points * |totals| as real
  {
    var i :| 0 <= i < |totals| && totals[i] == top;
    forall j | 0 <= j < |totals| ensures 0.0 <= PointsIn(totals[j]) <= PointsIn(totals[i]) {
      assert totals[j] in totals;
    }
    LargestIsShare(Map(totals, PointsIn), i);
  }

  lemma TopShare(totals: seq<AssigneeTotal>, top: AssigneeTotal)
    requires TotalPoints(totals) == Sum(Map(totals, PointsIn)) > 0.0
    requires top in totals
    requires forall a :: a in totals ==> 0.0 <= a.points <= top.points
    ensures Round2(100.0 / |totals| as real) <= Concentration(totals, top) <= 100.0
  {
    TopIsShare(totals, top);
    assert |totals| >= 1;
    RoundedShare(top.points, TotalPoints(totals), |totals| as real);
  }

  lemma RoundedShare(top: real, sum: real, n: real)
    requires 0.0 < sum <= top * n && 0.0 <= top <= sum && 1.0 <= n
    ensures Round2(100.0 / n) <= Round2(100.0 * top / sum) <= 100.0
  {
    ShareBounds(top, sum, n);
    Round2Monotone(100.0 / n, 100.0 * top / sum);
    Round2Monotone(100.0 * top / sum, 100.0);
    Round2Exact(10000);
  }

  lemma ShareBounds(top: real, sum: real, n: real)
    requires 0.0 < sum <= top * n && 0.0 <= top <= sum && 1.0 <= n
    ensures 100.0 / n <= 100.0 * top / sum <= 100.0
  {
    DivideMonotone(100.0 * top, 100.0 * sum, sum);
    assert 100.0 * sum / sum == 100.0;
    DivideMonotone(100.0 * sum / n, 100.0 * top, sum);
    assert 100.0 * sum / n <= 100.0 * top by {
      DivideMonotone(100.0 * sum, 100.0 * top * n, n);
      assert 100.0 * top * n / n == 100.0 * top;
    }
    assert 100.0 * sum / n / sum == 100.0 / n by {
      var q := 100.0 / n;
      assert q * n == 100.0;
      assert q * sum * n == 100.0 * sum;
      assert 100.0 * sum / n == q * sum;
      assert q * sum / sum == q;
    }
  }

  lemma TopIsHeaviest(totals: seq<AssigneeTotal>, names: Naming)
    requires TotalPoints(totals) > 0.0
    ensures totals != [] && Heaviest(totals, names) in totals
    ensures forall a :: a in totals ==> a.points <= Heaviest(totals, names).points
    ensures forall a :: a in totals && a.points == Heaviest(totals, names).points ==>
              a == Heaviest(totals, names) || ByLabel(names)(Heaviest(totals, names), a)
  {
    Round2Exact(0);
    var ranked := Sort(totals, HeaviestFirst(names));
    OrdersRank(names);
    SortSorted(totals, HeaviestFirst(names));
    SameElements(totals, ranked);
    assert ranked[0] in ranked;
    forall a | a in totals
      ensures a.points <= ranked[0].points
      ensures a.points == ranked[0].points ==> a == ranked[0] || ByLabel(names)(ranked[0], a)
    {
      var i :| 0 <= i < |ranked| && ranked[i] == a;
      assert i == 0 || HeaviestFirst(names)(ranked[0], ranked[i]);
    }
  }

  // ---------------------------------------------------------------------------------------
  // Row order does not matter

  lemma SortedStringsCanonical(a: seq<string>, b: seq<string>)
    requires multiset(a) == multiset(b)
    ensures Sort(a, StringLe) == Sort(b, StringLe)
  {
    StringLeIsTotalOrder();
    SortCanonical(a, b, StringLe);
  }

  lemma SortedKeysCanonical(a: seq<Ticket>, b: seq<Ticket>)
    requires multiset(a) == multiset(b)
    ensures SortedKeys(a) == SortedKeys(b)
  {
    MapPermutation(a, b, KeyOf);
    SortedStringsCanonical(Map(a, KeyOf), Map(b, KeyOf));
  }

  lemma BucketCanonical(a: seq<Ticket>, b: seq<Ticket>, k: string, names: Naming)
    requires multiset(a) == multiset(b)
    ensures TotalOf(k, BucketOf(a, k, names)) == TotalOf(k, BucketOf(b, k, names))
  {
    var x, y := Filter(a, InBucket(k, names)), Filter(b, InBucket(k, names));
    FilterPermutation(a, b, InBucket(k, names));
    SameElements(x, y);
    MapPermutation(x, y, names.name);
    MapPermutation(x, y, PointsOf);
    SumPermutation(Map(x, PointsOf), Map(y, PointsOf));
    SortedKeysCanonical(x, y);
    SortedStringsCanonical(Map(x, names.name), Map(y, names.name));
  }

  lemma OrderCanonical(a: seq<Ticket>, b: seq<Ticket>, names: Naming)
    requires multiset(a) == multiset(b)
    ensures multiset(Order(a, names)) == multiset(Order(b, names))
  {
    SameElements(a, b);
    OrderMembers(a, names);
    OrderMembers(b, names);
    forall k ensures k in Order(a, names) <==> k in Order(b, names) {
      if k in Order(a, names) {
        var t :| t in a && names.key(t) == k;
        assert t in b;
      }
      if k in Order(b, names) {
        var t :| t in b && names.key(t) == k;
        assert t in a;
      }
    }
    SameSetSameList(Order(a, names), Order(b, names));
  }

  /** Two totals with the same key are the same total, so no order used on them leaves a tie. */
  lemma TotalsHaveNoTies(tickets: seq<Ticket>, names: Naming)
    ensures NoTies(Map(Order(tickets, names), TotalFor(Buckets(tickets, names))), ByLabel(names))
    ensures NoTies(Totals(tickets, names), HeaviestFirst(names))
  {
    TotalsMembers(tickets, names);
    OrdersRank(names);
  }

  lemma TotalsCanonical(a: seq<Ticket>, b: seq<Ticket>, names: Naming)
    requires multiset(a) == multiset(b)
    ensures Totals(a, names) == Totals(b, names)
  {
    var f, g := TotalFor(Buckets(a, names)), TotalFor(Buckets(b, names));
    OrderCanonical(a, b, names);
    forall k ensures f(k) == g(k) {
      BucketCanonical(a, b, k, names);
    }
    MapPermutation(Order(a, names), Order(b, names), f);
    assert Map(Order(b, names), f) == Map(Order(b, names), g);
    OrdersRank(names);
    TotalsHaveNoTies(a, names);
    SortCanonical(Map(Order(a, names), f), Map(Order(b, names), g), ByLabel(names));
  }

  lemma {:induction false} PointedCount(tickets: seq<Ticket>)
    ensures |C.KeysWhere(Map(tickets, IssueOf), D.IsPointed)| == |Filter(tickets, Pointed)|
  {
    if tickets != [] {
      var n := |tickets| - 1;
      PointedCount(tickets[..n]);
      assert Map(tickets, IssueOf)[..n] == Map(tickets[..n], IssueOf);
      assert tickets[..n + 1] == tickets;
      FilterSnoc(tickets, n, Pointed);
    }
  }

  lemma CoverageCanonical(a: seq<Ticket>, b: seq<Ticket>)
    requires multiset(a) == multiset(b)
    ensures Coverage(a) == Coverage(b)
  {
    SameElements(a, b);
    PointedCount(a);
    PointedCount(b);
    FilterPermutation(a, b, Pointed);
    SameElements(Filter(a, Pointed), Filter(b, Pointed));
  }

  lemma GatheredCanonical(a: seq<Ticket>, b: seq<Ticket>, m: C.Mapper, names: Naming)
    requires multiset(a) == multiset(b)
    ensures Bare(a, m) == Bare(b, m) && Gathered(a, m, names) == Gathered(b, m, names)
  {
    var x, y := Filter(a, Active(m)), Filter(b, Active(m));
    FilterPermutation(a, b, Active(m));
    FilterPermutation(a, b, HasNoStatus);
    FilterPermutation(x, y, Pointed);
    FilterPermutation(x, y, Unpointed);
    FilterPermutation(Filter(x, Pointed), Filter(y, Pointed), UsesFallback);
    SortedKeysCanonical(x, y);
    SortedKeysCanonical(Filter(a, HasNoStatus), Filter(b, HasNoStatus));
    SortedKeysCanonical(Filter(x, Pointed), Filter(y, Pointed));
    SortedKeysCanonical(Filter(x, Unpointed), Filter(y, Unpointed));
    SortedKeysCanonical(Filter(Filter(x, Pointed), UsesFallback), Filter(Filter(y, Pointed), UsesFallback));
    TotalsCanonical(Filter(x, Pointed), Filter(y, Pointed), names);
  }

  /** The whole result, every list of it, depends only on which rows there are. */
  lemma RowOrderDoesNotMatter(a: seq<Ticket>, b: seq<Ticket>, m: C.Mapper, names: Naming)
    requires multiset(a) == multiset(b)
    ensures Distribute(a, m, names) == Distribute(b, m, names)
  {
    SameElements(a, b);
    CoverageCanonical(a, b);
    GatheredCanonical(a, b, m, names);
    FilterPermutation(a, b, Active(m));
    FilterPermutation(a, b, HasNoStatus);
    SameElements(Filter(a, Active(m)), Filter(b, Active(m)));
    SameElements(Filter(a, HasNoStatus), Filter(b, HasNoStatus));
  }

  // ---------------------------------------------------------------------------------------
  // What a returned share relies on

  lemma {:induction false} SumOfZeros(xs: seq<real>)
    requires forall i :: 0 <= i < |xs| ==> xs[i] == 0.0
    ensures Sum(xs) == 0.0
  {
    if xs != [] {
      SumOfZeros(xs[1..]);
    }
  }

  lemma NoPointsNoTotal(tickets: seq<Ticket>, names: Naming)
    requires forall t :: t in tickets ==> PointsOf(t) == 0.0
    ensures TotalPoints(Totals(tickets, names)) == 0.0
  {
    var totals := Totals(tickets, names);
    Round2Exact(0);
    TotalsMembers(tickets, names);
    forall i | 0 <= i < |totals| ensures totals[i].points == 0.0 {
      assert totals[i] in totals;
      FilterMembers(tickets, InBucket(totals[i].key, names));
      var mine := Filter(tickets, InBucket(totals[i].key, names));
      forall j | 0 <= j < |mine| ensures PointsOf(mine[j]) == 0.0 {
        assert mine[j] in mine;
      }
      SumOfZeros(Map(mine, PointsOf));
    }
    SumOfZeros(Map(totals, PointsIn));
  }

  lemma SomePointsSomeTotal(tickets: seq<Ticket>, names: Naming)
    requires TotalPoints(Totals(tickets, names)) > 0.0
    ensures exists t :: t in tickets && PointsOf(t) > 0.0
  {
    if forall t :: t in tickets ==> PointsOf(t) == 0.0 {
      NoPointsNoTotal(tickets, names);
    }
  }

  lemma RatedStatus(d: Distribution, coverage: real, names: Naming)
    requires d.value.None? && d.status == NotComputed && coverage <= 100.0
    ensures var r := Rate(d, coverage, names);
            && (r.value.Some? <==> TotalPoints(d.totals) > 0.0) && (r.value.Some? <==> r.status in {Computed, Partial})
            && (r.status == Computed ==> coverage == 100.0 && d.fallback == [])
  {}

  lemma NoKeysNoTickets(tickets: seq<Ticket>)
    ensures SortedKeys(tickets) == [] ==> tickets == []
  {
    assert |SortedKeys(tickets)| == |tickets|;
  }

  /** A share is returned only if every ticket has a status, the coverage gate is open and some active
      pointed ticket carries points; COMPUTED promises full coverage and no guess at an identity. */
  lemma ReturnedShare(tickets: seq<Ticket>, m: C.Mapper, names: Naming)
    requires Distribute(tickets, m, names).value.Some?
    ensures Distribute(tickets, m, names).status in {Computed, Partial}
    ensures Coverage(tickets) >= D.MIN_COVERAGE && forall t :: t in tickets ==> t.issue.status != ""
    ensures exists t :: t in tickets && IsActive(t, m) && PointsOf(t) > 0.0
    ensures Distribute(tickets, m, names).status == Computed ==>
              Coverage(tickets) == 100.0 && forall t :: t in tickets && IsActive(t, m) && Pointed(t) ==> !UsesFallback(t)
  {
    var included := Filter(Filter(tickets, Active(m)), Pointed);
    RatedStatus(Gathered(tickets, m, names), Coverage(tickets), names);
    SomePointsSomeTotal(included, names);
    NoKeysNoTickets(Filter(included, UsesFallback));
    IncludedMembers(tickets, m);
  }

  lemma IncludedMembers(tickets: seq<Ticket>, m: C.Mapper)
    ensures var included := Filter(Filter(tickets, Active(m)), Pointed);
            && (forall t :: t in included <==> t in tickets && IsActive(t, m) && Pointed(t))
            && (Filter(included, UsesFallback) == [] ==> forall t :: t in included ==> !UsesFallback(t))
    ensures Filter(tickets, HasNoStatus) == [] ==> forall t :: t in tickets ==> t.issue.status != ""
  {
    var included := Filter(Filter(tickets, Active(m)), Pointed);
    FilterMembers(tickets, HasNoStatus);
    FilterMembers(tickets, Active(m));
    FilterMembers(Filter(tickets, Active(m)), Pointed);
    FilterMembers(included, UsesFallback);
    forall t | t in tickets ensures Filter(tickets, HasNoStatus) == [] ==> t.issue.status != "" {
      assert HasNoStatus(t) ==> t in Filter(tickets, HasNoStatus);
    }
    forall t | t in included ensures Filter(included, UsesFallback) == [] ==> !UsesFallback(t) {
      assert UsesFallback(t) ==> t in Filter(included, UsesFallback);
    }
  }
}
