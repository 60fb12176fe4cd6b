/** What the workload result says, in the tickets' own fields. */
module WorkloadFormula {
  import opened Sequences
  import opened Ordering
  import C = Classification
  import D = DeliveryConfidence
  import F = DeliveryFormula
  import opened Workload

  /** A ticket whose points count: its status is known and not done, and it has an estimate. */
  predicate Carries(t: Ticket, m: C.Mapper) {
    t.issue.status != "" && t.issue.status !in m.done && t.issue.points.Some? && t.issue.points.value >= 0.0
  }

  /** The points of one assignee's tickets. */
  function Carried(tickets: seq<Ticket>, m: C.Mapper, names: Naming, key: string): real {
    if tickets == [] then 0.0
    else
      var n := |tickets| - 1;
      Carried(tickets[..n], m, names, key)
      + (if Carries(tickets[n], m) && names.key(tickets[n]) == key then tickets[n].issue.points.value else 0.0)
  }

  function Included(tickets: seq<Ticket>, m: C.Mapper): seq<Ticket> { Filter(Filter(tickets, Active(m)), Pointed) }

  lemma {:induction false} IncludedCarry(tickets: seq<Ticket>, m: C.Mapper, t: Ticket)
    ensures t in Included(tickets, m) <==> t in tickets && Carries(t, m)
  {
    FilterMembers(tickets, Active(m));
    FilterMembers(Filter(tickets, Active(m)), Pointed);
  }

  // ---------------------------------------------------------------------------------------
  // The share

  lemma {:induction false} ResultIsRated(tickets: seq<Ticket>, m: C.Mapper, names: Naming) returns (d: Distribution)
    requires Distribute(tickets, m, names).totalPoints.Some?
    ensures d == Gathered(tickets, m, names) && Distribute(tickets, m, names) == Rate(d, Coverage(tickets), names)
    ensures d.totals == Totals(Included(tickets, m), names) && d.totalPoints == Some(TotalPoints(d.totals)) && d.value == None
    ensures Distribute(tickets, m, names).totals == d.totals
  {
    d := Gathered(tickets, m, names);
  }

  lemma {:induction false} ValueNeedsTotals(tickets: seq<Ticket>, m: C.Mapper, names: Naming)
    requires Distribute(tickets, m, names).value.Some?
    ensures Distribute(tickets, m, names).totalPoints.Some?
  {}

  /** The share and its band, on the returned fields alone; among the heaviest the first label decides. */
  ghost predicate ShareStands(r: Distribution, fold: Fold) {
    && r.value.Some? && r.top.Some? && r.totalPoints.Some? && r.totalPoints.value > 0.0 && r.top.value in r.totals
    && (forall a :: a in r.totals ==> a.points <= r.top.value.points)
    && (forall a :: a in r.totals && a.points == r.top.value.points ==> StringLe(fold(r.top.value.name), fold(a.name)))
    && -0.005 <= r.value.value - 100.0 * r.top.value.points / r.totalPoints.value <= 0.005
    && (r.band == Some(Critical) <==> r.value.value > 50.0)
    && (r.band == Some(Watch) <==> 35.0 <= r.value.value <= 50.0)
    && (r.band == Some(Healthy) <==> r.value.value < 35.0)
  }

  lemma {:induction false} RatedShare(d: Distribution, coverage: real, names: Naming)
    requires d.value == None && d.totalPoints == Some(TotalPoints(d.totals)) && Rate(d, coverage, names).value.Some?
    ensures ShareStands(Rate(d, coverage, names), names.fold)
  {
    TopIsHeaviest(d.totals, names);
    StringLeIsTotalOrder();
  }

  /** A returned share is that of the heaviest assignee in the returned total, up to rounding, and its band is
      that of the returned value. */
  lemma {:induction false} ShareIsRight(tickets: seq<Ticket>, m: C.Mapper, names: Naming)
    requires Distribute(tickets, m, names).value.Some?
    ensures ShareStands(Distribute(tickets, m, names), names.fold)
  {
    ValueNeedsTotals(tickets, m, names);
    var d := ResultIsRated(tickets, m, names);
    RatedShare(d, Coverage(tickets), names);
  }

  // ---------------------------------------------------------------------------------------
  // The totals

  lemma {:induction false} CarriedIsSummed(tickets: seq<Ticket>, m: C.Mapper, names: Naming, key: string)
    ensures Sum(Map(Filter(Included(tickets, m), InBucket(key, names)), PointsOf)) == Carried(tickets, m, names, key)
  {
    if tickets != [] {
      var n := |tickets| - 1;
      var t := tickets[n];
      CarriedIsSummed(tickets[..n], m, names, key);
      assert tickets == tickets[..n] + [t];
      FilterConcat(tickets[..n], [t], Active(m));
      FilterConcat(Filter(tickets[..n], Active(m)), Filter([t], Active(m)), Pointed);
      FilterConcat(Included(tickets[..n], m), Filter(Filter([t], Active(m)), Pointed), InBucket(key, names));
      var mine := Filter(Included(tickets[..n], m), InBucket(key, names));
      var last := Filter(Filter(Filter([t], Active(m)), Pointed), InBucket(key, names));
      MapConcat(mine, last, PointsOf);
      SumConcat(Map(mine, PointsOf), Map(last, PointsOf));
      OnlyOne(t, m, names, key);
    }
  }

  lemma OnlyOne(t: Ticket, m: C.Mapper, names: Naming, key: string)
    ensures Sum(Map(Filter(Filter(Filter([t], Active(m)), Pointed), InBucket(key, names)), PointsOf))
            == if Carries(t, m) && names.key(t) == key then t.issue.points.value else 0.0
  {
    assert [t][1..] == [];
    if Carries(t, m) && names.key(t) == key {
      assert Map([t], PointsOf) == [t.issue.points.value];
    }
  }

  /** Every total is that of its assignee's tickets, up to rounding; it bears the first of their labels. */
  ghost predicate TotalStands(tickets: seq<Ticket>, m: C.Mapper, names: Naming, a: AssigneeTotal) {
    && -0.005 <= a.points - Carried(tickets, m, names, a.key) <= 0.005
    && (exists t :: t in tickets && Carries(t, m) && names.key(t) == a.key && names.name(t) == a.name)
    && (forall t :: t in tickets && Carries(t, m) && names.key(t) == a.key ==> StringLe(a.name, names.name(t)))
  }

  lemma {:induction false} TotalIsRight(tickets: seq<Ticket>, m: C.Mapper, names: Naming, a: AssigneeTotal)
    requires a in Totals(Included(tickets, m), names)
    ensures TotalStands(tickets, m, names, a)
  {
    var included := Included(tickets, m);
    TotalsMembers(included, names);
    CarriedIsSummed(tickets, m, names, a.key);
    OrderMembers(included, names);
    var t :| t in included && names.key(t) == a.key;
    FirstLabel(tickets, m, names, a.key, t);
  }

  /** The listed totals are those of the people with a ticket that counts, one each. */
  lemma {:induction false} TotalsAreRight(tickets: seq<Ticket>, m: C.Mapper, names: Naming)
    requires Distribute(tickets, m, names).totalPoints.Some?
    ensures forall a :: a in Distribute(tickets, m, names).totals ==> TotalStands(tickets, m, names, a)
    ensures forall t :: t in tickets && Carries(t, m) ==>
              exists a :: a in Distribute(tickets, m, names).totals && a.key == names.key(t)
    ensures forall a, b :: a in Distribute(tickets, m, names).totals && b in Distribute(tickets, m, names).totals && a.key == b.key ==>
              a == b
  {
    var d := ResultIsRated(tickets, m, names);
    var included := Included(tickets, m);
    TotalsMembers(included, names);
    OrderMembers(included, names);
    forall a | a in d.totals ensures TotalStands(tickets, m, names, a) {
      TotalIsRight(tickets, m, names, a);
    }
    forall t | t in tickets && Carries(t, m) ensures exists a :: a in d.totals && a.key == names.key(t) {
      IncludedCarry(tickets, m, t);
      assert TotalFor(Buckets(included, names))(names.key(t)) in d.totals;
    }
  }

  lemma {:induction false} FirstLabel(tickets: seq<Ticket>, m: C.Mapper, names: Naming, key: string, t: Ticket)
    requires t in Included(tickets, m) && names.key(t) == key
    ensures var name := First(Map(Filter(Included(tickets, m), InBucket(key, names)), names.name));
            && (exists u :: u in tickets && Carries(u, m) && names.key(u) == key && names.name(u) == name)
            && (forall u :: u in tickets && Carries(u, m) && names.key(u) == key ==> StringLe(name, names.name(u)))
  {
    var included := Included(tickets, m);
    var mine := Filter(included, InBucket(key, names));
    var labels := Map(mine, names.name);
    FilterMembers(included, InBucket(key, names));
    assert t in mine;
    StringLeIsTotalOrder();
    SortSorted(labels, StringLe);
    SameElements(labels, Sort(labels, StringLe));
    assert First(labels) in Sort(labels, StringLe);
    var i :| 0 <= i < |labels| && labels[i] == First(labels);
    assert mine[i] in mine;
    IncludedCarry(tickets, m, mine[i]);
    forall u | u in tickets && Carries(u, m) && names.key(u) == key ensures StringLe(First(labels), names.name(u)) {
      IncludedCarry(tickets, m, u);
      var j :| 0 <= j < |mine| && mine[j] == u;
      assert labels[j] in Sort(labels, StringLe);
    }
  }

  // ---------------------------------------------------------------------------------------
  // The lists and the status

  /** Some ticket with this key satisfies `p`. */
  ghost predicate SomeTicket(tickets: seq<Ticket>, key: string, p: Ticket -> bool) {
    exists t :: t in tickets && t.issue.key == key && p(t)
  }

  predicate Open(t: Ticket, m: C.Mapper) { t.issue.status != "" && t.issue.status !in m.done }

  predicate Estimated(t: Ticket) { t.issue.points.Some? && t.issue.points.value >= 0.0 }

  predicate NamedOnly(t: Ticket) { t.accountId == "" && t.assignee != "" }

  predicate NoStatus(t: Ticket) { t.issue.status == "" }

  function OpenIn(m: C.Mapper): Ticket -> bool { (t: Ticket) => Open(t, m) }
  function Counted(m: C.Mapper): Ticket -> bool { (t: Ticket) => Open(t, m) && Estimated(t) }
  function NotEstimated(m: C.Mapper): Ticket -> bool { (t: Ticket) => Open(t, m) && !Estimated(t) }
  function CountedByName(m: C.Mapper): Ticket -> bool { (t: Ticket) => Open(t, m) && Estimated(t) && NamedOnly(t) }

  lemma {:induction false} BareFields(tickets: seq<Ticket>, m: C.Mapper, names: Naming)
    ensures Distribute(tickets, m, names).active == SortedKeys(Filter(tickets, Active(m)))
    ensures Distribute(tickets, m, names).missingStatus == SortedKeys(Filter(tickets, HasNoStatus))
  {
    RatingKeeps(Gathered(tickets, m, names), Coverage(tickets), names);
  }

  lemma {:induction false} RatingKeeps(d: Distribution, coverage: real, names: Naming)
    ensures var r := Rate(d, coverage, names);
            && r.active == d.active && r.missingStatus == d.missingStatus && r.included == d.included
            && r.excluded == d.excluded && r.fallback == d.fallback
  {}

  lemma {:induction false} GatheredFields(tickets: seq<Ticket>, m: C.Mapper, names: Naming)
    requires Distribute(tickets, m, names).totalPoints.Some?
    ensures Distribute(tickets, m, names).included == SortedKeys(Included(tickets, m))
    ensures Distribute(tickets, m, names).excluded == SortedKeys(Filter(Filter(tickets, Active(m)), Unpointed))
    ensures Distribute(tickets, m, names).fallback == SortedKeys(Filter(Included(tickets, m), UsesFallback))
  {
    var d := ResultIsRated(tickets, m, names);
    RatingKeeps(d, Coverage(tickets), names);
  }

  lemma {:induction false} ListedKeys(tickets: seq<Ticket>, mine: seq<Ticket>, p: Ticket -> bool, key: string)
    requires forall t :: t in mine <==> t in tickets && p(t)
    ensures key in SortedKeys(mine) <==> SomeTicket(tickets, key, p)
  {
    SortedKeysMembers(mine, key);
  }

  /** Which tickets each list names: the open ones, those without a status, and among the open ones those with
      an estimate, those without, and those counted under a display name. */
  lemma {:induction false} ListsAreRight(tickets: seq<Ticket>, m: C.Mapper, names: Naming, key: string)
    ensures var r := Distribute(tickets, m, names);
            && (key in r.active <==> SomeTicket(tickets, key, OpenIn(m)))
            && (key in r.missingStatus <==> SomeTicket(tickets, key, NoStatus))
            && (r.totalPoints.Some? ==>
                  && (key in r.included <==> SomeTicket(tickets, key, Counted(m)))
                  && (key in r.excluded <==> SomeTicket(tickets, key, NotEstimated(m)))
                  && (key in r.fallback <==> SomeTicket(tickets, key, CountedByName(m))))
  {
    BareFields(tickets, m, names);
    if Distribute(tickets, m, names).totalPoints.Some? {
      GatheredFields(tickets, m, names);
    }
    BareLists(tickets, m, key);
    IncludedList(tickets, m, key);
    ExcludedList(tickets, m, key);
    FallbackList(tickets, m, key);
  }

  lemma {:induction false} BareLists(tickets: seq<Ticket>, m: C.Mapper, key: string)
    ensures key in SortedKeys(Filter(tickets, Active(m))) <==> SomeTicket(tickets, key, OpenIn(m))
    ensures key in SortedKeys(Filter(tickets, HasNoStatus)) <==> SomeTicket(tickets, key, NoStatus)
  {
    FilterMembers(tickets, Active(m));
    FilterMembers(tickets, HasNoStatus);
    ListedKeys(tickets, Filter(tickets, Active(m)), OpenIn(m), key);
    ListedKeys(tickets, Filter(tickets, HasNoStatus), NoStatus, key);
  }

  lemma {:induction false} IncludedList(tickets: seq<Ticket>, m: C.Mapper, key: string)
    ensures key in SortedKeys(Included(tickets, m)) <==> SomeTicket(tickets, key, Counted(m))
  {
    FilterMembers(tickets, Active(m));
    FilterMembers(Filter(tickets, Active(m)), Pointed);
    ListedKeys(tickets, Included(tickets, m), Counted(m), key);
  }

  lemma {:induction false} ExcludedList(tickets: seq<Ticket>, m: C.Mapper, key: string)
    ensures key in SortedKeys(Filter(Filter(tickets, Active(m)), Unpointed))
            <==> SomeTicket(tickets, key, NotEstimated(m))
  {
    FilterMembers(tickets, Active(m));
    FilterMembers(Filter(tickets, Active(m)), Unpointed);
    ListedKeys(tickets, Filter(Filter(tickets, Active(m)), Unpointed), NotEstimated(m), key);
  }

  lemma {:induction false} FallbackList(tickets: seq<Ticket>, m: C.Mapper, key: string)
    ensures key in SortedKeys(Filter(Included(tickets, m), UsesFallback))
            <==> SomeTicket(tickets, key, CountedByName(m))
  {
    FilterMembers(Included(tickets, m), UsesFallback);
    FilterMembers(tickets, Active(m));
    FilterMembers(Filter(tickets, Active(m)), Pointed);
    ListedKeys(tickets, Filter(Included(tickets, m), UsesFallback), CountedByName(m), key);
  }

  /** The places of the estimated tickets. */
  function EstimatedPlaces(tickets: seq<Ticket>): set<nat> { set k: nat | k < |tickets| && Estimated(tickets[k]) }

  lemma {:induction false} CoverageIsRight(tickets: seq<Ticket>)
    ensures tickets == [] ==> Coverage(tickets) == 0.0
    ensures tickets != [] ==>
              && (20000 * (|tickets| - |EstimatedPlaces(tickets)|) < |tickets| ==> Coverage(tickets) == 100.0)
              && (20000 * (|tickets| - |EstimatedPlaces(tickets)|) > |tickets| ==> Coverage(tickets) < 100.0)
              && (20000 * |EstimatedPlaces(tickets)| > 9999 * |tickets| ==> Coverage(tickets) >= 50.0)
              && (20000 * |EstimatedPlaces(tickets)| < 9999 * |tickets| ==> Coverage(tickets) < 50.0)
  {
    var issues := Map(tickets, IssueOf);
    assert EstimatedPlaces(tickets) == F.Pointed(issues);
    F.PointedAreCounted(issues);
    if tickets != [] {
      D.CoverageThresholds(issues);
    }
  }

  /** The status: nothing to compute, an answer withheld for lack of estimates or statuses, nothing to rate, or
      a rating that is partial without full coverage or with a ticket counted under a display name. */
  lemma {:induction false} StatusIsRight(tickets: seq<Ticket>, m: C.Mapper, names: Naming)
    ensures var r := Distribute(tickets, m, names); var open := exists t :: t in tickets && Open(t, m);
            if tickets == [] then r.status == NotComputed
            else if Coverage(tickets) < 50.0 || (exists t :: t in tickets && t.issue.status == "") then r.status == Inconclusive
            else if !open then r.status == NotApplicable
            else if r.value.None? then r.status == NotComputed && r.totalPoints.Some? && r.totalPoints.value <= 0.0
            else r.status == if Coverage(tickets) < 100.0 || (exists t :: t in tickets && Carries(t, m) && NamedOnly(t)) then Partial
                             else Computed
  {
    FilterMembers(tickets, HasNoStatus);
    FilterMembers(tickets, Active(m));
    SomeMember(Filter(tickets, HasNoStatus));
    SomeMember(Filter(tickets, Active(m)));
    if Distribute(tickets, m, names).totalPoints.Some? {
      FallbackMembers(tickets, m);
      var d := ResultIsRated(tickets, m, names);
      RatingStatus(d, Coverage(tickets), names);
    }
  }

  lemma {:induction false} RatingStatus(d: Distribution, coverage: real, names: Naming)
    requires d.value == None && d.status == NotComputed && d.totalPoints == Some(TotalPoints(d.totals))
    ensures var r := Rate(d, coverage, names);
            if r.value.None? then r.status == NotComputed && r.totalPoints.Some? && r.totalPoints.value <= 0.0
            else r.status == if coverage < 100.0 || d.fallback != [] then Partial else Computed
  {}

  lemma SomeMember<T>(xs: seq<T>)
    ensures xs != [] <==> exists x :: x in xs
  {
    if xs != [] {
      assert xs[0] in xs;
    }
  }

  lemma {:induction false} FallbackMembers(tickets: seq<Ticket>, m: C.Mapper)
    ensures SortedKeys(Filter(Included(tickets, m), UsesFallback)) != []
            <==> exists t :: t in tickets && Carries(t, m) && NamedOnly(t)
  {
    var mine := Filter(Included(tickets, m), UsesFallback);
    FilterMembers(Included(tickets, m), UsesFallback);
    forall t ensures t in mine <==> t in tickets && Carries(t, m) && NamedOnly(t) {
      IncludedCarry(tickets, m, t);
    }
    SomeMember(mine);
  }
}
