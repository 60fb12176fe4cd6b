/** Median cycle time over status histories. It depends only on the facts in the rows, not on their order
    or repetition. */
module FlowMetrics {
  import opened Sequences
  import opened Ordering
  import opened Rounding
  import C = Classification

  /** A status change; texts are stripped and case-folded, and an unusable time stamp is none. */
  datatype Change = Change(at: Option<int>, oldStatus: string, newStatus: string)

  /** A scoped ticket with its status history rows. */
  datatype Ticket = Ticket(key: string, status: string, changelogComplete: bool, history: seq<Change>)

  /** What a ticket's rows say: the history as a set. */
  datatype Facts = Facts(key: string, status: string, changelogComplete: bool, changes: set<Change>)

  function FactsOf(t: Ticket): Facts { Facts(t.key, t.status, t.changelogComplete, Elements(t.history)) }

  /** The same tickets in some order, with rearranged or repeated history rows. */
  ghost predicate SameFacts(ts: seq<Ticket>, us: seq<Ticket>) {
    multiset(Map(ts, FactsOf)) == multiset(Map(us, FactsOf))
  }

  // ---------------------------------------------------------------------------------------
  // Cycle time of one ticket

  function Times(changes: set<Change>, statuses: set<string>): (times: set<int>)
    ensures forall x :: x in times <==> exists c :: c in changes && c.newStatus in statuses && c.at == Some(x)
  {
    set c | c in changes && c.newStatus in statuses && c.at.Some? :: c.at.value
  }

  lemma EmptyIfNoMembers(times: set<int>)
    ensures (forall x :: x !in times) ==> times == {}
  {
    if forall x :: x !in times {
      assert times == {};
    }
  }

  lemma {:induction false} LeastExists(times: set<int>) returns (least: int)
    requires times != {}
    ensures least in times && forall x :: x in times ==> least <= x
  {
    EmptyIfNoMembers(times);
    var x :| x in times;
    assert forall y :: y in times ==> y == x || y in times - {x};
    if times - {x} == {} {
      least := x;
    } else {
      var rest := LeastExists(times - {x});
      least := if x < rest then x else rest;
    }
  }

  ghost function Least(times: set<int>): (least: Option<int>)
    ensures least.None? <==> times == {}
    ensures least.Some? ==> least.value in times && forall x :: x in times ==> least.value <= x
  {
    if times == {} then None
    else
      assert exists x :: x in times && forall y :: y in times ==> x <= y by {
        var x := LeastExists(times);
      }
      var x :| x in times && forall y :: y in times ==> x <= y;
      Some(x)
  }

  function After(times: set<int>, start: int): set<int> { set x | x in times && start < x }

  datatype Outcome = MissingStatus | NotDone | IncompleteHistory | InvalidTimestamp | NoInProgress | NoLaterDone
                   | Cycle(startAt: int, endAt: int)

  predicate Relevant(c: Change, m: C.Mapper) { c.newStatus in m.inProgress || c.newStatus in m.done }

  /** Exactly one outcome per ticket. A cycle runs from the earliest move to in progress to the earliest
      move to done strictly after it. */
  ghost function OutcomeOf(f: Facts, m: C.Mapper): (o: Outcome)
    ensures o.Cycle? ==>
              && o.startAt < o.endAt
              && o.startAt in Times(f.changes, m.inProgress) && o.endAt in Times(f.changes, m.done)
              && (forall x :: x in Times(f.changes, m.inProgress) ==> o.startAt <= x)
              && (forall x :: x in Times(f.changes, m.done) && o.startAt < x ==> o.endAt <= x)
  {
    var started := Least(Times(f.changes, m.inProgress));
    if f.status == "" then MissingStatus
    else if f.status !in m.done then NotDone
    else if !f.changelogComplete then IncompleteHistory
    else if exists c :: c in f.changes && c.at.None? && Relevant(c, m) then InvalidTimestamp
    else if started.None? then NoInProgress
    else
      var later := After(Times(f.changes, m.done), started.value);
      var ended := Least(later);
      assert forall x :: x in Times(f.changes, m.done) && started.value < x ==> x in later;
      if ended.None? then NoLaterDone else Cycle(started.value, ended.value)
  }

  predicate IntLe(a: int, b: int) { a <= b }

  predicate Counts(c: Change, statuses: set<string>, after: Option<int>) {
    c.newStatus in statuses && c.at.Some? && (after.None? || after.value < c.at.value)
  }

  /** The times of the moves into one of the statuses, optionally only those after a time. */
  function Selected(history: seq<Change>, statuses: set<string>, after: Option<int>): set<int> {
    set c | c in history && Counts(c, statuses, after) :: c.at.value
  }

  lemma LeastIs(times: set<int>, x: int)
    requires x in times && forall y :: y in times ==> x <= y
    ensures Least(times) == Some(x)
  {}

  lemma SortedHeadIsLeast(times: seq<int>)
    ensures Elements(Sort(times, IntLe)) == Elements(times)
    ensures times != [] ==> Least(Elements(times)) == Some(Sort(times, IntLe)[0])
  {
    var sorted := Sort(times, IntLe);
    assert Ranking(IntLe);
    SortSorted(times, IntLe);
    SameElements(times, sorted);
    if times != [] {
      assert sorted[0] in sorted;
      LeastIs(Elements(times), sorted[0]);
    }
  }

  /** The sorted candidates for the start or the end of a cycle. */
  method Candidates(history: seq<Change>, statuses: set<string>, after: Option<int>) returns (times: seq<int>)
    ensures Elements(times) == (if after.None? then Times(Elements(history), statuses)
                                else After(Times(Elements(history), statuses), after.value))
    ensures times != [] ==> Least(Elements(times)) == Some(times[0])
  {
    times := [];
    for i := 0 to |history|
      invariant Elements(times) == Selected(history[..i], statuses, after)
    {
      var c := history[i];
      if c.newStatus in statuses && c.at.Some? && (after.None? || after.value < c.at.value) {
        times := times + [c.at.value];
      }
    }
    assert history[..|history|] == history;
    SortedHeadIsLeast(times);
    times := Sort(times, IntLe);
  }

  method Classify(t: Ticket, m: C.Mapper) returns (o: Outcome)
    ensures o == OutcomeOf(FactsOf(t), m)
  {
    if t.status == "" {
      return MissingStatus;
    }
    if t.status !in m.done {
      return NotDone;
    }
    if !t.changelogComplete {
      return IncompleteHistory;
    }
    if exists c :: c in t.history && c.at.None? && Relevant(c, m) {
      return InvalidTimestamp;
    }
    var started := Candidates(t.history, m.inProgress, None);
    if started == [] {
      return NoInProgress;
    }
    assert Least(Times(FactsOf(t).changes, m.inProgress)) == Some(started[0]);
    var ended := Candidates(t.history, m.done, Some(started[0]));
    if ended == [] {
      return NoLaterDone;
    }
    return Cycle(started[0], ended[0]);
  }

  // ---------------------------------------------------------------------------------------
  // Cycle time of a scope

  datatype Row = Row(key: string, outcome: Outcome)

  ghost function RowFor(m: C.Mapper): Facts -> Row { (f: Facts) => Row(f.key, OutcomeOf(f, m)) }

  predicate RowLe(a: Row, b: Row) { StringLe(a.key, b.key) }

  predicate TicketLe(a: Ticket, b: Ticket) { StringLe(a.key, b.key) }

  function ByKey(ts: seq<Ticket>): seq<Ticket> { Sort(ts, TicketLe) }

  /** The outcomes in key order. */
  ghost function Rows(ts: seq<Ticket>, m: C.Mapper): seq<Row> { Map(Map(ByKey(ts), FactsOf), RowFor(m)) }

  /** Microseconds in a day. */
  const DAY := 86_400_000_000.0

  function Days(o: Outcome): real
    requires o.Cycle?
  {
    (o.endAt - o.startAt) as real / DAY
  }

  datatype Lists = Lists(missingStatus: seq<string>, incomplete: seq<string>, invalid: seq<string>,
                         noInProgress: seq<string>, noLaterDone: seq<string>, cycles: seq<Row>, durations: seq<real>)

  const NO_ROWS := Lists([], [], [], [], [], [], [])

  function AddRow(lists: Lists, row: Row): Lists {
    match row.outcome
    case MissingStatus => lists.(missingStatus := lists.missingStatus + [row.key])
    case NotDone => lists
    case IncompleteHistory => lists.(incomplete := lists.incomplete + [row.key])
    case InvalidTimestamp => lists.(invalid := lists.invalid + [row.key])
    case NoInProgress => lists.(noInProgress := lists.noInProgress + [row.key])
    case NoLaterDone => lists.(noLaterDone := lists.noLaterDone + [row.key])
    case Cycle(_, _) => lists.(cycles := lists.cycles + [row], durations := lists.durations + [Days(row.outcome)])
  }

  function ListsOf(rows: seq<Row>): Lists {
    if rows == [] then NO_ROWS else AddRow(ListsOf(rows[..|rows| - 1]), rows[|rows| - 1])
  }

  predicate RealLe(a: real, b: real) { a <= b }

  function Median(xs: seq<real>): real
    requires xs != []
  {
    var s, half := Sort(xs, RealLe), |xs| / 2;
    if |xs| % 2 == 1 then s[half] else (s[half - 1] + s[half]) / 2.0
  }

  datatype Status = Computed | Partial | NotComputed

  datatype CycleTime = CycleTime(status: Status, value: Option<real>, lists: Lists)

  function Summarize(lists: Lists): CycleTime {
    if lists.missingStatus != [] || lists.incomplete != [] then CycleTime(Partial, None, lists)
    else if lists.durations != [] then CycleTime(Computed, Some(Round4(Median(lists.durations))), lists)
    else CycleTime(NotComputed, None, lists)
  }

  /** `_evaluate_cycle_time`. */
  method EvaluateCycleTime(tickets: seq<Ticket>, m: C.Mapper) returns (r: CycleTime)
    ensures r == Summarize(ListsOf(Rows(tickets, m)))
  {
    var sorted := ByKey(tickets);
    ghost var rows := Rows(tickets, m);
    var lists := NO_ROWS;
    for i := 0 to |sorted|
      invariant lists == ListsOf(rows[..i])
    {
      var t := sorted[i];
      assert rows[..i + 1][..i] == rows[..i];
      var o := Classify(t, m);
      lists := AddRow(lists, Row(t.key, o));
    }
    assert rows[..|sorted|] == rows;
    r := Summarize(lists);
  }

  /** Every scoped ticket is counted in exactly one outcome class. */
  lemma {:induction false} OutcomesPartition(rows: seq<Row>)
    ensures var l := ListsOf(rows);
            && |l.missingStatus| + |l.incomplete| + |l.invalid| + |l.noInProgress| + |l.noLaterDone| + |l.cycles| + NotDoneCount(rows) == |rows|
            && |l.durations| == |l.cycles|
            && forall i :: 0 <= i < |l.cycles| ==>
                 l.cycles[i] in rows && l.cycles[i].outcome.Cycle? && l.durations[i] == Days(l.cycles[i].outcome)
  {
    if rows != [] {
      var n := |rows| - 1;
      OutcomesPartition(rows[..n]);
      assert rows == rows[..n] + [rows[n]];
    }
  }

  function NotDoneCount(rows: seq<Row>): nat {
    if rows == [] then 0
    else NotDoneCount(rows[..|rows| - 1]) + (if rows[|rows| - 1].outcome.NotDone? then 1 else 0)
  }

  function AtMost(x: real): real -> bool { (d: real) => d <= x }
  function AtLeast(x: real): real -> bool { (d: real) => d >= x }

  lemma {:induction false} FilterCounts(xs: seq<real>, keep: real -> bool, from: nat, to: nat)
    requires from <= to <= |xs|
    requires forall i :: from <= i < to ==> keep(xs[i])
    ensures |Filter(xs, keep)| >= to - from
  {
    if from < to {
      if from > 0 {
        FilterCounts(xs[1..], keep, from - 1, to - 1);
      } else {
        FilterCounts(xs[1..], keep, 0, to - 1);
      }
    }
  }

  /** At least half of the durations lie on each side of the median. */
  lemma MedianSplits(xs: seq<real>)
    requires xs != []
    ensures 2 * |Filter(xs, AtMost(Median(xs)))| >= |xs|
    ensures 2 * |Filter(xs, AtLeast(Median(xs)))| >= |xs|
  {
    var s, half, mid := Sort(xs, RealLe), |xs| / 2, Median(xs);
    assert Ranking(RealLe);
    SortSorted(xs, RealLe);
    forall i, j | 0 <= i <= j < |s| ensures s[i] <= s[j] {
      assert i == j || RealLe(s[i], s[j]);
    }
    FilterCounts(s, AtMost(mid), 0, if |xs| % 2 == 1 then half + 1 else half);
    FilterCounts(s, AtLeast(mid), half, |xs|);
    FilterPermutation(xs, s, AtMost(mid));
    FilterPermutation(xs, s, AtLeast(mid));
    SameElements(Filter(xs, AtMost(mid)), Filter(s, AtMost(mid)));
    SameElements(Filter(xs, AtLeast(mid)), Filter(s, AtLeast(mid)));
  }

  /** A returned median is within rounding of a median of positive durations. */
  lemma ReturnedMedian(tickets: seq<Ticket>, m: C.Mapper)
    ensures var r := Summarize(ListsOf(Rows(tickets, m)));
            r.value.Some? ==>
              && r.lists.durations != [] && -0.00005 <= r.value.value - Median(r.lists.durations) <= 0.00005
              && (forall i :: 0 <= i < |r.lists.durations| ==> r.lists.durations[i] > 0.0)
  {
    OutcomesPartition(Rows(tickets, m));
    var l := ListsOf(Rows(tickets, m));
    forall i | 0 <= i < |l.durations| ensures l.durations[i] > 0.0 {
      assert l.cycles[i] in Rows(tickets, m);
    }
  }

  ghost predicate DistinctKeys(ts: seq<Ticket>) {
    forall t, u :: t in ts && u in ts && t.key == u.key ==> t == u
  }

  lemma KeyOrdersRank()
    ensures Ranking(TicketLe) && Ranking(RowLe)
  {
    forall a: string, b: string ensures StringLe(a, b) || StringLe(b, a) {
      StringLeTotal(a, b);
    }
    forall a: string, b: string, c: string | StringLe(a, b) && StringLe(b, c) ensures StringLe(a, c) {
      StringLeTransitive(a, b, c);
    }
  }

  lemma RowsAreSorted(ts: seq<Ticket>, m: C.Mapper)
    ensures Sorted(Rows(ts, m), RowLe)
    ensures multiset(Rows(ts, m)) == multiset(Map(Map(ts, FactsOf), RowFor(m)))
    ensures DistinctKeys(ts) ==> NoTies(Rows(ts, m), RowLe)
  {
    KeyOrdersRank();
    SortSorted(ts, TicketLe);
    SameElements(ts, ByKey(ts));
    MapPermutation(ts, ByKey(ts), FactsOf);
    MapPermutation(Map(ts, FactsOf), Map(ByKey(ts), FactsOf), RowFor(m));
    var rows := Rows(ts, m);
    forall i, j | 0 <= i < j < |rows| ensures RowLe(rows[i], rows[j]) {
      assert TicketLe(ByKey(ts)[i], ByKey(ts)[j]);
    }
    if DistinctKeys(ts) {
      forall a, b | a in rows && b in rows && RowLe(a, b) && RowLe(b, a) ensures a == b {
        var i :| 0 <= i < |rows| && rows[i] == a;
        var j :| 0 <= j < |rows| && rows[j] == b;
        StringLeTotal(a.key, b.key);
        assert ByKey(ts)[i] in ts && ByKey(ts)[j] in ts;
      }
    }
  }

  /** The whole result depends only on the facts: tickets may be listed in any order and history rows
      may be rearranged or repeated. */
  lemma CycleTimeDependsOnFacts(ts: seq<Ticket>, us: seq<Ticket>, m: C.Mapper)
    requires DistinctKeys(ts) && SameFacts(ts, us)
    ensures Summarize(ListsOf(Rows(ts, m))) == Summarize(ListsOf(Rows(us, m)))
  {
    RowsAreSorted(ts, m);
    RowsAreSorted(us, m);
    MapPermutation(Map(ts, FactsOf), Map(us, FactsOf), RowFor(m));
    KeyOrdersRank();
    SortedUnique(Rows(ts, m), Rows(us, m), RowLe);
  }

  /** `us` is `ts` with any other histories for the tickets that have a status other than done. */
  ghost predicate SameDoneTickets(ts: seq<Ticket>, us: seq<Ticket>, m: C.Mapper) {
    && |us| == |ts|
    && forall i :: 0 <= i < |ts| ==>
         us[i] == ts[i] || (us[i].key == ts[i].key && us[i].status == ts[i].status && ts[i].status !in m.done && ts[i].status != "")
  }

  /** Tickets that are not done contribute nothing, whatever their histories say or lack. */
  lemma OnlyDoneTicketsMatter(ts: seq<Ticket>, us: seq<Ticket>, m: C.Mapper)
    requires DistinctKeys(ts) && SameDoneTickets(ts, us, m)
    ensures Summarize(ListsOf(Rows(ts, m))) == Summarize(ListsOf(Rows(us, m)))
  {
    var a, b := Map(Map(ts, FactsOf), RowFor(m)), Map(Map(us, FactsOf), RowFor(m));
    forall i | 0 <= i < |ts| ensures a[i] == b[i] {
      assert us[i] == ts[i] || OutcomeOf(FactsOf(ts[i]), m) == NotDone == OutcomeOf(FactsOf(us[i]), m);
    }
    assert a == b;
    RowsAreSorted(ts, m);
    RowsAreSorted(us, m);
    KeyOrdersRank();
    SortedUnique(Rows(ts, m), Rows(us, m), RowLe);
  }

  // ---------------------------------------------------------------------------------------
  // The result in terms of the rows

  /** When a ticket has which outcome: which field is missing, or which move. */
  lemma OutcomeIff(f: Facts, m: C.Mapper)
    requires m.NoBlanks()
    ensures OutcomeOf(f, m) == MissingStatus <==> f.status == ""
    ensures OutcomeOf(f, m) == NotDone <==> f.status != "" && f.status !in m.done
    ensures OutcomeOf(f, m) == IncompleteHistory <==> f.status in m.done && !f.changelogComplete
    ensures OutcomeOf(f, m) == InvalidTimestamp <==> f.status in m.done && f.changelogComplete && Untimed(f, m)
  {}

  /** With the times in place: no move into progress at all, or no move into done after the first of them. */
  lemma NoCycleIff(f: Facts, m: C.Mapper)
    requires m.NoBlanks() && f.status in m.done && f.changelogComplete && !Untimed(f, m)
    ensures OutcomeOf(f, m) == NoInProgress <==> forall c :: c in f.changes ==> c.newStatus !in m.inProgress
    ensures OutcomeOf(f, m) == NoLaterDone <==>
              && (exists c :: c in f.changes && c.newStatus in m.inProgress)
              && forall c, d :: c in f.changes && d in f.changes && c.newStatus in m.inProgress && d.newStatus in m.done ==>
                   d.at.value <= c.at.value
  {
    var started, ended := Times(f.changes, m.inProgress), Times(f.changes, m.done);
    assert forall c :: c in f.changes && c.newStatus in m.inProgress ==> c.at == Some(c.at.value) && c.at.value in started;
    assert forall c :: c in f.changes && c.newStatus in m.done ==> c.at == Some(c.at.value) && c.at.value in ended;
    EmptyIfNoMembers(started);
    match OutcomeOf(f, m) {
      case NoLaterDone =>
        var first := Least(started).value;
        forall c, d | c in f.changes && d in f.changes && c.newStatus in m.inProgress && d.newStatus in m.done
          ensures d.at.value <= c.at.value
        {
          assert d.at.value !in After(ended, first) && d.at.value in ended && first <= c.at.value;
        }
        assert exists c :: c in f.changes && c.newStatus in m.inProgress && c.at == Some(first);
      case Cycle(start, end) =>
        var c :| c in f.changes && c.newStatus in m.inProgress && c.at == Some(start);
        var d :| d in f.changes && d.newStatus in m.done && d.at == Some(end);
        assert c.at.value < d.at.value;
      case _ =>
    }
  }

  /** A move into progress or into done has no usable time. */
  predicate Untimed(f: Facts, m: C.Mapper) {
    exists c :: c in f.changes && c.at == None && (c.newStatus in m.inProgress || c.newStatus in m.done)
  }

  predicate IsCycle(row: Row) { row.outcome.Cycle? }

  /** Each list names the tickets with its outcome. */
  lemma {:induction false} ListsNameOutcomes(rows: seq<Row>, key: string)
    ensures var l := ListsOf(rows);
            && (key in l.missingStatus <==> Row(key, MissingStatus) in rows)
            && (key in l.incomplete <==> Row(key, IncompleteHistory) in rows)
            && (key in l.invalid <==> Row(key, InvalidTimestamp) in rows)
            && (key in l.noInProgress <==> Row(key, NoInProgress) in rows)
            && (key in l.noLaterDone <==> Row(key, NoLaterDone) in rows)
            && l.cycles == Filter(rows, IsCycle)
  {
    if rows != [] {
      var n := |rows| - 1;
      ListsNameOutcomes(rows[..n], key);
      assert rows == rows[..n] + [rows[n]];
      FilterConcat(rows[..n], [rows[n]], IsCycle);
    }
  }

  /** A duration counts days: cycle i took that many times 24 hours of 60 minutes of 60 seconds. */
  lemma DurationsAreDays(rows: seq<Row>, i: nat)
    requires i < |ListsOf(rows).cycles|
    ensures |ListsOf(rows).durations| == |ListsOf(rows).cycles| && ListsOf(rows).cycles[i].outcome.Cycle?
    ensures var cycle := ListsOf(rows).cycles[i].outcome;
            ListsOf(rows).durations[i] * (24 * 60 * 60 * 1_000_000) as real == (cycle.endAt - cycle.startAt) as real
  {
    OutcomesPartition(rows);
    var taken := (ListsOf(rows).cycles[i].outcome.endAt - ListsOf(rows).cycles[i].outcome.startAt) as real;
    assert (24 * 60 * 60 * 1_000_000) as real == DAY && taken / DAY * DAY == taken;
  }

  /** The median of any ordered arrangement: the middle value, or the mean of the two in the middle. */
  lemma MedianIsMiddle(xs: seq<real>, s: seq<real>)
    requires xs != [] && multiset(s) == multiset(xs) && forall i, j :: 0 <= i < j < |s| ==> s[i] <= s[j]
    ensures |s| == |xs|
    ensures |xs| % 2 == 1 ==> Median(xs) == s[|xs| / 2]
    ensures |xs| % 2 == 0 ==> Median(xs) == (s[|xs| / 2 - 1] + s[|xs| / 2]) / 2.0
  {
    assert Ranking(RealLe);
    SortSorted(xs, RealLe);
    SameElements(xs, s);
    assert forall i, j :: 0 <= i < j < |s| ==> RealLe(s[i], s[j]);
    SortedUnique(s, Sort(xs, RealLe), RealLe);
  }

  lemma RowsAreOfTickets(tickets: seq<Ticket>, m: C.Mapper, row: Row)
    ensures row in Rows(tickets, m) <==> exists t :: t in tickets && row == Row(t.key, OutcomeOf(FactsOf(t), m))
  {
    var sorted, rows := ByKey(tickets), Rows(tickets, m);
    SameElements(tickets, sorted);
    if row in rows {
      var i :| 0 <= i < |rows| && rows[i] == row;
      assert sorted[i] in tickets && row == Row(sorted[i].key, OutcomeOf(FactsOf(sorted[i]), m));
    }
    forall t | t in tickets && row == Row(t.key, OutcomeOf(FactsOf(t), m)) ensures row in rows {
      var i :| 0 <= i < |sorted| && sorted[i] == t;
      assert rows[i] == row;
    }
  }

  /** Some ticket's outcome makes the answer incomplete. */
  lemma ListedOutcome(tickets: seq<Ticket>, m: C.Mapper, o: Outcome, list: seq<string>)
    requires forall key :: key in list <==> Row(key, o) in Rows(tickets, m)
    ensures list != [] <==> exists t :: t in tickets && OutcomeOf(FactsOf(t), m) == o
  {
    if list != [] {
      assert list[0] in list;
      RowsAreOfTickets(tickets, m, Row(list[0], o));
    }
    forall t | t in tickets && OutcomeOf(FactsOf(t), m) == o ensures t.key in list {
      RowsAreOfTickets(tickets, m, Row(t.key, o));
    }
  }

  lemma CycleListed(tickets: seq<Ticket>, m: C.Mapper, t: Ticket)
    requires t in tickets && OutcomeOf(FactsOf(t), m).Cycle?
    ensures ListsOf(Rows(tickets, m)).durations != []
  {
    var rows := Rows(tickets, m);
    RowsAreOfTickets(tickets, m, Row(t.key, OutcomeOf(FactsOf(t), m)));
    ListsNameOutcomes(rows, "");
    FilterMembers(rows, IsCycle);
    OutcomesPartition(rows);
    assert Row(t.key, OutcomeOf(FactsOf(t), m)) in ListsOf(rows).cycles;
  }

  /** The median is withheld while a ticket has no status or a done one an incomplete history; otherwise it is
      given when some ticket has a cycle. */
  lemma MedianWithheldIff(tickets: seq<Ticket>, m: C.Mapper)
    requires m.NoBlanks()
    ensures var r := Summarize(ListsOf(Rows(tickets, m)));
            && (r.status == Partial <==> exists t :: t in tickets && (t.status == "" || (t.status in m.done && !t.changelogComplete)))
            && (r.status == Computed <==> r.value.Some?)
            && (r.status == NotComputed ==> forall t :: t in tickets ==> !OutcomeOf(FactsOf(t), m).Cycle?)
  {
    var l := ListsOf(Rows(tickets, m));
    forall key
      ensures key in l.missingStatus <==> Row(key, MissingStatus) in Rows(tickets, m)
      ensures key in l.incomplete <==> Row(key, IncompleteHistory) in Rows(tickets, m)
    {
      ListsNameOutcomes(Rows(tickets, m), key);
    }
    ListedOutcome(tickets, m, MissingStatus, l.missingStatus);
    ListedOutcome(tickets, m, IncompleteHistory, l.incomplete);
    forall t | t in tickets
      ensures OutcomeOf(FactsOf(t), m) == MissingStatus <==> t.status == ""
      ensures OutcomeOf(FactsOf(t), m) == IncompleteHistory <==> t.status in m.done && !t.changelogComplete
      ensures OutcomeOf(FactsOf(t), m).Cycle? ==> l.durations != []
    {
      OutcomeIff(FactsOf(t), m);
      if OutcomeOf(FactsOf(t), m).Cycle? {
        CycleListed(tickets, m, t);
      }
    }
  }
}
