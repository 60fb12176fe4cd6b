/** Release scope churn over seven days: how often tickets entered or left the release, per hundred
    tickets seen in it. Repeated history rows are counted once. */
module ReleaseChurn {
  import opened Sequences
  import opened Ordering
  import opened Rounding
  import opened SprintScope
  import HistoryTable

  /** The release under evaluation: its normalised name, the normalisation of history values, the
      fix-version fields of the changelog, the project's tickets and the window. */
  datatype Query = Query(release: string, norm: string -> string, fields: string -> bool, keys: set<string>, from: int, to: int)
  {
    function Norm(v: Option<string>): string { if v.None? then "" else norm(v.value) }

    /** `_history_value_references_release`. */
    predicate Refers(value: string) { release != "" && value == release }

    predicate InWindow(r: Row) { r.key in keys && from <= r.at <= to }

    function Windowed(): Row -> bool { (r: Row) => InWindow(r) }

    function MoveOf(r: Row): Move { Move(r.key, r.at, Norm(r.oldValue), Norm(r.newValue)) }

    predicate Adds(m: Move) { !Refers(m.before) && Refers(m.after) }

    predicate Removes(m: Move) { Refers(m.before) && !Refers(m.after) }

    function Additions(): Row -> bool { (r: Row) => fields(r.field) && Adds(MoveOf(r)) }

    function Removals(): Row -> bool { (r: Row) => fields(r.field) && Removes(MoveOf(r)) }
  }

  /** The identity of a transition. */
  datatype Move = Move(key: string, at: int, before: string, after: string)

  /** The transitions of the kept rows. */
  function Moves(rows: seq<Row>, q: Query, keep: Row -> bool): set<Move> {
    set r | r in rows && keep(r) :: q.MoveOf(r)
  }

  function InScan(q: Query, keep: Row -> bool): Row -> bool { (r: Row) => q.InWindow(r) && keep(r) }

  /** Query order: key, time, id. */
  predicate ScanLe(a: Row, b: Row) {
    if a.key != b.key then StringLe(a.key, b.key) else a.at < b.at || (a.at == b.at && a.id <= b.id)
  }

  /** Report order: time, id, key. */
  predicate EventLe(a: Row, b: Row) {
    if a.at != b.at then a.at < b.at else a.id < b.id || (a.id == b.id && StringLe(a.key, b.key))
  }

  function Scan(rows: seq<Row>, q: Query): seq<Row> { Sort(Filter(rows, q.Windowed()), ScanLe) }

  /** The first kept row of each transition, as `setdefault` keeps it. */
  function Firsts(entries: seq<Row>, q: Query, keep: Row -> bool): seq<Row> {
    if entries == [] then []
    else
      var n := |entries| - 1;
      var before := Firsts(entries[..n], q, keep);
      if keep(entries[n]) && q.MoveOf(entries[n]) !in Moves(entries[..n], q, keep) then before + [entries[n]] else before
  }

  datatype Churn = Churn(status: Status, pct: Option<real>, additions: seq<Row>, removals: seq<Row>,
                         churned: set<string>, observed: set<string>, incomplete: set<string>)

  function KeysOf(rows: seq<Row>): (keys: set<string>)
    ensures forall k :: k in keys <==> exists r :: r in rows && r.key == k
  {
    set r | r in rows :: r.key
  }

  function ChurnOf(additions: seq<Row>, removals: seq<Row>, scope: set<string>, incomplete: set<string>): Churn {
    var churned := KeysOf(additions) + KeysOf(removals);
    var observed := scope + churned;
    if incomplete != {} then Churn(Partial, None, additions, removals, churned, observed, incomplete)
    else if |observed| == 0 then Churn(NotComputed, None, additions, removals, churned, observed, incomplete)
    else Churn(Computed, Some(Rate(|additions| + |removals|, |observed|)), additions, removals, churned, observed, incomplete)
  }

  function Rate(changes: nat, observed: nat): real
    requires 0 < observed
  {
    Round2(100.0 * changes as real / observed as real)
  }

  function Events(rows: seq<Row>, q: Query, keep: Row -> bool): seq<Row> {
    Sort(Firsts(Scan(rows, q), q, keep), EventLe)
  }

  function Evaluate(rows: seq<Row>, q: Query, scope: set<string>, incomplete: set<string>): Churn {
    ChurnOf(Events(rows, q, q.Additions()), Events(rows, q, q.Removals()), scope, incomplete)
  }

  ghost predicate FirstsIn(ledger: Ledger, entries: seq<Row>, q: Query, keep: Row -> bool) {
    ledger.order == Firsts(entries, q, keep) && ledger.byIdentity.Keys == Moves(entries, q, keep)
  }

  lemma MovesSnoc(entries: seq<Row>, q: Query, keep: Row -> bool)
    requires entries != []
    ensures var n := |entries| - 1;
            Moves(entries, q, keep) == Moves(entries[..n], q, keep) + (if keep(entries[n]) then {q.MoveOf(entries[n])} else {})
  {
    var n := |entries| - 1;
    assert entries == entries[..n] + [entries[n]];
  }

  lemma FirstsStep(ledger: Ledger, entries: seq<Row>, i: nat, q: Query, keep: Row -> bool)
    requires i < |entries| && FirstsIn(ledger, entries[..i], q, keep)
    ensures var r := entries[i];
            FirstsIn(if keep(r) then ledger.SetDefault(q.MoveOf(r), r) else ledger, entries[..i + 1], q, keep)
  {
    assert entries[..i + 1][..i] == entries[..i];
    MovesSnoc(entries[..i + 1], q, keep);
  }

  /** The two dictionaries of events by identity, each with its values in the order they were stored. */
  datatype Ledger = Ledger(byIdentity: map<Move, Row>, order: seq<Row>)
  {
    function SetDefault(move: Move, entry: Row): Ledger {
      if move in byIdentity then this else Ledger(byIdentity[move := entry], order + [entry])
    }
  }

  method Record(additions: Ledger, removals: Ledger, entry: Row, q: Query) returns (additions': Ledger, removals': Ledger)
    ensures additions' == if q.Additions()(entry) then additions.SetDefault(q.MoveOf(entry), entry) else additions
    ensures removals' == if q.Removals()(entry) then removals.SetDefault(q.MoveOf(entry), entry) else removals
  {
    additions', removals' := additions, removals;
    if !q.fields(entry.field) {
      return;
    }
    var move := q.MoveOf(entry);
    if q.Refers(move.before) == q.Refers(move.after) {
      return;
    }
    if !q.Refers(move.before) && q.Refers(move.after) {
      additions' := additions.SetDefault(move, entry);
    } else {
      removals' := removals.SetDefault(move, entry);
    }
  }

  /** `_compute_release_scope_churn_7d`. */
  method ComputeChurn(rows: seq<Row>, q: Query, scope: set<string>, incomplete: set<string>) returns (result: Churn)
    ensures result == Evaluate(rows, q, scope, incomplete)
  {
    var entries := Scan(rows, q);
    var additions, removals := Ledger(map[], []), Ledger(map[], []);
    for i := 0 to |entries|
      invariant FirstsIn(additions, entries[..i], q, q.Additions())
      invariant FirstsIn(removals, entries[..i], q, q.Removals())
    {
      FirstsStep(additions, entries, i, q, q.Additions());
      FirstsStep(removals, entries, i, q, q.Removals());
      additions, removals := Record(additions, removals, entries[i], q);
    }
    assert entries[..|entries|] == entries;
    result := ChurnOf(Sort(additions.order, EventLe), Sort(removals.order, EventLe), scope, incomplete);
  }

  // ---------------------------------------------------------------------------------------
  // Counts depend only on the set of transitions

  lemma {:induction false} FirstsAreOnePerMove(entries: seq<Row>, q: Query, keep: Row -> bool)
    ensures |Firsts(entries, q, keep)| == |Moves(entries, q, keep)|
  {
    if entries != [] {
      var n := |entries| - 1;
      FirstsAreOnePerMove(entries[..n], q, keep);
      MovesSnoc(entries, q, keep);
      var before := Moves(entries[..n], q, keep);
      if keep(entries[n]) && q.MoveOf(entries[n]) in before {
        assert Moves(entries, q, keep) == before;
      }
    }
  }

  /** The firsts are the kept rows that no earlier kept row repeats. */
  lemma {:induction false} FirstsMembers(entries: seq<Row>, q: Query, keep: Row -> bool)
    ensures NoRepeats(Firsts(entries, q, keep))
    ensures forall r :: r in Firsts(entries, q, keep) ==> r in entries && keep(r)
    ensures forall i :: 0 <= i < |entries| && keep(entries[i]) && IsFirst(entries, i, q, keep) ==> entries[i] in Firsts(entries, q, keep)
    ensures forall r :: r in Firsts(entries, q, keep) ==>
              exists i :: 0 <= i < |entries| && entries[i] == r && IsFirst(entries, i, q, keep)
  {
    if entries != [] {
      var n := |entries| - 1;
      var front := entries[..n];
      FirstsMembers(front, q, keep);
      forall i | 0 <= i < n ensures IsFirst(front, i, q, keep) <==> IsFirst(entries, i, q, keep) {
        assert entries[..i] == front[..i];
      }
      forall r | r in Firsts(front, q, keep)
        ensures r in entries && keep(r) && exists i :: 0 <= i < |entries| && entries[i] == r && IsFirst(entries, i, q, keep)
      {
        var i :| 0 <= i < n && front[i] == r && IsFirst(front, i, q, keep);
        assert entries[i] == r && IsFirst(entries, i, q, keep);
      }
    }
  }

  ghost predicate IsFirst(entries: seq<Row>, i: nat, q: Query, keep: Row -> bool)
    requires i < |entries|
  {
    q.MoveOf(entries[i]) !in Moves(entries[..i], q, keep)
  }

  lemma ScanMembers(rows: seq<Row>, q: Query, keep: Row -> bool)
    ensures forall r :: r in Scan(rows, q) <==> r in rows && q.InWindow(r)
    ensures Moves(Scan(rows, q), q, keep) == Moves(rows, q, InScan(q, keep))
  {
    FilterMembers(rows, q.Windowed());
    SameElements(Filter(rows, q.Windowed()), Scan(rows, q));
    assert forall r :: r in Scan(rows, q) <==> r in rows && q.InWindow(r);
  }

  function MoveKeys(moves: set<Move>): set<string> { set m | m in moves :: m.key }

  lemma {:induction false} FirstsCover(entries: seq<Row>, q: Query, keep: Row -> bool)
    ensures KeysOf(Firsts(entries, q, keep)) == MoveKeys(Moves(entries, q, keep))
  {
    if entries != [] {
      var n := |entries| - 1;
      FirstsCover(entries[..n], q, keep);
      MovesSnoc(entries, q, keep);
      var r, front, before := entries[n], Firsts(entries[..n], q, keep), Moves(entries[..n], q, keep);
      assert KeysOf(front + [r]) == KeysOf(front) + {r.key};
      assert MoveKeys(before + {q.MoveOf(r)}) == MoveKeys(before) + {r.key};
      if q.MoveOf(r) in before {
        assert before + {q.MoveOf(r)} == before;
      }
      assert before + {} == before;
    }
  }

  lemma EventFacts(rows: seq<Row>, q: Query, keep: Row -> bool)
    ensures |Events(rows, q, keep)| == |Moves(rows, q, InScan(q, keep))|
    ensures KeysOf(Events(rows, q, keep)) == MoveKeys(Moves(rows, q, InScan(q, keep)))
  {
    var firsts := Firsts(Scan(rows, q), q, keep);
    ScanMembers(rows, q, keep);
    FirstsAreOnePerMove(Scan(rows, q), q, keep);
    FirstsCover(Scan(rows, q), q, keep);
    SameElements(firsts, Events(rows, q, keep));
    assert KeysOf(firsts) == KeysOf(Events(rows, q, keep));
  }

  /** The same transitions of each kind within the window. */
  ghost predicate SameMoves(a: seq<Row>, b: seq<Row>, q: Query) {
    && Moves(a, q, InScan(q, q.Additions())) == Moves(b, q, InScan(q, q.Additions()))
    && Moves(a, q, InScan(q, q.Removals())) == Moves(b, q, InScan(q, q.Removals()))
  }

  /** Equal in everything but the history rows shown as evidence. */
  predicate SameNumbers(x: Churn, y: Churn) {
    && x.status == y.status && x.pct == y.pct && x.churned == y.churned && x.observed == y.observed
    && |x.additions| == |y.additions| && |x.removals| == |y.removals| && x.incomplete == y.incomplete
  }

  lemma SameCountsSameNumbers(adds: seq<Row>, removes: seq<Row>, adds': seq<Row>, removes': seq<Row>,
                              scope: set<string>, incomplete: set<string>)
    requires |adds| == |adds'| && |removes| == |removes'|
    requires KeysOf(adds) == KeysOf(adds') && KeysOf(removes) == KeysOf(removes')
    ensures SameNumbers(ChurnOf(adds, removes, scope, incomplete), ChurnOf(adds', removes', scope, incomplete))
  {}

  /** Two tables with the same normalised transitions give the same counts, tickets and percentage. */
  lemma CountsDependOnMoves(a: seq<Row>, b: seq<Row>, q: Query, scope: set<string>, incomplete: set<string>)
    requires SameMoves(a, b, q)
    ensures SameNumbers(Evaluate(a, q, scope, incomplete), Evaluate(b, q, scope, incomplete))
  {
    EventFacts(a, q, q.Additions());
    EventFacts(a, q, q.Removals());
    EventFacts(b, q, q.Additions());
    EventFacts(b, q, q.Removals());
    SameCountsSameNumbers(Events(a, q, q.Additions()), Events(a, q, q.Removals()),
                          Events(b, q, q.Additions()), Events(b, q, q.Removals()), scope, incomplete);
  }

  // ---------------------------------------------------------------------------------------
  // Repetitions that insertion lets through

  ghost predicate IgnoresId(keep: Row -> bool) {
    forall r, s :: HistoryTable.EntryOf(r) == HistoryTable.EntryOf(s) ==> keep(r) == keep(s)
  }

  lemma ScansIgnoreIds(q: Query)
    ensures IgnoresId(InScan(q, q.Additions())) && IgnoresId(InScan(q, q.Removals()))
  {
    var adds, removes := InScan(q, q.Additions()), InScan(q, q.Removals());
    forall r, s | HistoryTable.EntryOf(r) == HistoryTable.EntryOf(s) ensures adds(r) == adds(s) && removes(r) == removes(s) {
      assert q.MoveOf(r) == q.MoveOf(s) && q.InWindow(r) == q.InWindow(s);
    }
  }

  lemma MovesOfStored(a: seq<Row>, b: seq<Row>, q: Query, keep: Row -> bool)
    requires HistoryTable.Stored(a) <= HistoryTable.Stored(b) && IgnoresId(keep)
    ensures Moves(a, q, keep) <= Moves(b, q, keep)
  {
    forall m | m in Moves(a, q, keep) ensures m in Moves(b, q, keep) {
      var r :| r in a && keep(r) && q.MoveOf(r) == m;
      assert HistoryTable.EntryOf(r) in HistoryTable.Stored(a);
      var s :| s in b && HistoryTable.EntryOf(s) == HistoryTable.EntryOf(r);
      assert keep(s) && q.MoveOf(s) == m;
    }
  }

  /** Batches that name the same entries lead to the same churn, however often an entry is repeated
      inside a batch and in whatever order. */
  lemma InBatchRepeatsCountOnce(rows: seq<Row>, batch: seq<HistoryTable.Entry>, other: seq<HistoryTable.Entry>, nextId: int,
                                q: Query, scope: set<string>, incomplete: set<string>)
    requires Elements(batch) == Elements(other)
    ensures SameNumbers(Evaluate(HistoryTable.Extended(rows, batch, nextId), q, scope, incomplete),
                        Evaluate(HistoryTable.Extended(rows, other, nextId), q, scope, incomplete))
  {
    var a, b := HistoryTable.Extended(rows, batch, nextId), HistoryTable.Extended(rows, other, nextId);
    HistoryTable.BatchIsStored(rows, batch, nextId);
    HistoryTable.BatchIsStored(rows, other, nextId);
    ScansIgnoreIds(q);
    MovesOfStored(a, b, q, InScan(q, q.Additions()));
    MovesOfStored(b, a, q, InScan(q, q.Additions()));
    MovesOfStored(a, b, q, InScan(q, q.Removals()));
    MovesOfStored(b, a, q, InScan(q, q.Removals()));
    CountsDependOnMoves(a, b, q, scope, incomplete);
  }

  /** The reported event of a transition is the row with the least id. */
  ghost predicate IsLeast(r: Row, rows: seq<Row>, q: Query, keep: Row -> bool) {
    r in rows && InScan(q, keep)(r)
    && forall s :: s in rows && InScan(q, keep)(s) && q.MoveOf(s) == q.MoveOf(r) ==> r.id <= s.id
  }

  ghost predicate DistinctIds(rows: seq<Row>) {
    forall r, s :: r in rows && s in rows && r.id == s.id ==> r == s
  }

  lemma ScanOrder(rows: seq<Row>, q: Query)
    ensures Sorted(Scan(rows, q), ScanLe)
    ensures Ranking(EventLe)
  {
    forall a: string, b: string ensures StringLe(a, b) || StringLe(b, a) {
      StringLeTotal(a, b);
    }
    forall a: string, b: string | StringLe(a, b) && StringLe(b, a) ensures a == b {
      StringLeTotal(a, b);
    }
    forall a: string, b: string, c: string | StringLe(a, b) && StringLe(b, c) ensures StringLe(a, c) {
      StringLeTransitive(a, b, c);
    }
    assert Ranking(ScanLe);
    SortSorted(Filter(rows, q.Windowed()), ScanLe);
  }

  lemma FirstsAreLeast(rows: seq<Row>, q: Query, keep: Row -> bool)
    requires DistinctIds(rows)
    ensures forall r :: r in Firsts(Scan(rows, q), q, keep) <==> IsLeast(r, rows, q, keep)
  {
    var entries := Scan(rows, q);
    ScanMembers(rows, q, keep);
    ScanOrder(rows, q);
    FirstsMembers(entries, q, keep);
    forall r | IsLeast(r, rows, q, keep) ensures r in Firsts(entries, q, keep) {
      LeastComesFirst(rows, q, keep, r);
    }
    forall r | r in Firsts(entries, q, keep) ensures IsLeast(r, rows, q, keep) {
      var i :| 0 <= i < |entries| && entries[i] == r && IsFirst(entries, i, q, keep);
      FirstIsLeast(rows, q, keep, i);
    }
  }

  lemma FirstIsLeast(rows: seq<Row>, q: Query, keep: Row -> bool, i: nat)
    requires var entries := Scan(rows, q);
             && i < |entries| && keep(entries[i]) && IsFirst(entries, i, q, keep)
    ensures IsLeast(Scan(rows, q)[i], rows, q, keep)
  {
    var entries := Scan(rows, q);
    var r := entries[i];
    ScanMembers(rows, q, keep);
    ScanOrder(rows, q);
    forall j | 0 <= j < i && keep(entries[j]) ensures q.MoveOf(entries[j]) != q.MoveOf(r) {
      assert entries[j] in entries[..i];
    }
    forall s | s in rows && InScan(q, keep)(s) && q.MoveOf(s) == q.MoveOf(r) ensures r.id <= s.id {
      var j :| 0 <= j < |entries| && entries[j] == s;
      assert i == j || ScanLe(r, s);
    }
  }

  lemma LeastComesFirst(rows: seq<Row>, q: Query, keep: Row -> bool, r: Row)
    requires DistinctIds(rows) && IsLeast(r, rows, q, keep)
    ensures r in Firsts(Scan(rows, q), q, keep)
  {
    var entries := Scan(rows, q);
    ScanMembers(rows, q, keep);
    FirstsMembers(entries, q, keep);
    var i :| 0 <= i < |entries| && entries[i] == r;
    var k := FirstOf(entries, i, q, keep);
    FirstIsLeast(rows, q, keep, k);
    assert entries[k] in rows && InScan(q, keep)(entries[k]);
    assert entries[k].id == r.id;
  }

  lemma {:induction false} FirstOf(entries: seq<Row>, i: nat, q: Query, keep: Row -> bool) returns (k: nat)
    requires i < |entries| && keep(entries[i])
    ensures k <= i && keep(entries[k]) && q.MoveOf(entries[k]) == q.MoveOf(entries[i]) && IsFirst(entries, k, q, keep)
  {
    if IsFirst(entries, i, q, keep) {
      k := i;
    } else {
      var s :| s in entries[..i] && keep(s) && q.MoveOf(s) == q.MoveOf(entries[i]);
      var j :| 0 <= j < i && entries[j] == s;
      k := FirstOf(entries, j, q, keep);
    }
  }

  /** `more` only repeats transitions of `rows`, in rows with larger ids. */
  ghost predicate Repeats(rows: seq<Row>, more: seq<Row>, q: Query) {
    forall d :: d in more ==>
      && (forall r :: r in rows ==> r.id < d.id)
      && (exists r :: r in rows && r.field == d.field && q.MoveOf(r) == q.MoveOf(d))
  }

  lemma RepeatsLeaveLeast(rows: seq<Row>, more: seq<Row>, q: Query, keep: Row -> bool)
    requires DistinctIds(rows + more) && Repeats(rows, more, q)
    requires keep == q.Additions() || keep == q.Removals()
    ensures Events(rows + more, q, keep) == Events(rows, q, keep)
  {
    var all := rows + more;
    forall d | d in more && InScan(q, keep)(d)
      ensures exists r :: r in rows && InScan(q, keep)(r) && q.MoveOf(r) == q.MoveOf(d) && r.id < d.id
    {
      var r :| r in rows && r.field == d.field && q.MoveOf(r) == q.MoveOf(d);
    }
    forall r ensures IsLeast(r, all, q, keep) <==> IsLeast(r, rows, q, keep) {
      assert r in all <==> r in rows || r in more;
    }
    SameLeastSameEvents(rows, all, q, keep);
  }

  lemma SameLeastSameEvents(a: seq<Row>, b: seq<Row>, q: Query, keep: Row -> bool)
    requires DistinctIds(a) && DistinctIds(b)
    requires forall r :: IsLeast(r, a, q, keep) <==> IsLeast(r, b, q, keep)
    ensures Events(a, q, keep) == Events(b, q, keep)
  {
    var x, y := Firsts(Scan(a, q), q, keep), Firsts(Scan(b, q), q, keep);
    FirstsAreLeast(a, q, keep);
    FirstsAreLeast(b, q, keep);
    FirstsMembers(Scan(a, q), q, keep);
    FirstsMembers(Scan(b, q), q, keep);
    SameSetSameList(x, y);
    ScanOrder(a, q);
    forall r, s | r in x && s in x && EventLe(r, s) && EventLe(s, r) ensures r == s {
      assert IsLeast(r, a, q, keep) && IsLeast(s, a, q, keep);
      assert r.id == s.id;
    }
    SortCanonical(x, y, EventLe);
  }

  /** Repetitions stored later, with larger ids, leave the whole result unchanged, event lists included. */
  lemma LaterRepeatsChangeNothing(rows: seq<Row>, more: seq<Row>, q: Query, scope: set<string>, incomplete: set<string>)
    requires DistinctIds(rows + more) && Repeats(rows, more, q)
    ensures Evaluate(rows + more, q, scope, incomplete) == Evaluate(rows, q, scope, incomplete)
  {
    RepeatsLeaveLeast(rows, more, q, q.Additions());
    RepeatsLeaveLeast(rows, more, q, q.Removals());
  }

  lemma EventsGrow(rows: seq<Row>, more: seq<Row>, q: Query, keep: Row -> bool)
    requires forall r :: r in rows ==> r in more
    ensures |Events(rows, q, keep)| <= |Events(more, q, keep)|
  {
    EventFacts(rows, q, keep);
    EventFacts(more, q, keep);
    var a, b := Moves(rows, q, InScan(q, keep)), Moves(more, q, InScan(q, keep));
    assert b == a + (b - a);
  }

  /** While changelogs are incomplete the counts are confirmed minima: rows that are still missing can
      only add events. */
  lemma CountsAreConfirmedMinima(rows: seq<Row>, more: seq<Row>, q: Query, scope: set<string>, incomplete: set<string>)
    requires forall r :: r in rows ==> r in more
    ensures var x, y := Evaluate(rows, q, scope, incomplete), Evaluate(more, q, scope, {});
            |x.additions| <= |y.additions| && |x.removals| <= |y.removals| && (x.pct.Some? <==> x.status == Computed)
  {
    EventsGrow(rows, more, q, q.Additions());
    EventsGrow(rows, more, q, q.Removals());
  }

  // ---------------------------------------------------------------------------------------
  // The result in terms of the rows

  /** A row of the window that moves its ticket into the release, and one that moves it out. */
  predicate Enters(r: Row, q: Query) {
    && r.key in q.keys && q.from <= r.at <= q.to && q.fields(r.field) && q.release != ""
    && q.Norm(r.oldValue) != q.release && q.Norm(r.newValue) == q.release
  }

  predicate Leaves(r: Row, q: Query) {
    && r.key in q.keys && q.from <= r.at <= q.to && q.fields(r.field) && q.release != ""
    && q.Norm(r.oldValue) == q.release && q.Norm(r.newValue) != q.release
  }

  /** The same ticket, time and normalised sides. */
  predicate SameTransition(r: Row, s: Row, q: Query) {
    r.key == s.key && r.at == s.at && q.Norm(r.oldValue) == q.Norm(s.oldValue) && q.Norm(r.newValue) == q.Norm(s.newValue)
  }

  lemma {:induction false} FirstsAreApart(entries: seq<Row>, q: Query, keep: Row -> bool, r: Row, s: Row)
    requires r in Firsts(entries, q, keep) && s in Firsts(entries, q, keep) && q.MoveOf(r) == q.MoveOf(s)
    ensures r == s
  {
    FirstsMembers(entries, q, keep);
    var i: nat :| i < |entries| && entries[i] == r && IsFirst(entries, i, q, keep);
    var j: nat :| j < |entries| && entries[j] == s && IsFirst(entries, j, q, keep);
    if i < j {
      LaterIsNotFirst(entries, q, keep, i, j);
    } else if j < i {
      LaterIsNotFirst(entries, q, keep, j, i);
    }
  }

  lemma {:induction false} LaterIsNotFirst(entries: seq<Row>, q: Query, keep: Row -> bool, i: nat, j: nat)
    requires i < j < |entries| && keep(entries[i]) && q.MoveOf(entries[i]) == q.MoveOf(entries[j])
    ensures !IsFirst(entries, j, q, keep)
  {
    assert entries[..j][i] == entries[i];
  }

  lemma {:induction false} FirstsStandForAll(entries: seq<Row>, q: Query, keep: Row -> bool, r: Row) returns (s: Row)
    requires r in entries && keep(r)
    ensures s in Firsts(entries, q, keep) && q.MoveOf(s) == q.MoveOf(r)
  {
    FirstsMembers(entries, q, keep);
    var i :| 0 <= i < |entries| && entries[i] == r;
    var k := FirstOf(entries, i, q, keep);
    s := entries[k];
  }

  lemma {:induction false} ListedEvents(rows: seq<Row>, q: Query, keep: Row -> bool, r: Row)
    ensures r in Events(rows, q, keep) <==> r in Firsts(Scan(rows, q), q, keep)
    ensures r in Events(rows, q, keep) ==> r in rows && InScan(q, keep)(r)
    ensures r in rows && InScan(q, keep)(r) ==> r in Scan(rows, q) && keep(r)
  {
    ScanMembers(rows, q, keep);
    FirstsMembers(Scan(rows, q), q, keep);
    SameElements(Firsts(Scan(rows, q), q, keep), Events(rows, q, keep));
  }

  /** Each transition of the kept rows is listed, and listed once. */
  ghost predicate Lists(events: seq<Row>, rows: seq<Row>, q: Query, keep: Row -> bool) {
    && (forall r :: r in events ==> r in rows && keep(r))
    && (forall r :: r in rows && keep(r) ==> exists s :: s in events && SameTransition(r, s, q))
    && (forall r, s :: r in events && s in events && SameTransition(r, s, q) ==> r == s)
  }

  lemma {:induction false} EventsAreRight(rows: seq<Row>, q: Query, keep: Row -> bool)
    ensures Lists(Events(rows, q, keep), rows, q, InScan(q, keep))
  {
    var events, entries := Events(rows, q, keep), Scan(rows, q);
    forall r | r in events ensures r in rows && InScan(q, keep)(r) {
      ListedEvents(rows, q, keep, r);
    }
    forall r | r in rows && InScan(q, keep)(r) ensures exists s :: s in events && SameTransition(r, s, q) {
      ListedEvents(rows, q, keep, r);
      var s := FirstsStandForAll(entries, q, keep, r);
      ListedEvents(rows, q, keep, s);
      assert s in events && SameTransition(r, s, q);
    }
    forall r, s | r in events && s in events && SameTransition(r, s, q) ensures r == s {
      ListedEvents(rows, q, keep, r);
      ListedEvents(rows, q, keep, s);
      FirstsAreApart(entries, q, keep, r, s);
    }
  }

  /** No row stands twice in the list. */
  lemma {:induction false} EventsRepeatNothing(rows: seq<Row>, q: Query, keep: Row -> bool)
    ensures NoRepeats(Events(rows, q, keep))
  {
    FirstsMembers(Scan(rows, q), q, keep);
    NoRepeatsPermuted(Firsts(Scan(rows, q), q, keep), Events(rows, q, keep));
  }

  function Entering(q: Query): Row -> bool { (r: Row) => Enters(r, q) }
  function Leaving(q: Query): Row -> bool { (r: Row) => Leaves(r, q) }

  lemma {:induction false} SameLists(events: seq<Row>, rows: seq<Row>, q: Query, keep: Row -> bool, same: Row -> bool)
    requires Lists(events, rows, q, keep) && forall r :: keep(r) == same(r)
    ensures Lists(events, rows, q, same)
  {
    forall r | r in rows && same(r) ensures exists s :: s in events && SameTransition(r, s, q) {
      assert keep(r);
    }
  }

  /** The additions are the transitions into the release and the removals those out of it, once each. */
  lemma {:induction false} MovementsAreRight(rows: seq<Row>, q: Query, scope: set<string>, incomplete: set<string>)
    ensures Lists(Evaluate(rows, q, scope, incomplete).additions, rows, q, Entering(q))
    ensures Lists(Evaluate(rows, q, scope, incomplete).removals, rows, q, Leaving(q))
    ensures NoRepeats(Evaluate(rows, q, scope, incomplete).additions) && NoRepeats(Evaluate(rows, q, scope, incomplete).removals)
  {
    EventsRepeatNothing(rows, q, q.Additions());
    EventsRepeatNothing(rows, q, q.Removals());
    EventsAreRight(rows, q, q.Additions());
    EventsAreRight(rows, q, q.Removals());
    SameLists(Events(rows, q, q.Additions()), rows, q, InScan(q, q.Additions()), Entering(q));
    SameLists(Events(rows, q, q.Removals()), rows, q, InScan(q, q.Removals()), Leaving(q));
  }

  /** The rate is withheld exactly while changelogs are incomplete; otherwise it is the returned events per hundred
      returned tickets, those in scope and those that moved. */
  predicate RateStands(c: Churn, scope: set<string>, incomplete: set<string>) {
    && c.observed == scope + (set r | r in c.additions :: r.key) + (set r | r in c.removals :: r.key)
    && (c.status == Partial <==> incomplete != {})
    && (c.status == NotComputed <==> incomplete == {} && c.observed == {})
    && (c.status == Computed <==> c.pct.Some?)
    && (c.pct.Some? ==>
          c.observed != {}
          && -0.005 <= c.pct.value - 100.0 * (|c.additions| + |c.removals|) as real / |c.observed| as real <= 0.005)
  }

  lemma {:induction false} RateOfEvents(additions: seq<Row>, removals: seq<Row>, scope: set<string>, incomplete: set<string>)
    ensures RateStands(ChurnOf(additions, removals, scope, incomplete), scope, incomplete)
  {}

  lemma {:induction false} RateIsRight(rows: seq<Row>, q: Query, scope: set<string>, incomplete: set<string>)
    ensures RateStands(Evaluate(rows, q, scope, incomplete), scope, incomplete)
  {
    RateOfEvents(Events(rows, q, q.Additions()), Events(rows, q, q.Removals()), scope, incomplete);
  }
}
