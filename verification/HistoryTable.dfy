/** The tables the replay reads: the issue history, filled batch by batch, and the issue-to-sprint
    links, replaced issue by issue. Lookups see flushed rows only. */
module HistoryTable {
  import opened Sequences
  import opened SprintScope

  /** A changelog entry as the tracker reports it: a history row without its id. */
  datatype Entry = Entry(key: string, field: string, at: int, oldValue: Option<string>, newValue: Option<string>)

  function EntryOf(r: Row): Entry { Entry(r.key, r.field, r.at, r.oldValue, r.newValue) }

  function RowFor(e: Entry, id: int): Row { Row(id, e.key, e.field, e.at, e.oldValue, e.newValue) }

  /** The entries the table holds, without ids and repetitions. */
  function Stored(rows: seq<Row>): (s: set<Entry>)
    ensures forall e :: e in s <==> exists r :: r in rows && EntryOf(r) == e
  {
    set r | r in rows :: EntryOf(r)
  }

  /** What a lookup against these rows does not find. */
  function Absent(rows: seq<Row>): Entry -> bool { (e: Entry) => e !in Stored(rows) }

  /** Ids are handed out in increasing order. */
  function Numbered(entries: seq<Entry>, firstId: int): (rows: seq<Row>)
    ensures |rows| == |entries|
    ensures forall i :: 0 <= i < |rows| ==> rows[i] == RowFor(entries[i], firstId + i)
  {
    seq(|entries|, i requires 0 <= i < |entries| => RowFor(entries[i], firstId + i))
  }

  /** The table after a batch. */
  function Extended(rows: seq<Row>, batch: seq<Entry>, nextId: int): seq<Row> {
    rows + Numbered(Filter(batch, Absent(rows)), nextId)
  }

  ghost predicate IdsIncrease(rows: seq<Row>, nextId: int) {
    && (forall i, j :: 0 <= i < j < |rows| ==> rows[i].id < rows[j].id)
    && (forall i :: 0 <= i < |rows| ==> rows[i].id < nextId)
  }

  class HistoryRows {
    var rows: seq<Row>
    var nextId: int

    ghost predicate Valid()
      reads this
    {
      IdsIncrease(rows, nextId)
    }

    constructor ()
      ensures Valid() && rows == []
    {
      rows, nextId := [], 1;
    }

    /** `insert_issue_history_entries`: new rows wait in the session until the flush at the end. */
    method InsertEntries(batch: seq<Entry>) returns (inserted: nat, skipped: nat)
      requires Valid()
      modifies this
      ensures Valid()
      ensures rows == Extended(old(rows), batch, old(nextId))
      ensures inserted == |rows| - |old(rows)| && inserted + skipped == |batch|
    {
      inserted, skipped := 0, 0;
      var pending: seq<Entry> := [];
      for i := 0 to |batch|
        invariant rows == old(rows) && nextId == old(nextId)
        invariant pending == Filter(batch[..i], Absent(rows))
        invariant inserted == |pending| && inserted + skipped == i
      {
        FilterSnoc(batch, i, Absent(rows));
        if batch[i] in Stored(rows) {
          skipped := skipped + 1;
          continue;
        }
        pending := pending + [batch[i]];
        inserted := inserted + 1;
      }
      assert batch[..|batch|] == batch;
      Flush(pending);
    }

    method Flush(pending: seq<Entry>)
      requires Valid()
      modifies this
      ensures Valid()
      ensures rows == old(rows) + Numbered(pending, old(nextId)) && nextId == old(nextId) + |pending|
    {
      for i := 0 to |pending|
        invariant Valid()
        invariant rows == old(rows) + Numbered(pending[..i], old(nextId)) && nextId == old(nextId) + i
      {
        rows := rows + [RowFor(pending[i], nextId)];
        nextId := nextId + 1;
      }
      assert pending[..|pending|] == pending;
    }
  }

  // ---------------------------------------------------------------------------------------
  // Batches

  lemma StoredOfNumbered(entries: seq<Entry>, firstId: int)
    ensures Stored(Numbered(entries, firstId)) == Elements(entries)
  {
    var rows := Numbered(entries, firstId);
    forall e ensures e in Stored(rows) <==> e in entries {
      if e in entries {
        var i :| 0 <= i < |entries| && entries[i] == e;
        assert rows[i] in rows && EntryOf(rows[i]) == e;
      }
      if e in Stored(rows) {
        var r :| r in rows && EntryOf(r) == e;
        var i :| 0 <= i < |rows| && rows[i] == r;
        assert entries[i] == e;
      }
    }
  }

  /** A batch adds exactly the entries it names; the earlier rows keep their places and ids. */
  lemma BatchIsStored(rows: seq<Row>, batch: seq<Entry>, nextId: int)
    ensures rows <= Extended(rows, batch, nextId)
    ensures Stored(Extended(rows, batch, nextId)) == Stored(rows) + Elements(batch)
  {
    var added := Filter(batch, Absent(rows));
    FilterMembers(batch, Absent(rows));
    StoredOfNumbered(added, nextId);
    var more := Extended(rows, batch, nextId);
    forall e ensures e in Stored(more) <==> e in Stored(rows) + Elements(batch) {
      if e in Stored(rows) {
        var r :| r in rows && EntryOf(r) == e;
        assert r in more;
      }
      if e in Stored(Numbered(added, nextId)) {
        var r :| r in Numbered(added, nextId) && EntryOf(r) == e;
        assert r in more;
      }
    }
  }

  /** The row says what the entry says. */
  predicate SaysTheSame(r: Row, e: Entry) {
    r.key == e.key && r.field == e.field && r.at == e.at && r.oldValue == e.oldValue && r.newValue == e.newValue
  }

  /** Field by field: every entry of the batch has its row, and a new row is that of an entry no earlier row had. */
  lemma RowsSayWhatEntriesSay(rows: seq<Row>, batch: seq<Entry>, nextId: int, e: Entry, r: Row)
    ensures e in batch ==> exists s :: s in Extended(rows, batch, nextId) && SaysTheSame(s, e)
    ensures r in Extended(rows, batch, nextId) && r !in rows ==>
              exists f :: f in batch && SaysTheSame(r, f) && forall s :: s in rows ==> !SaysTheSame(s, f)
  {
    var added := Filter(batch, Absent(rows));
    var after := Extended(rows, batch, nextId);
    FilterMembers(batch, Absent(rows));
    BatchIsStored(rows, batch, nextId);
    if e in batch {
      assert e in Stored(after);
      var s :| s in after && EntryOf(s) == e;
      assert SaysTheSame(s, e);
    }
    if r in after && r !in rows {
      var i :| 0 <= i < |added| && Numbered(added, nextId)[i] == r;
      assert added[i] in batch && SaysTheSame(r, added[i]);
      forall s | s in rows ensures !SaysTheSame(s, added[i]) {
        assert EntryOf(s) in Stored(rows);
      }
    }
  }

  /** Syncing the same changelog again inserts nothing. */
  lemma ReinsertingChangesNothing(rows: seq<Row>, batch: seq<Entry>, nextId: int, laterId: int)
    ensures var once := Extended(rows, batch, nextId); Extended(once, batch, laterId) == once
  {
    var once := Extended(rows, batch, nextId);
    BatchIsStored(rows, batch, nextId);
    forall i | 0 <= i < |batch| ensures !Absent(once)(batch[i]) {
      assert batch[i] in Elements(batch);
    }
    FilterNone(batch, Absent(once));
  }

  /** The lookup does not see the batch's own rows, so the table stays free of repeated entries just
      when the batch does not repeat an entry that the table lacks. */
  lemma RepeatsAreLetThrough(rows: seq<Row>, batch: seq<Entry>, nextId: int)
    ensures NoRepeats(Map(Extended(rows, batch, nextId), EntryOf))
            <==> NoRepeats(Map(rows, EntryOf)) && NoRepeats(Filter(batch, Absent(rows)))
  {
    var before, added := Map(rows, EntryOf), Filter(batch, Absent(rows));
    FilterMembers(batch, Absent(rows));
    assert Map(Extended(rows, batch, nextId), EntryOf) == before + added;
    forall i | 0 <= i < |before| ensures before[i] !in added {
      assert rows[i] in rows && before[i] in Stored(rows);
    }
    NoRepeatsConcat(before, added);
  }

  // ---------------------------------------------------------------------------------------
  // What repeats do to the replay

  /** A row whose entry an earlier row of the log already tells. */
  function IsRepeat(log: seq<Row>): Row -> bool {
    (r: Row) => exists q :: q in log && EntryOf(q) == EntryOf(r) && q.id < r.id
  }

  function IsFirst(log: seq<Row>): Row -> bool { (r: Row) => !IsRepeat(log)(r) }

  /** The log the tracker meant: every entry once. */
  function Firsts(log: seq<Row>): seq<Row> { Filter(log, IsFirst(log)) }

  function Repeats(log: seq<Row>): seq<Row> { Filter(log, IsRepeat(log)) }

  lemma {:induction false} FilterKeepsOrder(log: seq<Row>, keep: Row -> bool)
    requires Chronological(log)
    ensures Chronological(Filter(log, keep))
  {
    if log != [] {
      FilterKeepsOrder(log[1..], keep);
      FilterMembers(log[1..], keep);
      forall r | r in Filter(log[1..], keep) ensures Earlier(log[0], r) {
        var j :| 0 <= j < |log[1..]| && log[1..][j] == r;
        assert log[j + 1] == r;
      }
    }
  }

  /** Counting is additive over the two parts of a log. */
  lemma {:induction false} CountsOfParts(log: seq<Row>, first: Row -> bool, repeated: Row -> bool, project: set<string>,
                                         startAt: int, windowEnd: int, lens: Lens)
    requires forall r :: first(r) != repeated(r)
    ensures var rows, own, extra := CreepQuery(log, project, startAt, windowEnd, lens),
                                    CreepQuery(Filter(log, first), project, startAt, windowEnd, lens),
                                    CreepQuery(Filter(log, repeated), project, startAt, windowEnd, lens);
            Added(rows, lens) == Added(own, lens) + Added(extra, lens)
            && Removed(rows, lens) == Removed(own, lens) + Removed(extra, lens)
  {
    if log != [] {
      CountsOfParts(log[1..], first, repeated, project, startAt, windowEnd, lens);
    }
  }

  /** The counting reconstruction on a table with repeats: with the current scope as it really is, the
      count is off by the repeated removals minus the repeated additions in the window, on top of the
      changes the query misses. */
  lemma CountWithRepeats(origin: set<string>, log: seq<Row>, project: set<string>, startAt: int, windowEnd: int, lens: Lens)
    requires Chronological(log) && Consistent(origin, Firsts(log), lens)
    ensures var rows, extra := CreepQuery(log, project, startAt, windowEnd, lens),
                               CreepQuery(Repeats(log), project, startAt, windowEnd, lens);
            var missed := Missed(Firsts(log), project, startAt, windowEnd, lens);
            |Replay(origin, Firsts(log), lens)| - Added(rows, lens) + Removed(rows, lens)
            == |ScopeAt(origin, Firsts(log), startAt, lens)|
               + Added(missed, lens) - Removed(missed, lens) + Removed(extra, lens) - Added(extra, lens)
  {
    FilterKeepsOrder(log, IsFirst(log));
    ReconstructedCommitment(origin, Firsts(log), project, startAt, windowEnd, lens);
    CountsOfParts(log, IsFirst(log), IsRepeat(log), project, startAt, windowEnd, lens);
  }

  /** So the reported commitment is right exactly when repeats and missed changes balance, or the clamp
      hides their difference behind an empty initial scope. */
  lemma CommitmentWithRepeatsIff(origin: set<string>, log: seq<Row>, projectIssues: seq<Issue>, sprint: Sprint,
                                 snapshotAt: int, lens: Lens, result: ScopeCreep)
    requires Chronological(log) && Consistent(origin, Firsts(log), lens)
    requires HasWindow(sprint, snapshotAt)
    requires IsScopeCreepOf(result, log, Replay(origin, Firsts(log), lens), projectIssues, sprint, snapshotAt, lens)
    ensures var project, startAt, windowEnd := IssueKeys(projectIssues), sprint.startAt.value, EffectiveWindowEnd(sprint, snapshotAt);
            var truth := ScopeAt(origin, Firsts(log), startAt, lens);
            var missed := Missed(Firsts(log), project, startAt, windowEnd, lens);
            var extra := CreepQuery(Repeats(log), project, startAt, windowEnd, lens);
            var surplus := Added(missed, lens) + Removed(extra, lens) - Removed(missed, lens) - Added(extra, lens);
            result.initialCommitment == |truth| <==> surplus == 0 || (truth == {} && surplus <= 0)
  {
    CountWithRepeats(origin, log, IssueKeys(projectIssues), sprint.startAt.value,
                     EffectiveWindowEnd(sprint, snapshotAt), lens);
  }

  lemma RepeatHasTwin(table: seq<Row>, log: seq<Row>, r: Row)
    requires (forall r :: r in log <==> r in table) && r in log && IsRepeat(log)(r)
    ensures !NoRepeats(Map(table, EntryOf))
  {
    var q :| q in log && EntryOf(q) == EntryOf(r) && q.id < r.id;
    var i :| 0 <= i < |table| && table[i] == q;
    var j :| 0 <= j < |table| && table[j] == r;
    assert Map(table, EntryOf)[i] == Map(table, EntryOf)[j];
  }

  lemma TwinIsRepeat(table: seq<Row>, log: seq<Row>, i: nat, j: nat)
    requires (forall r :: r in log <==> r in table)
    requires i < j < |table| && table[i].id < table[j].id && EntryOf(table[i]) == EntryOf(table[j])
    ensures IsRepeat(log)(table[j])
  {
    assert table[i] in log;
  }

  lemma RepeatIffRepeated(table: seq<Row>, nextId: int, log: seq<Row>)
    requires IdsIncrease(table, nextId) && forall r :: r in log <==> r in table
    ensures Repeats(log) == [] <==> NoRepeats(Map(table, EntryOf))
  {
    FilterMembers(log, IsRepeat(log));
    if Repeats(log) != [] {
      assert Repeats(log)[0] in Repeats(log);
      RepeatHasTwin(table, log, Repeats(log)[0]);
    }
    if !NoRepeats(Map(table, EntryOf)) {
      var i, j :| 0 <= i < j < |table| && Map(table, EntryOf)[i] == Map(table, EntryOf)[j];
      TwinIsRepeat(table, log, i, j);
      assert table[j] in Repeats(log);
    }
  }

  /** And that is up to the batch: the table listed in time order holds a repeat exactly when it held
      one before or the batch repeats an entry that was absent. */
  lemma RepeatsComeFromTheBatch(rows: seq<Row>, batch: seq<Entry>, nextId: int, log: seq<Row>)
    requires IdsIncrease(rows, nextId) && multiset(log) == multiset(Extended(rows, batch, nextId))
    ensures Repeats(log) == [] <==> NoRepeats(Map(rows, EntryOf)) && NoRepeats(Filter(batch, Absent(rows)))
  {
    var table := Extended(rows, batch, nextId);
    RepeatsAreLetThrough(rows, batch, nextId);
    SameRows(log, table);
    RepeatIffRepeated(table, nextId + |table| - |rows|, log);
  }

  lemma SameRows(a: seq<Row>, b: seq<Row>)
    requires multiset(a) == multiset(b)
    ensures forall r :: r in a <==> r in b
  {
    forall r ensures r in a <==> r in b {
      assert r in multiset(a) <==> r in multiset(b);
    }
  }

  /** A membership change and its repetition next to each other make the log inconsistent, whatever the
      scope was and whatever surrounds them. */
  lemma RepeatBreaksTheReplay(origin: set<string>, before: seq<Row>, r: Row, again: Row, after: seq<Row>, lens: Lens)
    requires lens.Sees(r) && lens.Changes(r) && EntryOf(again) == EntryOf(r)
    ensures !Consistent(origin, before + ([r, again] + after), lens)
  {
    ReplayConcat(origin, before, [r, again] + after, lens);
    assert ([r, again] + after)[1..] == [again] + after;
  }

  // ---------------------------------------------------------------------------------------
  // Sprint links

  datatype Link = Link(key: string, sprint: string)

  function NotOf(key: string): Link -> bool { (l: Link) => l.key != key }

  /** First occurrences, in order, as a dictionary keeps them. */
  function FirstOccurrences(xs: seq<string>): (r: seq<string>)
    ensures NoRepeats(r)
    ensures forall x :: x in r <==> x in xs
  {
    if xs == [] then []
    else
      var n := |xs| - 1;
      var before := FirstOccurrences(xs[..n]);
      assert xs == xs[..n] + [xs[n]];
      if xs[n] in before then before else before + [xs[n]]
  }

  class SprintLinks {
    var links: seq<Link>

    constructor ()
      ensures links == []
    {
      links := [];
    }

    /** `replace_issue_sprints`: afterwards the issue belongs to exactly the given sprints, once each,
        and no other issue's links have moved. */
    method ReplaceIssueSprints(key: string, sprintIds: seq<string>)
      requires NoRepeats(links)
      modifies this
      ensures NoRepeats(links)
      ensures forall s :: Link(key, s) in links <==> s in sprintIds
      ensures Filter(links, NotOf(key)) == Filter(old(links), NotOf(key))
    {
      var kept := Filter(links, NotOf(key));
      FilterKeepsNoRepeats(links, NotOf(key));
      FilterMembers(links, NotOf(key));
      FilterAll(kept, NotOf(key));
      links := kept;
      var unique := FirstOccurrences(sprintIds);
      for i := 0 to |unique|
        invariant NoRepeats(links)
        invariant forall s :: Link(key, s) in links <==> s in unique[..i]
        invariant Filter(links, NotOf(key)) == kept
      {
        FilterConcat(links, [Link(key, unique[i])], NotOf(key));
        assert unique[i] !in unique[..i];
        assert unique[..i + 1] == unique[..i] + [unique[i]];
        links := links + [Link(key, unique[i])];
      }
      assert unique[..|unique|] == unique;
    }
  }
}
