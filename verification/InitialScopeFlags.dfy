/** The second reconstruction of sprint scope: newest change first, the oldest has the last word. */
module InitialScopeFlags {
  import opened Sequences
  import opened Ordering
  import opened SprintScope

  /** Query order: by issue key, then newest change first. */
  predicate NewestFirst(a: Row, b: Row) {
    if a.key != b.key then StringLe(a.key, b.key) else !Earlier(a, b)
  }

  lemma NewestFirstRanks()
    ensures Ranking(NewestFirst)
  {
    forall a, b ensures NewestFirst(a, b) || NewestFirst(b, a) {
      StringLeTotal(a.key, b.key);
    }
    forall a, b, c | NewestFirst(a, b) && NewestFirst(b, c) ensures NewestFirst(a, c) {
      if a.key != b.key || b.key != c.key {
        StringLeTotal(a.key, b.key);
        StringLeTotal(b.key, c.key);
        StringLeTransitive(a.key, b.key, c.key);
        StringLeTotal(a.key, c.key);
      }
    }
  }

  function InWindow(keys: set<string>, startAt: int, upper: int, lens: Lens): Row -> bool {
    (r: Row) => r.key in keys && lens.Sees(r) && startAt < r.at <= upper
  }

  /** The rows the flags query returns, before ordering. */
  function FlagsQuery(log: seq<Row>, issueKeys: seq<string>, sprint: Sprint, snapshotAt: int, lens: Lens): seq<Row>
    requires sprint.startAt.Some?
  {
    Filter(log, InWindow(Elements(issueKeys), sprint.startAt.value, EffectiveWindowEnd(sprint, snapshotAt), lens))
  }

  predicate IsChangeOf(r: Row, key: string, lens: Lens) {
    r.key == key && lens.Changes(r)
  }

  /** `r` is the earliest membership-changing row of `key` among `rows`. */
  ghost predicate IsEarliestChange(r: Row, rows: seq<Row>, key: string, lens: Lens) {
    && r in rows && IsChangeOf(r, key, lens)
    && forall other :: other in rows && IsChangeOf(other, key, lens) && other != r ==> Earlier(r, other)
  }

  /** The flag of `key`: the old side of its earliest change in the window, or true without one. */
  ghost predicate FlagIsRight(flag: bool, rows: seq<Row>, key: string, lens: Lens) {
    && ((forall r :: r in rows ==> !IsChangeOf(r, key, lens)) ==> flag)
    && (forall r :: IsEarliestChange(r, rows, key, lens) ==> (flag <==> lens.Was(r)))
  }

  /** Who spoke last about `key` while the rows were read in order. */
  ghost predicate LastSpoke(flag: bool, read: seq<Row>, key: string, lens: Lens) {
    || (flag && forall i :: 0 <= i < |read| ==> !IsChangeOf(read[i], key, lens))
    || exists i :: 0 <= i < |read| && IsChangeOf(read[i], key, lens) && flag == lens.Was(read[i])
                   && forall j :: i < j < |read| ==> !IsChangeOf(read[j], key, lens)
  }

  lemma LastSpokenIsEarliest(flag: bool, read: seq<Row>, rows: seq<Row>, key: string, lens: Lens)
    requires Sorted(read, NewestFirst) && multiset(read) == multiset(rows)
    requires LastSpoke(flag, read, key, lens)
    ensures FlagIsRight(flag, rows, key, lens)
  {
    SameElements(read, rows);
    forall r | IsEarliestChange(r, rows, key, lens) ensures flag <==> lens.Was(r) {
      assert r in read;
      var at :| 0 <= at < |read| && read[at] == r;
      var i :| 0 <= i < |read| && IsChangeOf(read[i], key, lens) && flag == lens.Was(read[i])
               && forall j :: i < j < |read| ==> !IsChangeOf(read[j], key, lens);
      assert at <= i;
      assert read[i] in rows;
      assert at < i ==> NewestFirst(r, read[i]);
      assert read[i] == r;
    }
  }

  /** The flag of `key` after reading the rows in order, each change overwriting the one before. */
  function Overwritten(read: seq<Row>, key: string, lens: Lens): bool {
    if read == [] then true
    else if IsChangeOf(read[|read| - 1], key, lens) then lens.Was(read[|read| - 1])
    else Overwritten(read[..|read| - 1], key, lens)
  }

  lemma {:induction false} OverwrittenLastSpoke(read: seq<Row>, key: string, lens: Lens)
    ensures LastSpoke(Overwritten(read, key, lens), read, key, lens)
  {
    if read != [] && !IsChangeOf(read[|read| - 1], key, lens) {
      var front := read[..|read| - 1];
      OverwrittenLastSpoke(front, key, lens);
      assert forall i :: 0 <= i < |front| ==> front[i] == read[i];
    }
  }

  method ReplayBackwards(entries: seq<Row>, keys: set<string>, lens: Lens) returns (flags: map<string, bool>)
    requires forall i :: 0 <= i < |entries| ==> entries[i].key in keys
    ensures flags.Keys == keys
    ensures forall k :: k in keys ==> flags[k] == Overwritten(entries, k, lens)
  {
    flags := map k | k in keys :: true;
    for i := 0 to |entries|
      invariant flags.Keys == keys
      invariant forall k :: k in keys ==> flags[k] == Overwritten(entries[..i], k, lens)
    {
      var entry := entries[i];
      assert entries[..i + 1][..i] == entries[..i];
      if lens.Was(entry) != lens.Becomes(entry) {
        flags := flags[entry.key := lens.Was(entry)];
      }
    }
    assert entries[..|entries|] == entries;
  }

  method ComputeInitialScopeFlags(log: seq<Row>, issueKeys: seq<string>, sprint: Sprint, snapshotAt: int, lens: Lens)
    returns (flags: map<string, bool>)
    ensures flags.Keys == Elements(issueKeys)
    ensures sprint.startAt.None? ==> forall k :: k in flags ==> flags[k]
    ensures sprint.startAt.Some? ==>
              forall k :: k in flags ==>
                FlagIsRight(flags[k], FlagsQuery(log, issueKeys, sprint, snapshotAt, lens), k, lens)
  {
    flags := map k | k in issueKeys :: true;
    if issueKeys == [] || sprint.startAt.None? {
      return;
    }
    var rows := FlagsQuery(log, issueKeys, sprint, snapshotAt, lens);
    FilterMembers(log, InWindow(Elements(issueKeys), sprint.startAt.value, EffectiveWindowEnd(sprint, snapshotAt), lens));
    if EffectiveWindowEnd(sprint, snapshotAt) <= sprint.startAt.value {
      return;
    }
    var entries := Sort(rows, NewestFirst);
    NewestFirstRanks();
    SortSorted(rows, NewestFirst);
    SameElements(entries, rows);
    forall i | 0 <= i < |entries| ensures entries[i].key in Elements(issueKeys) {
      assert entries[i] in rows;
    }
    flags := ReplayBackwards(entries, Elements(issueKeys), lens);
    forall k | k in flags ensures FlagIsRight(flags[k], rows, k, lens) {
      OverwrittenLastSpoke(entries, k, lens);
      LastSpokenIsEarliest(flags[k], entries, rows, k, lens);
    }
  }

  // ---------------------------------------------------------------------------------------
  // What the flags mean

  ghost predicate NoChange(log: seq<Row>, key: string, lens: Lens) {
    forall r :: r in log && lens.Sees(r) ==> !IsChangeOf(r, key, lens)
  }

  lemma {:induction false} UnchangedMembership(scope: set<string>, log: seq<Row>, key: string, lens: Lens)
    requires Consistent(scope, log, lens) && NoChange(log, key, lens)
    ensures key in Replay(scope, log, lens) <==> key in scope
    decreases |log|
  {
    if log != [] {
      assert log[0] in log;
      assert forall r :: r in log[1..] ==> r in log;
      UnchangedMembership(Step(scope, log[0], lens), log[1..], key, lens);
    }
  }

  /** Along a consistent log the first change of an issue tells where it stood at the beginning. */
  lemma {:induction false} FirstChangeTellsMembership(scope: set<string>, log: seq<Row>, i: nat, lens: Lens)
    requires Consistent(scope, log, lens) && i < |log|
    requires lens.Sees(log[i]) && lens.Changes(log[i])
    requires forall j :: 0 <= j < i && lens.Sees(log[j]) ==> !IsChangeOf(log[j], log[i].key, lens)
    ensures lens.Was(log[i]) <==> log[i].key in scope
    decreases |log|
  {
    if i > 0 {
      FirstChangeTellsMembership(Step(scope, log[0], lens), log[1..], i - 1, lens);
    }
  }

  /** A first change exists as soon as any does. */
  lemma {:induction false} FirstChange(log: seq<Row>, key: string, lens: Lens) returns (i: nat)
    requires !NoChange(log, key, lens)
    ensures i < |log| && lens.Sees(log[i]) && IsChangeOf(log[i], key, lens)
    ensures forall j :: 0 <= j < i && lens.Sees(log[j]) ==> !IsChangeOf(log[j], key, lens)
  {
    if lens.Sees(log[0]) && IsChangeOf(log[0], key, lens) {
      i := 0;
    } else {
      assert forall r :: r in log <==> r == log[0] || r in log[1..];
      var k := FirstChange(log[1..], key, lens);
      i := k + 1;
    }
  }

  /** No membership change of `key` after the window. */
  ghost predicate Settled(log: seq<Row>, key: string, upper: int, lens: Lens) {
    forall r :: r in log && lens.Sees(r) && r.at > upper ==> !IsChangeOf(r, key, lens)
  }

  /** Some membership change of `key` lies in the window. */
  ghost predicate SeenInWindow(log: seq<Row>, key: string, keys: set<string>, startAt: int, upper: int, lens: Lens) {
    exists r :: r in Filter(log, InWindow(keys, startAt, upper, lens)) && IsChangeOf(r, key, lens)
  }

  /** On a consistent log the flag says whether the issue was in the sprint at its start, except that an
      issue the sprint never saw in the window is always reported as initial. */
  lemma FlagIsMembershipOrUnseen(flag: bool, origin: set<string>, log: seq<Row>, key: string, keys: set<string>,
                                 startAt: int, upper: int, lens: Lens)
    requires Chronological(log) && Consistent(origin, log, lens) && key in keys
    requires FlagIsRight(flag, Filter(log, InWindow(keys, startAt, upper, lens)), key, lens)
    ensures flag <==> key in ScopeAt(origin, log, startAt, lens) || !SeenInWindow(log, key, keys, startAt, upper, lens)
  {
    var start, later := ScopeAt(origin, log, startAt, lens), Since(log, startAt);
    SplitAt(log, startAt);
    ReplayConcat(origin, Upto(log, startAt), later, lens);
    if SeenInWindow(log, key, keys, startAt, upper, lens) {
      var i := FirstChangeInWindow(log, key, keys, startAt, upper, lens);
      FirstChangeTellsMembership(start, later, i, lens);
      FirstLaterIsEarliest(log, key, keys, startAt, upper, lens, i);
    }
  }

  /** The first change after the start is in the window as soon as any change is. */
  lemma FirstChangeInWindow(log: seq<Row>, key: string, keys: set<string>, startAt: int, upper: int, lens: Lens) returns (i: nat)
    requires Chronological(log) && SeenInWindow(log, key, keys, startAt, upper, lens)
    ensures var later := Since(log, startAt);
            && i < |later| && lens.Sees(later[i]) && IsChangeOf(later[i], key, lens) && later[i].at <= upper
            && forall j :: 0 <= j < i && lens.Sees(later[j]) ==> !IsChangeOf(later[j], key, lens)
  {
    var later := Since(log, startAt);
    FilterMembers(log, InWindow(keys, startAt, upper, lens));
    FilterMembers(log, After(startAt));
    var r :| r in Filter(log, InWindow(keys, startAt, upper, lens)) && IsChangeOf(r, key, lens);
    assert r in later;
    i := FirstChange(later, key, lens);
    var j :| 0 <= j < |later| && later[j] == r;
    if i < j {
      LaterRowsInOrder(log, startAt, i, j);
    }
  }

  /** For every issue whose membership is settled by the window end, unseen means unchanged since the start. */
  lemma FlagIsMembershipAtStart(flag: bool, origin: set<string>, log: seq<Row>, key: string, keys: set<string>,
                                startAt: int, upper: int, lens: Lens)
    requires Chronological(log) && Consistent(origin, log, lens)
    requires key in keys && Settled(log, key, upper, lens)
    requires FlagIsRight(flag, Filter(log, InWindow(keys, startAt, upper, lens)), key, lens)
    ensures flag <==> key in ScopeAt(origin, log, startAt, lens) || NoChange(Since(log, startAt), key, lens)
    ensures NoChange(Since(log, startAt), key, lens) ==>
              (key in ScopeAt(origin, log, startAt, lens) <==> key in Replay(origin, log, lens))
  {
    var start, later := ScopeAt(origin, log, startAt, lens), Since(log, startAt);
    FlagIsMembershipOrUnseen(flag, origin, log, key, keys, startAt, upper, lens);
    SplitAt(log, startAt);
    ReplayConcat(origin, Upto(log, startAt), later, lens);
    if NoChange(later, key, lens) {
      UnchangedMembership(start, later, key, lens);
      NoChangeInWindow(log, key, keys, startAt, upper, lens);
    } else {
      var i := FirstChange(later, key, lens);
      FilterMembers(log, After(startAt));
      FilterMembers(log, InWindow(keys, startAt, upper, lens));
      assert later[i] in later;
      assert later[i] in Filter(log, InWindow(keys, startAt, upper, lens));
    }
  }

  lemma NoChangeInWindow(log: seq<Row>, key: string, keys: set<string>, startAt: int, upper: int, lens: Lens)
    requires NoChange(Since(log, startAt), key, lens)
    ensures forall r :: r in Filter(log, InWindow(keys, startAt, upper, lens)) ==> !IsChangeOf(r, key, lens)
  {
    FilterMembers(log, InWindow(keys, startAt, upper, lens));
    FilterMembers(log, After(startAt));
    forall r | r in Filter(log, InWindow(keys, startAt, upper, lens)) ensures !IsChangeOf(r, key, lens) {
      assert r in Since(log, startAt);
    }
  }

  /** The first change after the start is the earliest change in the window. */
  lemma FirstLaterIsEarliest(log: seq<Row>, key: string, keys: set<string>, startAt: int, upper: int, lens: Lens, i: nat)
    requires Chronological(log) && key in keys && i < |Since(log, startAt)| && Since(log, startAt)[i].at <= upper
    requires var later := Since(log, startAt);
             && lens.Sees(later[i]) && IsChangeOf(later[i], key, lens)
             && forall j :: 0 <= j < i && lens.Sees(later[j]) ==> !IsChangeOf(later[j], key, lens)
    ensures IsEarliestChange(Since(log, startAt)[i], Filter(log, InWindow(keys, startAt, upper, lens)), key, lens)
  {
    var later, rows := Since(log, startAt), Filter(log, InWindow(keys, startAt, upper, lens));
    FilterMembers(log, InWindow(keys, startAt, upper, lens));
    FilterMembers(log, After(startAt));
    assert later[i] in later;
    forall other | other in rows && IsChangeOf(other, key, lens) && other != later[i]
      ensures Earlier(later[i], other)
    {
      assert other in later;
      var j :| 0 <= j < |later| && later[j] == other;
      assert i < j;
      LaterRowsInOrder(log, startAt, i, j);
    }
  }

  lemma LaterRowsInOrder(log: seq<Row>, startAt: int, i: nat, j: nat)
    requires Chronological(log) && i < j < |Since(log, startAt)|
    ensures Earlier(Since(log, startAt)[i], Since(log, startAt)[j])
  {
    SplitAt(log, startAt);
    var n := |Upto(log, startAt)|;
    assert log[n + i] == Since(log, startAt)[i] && log[n + j] == Since(log, startAt)[j];
  }

  lemma ChangesAreListed(creep: ScopeCreep, log: seq<Row>, projectIssues: seq<Issue>, sprint: Sprint, snapshotAt: int,
                         lens: Lens, r: Row)
    requires HasWindow(sprint, snapshotAt)
    requires Witnessed(log, IssueKeys(projectIssues), sprint.startAt.value, EffectiveWindowEnd(sprint, snapshotAt), lens)
    requires exists scope :: IsScopeCreepOf(creep, log, scope, projectIssues, sprint, snapshotAt, lens)
    requires r in log && r.at > sprint.startAt.value && lens.Sees(r) && lens.Changes(r)
    ensures r.key in creep.changedKeys
  {
    var project, upper := IssueKeys(projectIssues), EffectiveWindowEnd(sprint, snapshotAt);
    var rows := CreepQuery(log, project, sprint.startAt.value, upper, lens);
    FilterMembers(log, Queried(project, sprint.startAt.value, upper, lens));
    FilterMembers(rows, lens.Adding());
    FilterMembers(rows, lens.Removing());
    assert r in rows;
    assert r in creep.additions || r in creep.removals;
  }

  lemma ChangedKeysAreChanged(creep: ScopeCreep, log: seq<Row>, projectIssues: seq<Issue>, sprint: Sprint,
                              snapshotAt: int, lens: Lens, key: string)
    requires HasWindow(sprint, snapshotAt)
    requires exists scope :: IsScopeCreepOf(creep, log, scope, projectIssues, sprint, snapshotAt, lens)
    requires NoChange(Since(log, sprint.startAt.value), key, lens)
    ensures key !in creep.changedKeys
  {
    var startAt, project, upper := sprint.startAt.value, IssueKeys(projectIssues), EffectiveWindowEnd(sprint, snapshotAt);
    var rows := CreepQuery(log, project, startAt, upper, lens);
    FilterMembers(log, Queried(project, startAt, upper, lens));
    FilterMembers(rows, lens.Adding());
    FilterMembers(rows, lens.Removing());
    FilterMembers(log, After(startAt));
    forall r | r in creep.additions || r in creep.removals ensures r.key != key {
      assert r in Since(log, startAt);
    }
  }

  /** Everything the comparison of the two reconstructions assumes about one sprint. */
  ghost predicate Compared(issueKeys: seq<string>, origin: set<string>, log: seq<Row>, projectIssues: seq<Issue>,
                           sprint: Sprint, snapshotAt: int, lens: Lens, creep: ScopeCreep)
  {
    && Chronological(log) && Consistent(origin, log, lens)
    && HasWindow(sprint, snapshotAt)
    && Witnessed(log, IssueKeys(projectIssues), sprint.startAt.value, EffectiveWindowEnd(sprint, snapshotAt), lens)
    && IsScopeCreepOf(creep, log, Replay(origin, log, lens), projectIssues, sprint, snapshotAt, lens)
    && Elements(issueKeys) <= Replay(origin, log, lens) + creep.changedKeys
  }

  lemma ComparedFlag(flag: bool, key: string, issueKeys: seq<string>, origin: set<string>, log: seq<Row>,
                     projectIssues: seq<Issue>, sprint: Sprint, snapshotAt: int, lens: Lens, creep: ScopeCreep)
    requires Compared(issueKeys, origin, log, projectIssues, sprint, snapshotAt, lens, creep)
    requires key in Elements(issueKeys)
    requires FlagIsRight(flag, FlagsQuery(log, issueKeys, sprint, snapshotAt, lens), key, lens)
    ensures flag <==> key in ScopeAt(origin, log, sprint.startAt.value, lens)
  {
    var startAt, upper := sprint.startAt.value, EffectiveWindowEnd(sprint, snapshotAt);
    FlagIsMembershipAtStart(flag, origin, log, key, Elements(issueKeys), startAt, upper, lens);
    if NoChange(Since(log, startAt), key, lens) {
      ChangedKeysAreChanged(creep, log, projectIssues, sprint, snapshotAt, lens, key);
    }
  }

  /** The initial scope is among what the creep evidence knows: the current scope and the changed issues. */
  lemma InitialIssuesAreKnown(origin: set<string>, log: seq<Row>, projectIssues: seq<Issue>, sprint: Sprint,
                              snapshotAt: int, lens: Lens, creep: ScopeCreep, key: string)
    requires Chronological(log) && Consistent(origin, log, lens) && HasWindow(sprint, snapshotAt)
    requires Witnessed(log, IssueKeys(projectIssues), sprint.startAt.value, EffectiveWindowEnd(sprint, snapshotAt), lens)
    requires IsScopeCreepOf(creep, log, Replay(origin, log, lens), projectIssues, sprint, snapshotAt, lens)
    requires key in ScopeAt(origin, log, sprint.startAt.value, lens)
    ensures key in Replay(origin, log, lens) + creep.changedKeys
  {
    var startAt := sprint.startAt.value;
    var later := Since(log, startAt);
    SplitAt(log, startAt);
    ReplayConcat(origin, Upto(log, startAt), later, lens);
    if NoChange(later, key, lens) {
      UnchangedMembership(ScopeAt(origin, log, startAt, lens), later, key, lens);
    } else {
      var i := FirstChange(later, key, lens);
      FilterMembers(log, After(startAt));
      assert later[i] in later;
      ChangesAreListed(creep, log, projectIssues, sprint, snapshotAt, lens, later[i]);
    }
  }

  function Flagged(flags: map<string, bool>): set<string> { set k | k in flags && flags[k] }

  /** Whatever list of issues is asked for: the flagged ones are those that were in the sprint at its start
      and those without a change in the window, so the flags are right exactly when every listed issue
      outside the initial scope changed within the window. */
  lemma FlagsOfAPage(flags: map<string, bool>, issueKeys: seq<string>, origin: set<string>, log: seq<Row>, sprint: Sprint,
                     snapshotAt: int, lens: Lens)
    requires Chronological(log) && Consistent(origin, log, lens) && sprint.startAt.Some?
    requires flags.Keys == Elements(issueKeys)
    requires forall k :: k in flags ==> FlagIsRight(flags[k], FlagsQuery(log, issueKeys, sprint, snapshotAt, lens), k, lens)
    ensures var startAt, upper := sprint.startAt.value, EffectiveWindowEnd(sprint, snapshotAt);
            var initial := ScopeAt(origin, log, startAt, lens);
            && initial * Elements(issueKeys) <= Flagged(flags)
            && (Flagged(flags) == initial * Elements(issueKeys) <==>
                  forall k :: k in issueKeys && k !in initial ==> SeenInWindow(log, k, Elements(issueKeys), startAt, upper, lens))
  {
    var startAt, upper := sprint.startAt.value, EffectiveWindowEnd(sprint, snapshotAt);
    var initial := ScopeAt(origin, log, startAt, lens);
    forall k | k in flags
      ensures flags[k] <==> k in initial || !SeenInWindow(log, k, Elements(issueKeys), startAt, upper, lens)
    {
      assert k in Elements(issueKeys);
      FlagIsMembershipOrUnseen(flags[k], origin, log, k, Elements(issueKeys), startAt, upper, lens);
    }
    if Flagged(flags) == initial * Elements(issueKeys) {
      forall k | k in issueKeys && k !in initial ensures SeenInWindow(log, k, Elements(issueKeys), startAt, upper, lens) {
        assert k in flags && k !in Flagged(flags);
      }
    }
  }

  /** In particular they are right on a page of the current scope, as long as no membership on it changed
      after the window end. */
  lemma SettledPageIsRight(issueKeys: seq<string>, origin: set<string>, log: seq<Row>, sprint: Sprint, snapshotAt: int, lens: Lens)
    requires Chronological(log) && Consistent(origin, log, lens) && sprint.startAt.Some?
    requires Elements(issueKeys) <= Replay(origin, log, lens)
    requires forall k :: k in issueKeys ==> Settled(log, k, EffectiveWindowEnd(sprint, snapshotAt), lens)
    ensures forall k :: k in issueKeys && k !in ScopeAt(origin, log, sprint.startAt.value, lens) ==>
              SeenInWindow(log, k, Elements(issueKeys), sprint.startAt.value, EffectiveWindowEnd(sprint, snapshotAt), lens)
  {
    var startAt, upper := sprint.startAt.value, EffectiveWindowEnd(sprint, snapshotAt);
    var initial, later, window := ScopeAt(origin, log, startAt, lens), Since(log, startAt),
                                  Filter(log, InWindow(Elements(issueKeys), startAt, upper, lens));
    SplitAt(log, startAt);
    ReplayConcat(origin, Upto(log, startAt), later, lens);
    FilterMembers(log, After(startAt));
    FilterMembers(log, InWindow(Elements(issueKeys), startAt, upper, lens));
    forall k | k in issueKeys && k !in initial ensures SeenInWindow(log, k, Elements(issueKeys), startAt, upper, lens) {
      assert k in Elements(issueKeys);
      if NoChange(later, k, lens) {
        UnchangedMembership(initial, later, k, lens);
        assert false;
      }
      var i := FirstChange(later, k, lens);
      assert later[i] in later;
      assert later[i] in window;
    }
  }

  lemma FlaggedIsInitialScope(flags: map<string, bool>, issueKeys: seq<string>, origin: set<string>, log: seq<Row>,
                              projectIssues: seq<Issue>, sprint: Sprint, snapshotAt: int, lens: Lens, creep: ScopeCreep)
    requires Compared(issueKeys, origin, log, projectIssues, sprint, snapshotAt, lens, creep)
    requires flags.Keys == Elements(issueKeys)
    requires forall k :: k in flags ==> FlagIsRight(flags[k], FlagsQuery(log, issueKeys, sprint, snapshotAt, lens), k, lens)
    ensures Flagged(flags) == ScopeAt(origin, log, sprint.startAt.value, lens) * Elements(issueKeys)
  {
    var start := ScopeAt(origin, log, sprint.startAt.value, lens);
    forall k | k in flags ensures flags[k] <==> k in start {
      ComparedFlag(flags[k], k, issueKeys, origin, log, projectIssues, sprint, snapshotAt, lens, creep);
    }
  }

  lemma StartReplaysToNow(origin: set<string>, log: seq<Row>, startAt: int, lens: Lens)
    requires Chronological(log)
    ensures Replay(ScopeAt(origin, log, startAt, lens), Since(log, startAt), lens) == Replay(origin, log, lens)
  {
    SplitAt(log, startAt);
    ReplayConcat(origin, Upto(log, startAt), Since(log, startAt), lens);
  }

  lemma SizeOfParts(whole: set<string>, part: set<string>)
    ensures |whole| == |whole * part| + |whole - part|
  {
    assert whole == whole * part + (whole - part);
  }

  /** The two reconstructions agree, for any page of issues that the creep evidence knows, such as a page
      of the current scope: the flagged issues are the initial ones of the page, the reconstructed
      commitment counts them and the initial issues not on the page, and all of those are known too. On
      the page of all known issues the flagged ones are the initial scope itself, and replaying the later
      changes from them gives back the current scope. */
  lemma FlagsAgreeWithScopeCreep(flags: map<string, bool>, issueKeys: seq<string>, origin: set<string>, log: seq<Row>,
                                 projectIssues: seq<Issue>, sprint: Sprint, snapshotAt: int, lens: Lens, creep: ScopeCreep)
    requires Compared(issueKeys, origin, log, projectIssues, sprint, snapshotAt, lens, creep)
    requires flags.Keys == Elements(issueKeys)
    requires forall k :: k in flags ==> FlagIsRight(flags[k], FlagsQuery(log, issueKeys, sprint, snapshotAt, lens), k, lens)
    ensures var initial, known := ScopeAt(origin, log, sprint.startAt.value, lens), Replay(origin, log, lens) + creep.changedKeys;
            && Flagged(flags) == initial * Elements(issueKeys)
            && creep.initialCommitment == |Flagged(flags)| + |initial - Elements(issueKeys)|
            && initial - Elements(issueKeys) <= known - Elements(issueKeys)
            && (Elements(issueKeys) == known ==>
                  && Flagged(flags) == initial
                  && Replay(Flagged(flags), Since(log, sprint.startAt.value), lens) == Replay(origin, log, lens))
  {
    var initial := ScopeAt(origin, log, sprint.startAt.value, lens);
    FlaggedIsInitialScope(flags, issueKeys, origin, log, projectIssues, sprint, snapshotAt, lens, creep);
    ScopeIsConserved(origin, log, projectIssues, sprint, snapshotAt, lens, creep);
    SizeOfParts(initial, Elements(issueKeys));
    forall k | k in initial ensures k in Replay(origin, log, lens) + creep.changedKeys {
      InitialIssuesAreKnown(origin, log, projectIssues, sprint, snapshotAt, lens, creep, k);
    }
    StartReplaysToNow(origin, log, sprint.startAt.value, lens);
    assert initial * (Replay(origin, log, lens) + creep.changedKeys) == initial;
  }
}
