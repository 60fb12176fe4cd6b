/** Sprint scope from the stored changelog: what the log says about membership, and the counting
    reconstruction of scope creep. */
module SprintScope {
  import opened Sequences
  import opened Rounding

  /** One row of the issue history table. Field names are as stored, times are UTC instants. */
  datatype Row = Row(id: int, key: string, field: string, at: int,
                     oldValue: Option<string>, newValue: Option<string>)

  datatype Sprint = Sprint(closed: bool, startAt: Option<int>, endAt: Option<int>, completeAt: Option<int>)

  datatype Issue = Issue(key: string, changelogComplete: bool)

  /** What the replay is told about the sprint: which changelog fields carry sprint membership
      and which history values mention the sprint. */
  datatype Lens = Lens(fields: string -> bool, refs: Option<string> -> bool)
  {
    predicate Sees(r: Row) { fields(r.field) }
    predicate Was(r: Row) { refs(r.oldValue) }
    predicate Becomes(r: Row) { refs(r.newValue) }
    predicate Adds(r: Row) { !Was(r) && Becomes(r) }
    predicate Removes(r: Row) { Was(r) && !Becomes(r) }
    predicate Changes(r: Row) { Was(r) != Becomes(r) }
    function Adding(): Row -> bool { (r: Row) => Sees(r) && Adds(r) }
    function Removing(): Row -> bool { (r: Row) => Sees(r) && Removes(r) }
  }

  predicate Earlier(a: Row, b: Row) {
    a.at < b.at || (a.at == b.at && a.id < b.id)
  }

  /** The history table, listed by (changed_at, id); ids are unique, so the order is strict. */
  ghost predicate Chronological(log: seq<Row>) {
    forall i, j :: 0 <= i < j < |log| ==> Earlier(log[i], log[j])
  }

  // ---------------------------------------------------------------------------------------
  // What the log says: membership as it evolves

  function Step(scope: set<string>, r: Row, lens: Lens): set<string> {
    if !lens.Sees(r) then scope
    else if lens.Becomes(r) then scope + {r.key}
    else scope - {r.key}
  }

  function Replay(scope: set<string>, log: seq<Row>, lens: Lens): set<string>
    decreases |log|
  {
    if log == [] then scope else Replay(Step(scope, log[0], lens), log[1..], lens)
  }

  /** Every sprint row's old side tells the membership that held just before the row. */
  ghost predicate Consistent(scope: set<string>, log: seq<Row>, lens: Lens)
    decreases |log|
  {
    log == [] ||
    ((lens.Sees(log[0]) ==> (lens.Was(log[0]) <==> log[0].key in scope)) &&
     Consistent(Step(scope, log[0], lens), log[1..], lens))
  }

  function AtOrBefore(t: int): Row -> bool { (r: Row) => r.at <= t }

  function After(t: int): Row -> bool { (r: Row) => r.at > t }

  function Upto(log: seq<Row>, t: int): seq<Row> { Filter(log, AtOrBefore(t)) }

  function Since(log: seq<Row>, t: int): seq<Row> { Filter(log, After(t)) }

  /** The membership the log describes at instant `t`, starting from `origin`. */
  function ScopeAt(origin: set<string>, log: seq<Row>, t: int, lens: Lens): set<string> {
    Replay(origin, Upto(log, t), lens)
  }

  lemma {:induction false} ReplayConcat(scope: set<string>, a: seq<Row>, b: seq<Row>, lens: Lens)
    ensures Replay(scope, a + b, lens) == Replay(Replay(scope, a, lens), b, lens)
    ensures Consistent(scope, a + b, lens) <==> Consistent(scope, a, lens) && Consistent(Replay(scope, a, lens), b, lens)
    decreases |a|
  {
    if a == [] {
      assert a + b == b;
    } else {
      assert (a + b)[1..] == a[1..] + b;
      ReplayConcat(Step(scope, a[0], lens), a[1..], b, lens);
    }
  }

  lemma {:induction false} SplitAt(log: seq<Row>, t: int)
    requires Chronological(log)
    ensures log == Upto(log, t) + Since(log, t)
  {
    if log != [] {
      SplitAt(log[1..], t);
      if log[0].at > t {
        FilterNone(log[1..], AtOrBefore(t));
      }
    }
  }

  function Added(log: seq<Row>, lens: Lens): nat { |Filter(log, lens.Adding())| }

  function Removed(log: seq<Row>, lens: Lens): nat { |Filter(log, lens.Removing())| }

  /** Conservation: along a consistent log the size of the scope moves by exactly the additions
      minus the removals. */
  lemma {:induction false} SizeIsConserved(scope: set<string>, log: seq<Row>, lens: Lens)
    requires Consistent(scope, log, lens)
    ensures |Replay(scope, log, lens)| == |scope| + Added(log, lens) - Removed(log, lens)
    decreases |log|
  {
    if log != [] {
      var r := log[0];
      SizeIsConserved(Step(scope, r, lens), log[1..], lens);
      if lens.Sees(r) && lens.Adds(r) {
        assert |scope + {r.key}| == |scope| + 1;
      } else if lens.Sees(r) && lens.Removes(r) {
        assert scope == (scope - {r.key}) + {r.key};
      } else {
        assert Step(scope, r, lens) == scope;
      }
    }
  }

  // ---------------------------------------------------------------------------------------
  // The window

  function OrElse<T>(a: Option<T>, b: T): T {
    match a case Some(v) => v case None => b
  }

  function EffectiveWindowEnd(sprint: Sprint, snapshotAt: int): int {
    if sprint.closed then OrElse(sprint.completeAt, OrElse(sprint.endAt, snapshotAt))
    else match sprint.endAt
      case Some(e) => if e < snapshotAt then e else snapshotAt
      case None => snapshotAt
  }

  // ---------------------------------------------------------------------------------------
  // Scope creep: the counting reconstruction

  datatype Status = Computed | Partial | NotComputed

  datatype ScopeCreep = ScopeCreep(status: Status, value: Option<real>,
                                   additions: seq<Row>, removals: seq<Row>,
                                   initialCommitment: nat, net: int,
                                   changedKeys: set<string>, incomplete: set<string>)

  function Keys(rows: seq<Row>): (r: set<string>)
    ensures forall k :: k in r <==> exists x :: x in rows && x.key == k
  {
    set x | x in rows :: x.key
  }

  function IssueKeys(issues: seq<Issue>): set<string> { set i | i in issues :: i.key }

  function IncompleteKeys(issues: seq<Issue>): set<string> { set i | i in issues && !i.changelogComplete :: i.key }

  predicate HasWindow(sprint: Sprint, snapshotAt: int) {
    sprint.startAt.Some? && sprint.startAt.value <= EffectiveWindowEnd(sprint, snapshotAt)
  }

  function BuildResult(status: Status, value: Option<real>, scope: set<string>,
                       additions: seq<Row>, removals: seq<Row>, incomplete: set<string>): ScopeCreep
  {
    var initial := |scope| - |additions| + |removals|;
    ScopeCreep(status, value, additions, removals, if initial < 0 then 0 else initial,
               |additions| - |removals|, Keys(additions) + Keys(removals), incomplete)
  }

  /** The rows the scope-creep query returns: project issues, sprint fields, inside the window. */
  function Queried(project: set<string>, startAt: int, windowEnd: int, lens: Lens): Row -> bool {
    (r: Row) => r.key in project && lens.Sees(r) && startAt < r.at <= windowEnd
  }

  function CreepQuery(log: seq<Row>, project: set<string>, startAt: int, windowEnd: int, lens: Lens): seq<Row> {
    Filter(log, Queried(project, startAt, windowEnd, lens))
  }

  method CollectMovements(entries: seq<Row>, lens: Lens) returns (additions: seq<Row>, removals: seq<Row>)
    requires forall r :: r in entries ==> lens.Sees(r)
    ensures additions == Filter(entries, lens.Adding())
    ensures removals == Filter(entries, lens.Removing())
  {
    additions, removals := [], [];
    for i := 0 to |entries|
      invariant additions == Filter(entries[..i], lens.Adding())
      invariant removals == Filter(entries[..i], lens.Removing())
    {
      var entry := entries[i];
      FilterSnoc(entries, i, lens.Adding());
      FilterSnoc(entries, i, lens.Removing());
      if !lens.Was(entry) && lens.Becomes(entry) {
        additions := additions + [entry];
      } else if lens.Was(entry) && !lens.Becomes(entry) {
        removals := removals + [entry];
      }
    }
    assert entries[..|entries|] == entries;
  }

  method ComputeScopeCreep(log: seq<Row>, scope: set<string>, projectIssues: seq<Issue>,
                           sprint: Sprint, snapshotAt: int, lens: Lens)
    returns (result: ScopeCreep)
    ensures result == BuildResult(result.status, result.value, scope, result.additions, result.removals, result.incomplete)
    ensures result.incomplete == IncompleteKeys(projectIssues)
    // Without a usable window nothing is counted and nothing is claimed.
    ensures !HasWindow(sprint, snapshotAt) ==>
              result.status == NotComputed && result.additions == [] && result.removals == []
    // Otherwise the movements are exactly the queried rows that cross the sprint boundary.
    ensures HasWindow(sprint, snapshotAt) ==>
              var rows := CreepQuery(log, IssueKeys(projectIssues), sprint.startAt.value,
                                     EffectiveWindowEnd(sprint, snapshotAt), lens);
              && result.additions == Filter(rows, lens.Adding())
              && result.removals == Filter(rows, lens.Removing())
              && (result.status == Partial <==> result.incomplete != {})
              && (result.status == Computed <==> result.incomplete == {} && result.initialCommitment > 0)
    ensures result.value == if result.status != Computed then None
                            else Some(Round2(100.0 * (|result.additions| + |result.removals|) as real
                                             / result.initialCommitment as real))
  {
    var incomplete := IncompleteKeys(projectIssues);
    var windowEnd := EffectiveWindowEnd(sprint, snapshotAt);
    if sprint.startAt.None? || windowEnd < sprint.startAt.value {
      return BuildResult(NotComputed, None, scope, [], [], incomplete);
    }
    var entries := CreepQuery(log, IssueKeys(projectIssues), sprint.startAt.value, windowEnd, lens);
    FilterMembers(log, Queried(IssueKeys(projectIssues), sprint.startAt.value, windowEnd, lens));
    var additions, removals := CollectMovements(entries, lens);
    var initial := |scope| - |additions| + |removals|;
    if incomplete != {} {
      return BuildResult(Partial, None, scope, additions, removals, incomplete);
    }
    if scope == {} && additions == [] && removals == [] {
      return BuildResult(NotComputed, None, scope, [], [], incomplete);
    }
    if initial <= 0 {
      return BuildResult(NotComputed, None, scope, additions, removals, incomplete);
    }
    var value := Round2(100.0 * (|additions| + |removals|) as real / initial as real);
    result := BuildResult(Computed, Some(value), scope, additions, removals, incomplete);
  }

  // ---------------------------------------------------------------------------------------
  // Conservation

  /** Sprint rows after the start that the query does not return: rows after the window end, or of
      issues outside the project. */
  function Unseen(project: set<string>, startAt: int, windowEnd: int, lens: Lens): Row -> bool {
    (r: Row) => r.at > startAt && lens.Sees(r) && !(r.key in project && r.at <= windowEnd)
  }

  function Missed(log: seq<Row>, project: set<string>, startAt: int, windowEnd: int, lens: Lens): seq<Row> {
    Filter(log, Unseen(project, startAt, windowEnd, lens))
  }

  lemma {:induction false} CountsSplit(log: seq<Row>, project: set<string>, startAt: int, windowEnd: int, lens: Lens)
    ensures Added(Since(log, startAt), lens)
         == Added(CreepQuery(log, project, startAt, windowEnd, lens), lens)
          + Added(Missed(log, project, startAt, windowEnd, lens), lens)
    ensures Removed(Since(log, startAt), lens)
         == Removed(CreepQuery(log, project, startAt, windowEnd, lens), lens)
          + Removed(Missed(log, project, startAt, windowEnd, lens), lens)
  {
    if log != [] {
      CountsSplit(log[1..], project, startAt, windowEnd, lens);
    }
  }

  /** The count the code reconstructs, for every consistent log: the true size of the scope at
      sprint start, off by exactly the membership changes its query does not return. */
  lemma ReconstructedCommitment(origin: set<string>, log: seq<Row>, project: set<string>,
                                startAt: int, windowEnd: int, lens: Lens)
    requires Chronological(log) && Consistent(origin, log, lens)
    ensures var rows := CreepQuery(log, project, startAt, windowEnd, lens);
            var missed := Missed(log, project, startAt, windowEnd, lens);
            |Replay(origin, log, lens)| - Added(rows, lens) + Removed(rows, lens)
            == |ScopeAt(origin, log, startAt, lens)| + Added(missed, lens) - Removed(missed, lens)
  {
    SplitAt(log, startAt);
    ReplayConcat(origin, Upto(log, startAt), Since(log, startAt), lens);
    SizeIsConserved(ScopeAt(origin, log, startAt, lens), Since(log, startAt), lens);
    CountsSplit(log, project, startAt, windowEnd, lens);
  }

  /** Scope creep's evidence is right exactly when the unseen changes cancel out (or when the
      clamp hides their difference behind an empty initial scope). */
  lemma CommitmentExactIff(origin: set<string>, log: seq<Row>, projectIssues: seq<Issue>, sprint: Sprint,
                           snapshotAt: int, lens: Lens, result: ScopeCreep)
    requires Chronological(log) && Consistent(origin, log, lens)
    requires HasWindow(sprint, snapshotAt)
    requires IsScopeCreepOf(result, log, Replay(origin, log, lens), projectIssues, sprint, snapshotAt, lens)
    ensures var truth := ScopeAt(origin, log, sprint.startAt.value, lens);
            var missed := Missed(log, IssueKeys(projectIssues), sprint.startAt.value,
                                 EffectiveWindowEnd(sprint, snapshotAt), lens);
            result.initialCommitment == |truth| <==>
            Added(missed, lens) == Removed(missed, lens) || (truth == {} && Added(missed, lens) <= Removed(missed, lens))
  {
    ReconstructedCommitment(origin, log, IssueKeys(projectIssues), sprint.startAt.value,
                            EffectiveWindowEnd(sprint, snapshotAt), lens);
  }

  ghost predicate IsScopeCreepOf(result: ScopeCreep, log: seq<Row>, scope: set<string>, projectIssues: seq<Issue>,
                                 sprint: Sprint, snapshotAt: int, lens: Lens)
    requires HasWindow(sprint, snapshotAt)
  {
    var rows := CreepQuery(log, IssueKeys(projectIssues), sprint.startAt.value,
                           EffectiveWindowEnd(sprint, snapshotAt), lens);
    && result == BuildResult(result.status, result.value, scope, result.additions, result.removals, result.incomplete)
    && result.additions == Filter(rows, lens.Adding())
    && result.removals == Filter(rows, lens.Removing())
  }

  /** Every membership change after the start is one the query returns. */
  ghost predicate Witnessed(log: seq<Row>, project: set<string>, startAt: int, windowEnd: int, lens: Lens) {
    forall r :: r in log && lens.Sees(r) && lens.Changes(r) && r.at > startAt ==> r.key in project && r.at <= windowEnd
  }

  lemma WitnessedMissesNothing(log: seq<Row>, project: set<string>, startAt: int, windowEnd: int, lens: Lens)
    requires Witnessed(log, project, startAt, windowEnd, lens)
    ensures Added(Missed(log, project, startAt, windowEnd, lens), lens) == 0
    ensures Removed(Missed(log, project, startAt, windowEnd, lens), lens) == 0
  {
    var missed := Missed(log, project, startAt, windowEnd, lens);
    FilterMembers(log, Unseen(project, startAt, windowEnd, lens));
    assert forall i :: 0 <= i < |missed| ==> missed[i] in missed;
    FilterNone(missed, lens.Adding());
    FilterNone(missed, lens.Removing());
  }

  /** Conservation of sprint scope: the reconstructed commitment is the true initial size, the
      clamp at zero never fires, and the net change is the true difference of sizes. */
  lemma ScopeIsConserved(origin: set<string>, log: seq<Row>, projectIssues: seq<Issue>, sprint: Sprint,
                         snapshotAt: int, lens: Lens, result: ScopeCreep)
    requires Chronological(log) && Consistent(origin, log, lens)
    requires HasWindow(sprint, snapshotAt)
    requires Witnessed(log, IssueKeys(projectIssues), sprint.startAt.value, EffectiveWindowEnd(sprint, snapshotAt), lens)
    requires IsScopeCreepOf(result, log, Replay(origin, log, lens), projectIssues, sprint, snapshotAt, lens)
    ensures var initial := ScopeAt(origin, log, sprint.startAt.value, lens);
            var current := Replay(origin, log, lens);
            && result.initialCommitment == |initial|
            && |current| - |result.additions| + |result.removals| >= 0
            && result.net == |current| - |initial|
  {
    ReconstructedCommitment(origin, log, IssueKeys(projectIssues), sprint.startAt.value,
                            EffectiveWindowEnd(sprint, snapshotAt), lens);
    WitnessedMissesNothing(log, IssueKeys(projectIssues), sprint.startAt.value,
                           EffectiveWindowEnd(sprint, snapshotAt), lens);
  }

  // ---------------------------------------------------------------------------------------
  // The result in terms of the rows

  /** A closed sprint counts up to its completion, or else its planned end; any other up to now or its planned
      end, whichever comes first. */
  lemma WindowEndIsRight(sprint: Sprint, snapshotAt: int)
    ensures var end := EffectiveWindowEnd(sprint, snapshotAt);
            && (sprint.closed && sprint.completeAt.Some? ==> end == sprint.completeAt.value)
            && (sprint.closed && sprint.completeAt.None? ==>
                  if sprint.endAt.Some? then end == sprint.endAt.value else end == snapshotAt)
            && (!sprint.closed ==>
                  && end <= snapshotAt && (sprint.endAt.Some? ==> end <= sprint.endAt.value)
                  && (end == snapshotAt || sprint.endAt == Some(end)))
  {}

  /** A sprint row of a project ticket, after the start and up to the end. */
  predicate InWindow(r: Row, projectIssues: seq<Issue>, startAt: int, windowEnd: int, lens: Lens) {
    (exists i :: i in projectIssues && i.key == r.key) && lens.fields(r.field) && startAt < r.at <= windowEnd
  }

  /** The additions are the rows of the window that lead into the sprint, the removals those that lead out of it,
      and the counts are theirs. */
  lemma MovementsAreRight(log: seq<Row>, scope: set<string>, projectIssues: seq<Issue>, sprint: Sprint, snapshotAt: int,
                          lens: Lens, result: ScopeCreep, r: Row)
    requires HasWindow(sprint, snapshotAt) && IsScopeCreepOf(result, log, scope, projectIssues, sprint, snapshotAt, lens)
    ensures var end := EffectiveWindowEnd(sprint, snapshotAt);
            && (r in result.additions <==>
                  r in log && InWindow(r, projectIssues, sprint.startAt.value, end, lens)
                  && !lens.refs(r.oldValue) && lens.refs(r.newValue))
            && (r in result.removals <==>
                  r in log && InWindow(r, projectIssues, sprint.startAt.value, end, lens)
                  && lens.refs(r.oldValue) && !lens.refs(r.newValue))
    ensures result.net == |result.additions| - |result.removals|
    ensures result.initialCommitment == if |scope| <= result.net then 0 else |scope| - result.net
    ensures r in result.additions || r in result.removals ==> r.key in result.changedKeys
  {
    var keys, end := IssueKeys(projectIssues), EffectiveWindowEnd(sprint, snapshotAt);
    var rows := CreepQuery(log, keys, sprint.startAt.value, end, lens);
    FilterMembers(log, Queried(keys, sprint.startAt.value, end, lens));
    FilterMembers(rows, lens.Adding());
    FilterMembers(rows, lens.Removing());
  }
}
