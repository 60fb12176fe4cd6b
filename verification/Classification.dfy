/** Metrics over issues with missing fields: claims about every way to fill them in. */
module Classification {
  import opened Sequences
  import opened Rounding

  /** Texts are stripped and case-folded; "" is a missing text. */
  datatype Issue = Issue(key: string, status: string, issueType: string, severity: string,
                         blockerFlag: Option<bool>, points: Option<real>)

  datatype Mapper = Mapper(done: set<string>, inProgress: set<string>, high: set<string>, bug: set<string>,
                           blockerTypes: set<string>, blockerSeverities: set<string>, blocked: set<string>)
  {
    /** Every set comes from a comma-separated setting, whose blank items are dropped. */
    predicate NoBlanks() {
      "" !in done && "" !in inProgress && "" !in high && "" !in bug
      && "" !in blockerTypes && "" !in blockerSeverities && "" !in blocked
    }

    /** Startup refuses settings without done statuses or with a status both done and in progress. */
    predicate Valid() { NoBlanks() && done != {} && done !! inProgress }

    predicate ClassifyBlocker(issue: Issue) {
      match issue.blockerFlag
      case Some(flag) => flag && issue.status !in done
      case None =>
        (issue.issueType in blockerTypes || issue.severity in blockerSeverities || issue.status in blocked)
        && issue.status !in done
    }

    predicate IsHighSeverityBug(issue: Issue) {
      issue.issueType in bug && issue.severity in high && issue.status !in done
    }

    predicate IsCompleted(issue: Issue) { issue.status in done }
  }

  // ---------------------------------------------------------------------------------------
  // One issue

  datatype Verdict = Match | NoMatch | Missing(status: bool, issueType: bool, severity: bool)

  function BlockerVerdict(issue: Issue, m: Mapper): Verdict {
    if issue.status == "" then Missing(true, false, false)
    else if issue.blockerFlag.Some? then (if m.ClassifyBlocker(issue) then Match else NoMatch)
    else if issue.status in m.done then NoMatch
    else
      var missingType := m.blockerTypes != {} && issue.issueType == "";
      var missingSeverity := m.blockerSeverities != {} && issue.severity == "";
      if m.ClassifyBlocker(issue) then Match
      else if missingType || missingSeverity then Missing(false, missingType, missingSeverity)
      else NoMatch
  }

  function HighBugVerdict(issue: Issue, m: Mapper): Verdict {
    if issue.issueType == "" then Missing(false, true, false)
    else if issue.issueType !in m.bug then NoMatch
    else if issue.severity == "" then Missing(false, false, true)
    else if issue.severity !in m.high then NoMatch
    else if issue.status == "" then Missing(true, false, false)
    else if issue.status in m.done then NoMatch else Match
  }

  function StatusVerdict(issue: Issue, m: Mapper): Verdict {
    if issue.status == "" then Missing(true, false, false)
    else if issue.status in m.done then Match else NoMatch
  }

  // ---------------------------------------------------------------------------------------
  // The lists

  function KeysWhere(issues: seq<Issue>, p: Issue -> bool): seq<string> {
    if issues == [] then []
    else KeysWhere(issues[..|issues| - 1], p) + (if p(issues[|issues| - 1]) then [issues[|issues| - 1].key] else [])
  }

  datatype Lists = Lists(matching: seq<string>, evaluated: seq<string>, missingStatus: seq<string>,
                         missingType: seq<string>, missingSeverity: seq<string>, missing: seq<string>)

  /** The lists an evaluator's verdicts lead to. */
  function ListsOf(issues: seq<Issue>, verdict: Issue -> Verdict): Lists {
    Lists(KeysWhere(issues, Matches(verdict)),
          KeysWhere(issues, (i: Issue) => !verdict(i).Missing?),
          KeysWhere(issues, (i: Issue) => verdict(i).Missing? && verdict(i).status),
          KeysWhere(issues, (i: Issue) => verdict(i).Missing? && verdict(i).issueType),
          KeysWhere(issues, (i: Issue) => verdict(i).Missing? && verdict(i).severity),
          KeysWhere(issues, Lacks(verdict)))
  }

  function Matches(verdict: Issue -> Verdict): Issue -> bool { (i: Issue) => verdict(i).Match? }
  function Lacks(verdict: Issue -> Verdict): Issue -> bool { (i: Issue) => verdict(i).Missing? }

  function Blockers(m: Mapper): Issue -> Verdict { (i: Issue) => BlockerVerdict(i, m) }
  function HighBugs(m: Mapper): Issue -> Verdict { (i: Issue) => HighBugVerdict(i, m) }
  function Completed(m: Mapper): Issue -> Verdict { (i: Issue) => StatusVerdict(i, m) }

  function Append(lists: Lists, key: string, v: Verdict): Lists {
    match v
    case Match => lists.(matching := lists.matching + [key], evaluated := lists.evaluated + [key])
    case NoMatch => lists.(evaluated := lists.evaluated + [key])
    case Missing(s, t, p) =>
      lists.(missingStatus := if s then lists.missingStatus + [key] else lists.missingStatus,
             missingType := if t then lists.missingType + [key] else lists.missingType,
             missingSeverity := if p then lists.missingSeverity + [key] else lists.missingSeverity,
             missing := lists.missing + [key])
  }

  lemma AppendedLists(issues: seq<Issue>, i: nat, verdict: Issue -> Verdict)
    requires i < |issues|
    ensures ListsOf(issues[..i + 1], verdict) == Append(ListsOf(issues[..i], verdict), issues[i].key, verdict(issues[i]))
  {
    var longer := issues[..i + 1];
    assert longer[..|longer| - 1] == issues[..i] && longer[|longer| - 1] == issues[i];
  }

  datatype Status = Computed | Partial | NotComputed

  /** A metric: how many issues are known to match, and which ones could not be decided. */
  datatype Metric = Metric(value: Option<nat>, status: Status, lists: Lists)

  function MetricOf(lists: Lists): Metric {
    Metric(Some(|lists.matching|), if lists.missing != [] then Partial else Computed, lists)
  }

  const NO_LISTS := Lists([], [], [], [], [], [])

  datatype ClassificationMetrics = ClassificationMetrics(openBlockers: Metric, openHighBugs: Metric, completed: Metric,
                                                         scopeCompletedPct: Option<real>)

  /** `_evaluate_classification_metrics`: one pass over the issues fills every list. */
  method EvaluateClassificationMetrics(issues: seq<Issue>, m: Mapper) returns (r: ClassificationMetrics)
    requires m.NoBlanks()
    ensures issues == [] ==>
              r == ClassificationMetrics(Metric(None, NotComputed, NO_LISTS), Metric(None, NotComputed, NO_LISTS),
                                         Metric(None, NotComputed, NO_LISTS), None)
    ensures issues != [] ==>
              && r.openBlockers == MetricOf(ListsOf(issues, Blockers(m)))
              && r.openHighBugs == MetricOf(ListsOf(issues, HighBugs(m)))
              && r.completed == MetricOf(ListsOf(issues, Completed(m)))
              && (r.scopeCompletedPct.Some? <==> r.completed.status == Computed)
              && (r.scopeCompletedPct.Some? ==>
                    && r.completed.value.value <= |issues|
                    && r.scopeCompletedPct.value == Percentage(r.completed.value.value, |issues|))
  {
    if issues == [] {
      var none := Metric(None, NotComputed, NO_LISTS);
      return ClassificationMetrics(none, none, none, None);
    }
    var blockers, bugs, statuses := NO_LISTS, NO_LISTS, NO_LISTS;
    for i := 0 to |issues|
      invariant blockers == ListsOf(issues[..i], Blockers(m))
      invariant bugs == ListsOf(issues[..i], HighBugs(m))
      invariant statuses == ListsOf(issues[..i], Completed(m))
    {
      AppendedLists(issues, i, Blockers(m));
      AppendedLists(issues, i, HighBugs(m));
      AppendedLists(issues, i, Completed(m));
      statuses := AppendStatus(statuses, issues[i], m);
      blockers := AppendBlocker(blockers, issues[i], m);
      bugs := AppendHighBug(bugs, issues[i], m);
    }
    assert issues[..|issues|] == issues;
    KeysAreSome(issues, Matches(Completed(m)));
    r := ClassificationMetrics(
      MetricOf(blockers), MetricOf(bugs), MetricOf(statuses),
      if statuses.missing != [] then None
      else Some(Percentage(|statuses.matching|, |issues|)));
  }

  method AppendStatus(lists: Lists, issue: Issue, m: Mapper) returns (r: Lists)
    ensures r == Append(lists, issue.key, StatusVerdict(issue, m))
  {
    r := lists;
    if issue.status != "" {
      r := r.(evaluated := r.evaluated + [issue.key]);
      if issue.status in m.done {
        r := r.(matching := r.matching + [issue.key]);
      }
    } else {
      r := r.(missingStatus := r.missingStatus + [issue.key], missing := r.missing + [issue.key]);
    }
  }

  method AppendBlocker(lists: Lists, issue: Issue, m: Mapper) returns (r: Lists)
    ensures r == Append(lists, issue.key, BlockerVerdict(issue, m))
  {
    r := lists;
    if issue.status == "" {
      r := r.(missingStatus := r.missingStatus + [issue.key], missing := r.missing + [issue.key]);
    } else if issue.blockerFlag.Some? {
      r := r.(evaluated := r.evaluated + [issue.key]);
      if m.ClassifyBlocker(issue) {
        r := r.(matching := r.matching + [issue.key]);
      }
    } else if issue.status in m.done {
      r := r.(evaluated := r.evaluated + [issue.key]);
    } else {
      var knownFallbackMatch := m.ClassifyBlocker(issue);
      var missingType := m.blockerTypes != {} && issue.issueType == "";
      var missingSeverity := m.blockerSeverities != {} && issue.severity == "";
      if knownFallbackMatch {
        r := r.(evaluated := r.evaluated + [issue.key], matching := r.matching + [issue.key]);
      } else if missingType || missingSeverity {
        if missingType {
          r := r.(missingType := r.missingType + [issue.key]);
        }
        if missingSeverity {
          r := r.(missingSeverity := r.missingSeverity + [issue.key]);
        }
        r := r.(missing := r.missing + [issue.key]);
      } else {
        r := r.(evaluated := r.evaluated + [issue.key]);
      }
    }
  }

  method AppendHighBug(lists: Lists, issue: Issue, m: Mapper) returns (r: Lists)
    ensures r == Append(lists, issue.key, HighBugVerdict(issue, m))
  {
    r := lists;
    if issue.issueType == "" {
      r := r.(missingType := r.missingType + [issue.key], missing := r.missing + [issue.key]);
    } else if issue.issueType !in m.bug {
      r := r.(evaluated := r.evaluated + [issue.key]);
    } else if issue.severity == "" {
      r := r.(missingSeverity := r.missingSeverity + [issue.key], missing := r.missing + [issue.key]);
    } else if issue.severity !in m.high {
      r := r.(evaluated := r.evaluated + [issue.key]);
    } else if issue.status == "" {
      r := r.(missingStatus := r.missingStatus + [issue.key], missing := r.missing + [issue.key]);
    } else {
      r := r.(evaluated := r.evaluated + [issue.key]);
      if issue.status !in m.done {
        r := r.(matching := r.matching + [issue.key]);
      }
    }
  }

  // ---------------------------------------------------------------------------------------
  // What the lists hold

  /** The places of the issues that satisfy `p`. */
  function PlacesWhere(issues: seq<Issue>, p: Issue -> bool): set<nat> {
    set k: nat | k < |issues| && p(issues[k])
  }

  /** The list has the keys of those issues, each as often as it stands there. */
  lemma {:induction false} KeysOfPlaces(issues: seq<Issue>, p: Issue -> bool)
    ensures |KeysWhere(issues, p)| == |PlacesWhere(issues, p)|
    ensures forall x :: x in KeysWhere(issues, p) <==> exists k :: 0 <= k < |issues| && issues[k].key == x && p(issues[k])
  {
    if issues != [] {
      var n := |issues| - 1;
      var front := issues[..n];
      KeysOfPlaces(front, p);
      assert forall k :: 0 <= k < n ==> front[k] == issues[k];
      var before := PlacesWhere(front, p);
      assert PlacesWhere(issues, p) == if p(issues[n]) then before + {n} else before;
    }
  }

  /** Open blockers: a ticket with a status that is not done, and the flag or, without one, a matching text. */
  lemma ListedBlockers(issues: seq<Issue>, m: Mapper, x: string)
    ensures x in ListsOf(issues, Blockers(m)).matching <==>
              exists k :: (0 <= k < |issues| && issues[k].key == x && issues[k].status != "" && issues[k].status !in m.done
                           && (issues[k].blockerFlag == Some(true)
                               || (issues[k].blockerFlag == None
                                   && (issues[k].issueType in m.blockerTypes || issues[k].severity in m.blockerSeverities
                                       || issues[k].status in m.blocked))))
  {
    KeysOfPlaces(issues, Matches(Blockers(m)));
  }

  /** A ticket is listed as missing only when it lacks its status or a text that could still decide it. */
  lemma UndecidedBlockers(issues: seq<Issue>, m: Mapper, x: string)
    ensures x in ListsOf(issues, Blockers(m)).missing <==>
              exists k :: (0 <= k < |issues| && issues[k].key == x
                           && (issues[k].status == ""
                               || (issues[k].blockerFlag == None && issues[k].status !in m.done + m.blocked
                                   && issues[k].issueType !in m.blockerTypes && issues[k].severity !in m.blockerSeverities
                                   && ((m.blockerTypes != {} && issues[k].issueType == "")
                                       || (m.blockerSeverities != {} && issues[k].severity == "")))))
  {
    KeysOfPlaces(issues, Lacks(Blockers(m)));
  }

  /** High-severity bugs: all three texts are there and match, and the status is not done. */
  lemma HighBugListsAreRight(issues: seq<Issue>, m: Mapper, x: string)
    requires m.NoBlanks()
    ensures x in ListsOf(issues, HighBugs(m)).matching <==>
              exists k :: (0 <= k < |issues| && issues[k].key == x && issues[k].issueType in m.bug
                           && issues[k].severity in m.high && issues[k].status != "" && issues[k].status !in m.done)
    ensures x in ListsOf(issues, HighBugs(m)).missing <==>
              exists k :: (0 <= k < |issues| && issues[k].key == x
                           && (issues[k].issueType == "" || (issues[k].issueType in m.bug && issues[k].severity == "")
                               || (issues[k].issueType in m.bug && issues[k].severity in m.high && issues[k].status == "")))
  {
    KeysOfPlaces(issues, Matches(HighBugs(m)));
    KeysOfPlaces(issues, Lacks(HighBugs(m)));
  }

  lemma CompletedListsAreRight(issues: seq<Issue>, m: Mapper, x: string)
    requires m.NoBlanks()
    ensures x in ListsOf(issues, Completed(m)).matching <==>
              exists k :: (0 <= k < |issues| && issues[k].key == x && issues[k].status in m.done)
    ensures x in ListsOf(issues, Completed(m)).missing <==>
              exists k :: (0 <= k < |issues| && issues[k].key == x && issues[k].status == "")
  {
    KeysOfPlaces(issues, Matches(Completed(m)));
    KeysOfPlaces(issues, Lacks(Completed(m)));
  }

  /** Every ticket is evaluated or missing, and a match is evaluated. */
  lemma {:induction false} EvaluatedOrMissing(issues: seq<Issue>, verdict: Issue -> Verdict)
    ensures |ListsOf(issues, verdict).evaluated| + |ListsOf(issues, verdict).missing| == |issues|
    ensures forall x :: x in ListsOf(issues, verdict).matching ==> x in ListsOf(issues, verdict).evaluated
    ensures forall i :: i in issues ==> i.key in ListsOf(issues, verdict).evaluated + ListsOf(issues, verdict).missing
  {
    if issues != [] {
      var n := |issues| - 1;
      EvaluatedOrMissing(issues[..n], verdict);
      assert issues[..n + 1] == issues;
      AppendedLists(issues, n, verdict);
    }
  }

  // ---------------------------------------------------------------------------------------
  // Completions of missing data

  predicate Fills(before: string, after: string) { before != "" ==> after == before }

  /** `c` is `i` with any missing texts filled in at will; the blocker flag is not a text. */
  ghost predicate Completes(i: Issue, c: Issue) {
    && c.key == i.key && c.blockerFlag == i.blockerFlag && c.points == i.points
    && Fills(i.status, c.status) && Fills(i.issueType, c.issueType) && Fills(i.severity, c.severity)
  }

  ghost predicate AllComplete(issues: seq<Issue>, completion: seq<Issue>) {
    |completion| == |issues| && forall k :: 0 <= k < |issues| ==> Completes(issues[k], completion[k])
  }

  /** An evaluator whose verdicts hold in every completion. */
  ghost predicate SoundVerdict(verdict: Issue -> Verdict, truth: Issue -> bool) {
    forall i, c :: Completes(i, c) ==> (verdict(i).Match? ==> truth(c)) && (verdict(i).NoMatch? ==> !truth(c))
  }

  function IsBlocker(m: Mapper): Issue -> bool { (i: Issue) => m.ClassifyBlocker(i) }
  function IsHighBug(m: Mapper): Issue -> bool { (i: Issue) => m.IsHighSeverityBug(i) }
  function IsDone(m: Mapper): Issue -> bool { (i: Issue) => m.IsCompleted(i) }

  lemma VerdictsAreSound(m: Mapper)
    requires m.NoBlanks()
    ensures SoundVerdict(Blockers(m), IsBlocker(m))
    ensures SoundVerdict(HighBugs(m), IsHighBug(m))
    ensures SoundVerdict(Completed(m), IsDone(m))
  {}

  /** Confirmed minimum, for every completion: the matching keys are matches, and every match is a
      matching key or a key listed as missing. */
  lemma {:induction false} ConfirmedMinimum(issues: seq<Issue>, completion: seq<Issue>, verdict: Issue -> Verdict, truth: Issue -> bool)
    requires SoundVerdict(verdict, truth) && AllComplete(issues, completion)
    ensures var lists := ListsOf(issues, verdict);
            var matches := KeysWhere(completion, truth);
            && (forall k :: k in lists.matching ==> k in matches)
            && (forall k :: k in matches ==> k in lists.matching || k in lists.missing)
            && |lists.matching| <= |matches| <= |lists.matching| + |lists.missing|
            && (lists.missing == [] ==> matches == lists.matching)
  {
    if issues != [] {
      var n := |issues| - 1;
      ConfirmedMinimum(issues[..n], completion[..n], verdict, truth);
      assert issues[..n + 1] == issues;
      AppendedLists(issues, n, verdict);
      assert Completes(issues[n], completion[n]);
    }
  }

  // ---------------------------------------------------------------------------------------
  // How tight the claim is

  ghost predicate Full(c: Issue) { c.status != "" && c.issueType != "" && c.severity != "" }

  ghost predicate FullCompletion(issues: seq<Issue>, completion: seq<Issue>) {
    AllComplete(issues, completion) && forall k :: 0 <= k < |completion| ==> Full(completion[k])
  }

  lemma {:induction false} FreshText(texts: set<string>) returns (t: string)
    ensures t != "" && t !in texts
    ensures forall u :: u in texts ==> |u| < |t|
  {
    if texts == {} {
      t := "x";
    } else {
      var u :| u in texts;
      var shorter := FreshText(texts - {u});
      t := shorter + u;
      assert forall v :: v in texts ==> v == u || v in texts - {u};
    }
  }

  /** Every issue has a completion with exactly this verdict. */
  ghost predicate Reachable(truth: Issue -> bool, outcome: Issue -> bool) {
    forall i :: Attains(i, truth, outcome(i))
  }

  ghost predicate Attains(i: Issue, truth: Issue -> bool, outcome: bool) {
    exists c :: Completes(i, c) && Full(c) && truth(c) == outcome
  }

  lemma {:induction false} Realise(issues: seq<Issue>, truth: Issue -> bool, outcome: Issue -> bool)
    returns (completion: seq<Issue>)
    requires Reachable(truth, outcome)
    ensures FullCompletion(issues, completion)
    ensures KeysWhere(completion, truth) == KeysWhere(issues, outcome)
  {
    if issues == [] {
      completion := [];
    } else {
      var n := |issues| - 1;
      var front := Realise(issues[..n], truth, outcome);
      assert Attains(issues[n], truth, outcome(issues[n]));
      var c :| Completes(issues[n], c) && Full(c) && truth(c) == outcome(issues[n]);
      completion := front + [c];
      assert completion[..n] == front;
    }
  }

  /** Which issues some completion turns into a match; a caller can test this before reporting. */
  predicate CouldBlock(i: Issue, m: Mapper) {
    && i.status !in m.done
    && (match i.blockerFlag
        case Some(flag) => flag
        case None =>
          || i.issueType in m.blockerTypes || (i.issueType == "" && m.blockerTypes != {})
          || i.severity in m.blockerSeverities || (i.severity == "" && m.blockerSeverities != {})
          || i.status in m.blocked || (i.status == "" && !(m.blocked <= m.done)))
  }

  predicate CouldBeHighBug(i: Issue, m: Mapper) {
    && (i.issueType in m.bug || (i.issueType == "" && m.bug != {}))
    && (i.severity in m.high || (i.severity == "" && m.high != {}))
    && i.status !in m.done
  }

  predicate CouldBeDone(i: Issue, m: Mapper) { i.status == "" || i.status in m.done }

  function Fill(text: string, with: string): string { if text == "" then with else text }

  function Filled(i: Issue, status: string, issueType: string, severity: string): Issue {
    i.(status := Fill(i.status, status), issueType := Fill(i.issueType, issueType), severity := Fill(i.severity, severity))
  }

  /** A text of the set if there is one, otherwise the given text. */
  ghost function OneOf(texts: set<string>, otherwise: string): (t: string)
    ensures if texts == {} then t == otherwise else t in texts
  {
    if texts == {} then otherwise else var t :| t in texts; t
  }

  lemma BlockersReach(i: Issue, m: Mapper, most: bool) returns (c: Issue)
    requires m.Valid()
    ensures Completes(i, c) && Full(c)
    ensures m.ClassifyBlocker(c) == if most then CouldBlock(i, m) else BlockerVerdict(i, m).Match?
  {
    assert forall s :: s in m.blocked ==> s in m.done || s in m.blocked - m.done;
    var other := FreshText(m.done + m.blocked + m.blockerTypes + m.blockerSeverities);
    if most {
      c := Filled(i, OneOf(m.blocked - m.done, other), OneOf(m.blockerTypes, other), OneOf(m.blockerSeverities, other));
    } else {
      c := Filled(i, OneOf(m.done, other), other, other);
    }
  }

  lemma HighBugsReach(i: Issue, m: Mapper, most: bool) returns (c: Issue)
    requires m.Valid()
    ensures Completes(i, c) && Full(c)
    ensures m.IsHighSeverityBug(c) == if most then CouldBeHighBug(i, m) else HighBugVerdict(i, m).Match?
  {
    var other := FreshText(m.done + m.bug + m.high);
    if most {
      c := Filled(i, other, OneOf(m.bug, other), OneOf(m.high, other));
    } else {
      c := Filled(i, OneOf(m.done, other), other, other);
    }
  }

  lemma CompletedReach(i: Issue, m: Mapper, most: bool) returns (c: Issue)
    requires m.Valid()
    ensures Completes(i, c) && Full(c)
    ensures m.IsCompleted(c) == if most then CouldBeDone(i, m) else StatusVerdict(i, m).Match?
  {
    var other := FreshText(m.done);
    c := Filled(i, if most then OneOf(m.done, other) else other, other, other);
  }

  function MayBlock(m: Mapper): Issue -> bool { (i: Issue) => CouldBlock(i, m) }
  function MayBeHighBug(m: Mapper): Issue -> bool { (i: Issue) => CouldBeHighBug(i, m) }
  function MayBeDone(m: Mapper): Issue -> bool { (i: Issue) => CouldBeDone(i, m) }

  lemma BlockersSpan(m: Mapper)
    requires m.Valid()
    ensures Reachable(IsBlocker(m), Matches(Blockers(m))) && Reachable(IsBlocker(m), MayBlock(m))
  {
    var truth, least, most := IsBlocker(m), Matches(Blockers(m)), MayBlock(m);
    forall i: Issue ensures Attains(i, truth, least(i)) {
      var c := BlockersReach(i, m, false);
    }
    forall i: Issue ensures Attains(i, truth, most(i)) {
      var c := BlockersReach(i, m, true);
    }
  }

  lemma HighBugsSpan(m: Mapper)
    requires m.Valid()
    ensures Reachable(IsHighBug(m), Matches(HighBugs(m))) && Reachable(IsHighBug(m), MayBeHighBug(m))
  {
    var truth, least, most := IsHighBug(m), Matches(HighBugs(m)), MayBeHighBug(m);
    forall i: Issue ensures Attains(i, truth, least(i)) {
      var c := HighBugsReach(i, m, false);
    }
    forall i: Issue ensures Attains(i, truth, most(i)) {
      var c := HighBugsReach(i, m, true);
    }
  }

  lemma CompletedSpans(m: Mapper)
    requires m.Valid()
    ensures Reachable(IsDone(m), Matches(Completed(m))) && Reachable(IsDone(m), MayBeDone(m))
  {
    var truth, least, most := IsDone(m), Matches(Completed(m)), MayBeDone(m);
    forall i: Issue ensures Attains(i, truth, least(i)) {
      var c := CompletedReach(i, m, false);
    }
    forall i: Issue ensures Attains(i, truth, most(i)) {
      var c := CompletedReach(i, m, true);
    }
  }

  ghost predicate Certain(issues: seq<Issue>, truth: Issue -> bool, value: nat) {
    forall completion :: FullCompletion(issues, completion) ==> |KeysWhere(completion, truth)| == value
  }

  /** What an evaluator promises: the value is the least any completion gives, and `could` decides
      which undecided issues can still become matches. */
  ghost predicate Exact(verdict: Issue -> Verdict, truth: Issue -> bool, could: Issue -> bool) {
    && SoundVerdict(verdict, truth)
    && Reachable(truth, Matches(verdict)) && Reachable(truth, could)
    && Bounds(truth, could)
  }

  ghost predicate Bounds(truth: Issue -> bool, could: Issue -> bool) {
    forall i, c :: Completes(i, c) && truth(c) ==> could(i)
  }

  lemma EvaluatorsAreExact(m: Mapper)
    requires m.Valid()
    ensures Exact(Blockers(m), IsBlocker(m), MayBlock(m))
    ensures Exact(HighBugs(m), IsHighBug(m), MayBeHighBug(m))
    ensures Exact(Completed(m), IsDone(m), MayBeDone(m))
  {
    VerdictsAreSound(m);
    BlockersSpan(m);
    HighBugsSpan(m);
    CompletedSpans(m);
  }

  lemma {:induction false} KeysGrow(issues: seq<Issue>, less: Issue -> bool, more: Issue -> bool)
    requires forall i :: less(i) ==> more(i)
    ensures |KeysWhere(issues, less)| <= |KeysWhere(issues, more)|
    ensures |KeysWhere(issues, less)| == |KeysWhere(issues, more)| <==> forall i :: i in issues && more(i) ==> less(i)
  {
    if issues != [] {
      var n := |issues| - 1;
      KeysGrow(issues[..n], less, more);
      assert issues == issues[..n] + [issues[n]];
    }
  }

  lemma {:induction false} AtMost(issues: seq<Issue>, completion: seq<Issue>, truth: Issue -> bool, could: Issue -> bool)
    requires Bounds(truth, could) && AllComplete(issues, completion)
    ensures |KeysWhere(completion, truth)| <= |KeysWhere(issues, could)|
  {
    if issues != [] {
      var n := |issues| - 1;
      AtMost(issues[..n], completion[..n], truth, could);
      assert Completes(issues[n], completion[n]);
    }
  }

  /** The reported value is attained, so it is the exact minimum; and it is the only possible value
      just when every issue that could match already does. */
  lemma CertainIff(issues: seq<Issue>, verdict: Issue -> Verdict, truth: Issue -> bool, could: Issue -> bool)
    requires Exact(verdict, truth, could)
    ensures exists completion :: FullCompletion(issues, completion)
              && KeysWhere(completion, truth) == ListsOf(issues, verdict).matching
    ensures Certain(issues, truth, |ListsOf(issues, verdict).matching|)
            <==> forall i :: i in issues && could(i) ==> verdict(i).Match?
    ensures ListsOf(issues, verdict).missing == [] ==> Certain(issues, truth, |ListsOf(issues, verdict).matching|)
  {
    var low := Realise(issues, truth, Matches(verdict));
    var high := Realise(issues, truth, could);
    KeysGrow(issues, Matches(verdict), could);
    forall completion | FullCompletion(issues, completion)
      ensures ListsOf(issues, verdict).missing == [] ==> |KeysWhere(completion, truth)| == |ListsOf(issues, verdict).matching|
      ensures |ListsOf(issues, verdict).matching| <= |KeysWhere(completion, truth)| <= |KeysWhere(issues, could)|
    {
      ConfirmedMinimum(issues, completion, verdict, truth);
      AtMost(issues, completion, truth, could);
    }
  }

  /** PARTIAL can be over-cautious: a ticket whose flag says "not a blocker" is listed as missing when
      it has no status, although no completion makes it a blocker. */
  lemma PartialYetCertain(m: Mapper) returns (issues: seq<Issue>)
    requires m.Valid()
    ensures MetricOf(ListsOf(issues, Blockers(m))).status == Partial
    ensures Certain(issues, IsBlocker(m), 0)
  {
    var issue := Issue("A-1", "", "", "", Some(false), None);
    issues := [issue];
    EvaluatorsAreExact(m);
    CertainIff(issues, Blockers(m), IsBlocker(m), MayBlock(m));
    AppendedLists(issues, 0, Blockers(m));
    assert issues[..1] == issues;
    assert !CouldBlock(issue, m) && BlockerVerdict(issue, m) == Missing(true, false, false);
  }

  /** `scope_completed_pct` of `k` completed tickets out of `n`. */
  function Percentage(k: nat, n: nat): (pct: real)
    requires k <= n && 0 < n
    ensures 0.0 <= pct <= 100.0
    ensures -0.005 <= pct - 100.0 * k as real / n as real <= 0.005
  {
    var share := 100.0 * k as real / n as real;
    assert 0.0 <= share <= 100.0 by {
      assert k as real <= n as real;
      assert share * n as real == 100.0 * k as real;
    }
    Round2InRange(share);
    Round2(share)
  }

  /** A reported completion percentage is the percentage in every completion. */
  lemma CompletedPctIsCertain(issues: seq<Issue>, completion: seq<Issue>, m: Mapper)
    requires m.NoBlanks() && issues != [] && AllComplete(issues, completion)
    requires MetricOf(ListsOf(issues, Completed(m))).status == Computed
    ensures var k := |ListsOf(issues, Completed(m)).matching|;
            k <= |issues| && k == |KeysWhere(completion, IsDone(m))|
            && Percentage(k, |issues|) == Percentage(|KeysWhere(completion, IsDone(m))|, |completion|)
  {
    VerdictsAreSound(m);
    ConfirmedMinimum(issues, completion, Completed(m), IsDone(m));
    KeysAreSome(completion, IsDone(m));
  }

  lemma {:induction false} KeysAreSome(issues: seq<Issue>, p: Issue -> bool)
    ensures |KeysWhere(issues, p)| <= |issues|
  {
    if issues != [] {
      KeysAreSome(issues[..|issues| - 1], p);
    }
  }

  // ---------------------------------------------------------------------------------------
  // Sprint work state

  function InProgressVerdict(issue: Issue, m: Mapper): Verdict {
    if issue.status == "" then Missing(true, false, false) else if issue.status in m.inProgress then Match else NoMatch
  }

  function NotStartedVerdict(issue: Issue, m: Mapper): Verdict {
    if issue.status == "" then Missing(true, false, false)
    else if issue.status !in m.done && issue.status !in m.inProgress then Match else NoMatch
  }

  function UnfinishedVerdict(issue: Issue, m: Mapper): Verdict {
    if issue.status == "" then Missing(true, false, false) else if issue.status !in m.done then Match else NoMatch
  }

  function InProgress(m: Mapper): Issue -> Verdict { (i: Issue) => InProgressVerdict(i, m) }
  function NotStarted(m: Mapper): Issue -> Verdict { (i: Issue) => NotStartedVerdict(i, m) }
  function Unfinished(m: Mapper): Issue -> Verdict { (i: Issue) => UnfinishedVerdict(i, m) }
  function IsInProgress(m: Mapper): Issue -> bool { (i: Issue) => i.status in m.inProgress }
  function IsNotStarted(m: Mapper): Issue -> bool { (i: Issue) => i.status !in m.done && i.status !in m.inProgress }
  function IsUnfinished(m: Mapper): Issue -> bool { (i: Issue) => i.status !in m.done }

  datatype StateMetric = NotApplicable | State(metric: Metric)

  datatype WorkState = WorkState(inProgress: StateMetric, notStarted: StateMetric, rollover: StateMetric)

  function CountResult(hasScope: bool, lists: Lists): StateMetric {
    if !hasScope then State(Metric(None, NotComputed, NO_LISTS)) else State(MetricOf(lists))
  }

  /** `evaluate_sprint_work_state_metrics`; `scope` holds the keys linked to the sprint and `issues`
      the stored issues among them. */
  function EvaluateWorkState(scope: set<string>, issues: seq<Issue>, closed: bool, m: Mapper): WorkState {
    WorkState(CountResult(scope != {}, ListsOf(issues, InProgress(m))),
              CountResult(scope != {}, ListsOf(issues, NotStarted(m))),
              if !closed then NotApplicable else CountResult(scope != {}, ListsOf(issues, Unfinished(m))))
  }

  /** A ticket with a status is in progress, not started or done by its status alone. */
  lemma WorkStateListsAreRight(issues: seq<Issue>, m: Mapper, x: string)
    requires m.NoBlanks()
    ensures x in ListsOf(issues, InProgress(m)).matching <==>
              exists k :: (0 <= k < |issues| && issues[k].key == x && issues[k].status in m.inProgress)
    ensures x in ListsOf(issues, NotStarted(m)).matching <==>
              exists k :: (0 <= k < |issues| && issues[k].key == x && issues[k].status !in m.done + m.inProgress + {""})
    ensures x in ListsOf(issues, Unfinished(m)).matching <==>
              exists k :: (0 <= k < |issues| && issues[k].key == x && issues[k].status !in m.done + {""})
  {
    KeysOfPlaces(issues, Matches(InProgress(m)));
    KeysOfPlaces(issues, Matches(NotStarted(m)));
    KeysOfPlaces(issues, Matches(Unfinished(m)));
  }

  lemma WorkStateIsSound(m: Mapper)
    requires m.NoBlanks()
    ensures SoundVerdict(InProgress(m), IsInProgress(m))
    ensures SoundVerdict(NotStarted(m), IsNotStarted(m))
    ensures SoundVerdict(Unfinished(m), IsUnfinished(m))
  {}

  /** Done, in progress, not started and without status split the scope. */
  lemma {:induction false} WorkStatesSplitTheScope(issues: seq<Issue>, m: Mapper)
    requires m.Valid()
    ensures |ListsOf(issues, Completed(m)).matching| + |ListsOf(issues, InProgress(m)).matching|
            + |ListsOf(issues, NotStarted(m)).matching| + |ListsOf(issues, Completed(m)).missing| == |issues|
  {
    if issues != [] {
      var n := |issues| - 1;
      WorkStatesSplitTheScope(issues[..n], m);
      assert issues[..n + 1] == issues;
      AppendedLists(issues, n, Completed(m));
      AppendedLists(issues, n, InProgress(m));
      AppendedLists(issues, n, NotStarted(m));
    }
  }

  /** Roll-over is what is in progress and what is not started. */
  lemma {:induction false} RolloverIsUnfinished(issues: seq<Issue>, m: Mapper)
    requires m.Valid()
    ensures |ListsOf(issues, Unfinished(m)).matching|
            == |ListsOf(issues, InProgress(m)).matching| + |ListsOf(issues, NotStarted(m)).matching|
  {
    if issues != [] {
      var n := |issues| - 1;
      RolloverIsUnfinished(issues[..n], m);
      assert issues[..n + 1] == issues;
      AppendedLists(issues, n, InProgress(m));
      AppendedLists(issues, n, NotStarted(m));
      AppendedLists(issues, n, Unfinished(m));
    }
  }

  /** Every sprint count is a confirmed minimum, and a COMPUTED one holds in every completion. Roll-over
      is reported for closed sprints only. */
  lemma WorkStateHolds(scope: set<string>, issues: seq<Issue>, completion: seq<Issue>, closed: bool, m: Mapper)
    requires m.Valid() && scope != {} && AllComplete(issues, completion)
    ensures var r := EvaluateWorkState(scope, issues, closed, m);
            && (r.rollover.State? <==> closed)
            && HoldsIn(r.inProgress, completion, IsInProgress(m))
            && HoldsIn(r.notStarted, completion, IsNotStarted(m))
            && HoldsIn(r.rollover, completion, IsUnfinished(m))
  {
    WorkStateIsSound(m);
    ConfirmedMinimum(issues, completion, InProgress(m), IsInProgress(m));
    ConfirmedMinimum(issues, completion, NotStarted(m), IsNotStarted(m));
    ConfirmedMinimum(issues, completion, Unfinished(m), IsUnfinished(m));
  }

  ghost predicate HoldsIn(r: StateMetric, completion: seq<Issue>, truth: Issue -> bool) {
    r.State? ==>
      && r.metric.value.Some?
      && (forall k :: k in r.metric.lists.matching ==> k in KeysWhere(completion, truth))
      && r.metric.value.value <= |KeysWhere(completion, truth)|
      && (r.metric.status == Computed ==> r.metric.value.value == |KeysWhere(completion, truth)|)
  }
}
