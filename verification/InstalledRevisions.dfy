/** The registry that is installed: the revisions a database without a recorded revision may be at, and the
    markers of later ones. Each name is given the place of the one shape that introduces it, read off the
    lengths of the table and column names and, where these agree, a letter; so no two shapes share a name. */
module InstalledRevisions {
  import opened SchemaRevision

  const REVISION_1 := Shape("20260407_0001", {"issue_history", "issues", "metric_snapshots", "release_signals", "releases"},
    map[])

  const REVISION_2 := Shape("20260424_0002", {"issue_sprints", "sprint_metric_snapshots", "sprints"},
    map[])

  const REVISION_3 := Shape("20260425_0003", {},
    map["metric_snapshots" := {"open_blocker_issue_keys", "open_high_severity_bug_issue_keys"},
        "sprint_metric_snapshots" := {"open_blocker_issue_keys", "open_high_severity_bug_issue_keys"}])

  const REVISION_4 := Shape("20260427_0004", {},
    map["issues" := {"story_points"},
        "sprint_metric_snapshots" := {"delivery_confidence_components", "delivery_confidence_inputs", "delivery_confidence_score"}])

  const REVISION_5 := Shape("20260428_0005", {},
    map["sprint_metric_snapshots" := {"bugs_created_during_sprint", "bugs_created_during_sprint_issue_keys"}])

  const REVISION_6 := Shape("20260429_0006", {},
    map["metric_snapshots" := {"completed_tickets"}])

  const REVISION_7 := Shape("20260430_0007", {},
    map["metric_snapshots" := {"scope_added_7d_count", "scope_removed_7d_count"}])

  const REVISION_8 := Shape("20260716_0008", {},
    map["sprint_metric_snapshots" := {"delivery_confidence_explanations", "delivery_confidence_status", "story_point_coverage_pct",
           "story_point_pointed_count", "story_point_total_count", "story_point_unpointed_count",
           "story_point_unpointed_issue_keys"}])

  const REVISION_9 := Shape("20260716_0009", {},
    map["issues" := {"jira_blocker_flag", "jira_changelog_complete", "jira_created_at", "jira_updated_at"},
        "sprint_metric_snapshots" := {"bugs_created_during_sprint_missing_created_at_issue_keys", "bugs_created_during_sprint_status"}])

  const REVISION_10 := Shape("20260716_0010", {},
    map["metric_snapshots" := {"calculation_provenance", "confidence_score", "confidence_status", "ruleset_version"},
        "sprint_metric_snapshots" := {"calculation_provenance", "ruleset_version"},
        "release_signals" := {"calculated_at", "confidence_score", "metric_snapshot_id", "readiness_evidence",
           "reason_details", "release_gates", "risk_aging_evidence", "ruleset_version"}])

  const MARKER_11 := Shape("20260716_0011", {"operational_status"},
    map[])

  const MARKER_17 := Shape("20260720_0017", {},
    map["sprint_metric_snapshots" := {"workload_concentration_pct", "workload_distribution_evidence",
           "workload_distribution_explanations", "workload_distribution_status"}])

  const MARKER_18 := Shape("20260724_0018", {"jira_project_sync_state"},
    map[])

  const MARKER_19 := Shape("20260724_0019", {},
    map["jira_project_sync_state" := {"current_sync_status", "last_failed_sync_at", "last_failure_summary", "latest_sync_result"}])

  const MARKER_20 := Shape("20260726_0020", {},
    map["sprint_metric_snapshots" := {"scope_creep_evidence", "scope_creep_explanations", "scope_creep_pct", "scope_creep_status"}])

  /** `LEGACY_REVISION_SHAPES`. */
  const LEGACY_SHAPES := [REVISION_1, REVISION_2, REVISION_3, REVISION_4, REVISION_5,
                          REVISION_6, REVISION_7, REVISION_8, REVISION_9, REVISION_10]

  /** `POST_LEGACY_REVISION_MARKERS`. */
  const LATER_MARKERS := [MARKER_11, MARKER_17, MARKER_18, MARKER_19, MARKER_20]

  const LATER := 10

  predicate LetterAt(s: string, i: nat, c: char) { i < |s| && s[i] == c }

  /** The place of the shape that introduces a name. */
  function Place(n: Name): nat {
    match n
    case Table(t) =>
      if |t| == 13 then (if LetterAt(t, 6, 'h') then 0 else 1)
      else if |t| == 23 then (if LetterAt(t, 0, 's') then 1 else LATER)
      else if |t| == 7 then 1
      else if |t| == 18 then LATER
      else 0
    case Column(t, c) =>
      if |t| == 16 then PlaceInMetrics(c)
      else if |t| == 6 then (if |c| == 12 then 3 else 8)
      else if |t| == 15 then 9
      else if LetterAt(t, 0, 's') then PlaceInSprintMetrics(c)
      else LATER
  }

  function PlaceInMetrics(c: string): nat {
    if |c| == 17 then (if LetterAt(c, 2, 'm') then 5 else 9)
    else if |c| == 20 then 6
    else if |c| == 22 then (if LetterAt(c, 0, 's') then 6 else 9)
    else if |c| == 23 || |c| == 33 then 2
    else 9
  }

  function PlaceInSprintMetrics(c: string): nat {
    if |c| == 15 then (if LetterAt(c, 0, 'r') then 9 else LATER)
    else if |c| == 22 then 9
    else if |c| == 23 then (if LetterAt(c, 0, 'o') then 2 else 7)
    else if |c| == 24 then (if LetterAt(c, 1, 't') then 7 else LATER)
    else if |c| == 25 then (if LetterAt(c, 0, 'd') then 3 else 7)
    else if |c| == 26 then
      if LetterAt(c, 0, 'b') then 4
      else if LetterAt(c, 0, 'w') then LATER
      else if LetterAt(c, 20, 'i') then 3
      else 7
    else if |c| == 27 || |c| == 32 then 7
    else if |c| == 30 then (if LetterAt(c, 0, 'd') then 3 else LATER)
    else if |c| == 33 then (if LetterAt(c, 0, 'o') then 2 else 8)
    else if |c| == 37 then 4
    else if |c| == 56 then 8
    else LATER
  }

  /** The tables that get columns later. */
  const GROWING := {Table("issues"), Table("metric_snapshots"), Table("release_signals"), Table("sprint_metric_snapshots")}

  /** Every name of the shape has that place. */
  ghost predicate AllAt(shape: Shape, k: nat) {
    forall n :: n in Required(shape) ==> Place(n) == k
  }

  lemma Places1()
    ensures AllAt(REVISION_1, 0)
  {}

  lemma Places2()
    ensures AllAt(REVISION_2, 1)
  {}

  lemma Places3()
    ensures AllAt(REVISION_3, 2)
  {}

  lemma Places4()
    ensures AllAt(REVISION_4, 3)
  {}

  lemma Places5()
    ensures AllAt(REVISION_5, 4)
  {}

  lemma Places6()
    ensures AllAt(REVISION_6, 5)
  {}

  lemma Places7()
    ensures AllAt(REVISION_7, 6)
  {}

  lemma Places8()
    ensures AllAt(REVISION_8, 7)
  {}

  lemma Places9()
    ensures AllAt(REVISION_9, 8)
  {}

  lemma Places10()
    ensures AllAt(REVISION_10, 9)
  {}

  lemma Places11()
    ensures AllAt(MARKER_11, LATER)
  {}

  lemma Places17()
    ensures AllAt(MARKER_17, LATER)
  {}

  lemma Places18()
    ensures AllAt(MARKER_18, LATER)
  {}

  lemma Places19()
    ensures AllAt(MARKER_19, LATER)
  {}

  lemma Places20()
    ensures AllAt(MARKER_20, LATER)
  {}

  lemma ShapesInPlace(i: nat)
    requires i < |LEGACY_SHAPES|
    ensures AllAt(LEGACY_SHAPES[i], i)
  {
    if i == 0 {
      Places1();
    } else if i == 1 {
      Places2();
    } else if i == 2 {
      Places3();
    } else if i == 3 {
      Places4();
    } else if i == 4 {
      Places5();
    } else if i == 5 {
      Places6();
    } else if i == 6 {
      Places7();
    } else if i == 7 {
      Places8();
    } else if i == 8 {
      Places9();
    } else {
      Places10();
    }
  }

  /** A shape that names columns of growing tables, or else creates tables. */
  predicate Grows(shape: Shape) {
    && (forall t :: t in shape.columns ==> Table(t) in GROWING && shape.columns[t] != {})
    && (shape.tables != {} || shape.columns != map[])
  }

  lemma GrowingShape(shape: Shape)
    requires Grows(shape)
    ensures Required(shape) != {} && Touched(shape) <= GROWING
  {
    if shape.tables != {} {
      var t :| t in shape.tables;
      assert Table(t) in Required(shape);
    } else {
      var t :| t in shape.columns;
      var c :| c in shape.columns[t];
      assert Column(t, c) in Required(shape);
    }
  }

  lemma ShapesGrow(i: nat)
    requires i < |LEGACY_SHAPES|
    ensures Required(LEGACY_SHAPES[i]) != {} && Touched(LEGACY_SHAPES[i]) <= GROWING
  {
    AllGrow();
    GrowingShape(LEGACY_SHAPES[i]);
  }

  lemma FirstHalfGrows()
    ensures Grows(REVISION_1) && Grows(REVISION_2) && Grows(REVISION_3) && Grows(REVISION_4) && Grows(REVISION_5)
  {
    assert "releases" in REVISION_1.tables && "sprints" in REVISION_2.tables;
    assert "metric_snapshots" in REVISION_3.columns && "issues" in REVISION_4.columns;
    assert "sprint_metric_snapshots" in REVISION_5.columns;
  }

  lemma SecondHalfGrows()
    ensures Grows(REVISION_6) && Grows(REVISION_7) && Grows(REVISION_8) && Grows(REVISION_9) && Grows(REVISION_10)
  {
    assert "metric_snapshots" in REVISION_6.columns && "metric_snapshots" in REVISION_7.columns;
    assert "sprint_metric_snapshots" in REVISION_8.columns && "issues" in REVISION_9.columns;
    assert "release_signals" in REVISION_10.columns;
  }

  lemma AllGrow()
    ensures forall i :: 0 <= i < |LEGACY_SHAPES| ==> Grows(LEGACY_SHAPES[i])
  {
    FirstHalfGrows();
    SecondHalfGrows();
  }

  lemma MarkersInPlace(m: nat)
    requires m < |LATER_MARKERS|
    ensures AllAt(LATER_MARKERS[m], LATER)
  {
    Places11();
    Places17();
    Places18();
    Places19();
    Places20();
  }

  lemma PlacesDiffer(a: Shape, b: Shape, k: nat, l: nat)
    requires AllAt(a, k) && AllAt(b, l) && k != l
    ensures Required(a) !! Required(b)
  {
    forall n | n in Required(a) ensures n !in Required(b) {
      assert Place(n) == k;
    }
  }

  lemma NamesAreNew()
    ensures NoEmptyShape(LEGACY_SHAPES) && IntroducesOnlyNewNames(LEGACY_SHAPES, LATER_MARKERS)
  {
    forall i | 0 <= i < |LEGACY_SHAPES|
      ensures Required(LEGACY_SHAPES[i]) != {} && AllAt(LEGACY_SHAPES[i], i)
    {
      ShapesGrow(i);
      ShapesInPlace(i);
    }
    forall i, j | 0 <= i < j < |LEGACY_SHAPES| ensures Required(LEGACY_SHAPES[i]) !! Required(LEGACY_SHAPES[j]) {
      PlacesDiffer(LEGACY_SHAPES[i], LEGACY_SHAPES[j], i, j);
    }
    forall i, m | 0 <= i < |LEGACY_SHAPES| && 0 <= m < |LATER_MARKERS|
      ensures Required(LEGACY_SHAPES[i]) !! Required(LATER_MARKERS[m])
    {
      MarkersInPlace(m);
      PlacesDiffer(LEGACY_SHAPES[i], LATER_MARKERS[m], i, LATER);
    }
  }

  lemma GrowingTablesAreThere(i: nat)
    requires 2 <= i < |LEGACY_SHAPES|
    ensures GROWING <= RequiredUpto(LEGACY_SHAPES, i)
  {
    RequiredUptoContains(LEGACY_SHAPES, i, 0);
    RequiredUptoContains(LEGACY_SHAPES, i, 1);
    assert GROWING <= Required(REVISION_1) + Required(REVISION_2);
  }

  lemma TablesAreKnown()
    ensures ColumnsOnKnownTables(LEGACY_SHAPES)
  {
    forall i | 0 <= i < |LEGACY_SHAPES| ensures Touched(LEGACY_SHAPES[i]) <= RequiredUpto(LEGACY_SHAPES, i) {
      if i < 2 {
        assert LEGACY_SHAPES[i].columns == map[];
      } else {
        ShapesGrow(i);
        GrowingTablesAreThere(i);
      }
    }
  }

  /** For the installed registry: the schema that the first revisions build is recognised as the last of
      them, and recognised as nothing else. */
  lemma InstalledIsInferred(k: nat)
    requires k < |LEGACY_SHAPES|
    ensures Infer(Accumulated(LEGACY_SHAPES, k), LEGACY_SHAPES, LATER_MARKERS) == Ok(LEGACY_SHAPES[k].revision)
  {
    NamesAreNew();
    TablesAreKnown();
    AccumulatedIsInferred(LEGACY_SHAPES, LATER_MARKERS, k);
  }
}
