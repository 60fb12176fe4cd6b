/** The published formula of the delivery-confidence score, in window times, points and counts. */
module DeliveryFormula {
  import opened Sequences
  import opened Rounding
  import opened Classification
  import opened DeliveryConfidence

  // ---------------------------------------------------------------------------------------
  // What goes in

  /** The share of the sprint that is over at `now`, in percent; the sprint has a start and a later end. */
  lemma ElapsedIsShare(w: Window, now: int)
    requires DurationValid(w)
    ensures w.startAt.value <= now <= w.endAt.value ==>
              TimeElapsed(w, now).value == 100.0 * (now - w.startAt.value) as real / (w.endAt.value - w.startAt.value) as real
    ensures now <= w.startAt.value ==> TimeElapsed(w, now).value == 0.0
    ensures now >= w.endAt.value ==> TimeElapsed(w, now).value == 100.0
  {
    QuotientAtLeast((now - w.startAt.value) as real, (w.endAt.value - w.startAt.value) as real);
  }

  /** Points add up: a ticket contributes its estimate if it has one, and for completed points if it is done. */
  lemma {:induction false} PointsAddUp(issues: seq<Issue>, i: Issue, m: Mapper)
    ensures Points([], All) == 0.0 && CompletedPoints([], m) == 0.0
    ensures Points(issues + [i], All) == Points(issues, All) + (if i.points.Some? && i.points.value >= 0.0 then i.points.value else 0.0)
    ensures CompletedPoints(issues + [i], m)
            == CompletedPoints(issues, m) + (if i.points.Some? && i.points.value >= 0.0 && i.status in m.done then i.points.value else 0.0)
  {
    assert (issues + [i])[..|issues|] == issues;
  }

  lemma {:induction false} SomePointsAreDone(issues: seq<Issue>, m: Mapper)
    ensures 0.0 <= CompletedPoints(issues, m) <= Points(issues, All)
  {
    if issues != [] {
      SomePointsAreDone(issues[..|issues| - 1], m);
    }
  }

  /** The points a baseline sprint completed, rounded, are added up. */
  lemma {:induction false} VelocitiesAddUp(baselines: seq<seq<Issue>>, last: seq<Issue>, m: Mapper)
    ensures Velocities([], m) == 0.0
    ensures -0.005 <= Velocities(baselines + [last], m) - Velocities(baselines, m) - CompletedPoints(last, m) <= 0.005
  {
    assert (baselines + [last])[..|baselines|] == baselines;
  }

  /** The velocity is the mean of these, rounded; there is none without a baseline sprint. */
  lemma {:induction false} VelocityIsMean(baselines: seq<seq<Issue>>, m: Mapper)
    ensures baselines == [] <==> HistoricalVelocity(baselines, m) == None
    ensures baselines != [] ==>
              -0.005 <= HistoricalVelocity(baselines, m).value - Velocities(baselines, m) / |baselines| as real <= 0.005
  {}

  // ---------------------------------------------------------------------------------------
  // What comes out

  predicate Near(x: real, y: real) { -0.005 <= x - y <= 0.005 }

  function Min(x: real, y: real): real { if x <= y then x else y }

  /** Work done against time gone: full before the start, and otherwise the completed share of the points
      over the elapsed share of the time, at most full. */
  lemma ProgressIsRight(x: Inputs)
    requires 0 < x.count && 0.0 <= x.completed <= x.committed && 0.0 <= x.elapsed <= 100.0
    ensures x.elapsed == 0.0 ==> ComponentsOf(x).progress == 100.0
    ensures x.elapsed > 0.0 && x.committed == 0.0 ==> ComponentsOf(x).progress == 100.0
    ensures x.elapsed > 0.0 && x.committed > 0.0 ==>
              Near(ComponentsOf(x).progress, Min(100.0, 100.0 * (100.0 * x.completed / x.committed) / x.elapsed))
  {
    Round2Exact(10000);
    if x.elapsed > 0.0 && x.committed > 0.0 {
      QuotientIsPositive(100.0 * x.completed, x.committed);
      QuotientIsPositive(100.0 * (100.0 * x.completed / x.committed), x.elapsed);
    } else if x.elapsed > 0.0 {
      QuotientAtLeast(100.0, x.elapsed);
    }
  }

  lemma QuotientIsPositive(a: real, b: real)
    requires a >= 0.0 && b > 0.0
    ensures a / b >= 0.0
  {}

  /** The capacity left: the velocity times the share of the sprint that is left. */
  predicate CapacityFor(w: Window, now: int, velocity: real, capacity: real)
    requires DurationValid(w)
  {
    if now <= w.startAt.value then Near(capacity, velocity)
    else if now >= w.endAt.value then capacity == 0.0
    else Near(capacity, velocity * ((w.endAt.value - now) as real / (w.endAt.value - w.startAt.value) as real))
  }

  lemma CapacityIsRight(w: Window, now: int, velocity: real)
    requires DurationValid(w)
    ensures Capacity(Some(velocity), TimeElapsed(w, now).value).Some?
    ensures CapacityFor(w, now, velocity, Capacity(Some(velocity), TimeElapsed(w, now).value).value)
  {
    ElapsedIsShare(w, now);
    if w.startAt.value < now < w.endAt.value {
      CapacityInside(w, now, velocity);
    } else if now <= w.startAt.value {
      CapacityOfShare(velocity, 0.0, 1.0);
    } else {
      CapacityOfShare(velocity, 100.0, 0.0);
      Round2Exact(0);
    }
  }

  lemma CapacityInside(w: Window, now: int, velocity: real)
    requires DurationValid(w) && w.startAt.value < now < w.endAt.value
    ensures CapacityFor(w, now, velocity, Capacity(Some(velocity), TimeElapsed(w, now).value).value)
  {
    ElapsedIsShare(w, now);
    CapacityOfRest(velocity, TimeElapsed(w, now).value, (now - w.startAt.value) as real, (w.endAt.value - now) as real,
                   (w.endAt.value - w.startAt.value) as real);
  }

  lemma CapacityOfRest(velocity: real, elapsed: real, past: real, rest: real, length: real)
    requires past >= 0.0 && rest >= 0.0 && length > 0.0 && past + rest == length && elapsed == 100.0 * past / length
    ensures Capacity(Some(velocity), elapsed).Some?
    ensures Near(Capacity(Some(velocity), elapsed).value, velocity * (rest / length))
  {
    ShareLeft(past, length);
    CapacityOfShare(velocity, elapsed, rest / length);
  }

  lemma CapacityOfShare(velocity: real, elapsed: real, left: real)
    requires 0.0 <= left <= 1.0 && elapsed == 100.0 - 100.0 * left
    ensures Capacity(Some(velocity), elapsed) == Some(CapacityIn(velocity, left)) && Near(CapacityIn(velocity, left), velocity * left)
  {
    assert (100.0 - elapsed) / 100.0 == left;
    assert Clamp((100.0 - elapsed) / 100.0, 0.0, 1.0) == left;
  }

  lemma QuotientIs(q: real, a: real, b: real)
    requires b > 0.0 && q * b == a
    ensures q == a / b
  {
    assert a / b * b == a;
    SameOrder(q, a / b, b);
  }

  lemma ShareLeft(past: real, length: real)
    requires 0.0 <= past <= length && length > 0.0
    ensures 100.0 * past / length == 100.0 - 100.0 * ((length - past) / length)
    ensures 0.0 <= (length - past) / length <= 1.0
  {
    var left := (length - past) / length;
    assert left * length == length - past;
    QuotientIs(100.0 - 100.0 * left, 100.0 * past, length);
    DivideMonotone(0.0, length - past, length);
    DivideMonotone(length - past, length, length);
  }

  /** Capacity against the work left. */
  lemma VelocityFitIsRight(x: Inputs)
    requires 0 < x.count && 0.0 <= x.completed <= x.committed
    ensures x.completed == x.committed ==> ComponentsOf(x).velocityFit == 100.0
    ensures x.completed < x.committed && x.velocity == None ==> ComponentsOf(x).velocityFit == 50.0
    ensures x.completed < x.committed && x.velocity.Some? ==>
              var capacity := Capacity(x.velocity, x.elapsed).value;
              if capacity <= 0.0 then ComponentsOf(x).velocityFit == 0.0
              else Near(ComponentsOf(x).velocityFit, Min(100.0, 100.0 * capacity / (x.committed - x.completed)))
  {
    Round2Exact(10000);
    Round2Exact(5000);
    Round2Exact(0);
  }

  /** Blockers against tickets, and the growth of the scope. */
  lemma PenaltiesAreRight(x: Inputs)
    requires 0 < x.count && x.blockers <= x.count
    ensures Near(ComponentsOf(x).blockerPenalty, 100.0 * (1.0 - x.blockers as real / x.count as real))
    ensures 0.0 <= x.creepPct <= 100.0 ==> Near(ComponentsOf(x).scopeStability, 100.0 - x.creepPct)
    ensures x.creepPct > 100.0 ==> ComponentsOf(x).scopeStability == 0.0
  {
    Round2Exact(0);
    DivideMonotone(0.0, x.blockers as real, x.count as real);
    DivideMonotone(x.blockers as real, x.count as real, x.count as real);
    assert x.count as real / x.count as real == 1.0;
  }

  lemma {:induction false} InputsAreRight(s: Sprint, now: int, baselines: seq<seq<Issue>>, m: Mapper) returns (x: Inputs)
    requires Evaluate(s, now, baselines, m).score.Some?
    ensures Scorable(s, m) && x == InputsOf(s, now, baselines, m)
    ensures 0.0 <= x.completed <= x.committed && 0.0 <= x.elapsed <= 100.0 && 0 < x.count && x.blockers <= x.count
    ensures Evaluate(s, now, baselines, m).components == Some(ComponentsOf(x))
    ensures Evaluate(s, now, baselines, m).score == Some(Weigh(ComponentsOf(x)))
  {
    x := InputsOf(s, now, baselines, m);
    SomePointsAreDone(s.issues, m);
    KeysAreSome(s.issues, Matches(Blockers(m)));
  }

  /** Progress: the completed share of the points over the elapsed share of the time, at most full. */
  predicate ProgressFor(w: Window, now: int, committed: real, completed: real, progress: real)
    requires DurationValid(w)
  {
    var start, end := w.startAt.value, w.endAt.value;
    if now <= start || committed <= 0.0 then progress == 100.0
    else
      var elapsed := if now >= end then 100.0 else 100.0 * (now - start) as real / (end - start) as real;
      elapsed > 0.0 && Near(progress, Min(100.0, 100.0 * (100.0 * completed / committed) / elapsed))
  }

  lemma ProgressIn(x: Inputs, w: Window, now: int)
    requires DurationValid(w) && x.elapsed == TimeElapsed(w, now).value
    requires 0 < x.count && 0.0 <= x.completed <= x.committed && 0.0 <= x.elapsed <= 100.0
    ensures ProgressFor(w, now, x.committed, x.completed, ComponentsOf(x).progress)
  {
    ElapsedIsShare(w, now);
    if now > w.startAt.value {
      ElapsedIsPositive(w, now);
    }
    ProgressIsRight(x);
  }

  lemma {:induction false} ProgressOfSprint(s: Sprint, now: int, baselines: seq<seq<Issue>>, m: Mapper)
    requires Evaluate(s, now, baselines, m).score.Some?
    ensures Evaluate(s, now, baselines, m).components.Some? && DurationValid(s.window)
    ensures ProgressFor(s.window, now, Points(s.issues, All), CompletedPoints(s.issues, m),
                        Evaluate(s, now, baselines, m).components.value.progress)
  {
    var x := InputsAreRight(s, now, baselines, m);
    ProgressIn(x, s.window, now);
  }

  lemma ElapsedIsPositive(w: Window, now: int)
    requires DurationValid(w) && now > w.startAt.value
    ensures TimeElapsed(w, now).value > 0.0
  {
    ElapsedIsShare(w, now);
    var past, length := (now - w.startAt.value) as real, (w.endAt.value - w.startAt.value) as real;
    SameOrder(100.0 * past / length, 0.0, length);
  }

  /** Its velocity fit: the capacity left against the points left, whatever the baseline. */
  lemma {:induction false} VelocityFitOfSprint(s: Sprint, now: int, baselines: seq<seq<Issue>>, m: Mapper) returns (capacity: real)
    requires Evaluate(s, now, baselines, m).score.Some?
    ensures Evaluate(s, now, baselines, m).components.Some? && DurationValid(s.window)
    ensures var left := Points(s.issues, All) - CompletedPoints(s.issues, m);
            var fit := Evaluate(s, now, baselines, m).components.value.velocityFit;
            if left == 0.0 then fit == 100.0
            else if baselines == [] then fit == 50.0
            else if capacity <= 0.0 then fit == 0.0
            else Near(fit, Min(100.0, 100.0 * capacity / left))
    ensures baselines != [] ==> CapacityFor(s.window, now, HistoricalVelocity(baselines, m).value, capacity)
  {
    var x := InputsAreRight(s, now, baselines, m);
    VelocityFitIsRight(x);
    capacity := 0.0;
    if baselines != [] {
      capacity := Capacity(x.velocity, x.elapsed).value;
      CapacityIsRight(s.window, now, x.velocity.value);
    }
  }

  /** Its open blockers and its scope creep, and the weighted sum of the four. */
  lemma {:induction false} ScoreOfSprint(s: Sprint, now: int, baselines: seq<seq<Issue>>, m: Mapper)
    requires Evaluate(s, now, baselines, m).score.Some?
    ensures Evaluate(s, now, baselines, m).components.Some? && s.creepPct.Some? && s.issues != []
    ensures var r := Evaluate(s, now, baselines, m); var c := r.components.value;
            && Near(c.blockerPenalty, 100.0 * (1.0 - |ListsOf(s.issues, Blockers(m)).matching| as real / |s.issues| as real))
            && (0.0 <= s.creepPct.value <= 100.0 ==> Near(c.scopeStability, 100.0 - s.creepPct.value))
            && (s.creepPct.value > 100.0 ==> c.scopeStability == 0.0)
            && Near(r.score.value, 0.4 * c.progress + 0.3 * c.velocityFit + 0.2 * c.blockerPenalty + 0.1 * c.scopeStability)
  {
    var x := InputsAreRight(s, now, baselines, m);
    PenaltiesAreRight(x);
  }

  // ---------------------------------------------------------------------------------------
  // When a score is returned, and with which status

  /** The issues with an estimate. */
  function Pointed(issues: seq<Issue>): set<nat> {
    set k: nat | k < |issues| && issues[k].points.Some? && issues[k].points.value >= 0.0
  }

  lemma {:induction false} PointedAreCounted(issues: seq<Issue>)
    ensures |KeysWhere(issues, IsPointed)| == |Pointed(issues)| <= |issues|
  {
    KeysOfPlaces(issues, IsPointed);
    KeysAreSome(issues, IsPointed);
    assert PlacesWhere(issues, IsPointed) == Pointed(issues);
  }

  /** COMPUTED says that the sprint and every baseline sprint are pointed throughout, up to one ticket in
      20000, PARTIAL that one of them is not. */
  lemma {:induction false} StatusIsRight(s: Sprint, now: int, baselines: seq<seq<Issue>>, m: Mapper)
    requires Evaluate(s, now, baselines, m).score.Some?
    ensures Evaluate(s, now, baselines, m).status in {DeliveryConfidence.Status.Computed, DeliveryConfidence.Status.Partial}
    ensures Evaluate(s, now, baselines, m).status == DeliveryConfidence.Status.Computed ==>
              forall b :: b in [s.issues] + baselines ==> 20000 * (|b| - |Pointed(b)|) <= |b|
    ensures Evaluate(s, now, baselines, m).status == DeliveryConfidence.Status.Partial ==>
              exists b :: b in [s.issues] + baselines && 20000 * (|b| - |Pointed(b)|) >= |b|
  {
    forall b | b in [s.issues] + baselines
      ensures 20000 * (|b| - |Pointed(b)|) < |b| ==> FullyCovered(b)
      ensures 20000 * (|b| - |Pointed(b)|) > |b| ==> !FullyCovered(b)
    {
      PointedAreCounted(b);
      if b != [] {
        CoverageThresholds(b);
      }
    }
    assert s.issues in [s.issues] + baselines;
  }

  /** A score is returned when more than half of the tickets are pointed, every pointed one has a status, no
      ticket could still turn out a blocker, the window and the history are there, and scope creep was
      computed. Nothing is returned when one of these fails. */
  lemma {:induction false} ScoredIff(s: Sprint, now: int, baselines: seq<seq<Issue>>, m: Mapper)
    ensures s.issues == [] <==> Evaluate(s, now, baselines, m).status == DeliveryConfidence.Status.NotComputed
    ensures Evaluate(s, now, baselines, m).score.Some? ==>
              && s.issues != [] && 20000 * |Pointed(s.issues)| >= 9999 * |s.issues| && OtherwiseScorable(s, m)
    ensures s.issues != [] && 20000 * |Pointed(s.issues)| > 9999 * |s.issues| && OtherwiseScorable(s, m) ==>
              Evaluate(s, now, baselines, m).score.Some?
  {
    if s.issues != [] {
      PointedAreCounted(s.issues);
      CoverageThresholds(s.issues);
      KeysOfPlaces(s.issues, HasPointsNoStatus);
      NoKeys(s.issues, HasPointsNoStatus);
    }
  }

  ghost predicate OtherwiseScorable(s: Sprint, m: Mapper) {
    && (forall k :: 0 <= k < |s.issues| ==>
          (s.issues[k].points.Some? && s.issues[k].points.value >= 0.0 ==> s.issues[k].status != ""))
    && ListsOf(s.issues, Blockers(m)).missing == []
    && s.window.startAt.Some? && s.window.endAt.Some? && s.window.startAt.value < s.window.endAt.value
    && s.incompleteHistory == {} && s.creepPct.Some?
  }

  lemma {:induction false} NoKeys(issues: seq<Issue>, p: Issue -> bool)
    ensures KeysWhere(issues, p) == [] <==> forall k :: 0 <= k < |issues| ==> !p(issues[k])
  {
    KeysOfPlaces(issues, p);
    if KeysWhere(issues, p) != [] {
      assert KeysWhere(issues, p)[0] in KeysWhere(issues, p);
    }
    forall k | 0 <= k < |issues| && p(issues[k]) ensures issues[k].key in KeysWhere(issues, p) {}
  }
}
