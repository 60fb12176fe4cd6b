/** The sprint delivery-confidence score: a weighted sum of four clamped and rounded components, returned only
    when story-point coverage and every prerequisite hold. The lemmas say what no single function shows: that
    better inputs never lower the score, that a returned score stands whatever missing fields of the sprint
    turn out to be, and exactly when it also stands whatever missing fields of the baseline sprints do, which
    the program does not check. Coverage is compared after rounding; the last section says what that means in
    counts of tickets. */
module DeliveryConfidence {
  import opened Sequences
  import opened Rounding
  import opened Classification

  const MIN_COVERAGE := 50.0

  /** `_valid_story_points`: missing and negative estimates do not count. */
  predicate IsPointed(i: Issue) { i.points.Some? && i.points.value >= 0.0 }

  predicate All(i: Issue) { true }

  /** The points of the pointed issues that satisfy `p`. */
  function Points(issues: seq<Issue>, p: Issue -> bool): (total: real)
    ensures total >= 0.0
  {
    if issues == [] then 0.0
    else
      var n := |issues| - 1;
      Points(issues[..n], p) + (if IsPointed(issues[n]) && p(issues[n]) then issues[n].points.value else 0.0)
  }

  function CoveragePct(issues: seq<Issue>): (pct: real)
    ensures 0.0 <= pct <= 100.0
  {
    KeysAreSome(issues, IsPointed);
    if issues == [] then 0.0 else Percentage(|KeysWhere(issues, IsPointed)|, |issues|)
  }

  function Clamp(x: real, low: real, high: real): real {
    var capped := if x < high then x else high;
    if capped > low then capped else low
  }

  // ---------------------------------------------------------------------------------------
  // Components

  datatype Window = Window(startAt: Option<int>, endAt: Option<int>)

  predicate DurationValid(w: Window) { w.startAt.Some? && w.endAt.Some? && w.startAt.value < w.endAt.value }

  /** `_compute_time_elapsed_pct`: none without a valid duration. */
  function TimeElapsed(w: Window, now: int): (pct: Option<real>)
    ensures pct.Some? <==> DurationValid(w)
    ensures pct.Some? ==> 0.0 <= pct.value <= 100.0
  {
    if !DurationValid(w) then None
    else Some(Clamp(100.0 * (now - w.startAt.value) as real / (w.endAt.value - w.startAt.value) as real, 0.0, 100.0))
  }

  function CompletedScope(committed: real, completed: real): real {
    if committed == 0.0 then 100.0 else 100.0 * completed / committed
  }

  function Progress(completedPct: real, elapsed: real): (score: real)
    ensures 0.0 <= score <= 100.0
  {
    if elapsed <= 0.0 then 100.0 else Clamp(100.0 * completedPct / elapsed, 0.0, 100.0)
  }

  function VelocityFit(remaining: real, capacity: Option<real>): (score: real)
    ensures 0.0 <= score <= 100.0
  {
    if remaining <= 0.0 then 100.0
    else if capacity.None? then 50.0
    else if capacity.value <= 0.0 then 0.0
    else Clamp(100.0 * capacity.value / remaining, 0.0, 100.0)
  }

  function BlockerPenalty(blockers: nat, count: nat): (score: real)
    requires 0 < count
    ensures 0.0 <= score <= 100.0
  {
    Clamp(100.0 * (1.0 - blockers as real / count as real), 0.0, 100.0)
  }

  function ScopeStability(creepPct: real): (score: real)
    ensures 0.0 <= score <= 100.0
  {
    Clamp(100.0 - creepPct, 0.0, 100.0)
  }

  function Capacity(velocity: Option<real>, elapsed: real): Option<real> {
    if velocity.None? then None
    else Some(CapacityIn(velocity.value, Clamp((100.0 - elapsed) / 100.0, 0.0, 1.0)))
  }

  function CapacityIn(velocity: real, timeLeft: real): real { Round2(velocity * timeLeft) }

  /** Everything the score depends on. */
  datatype Inputs = Inputs(committed: real, completed: real, elapsed: real, velocity: Option<real>,
                           blockers: nat, count: nat, creepPct: real)

  datatype Components = Components(progress: real, velocityFit: real, blockerPenalty: real, scopeStability: real)

  function ComponentsOf(x: Inputs): (c: Components)
    requires 0 < x.count
    ensures InRange(c)
  {
    var remaining := x.committed - x.completed;
    var progress := Progress(CompletedScope(x.committed, x.completed), x.elapsed);
    var fit := VelocityFit(if remaining < 0.0 then 0.0 else remaining, Capacity(x.velocity, x.elapsed));
    Round2InRange(progress);
    Round2InRange(fit);
    Round2InRange(BlockerPenalty(x.blockers, x.count));
    Round2InRange(ScopeStability(x.creepPct));
    Components(Round2(progress), Round2(fit), Round2(BlockerPenalty(x.blockers, x.count)), Round2(ScopeStability(x.creepPct)))
  }

  predicate InRange(c: Components) {
    && 0.0 <= c.progress <= 100.0 && 0.0 <= c.velocityFit <= 100.0
    && 0.0 <= c.blockerPenalty <= 100.0 && 0.0 <= c.scopeStability <= 100.0
  }

  /** The weights 0.4, 0.3, 0.2 and 0.1 add up to one. */
  function WeightedSum(c: Components): real {
    0.4 * c.progress + 0.3 * c.velocityFit + 0.2 * c.blockerPenalty + 0.1 * c.scopeStability
  }

  function Weigh(c: Components): (score: real)
    requires InRange(c)
    ensures 0.0 <= score <= 100.0
  {
    Round2InRange(WeightedSum(c));
    Round2(WeightedSum(c))
  }

  // ---------------------------------------------------------------------------------------
  // The evaluation

  datatype Status = Computed | Partial | Inconclusive | NotComputed

  datatype Confidence = Confidence(status: Status, score: Option<real>, components: Option<Components>)

  /** A sprint under evaluation: its issues, the project issues whose sprint history is incomplete,
      its window, and the scope-creep percentage if that metric was computed. */
  datatype Sprint = Sprint(issues: seq<Issue>, incompleteHistory: set<string>, window: Window, creepPct: Option<real>)

  predicate HasPointsNoStatus(i: Issue) { IsPointed(i) && i.status == "" }

  /** `evaluate_sprint_delivery_confidence_prerequisites`. */
  predicate PrerequisitesHold(s: Sprint, m: Mapper) {
    && KeysWhere(s.issues, HasPointsNoStatus) == []
    && ListsOf(s.issues, Blockers(m)).missing == []
    && DurationValid(s.window)
    && s.incompleteHistory == {}
  }

  predicate Scorable(s: Sprint, m: Mapper) {
    s.issues != [] && CoveragePct(s.issues) >= MIN_COVERAGE && PrerequisitesHold(s, m) && s.creepPct.Some?
  }

  function CompletedPoints(issues: seq<Issue>, m: Mapper): real { Points(issues, IsDone(m)) }

  /** The sum of the rounded points completed in each baseline sprint. */
  function Velocities(baselines: seq<seq<Issue>>, m: Mapper): real {
    if baselines == [] then 0.0
    else Velocities(baselines[..|baselines| - 1], m) + Round2(CompletedPoints(baselines[|baselines| - 1], m))
  }

  function HistoricalVelocity(baselines: seq<seq<Issue>>, m: Mapper): Option<real> {
    if baselines == [] then None else Some(Round2(Velocities(baselines, m) / |baselines| as real))
  }

  function InputsOf(s: Sprint, now: int, baselines: seq<seq<Issue>>, m: Mapper): Inputs
    requires Scorable(s, m)
  {
    Inputs(Points(s.issues, All), CompletedPoints(s.issues, m), TimeElapsed(s.window, now).value,
           HistoricalVelocity(baselines, m), |ListsOf(s.issues, Blockers(m)).matching|, |s.issues|, s.creepPct.value)
  }

  predicate FullyCovered(issues: seq<Issue>) { CoveragePct(issues) == 100.0 }

  predicate AllCovered(baselines: seq<seq<Issue>>) { forall b :: b in baselines ==> FullyCovered(b) }

  /** The loop over the baseline sprints. */
  method BaselineEvidence(baselines: seq<seq<Issue>>, m: Mapper) returns (velocity: Option<real>, anyPartial: bool)
    ensures velocity == HistoricalVelocity(baselines, m)
    ensures anyPartial <==> !AllCovered(baselines)
  {
    var sum := 0.0;
    anyPartial := false;
    for k := 0 to |baselines|
      invariant sum == Velocities(baselines[..k], m)
      invariant anyPartial <==> !AllCovered(baselines[..k])
    {
      assert baselines[..k + 1][..k] == baselines[..k];
      sum := sum + Round2(CompletedPoints(baselines[k], m));
      anyPartial := anyPartial || !FullyCovered(baselines[k]);
      assert baselines[..k + 1] == baselines[..k] + [baselines[k]];
    }
    assert baselines[..|baselines|] == baselines;
    velocity := if baselines == [] then None else Some(Round2(sum / |baselines| as real));
  }

  /** `_compute_delivery_confidence`. A score is returned exactly for scorable sprints, and it is always
      between 0 and 100. */
  method ComputeDeliveryConfidence(s: Sprint, now: int, baselines: seq<seq<Issue>>, m: Mapper) returns (r: Confidence)
    ensures r == Evaluate(s, now, baselines, m)
    ensures r.score.Some? <==> Scorable(s, m)
    ensures r.score.Some? ==> 0.0 <= r.score.value <= 100.0 && InRange(r.components.value)
  {
    if s.issues == [] {
      return Confidence(Status.NotComputed, None, None);
    }
    if CoveragePct(s.issues) < MIN_COVERAGE || !PrerequisitesHold(s, m) || s.creepPct.None? {
      return Confidence(Status.Inconclusive, None, None);
    }
    var status := if FullyCovered(s.issues) then Status.Computed else Status.Partial;
    var velocity, anyPartial := BaselineEvidence(baselines, m);
    if anyPartial {
      status := Status.Partial;
    }
    var components := ComponentsOf(InputsOf(s, now, baselines, m).(velocity := velocity));
    r := Confidence(status, Some(Weigh(components)), Some(components));
  }

  function Evaluate(s: Sprint, now: int, baselines: seq<seq<Issue>>, m: Mapper): Confidence {
    if s.issues == [] then Confidence(Status.NotComputed, None, None)
    else if !Scorable(s, m) then Confidence(Status.Inconclusive, None, None)
    else
      var c := ComponentsOf(InputsOf(s, now, baselines, m));
      Confidence(if FullyCovered(s.issues) && AllCovered(baselines) then Status.Computed else Status.Partial, Some(Weigh(c)), Some(c))
  }

  // ---------------------------------------------------------------------------------------
  // Monotonicity

  lemma DivideAntitone(a: real, c: real, d: real)
    requires a >= 0.0 && 0.0 < c <= d
    ensures a / d <= a / c
  {
    var q := a / d;
    assert q * d == a && q >= 0.0;
    assert q * c <= q * d;
    DivideMonotone(q * c, a, c);
    assert q * c / c == q;
  }

  lemma ProgressMonotone(x: real, y: real, elapsed: real)
    requires x <= y
    ensures Progress(x, elapsed) <= Progress(y, elapsed)
  {
    if elapsed > 0.0 {
      DivideMonotone(100.0 * x, 100.0 * y, elapsed);
    }
  }

  lemma VelocityFitAntitone(x: real, y: real, capacity: Option<real>)
    requires 0.0 <= x <= y
    ensures VelocityFit(y, capacity) <= VelocityFit(x, capacity)
  {
    if x > 0.0 && capacity.Some? && capacity.value > 0.0 {
      DivideAntitone(100.0 * capacity.value, x, y);
    }
  }

  lemma BlockerPenaltyAntitone(x: nat, y: nat, count: nat)
    requires 0 < count && x <= y
    ensures BlockerPenalty(y, count) <= BlockerPenalty(x, count)
  {
    DivideMonotone(x as real, y as real, count as real);
  }

  /** `y` is no worse than `x`: the same sprint, clock and baseline, with at least as much completed,
      no more blockers and no more scope creep. */
  predicate NoWorse(x: Inputs, y: Inputs) {
    && 0 < x.count == y.count && x.committed == y.committed && x.elapsed == y.elapsed && x.velocity == y.velocity
    && 0.0 <= x.completed <= y.completed <= x.committed
    && y.blockers <= x.blockers && y.creepPct <= x.creepPct
  }

  /** Better inputs never lower the score, through every clamp and rounding step. */
  lemma ScoreIsMonotone(x: Inputs, y: Inputs)
    requires NoWorse(x, y)
    ensures Weigh(ComponentsOf(x)) <= Weigh(ComponentsOf(y))
  {
    if x.committed != 0.0 {
      DivideMonotone(100.0 * x.completed, 100.0 * y.completed, x.committed);
    }
    ProgressMonotone(CompletedScope(x.committed, x.completed), CompletedScope(y.committed, y.completed), x.elapsed);
    VelocityFitAntitone(y.committed - y.completed, x.committed - x.completed, Capacity(x.velocity, x.elapsed));
    BlockerPenaltyAntitone(y.blockers, x.blockers, x.count);
    WeighMonotone(x, y);
  }

  lemma WeighMonotone(x: Inputs, y: Inputs)
    requires NoWorse(x, y)
    requires Progress(CompletedScope(x.committed, x.completed), x.elapsed)
             <= Progress(CompletedScope(y.committed, y.completed), y.elapsed)
    requires VelocityFit(x.committed - x.completed, Capacity(x.velocity, x.elapsed))
             <= VelocityFit(y.committed - y.completed, Capacity(y.velocity, y.elapsed))
    requires BlockerPenalty(x.blockers, x.count) <= BlockerPenalty(y.blockers, y.count)
    ensures Weigh(ComponentsOf(x)) <= Weigh(ComponentsOf(y))
  {
    Round2Monotone(Progress(CompletedScope(x.committed, x.completed), x.elapsed),
                   Progress(CompletedScope(y.committed, y.completed), y.elapsed));
    Round2Monotone(VelocityFit(x.committed - x.completed, Capacity(x.velocity, x.elapsed)),
                   VelocityFit(y.committed - y.completed, Capacity(y.velocity, y.elapsed)));
    Round2Monotone(BlockerPenalty(x.blockers, x.count), BlockerPenalty(y.blockers, y.count));
    Round2Monotone(ScopeStability(x.creepPct), ScopeStability(y.creepPct));
    NoComponentFalls(ComponentsOf(x), ComponentsOf(y));
  }

  lemma NoComponentFalls(a: Components, b: Components)
    requires InRange(a) && InRange(b)
    requires a.progress <= b.progress && a.velocityFit <= b.velocityFit
    requires a.blockerPenalty <= b.blockerPenalty && a.scopeStability <= b.scopeStability
    ensures Weigh(a) <= Weigh(b)
  {
    Round2Monotone(WeightedSum(a), WeightedSum(b));
  }

  // ---------------------------------------------------------------------------------------
  // What the score means

  lemma QuotientAtLeast(a: real, b: real)
    requires b > 0.0
    ensures 100.0 * a / b >= 100.0 <==> a >= b
    ensures 100.0 * a / b <= 0.0 <==> a <= 0.0
  {
    var q := 100.0 * a / b;
    assert q * b == 100.0 * a;
  }

  /** When each component is full: the work done has caught up with the clock, the remaining capacity
      covers the remaining work, nothing blocks, and the scope has not grown. */
  lemma FullComponents(x: Inputs)
    requires 0 < x.count && 0.0 <= x.completed <= x.committed && 0.0 <= x.elapsed <= 100.0
    ensures Progress(CompletedScope(x.committed, x.completed), x.elapsed) == 100.0
            <==> 100.0 * x.completed >= x.elapsed * x.committed
    ensures VelocityFit(x.committed - x.completed, Capacity(x.velocity, x.elapsed)) == 100.0
            <==> x.completed == x.committed
                 || (x.velocity.Some? && Capacity(x.velocity, x.elapsed).value >= x.committed - x.completed)
    ensures BlockerPenalty(x.blockers, x.count) == 100.0 <==> x.blockers == 0
    ensures ScopeStability(x.creepPct) == 100.0 <==> x.creepPct <= 0.0
  {
    FullProgress(x.committed, x.completed, x.elapsed);
    var capacity, remaining := Capacity(x.velocity, x.elapsed), x.committed - x.completed;
    if remaining > 0.0 && capacity.Some? {
      QuotientAtLeast(capacity.value, remaining);
    }
    assert x.blockers as real / x.count as real * x.count as real == x.blockers as real;
  }

  lemma FullProgress(committed: real, completed: real, elapsed: real)
    requires 0.0 <= completed <= committed && 0.0 <= elapsed <= 100.0
    ensures Progress(CompletedScope(committed, completed), elapsed) == 100.0 <==> 100.0 * completed >= elapsed * committed
  {
    var pct := CompletedScope(committed, completed);
    if elapsed > 0.0 {
      QuotientAtLeast(pct, elapsed);
    }
    if committed > 0.0 {
      assert pct * committed == 100.0 * completed;
      SameOrder(pct, elapsed, committed);
    }
  }

  /** The weights, read off the score: equal components give that score, and moving one component moves
      the score by its share, up to rounding. */
  lemma ComponentShares(c: Components, v: real)
    requires InRange(c) && 0.0 <= v <= 100.0
    ensures Weigh(Components(v, v, v, v)) == Round2(v)
    ensures -0.01 <= Weigh(c.(progress := v)) - Weigh(c) - 0.4 * (v - c.progress) <= 0.01
    ensures -0.01 <= Weigh(c.(velocityFit := v)) - Weigh(c) - 0.3 * (v - c.velocityFit) <= 0.01
    ensures -0.01 <= Weigh(c.(blockerPenalty := v)) - Weigh(c) - 0.2 * (v - c.blockerPenalty) <= 0.01
    ensures -0.01 <= Weigh(c.(scopeStability := v)) - Weigh(c) - 0.1 * (v - c.scopeStability) <= 0.01
  {
    assert WeightedSum(Components(v, v, v, v)) == v;
  }

  function Repeated(x: real, n: nat): real { if n == 0 then 0.0 else Repeated(x, n - 1) + x }

  lemma {:induction false} RepeatedIsProduct(x: real, n: nat)
    ensures Repeated(x, n) == x * n as real
  {
    if n > 0 {
      RepeatedIsProduct(x, n - 1);
      assert x * n as real == x * (n - 1) as real + x;
    }
  }

  lemma {:induction false} SumOfVelocities(baselines: seq<seq<Issue>>, m: Mapper, low: real, high: real)
    requires forall b :: b in baselines ==> low <= Round2(CompletedPoints(b, m)) <= high
    ensures Repeated(low, |baselines|) <= Velocities(baselines, m) <= Repeated(high, |baselines|)
  {
    if baselines != [] {
      var n := |baselines| - 1;
      assert baselines[n] in baselines;
      SumOfVelocities(baselines[..n], m, low, high);
    }
  }

  lemma QuotientIsBetween(low: real, sum: real, high: real, n: real)
    requires n > 0.0 && low * n <= sum <= high * n
    ensures low <= sum / n <= high
  {
    var average := sum / n;
    assert average * n == sum;
    if low > average {
      SameOrder(low, average, n);
    } else if average > high {
      SameOrder(average, high, n);
    }
  }

  lemma AverageIsBetween(low: real, sum: real, high: real, n: nat)
    requires n > 0 && Repeated(low, n) <= sum <= Repeated(high, n)
    ensures Round2(low) <= Round2(sum / n as real) <= Round2(high)
  {
    RepeatedIsProduct(low, n);
    RepeatedIsProduct(high, n);
    QuotientIsBetween(low, sum, high, n as real);
    Round2Monotone(low, sum / n as real);
    Round2Monotone(sum / n as real, high);
  }

  /** The historical velocity lies between the slowest and the fastest baseline sprint, up to rounding. */
  lemma VelocityIsBetween(baselines: seq<seq<Issue>>, m: Mapper, low: real, high: real)
    requires baselines != [] && forall b :: b in baselines ==> low <= Round2(CompletedPoints(b, m)) <= high
    ensures Round2(low) <= HistoricalVelocity(baselines, m).value <= Round2(high)
  {
    SumOfVelocities(baselines, m, low, high);
    AverageIsBetween(low, Velocities(baselines, m), high, |baselines|);
  }

  // ---------------------------------------------------------------------------------------
  // Finishing work

  /** `after` is `before` with some tickets moved to a done status. */
  ghost predicate Finishes(before: seq<Issue>, after: seq<Issue>, m: Mapper) {
    && |after| == |before|
    && forall k :: 0 <= k < |before| ==>
         after[k] == before[k] || (after[k] == before[k].(status := after[k].status) && after[k].status in m.done)
  }

  lemma {:induction false} FinishingFreesBlockers(before: seq<Issue>, after: seq<Issue>, m: Mapper)
    requires m.Valid() && Finishes(before, after, m) && ListsOf(before, Blockers(m)).missing == []
    ensures ListsOf(after, Blockers(m)).missing == []
    ensures |ListsOf(after, Blockers(m)).matching| <= |ListsOf(before, Blockers(m)).matching|
  {
    if before != [] {
      var n := |before| - 1;
      assert before[..n + 1] == before && after[..n + 1] == after;
      AppendedLists(before, n, Blockers(m));
      AppendedLists(after, n, Blockers(m));
      assert BlockerVerdict(after[n], m).Match? ==> BlockerVerdict(before[n], m).Match?;
      FinishingFreesBlockers(before[..n], after[..n], m);
    }
  }

  lemma {:induction false} FinishingAddsPoints(before: seq<Issue>, after: seq<Issue>, m: Mapper)
    requires Finishes(before, after, m)
    ensures Points(after, All) == Points(before, All)
    ensures CompletedPoints(before, m) <= CompletedPoints(after, m) <= Points(before, All)
  {
    if before != [] {
      var n := |before| - 1;
      FinishingAddsPoints(before[..n], after[..n], m);
    }
  }

  lemma {:induction false} FinishingKeepsCoverage(before: seq<Issue>, after: seq<Issue>, m: Mapper)
    requires m.Valid() && Finishes(before, after, m) && KeysWhere(before, HasPointsNoStatus) == []
    ensures KeysWhere(after, HasPointsNoStatus) == []
    ensures KeysWhere(after, IsPointed) == KeysWhere(before, IsPointed)
  {
    if before != [] {
      var n := |before| - 1;
      FinishingKeepsCoverage(before[..n], after[..n], m);
    }
  }

  /** Moving tickets to done never takes the score away and never lowers it. */
  lemma FinishingWorkNeverLowersTheScore(s: Sprint, after: seq<Issue>, now: int, baselines: seq<seq<Issue>>, m: Mapper)
    requires m.Valid() && Finishes(s.issues, after, m) && Scorable(s, m)
    ensures var t := s.(issues := after);
            Scorable(t, m) && Evaluate(s, now, baselines, m).score.value <= Evaluate(t, now, baselines, m).score.value
  {
    FinishingFreesBlockers(s.issues, after, m);
    FinishingAddsPoints(s.issues, after, m);
    FinishingKeepsCoverage(s.issues, after, m);
    assert CoveragePct(after) == CoveragePct(s.issues);
    ScoreIsMonotone(InputsOf(s, now, baselines, m), InputsOf(s.(issues := after), now, baselines, m));
  }

  // ---------------------------------------------------------------------------------------
  // Missing data

  lemma {:induction false} CompletionKeepsBlockers(issues: seq<Issue>, completion: seq<Issue>, m: Mapper)
    requires m.NoBlanks() && AllComplete(issues, completion) && ListsOf(issues, Blockers(m)).missing == []
    ensures ListsOf(completion, Blockers(m)).missing == []
    ensures |ListsOf(completion, Blockers(m)).matching| == |ListsOf(issues, Blockers(m)).matching|
  {
    if issues != [] {
      var n := |issues| - 1;
      assert Completes(issues[n], completion[n]);
      assert issues[..n + 1] == issues && completion[..n + 1] == completion;
      AppendedLists(issues, n, Blockers(m));
      AppendedLists(completion, n, Blockers(m));
      CompletionKeepsBlockers(issues[..n], completion[..n], m);
    }
  }

  lemma {:induction false} CompletionKeepsPoints(issues: seq<Issue>, completion: seq<Issue>, m: Mapper)
    requires m.NoBlanks() && AllComplete(issues, completion) && KeysWhere(issues, HasPointsNoStatus) == []
    ensures KeysWhere(completion, HasPointsNoStatus) == []
    ensures Points(completion, All) == Points(issues, All)
    ensures CompletedPoints(completion, m) == CompletedPoints(issues, m)
    ensures KeysWhere(completion, IsPointed) == KeysWhere(issues, IsPointed)
  {
    if issues != [] {
      var n := |issues| - 1;
      assert Completes(issues[n], completion[n]);
      CompletionKeepsPoints(issues[..n], completion[..n], m);
    }
  }

  /** The prerequisites are enough: a returned result is the result in every completion of the
      sprint's missing statuses, types and severities. */
  lemma ScoreIsCertain(s: Sprint, completion: seq<Issue>, now: int, baselines: seq<seq<Issue>>, m: Mapper)
    requires m.NoBlanks() && AllComplete(s.issues, completion) && Scorable(s, m)
    ensures Evaluate(s.(issues := completion), now, baselines, m) == Evaluate(s, now, baselines, m)
  {
    CompletionKeepsBlockers(s.issues, completion, m);
    CompletionKeepsPoints(s.issues, completion, m);
    assert CoveragePct(completion) == CoveragePct(s.issues);
  }

  // ---------------------------------------------------------------------------------------
  // Missing data in the baseline

  /** Full completions of every baseline sprint. */
  ghost predicate FullBaselines(baselines: seq<seq<Issue>>, completions: seq<seq<Issue>>) {
    |completions| == |baselines| && forall j :: 0 <= j < |baselines| ==> FullCompletion(baselines[j], completions[j])
  }

  function OrText(text: string, fallback: string): string { if text == "" then fallback else text }

  /** Every missing status filled in as `status`. */
  function FilledIn(issues: seq<Issue>, status: string): (filled: seq<Issue>)
    ensures |filled| == |issues|
  {
    if issues == [] then []
    else
      var n := |issues| - 1;
      var i := issues[n];
      FilledIn(issues[..n], status)
      + [i.(status := OrText(i.status, status), issueType := OrText(i.issueType, "x"), severity := OrText(i.severity, "x"))]
  }

  function AllFilledIn(baselines: seq<seq<Issue>>, status: string): (filled: seq<seq<Issue>>)
    ensures |filled| == |baselines|
  {
    if baselines == [] then []
    else AllFilledIn(baselines[..|baselines| - 1], status) + [FilledIn(baselines[|baselines| - 1], status)]
  }

  lemma {:induction false} FillingInCompletes(issues: seq<Issue>, status: string)
    requires status != ""
    ensures FullCompletion(issues, FilledIn(issues, status))
  {
    if issues != [] {
      FillingInCompletes(issues[..|issues| - 1], status);
    }
  }

  lemma {:induction false} FillingInAllCompletes(baselines: seq<seq<Issue>>, status: string)
    requires status != ""
    ensures FullBaselines(baselines, AllFilledIn(baselines, status))
  {
    if baselines != [] {
      FillingInAllCompletes(baselines[..|baselines| - 1], status);
      FillingInCompletes(baselines[|baselines| - 1], status);
    }
  }

  function WithoutStatus(): Issue -> bool { (i: Issue) => i.status == "" }

  /** The completed points of a completion lie between those of the tickets as they are and those with
      every undecided ticket done, which differ by the points of the tickets without a status. */
  lemma {:induction false} CompletedIsBetween(issues: seq<Issue>, completion: seq<Issue>, done: string, m: Mapper)
    requires m.Valid() && done in m.done && AllComplete(issues, completion)
    ensures CompletedPoints(issues, m) <= CompletedPoints(completion, m) <= CompletedPoints(FilledIn(issues, done), m)
    ensures CompletedPoints(FilledIn(issues, done), m) == CompletedPoints(issues, m) + Points(issues, WithoutStatus())
  {
    if issues != [] {
      var n := |issues| - 1;
      assert Completes(issues[n], completion[n]);
      assert FilledIn(issues, done)[..n] == FilledIn(issues[..n], done);
      CompletedIsBetween(issues[..n], completion[..n], done, m);
    }
  }

  lemma {:induction false} CompletionKeepsCoverage(issues: seq<Issue>, completion: seq<Issue>)
    requires AllComplete(issues, completion)
    ensures KeysWhere(completion, IsPointed) == KeysWhere(issues, IsPointed) && CoveragePct(completion) == CoveragePct(issues)
  {
    if issues != [] {
      var n := |issues| - 1;
      assert Completes(issues[n], completion[n]);
      CompletionKeepsCoverage(issues[..n], completion[..n]);
    }
  }

  lemma {:induction false} VelocitiesAreBetween(baselines: seq<seq<Issue>>, completions: seq<seq<Issue>>, done: string, m: Mapper)
    requires m.Valid() && done in m.done && FullBaselines(baselines, completions)
    ensures Velocities(baselines, m) <= Velocities(completions, m) <= Velocities(AllFilledIn(baselines, done), m)
  {
    if baselines != [] {
      var n := |baselines| - 1;
      assert FullCompletion(baselines[n], completions[n]);
      VelocitiesAreBetween(baselines[..n], completions[..n], done, m);
      CompletedIsBetween(baselines[n], completions[n], done, m);
      Round2Monotone(CompletedPoints(baselines[n], m), CompletedPoints(completions[n], m));
      Round2Monotone(CompletedPoints(completions[n], m), CompletedPoints(FilledIn(baselines[n], done), m));
    }
  }

  lemma SameCoverage(baselines: seq<seq<Issue>>, completions: seq<seq<Issue>>)
    requires FullBaselines(baselines, completions)
    ensures AllCovered(completions) <==> AllCovered(baselines)
  {
    forall j | 0 <= j < |baselines| ensures FullyCovered(completions[j]) <==> FullyCovered(baselines[j]) {
      CompletionKeepsCoverage(baselines[j], completions[j]);
    }
  }

  /** The velocity read off the baseline is the least of all completions, and counting every pointed
      ticket without a status as done gives the greatest. */
  lemma VelocityBounds(baselines: seq<seq<Issue>>, completions: seq<seq<Issue>>, done: string, m: Mapper)
    requires m.Valid() && done in m.done && FullBaselines(baselines, completions) && baselines != []
    ensures HistoricalVelocity(baselines, m).value <= HistoricalVelocity(completions, m).value
            <= HistoricalVelocity(AllFilledIn(baselines, done), m).value
  {
    VelocitiesAreBetween(baselines, completions, done, m);
    var n := |baselines| as real;
    var low, mid, high := Velocities(baselines, m), Velocities(completions, m), Velocities(AllFilledIn(baselines, done), m);
    DivideMonotone(low, mid, n);
    DivideMonotone(mid, high, n);
    Round2Monotone(low / n, mid / n);
    Round2Monotone(mid / n, high / n);
  }

  lemma CapacityInMonotone(v: real, w: real, timeLeft: real)
    requires v <= w && timeLeft >= 0.0
    ensures CapacityIn(v, timeLeft) <= CapacityIn(w, timeLeft)
  {
    MultiplyMonotone(v, w, timeLeft);
    Round2Monotone(v * timeLeft, w * timeLeft);
  }

  lemma CapacityMonotone(v: real, w: real, elapsed: real)
    requires v <= w
    ensures Capacity(Some(v), elapsed).value <= Capacity(Some(w), elapsed).value
  {
    CapacityInMonotone(v, w, Clamp((100.0 - elapsed) / 100.0, 0.0, 1.0));
  }

  lemma VelocityFitMonotone(remaining: real, a: real, b: real)
    requires a <= b
    ensures VelocityFit(remaining, Some(a)) <= VelocityFit(remaining, Some(b))
  {
    if remaining > 0.0 {
      DivideMonotone(100.0 * a, 100.0 * b, remaining);
    }
  }

  /** A higher velocity raises the velocity fit and the score, or leaves them, and nothing else. */
  lemma VelocityMovesOneComponent(x: Inputs, v: real, w: real)
    requires 0 < x.count && v <= w
    ensures var slow, fast := ComponentsOf(x.(velocity := Some(v))), ComponentsOf(x.(velocity := Some(w)));
            fast == slow.(velocityFit := fast.velocityFit) && slow.velocityFit <= fast.velocityFit
            && Weigh(slow) <= Weigh(fast)
  {
    var remaining := if x.committed - x.completed < 0.0 then 0.0 else x.committed - x.completed;
    CapacityMonotone(v, w, x.elapsed);
    var a, b := Capacity(Some(v), x.elapsed).value, Capacity(Some(w), x.elapsed).value;
    VelocityFitMonotone(remaining, a, b);
    Round2Monotone(VelocityFit(remaining, Some(a)), VelocityFit(remaining, Some(b)));
    NoComponentFalls(ComponentsOf(x.(velocity := Some(v))), ComponentsOf(x.(velocity := Some(w))));
  }

  /** The returned result is the result of every full completion of the sprint and of its baseline. */
  ghost predicate ResultIsCertain(s: Sprint, now: int, baselines: seq<seq<Issue>>, m: Mapper) {
    forall c, cs :: FullCompletion(s.issues, c) && FullBaselines(baselines, cs) ==>
      Evaluate(s.(issues := c), now, cs, m) == Evaluate(s, now, baselines, m)
  }

  /** The same for the score alone. */
  ghost predicate ScoreIsSettled(s: Sprint, now: int, baselines: seq<seq<Issue>>, m: Mapper) {
    forall c, cs :: FullCompletion(s.issues, c) && FullBaselines(baselines, cs) ==>
      Evaluate(s.(issues := c), now, cs, m).score == Evaluate(s, now, baselines, m).score
  }

  /** Three scored results that differ in the velocity fit alone, in ascending order. */
  predicate Ascending(low: Confidence, mid: Confidence, high: Confidence) {
    && low.status == mid.status == high.status
    && low.score.Some? && mid.score.Some? && high.score.Some?
    && low.components.Some? && mid.components.Some? && high.components.Some?
    && (var fit := low.components.value.velocityFit;
        && mid.components.value.(velocityFit := fit) == low.components.value
        && high.components.value.(velocityFit := fit) == low.components.value
        && fit <= mid.components.value.velocityFit <= high.components.value.velocityFit)
    && low.score.value <= mid.score.value <= high.score.value
  }

  lemma Squeezed(low: Confidence, mid: Confidence, high: Confidence)
    requires Ascending(low, mid, high)
    ensures high == low ==> mid == low
    ensures high.score == low.score ==> mid.score == low.score
  {}

  /** In a completion only the velocity fit may rise, at most to what it is with everything done. */
  lemma ResultIsBetween(s: Sprint, now: int, baselines: seq<seq<Issue>>, completions: seq<seq<Issue>>, done: string, m: Mapper)
    requires m.Valid() && done in m.done && Scorable(s, m) && FullBaselines(baselines, completions)
    ensures Ascending(Evaluate(s, now, baselines, m), Evaluate(s, now, completions, m),
                      Evaluate(s, now, AllFilledIn(baselines, done), m))
  {
    VelocitiesAreBetween(baselines, completions, done, m);
    FillingInAllCompletes(baselines, done);
    SameCoverage(baselines, completions);
    SameCoverage(baselines, AllFilledIn(baselines, done));
    if baselines != [] {
      VelocityBounds(baselines, completions, done, m);
      var x := InputsOf(s, now, baselines, m);
      var low, mid, high := HistoricalVelocity(baselines, m).value, HistoricalVelocity(completions, m).value,
                            HistoricalVelocity(AllFilledIn(baselines, done), m).value;
      VelocityMovesOneComponent(x, low, mid);
      VelocityMovesOneComponent(x, mid, high);
    }
  }

  lemma CompletionIsBetween(s: Sprint, c: seq<Issue>, now: int, baselines: seq<seq<Issue>>, completions: seq<seq<Issue>>,
                            done: string, m: Mapper)
    requires m.Valid() && done in m.done && Scorable(s, m)
    requires FullCompletion(s.issues, c) && FullBaselines(baselines, completions)
    ensures var low, mid, high := Evaluate(s, now, baselines, m), Evaluate(s.(issues := c), now, completions, m),
                                  Evaluate(s, now, AllFilledIn(baselines, done), m);
            && (high == low ==> mid == low)
            && (high.score == low.score ==> mid.score == low.score)
  {
    ScoreIsCertain(s, c, now, completions, m);
    ResultIsBetween(s, now, baselines, completions, done, m);
    Squeezed(Evaluate(s, now, baselines, m), Evaluate(s, now, completions, m), Evaluate(s, now, AllFilledIn(baselines, done), m));
  }

  lemma FinishedIsACompletion(s: Sprint, now: int, baselines: seq<seq<Issue>>, done: string, m: Mapper) returns (c: seq<Issue>)
    requires m.Valid() && done in m.done && Scorable(s, m)
    ensures FullCompletion(s.issues, c) && FullBaselines(baselines, AllFilledIn(baselines, done))
    ensures Evaluate(s.(issues := c), now, AllFilledIn(baselines, done), m) == Evaluate(s, now, AllFilledIn(baselines, done), m)
  {
    c := FilledIn(s.issues, done);
    FillingInAllCompletes(baselines, done);
    FillingInCompletes(s.issues, done);
    ScoreIsCertain(s, c, now, AllFilledIn(baselines, done), m);
  }

  /** The prerequisites do not look at the baseline sprints. Exactly when that is harmless: the returned
      result, or the score alone, is that of every full completion just when it stays the same after
      counting every baseline ticket without a status as done. */
  lemma CertainIffBaselineIs(s: Sprint, now: int, baselines: seq<seq<Issue>>, done: string, m: Mapper)
    requires m.Valid() && done in m.done && Scorable(s, m)
    ensures var finished := AllFilledIn(baselines, done);
            && (ResultIsCertain(s, now, baselines, m) <==> Evaluate(s, now, finished, m) == Evaluate(s, now, baselines, m))
            && (ScoreIsSettled(s, now, baselines, m) <==>
                  Evaluate(s, now, finished, m).score == Evaluate(s, now, baselines, m).score)
  {
    var all := FinishedIsACompletion(s, now, baselines, done, m);
    forall c, cs | FullCompletion(s.issues, c) && FullBaselines(baselines, cs)
      ensures Evaluate(s, now, AllFilledIn(baselines, done), m) == Evaluate(s, now, baselines, m) ==>
                Evaluate(s.(issues := c), now, cs, m) == Evaluate(s, now, baselines, m)
      ensures Evaluate(s, now, AllFilledIn(baselines, done), m).score == Evaluate(s, now, baselines, m).score ==>
                Evaluate(s.(issues := c), now, cs, m).score == Evaluate(s, now, baselines, m).score
    {
      CompletionIsBetween(s, c, now, baselines, cs, done, m);
    }
  }

  lemma {:induction false} NothingUndecided(issues: seq<Issue>)
    requires KeysWhere(issues, HasPointsNoStatus) == []
    ensures Points(issues, WithoutStatus()) == 0.0
  {
    if issues != [] {
      NothingUndecided(issues[..|issues| - 1]);
    }
  }

  lemma {:induction false} SameVelocities(baselines: seq<seq<Issue>>, done: string, m: Mapper)
    requires m.Valid() && done in m.done
    requires forall b :: b in baselines ==> KeysWhere(b, HasPointsNoStatus) == []
    ensures Velocities(AllFilledIn(baselines, done), m) == Velocities(baselines, m)
  {
    if baselines != [] {
      var n := |baselines| - 1;
      assert baselines[n] in baselines;
      SameVelocities(baselines[..n], done, m);
      FillingInCompletes(baselines[n], done);
      CompletedIsBetween(baselines[n], FilledIn(baselines[n], done), done, m);
      NothingUndecided(baselines[n]);
    }
  }

  /** The check that is made for the sprint itself would be enough for the baseline too. */
  lemma CheckedBaselinesSuffice(s: Sprint, now: int, baselines: seq<seq<Issue>>, done: string, m: Mapper)
    requires m.Valid() && done in m.done && Scorable(s, m)
    requires forall b :: b in baselines ==> KeysWhere(b, HasPointsNoStatus) == []
    ensures ResultIsCertain(s, now, baselines, m)
  {
    FillingInAllCompletes(baselines, done);
    VelocitiesAreBetween(baselines, AllFilledIn(baselines, done), done, m);
    SameCoverage(baselines, AllFilledIn(baselines, done));
    SameVelocities(baselines, done, m);
    CertainIffBaselineIs(s, now, baselines, done, m);
  }

  /** And something is lost without it: filling in one status there moves the score of a scorable sprint
      from 70 to 100. */
  lemma BaselineStatusMovesTheScore() returns (s: Sprint, m: Mapper, baseline: seq<Issue>, completion: seq<Issue>)
    ensures m.Valid() && Scorable(s, m) && AllComplete(baseline, completion)
    ensures Evaluate(s, 0, [baseline], m).score == Some(70.0)
    ensures Evaluate(s, 0, [completion], m).score == Some(100.0)
  {
    m := Mapper({"done"}, {}, {}, {}, {}, {}, {});
    var open := Issue("A-2", "open", "task", "low", None, Some(10.0));
    var past := Issue("A-1", "", "task", "low", None, Some(10.0));
    s := Sprint([open], {}, Window(Some(0), Some(1)), Some(0.0));
    baseline := [past];
    completion := [past.(status := "done")];
    Alone(open, m);
    Round2Exact(0);
    Round2Exact(1000);
    Round2Exact(7000);
    Round2Exact(10000);
    assert baseline[..0] == [] && completion[..0] == [];
    assert past.status == "" && !IsDone(m)(past);
    assert CompletedPoints(baseline, m) == 0.0;
    assert CompletedPoints(completion, m) == 10.0;
    OneBaseline(baseline, m);
    OneBaseline(completion, m);
    assert TimeElapsed(s.window, 0) == Some(0.0);
    assert Capacity(Some(0.0), 0.0) == Some(0.0) && Capacity(Some(10.0), 0.0) == Some(10.0);
    assert CoveragePct([open]) == 100.0;
    assert InputsOf(s, 0, [baseline], m) == Inputs(10.0, 0.0, 0.0, Some(0.0), 0, 1, 0.0);
    assert InputsOf(s, 0, [completion], m) == Inputs(10.0, 0.0, 0.0, Some(10.0), 0, 1, 0.0);
  }

  lemma OneBaseline(baseline: seq<Issue>, m: Mapper)
    ensures HistoricalVelocity([baseline], m) == Some(Round2(Round2(CompletedPoints(baseline, m))))
  {
    assert [baseline][..0] == [];
    assert Velocities([baseline], m) == Velocities([], m) + Round2(CompletedPoints(baseline, m));
  }

  lemma Alone(open: Issue, m: Mapper)
    requires open == Issue("A-2", "open", "task", "low", None, Some(10.0))
    requires m == Mapper({"done"}, {}, {}, {}, {}, {}, {})
    ensures ListsOf([open], Blockers(m)) == Lists([], ["A-2"], [], [], [], [])
    ensures KeysWhere([open], HasPointsNoStatus) == [] && KeysWhere([open], IsPointed) == ["A-2"]
    ensures Points([open], All) == 10.0 && Points([open], IsDone(m)) == 0.0
  {
    assert [open][..0] == [] && [open][..1] == [open];
    AppendedLists([open], 0, Blockers(m));
    assert open.status != "done";
  }

  // ---------------------------------------------------------------------------------------
  // Coverage thresholds

  lemma RoundsToAtLeast(x: real, n: int)
    ensures x > n as real - 0.5 ==> RoundHalfEven(x) >= n
    ensures x < n as real - 0.5 ==> RoundHalfEven(x) < n
  {}

  lemma SameOrder(a: real, b: real, n: real)
    requires n > 0.0
    ensures (a > b <==> a * n > b * n) && (a == b <==> a * n == b * n)
  {
    if a > b {
      assert (a - b) * n > 0.0;
    } else if a < b {
      assert (b - a) * n > 0.0;
    }
  }

  /** The share of `k` in `n`, in unrounded hundredths of a percent. */
  function Share(k: nat, n: nat): real
    requires 0 < n
  {
    100.0 * k as real / n as real * 100.0
  }

  lemma ShareTimes(k: nat, n: nat)
    requires 0 < n
    ensures Share(k, n) * n as real * 2.0 == (20000 * k) as real
  {
    var share := 100.0 * k as real / n as real;
    assert share * n as real == 100.0 * k as real;
    assert share * 100.0 * n as real == share * n as real * 100.0;
  }

  /** Where rounding to at least `cut` begins. */
  function Edge(cut: int): real { cut as real - 0.5 }

  lemma EdgeTimes(n: nat, cut: int)
    ensures Edge(cut) * n as real * 2.0 == ((2 * cut - 1) * n) as real
  {
    assert Edge(cut) * 2.0 == (2 * cut - 1) as real;
    assert Edge(cut) * n as real * 2.0 == (2 * cut - 1) as real * n as real;
  }

  lemma SameSide(x: real, edge: real, n: real, a: int, b: int)
    requires n > 0.0 && x * n * 2.0 == a as real && edge * n * 2.0 == b as real
    ensures (x > edge <==> a > b) && (x == edge <==> a == b)
  {
    SameOrder(x, edge, n);
  }

  lemma Threshold(k: nat, n: nat, cut: int)
    requires k <= n && 0 < n
    ensures 20000 * k > (2 * cut - 1) * n ==> Percentage(k, n) >= cut as real / 100.0
    ensures 20000 * k < (2 * cut - 1) * n ==> Percentage(k, n) < cut as real / 100.0
  {
    ShareTimes(k, n);
    EdgeTimes(n, cut);
    SameSide(Share(k, n), Edge(cut), n as real, 20000 * k, (2 * cut - 1) * n);
    RoundsToAtLeast(Share(k, n), cut);
    assert Percentage(k, n) == RoundHalfEven(Share(k, n)) as real / 100.0;
  }

  /** The coverage tests compare a rounded percentage. "All tickets are pointed" is reported although one
      is not, as soon as fewer than one ticket in 20000 is unpointed, and "at least half" as soon as more
      than 9999 tickets in 20000 are pointed; neither is reported on the other side of that share. On the
      share itself the last digit of the quotient decides. */
  lemma CoverageThresholds(issues: seq<Issue>)
    requires issues != []
    ensures |KeysWhere(issues, IsPointed)| <= |issues|
    ensures var k, n := |KeysWhere(issues, IsPointed)|, |issues|;
            && (20000 * (n - k) < n ==> FullyCovered(issues))
            && (20000 * (n - k) > n ==> !FullyCovered(issues))
            && (20000 * k > 9999 * n ==> CoveragePct(issues) >= MIN_COVERAGE)
            && (20000 * k < 9999 * n ==> CoveragePct(issues) < MIN_COVERAGE)
  {
    KeysAreSome(issues, IsPointed);
    var k := |KeysWhere(issues, IsPointed)|;
    Threshold(k, |issues|, 10000);
    Threshold(k, |issues|, 5000);
  }
}
