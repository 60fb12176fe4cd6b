/** The reopen-event rate: how many times tickets moved from done back to another status, per hundred
    tickets that ever reached done. */
module ReopenRate {
  import opened Sequences
  import opened Rounding
  import opened FlowMetrics
  import C = Classification

  datatype Event = Event(key: string, at: int, oldStatus: string, newStatus: string)

  predicate IsReopening(c: Change, m: C.Mapper) {
    c.at.Some? && c.oldStatus in m.done && c.newStatus != "" && c.newStatus !in m.done
  }

  function EventFor(key: string, c: Change): Event
    requires c.at.Some?
  {
    Event(key, c.at.value, c.oldStatus, c.newStatus)
  }

  // ---------------------------------------------------------------------------------------
  // What the facts say

  predicate ReachedDone(f: Facts, m: C.Mapper) { exists c :: c in f.changes && c.newStatus in m.done }

  function Reached(facts: set<Facts>, m: C.Mapper): set<string> {
    set f | f in facts && ReachedDone(f, m) :: f.key
  }

  function CurrentlyDone(facts: set<Facts>, m: C.Mapper): set<string> {
    set f | f in facts && f.status in m.done :: f.key
  }

  /** Tickets that are done or have ever been moved to done. */
  function Eligible(facts: set<Facts>, m: C.Mapper): set<string> { CurrentlyDone(facts, m) + Reached(facts, m) }

  function Candidates(facts: set<Facts>, m: C.Mapper): set<Event> {
    set f, c | f in facts && c in f.changes && IsReopening(c, m) :: EventFor(f.key, c)
  }

  function Events(facts: set<Facts>, m: C.Mapper): set<Event> {
    set e | e in Candidates(facts, m) && e.key in Eligible(facts, m)
  }

  function WithoutStatus(facts: set<Facts>): set<string> { set f | f in facts && f.status == "" :: f.key }

  /** Tickets whose missing status could still change which tickets are eligible. */
  function Affecting(facts: set<Facts>, m: C.Mapper): set<string> { WithoutStatus(facts) - Reached(facts, m) }

  function Incomplete(facts: set<Facts>): set<string> { set f | f in facts && !f.changelogComplete :: f.key }

  datatype Rate = Rate(status: Status, value: Option<real>, eligible: set<string>, events: set<Event>,
                       affecting: set<string>, incomplete: set<string>)

  function RateOf(eligible: set<string>, events: set<Event>, affecting: set<string>, incomplete: set<string>): Rate {
    if affecting + incomplete != {} then Rate(Partial, None, eligible, events, affecting, incomplete)
    else if |eligible| > 0 then
      Rate(Computed, Some(Round2(100.0 * |events| as real / |eligible| as real)), eligible, events, affecting, incomplete)
    else Rate(NotComputed, None, eligible, events, affecting, incomplete)
  }

  function Report(facts: set<Facts>, m: C.Mapper): Rate {
    RateOf(Eligible(facts, m), Events(facts, m), Affecting(facts, m), Incomplete(facts))
  }

  function AllFacts(ts: seq<Ticket>): (facts: set<Facts>)
    ensures forall f :: f in facts <==> exists t :: t in ts && FactsOf(t) == f
  {
    set t | t in ts :: FactsOf(t)
  }

  // ---------------------------------------------------------------------------------------
  // The evaluator

  /** One ticket's rows: whether it reached done, and its reopening events. */
  method ScanHistory(t: Ticket, m: C.Mapper) returns (reached: bool, events: set<Event>)
    ensures reached <==> ReachedDone(FactsOf(t), m)
    ensures events == Candidates({FactsOf(t)}, m)
  {
    reached, events := false, {};
    for i := 0 to |t.history|
      invariant reached <==> exists j :: 0 <= j < i && t.history[j].newStatus in m.done
      invariant forall e :: e in events <==> exists j :: 0 <= j < i && IsReopening(t.history[j], m) && e == EventFor(t.key, t.history[j])
    {
      var c := t.history[i];
      if c.newStatus in m.done {
        reached := true;
      }
      if c.at.Some? && c.oldStatus in m.done && c.newStatus != "" && c.newStatus !in m.done {
        events := events + {Event(t.key, c.at.value, c.oldStatus, c.newStatus)};
      }
    }
    assert forall c :: c in FactsOf(t).changes <==> exists j :: 0 <= j < |t.history| && t.history[j] == c;
  }

  datatype Tally = Tally(reached: set<string>, candidates: set<Event>, done: set<string>,
                         withoutStatus: set<string>, incomplete: set<string>)

  function TallyOf(facts: set<Facts>, m: C.Mapper): Tally {
    Tally(Reached(facts, m), Candidates(facts, m), CurrentlyDone(facts, m), WithoutStatus(facts), Incomplete(facts))
  }

  function If(test: bool, key: string): set<string> { if test then {key} else {} }

  lemma OneMore(facts: set<Facts>, f: Facts, m: C.Mapper)
    ensures var t := TallyOf(facts, m);
            TallyOf(facts + {f}, m)
            == Tally(t.reached + If(ReachedDone(f, m), f.key), t.candidates + Candidates({f}, m),
                     t.done + If(f.status in m.done, f.key), t.withoutStatus + If(f.status == "", f.key),
                     t.incomplete + If(!f.changelogComplete, f.key))
  {
    var more := facts + {f};
    assert Reached(more, m) == Reached(facts, m) + If(ReachedDone(f, m), f.key);
    assert Candidates(more, m) == Candidates(facts, m) + Candidates({f}, m);
    assert CurrentlyDone(more, m) == CurrentlyDone(facts, m) + If(f.status in m.done, f.key);
    assert WithoutStatus(more) == WithoutStatus(facts) + If(f.status == "", f.key);
    assert Incomplete(more) == Incomplete(facts) + If(!f.changelogComplete, f.key);
  }

  lemma NextTicket(ts: seq<Ticket>, i: nat)
    requires i < |ts|
    ensures AllFacts(ts[..i + 1]) == AllFacts(ts[..i]) + {FactsOf(ts[i])}
  {
    assert ts[..i + 1] == ts[..i] + [ts[i]];
  }

  /** `_evaluate_reopen_event_rate`. */
  method EvaluateReopenRate(ts: seq<Ticket>, m: C.Mapper) returns (r: Rate, counts: map<string, nat>)
    ensures r == Report(AllFacts(ts), m)
    ensures IsCountOf(counts, r.events)
  {
    var tally := Tally({}, {}, {}, {}, {});
    for i := 0 to |ts|
      invariant tally == TallyOf(AllFacts(ts[..i]), m)
    {
      var t := ts[i];
      var reached, events := ScanHistory(t, m);
      NextTicket(ts, i);
      OneMore(AllFacts(ts[..i]), FactsOf(t), m);
      tally := Tally(tally.reached + If(reached, t.key), tally.candidates + events,
                     tally.done + If(t.status in m.done, t.key), tally.withoutStatus + If(t.status == "", t.key),
                     tally.incomplete + If(!t.changelogComplete, t.key));
    }
    assert ts[..|ts|] == ts;
    var eligible := tally.done + tally.reached;
    var events := set e | e in tally.candidates && e.key in eligible;
    counts := CountByIssue(events);
    r := RateOf(eligible, events, tally.withoutStatus - tally.reached, tally.incomplete);
  }

  function Of(events: set<Event>, key: string): set<Event> { set e | e in events && e.key == key }

  ghost predicate Counts(counts: map<string, nat>, events: set<Event>, k: string) {
    (k in counts <==> Of(events, k) != {}) && (k in counts ==> counts[k] == |Of(events, k)|)
  }

  ghost predicate IsCountOf(counts: map<string, nat>, events: set<Event>) {
    forall k :: Counts(counts, events, k)
  }

  lemma OneMoreEvent(seen: set<Event>, e: Event, k: string)
    requires e !in seen
    ensures Of(seen + {e}, k) == if k == e.key then Of(seen, k) + {e} else Of(seen, k)
    ensures |Of(seen + {e}, k)| == |Of(seen, k)| + (if k == e.key then 1 else 0)
  {
    assert Of(seen + {e}, k) == if k == e.key then Of(seen, k) + {e} else Of(seen, k);
    assert e !in Of(seen, k);
  }

  lemma CountStep(counts: map<string, nat>, seen: set<Event>, e: Event)
    requires IsCountOf(counts, seen) && e !in seen
    ensures IsCountOf(counts[e.key := (if e.key in counts then counts[e.key] else 0) + 1], seen + {e})
  {
    var more := counts[e.key := (if e.key in counts then counts[e.key] else 0) + 1];
    forall k ensures Counts(more, seen + {e}, k) {
      assert Counts(counts, seen, k);
      OneMoreEvent(seen, e, k);
    }
  }

  method CountByIssue(events: set<Event>) returns (counts: map<string, nat>)
    ensures IsCountOf(counts, events)
  {
    counts := map[];
    var rest := events;
    ghost var seen: set<Event> := {};
    while rest != {}
      invariant seen + rest == events && seen * rest == {}
      invariant IsCountOf(counts, seen)
      decreases |rest|
    {
      var e :| e in rest;
      CountStep(counts, seen, e);
      counts := counts[e.key := (if e.key in counts then counts[e.key] else 0) + 1];
      seen, rest := seen + {e}, rest - {e};
    }
    assert seen == events;
  }

  // ---------------------------------------------------------------------------------------
  // Properties

  /** The per-issue counts add up to the number of events, key by key. */
  ghost function Total(keys: seq<string>, counts: map<string, nat>): nat {
    if keys == [] then 0
    else Total(keys[1..], counts) + (if keys[0] in counts then counts[keys[0]] else 0)
  }

  lemma {:induction false} CountsAddUp(keys: seq<string>, counts: map<string, nat>, events: set<Event>)
    requires forall i, j :: 0 <= i < j < |keys| ==> keys[i] != keys[j]
    requires forall e :: e in events ==> e.key in keys
    requires IsCountOf(counts, events)
    ensures Total(keys, counts) == |events|
  {
    if keys == [] {
      assert events == {};
    } else {
      var others := events - Of(events, keys[0]);
      var rest := counts - {keys[0]};
      WithoutOneKey(counts, events, keys[0]);
      forall e | e in others ensures e.key in keys[1..] {
        assert e.key in keys && e.key != keys[0];
      }
      CountsAddUp(keys[1..], rest, others);
      SameTotal(keys[1..], counts, rest);
      assert Counts(counts, events, keys[0]);
    }
  }

  lemma WithoutOneKey(counts: map<string, nat>, events: set<Event>, key: string)
    requires IsCountOf(counts, events)
    ensures IsCountOf(counts - {key}, events - Of(events, key))
    ensures |events| == |Of(events, key)| + |events - Of(events, key)|
  {
    var others := events - Of(events, key);
    forall k ensures Counts(counts - {key}, others, k) {
      assert Counts(counts, events, k);
      assert Of(others, k) == if k == key then {} else Of(events, k);
    }
    assert events == Of(events, key) + others;
  }

  lemma {:induction false} SameTotal(keys: seq<string>, a: map<string, nat>, b: map<string, nat>)
    requires forall k :: k in keys ==> (k in a <==> k in b) && (k in a ==> a[k] == b[k])
    ensures Total(keys, a) == Total(keys, b)
  {
    if keys != [] {
      SameTotal(keys[1..], a, b);
    }
  }

  /** `us` is `ts` with some missing statuses filled in. */
  ghost predicate FillsStatuses(ts: seq<Ticket>, us: seq<Ticket>) {
    && |us| == |ts|
    && forall i :: 0 <= i < |ts| ==> us[i] == ts[i].(status := us[i].status) && (ts[i].status != "" ==> us[i].status == ts[i].status)
  }

  lemma FillingKeepsHistory(ts: seq<Ticket>, us: seq<Ticket>, m: C.Mapper)
    requires FillsStatuses(ts, us)
    ensures Reached(AllFacts(us), m) == Reached(AllFacts(ts), m)
    ensures Candidates(AllFacts(us), m) == Candidates(AllFacts(ts), m)
    ensures Incomplete(AllFacts(us)) == Incomplete(AllFacts(ts))
  {
    forall f | f in AllFacts(ts) ensures exists g :: g in AllFacts(us) && g == f.(status := g.status) {
      var t :| t in ts && FactsOf(t) == f;
      var i :| 0 <= i < |ts| && ts[i] == t;
      assert us[i] in us && FactsOf(us[i]) in AllFacts(us);
    }
    forall g | g in AllFacts(us) ensures exists f :: f in AllFacts(ts) && g == f.(status := g.status) {
      var u :| u in us && FactsOf(u) == g;
      var i :| 0 <= i < |us| && us[i] == u;
      assert ts[i] in ts && FactsOf(ts[i]) in AllFacts(ts);
    }
  }

  lemma EligibleGrows(ts: seq<Ticket>, us: seq<Ticket>, m: C.Mapper)
    requires m.NoBlanks() && FillsStatuses(ts, us)
    ensures Eligible(AllFacts(ts), m) <= Eligible(AllFacts(us), m)
    ensures Events(AllFacts(ts), m) <= Events(AllFacts(us), m)
  {
    FillingKeepsHistory(ts, us, m);
    DoneOnlyGrows(ts, us, m);
  }

  lemma NothingAffecting(ts: seq<Ticket>, us: seq<Ticket>, m: C.Mapper)
    requires m.NoBlanks() && FillsStatuses(ts, us) && Affecting(AllFacts(ts), m) == {}
    ensures Eligible(AllFacts(us), m) == Eligible(AllFacts(ts), m)
    ensures Events(AllFacts(us), m) == Events(AllFacts(ts), m)
    ensures Affecting(AllFacts(us), m) == {}
  {
    var a, b := AllFacts(ts), AllFacts(us);
    FillingKeepsHistory(ts, us, m);
    DoneOnlyGrows(ts, us, m);
    forall k | k in WithoutStatus(a) ensures k in Reached(a, m) {
      assert k !in Affecting(a, m);
    }
    assert Eligible(a, m) == Eligible(b, m);
    assert Affecting(b, m) == {};
  }

  /** A returned rate, its events and its eligible tickets are the same in every completion of missing
      statuses; and while the rate is withheld, its counts are confirmed minima. */
  lemma ConfirmedRate(ts: seq<Ticket>, us: seq<Ticket>, m: C.Mapper)
    requires m.NoBlanks() && FillsStatuses(ts, us)
    ensures var r, q := Report(AllFacts(ts), m), Report(AllFacts(us), m);
            && r.eligible <= q.eligible && r.events <= q.events
            && |r.eligible| <= |q.eligible| && |r.events| <= |q.events|
            && (r.affecting == {} ==> q.eligible == r.eligible && q.events == r.events)
            && (r.status != Partial ==> q == r)
  {
    var r, q := Report(AllFacts(ts), m), Report(AllFacts(us), m);
    EligibleGrows(ts, us, m);
    SubsetSize(r.eligible, q.eligible);
    SubsetSize(r.events, q.events);
    if r.affecting == {} {
      NothingAffecting(ts, us, m);
      FillingKeepsHistory(ts, us, m);
    }
  }

  lemma DoneOnlyGrows(ts: seq<Ticket>, us: seq<Ticket>, m: C.Mapper)
    requires m.NoBlanks() && FillsStatuses(ts, us)
    ensures CurrentlyDone(AllFacts(ts), m) <= CurrentlyDone(AllFacts(us), m)
    ensures CurrentlyDone(AllFacts(us), m) <= CurrentlyDone(AllFacts(ts), m) + WithoutStatus(AllFacts(ts))
    ensures WithoutStatus(AllFacts(us)) <= WithoutStatus(AllFacts(ts))
  {
    forall f | f in AllFacts(ts) && f.status in m.done ensures f in AllFacts(us) {
      var t :| t in ts && FactsOf(t) == f;
      var i :| 0 <= i < |ts| && ts[i] == t;
      assert us[i] in us && us[i] == t;
    }
    forall g | g in AllFacts(us)
      ensures exists f :: f in AllFacts(ts) && f.key == g.key && (f.status == "" || f.status == g.status)
    {
      var u :| u in us && FactsOf(u) == g;
      var i :| 0 <= i < |us| && us[i] == u;
      assert ts[i] in ts && FactsOf(ts[i]) in AllFacts(ts);
    }
  }

  function FilledWith(ts: seq<Ticket>, text: string): (us: seq<Ticket>)
    ensures FillsStatuses(ts, us)
    ensures forall i :: 0 <= i < |ts| ==> us[i].status == C.Fill(ts[i].status, text)
  {
    seq(|ts|, i requires 0 <= i < |ts| => ts[i].(status := C.Fill(ts[i].status, text)))
  }

  lemma OnlyItsOwnStatusCounts(ts: seq<Ticket>, text: string, m: C.Mapper, key: string)
    requires m.Valid() && DistinctKeys(ts) && key in Affecting(AllFacts(ts), m)
    ensures key in Eligible(AllFacts(FilledWith(ts, text)), m) <==> text in m.done
  {
    var us := FilledWith(ts, text);
    FillingKeepsHistory(ts, us, m);
    var k :| 0 <= k < |ts| && ts[k].key == key && ts[k].status == "" by {
      var f :| f in AllFacts(ts) && f.status == "" && f.key == key;
      var t :| t in ts && FactsOf(t) == f;
    }
    assert us[k] in us && FactsOf(us[k]) in AllFacts(us);
    forall g | g in AllFacts(us) && g.key == key ensures g.status == text {
      var u :| u in us && FactsOf(u) == g;
      var i :| 0 <= i < |us| && us[i] == u;
      assert ts[i] in ts && ts[k] in ts && ts[i].key == ts[k].key;
    }
  }

  /** Withholding is needed: when a missing status is listed as affecting, one completion makes the
      ticket eligible and another does not. */
  lemma AffectingMatters(ts: seq<Ticket>, m: C.Mapper, key: string)
    requires m.Valid() && DistinctKeys(ts) && key in Affecting(AllFacts(ts), m)
    ensures exists us :: FillsStatuses(ts, us) && key in Report(AllFacts(us), m).eligible
    ensures exists vs :: FillsStatuses(ts, vs) && key !in Report(AllFacts(vs), m).eligible
  {
    var other := C.FreshText(m.done);
    var done :| done in m.done;
    OnlyItsOwnStatusCounts(ts, done, m, key);
    OnlyItsOwnStatusCounts(ts, other, m, key);
  }

  lemma FactsAreElements(ts: seq<Ticket>)
    ensures AllFacts(ts) == Elements(Map(ts, FactsOf))
  {
    var listed := Map(ts, FactsOf);
    forall f ensures f in AllFacts(ts) <==> f in listed {
      if f in AllFacts(ts) {
        var t :| t in ts && FactsOf(t) == f;
        var i :| 0 <= i < |ts| && ts[i] == t;
        assert listed[i] == f;
      }
      if f in listed {
        var i :| 0 <= i < |listed| && listed[i] == f;
        assert ts[i] in ts;
      }
    }
  }

  /** Order and repetition of tickets and history rows do not matter, and every counted event belongs
      to an eligible ticket. */
  lemma RateDependsOnFacts(ts: seq<Ticket>, us: seq<Ticket>, m: C.Mapper)
    requires Elements(Map(ts, FactsOf)) == Elements(Map(us, FactsOf))
    ensures Report(AllFacts(ts), m) == Report(AllFacts(us), m)
    ensures forall e :: e in Report(AllFacts(ts), m).events ==> e.key in Report(AllFacts(ts), m).eligible
  {
    FactsAreElements(ts);
    FactsAreElements(us);
  }

  // ---------------------------------------------------------------------------------------
  // The result in terms of the rows

  /** The ticket is done, or a row of its history moved it into done. */
  ghost predicate EverDone(t: Ticket, m: C.Mapper) {
    t.status in m.done || exists i :: 0 <= i < |t.history| && t.history[i].newStatus in m.done
  }

  /** A row of the history takes the ticket out of done, into a status that is known and not done. */
  ghost predicate RowReopens(t: Ticket, e: Event, m: C.Mapper) {
    && t.key == e.key && e.oldStatus in m.done && e.newStatus != "" && e.newStatus !in m.done
    && exists i :: 0 <= i < |t.history| && t.history[i] == Change(Some(e.at), e.oldStatus, e.newStatus)
  }

  lemma FactsOfHistory(t: Ticket, m: C.Mapper)
    ensures forall c :: c in FactsOf(t).changes <==> exists i :: 0 <= i < |t.history| && t.history[i] == c
    ensures ReachedDone(FactsOf(t), m) <==> exists i :: 0 <= i < |t.history| && t.history[i].newStatus in m.done
  {
    forall i | 0 <= i < |t.history| ensures t.history[i] in FactsOf(t).changes {}
  }

  /** The listed tickets are those that were ever done, and the listed events the rows that reopen one. */
  lemma EligibleIff(ts: seq<Ticket>, m: C.Mapper, key: string)
    ensures key in Report(AllFacts(ts), m).eligible <==> exists t :: t in ts && t.key == key && EverDone(t, m)
  {
    if key in Report(AllFacts(ts), m).eligible {
      var f :| f in AllFacts(ts) && f.key == key && (f.status in m.done || ReachedDone(f, m));
      var t :| t in ts && FactsOf(t) == f;
      FactsOfHistory(t, m);
      assert EverDone(t, m);
    }
    forall t | t in ts && t.key == key && EverDone(t, m) ensures key in Report(AllFacts(ts), m).eligible {
      FactsOfHistory(t, m);
      assert FactsOf(t) in AllFacts(ts);
    }
  }

  lemma EventIff(ts: seq<Ticket>, m: C.Mapper, e: Event)
    ensures e in Report(AllFacts(ts), m).events <==>
              (exists t :: t in ts && RowReopens(t, e, m)) && (exists t :: t in ts && t.key == e.key && EverDone(t, m))
  {
    EligibleIff(ts, m, e.key);
    if e in Candidates(AllFacts(ts), m) {
      var f, c :| f in AllFacts(ts) && c in f.changes && IsReopening(c, m) && e == EventFor(f.key, c);
      var t :| t in ts && FactsOf(t) == f;
      FactsOfHistory(t, m);
      assert RowReopens(t, e, m);
    }
    forall t | t in ts && RowReopens(t, e, m) ensures e in Candidates(AllFacts(ts), m) {
      var i :| 0 <= i < |t.history| && t.history[i] == Change(Some(e.at), e.oldStatus, e.newStatus);
      FactsOfHistory(t, m);
      assert FactsOf(t) in AllFacts(ts) && t.history[i] in FactsOf(t).changes;
      assert EventFor(t.key, t.history[i]) == e && IsReopening(t.history[i], m);
    }
  }

  /** The rate is withheld while a ticket has an incomplete history, or has no status and never reached done. */
  lemma WithheldIff(ts: seq<Ticket>, m: C.Mapper)
    ensures Report(AllFacts(ts), m).status == Partial <==> exists t :: t in ts && (!t.changelogComplete || Undecided(ts, t, m))
  {
    forall key ensures key in Affecting(AllFacts(ts), m) <==> exists t :: t in ts && t.key == key && Undecided(ts, t, m) {
      AffectingIff(ts, m, key);
    }
    forall t | t in ts ensures FactsOf(t) in AllFacts(ts) {}
    var listed := Affecting(AllFacts(ts), m) + Incomplete(AllFacts(ts));
    if listed != {} {
      var key :| key in listed;
    }
    forall t | t in ts && (!t.changelogComplete || Undecided(ts, t, m)) ensures t.key in listed {}
  }

  /** Otherwise it is the events per hundred listed tickets, up to rounding, if there are any. */
  lemma RateIsRight(ts: seq<Ticket>, m: C.Mapper)
    ensures var r := Report(AllFacts(ts), m);
            && (r.status == NotComputed ==> r.eligible == {})
            && (r.value.Some? <==> r.status == Computed)
            && (r.status == Computed ==>
                  r.eligible != {} && -0.005 <= r.value.value - 100.0 * |r.events| as real / |r.eligible| as real <= 0.005)
  {}

  /** Without a status, and no row about its key leads into done. */
  ghost predicate Undecided(ts: seq<Ticket>, t: Ticket, m: C.Mapper) {
    && t.status == ""
    && forall u, i :: u in ts && u.key == t.key && 0 <= i < |u.history| ==> u.history[i].newStatus !in m.done
  }

  lemma AffectingIff(ts: seq<Ticket>, m: C.Mapper, key: string)
    ensures key in Affecting(AllFacts(ts), m) <==> exists t :: t in ts && t.key == key && Undecided(ts, t, m)
  {
    forall u | u in ts ensures FactsOf(u) in AllFacts(ts) {}
    forall u | u in ts
      ensures ReachedDone(FactsOf(u), m) <==> exists i :: 0 <= i < |u.history| && u.history[i].newStatus in m.done
    {
      FactsOfHistory(u, m);
    }
  }
}
