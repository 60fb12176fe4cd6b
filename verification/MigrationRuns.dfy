/** What holds in every run of the migration protocol, and exactly where its guarantee ends. */
module MigrationRuns {
  import opened Sequences
  import opened SchemaRevision
  import opened MigrationProtocol
  import opened MigrationInvariant

  /** Every step of every starter keeps the invariant and every file that is not temporary. */
  lemma StepKeepsInv(s: System, e: Event, s': System)
    requires Inv(s) && Step(s, e, s')
    ensures Inv(s') && Preserves(s.disk, s'.disk)
  {
    match e {
      case Launch(id) => LaunchKeepsInv(s, id, s');
      case Crash(id) => CrashKeepsInv(s, id, s');
      case Environment => EnvironmentKeepsInv(s, s');
      case Fail(id) => FailKeepsInv(s, id, s');
      case Act(id) => ActKeepsInv(s, id, s');
    }
  }

  lemma {:induction false} RunKeepsInv(states: seq<System>, events: seq<Event>, i: nat)
    requires IsRun(states, events) && i < |states|
    ensures Inv(states[i])
  {
    if i > 0 {
      RunKeepsInv(states, events, i - 1);
      assert StepAt(states, events, i - 1);
      StepKeepsInv(states[i - 1], events[i - 1], states[i]);
    }
  }

  // ---------------------------------------------------------------------------------------
  // Safety of every run

  /** The starter is about to change the database: its next step is a stamp or an upgrade. */
  predicate Migrating(s: System, e: Event) {
    e.Act? && e.id in s.starters && s.starters[e.id].phase in {Ready, Stamped}
  }

  /** In every run, whatever the interleaving, the failures and the crashes: a starter stamps or
      upgrades an existing SQLite schema it found only while the canonical backup for its target is
      a valid SQLite file whose revision is the identity of that schema and strictly precedes the
      target. */
  lemma NoMigrationWithoutBackup(states: seq<System>, events: seq<Event>, i: nat)
    requires IsRun(states, events) && i < |events| && Migrating(states[i], events[i])
    requires var me := states[i].starters[events[i].id];
             && me.cfg.sqlite && me.cfg.fileBacked
             && exists t :: t in me.found.schema && t != "alembic_version"
    ensures var me, disk := states[i].starters[events[i].id], states[i].disk;
            && |me.cfg.scriptHeads| == 1
            && (var target := me.cfg.scriptHeads[0];
                var canonical := disk.dbName + (".pre-" + target + ".bak");
                && canonical in disk.names && disk.names[canonical].File? && disk.names[canonical].inode in disk.inodes
                && disk.inodes[disk.names[canonical].inode].Sqlite?
                && (var backup := disk.inodes[disk.names[canonical].inode].db;
                    && Identify(backup, me.cfg.Known(), me.cfg.registry) == Identify(me.found, me.cfg.Known(), me.cfg.registry)
                    && Identify(backup, me.cfg.Known(), me.cfg.registry).Ok?
                    && exists a, b :: 0 <= a < b < |me.cfg.chain| && me.cfg.chain[b] == target
                                      && me.cfg.chain[a] == Identify(backup, me.cfg.Known(), me.cfg.registry).value.revision))
  {
    RunKeepsInv(states, events, i);
    var me, disk := states[i].starters[events[i].id], states[i].disk;
    SchemaIsBackedUp(me.cfg, me.found);
    var a, b := IndexOf(me.cfg.chain, me.source.value.revision), IndexOf(me.cfg.chain, me.cfg.Target());
    assert Backed(disk, me) && a < b;
  }

  /** A starter's first step: it looks at the database and decides. */
  predicate Looks(s: System, e: Event, id: nat) {
    e == Act(id) && id in s.starters && s.starters[id].phase == Started
  }

  /** Between its decision and the end of its migration. */
  predicate Decided(s: Starter) {
    s.phase in {Checking, Trusting, Creating, Ready, Stamped} || s.HoldsTemp()
  }

  /** What it does is its plan for the database it found. */
  predicate CarriesOut(s: Starter) {
    match MakePlan(s.cfg, s.found)
    case BackupFirst(source) => s.source == Some(source)
    case Proceed(from) => s.source == from && s.phase in {Ready, Stamped}
    case _ => false
  }

  lemma DecisionIsKept(disk: Disk, s: Starter, disk': Disk, s': Starter)
    requires Acts(disk, s, disk', s') && Decided(s')
    ensures s.phase == Started ==> s'.cfg == s.cfg && s'.found == disk.db && CarriesOut(s')
    ensures s.phase != Started ==> Decided(s) && s'.cfg == s.cfg && s'.found == s.found
    ensures s.phase != Started && CarriesOut(s) ==> CarriesOut(s')
  {}

  lemma StepKeepsDecision(s: System, e: Event, s': System, id: nat)
    requires Step(s, e, s') && id in s'.starters && Decided(s'.starters[id])
    ensures id in s.starters && s'.starters[id].cfg == s.starters[id].cfg
    ensures Looks(s, e, id) ==> s'.starters[id].found == s.disk.db && CarriesOut(s'.starters[id])
    ensures !Looks(s, e, id) ==> Decided(s.starters[id]) && s'.starters[id].found == s.starters[id].found
    ensures !Looks(s, e, id) && CarriesOut(s.starters[id]) ==> CarriesOut(s'.starters[id])
  {
    if e == Act(id) {
      DecisionIsKept(s.disk, s.starters[id], s'.disk, s'.starters[id]);
    }
  }

  /** In every run a starter that is at work looked at the database once, at some earlier moment, and
      carries out its plan for the database of that moment, whatever has become of it since. */
  lemma {:induction false} FoundWasThere(states: seq<System>, events: seq<Event>, i: nat, id: nat) returns (h: nat)
    requires IsRun(states, events) && i < |states|
    requires id in states[i].starters && Decided(states[i].starters[id])
    ensures h < i && Looks(states[h], events[h], id)
    ensures states[i].starters[id].cfg == states[h].starters[id].cfg
    ensures states[i].starters[id].found == states[h].disk.db && CarriesOut(states[i].starters[id])
    ensures forall k :: h < k <= i ==>
              id in states[k].starters && Decided(states[k].starters[id]) && states[k].starters[id].found == states[h].disk.db
  {
    assert i > 0;
    assert StepAt(states, events, i - 1);
    StepKeepsDecision(states[i - 1], events[i - 1], states[i], id);
    if Looks(states[i - 1], events[i - 1], id) {
      h := i - 1;
    } else {
      h := FoundWasThere(states, events, i - 1, id);
    }
  }

  /** Once published, a backup is never overwritten, replaced or removed: from any moment of a run
      on, every file that is not temporary stays where it is with what it holds. */
  lemma {:induction false} PublishedForever(states: seq<System>, events: seq<Event>, i: nat, j: nat)
    requires IsRun(states, events) && i <= j < |states|
    ensures Preserves(states[i].disk, states[j].disk)
  {
    if i < j {
      PublishedForever(states, events, i, j - 1);
      RunKeepsInv(states, events, j - 1);
      assert StepAt(states, events, j - 1);
      StepKeepsInv(states[j - 1], events[j - 1], states[j]);
    }
  }

  /** Nothing torn is ever published: in every run a canonical backup that no outsider put there
      holds a whole database, one that the migrated database once was. */
  lemma PublishedBackupsAreWhole(states: seq<System>, events: seq<Event>, i: nat, target: string)
    requires IsRun(states, events) && i < |states|
    requires var canonical := Canonical(states[i].disk.dbName, target);
             canonical in states[i].disk.names && canonical !in states[i].foreign
    ensures var disk, canonical := states[i].disk, Canonical(states[i].disk.dbName, target);
            disk.HasContent(canonical) && disk.ContentOf(canonical).Sqlite?
            && exists h :: 0 <= h <= i && states[h].disk.db == disk.ContentOf(canonical).db
  {
    RunKeepsInv(states, events, i);
    TempIsNeverCanonical(states[i].disk.dbName, target, "", "");
    PastIsPast(states, events, i, states[i].disk.ContentOf(Canonical(states[i].disk.dbName, target)).db);
  }

  lemma {:induction false} PastIsPast(states: seq<System>, events: seq<Event>, i: nat, db: Database)
    requires IsRun(states, events) && i < |states| && db in states[i].past
    ensures exists h :: 0 <= h <= i && states[h].disk.db == db
  {
    if i > 0 && states[i].disk.db != db {
      assert StepAt(states, events, i - 1);
      PastIsPast(states, events, i - 1, db);
    }
  }

  /** The step that puts a name there: an outsider's, or the publication of a backup. */
  ghost predicate Publishes(s: System, e: Event, s': System, name: string) {
    && name !in s.disk.names && name in s'.disk.names
    && (e.Environment?
        || (e.Act? && e.id in s.starters && s.starters[e.id].phase == Checked && s.starters[e.id].cfg.HasTarget()
            && name == Canonical(s.disk.dbName, s.starters[e.id].cfg.Target())))
  }

  lemma PublishersOnly(s: System, e: Event, s': System, name: string)
    requires Step(s, e, s') && !IsTemp(name) && name !in s.disk.names && name in s'.disk.names
    ensures Publishes(s, e, s', name)
  {}

  /** In every run a backup name is taken exactly if it was at the start, or a step published it. */
  lemma {:induction false} TakenIffPublished(states: seq<System>, events: seq<Event>, i: nat, name: string)
    requires IsRun(states, events) && i < |states| && !IsTemp(name)
    ensures name in states[i].disk.names <==>
              name in states[0].disk.names
              || exists k :: 0 <= k < i && Publishes(states[k], events[k], states[k + 1], name)
  {
    if i > 0 {
      TakenIffPublished(states, events, i - 1, name);
      RunKeepsInv(states, events, i - 1);
      assert StepAt(states, events, i - 1);
      StepKeepsInv(states[i - 1], events[i - 1], states[i]);
      if name in states[i].disk.names && name !in states[i - 1].disk.names {
        PublishersOnly(states[i - 1], events[i - 1], states[i], name);
      }
    }
  }

  // ---------------------------------------------------------------------------------------
  // Where the guarantee ends

  /** A SQLite database that holds a schema is about to be changed: one in a file, in memory or behind a
      `file:` URL. */
  predicate Exposed(s: System, e: Event) {
    Migrating(s, e) && s.starters[e.id].cfg.HasTarget() && s.starters[e.id].cfg.sqlite && s.disk.db.HasApplicationSchema()
  }

  /** It is changed although the starter has no valid backup to rely on: there is none for its target, or
      what has that name is damaged, of another revision, or was never validated against anything. */
  ghost predicate Unguarded(s: System, e: Event) {
    Exposed(s, e) && !Backed(s.disk, s.starters[e.id])
  }

  /** What a starter's source can be, from the database it found. */
  lemma SourceOfPlan(s: Starter)
    requires CarriesOut(s)
    ensures Fresh(s.found) <==> s.source.None?
    ensures s.source.Some? ==> Identify(s.found, s.cfg.Known(), s.cfg.registry) == Ok(s.source.value)
  {
    PlanIsRight(s.cfg, s.found);
    if Fresh(s.found) {
      assert !s.found.HasApplicationSchema();
    }
  }

  /** Exactly when the guarantee fails, for every run. A starter that found a schema in a file is always
      guarded. Otherwise, if it found no table at all it never is, whatever lies under the backup name; and
      if it found a recorded revision, it is unguarded just when no valid backup of that revision is there. */
  lemma UnguardedIff(states: seq<System>, events: seq<Event>, i: nat) returns (h: nat)
    requires IsRun(states, events) && i < |events| && Exposed(states[i], events[i])
    ensures h < i && Looks(states[h], events[h], events[i].id)
    ensures var cfg, found := states[h].starters[events[i].id].cfg, states[h].disk.db;
            var identity := Identify(found, cfg.Known(), cfg.registry);
            && (identity.Err? ==> Fresh(found))
            && (Unguarded(states[i], events[i]) <==>
                  && !(found.HasApplicationSchema() && cfg.fileBacked)
                  && (Fresh(found) || !ValidatesCanonical(states[i].disk, cfg, identity.value)))
  {
    var me := states[i].starters[events[i].id];
    h := FoundWasThere(states, events, i, events[i].id);
    RunKeepsInv(states, events, i);
    SourceOfPlan(me);
  }

  /** A step of this starter. */
  predicate Concerns(e: Event, id: nat) { !e.Environment? && e.id == id }

  /** A starter that found no schema has one step left: the upgrade. */
  lemma NoStepBetween(s: System, e: Event, s': System, id: nat)
    requires Step(s, e, s') && id in s.starters && Decided(s.starters[id]) && id in s'.starters && Decided(s'.starters[id])
    requires CarriesOut(s.starters[id]) && !s.starters[id].found.HasApplicationSchema()
    ensures !Concerns(e, id)
  {
    PlanIsRight(s.starters[id].cfg, s.starters[id].found);
  }

  lemma {:induction false} SchemaAppears(states: seq<System>, i: nat, j: nat) returns (k: nat)
    requires i <= j < |states|
    requires !states[i].disk.db.HasApplicationSchema() && states[j].disk.db.HasApplicationSchema()
    ensures i <= k < j && !states[k].disk.db.HasApplicationSchema() && states[k + 1].disk.db.HasApplicationSchema()
    decreases j - i
  {
    if states[i + 1].disk.db.HasApplicationSchema() {
      k := i;
    } else {
      k := SchemaAppears(states, i + 1, j);
    }
  }

  /** For a database in a file it takes someone else: in every run with an unguarded migration another
      starter or the outside world built the schema after the starter had looked and before it migrates. */
  lemma RaceTakesTwo(states: seq<System>, events: seq<Event>, i: nat) returns (h: nat, k: nat)
    requires IsRun(states, events) && i < |events| && Unguarded(states[i], events[i])
    requires states[i].starters[events[i].id].cfg.fileBacked
    ensures h < k < i && Looks(states[h], events[h], events[i].id)
    ensures !states[k].disk.db.HasApplicationSchema() && states[k + 1].disk.db.HasApplicationSchema()
    ensures forall n :: h < n < i ==> !Concerns(events[n], events[i].id)
  {
    var id := events[i].id;
    h := FoundWasThere(states, events, i, id);
    RunKeepsInv(states, events, i);
    assert StepAt(states, events, h);
    k := SchemaAppears(states, h + 1, i);
    forall n | h < n < i ensures !Concerns(events[n], id) {
      assert StepAt(states, events, n);
      var f := FoundWasThere(states, events, n, id);
      NoStepBetween(states[n], events[n], states[n + 1], id);
    }
  }

  // ---------------------------------------------------------------------------------------
  // A starter that is left alone

  /** While the starter is at work, nobody else changes the database. */
  predicate LeftAlone(states: seq<System>, events: seq<Event>, i: nat, id: nat)
    requires i <= |events| < |states|
  {
    forall n :: 0 <= n < i && !Concerns(events[n], id) && id in states[n].starters && Decided(states[n].starters[id]) ==>
      states[n + 1].disk.db == states[n].disk.db
  }

  /** The database is what the starter found, stamped with the recognised revision once it has done so. */
  predicate IsAsFound(disk: Disk, s: Starter) {
    if s.phase == Stamped then
      s.source.Some?
      && disk.db == s.found.(schema := s.found.schema[VERSION_TABLE := {"version_num"}], heads := [s.source.value.revision])
    else disk.db == s.found
  }

  lemma OwnActKeepsAsFound(disk: Disk, s: Starter, disk': Disk, s': Starter)
    requires Acts(disk, s, disk', s') && Decided(s') && (s.phase != Started ==> IsAsFound(disk, s))
    ensures IsAsFound(disk', s')
  {}

  lemma OwnStepKeepsAsFound(s: System, e: Event, s': System, id: nat)
    requires Step(s, e, s') && Concerns(e, id) && id in s'.starters && Decided(s'.starters[id])
    requires !Looks(s, e, id) ==> id in s.starters && IsAsFound(s.disk, s.starters[id])
    ensures IsAsFound(s'.disk, s'.starters[id])
  {
    if e.Act? {
      OwnActKeepsAsFound(s.disk, s.starters[id], s'.disk, s'.starters[id]);
    }
  }

  lemma OtherStepKeepsAsFound(s: System, e: Event, s': System, id: nat)
    requires Step(s, e, s') && !Concerns(e, id) && s'.disk.db == s.disk.db
    requires id in s.starters && IsAsFound(s.disk, s.starters[id])
    ensures id in s'.starters && IsAsFound(s'.disk, s'.starters[id])
  {}

  lemma StepKeepsAsFound(s: System, e: Event, s': System, id: nat)
    requires Step(s, e, s') && id in s'.starters && Decided(s'.starters[id])
    requires !Looks(s, e, id) ==> id in s.starters && IsAsFound(s.disk, s.starters[id])
    requires !Concerns(e, id) ==> s'.disk.db == s.disk.db
    ensures IsAsFound(s'.disk, s'.starters[id])
  {
    if Concerns(e, id) {
      OwnStepKeepsAsFound(s, e, s', id);
    } else {
      OtherStepKeepsAsFound(s, e, s', id);
    }
  }

  lemma DecidedBefore(states: seq<System>, events: seq<Event>, i: nat, id: nat)
    requires IsRun(states, events) && 0 < i < |states| && id in states[i].starters && Decided(states[i].starters[id])
    ensures Step(states[i - 1], events[i - 1], states[i]) && id in states[i - 1].starters
    ensures Looks(states[i - 1], events[i - 1], id) || Decided(states[i - 1].starters[id])
  {
    assert StepAt(states, events, i - 1);
    StepKeepsDecision(states[i - 1], events[i - 1], states[i], id);
  }

  lemma {:induction false} LeftAloneAsFound(states: seq<System>, events: seq<Event>, i: nat, id: nat)
    requires IsRun(states, events) && i < |states| && id in states[i].starters && Decided(states[i].starters[id])
    requires LeftAlone(states, events, i, id)
    ensures IsAsFound(states[i].disk, states[i].starters[id])
  {
    assert i > 0;
    DecidedBefore(states, events, i, id);
    if !Looks(states[i - 1], events[i - 1], id) {
      LeftAloneAsFound(states, events, i - 1, id);
    }
    StepKeepsAsFound(states[i - 1], events[i - 1], states[i], id);
  }

  lemma SameRevision(disk: Disk, s: Starter)
    requires IsAsFound(disk, s) && SourceIsRight(s) && s.source.value.revision in s.cfg.chain
    ensures var identity := Identify(disk.db, s.cfg.Known(), s.cfg.registry);
            identity.Ok? && identity.value.revision == s.source.value.revision
  {}

  /** A starter that is left alone migrates an existing schema in a file only beside a valid backup of the
      very revision the database is at. */
  lemma LeftAloneIsGuardedNow(states: seq<System>, events: seq<Event>, i: nat)
    requires IsRun(states, events) && i < |events| && Migrating(states[i], events[i])
    requires var me := states[i].starters[events[i].id]; MustBackUp(me.cfg, me.found)
    requires LeftAlone(states, events, i, events[i].id)
    ensures var cfg, disk := states[i].starters[events[i].id].cfg, states[i].disk;
            var now := Identify(disk.db, cfg.Known(), cfg.registry);
            && now.Ok?
            && cfg.HasTarget() && disk.HasContent(Canonical(disk.dbName, cfg.Target()))
            && disk.ContentOf(Canonical(disk.dbName, cfg.Target())).Sqlite?
            && (var backup := Identify(disk.ContentOf(Canonical(disk.dbName, cfg.Target())).db, cfg.Known(), cfg.registry);
                backup.Ok? && backup.value.revision == now.value.revision)
  {
    RunKeepsInv(states, events, i);
    LeftAloneAsFound(states, events, i, events[i].id);
    SameRevision(states[i].disk, states[i].starters[events[i].id]);
  }

  // ---------------------------------------------------------------------------------------
  // A run that is not guarded

  /** The system after a step of one starter. */
  function Acted(s: System, id: nat, disk: Disk, me: Starter): System {
    System(disk, s.starters[id := me], s.past + {disk.db}, s.foreign)
  }

  lemma OneMoreStep(states: seq<System>, events: seq<Event>, e: Event, s: System)
    requires IsRun(states, events) && Step(states[|events|], e, s)
    ensures IsRun(states + [s], events + [e])
  {
    var longer, more := states + [s], events + [e];
    forall i | 0 <= i < |more| ensures StepAt(longer, more, i) {
      assert i < |events| ==> StepAt(states, events, i);
    }
  }

  lemma StarterIsLaunched(states: seq<System>, events: seq<Event>, id: nat, me: Starter)
    requires IsRun(states, events) && id !in states[|events|].starters && me.phase == Started
    ensures IsRun(states + [Acted(states[|events|], id, states[|events|].disk, me)], events + [Launch(id)])
  {
    RunKeepsInv(states, events, |events|);
    OneMoreStep(states, events, Launch(id), Acted(states[|events|], id, states[|events|].disk, me));
  }

  /** A starter that finds an empty database is ready at once. */
  lemma FreshStarterLooks(states: seq<System>, events: seq<Event>, id: nat, ready: Starter)
    requires IsRun(states, events) && id in states[|events|].starters && states[|events|].starters[id] == ready.(phase := Started)
    requires ready.cfg.HasTarget() && ready.phase == Ready && ready.source == None && Fresh(ready.found)
    requires states[|events|].disk.db == ready.found
    ensures IsRun(states + [Acted(states[|events|], id, states[|events|].disk, ready)], events + [Act(id)])
  {
    assert MakePlan(ready.cfg, ready.found) == Proceed(None);
    OneMoreStep(states, events, Act(id), Acted(states[|events|], id, states[|events|].disk, ready));
  }

  /** Its upgrade succeeds, whatever the database has become. */
  lemma FreshStarterUpgrades(states: seq<System>, events: seq<Event>, id: nat, ready: Starter, disk: Disk)
    requires IsRun(states, events) && id in states[|events|].starters && states[|events|].starters[id] == ready
    requires ready.cfg.HasTarget() && ready.phase == Ready && ready.source == None
    requires disk == states[|events|].disk.(db := disk.db) && disk.db.heads == [ready.cfg.Target()]
    ensures IsRun(states + [Acted(states[|events|], id, disk, ready.(phase := Done))], events + [Act(id)])
  {
    OneMoreStep(states, events, Act(id), Acted(states[|events|], id, disk, ready.(phase := Done)));
  }

  lemma NewerWouldBackUp(older: Config, newer: Config, built: Database)
    requires older.HasTarget() && newer.HasTarget() && newer.sqlite && newer.fileBacked
    requires Precedes(newer.chain, older.Target(), newer.Target())
    requires built.heads == [older.Target()] && built.HasApplicationSchema()
    ensures MakePlan(newer, built) == BackupFirst(Identity(older.Target(), Alembic))
  {}

  lemma RacingRun(older: Config, newer: Config, bare: Disk, full: Disk, last: Disk)
    returns (states: seq<System>, events: seq<Event>)
    requires older.HasTarget() && newer.HasTarget()
    requires Fresh(bare.db) && forall n :: n in bare.names && bare.names[n].File? ==> bare.names[n].inode in bare.inodes
    requires full == bare.(db := full.db) && full.db.heads == [older.Target()]
    requires last == bare.(db := last.db) && last.db.heads == [newer.Target()]
    ensures IsRun(states, events) && |events| == 6 && events[5] == Act(1)
    ensures states[0].disk == bare && states[5].disk == full && states[6].disk == last
    ensures 1 in states[5].starters && states[5].starters[1] == Starter(newer, Ready, bare.db, None, "")
  {
    var first, second := Starter(older, Ready, bare.db, None, ""), Starter(newer, Ready, bare.db, None, "");
    states, events := [System(bare, map[], {bare.db}, bare.names.Keys)], [];
    StarterIsLaunched(states, events, 0, first.(phase := Started));
    states, events := states + [Acted(states[0], 0, bare, first.(phase := Started))], events + [Launch(0)];
    StarterIsLaunched(states, events, 1, second.(phase := Started));
    states, events := states + [Acted(states[1], 1, bare, second.(phase := Started))], events + [Launch(1)];
    FreshStarterLooks(states, events, 0, first);
    states, events := states + [Acted(states[2], 0, bare, first)], events + [Act(0)];
    FreshStarterLooks(states, events, 1, second);
    states, events := states + [Acted(states[3], 1, bare, second)], events + [Act(1)];
    FreshStarterUpgrades(states, events, 0, first, full);
    states, events := states + [Acted(states[4], 0, full, first.(phase := Done))], events + [Act(0)];
    FreshStarterUpgrades(states, events, 1, second, last);
    states, events := states + [Acted(states[5], 1, last, second.(phase := Done))], events + [Act(1)];
  }

  /** Such runs exist on any disk with a fresh database, even one with something under the backup name. Two
      starters of different versions both find the database fresh; the first builds the schema of its
      target, and the second upgrades that schema to its own, later target: a change it would have refused
      to make without a backup, had it looked again. */
  lemma FreshDatabaseRace(older: Config, newer: Config, bare: Disk, built: Database, upgraded: Database)
    returns (states: seq<System>, events: seq<Event>)
    requires older.HasTarget() && newer.HasTarget() && newer.sqlite && newer.fileBacked
    requires Precedes(newer.chain, older.Target(), newer.Target())
    requires Fresh(bare.db) && forall n :: n in bare.names && bare.names[n].File? ==> bare.names[n].inode in bare.inodes
    requires built.heads == [older.Target()] && built.HasApplicationSchema() && upgraded.heads == [newer.Target()]
    ensures IsRun(states, events) && |events| == 6 && states[0].disk == bare
    ensures Unguarded(states[5], events[5]) && states[5].starters[events[5].id].cfg == newer
    ensures MakePlan(newer, states[5].disk.db) == BackupFirst(Identity(older.Target(), Alembic))
    ensures states[5].disk.db == built && states[6].disk.db == upgraded && upgraded != built
  {
    NewerWouldBackUp(older, newer, built);
    states, events := RacingRun(older, newer, bare, bare.(db := built), bare.(db := upgraded));
  }
}
