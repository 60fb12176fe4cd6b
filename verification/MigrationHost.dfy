/** One startup as the program runs it, each effect recorded as a step of the protocol. What the program
    cannot choose is given by a `World`. */
module MigrationHost {
  import opened Sequences
  import opened SchemaRevision
  import opened MigrationProtocol

  /** Which input and output operations raise, and what the outside world supplies. */
  datatype World = World(salt: string, inode: nat, upgraded: Database, broken: Database,
                         mkstempFails: bool, copyFails: bool, flushFails: bool, unlinkFails: bool,
                         stampFails: bool, upgradeFails: bool)

  datatype Outcome = Unchanged | Migrated | Raised

  ghost predicate Moves(disk: Disk, s: Starter, disk': Disk, s': Starter) {
    Acts(disk, s, disk', s') || Fails(disk, s, disk', s')
  }

  /** Consecutive entries are moves of one starter. */
  ghost predicate IsTrace(trace: seq<(Disk, Starter)>) {
    trace != [] && forall i :: 0 <= i < |trace| - 1 ==> Moves(trace[i].0, trace[i].1, trace[i + 1].0, trace[i + 1].1)
  }

  predicate NoFailure(world: World) {
    !(world.mkstempFails || world.copyFails || world.flushFails || world.stampFails || world.upgradeFails)
  }

  lemma DatabaseChangeKeeps(start: Disk, disk: Disk, disk': Disk)
    requires Preserves(start, disk) && disk' == disk.(db := disk'.db)
    ensures Preserves(start, disk')
    ensures forall cfg: Config, source :: ValidatesCanonical(disk, cfg, source) ==> ValidatesCanonical(disk', cfg, source)
  {}

  /** What must hold for a startup without any I/O failure to go through. */
  predicate WillSucceed(cfg: Config, disk: Disk) {
    match MakePlan(cfg, disk.db)
    case Refuse => false
    case UpToDate => true
    case Proceed(_) => true
    case BackupFirst(source) =>
      cfg.HasTarget() &&
      (var canonical := Canonical(disk.dbName, cfg.Target());
       if disk.Exists(canonical) then ValidatesCanonical(disk, cfg, source)
       else canonical !in disk.names && Precedes(cfg.chain, source.revision, cfg.Target()))
  }

  /** What decides in the end. On a database file that records revision chain[i], with target chain[j]: the
      target is not behind, and the backup name is free or leads to a SQLite file that records the same. */
  lemma RecordedWillSucceed(cfg: Config, disk: Disk, i: nat, j: nat)
    requires i < |cfg.chain| && j < |cfg.chain| && NoRepeats(cfg.chain) && cfg.scriptHeads == [cfg.chain[j]]
    requires cfg.sqlite && cfg.fileBacked && exists t :: t in disk.db.schema && t != "alembic_version"
    requires disk.db.heads == [cfg.chain[i]]
    ensures var name := disk.dbName + (".pre-" + cfg.chain[j] + ".bak");
            WillSucceed(cfg, disk) <==>
              i == j || (i < j && (name in disk.names ==>
                                     && disk.names[name].File? && disk.names[name].inode in disk.inodes
                                     && disk.inodes[disk.names[name].inode].Sqlite?
                                     && disk.inodes[disk.names[name].inode].db.heads == [cfg.chain[i]]))
  {
    var canonical := Canonical(disk.dbName, cfg.Target());
    SchemaIsBackedUp(cfg, disk.db);
    PrecedesIff(cfg.chain, i, j);
    CanonicalNamesTarget(disk.dbName, cfg.Target());
    IdentifiedByRecord(disk.db, cfg.Known(), cfg.registry, cfg.chain[i]);
    if disk.HasContent(canonical) && disk.ContentOf(canonical).Sqlite? {
      IdentifiedByRecord(disk.ContentOf(canonical).db, cfg.Known(), cfg.registry, cfg.chain[i]);
    }
  }

  /** A database file recorded at chain[i], the target chain[j] after it, and nothing under the backup name. */
  ghost predicate UpgradeAlongChain(cfg: Config, disk: Disk, i: nat, j: nat) {
    && i < j < |cfg.chain| && NoRepeats(cfg.chain) && cfg.scriptHeads == [cfg.chain[j]] && cfg.sqlite && cfg.fileBacked
    && disk.db.heads == [cfg.chain[i]] && (exists t :: t in disk.db.schema && t != "alembic_version")
    && disk.dbName + (".pre-" + cfg.chain[j] + ".bak") !in disk.names
  }

  lemma ChainUpgradesSucceed(cfg: Config, disk: Disk)
    ensures (exists i: nat, j: nat :: UpgradeAlongChain(cfg, disk, i, j)) ==>
              WillSucceed(cfg, disk) && |disk.db.heads| == 1 && disk.db.heads != cfg.scriptHeads
  {
    forall i: nat, j: nat | UpgradeAlongChain(cfg, disk, i, j)
      ensures WillSucceed(cfg, disk) && |disk.db.heads| == 1 && disk.db.heads != cfg.scriptHeads
    {
      RecordedWillSucceed(cfg, disk, i, j);
      assert disk.db.heads[0] != cfg.scriptHeads[0];
    }
  }

  /** And on one without a version table, at the shape of chain[i]: the backup then is at that shape too. */
  lemma LegacyWillSucceed(cfg: Config, disk: Disk, i: nat, j: nat, k: nat)
    requires i < |cfg.chain| && j < |cfg.chain| && NoRepeats(cfg.chain) && cfg.scriptHeads == [cfg.chain[j]]
    requires cfg.sqlite && cfg.fileBacked && NoEmptyShape(cfg.registry.shapes)
    requires disk.db.heads == [] && "alembic_version" !in disk.db.schema
    requires AtShape(disk.db.schema, cfg.registry.shapes, cfg.registry.markers, k) && cfg.registry.shapes[k].revision == cfg.chain[i]
    ensures var name := disk.dbName + (".pre-" + cfg.chain[j] + ".bak");
            WillSucceed(cfg, disk) <==>
              i < j && (name in disk.names ==>
                          && disk.names[name].File? && disk.names[name].inode in disk.inodes
                          && disk.inodes[disk.names[name].inode].Sqlite?
                          && (var backup := disk.inodes[disk.names[name].inode].db;
                              && backup.heads == [] && "alembic_version" !in backup.schema
                              && exists l: nat :: AtShape(backup.schema, cfg.registry.shapes, cfg.registry.markers, l)
                                             && cfg.registry.shapes[l].revision == cfg.chain[i]))
  {
    var canonical := Canonical(disk.dbName, cfg.Target());
    ShapeHasTables(disk.db.schema, cfg.registry.shapes[k]);
    var t :| t in disk.db.schema.Keys;
    assert t != "alembic_version";
    SchemaIsBackedUp(cfg, disk.db);
    PrecedesIff(cfg.chain, i, j);
    CanonicalNamesTarget(disk.dbName, cfg.Target());
    IdentifiedIff(disk.db, cfg.Known(), cfg.registry, cfg.chain[i]);
    if disk.HasContent(canonical) && disk.ContentOf(canonical).Sqlite? {
      IdentifiedIff(disk.ContentOf(canonical).db, cfg.Known(), cfg.registry, cfg.chain[i]);
    }
  }

  class Host {
    var disk: Disk
    ghost var me: Starter
    ghost var trace: seq<(Disk, Starter)>

    ghost predicate Valid() reads this {
      IsTrace(trace) && trace[|trace| - 1] == (disk, me)
    }

    constructor (disk: Disk, cfg: Config)
      ensures Valid() && this.disk == disk
      ensures me.phase == Started && me.cfg == cfg && trace == [(disk, me)]
    {
      this.disk := disk;
      var starter := Starter(cfg, Started, disk.db, None, "");
      me := starter;
      trace := [(disk, starter)];
    }

    /** Records the step just made. */
    ghost method Record(before: Disk, next: Starter)
      requires IsTrace(trace) && trace[|trace| - 1] == (before, me)
      requires Moves(before, me, disk, next)
      modifies this`me, this`trace
      ensures Valid() && me == next && trace == old(trace) + [(disk, next)]
    {
      me := next;
      trace := trace + [(disk, next)];
    }

    /** `_copy_sqlite_database`: the target is rewritten page by page, then holds the database. */
    method CopyDatabase(temp: string, world: World) returns (ok: bool)
      requires Valid() && me.phase == Blank && me.temp == temp && disk.HasContent(temp)
      modifies this
      ensures Valid() && old(trace) <= trace
      ensures disk == old(disk).(inodes := disk.inodes) && disk.inodes.Keys == old(disk.inodes.Keys)
      ensures forall i :: i in disk.inodes && File(i) != disk.names[temp] ==> disk.inodes[i] == old(disk.inodes[i])
      ensures ok == !world.copyFails
      ensures ok ==> me == old(me).(phase := Copied) && disk.ContentOf(temp) == Sqlite(disk.db)
      ensures !ok ==> me == old(me).(phase := Leaving(false))
    {
      ghost var before := disk;
      disk := disk.(inodes := disk.inodes[disk.names[temp].inode := Damaged]);
      Record(before, me.(phase := Copying));
      if world.copyFails {
        Record(disk, me.(phase := Leaving(false)));
        return false;
      }
      before := disk;
      disk := disk.(inodes := disk.inodes[disk.names[temp].inode := Sqlite(disk.db)]);
      Record(before, me.(phase := Copied));
      ok := true;
    }

    method RemoveTemporaryBackup(temp: string, world: World)
      requires Valid() && me.phase.Leaving? && me.temp == temp
      modifies this
      ensures Valid() && old(trace) <= trace
      ensures disk == if world.unlinkFails then old(disk) else old(disk).(names := old(disk.names) - {temp})
      ensures me == old(me).(phase := if old(me.phase.ok) then Ready else Failed)
    {
      ghost var before := disk;
      if !world.unlinkFails {
        disk := disk.(names := disk.names - {temp});
      }
      Record(before, me.(phase := if me.phase.ok then Ready else Failed));
    }

    /** The canonical backup is there already: it is validated and nothing is written. */
    method TrustBackup(cfg: Config, source: Identity) returns (ok: bool)
      requires Valid() && me.phase == Checking && me.cfg == cfg && me.source == Some(source) && cfg.HasTarget()
      requires disk.Exists(Canonical(disk.dbName, cfg.Target()))
      modifies this`me, this`trace
      ensures Valid() && old(trace) <= trace
      ensures me == old(me).(phase := if ok then Ready else Failed)
      ensures ok <==> ValidatesCanonical(disk, cfg, source)
    {
      Record(disk, me.(phase := Trusting));
      ok := ValidatesCanonical(disk, cfg, source);
      Record(disk, me.(phase := if ok then Ready else Failed));
    }

    method CreateTemporary(cfg: Config, temp: string, world: World) returns (ok: bool)
      requires Valid() && me.phase == Checking && me.cfg == cfg && cfg.HasTarget()
      requires temp == TempName(Canonical(disk.dbName, cfg.Target()), world.salt)
      requires Supplies(world, disk, cfg) && !disk.Exists(Canonical(disk.dbName, cfg.Target()))
      modifies this
      ensures Valid() && old(trace) <= trace
      ensures ok == !world.mkstempFails
      ensures !ok ==> disk == old(disk) && me == old(me).(phase := Failed)
      ensures ok ==> CreatesTemp(old(disk), disk, temp, world.inode) && me == old(me).(phase := Blank, temp := temp)
    {
      Record(disk, me.(phase := Creating));
      if world.mkstempFails {
        Record(disk, me.(phase := Failed));
        return false;
      }
      ghost var before := disk;
      disk := disk.(names := disk.names[temp := File(world.inode)],
                    inodes := disk.inodes[world.inode := Sqlite(Database(map[], []))]);
      assert CreatesTemp(before, disk, temp, world.inode);
      Record(before, me.(phase := Blank, temp := temp));
      ok := true;
    }

    /** `_create_sqlite_backup` for a database in a file. */
    method CreateSqliteBackup(cfg: Config, source: Identity, world: World) returns (ok: bool)
      requires Valid() && me.phase == Checking && me.cfg == cfg && me.source == Some(source) && cfg.HasTarget()
      requires Identify(disk.db, cfg.Known(), cfg.registry) == Ok(source)
      requires Supplies(world, disk, cfg)
      modifies this
      ensures Valid() && old(trace) <= trace
      ensures me.phase == (if ok then Ready else Failed) && me.cfg == cfg && me.source == old(me.source) && me.found == old(me.found)
      ensures BackupMade(old(disk), disk, cfg, source, world, ok)
    {
      if disk.Exists(Canonical(disk.dbName, cfg.Target())) {
        ok := TrustBackup(cfg, source);
      } else {
        ok := MakeBackup(cfg, source, world);
      }
    }

    /** Copies the database into the temporary file and publishes the copy. */
    method FillAndPublish(cfg: Config, source: Identity, temp: string, world: World)
      returns (ok: bool, ghost copied: Disk)
      requires Valid() && me.phase == Blank && me.cfg == cfg && me.source == Some(source) && me.temp == temp
      requires cfg.HasTarget() && IsTemp(temp) && disk.HasContent(temp)
      modifies this
      ensures Valid() && old(trace) <= trace
      ensures me == old(me).(phase := Leaving(ok))
      ensures IsFilled(old(disk), copied, temp, world)
      ensures IsPublished(copied, disk, cfg, source, temp, world, ok)
    {
      ok := CopyDatabase(temp, world);
      copied := disk;
      if ok {
        ok := PublishCopy(cfg, source, temp, world);
      }
    }

    /** From the new temporary file on: fill, publish and remove it. */
    method UseTemporary(cfg: Config, source: Identity, temp: string, world: World, ghost start: Disk) returns (ok: bool)
      requires Valid() && me.phase == Blank && me.cfg == cfg && me.source == Some(source) && me.temp == temp && cfg.HasTarget()
      requires temp == TempName(Canonical(start.dbName, cfg.Target()), world.salt) && CreatesTemp(start, disk, temp, world.inode)
      requires IsTemp(temp) && Identify(start.db, cfg.Known(), cfg.registry) == Ok(source)
      requires Supplies(world, start, cfg) && !start.Exists(Canonical(start.dbName, cfg.Target())) && !world.mkstempFails
      modifies this
      ensures Valid() && old(trace) <= trace
      ensures me == old(me).(phase := if ok then Ready else Failed)
      ensures BackupMade(start, disk, cfg, source, world, ok)
    {
      ghost var copied;
      ok, copied := FillAndPublish(cfg, source, temp, world);
      ghost var published := disk;
      RemoveTemporaryBackup(temp, world);
      BackupOutcome(start, old(disk), copied, published, disk, cfg, source, world, ok);
    }

    /** No canonical backup yet: create, fill, publish and remove a temporary file. */
    method MakeBackup(cfg: Config, source: Identity, world: World) returns (ok: bool)
      requires Valid() && me.phase == Checking && me.cfg == cfg && me.source == Some(source) && cfg.HasTarget()
      requires Identify(disk.db, cfg.Known(), cfg.registry) == Ok(source)
      requires Supplies(world, disk, cfg) && !disk.Exists(Canonical(disk.dbName, cfg.Target()))
      modifies this
      ensures Valid() && old(trace) <= trace
      ensures me.phase == (if ok then Ready else Failed) && me.cfg == cfg && me.source == old(me.source) && me.found == old(me.found)
      ensures BackupMade(old(disk), disk, cfg, source, world, ok)
    {
      var temp := TempName(Canonical(disk.dbName, cfg.Target()), world.salt);
      TempIsNeverCanonical(disk.dbName, cfg.Target(), Canonical(disk.dbName, cfg.Target()), world.salt);
      ok := CreateTemporary(cfg, temp, world);
      if ok {
        ok := UseTemporary(cfg, source, temp, world, old(disk));
      }
    }

    /** Stamp a recognised legacy database, then upgrade. */
    method StampAndUpgrade(cfg: Config, source: Option<Identity>, world: World) returns (ok: bool)
      requires Valid() && me.phase == Ready && me.cfg == cfg && me.source == source
      requires cfg.HasTarget() && world.upgraded.heads == [cfg.Target()]
      modifies this
      ensures Valid() && old(trace) <= trace
      ensures me.phase == if ok then Done else Failed
      ensures disk == old(disk).(db := if ok then world.upgraded else world.broken)
      ensures !world.stampFails && !world.upgradeFails ==> ok
    {
      ghost var before := disk;
      if source.Some? && source.value.kind == RecognizedLegacy {
        if world.stampFails {
          disk := disk.(db := world.broken);
          Record(before, me.(phase := Failed));
          return false;
        }
        disk := disk.(db := WithStamp(disk.db, source.value.revision));
        Record(before, me.(phase := Stamped));
      }
      before := disk;
      if world.upgradeFails {
        disk := disk.(db := world.broken);
        Record(before, me.(phase := Failed));
        return false;
      }
      disk := disk.(db := world.upgraded);
      Record(before, me.(phase := Done));
      ok := true;
    }

    /** Up to the stamp and the upgrade: the source, and the backup if the plan asks for one. */
    method Prepare(cfg: Config, plan: Plan, world: World) returns (prepared: bool, source: Option<Identity>)
      requires Valid() && me.phase == Started && me.cfg == cfg && cfg.HasTarget() && Supplies(world, disk, cfg)
      requires plan == MakePlan(cfg, disk.db) && (plan.BackupFirst? || plan.Proceed?)
      modifies this
      ensures Valid() && old(trace) <= trace
      ensures me.phase == (if prepared then Ready else Failed) && me.cfg == cfg && me.source == source
      ensures plan.Proceed? ==> prepared && disk == old(disk)
      ensures plan.BackupFirst? ==> BackupMade(old(disk), disk, cfg, plan.source, world, prepared)
    {
      PlansToMigrate(cfg, disk.db);
      match plan {
        case BackupFirst(identity) =>
          source := Some(identity);
          Record(disk, me.(phase := Checking, found := disk.db, source := source));
          prepared := CreateSqliteBackup(cfg, identity, world);
        case Proceed(from) =>
          source := from;
          Record(disk, me.(phase := Ready, found := disk.db, source := from));
          prepared := true;
      }
    }

    /** `migrate_database`. */
    method MigrateDatabase(cfg: Config, world: World) returns (outcome: Outcome)
      requires Valid() && me.phase == Started && me.cfg == cfg
      requires cfg.HasTarget() ==> Supplies(world, disk, cfg)
      modifies this
      // The startup is a run of one starter of the protocol.
      ensures Valid() && old(trace) <= trace && me.phase == (if outcome == Raised then Failed else Done)
      ensures outcome == Unchanged ==> disk == old(disk) && cfg.HasTarget() && disk.db.heads == [cfg.Target()]
      // A migrated database that existed has a valid backup; one made on the way is its exact copy.
      ensures outcome == Migrated && MustBackUp(cfg, old(disk.db)) ==>
                cfg.HasTarget() &&
                var canonical := Canonical(disk.dbName, cfg.Target());
                && (exists source :: Identify(old(disk.db), cfg.Known(), cfg.registry) == Ok(source)
                                     && ValidatesCanonical(disk, cfg, source))
                && (!old(disk).Exists(canonical) ==> disk.ContentOf(canonical) == Sqlite(old(disk.db)))
      ensures outcome == Migrated ==> disk.db == world.upgraded
      // Fail closed: unless the stamp or the upgrade itself fails, a refused database is untouched.
      ensures outcome == Raised && !world.stampFails && !world.upgradeFails ==> disk.db == old(disk.db)
      ensures Preserves(old(disk), disk)
      // Without I/O failures the outcome is decided by the disk alone.
      ensures NoFailure(world) ==> (outcome != Raised <==> WillSucceed(cfg, old(disk)))
      ensures outcome == Unchanged <==> |cfg.scriptHeads| == 1 && cfg.scriptHeads[0] in cfg.chain && old(disk.db.heads) == cfg.scriptHeads
      // An upgrade of a database file along the chain goes through while its backup name is free.
      ensures NoFailure(world) && (exists i: nat, j: nat :: UpgradeAlongChain(cfg, old(disk), i, j)) ==> outcome == Migrated
    {
      ChainUpgradesSucceed(cfg, disk);
      PlansToMigrate(cfg, disk.db);
      var plan := MakePlan(cfg, disk.db);
      if plan.Refuse? {
        Record(disk, me.(phase := Failed));
        return Raised;
      }
      if plan.UpToDate? {
        Record(disk, me.(phase := Done));
        return Unchanged;
      }
      var prepared, source := Prepare(cfg, plan, world);
      if !prepared {
        return Raised;
      }
      ghost var backedUp := disk;
      var ok := StampAndUpgrade(cfg, source, world);
      DatabaseChangeKeeps(old(disk), backedUp, disk);
      outcome := if ok then Migrated else Raised;
    }

    /** Flush, validate, link without overwriting, and validate again when the name was taken. */
    method PublishCopy(cfg: Config, source: Identity, temp: string, world: World) returns (published: bool)
      requires Valid() && me.phase == Copied && me.cfg == cfg && me.source == Some(source) && me.temp == temp
      requires cfg.HasTarget() && IsTemp(temp) && disk.HasContent(temp)
      modifies this
      ensures Valid() && old(trace) <= trace
      ensures me == old(me).(phase := Leaving(published))
      ensures var canonical := Canonical(old(disk).dbName, cfg.Target());
              if published && canonical !in old(disk).names
              then disk == old(disk).(names := old(disk).names[canonical := old(disk).names[temp]])
              else disk == old(disk)
      ensures var canonical := Canonical(old(disk).dbName, cfg.Target());
              published <==> !world.flushFails && Validates(old(disk), temp, cfg, source)
                               && (canonical in old(disk).names ==> ValidatesCanonical(old(disk), cfg, source))
    {
      if world.flushFails {
        Record(disk, me.(phase := Leaving(false)));
        return false;
      }
      Record(disk, me.(phase := Flushed));
      if !Validates(disk, temp, cfg, source) {
        Record(disk, me.(phase := Leaving(false)));
        return false;
      }
      Record(disk, me.(phase := Checked));
      var canonical := Canonical(disk.dbName, cfg.Target());
      if canonical in disk.names {
        Record(disk, me.(phase := Refused));
        published := ValidatesCanonical(disk, cfg, source);
        Record(disk, me.(phase := Leaving(published)));
        return;
      }
      ghost var before := disk;
      disk := disk.(names := disk.names[canonical := disk.names[temp]]);
      Record(before, me.(phase := Leaving(true)));
      published := true;
    }
  }

  function WithStamp(db: Database, revision: string): Database {
    db.(schema := db.schema[VERSION_TABLE := {"version_num"}], heads := [revision])
  }

  /** What creating the backup does to the disk. */
  ghost predicate BackupMade(before: Disk, after: Disk, cfg: Config, source: Identity, world: World, ok: bool)
    requires cfg.HasTarget()
  {
    var canonical := Canonical(before.dbName, cfg.Target());
    && after.db == before.db && Preserves(before, after)
    && (ok ==> ValidatesCanonical(after, cfg, source))
    // A backup that this startup makes is a copy of the database it is about to migrate.
    && (ok && !before.Exists(canonical) ==> after.ContentOf(canonical) == Sqlite(before.db))
    // No temporary file stays behind when it can be removed.
    && (!world.unlinkFails ==> after.names.Keys <= before.names.Keys + {canonical})
    && (!(world.mkstempFails || world.copyFails || world.flushFails) ==> (ok <==> BackupPossible(before, cfg, source)))
  }

  /** Only the temporary file was rewritten, and it holds the database unless copying failed. */
  ghost predicate IsFilled(disk: Disk, copied: Disk, temp: string, world: World) {
    && disk.HasContent(temp)
    && copied == disk.(inodes := copied.inodes) && copied.inodes.Keys == disk.inodes.Keys
    && (forall i :: i in copied.inodes && File(i) != disk.names[temp] ==> copied.inodes[i] == disk.inodes[i])
    && (!world.copyFails ==> copied.ContentOf(temp) == Sqlite(disk.db))
  }

  /** The validated copy was linked unless the name was taken, and a taken name validates. */
  ghost predicate IsPublished(copied: Disk, disk: Disk, cfg: Config, source: Identity, temp: string, world: World, ok: bool)
    requires cfg.HasTarget()
  {
    var canonical := Canonical(copied.dbName, cfg.Target());
    && temp in copied.names
    && disk == (if ok && canonical !in copied.names
                then copied.(names := copied.names[canonical := copied.names[temp]]) else copied)
    && (ok <==> !world.copyFails && !world.flushFails && Validates(copied, temp, cfg, source)
                && (canonical in copied.names ==> ValidatesCanonical(copied, cfg, source)))
  }

  lemma FilledFile(start: Disk, created: Disk, copied: Disk, temp: string, world: World)
    requires CreatesTemp(start, created, temp, world.inode) && IsFilled(created, copied, temp, world)
    ensures copied == start.(names := start.names[temp := File(world.inode)], inodes := copied.inodes)
    ensures copied.inodes.Keys == start.inodes.Keys + {world.inode}
    ensures forall i :: i in start.inodes ==> copied.inodes[i] == start.inodes[i]
    ensures !world.copyFails ==> copied.inodes[world.inode] == Sqlite(start.db)
  {}

  /** The disk through the life of a temporary file: created, filled, perhaps published, removed. */
  lemma BackupOutcome(start: Disk, created: Disk, copied: Disk, published: Disk, end: Disk, cfg: Config, source: Identity,
                      world: World, ok: bool)
    requires cfg.HasTarget() && Supplies(world, start, cfg) && !world.mkstempFails
    requires Identify(start.db, cfg.Known(), cfg.registry) == Ok(source)
    requires !start.Exists(Canonical(start.dbName, cfg.Target()))
    requires var temp := TempName(Canonical(start.dbName, cfg.Target()), world.salt);
             && CreatesTemp(start, created, temp, world.inode) && IsFilled(created, copied, temp, world)
             && IsPublished(copied, published, cfg, source, temp, world, ok)
             && end == (if world.unlinkFails then published else published.(names := published.names - {temp}))
    ensures BackupMade(start, end, cfg, source, world, ok)
  {
    var temp, canonical := TempName(Canonical(start.dbName, cfg.Target()), world.salt), Canonical(start.dbName, cfg.Target());
    FilledFile(start, created, copied, temp, world);
    TempIsNeverCanonical(start.dbName, cfg.Target(), canonical, world.salt);
    CanonicalNamesTarget(start.dbName, cfg.Target());
    assert IsTemp(temp) && !IsTemp(canonical) && temp != canonical;
    assert canonical in copied.names <==> canonical in start.names;
    assert canonical in start.names ==> start.names[canonical] == SymbolicLink(true);
  }

  /** `mkstemp` finds an unused name and an unused file. */
  ghost predicate Supplies(world: World, disk: Disk, cfg: Config)
    requires cfg.HasTarget()
  {
    && TempName(Canonical(disk.dbName, cfg.Target()), world.salt) !in disk.names
    && world.inode !in disk.inodes
    && (forall n :: n in disk.names && disk.names[n].File? ==> disk.names[n].inode in disk.inodes)
    && world.upgraded.heads == [cfg.Target()]
  }

  predicate BackupPossible(disk: Disk, cfg: Config, source: Identity)
    requires cfg.HasTarget()
  {
    var canonical := Canonical(disk.dbName, cfg.Target());
    if disk.Exists(canonical) then ValidatesCanonical(disk, cfg, source)
    else canonical !in disk.names && Precedes(cfg.chain, source.revision, cfg.Target())
  }
}
