/** Startup migration as a step protocol over a shared disk: any number of starters, with failures, crashes
    and outside changes between any two steps. */
module MigrationProtocol {
  import opened Sequences
  import opened SchemaRevision

  // ---------------------------------------------------------------------------------------
  // The disk

  datatype Content = Damaged | Sqlite(db: Database)

  /** A directory entry. Two names may share an inode: that is what a hard link is. */
  datatype Node = File(inode: nat) | SymbolicLink(dangling: bool) | Directory

  datatype Disk = Disk(db: Database, dbName: string, names: map<string, Node>, inodes: map<nat, Content>)
  {
    /** `Path.exists`, which follows symbolic links. */
    predicate Exists(name: string) { name in names && names[name] != SymbolicLink(true) }

    predicate HasContent(name: string) {
      name in names && names[name].File? && names[name].inode in inodes
    }

    function ContentOf(name: string): Content
      requires HasContent(name)
    {
      inodes[names[name].inode]
    }
  }

  const BACKUP_SUFFIX := ".bak"
  const TEMP_SUFFIX := ".tmp"

  predicate EndsWith(s: string, suffix: string) {
    |suffix| <= |s| && s[|s| - |suffix|..] == suffix
  }

  function TargetSuffix(target: string): string { ".pre-" + target + BACKUP_SUFFIX }

  function Canonical(dbName: string, target: string): string { dbName + TargetSuffix(target) }

  /** A name `mkstemp` may choose beside the canonical name. */
  function TempName(canonical: string, salt: string): string { "." + canonical + "." + salt + TEMP_SUFFIX }

  predicate IsTemp(name: string) { EndsWith(name, TEMP_SUFFIX) }

  /** A temporary file never has a canonical name, whatever the target and the salt. */
  lemma TempIsNeverCanonical(dbName: string, target: string, canonical: string, salt: string)
    ensures IsTemp(TempName(canonical, salt))
    ensures !IsTemp(Canonical(dbName, target))
  {
    var t, c := TempName(canonical, salt), Canonical(dbName, target);
    assert t[|t| - 4..] == TEMP_SUFFIX;
    assert c[|c| - 4..] == BACKUP_SUFFIX;
    assert BACKUP_SUFFIX[1] != TEMP_SUFFIX[1];
  }

  lemma CanonicalNamesTarget(dbName: string, target: string)
    ensures EndsWith(Canonical(dbName, target), TargetSuffix(target))
  {}

  // ---------------------------------------------------------------------------------------
  // Validation of a backup

  datatype Config = Config(chain: seq<string>, scriptHeads: seq<string>, sqlite: bool, fileBacked: bool,
                           registry: Registry)
  {
    function Known(): set<string> { set r | r in chain }
    predicate HasTarget() { |scriptHeads| == 1 }
    function Target(): string requires HasTarget() { scriptHeads[0] }
  }

  function IndexOf(chain: seq<string>, r: string): (i: nat)
    requires r in chain
    ensures i < |chain| && chain[i] == r
    ensures forall j :: 0 <= j < i ==> chain[j] != r
  {
    if chain[0] == r then 0 else 1 + IndexOf(chain[1..], r)
  }

  /** The source comes strictly before the target in the installed chain. */
  predicate Precedes(chain: seq<string>, source: string, target: string) {
    target in chain && source in chain && IndexOf(chain, source) < IndexOf(chain, target)
  }

  /** In a chain without repetitions that is the order of the places. */
  lemma PrecedesIff(chain: seq<string>, a: nat, b: nat)
    requires a < |chain| && b < |chain| && NoRepeats(chain)
    ensures Precedes(chain, chain[a], chain[b]) <==> a < b
  {
    assert IndexOf(chain, chain[a]) == a && IndexOf(chain, chain[b]) == b;
  }

  /** `validate_sqlite_backup`: a regular SQLite file identified as the expected source, which
      precedes the target. */
  predicate Validates(disk: Disk, name: string, cfg: Config, source: Identity) {
    && cfg.HasTarget()
    && disk.HasContent(name) && disk.ContentOf(name).Sqlite?
    && Identify(disk.ContentOf(name).db, cfg.Known(), cfg.registry) == Ok(source)
    && Precedes(cfg.chain, source.revision, cfg.Target())
  }

  /** The same with the target required in the file name. */
  predicate ValidatesCanonical(disk: Disk, cfg: Config, source: Identity) {
    && cfg.HasTarget()
    && Validates(disk, Canonical(disk.dbName, cfg.Target()), cfg, source)
    && EndsWith(Canonical(disk.dbName, cfg.Target()), TargetSuffix(cfg.Target()))
  }

  // ---------------------------------------------------------------------------------------
  // A starter

  /** What a starter decides from the database it finds. */
  datatype Plan = Refuse | UpToDate | BackupFirst(source: Identity) | Proceed(from: Option<Identity>)

  function MakePlan(cfg: Config, db: Database): Plan {
    if !cfg.HasTarget() then Refuse
    else if |db.heads| > 1 then Refuse
    else if db.HasVersionTable() && db.heads == [] then Refuse
    else if db.heads != [] && db.heads[0] !in cfg.Known() then Refuse
    else if db.heads == [cfg.Target()] then UpToDate
    else if db.heads != [] then PlanBackup(cfg, db, Identity(db.heads[0], Alembic))
    else if db.HasApplicationSchema() then
      match Infer(db.schema, cfg.registry.shapes, cfg.registry.markers)
      case Ok(revision) => PlanBackup(cfg, db, Identity(revision, RecognizedLegacy))
      case Err(_) => Refuse
    else Proceed(None)
  }

  function PlanBackup(cfg: Config, db: Database, source: Identity): Plan {
    if db.HasApplicationSchema() && cfg.sqlite && cfg.fileBacked then BackupFirst(source) else Proceed(Some(source))
  }

  /** The schema a starter found must be backed up: it exists and lives in a SQLite file. */
  predicate MustBackUp(cfg: Config, found: Database) {
    found.HasApplicationSchema() && cfg.sqlite && cfg.fileBacked
  }

  /** That is: some table besides the version table, in a SQLite file. */
  lemma SchemaIsBackedUp(cfg: Config, found: Database)
    ensures MustBackUp(cfg, found) <==> cfg.sqlite && cfg.fileBacked && exists t :: t in found.schema && t != "alembic_version"
  {
    var others := found.schema.Keys - {VERSION_TABLE};
    assert forall t :: t in others <==> t in found.schema && t != "alembic_version";
    if others != {} {
      var t :| t in others;
    }
  }

  /** A database without any table. */
  predicate Fresh(db: Database) { db == Database(map[], []) }

  /** The plan follows from what backup validation would say of the database: its identity decides
      whether it is refused, left alone, or migrated, and from which revision. */
  lemma PlanIsRight(cfg: Config, db: Database)
    ensures var plan, identity := MakePlan(cfg, db), Identify(db, cfg.Known(), cfg.registry);
            && (plan.Refuse? <==> !cfg.HasTarget() || (identity.Err? && !Fresh(db)))
            && (plan.UpToDate? <==> cfg.HasTarget() && identity == Ok(Identity(cfg.Target(), Alembic)))
            && (plan.BackupFirst? <==> !plan.Refuse? && !plan.UpToDate? && MustBackUp(cfg, db))
            && (plan.BackupFirst? ==> identity == Ok(plan.source))
            && (plan.Proceed? ==> if Fresh(db) then plan.from == None else plan.from.Some? && identity == Ok(plan.from.value))
  {
    if db.schema.Keys == {} {
      assert db.schema == map[];
    }
  }

  /** What a starter relies on when it goes ahead. */
  lemma PlansToMigrate(cfg: Config, db: Database)
    ensures MakePlan(cfg, db).BackupFirst? ==>
              cfg.HasTarget() && MustBackUp(cfg, db)
              && Identify(db, cfg.Known(), cfg.registry) == Ok(MakePlan(cfg, db).source)
    ensures MakePlan(cfg, db).Proceed? ==> cfg.HasTarget() && !MustBackUp(cfg, db)
  {}

  datatype Phase =
    | Started
    | Checking               // the source is known; does the canonical backup exist?
    | Trusting               // it exists and is to be validated
    | Creating               // it does not; a temporary file is to be created
    | Blank | Copying | Copied | Flushed | Checked   // the temporary file on its way to publication
    | Refused                // publication found the canonical name taken
    | Leaving(ok: bool)      // the temporary file is to be removed
    | Ready | Stamped        // about to stamp or upgrade
    | Done | Failed | Crashed

  datatype Starter = Starter(cfg: Config, phase: Phase, found: Database, source: Option<Identity>, temp: string)
  {
    predicate OwnsTemp() { phase in {Blank, Copying, Copied, Flushed, Checked} }
    predicate InTry() { OwnsTemp() || phase == Refused }
    predicate HoldsTemp() { InTry() || phase.Leaving? }
    predicate Active() { phase !in {Done, Failed, Crashed} }
    predicate NeedsStamp() { source.Some? && source.value.kind == RecognizedLegacy }
  }

  /** The starter's next step, with every outcome the program distinguishes. */
  ghost predicate Acts(disk: Disk, s: Starter, disk': Disk, s': Starter) {
    match s.phase
    case Started =>
      disk' == disk &&
      (match MakePlan(s.cfg, disk.db)
       case Refuse => s' == s.(phase := Failed)
       case UpToDate => s' == s.(phase := Done)
       case BackupFirst(source) => s' == s.(phase := Checking, found := disk.db, source := Some(source))
       case Proceed(from) => s' == s.(phase := Ready, found := disk.db, source := from))
    case Checking =>
      disk' == disk && s.cfg.HasTarget() &&
      s' == s.(phase := if disk.Exists(Canonical(disk.dbName, s.cfg.Target())) then Trusting else Creating)
    case Trusting =>
      disk' == disk && s.source.Some? &&
      s' == s.(phase := if ValidatesCanonical(disk, s.cfg, s.source.value) then Ready else Failed)
    case Creating =>
      s.cfg.HasTarget() &&
      exists salt, inode ::
        CreatesTemp(disk, disk', TempName(Canonical(disk.dbName, s.cfg.Target()), salt), inode)
        && s' == s.(phase := Blank, temp := TempName(Canonical(disk.dbName, s.cfg.Target()), salt))
    case Blank =>
      Writes(disk, disk', s.temp, Damaged) && s' == s.(phase := Copying)
    case Copying =>
      Writes(disk, disk', s.temp, Sqlite(disk.db)) && s' == s.(phase := Copied)
    case Copied => disk' == disk && s' == s.(phase := Flushed)
    case Flushed =>
      disk' == disk && s.source.Some? &&
      s' == s.(phase := if Validates(disk, s.temp, s.cfg, s.source.value) then Checked else Leaving(false))
    case Checked =>
      s.cfg.HasTarget() && disk.HasContent(s.temp) &&
      (var canonical := Canonical(disk.dbName, s.cfg.Target());
       if canonical in disk.names then disk' == disk && s' == s.(phase := Refused)
       else s' == s.(phase := Leaving(true)) && disk' == disk.(names := disk.names[canonical := disk.names[s.temp]]))
    case Refused =>
      disk' == disk && s.source.Some? &&
      s' == s.(phase := Leaving(ValidatesCanonical(disk, s.cfg, s.source.value)))
    case Leaving(ok) =>
      // Removing the temporary name may fail silently.
      (disk' == disk || disk' == disk.(names := disk.names - {s.temp}))
      && s' == s.(phase := if ok then Ready else Failed)
    case Ready =>
      s.cfg.HasTarget() &&
      if s.NeedsStamp() then Stamps(disk, disk', s.source.value.revision) && s' == s.(phase := Stamped)
      else Upgrades(disk, disk', s.cfg.Target()) && s' == s.(phase := Done)
    case Stamped => s.cfg.HasTarget() && Upgrades(disk, disk', s.cfg.Target()) && s' == s.(phase := Done)
    case _ => false
  }

  /** `mkstemp`: a new name bound to a new, empty file, which SQLite reads as an empty database. */
  ghost predicate CreatesTemp(disk: Disk, disk': Disk, name: string, inode: nat) {
    name !in disk.names && inode !in disk.inodes
    && disk' == disk.(names := disk.names[name := File(inode)],
                      inodes := disk.inodes[inode := Sqlite(Database(map[], []))])
  }

  /** Rewrites the file a name leads to. */
  ghost predicate Writes(disk: Disk, disk': Disk, name: string, content: Content) {
    disk.HasContent(name) && disk' == disk.(inodes := disk.inodes[disk.names[name].inode := content])
  }

  ghost predicate Stamps(disk: Disk, disk': Disk, revision: string) {
    disk' == disk.(db := disk.db.(schema := disk.db.schema[VERSION_TABLE := {"version_num"}], heads := [revision]))
  }

  /** The upgrade is one step; all that is known of its result is the recorded revision. */
  ghost predicate Upgrades(disk: Disk, disk': Disk, target: string) {
    disk' == disk.(db := disk'.db) && disk'.db.heads == [target]
  }

  /** An exception: inside the try block the temporary file is still removed; a failing stamp or
      upgrade may leave any database behind. */
  ghost predicate Fails(disk: Disk, s: Starter, disk': Disk, s': Starter) {
    && s.Active()
    && s' == s.(phase := if s.InTry() then Leaving(false) else Failed)
    && (if s.phase in {Ready, Stamped} then disk' == disk.(db := disk'.db) else disk' == disk)
  }

  // ---------------------------------------------------------------------------------------
  // The system

  /** `past` are the contents the database has had, `foreign` the names that no starter made. */
  datatype System = System(disk: Disk, starters: map<nat, Starter>, past: set<Database>, foreign: set<string>)

  datatype Event = Launch(id: nat) | Act(id: nat) | Fail(id: nat) | Crash(id: nat) | Environment

  ghost predicate Step(s: System, e: Event, s': System) {
    && s'.past == s.past + {s'.disk.db}
    && match e
       case Launch(id) =>
         id !in s.starters && s'.disk == s.disk && s'.foreign == s.foreign
         && id in s'.starters && s'.starters == s.starters[id := s'.starters[id]] && s'.starters[id].phase == Started
       case Act(id) =>
         id in s.starters && id in s'.starters && s'.starters == s.starters[id := s'.starters[id]]
         && s'.foreign == s.foreign && Acts(s.disk, s.starters[id], s'.disk, s'.starters[id])
       case Fail(id) =>
         id in s.starters && id in s'.starters && s'.starters == s.starters[id := s'.starters[id]]
         && s'.foreign == s.foreign && Fails(s.disk, s.starters[id], s'.disk, s'.starters[id])
       case Crash(id) =>
         id in s.starters && s'.disk == s.disk && s'.foreign == s.foreign
         && s'.starters == s.starters[id := s.starters[id].(phase := Crashed)]
       case Environment =>
         s'.starters == s.starters && AddsFiles(s.disk, s'.disk)
         && s'.foreign == s.foreign + (s'.disk.names.Keys - s.disk.names.Keys)
  }

  /** The environment: any change of the database, and new names for new files; it does not touch
      the files that are there. */
  ghost predicate AddsFiles(disk: Disk, disk': Disk) {
    && disk'.dbName == disk.dbName
    && (forall n :: n in disk.names ==> n in disk'.names && disk'.names[n] == disk.names[n])
    && (forall i :: i in disk.inodes ==> i in disk'.inodes && disk'.inodes[i] == disk.inodes[i])
    && (forall n :: n in disk'.names && n !in disk.names && disk'.names[n].File? ==>
          disk'.names[n].inode in disk'.inodes && disk'.names[n].inode !in disk.inodes)
  }

  /** Any disk whose entries have their files, before the first starter. */
  ghost predicate Initial(s: System) {
    && s.starters == map[]
    && (forall n :: n in s.disk.names && s.disk.names[n].File? ==> s.disk.names[n].inode in s.disk.inodes)
    && s.past == {s.disk.db}
    && s.foreign == s.disk.names.Keys
  }

  ghost predicate StepAt(states: seq<System>, events: seq<Event>, i: nat)
    requires i < |events| < |states|
  {
    Step(states[i], events[i], states[i + 1])
  }

  ghost predicate IsRun(states: seq<System>, events: seq<Event>) {
    && |states| == |events| + 1
    && Initial(states[0])
    && forall i :: 0 <= i < |events| ==> StepAt(states, events, i)
  }

  // ---------------------------------------------------------------------------------------
  // The invariant

  /** A canonical backup that this starter may rely on. */
  ghost predicate Backed(disk: Disk, s: Starter) {
    s.source.Some? && ValidatesCanonical(disk, s.cfg, s.source.value)
  }

  /** The temporary file is the starter's own: no other name leads to its inode. */
  ghost predicate TempIsPrivate(disk: Disk, temp: string) {
    && IsTemp(temp) && disk.HasContent(temp)
    && forall n :: n in disk.names && n != temp ==> disk.names[n] != disk.names[temp]
  }

  ghost predicate SourceIsRight(s: Starter) {
    && s.cfg.HasTarget() && s.source.Some? && MustBackUp(s.cfg, s.found)
    && Identify(s.found, s.cfg.Known(), s.cfg.registry) == Ok(s.source.value)
  }

  ghost predicate StarterIsRight(disk: Disk, past: set<Database>, s: Starter) {
    && (s.phase in {Checking, Trusting, Creating} || s.HoldsTemp() ==> SourceIsRight(s))
    && (s.HoldsTemp() ==> s.temp in disk.names && IsTemp(s.temp))
    && (s.OwnsTemp() ==> TempIsPrivate(disk, s.temp))
    && (s.phase in {Copied, Flushed, Checked} ==> TempHoldsPast(disk, past, s.temp))
    && (s.phase == Checked ==> s.source.Some? && Validates(disk, s.temp, s.cfg, s.source.value))
    && (s.phase == Leaving(true) ==> Backed(disk, s))
    && (s.phase in {Ready, Stamped} ==> MayMigrate(disk, s))
  }

  ghost predicate TempHoldsPast(disk: Disk, past: set<Database>, temp: string) {
    disk.HasContent(temp) && disk.ContentOf(temp).Sqlite? && disk.ContentOf(temp).db in past
  }

  /** What every stamp and every upgrade relies on. */
  ghost predicate MayMigrate(disk: Disk, s: Starter) {
    s.cfg.HasTarget() && (MustBackUp(s.cfg, s.found) ==> SourceIsRight(s) && Backed(disk, s))
  }

  ghost predicate DiskIsRight(disk: Disk, past: set<Database>, foreign: set<string>) {
    && disk.db in past
    && (forall n :: n in disk.names && disk.names[n].File? ==> disk.names[n].inode in disk.inodes)
    // A name no outsider made, other than a temporary one, holds a database that once was.
    && (forall n :: n in disk.names && !IsTemp(n) && n !in foreign ==>
          disk.HasContent(n) && disk.ContentOf(n).Sqlite? && disk.ContentOf(n).db in past)
  }

  ghost predicate TempsAreDistinct(starters: map<nat, Starter>) {
    forall a, b :: a in starters && b in starters && a != b && starters[a].HoldsTemp() && starters[b].HoldsTemp() ==>
      starters[a].temp != starters[b].temp
  }

  ghost predicate Inv(s: System) {
    && DiskIsRight(s.disk, s.past, s.foreign)
    && (forall id :: id in s.starters ==> StarterIsRight(s.disk, s.past, s.starters[id]))
    && TempsAreDistinct(s.starters)
  }

  /** Every file that is not temporary stays where it is, with what it holds. */
  ghost predicate Preserves(disk: Disk, disk': Disk) {
    && disk'.dbName == disk.dbName
    && forall n :: n in disk.names && !IsTemp(n) ==>
         && n in disk'.names && disk'.names[n] == disk.names[n]
         && (disk.HasContent(n) ==> disk'.HasContent(n) && disk'.ContentOf(n) == disk.ContentOf(n))
  }
}
