/** Why every step of the migration protocol keeps its invariant: each kind of effect on the disk leaves
    every published file and every other starter's temporary file alone, the starter that acts stays
    right, and so does the disk. The cases are put together in `MigrationRuns`; the invariant itself and
    what it means for a file to be preserved are part of `MigrationProtocol`. Most lemmas here concern one
    effect and one starter at a time, so that the proofs of the cases stay independent of each other. */
module MigrationInvariant {
  import opened SchemaRevision
  import opened MigrationProtocol

  /** The temporary file of a starter is as it was. */
  ghost predicate KeepsTemp(disk: Disk, disk': Disk, s: Starter) {
    && (s.HoldsTemp() && s.temp in disk.names ==> s.temp in disk'.names && disk'.names[s.temp] == disk.names[s.temp])
    && (s.OwnsTemp() && TempIsPrivate(disk, s.temp) ==>
          TempIsPrivate(disk', s.temp) && disk'.ContentOf(s.temp) == disk.ContentOf(s.temp))
  }

  lemma Frame(disk: Disk, disk': Disk, past: set<Database>, past': set<Database>, s: Starter)
    requires StarterIsRight(disk, past, s) && past <= past'
    requires Preserves(disk, disk') && KeepsTemp(disk, disk', s)
    ensures StarterIsRight(disk', past', s)
  {
    BackedIsKept(disk, disk', s);
  }

  lemma BackedIsKept(disk: Disk, disk': Disk, s: Starter)
    requires Preserves(disk, disk')
    ensures Backed(disk, s) ==> Backed(disk', s)
  {
    if Backed(disk, s) {
      TempIsNeverCanonical(disk.dbName, s.cfg.Target(), "", "");
    }
  }

  lemma CreationKeeps(disk: Disk, disk': Disk, name: string, inode: nat, s: Starter)
    requires CreatesTemp(disk, disk', name, inode)
    requires forall n :: n in disk.names && disk.names[n].File? ==> disk.names[n].inode in disk.inodes
    ensures Preserves(disk, disk') && KeepsTemp(disk, disk', s)
    ensures IsTemp(name) ==> TempIsPrivate(disk', name)
  {}

  lemma WritingKeeps(disk: Disk, disk': Disk, name: string, content: Content, s: Starter)
    requires Writes(disk, disk', name, content) && TempIsPrivate(disk, name)
    requires s.HoldsTemp() ==> s.temp != name
    ensures Preserves(disk, disk') && KeepsTemp(disk, disk', s)
    ensures TempIsPrivate(disk', name) && disk'.ContentOf(name) == content
  {}

  lemma LinkingKeeps(disk: Disk, disk': Disk, temp: string, canonical: string, s: Starter)
    requires temp in disk.names && canonical !in disk.names && temp != canonical
    requires disk' == disk.(names := disk.names[canonical := disk.names[temp]])
    requires TempIsPrivate(disk, temp)
    requires s.HoldsTemp() ==> s.temp != temp
    requires s.HoldsTemp() ==> s.temp in disk.names
    ensures Preserves(disk, disk') && KeepsTemp(disk, disk', s)
  {}

  lemma UnlinkingKeeps(disk: Disk, disk': Disk, temp: string, s: Starter)
    requires disk' == disk || disk' == disk.(names := disk.names - {temp})
    requires IsTemp(temp)
    requires s.HoldsTemp() ==> s.temp != temp
    ensures Preserves(disk, disk') && KeepsTemp(disk, disk', s)
  {}

  lemma OutsidersKeep(disk: Disk, disk': Disk, s: Starter)
    requires AddsFiles(disk, disk')
    requires forall n :: n in disk.names && disk.names[n].File? ==> disk.names[n].inode in disk.inodes
    ensures Preserves(disk, disk') && KeepsTemp(disk, disk', s)
  {}

  /** The effect of one starter's step on the disk. */
  ghost predicate Effect(disk: Disk, me: Starter, disk': Disk, me': Starter) {
    || disk' == disk
    || disk' == disk.(db := disk'.db)
    || (IsTemp(me'.temp) && exists inode :: CreatesTemp(disk, disk', me'.temp, inode))
    || (me.OwnsTemp() && exists content :: Writes(disk, disk', me.temp, content))
    || (me.phase == Checked && exists target ::
          Canonical(disk.dbName, target) !in disk.names && me.temp in disk.names
          && disk' == disk.(names := disk.names[Canonical(disk.dbName, target) := disk.names[me.temp]]))
    || (me.HoldsTemp() && disk' == disk.(names := disk.names - {me.temp}))
  }

  lemma ActsHasEffect(disk: Disk, me: Starter, disk': Disk, me': Starter)
    requires Acts(disk, me, disk', me')
    ensures Effect(disk, me, disk', me')
  {
    match me.phase {
      case Creating =>
        var salt, inode :| CreatesTemp(disk, disk', TempName(Canonical(disk.dbName, me.cfg.Target()), salt), inode)
          && me' == me.(phase := Blank, temp := TempName(Canonical(disk.dbName, me.cfg.Target()), salt));
        assert CreatesTemp(disk, disk', me'.temp, inode);
        TempIsNeverCanonical(disk.dbName, "", Canonical(disk.dbName, me.cfg.Target()), salt);
      case Checked =>
        assert disk' == disk || Canonical(disk.dbName, me.cfg.Target()) !in disk.names;
      case _ =>
    }
  }

  /** No step of a starter disturbs a file it does not own, nor another starter. */
  lemma EffectKeeps(disk: Disk, past: set<Database>, me: Starter, disk': Disk, me': Starter, other: Starter)
    requires Effect(disk, me, disk', me') && StarterIsRight(disk, past, me)
    requires forall n :: n in disk.names && disk.names[n].File? ==> disk.names[n].inode in disk.inodes
    requires other.HoldsTemp() ==> other.temp in disk.names
    requires other.HoldsTemp() && me.HoldsTemp() ==> other.temp != me.temp
    ensures Preserves(disk, disk') && KeepsTemp(disk, disk', other)
  {
    if disk' == disk || disk' == disk.(db := disk'.db) {
    } else if exists inode :: CreatesTemp(disk, disk', me'.temp, inode) {
      var inode :| CreatesTemp(disk, disk', me'.temp, inode);
      CreationKeeps(disk, disk', me'.temp, inode, other);
    } else if me.OwnsTemp() && exists content :: Writes(disk, disk', me.temp, content) {
      var content :| Writes(disk, disk', me.temp, content);
      WritingKeeps(disk, disk', me.temp, content, other);
    } else if me.HoldsTemp() && disk' == disk.(names := disk.names - {me.temp}) {
      UnlinkingKeeps(disk, disk', me.temp, other);
    } else {
      var target :| Canonical(disk.dbName, target) !in disk.names && me.temp in disk.names
          && disk' == disk.(names := disk.names[Canonical(disk.dbName, target) := disk.names[me.temp]]);
      LinkingKeeps(disk, disk', me.temp, Canonical(disk.dbName, target), other);
    }
  }

  lemma CopyingStaysRight(disk: Disk, past: set<Database>, me: Starter, disk': Disk, me': Starter)
    requires me.phase in {Blank, Copying} && Acts(disk, me, disk', me')
    requires StarterIsRight(disk, past, me) && disk.db in past
    ensures StarterIsRight(disk', past + {disk'.db}, me')
  {
    WritingKeeps(disk, disk', me.temp, if me.phase == Blank then Damaged else Sqlite(disk.db), me.(phase := Done));
  }

  lemma CreatorStaysRight(disk: Disk, past: set<Database>, me: Starter, disk': Disk, me': Starter)
    requires me.phase == Creating && Acts(disk, me, disk', me')
    requires StarterIsRight(disk, past, me)
    requires forall n :: n in disk.names && disk.names[n].File? ==> disk.names[n].inode in disk.inodes
    ensures StarterIsRight(disk', past + {disk'.db}, me')
  {
    var salt, inode :| CreatesTemp(disk, disk', TempName(Canonical(disk.dbName, me.cfg.Target()), salt), inode)
      && me' == me.(phase := Blank, temp := TempName(Canonical(disk.dbName, me.cfg.Target()), salt));
    TempIsNeverCanonical(disk.dbName, "", Canonical(disk.dbName, me.cfg.Target()), salt);
    CreationKeeps(disk, disk', me'.temp, inode, me);
  }

  lemma CheckerStaysRight(disk: Disk, past: set<Database>, me: Starter, disk': Disk, me': Starter)
    requires me.phase in {Started, Checking, Trusting, Copied, Flushed} && Acts(disk, me, disk', me')
    requires StarterIsRight(disk, past, me)
    ensures StarterIsRight(disk', past + {disk'.db}, me')
  {
    PlansToMigrate(me.cfg, disk.db);
  }

  lemma PublisherStaysRight(disk: Disk, past: set<Database>, me: Starter, disk': Disk, me': Starter)
    requires me.phase in {Checked, Refused} && Acts(disk, me, disk', me')
    requires StarterIsRight(disk, past, me)
    ensures StarterIsRight(disk', past + {disk'.db}, me')
  {
    if me.phase == Checked {
      PublisherIsBacked(disk, me, disk', me');
    }
  }

  lemma LeaverStaysRight(disk: Disk, past: set<Database>, me: Starter, disk': Disk, me': Starter)
    requires me.phase.Leaving? && Acts(disk, me, disk', me')
    requires StarterIsRight(disk, past, me)
    ensures StarterIsRight(disk', past + {disk'.db}, me')
  {
    UnlinkingKeeps(disk, disk', me.temp, me.(phase := Done));
    BackedIsKept(disk, disk', me);
  }

  /** The starter that acts is still right afterwards. */
  lemma ActorStaysRight(disk: Disk, past: set<Database>, me: Starter, disk': Disk, me': Starter)
    requires Acts(disk, me, disk', me') && StarterIsRight(disk, past, me) && disk.db in past
    requires forall n :: n in disk.names && disk.names[n].File? ==> disk.names[n].inode in disk.inodes
    ensures StarterIsRight(disk', past + {disk'.db}, me')
  {
    if me.phase in {Blank, Copying} {
      CopyingStaysRight(disk, past, me, disk', me');
    } else if me.phase == Creating {
      CreatorStaysRight(disk, past, me, disk', me');
    } else if me.phase in {Started, Checking, Trusting, Copied, Flushed} {
      CheckerStaysRight(disk, past, me, disk', me');
    } else if me.phase in {Ready, Stamped} {
      BackedIsKept(disk, disk', me);
    } else if me.phase.Leaving? {
      LeaverStaysRight(disk, past, me, disk', me');
    } else {
      PublisherStaysRight(disk, past, me, disk', me');
    }
  }

  /** Publishing a validated temporary file makes the canonical name valid. */
  lemma PublisherIsBacked(disk: Disk, me: Starter, disk': Disk, me': Starter)
    requires me.phase == Checked && Acts(disk, me, disk', me')
    requires SourceIsRight(me) && IsTemp(me.temp) && TempIsPrivate(disk, me.temp)
    requires Validates(disk, me.temp, me.cfg, me.source.value)
    ensures me'.phase == Leaving(true) ==> Backed(disk', me')
  {
    CanonicalNamesTarget(disk.dbName, me.cfg.Target());
  }

  /** Publication puts a whole database under the canonical name. */
  lemma PublishingKeepsDisk(disk: Disk, past: set<Database>, foreign: set<string>, temp: string, target: string, disk': Disk)
    requires DiskIsRight(disk, past, foreign) && TempHoldsPast(disk, past, temp)
    requires disk' == disk.(names := disk.names[Canonical(disk.dbName, target) := disk.names[temp]])
    ensures DiskIsRight(disk', past, foreign)
  {
    forall n | n in disk'.names && !IsTemp(n) && n !in foreign
      ensures disk'.HasContent(n) && disk'.ContentOf(n).Sqlite? && disk'.ContentOf(n).db in past
    {
      if n != Canonical(disk.dbName, target) {
        assert n in disk.names;
      }
    }
  }

  lemma WritingKeepsDisk(disk: Disk, past: set<Database>, foreign: set<string>, temp: string, content: Content, disk': Disk)
    requires DiskIsRight(disk, past, foreign) && TempIsPrivate(disk, temp) && Writes(disk, disk', temp, content)
    ensures DiskIsRight(disk', past, foreign)
  {}

  lemma EffectKeepsDisk(disk: Disk, past: set<Database>, foreign: set<string>, me: Starter, disk': Disk, me': Starter)
    requires Effect(disk, me, disk', me') && StarterIsRight(disk, past, me)
    requires DiskIsRight(disk, past, foreign)
    ensures DiskIsRight(disk', past + {disk'.db}, foreign)
  {
    if disk' == disk || disk' == disk.(db := disk'.db) {
    } else if IsTemp(me'.temp) && exists inode :: CreatesTemp(disk, disk', me'.temp, inode) {
    } else if me.OwnsTemp() && exists content :: Writes(disk, disk', me.temp, content) {
      var content :| Writes(disk, disk', me.temp, content);
      WritingKeepsDisk(disk, past, foreign, me.temp, content, disk');
    } else if me.HoldsTemp() && disk' == disk.(names := disk.names - {me.temp}) {
    } else {
      var target :| Canonical(disk.dbName, target) !in disk.names && me.temp in disk.names
          && disk' == disk.(names := disk.names[Canonical(disk.dbName, target) := disk.names[me.temp]]);
      PublishingKeepsDisk(disk, past, foreign, me.temp, target, disk');
    }
  }

  lemma ActKeepsDisk(s: System, id: nat, s': System)
    requires Inv(s) && Step(s, Act(id), s')
    ensures DiskIsRight(s'.disk, s'.past, s'.foreign)
    ensures Preserves(s.disk, s'.disk)
  {
    var me, me' := s.starters[id], s'.starters[id];
    ActsHasEffect(s.disk, me, s'.disk, me');
    EffectKeeps(s.disk, s.past, me, s'.disk, me', me.(phase := Done));
    EffectKeepsDisk(s.disk, s.past, s.foreign, me, s'.disk, me');
  }

  lemma AllAreKept(disk: Disk, disk': Disk, past: set<Database>, past': set<Database>, starters: map<nat, Starter>)
    requires forall id :: id in starters ==> StarterIsRight(disk, past, starters[id]) && KeepsTemp(disk, disk', starters[id])
    requires Preserves(disk, disk') && past <= past'
    ensures forall id :: id in starters ==> StarterIsRight(disk', past', starters[id])
  {
    forall id | id in starters ensures StarterIsRight(disk', past', starters[id]) {
      Frame(disk, disk', past, past', starters[id]);
    }
  }

  /** A step that changes nothing on the disk but the database keeps every starter right. */
  lemma DatabaseOnly(s: System, s': System)
    requires Inv(s) && s'.disk == s.disk.(db := s'.disk.db) && s'.past == s.past + {s'.disk.db} && s'.foreign == s.foreign
    ensures DiskIsRight(s'.disk, s'.past, s'.foreign) && Preserves(s.disk, s'.disk)
    ensures forall id :: id in s.starters ==> StarterIsRight(s'.disk, s'.past, s.starters[id])
  {
    AllAreKept(s.disk, s'.disk, s.past, s'.past, s.starters);
  }

  lemma LaunchKeepsInv(s: System, id: nat, s': System)
    requires Inv(s) && Step(s, Launch(id), s')
    ensures Inv(s') && Preserves(s.disk, s'.disk)
  {
    DatabaseOnly(s, s');
  }

  lemma CrashKeepsInv(s: System, id: nat, s': System)
    requires Inv(s) && Step(s, Crash(id), s')
    ensures Inv(s') && Preserves(s.disk, s'.disk)
  {
    DatabaseOnly(s, s');
  }

  lemma EnvironmentKeepsInv(s: System, s': System)
    requires Inv(s) && Step(s, Environment, s')
    ensures Inv(s') && Preserves(s.disk, s'.disk)
  {
    forall o | o in s.starters ensures StarterIsRight(s'.disk, s'.past, s'.starters[o]) {
      OutsidersKeep(s.disk, s'.disk, s.starters[o]);
      Frame(s.disk, s'.disk, s.past, s'.past, s.starters[o]);
    }
    OutsidersKeepDisk(s, s');
  }

  lemma OutsidersKeepDisk(s: System, s': System)
    requires Inv(s) && Step(s, Environment, s')
    ensures DiskIsRight(s'.disk, s'.past, s'.foreign) && Preserves(s.disk, s'.disk)
  {}

  lemma FailKeepsInv(s: System, id: nat, s': System)
    requires Inv(s) && Step(s, Fail(id), s')
    ensures Inv(s') && Preserves(s.disk, s'.disk)
  {
    DatabaseOnly(s, s');
    FailedStaysRight(s'.disk, s'.past, s.starters[id], s'.starters[id]);
  }

  lemma FailedStaysRight(disk: Disk, past: set<Database>, me: Starter, me': Starter)
    requires StarterIsRight(disk, past, me) && me.Active()
    requires me' == me.(phase := if me.InTry() then Leaving(false) else Failed)
    ensures StarterIsRight(disk, past, me')
  {}

  lemma ActKeepsInv(s: System, id: nat, s': System)
    requires Inv(s) && Step(s, Act(id), s')
    ensures Inv(s') && Preserves(s.disk, s'.disk)
  {
    var me, me' := s.starters[id], s'.starters[id];
    ActKeepsDisk(s, id, s');
    ActorStaysRight(s.disk, s.past, me, s'.disk, me');
    ActsHasEffect(s.disk, me, s'.disk, me');
    forall o | o in s.starters && o != id ensures StarterIsRight(s'.disk, s'.past, s'.starters[o]) {
      EffectKeeps(s.disk, s.past, me, s'.disk, me', s.starters[o]);
      Frame(s.disk, s'.disk, s.past, s'.past, s.starters[o]);
    }
    ActKeepsTempsDistinct(s, id, s');
  }

  /** A temporary name is held on to, or is new. */
  lemma TempIsKeptOrNew(disk: Disk, me: Starter, disk': Disk, me': Starter)
    requires Acts(disk, me, disk', me') && me'.HoldsTemp()
    ensures (me.HoldsTemp() && me'.temp == me.temp) || me'.temp !in disk.names
  {
    if me.phase == Creating {
      var salt, inode :| CreatesTemp(disk, disk', TempName(Canonical(disk.dbName, me.cfg.Target()), salt), inode)
        && me' == me.(phase := Blank, temp := TempName(Canonical(disk.dbName, me.cfg.Target()), salt));
    }
  }

  lemma ActKeepsTempsDistinct(s: System, id: nat, s': System)
    requires Inv(s) && Step(s, Act(id), s')
    ensures TempsAreDistinct(s'.starters)
  {
    var me, me' := s.starters[id], s'.starters[id];
    if me'.HoldsTemp() {
      TempIsKeptOrNew(s.disk, me, s'.disk, me');
      forall o | o in s.starters && o != id && s.starters[o].HoldsTemp() ensures s.starters[o].temp != me'.temp {
        assert s.starters[o].temp in s.disk.names;
      }
    }
  }
}
