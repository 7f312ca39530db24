/** The database catalog (`src/database_registry.rs`): what is registered in memory, against
    what a restart reads back from the data directory. Failures of the file system are
    parameters of the operations. */
module Catalog {
  import opened Prelude

  type Name = string

  const DEFAULT: Name := "drevo"
  const MAX_NAME: nat := 63

  predicate IsAlphanumeric(c: char) {
    'a' <= c <= 'z' || 'A' <= c <= 'Z' || '0' <= c <= '9'
  }

  /** `validate_db_name`. */
  predicate LegalName(name: Name) {
    && 1 <= |name| <= MAX_NAME
    && (IsAlphanumeric(name[0]) || name[0] == '_')
    && forall i :: 0 <= i < |name| ==> IsAlphanumeric(name[i]) || name[i] == '_' || name[i] == '-'
  }

  /** A legal name is one plain component of a path. */
  lemma LegalNameIsPlain(name: Name, i: nat)
    requires LegalName(name) && i < |name|
    ensures name[i] != '/' && name[i] != '\\' && name[i] != '.' && name[i] > ' '
    ensures name[0] != '-'
  {
  }

  /** Every short word of letters, digits, `_` and `-` that does not start with `-` is legal. */
  lemma WordsAreLegal(name: Name)
    requires 1 <= |name| <= 63 && name[0] != '-'
    requires forall i :: 0 <= i < |name| ==>
               || 'a' <= name[i] <= 'z' || 'A' <= name[i] <= 'Z' || '0' <= name[i] <= '9'
               || name[i] == '_' || name[i] == '-'
    ensures LegalName(name) && LegalName(DEFAULT)
  {
  }

  /** The databases, each with whether it refuses writes. */
  type Databases = map<Name, bool>

  /** The data directory: the databases' directories, and the list of read-only databases,
      when there is one. */
  datatype Disk = Disk(dirs: set<Name>, access: Option<set<Name>>)
  {
    function Listed(): set<Name> {
      if access.Some? then access.value else {}
    }
  }

  datatype Error = InvalidName | AlreadyExists | NotFound | ProtectedDefault | Storage | ReadOnly

  type Answer = Result<bool, Error>

  // ----- restarting -------------------------------------------------------------------------

  /** The catalog a restart builds from `disk`. */
  function Reopened(disk: Disk): Databases {
    map name | name in Restorable(disk.dirs) + {DEFAULT} :: name in disk.Listed()
  }

  function Restorable(dirs: set<Name>): set<Name> {
    set name | name in dirs && name != DEFAULT && LegalName(name)
  }

  function SetOf(names: seq<Name>): set<Name> {
    set name | name in names
  }

  function ReadOnlyOf(dbs: Databases): set<Name> {
    set name | name in dbs && dbs[name]
  }

  /** There is no list, and none is needed: `persist_access` writes nothing. */
  predicate NothingToWrite(disk: Disk, dbs: Databases) {
    ReadOnlyOf(dbs) == {} && disk.access.None?
  }

  /** What `persist_access` leaves. */
  function Persisted(disk: Disk, dbs: Databases): Disk {
    if NothingToWrite(disk, dbs) then disk
    else disk.(access := Some(ReadOnlyOf(dbs)))
  }

  /** A restart would give back what is in memory. */
  ghost predicate InSync(dbs: Databases, disk: Disk) {
    Reopened(disk) == dbs
  }

  /** The list names only databases there are. */
  ghost predicate Tidy(dbs: Databases, disk: Disk) {
    disk.Listed() <= dbs.Keys
  }

  lemma InSyncMeans(dbs: Databases, disk: Disk)
    ensures InSync(dbs, disk) <==>
              && dbs.Keys == Restorable(disk.dirs) + {DEFAULT}
              && forall name :: name in dbs ==> (dbs[name] <==> name in disk.Listed())
  {
    var again := Reopened(disk);
    assert again.Keys == Restorable(disk.dirs) + {DEFAULT};
    if dbs.Keys == again.Keys && forall name :: name in dbs ==> (dbs[name] <==> name in disk.Listed()) {
      assert forall name :: name in dbs ==> dbs[name] == again[name];
    }
  }

  /** Writing the list brings it in line with memory, whatever it said before. */
  lemma PersistTidies(dbs: Databases, disk: Disk)
    requires dbs.Keys == Restorable(disk.dirs) + {DEFAULT}
    ensures InSync(dbs, Persisted(disk, dbs)) && Tidy(dbs, Persisted(disk, dbs))
  {
    InSyncMeans(dbs, Persisted(disk, dbs));
  }

  /** A database created under `name` comes back as it is exactly if the list does not name
      it already. */
  lemma CreateInSync(dbs: Databases, disk: Disk, name: Name)
    requires InSync(dbs, disk) && LegalName(name) && name !in dbs
    ensures InSync(dbs[name := false], disk.(dirs := disk.dirs + {name})) <==> name !in disk.Listed()
    ensures Tidy(dbs, disk) ==> name !in disk.Listed()
    ensures Tidy(dbs, disk) ==> Tidy(dbs[name := false], disk.(dirs := disk.dirs + {name}))
  {
    InSyncMeans(dbs, disk);
    var dbs', disk' := dbs[name := false], disk.(dirs := disk.dirs + {name});
    InSyncMeans(dbs', disk');
    assert name != DEFAULT;
    assert Restorable(disk'.dirs) == Restorable(disk.dirs) + {name};
  }

  lemma RemoveInSync(dbs: Databases, disk: Disk, name: Name)
    requires InSync(dbs, disk) && name != DEFAULT
    ensures (dbs - {name}).Keys == Restorable(disk.dirs - {name}) + {DEFAULT}
    ensures InSync(dbs - {name}, disk.(dirs := disk.dirs - {name}))
  {
    InSyncMeans(dbs, disk);
    assert Restorable(disk.dirs - {name}) == Restorable(disk.dirs) - {name};
    InSyncMeans(dbs - {name}, disk.(dirs := disk.dirs - {name}));
  }

  /** Removing a read-only database whose place in the list cannot be erased leaves the next
      database of its name to come back read-only. */
  lemma RecreatedComesBackReadOnly()
    ensures var dbs, disk := map[DEFAULT := false, "a" := true], Disk({"a"}, Some({"a"}));
            var dbs', disk' := dbs - {"a"}, disk.(dirs := {});
            && InSync(dbs, disk) && Tidy(dbs, disk)
            && InSync(dbs', disk') && !Tidy(dbs', disk')
            && Reopened(disk'.(dirs := {"a"})) == map[DEFAULT := false, "a" := true]
            && !InSync(dbs'["a" := false], disk'.(dirs := {"a"}))
  {
    var dbs, disk := map[DEFAULT := false, "a" := true], Disk({"a"}, Some({"a"}));
    assert LegalName("a");
    InSyncMeans(dbs, disk);
    RemoveInSync(dbs, disk, "a");
    assert disk.dirs - {"a"} == {};
    var dbs', disk' := dbs - {"a"}, disk.(dirs := {});
    CreateInSync(dbs', disk', "a");
    assert {} + {"a"} == {"a"};
    assert disk'.(dirs := {"a"}) == disk;
  }

  // ----- calls that overlap ----------------------------------------------------------------------

  /** `remove` gives up the lock before it deletes the directory: the names whose directories
      are still to be deleted. All file operations succeed here. */
  datatype System = System(dbs: Databases, disk: Disk, deleting: multiset<Name>)

  datatype Step =
    | Create(name: Name)
    | SetAccess(name: Name, access: bool)
    | Unregister(name: Name)   // `remove`, under the lock
    | DeleteDir(name: Name)    // and after it

  function Next(s: System, step: Step): System {
    match step
    case Create(name) =>
      if !LegalName(name) || name in s.dbs then s
      else s.(dbs := s.dbs[name := false], disk := s.disk.(dirs := s.disk.dirs + {name}))
    case SetAccess(name, access) =>
      if name !in s.dbs then s
      else s.(dbs := s.dbs[name := access], disk := Persisted(s.disk, s.dbs[name := access]))
    case Unregister(name) =>
      if name == DEFAULT || name !in s.dbs then s
      else s.(dbs := s.dbs - {name}, disk := Persisted(s.disk, s.dbs - {name}),
              deleting := s.deleting + multiset{name})
    case DeleteDir(name) =>
      if name !in s.deleting then s
      else s.(disk := s.disk.(dirs := s.disk.dirs - {name}), deleting := s.deleting - multiset{name})
  }

  function After(disk: Disk, steps: seq<Step>): System {
    if steps == [] then System(Reopened(disk), disk, multiset{})
    else Next(After(disk, steps[..|steps| - 1]), steps[|steps| - 1])
  }

  /** The directory of the database now named `name` was deleted by a removal of the one that
      had the name before it. */
  ghost predicate Overtaken(disk: Disk, steps: seq<Step>, name: Name) {
    steps != []
    && var before, step := After(disk, steps[..|steps| - 1]), steps[|steps| - 1];
       if step == Create(name) && name !in before.dbs then false
       else if step == Unregister(name) then false
       else Overtaken(disk, steps[..|steps| - 1], name)
            || (step == DeleteDir(name) && name in before.deleting && name in before.dbs)
  }

  /** What is on disk, name by name. */
  ghost predicate NameOk(s: System, name: Name, overtaken: bool) {
    && (name in s.dbs ==> name == DEFAULT || LegalName(name))
    && (name in s.deleting ==> name != DEFAULT && LegalName(name))
    && (name in s.dbs && name != DEFAULT ==> (name in s.disk.dirs <==> !overtaken))
    && (name !in s.dbs && name in Restorable(s.disk.dirs) ==> name in s.deleting)
    && (overtaken ==> name in s.dbs && name != DEFAULT)
  }

  ghost predicate ListOk(s: System) {
    DEFAULT in s.dbs && s.disk.Listed() == ReadOnlyOf(s.dbs)
  }

  lemma NameStep(s: System, step: Step, name: Name, was: bool, now: bool)
    requires NameOk(s, name, was) && DEFAULT in s.dbs
    requires now <==> (if step == Create(name) && name !in s.dbs then false
                       else if step == Unregister(name) then false
                       else was || (step == DeleteDir(name) && name in s.deleting && name in s.dbs))
    ensures NameOk(Next(s, step), name, now)
  {
  }

  lemma ListStep(s: System, step: Step)
    requires ListOk(s)
    ensures ListOk(Next(s, step))
  {
    if step.Create? {
      assert ReadOnlyOf(Next(s, step).dbs) == ReadOnlyOf(s.dbs);
    }
  }

  lemma {:induction false} RunIsOk(disk: Disk, steps: seq<Step>, name: Name)
    requires Tidy(Reopened(disk), disk)
    ensures ListOk(After(disk, steps)) && NameOk(After(disk, steps), name, Overtaken(disk, steps, name))
    decreases |steps|
  {
    if steps == [] {
      var dbs := Reopened(disk);
      assert ReadOnlyOf(dbs) == disk.Listed();
    } else {
      var front := steps[..|steps| - 1];
      RunIsOk(disk, front, name);
      var s, step := After(disk, front), steps[|steps| - 1];
      ListStep(s, step);
      NameStep(s, step, name, Overtaken(disk, front, name), Overtaken(disk, steps, name));
    }
  }

  /** For every interleaving of calls that overlap, once no deletion is under way: a restart
      gives back what is in memory exactly if no database was overtaken by the removal of the
      one that had its name before it. */
  lemma OverlappingCalls(disk: Disk, steps: seq<Step>)
    requires Tidy(Reopened(disk), disk) && After(disk, steps).deleting == multiset{}
    ensures var s := After(disk, steps);
            InSync(s.dbs, s.disk) <==> forall name :: !Overtaken(disk, steps, name)
  {
    hide After, InSync;
    var s := After(disk, steps);
    RunIsOk(disk, steps, DEFAULT);
    if forall name :: !Overtaken(disk, steps, name) {
      forall name
        ensures NameOk(s, name, false)
      {
        RunIsOk(disk, steps, name);
      }
      NoneOvertaken(s);
    } else {
      var name :| Overtaken(disk, steps, name);
      RunIsOk(disk, steps, name);
      OneOvertaken(s, name);
      assert Overtaken(disk, steps, name);
    }
  }

  lemma NoneOvertaken(s: System)
    requires ListOk(s) && s.deleting == multiset{} && forall name :: NameOk(s, name, false)
    ensures InSync(s.dbs, s.disk)
  {
    InSyncMeans(s.dbs, s.disk);
    hide InSync;
    forall name
      ensures name in s.dbs <==> name in Restorable(s.disk.dirs) + {DEFAULT}
    {
      assert NameOk(s, name, false);
    }
    assert s.dbs.Keys == Restorable(s.disk.dirs) + {DEFAULT};
  }

  lemma OneOvertaken(s: System, name: Name)
    requires NameOk(s, name, true)
    ensures !InSync(s.dbs, s.disk)
  {
    InSyncMeans(s.dbs, s.disk);
    hide InSync;
    assert name in s.dbs.Keys && name !in Restorable(s.disk.dirs) + {DEFAULT};
    assert s.dbs.Keys != Restorable(s.disk.dirs) + {DEFAULT};
  }

  /** It is enough not to create a database while one of its name is being removed. */
  lemma {:induction false} NoOverlapNoLoss(disk: Disk, steps: seq<Step>, name: Name)
    requires forall i :: 0 <= i < |steps| && steps[i] == Create(name) ==> name !in After(disk, steps[..i]).deleting
    ensures !Overtaken(disk, steps, name)
    ensures name in After(disk, steps).dbs ==> name !in After(disk, steps).deleting
    decreases |steps|
  {
    if steps != [] {
      var front := steps[..|steps| - 1];
      forall i | 0 <= i < |front| && front[i] == Create(name)
        ensures name !in After(disk, front[..i]).deleting
      {
        assert front[..i] == steps[..i] && steps[i] == Create(name);
      }
      NoOverlapNoLoss(disk, front, name);
    }
  }

  /** The failing run: a database is created again between the two halves of its removal. */
  lemma CreateLosesItsFiles(disk: Disk, name: Name)
    requires LegalName(name) && name != DEFAULT && name !in Reopened(disk)
    ensures var s := After(disk, [Create(name), Unregister(name), Create(name), DeleteDir(name)]);
            name in s.dbs && name !in s.disk.dirs && !InSync(s.dbs, s.disk)
  {
    var c, u, d := Create(name), Unregister(name), DeleteDir(name);
    var steps := [c, u, c, d];
    assert steps[..3] == [c, u, c] && [c, u, c][..2] == [c, u] && [c, u][..1] == [c] && [c][..0] == [];
    assert After(disk, [c]).dbs == Reopened(disk)[name := false];
    assert name in After(disk, [c, u]).deleting;
    var s := After(disk, steps);
    InSyncMeans(s.dbs, s.disk);
  }

  // ----- the catalog --------------------------------------------------------------------------

  class Registry {
    var dbs: Databases
    var disk: Disk
    var readOnly: bool

    ghost predicate Valid()
      reads this
    {
      DEFAULT in dbs
    }

    /** `open_dir`: every legal directory but one named like the default, and the default. */
    constructor (disk: Disk, entries: seq<Name>, readOnly: bool)
      requires disk.dirs == SetOf(entries)
      ensures Valid() && this.disk == disk && this.readOnly == readOnly && dbs == Reopened(disk)
    {
      var restored: map<Name, bool> := map[];
      var i := 0;
      while i < |entries|
        invariant 0 <= i <= |entries|
        invariant restored == map name | name in Restorable(SetOf(entries[..i])) :: false
      {
        assert entries[..i + 1] == entries[..i] + [entries[i]];
        if entries[i] != DEFAULT && LegalName(entries[i]) {
          restored := restored[entries[i] := false];
        }
        i := i + 1;
      }
      assert entries[..i] == entries;
      var all := restored[DEFAULT := false];
      var listed := disk.Listed();
      this.dbs := map name | name in all :: name in listed;
      this.disk, this.readOnly := disk, readOnly;
    }

    /** `set_access`: a failure to write the list changes nothing; success is remembered. */
    method SetAccess(name: Name, access: bool, writeFails: bool) returns (r: Answer)
      requires Valid()
      modifies this`dbs, this`disk
      ensures Valid()
      ensures r == if readOnly then Err(ReadOnly)
                   else if name !in old(dbs) then Err(NotFound)
                   else if writeFails && !NothingToWrite(old(disk), old(dbs)[name := access]) then Err(Storage)
                   else Ok(true)
      ensures r.Err? ==> dbs == old(dbs) && disk == old(disk)
      ensures r.Ok? ==> dbs == old(dbs)[name := access] && disk == Persisted(old(disk), dbs)
      ensures r.Ok? && old(InSync(dbs, disk)) ==> InSync(dbs, disk) && Tidy(dbs, disk)
    {
      if readOnly {
        return Err(ReadOnly);
      }
      if name !in dbs {
        return Err(NotFound);
      }
      var before := dbs[name];
      dbs := dbs[name := access];
      var ok := PersistAccess(writeFails);
      if !ok {
        dbs := dbs[name := before];
        assert dbs == old(dbs);
        return Err(Storage);
      }
      r := Ok(true);
      if old(InSync(dbs, disk)) {
        InSyncMeans(old(dbs), old(disk));
        assert dbs.Keys == old(dbs).Keys;
        PersistTidies(dbs, old(disk));
      }
    }

    /** Write the list of read-only databases. */
    method PersistAccess(writeFails: bool) returns (ok: bool)
      modifies this`disk
      ensures ok <==> !writeFails || NothingToWrite(old(disk), dbs)
      ensures disk == if ok then Persisted(old(disk), dbs) else old(disk)
    {
      var list := set name | name in dbs && dbs[name];
      if list == {} && disk.access.None? {
        return true;
      }
      if writeFails {
        return false;
      }
      disk := disk.(access := Some(list));
      ok := true;
    }

    /** `create`: a directory may be left behind by a log that cannot be opened. */
    method Create(name: Name, dirFails: bool, openFails: bool) returns (r: Answer)
      requires Valid()
      modifies this`dbs, this`disk
      ensures Valid()
      ensures r == if readOnly then Err(ReadOnly)
                   else if !LegalName(name) then Err(InvalidName)
                   else if name in old(dbs) then Err(AlreadyExists)
                   else if dirFails || openFails then Err(Storage)
                   else Ok(true)
      ensures r.Err? ==> dbs == old(dbs)
      ensures r.Ok? ==> dbs == old(dbs)[name := false] && disk == old(disk).(dirs := old(disk).dirs + {name})
      ensures r.Ok? && old(InSync(dbs, disk)) ==> (InSync(dbs, disk) <==> name !in old(disk).Listed())
      ensures r.Ok? && old(InSync(dbs, disk) && Tidy(dbs, disk)) ==> InSync(dbs, disk) && Tidy(dbs, disk)
    {
      if readOnly {
        return Err(ReadOnly);
      }
      if !LegalName(name) {
        return Err(InvalidName);
      }
      if name in dbs {
        return Err(AlreadyExists);
      }
      if dirFails {
        return Err(Storage);
      }
      disk := disk.(dirs := disk.dirs + {name});
      if openFails {
        return Err(Storage);
      }
      dbs := dbs[name := false];
      r := Ok(true);
      if old(InSync(dbs, disk)) {
        CreateInSync(old(dbs), old(disk), name);
      }
    }

    /** `remove`: the database is gone from memory even when its files or its place in the
        list stay behind, which is then reported. */
    method Remove(name: Name, writeFails: bool, deleteFails: bool) returns (r: Answer)
      requires Valid()
      modifies this`dbs, this`disk
      ensures Valid()
      ensures readOnly || name == DEFAULT || name !in old(dbs) ==>
                && dbs == old(dbs) && disk == old(disk)
                && r == Err(if readOnly then ReadOnly else if name == DEFAULT then ProtectedDefault else NotFound)
      ensures !readOnly && name != DEFAULT && name in old(dbs) ==>
                && dbs == old(dbs) - {name}
                && disk.dirs == old(disk).dirs - (if deleteFails then {} else {name})
                && (r.Ok? ==> disk.access == Persisted(old(disk), dbs).access)
                && (r.Err? ==> r.error == Storage)
      ensures r.Ok? && old(InSync(dbs, disk)) ==> InSync(dbs, disk) && Tidy(dbs, disk)
    {
      if readOnly {
        return Err(ReadOnly);
      }
      if name == DEFAULT {
        return Err(ProtectedDefault);
      }
      if name !in dbs {
        return Err(NotFound);
      }
      dbs := dbs - {name};
      var forgotten := PersistAccess(writeFails);
      if name in disk.dirs {
        if deleteFails {
          return Err(Storage);
        }
        disk := disk.(dirs := disk.dirs - {name});
      }
      r := if forgotten then Ok(true) else Err(Storage);
      if forgotten && old(InSync(dbs, disk)) {
        RemoveInSync(old(dbs), old(disk), name);
        PersistTidies(dbs, old(disk).(dirs := old(disk).dirs - {name}));
        assert disk == Persisted(old(disk).(dirs := old(disk).dirs - {name}), dbs);
      }
    }
  }
}
