/** Backups and restores (`src/backup.rs`, `drevo-core/src/backup.rs`): a backup is the whole
    log or what was written after the previous backup, told by a hash of the log's start. */
module BackupChain {
  import opened Prelude

  type Bytes = seq<bv8>

  /** The hash of a log, in hex. */
  type Hash = Bytes -> string

  /** The hash tells these two logs apart, if they differ. */
  predicate Tells(h: Hash, a: Bytes, b: Bytes) {
    h(a) == h(b) ==> a == b
  }

  datatype Kind = Full | Incremental

  datatype Manifest = Manifest(kind: Kind, walStart: nat, walEnd: nat, walSha: string,
                               baseSha: Option<string>, fileBytes: nat, fileSha: string,
                               sidecarShas: map<string, string>)

  /** A database on disk: its log, and the files beside it by name. */
  datatype Store = Store(log: Bytes, sidecars: map<string, Bytes>)

  /** One database's directory in a backup: its manifest, the log bytes, and the sidecars. */
  datatype Backup = Backup(manifest: Manifest, file: Bytes, sidecars: map<string, Bytes>)

  datatype Error = BrokenChain | Corrupt | TargetExists | Io

  // ----- one database --------------------------------------------------------------------

  /** Whether `log` still starts with what the backup of `since` saw. */
  predicate Continues(h: Hash, log: Bytes, since: Option<Manifest>) {
    since.Some? && since.value.walEnd <= |log| && h(log[..since.value.walEnd]) == since.value.walSha
  }

  function Shas(h: Hash, files: map<string, Bytes>): map<string, string> {
    map name | name in files :: h(files[name])
  }

  /** `NativeGraph::backup_to`: incremental if the log continues `since`, else full. The
      sidecars are taken whole either way. */
  function BackupTo(h: Hash, store: Store, since: Option<Manifest>): (b: Backup)
    ensures b.manifest.walEnd == |store.log| && b.manifest.walSha == h(store.log)
    ensures b.manifest.walStart <= |store.log| && b.file == store.log[b.manifest.walStart..]
    ensures b.manifest.kind == Full ==> b.manifest.walStart == 0
    ensures b.sidecars == store.sidecars && Undamaged(h, b)
  {
    var log, shas := store.log, Shas(h, store.sidecars);
    if Continues(h, log, since) then
      var tail := log[since.value.walEnd..];
      Backup(Manifest(Incremental, since.value.walEnd, |log|, h(log), Some(since.value.walSha),
                      |tail|, h(tail), shas), tail, store.sidecars)
    else
      Backup(Manifest(Full, 0, |log|, h(log), None, |log|, h(log), shas), log, store.sidecars)
  }

  /** Every file matches its manifest entry. */
  predicate Undamaged(h: Hash, b: Backup) {
    && |b.file| == b.manifest.fileBytes && h(b.file) == b.manifest.fileSha
    && Shas(h, b.sidecars) == b.manifest.sidecarShas
  }

  /** `next` continues `prev`, as the manifests tell. */
  predicate Follows(prev: Manifest, next: Manifest) {
    next.kind == Incremental && next.walStart == prev.walEnd && next.baseSha == Some(prev.walSha)
  }

  predicate IsChain(backups: seq<Backup>) {
    && backups != [] && backups[0].manifest.kind == Full
    && forall i :: 0 < i < |backups| ==> Follows(backups[i - 1].manifest, backups[i].manifest)
  }

  /** The bytes a backup adds to the log; its file may be too short for its manifest. */
  function Piece(b: Backup): Option<Bytes> {
    if b.manifest.walStart <= b.manifest.walEnd && b.manifest.walEnd - b.manifest.walStart <= |b.file|
    then Some(b.file[..b.manifest.walEnd - b.manifest.walStart])
    else None
  }

  function Assembled(backups: seq<Backup>): Option<Bytes> {
    if backups == [] then Some([])
    else
      var (before, last) := (Assembled(backups[..|backups| - 1]), Piece(backups[|backups| - 1]));
      if before.Some? && last.Some? then Some(before.value + last.value) else None
  }

  /** What restoring `backups` must give, where `occupied` tells that a file of the new store
      is already there. The sidecars are those of the last backup. */
  ghost function Restored(h: Hash, backups: seq<Backup>, occupied: bool): Result<Store, Error> {
    if !IsChain(backups) then Err(BrokenChain)
    else if exists i :: 0 <= i < |backups| && !Undamaged(h, backups[i]) then Err(Corrupt)
    else if occupied then Err(TargetExists)
    else if Assembled(backups).None? then Err(Io)
    else
      var log, last := Assembled(backups).value, backups[|backups| - 1];
      if h(log) == last.manifest.walSha && |log| == last.manifest.walEnd then Ok(Store(log, last.sidecars))
      else Err(BrokenChain)
  }

  method CheckChain(backups: seq<Backup>) returns (ok: bool)
    ensures ok <==> IsChain(backups)
  {
    if backups == [] || backups[0].manifest.kind != Full {
      return false;
    }
    var i := 1;
    while i < |backups|
      invariant 1 <= i <= |backups|
      invariant forall k :: 0 < k < i ==> Follows(backups[k - 1].manifest, backups[k].manifest)
    {
      if !Follows(backups[i - 1].manifest, backups[i].manifest) {
        return false;
      }
      i := i + 1;
    }
    ok := true;
  }

  method CheckFiles(h: Hash, backups: seq<Backup>) returns (ok: bool)
    ensures ok <==> forall i :: 0 <= i < |backups| ==> Undamaged(h, backups[i])
  {
    var i := 0;
    while i < |backups|
      invariant 0 <= i <= |backups|
      invariant forall k :: 0 <= k < i ==> Undamaged(h, backups[k])
    {
      if !Undamaged(h, backups[i]) {
        return false;
      }
      i := i + 1;
    }
    ok := true;
  }

  method Assemble(backups: seq<Backup>) returns (log: Option<Bytes>)
    ensures log == Assembled(backups)
  {
    var out := [];
    var i := 0;
    while i < |backups|
      invariant 0 <= i <= |backups|
      invariant Assembled(backups[..i]) == Some(out)
    {
      assert backups[..i + 1][..i] == backups[..i];
      if Piece(backups[i]).None? {
        AssembledFails(backups, i + 1);
        return None;
      }
      out := out + Piece(backups[i]).value;
      i := i + 1;
    }
    assert backups[..i] == backups;
    log := Some(out);
  }

  lemma {:induction false} AssembledFails(backups: seq<Backup>, i: nat)
    requires i <= |backups| && Assembled(backups[..i]).None?
    ensures Assembled(backups).None?
    decreases |backups|
  {
    if i < |backups| {
      assert backups[..|backups| - 1][..i] == backups[..i];
      AssembledFails(backups[..|backups| - 1], i);
    } else {
      assert backups[..i] == backups;
    }
  }

  /** `restore`: the chain, every file and the target are checked before anything is written,
      and the assembled log after. */
  method Restore(h: Hash, backups: seq<Backup>, occupied: bool) returns (r: Result<Store, Error>)
    ensures r == Restored(h, backups, occupied)
  {
    var chain := CheckChain(backups);
    if !chain {
      return Err(BrokenChain);
    }
    var intact := CheckFiles(h, backups);
    if !intact {
      return Err(Corrupt);
    }
    if occupied {
      return Err(TargetExists);
    }
    var log := Assemble(backups);
    if log.None? {
      return Err(Io);
    }
    var last := backups[|backups| - 1];
    if h(log.value) != last.manifest.walSha || |log.value| != last.manifest.walEnd {
      return Err(BrokenChain);
    }
    r := Ok(Store(log.value, last.sidecars));
  }

  /** Whatever it is given, restore never writes a log other than the one the last backup
      recorded, nor sidecars that do not match its manifest. */
  lemma RestoresNothingElse(h: Hash, backups: seq<Backup>, occupied: bool, taken: Bytes)
    requires backups != [] && backups[|backups| - 1].manifest.walSha == h(taken)
    requires Assembled(backups).Some? ==> Tells(h, Assembled(backups).value, taken)
    ensures var r := Restored(h, backups, occupied);
            r.Ok? ==>
              r.value.log == taken && Shas(h, r.value.sidecars) == backups[|backups| - 1].manifest.sidecarShas
  {
    hide Shas, Assembled, IsChain;
    assert Restored(h, backups, occupied).Ok? ==> Undamaged(h, backups[|backups| - 1]);
  }

  // ----- the server ------------------------------------------------------------------------

  type Name = string

  /** A server backup: one directory per database. */
  type ServerBackup = map<Name, Backup>

  /** The databases; the backups taken, and the databases each saw. */
  datatype Server = Server(stores: map<Name, Store>, chain: seq<ServerBackup>, seen: seq<map<Name, Store>>)

  datatype Action =
    | Write(name: Name, bytes: Bytes, sidecars: map<string, Bytes>)
    | Compact(name: Name, rewritten: Store)
    | Create(name: Name, initial: Store)
    | Drop(name: Name)
    | BackUp

  /** `backup_server`: each database that the `previous` backup holds is taken since it. */
  function BackupServer(h: Hash, stores: map<Name, Store>, previous: ServerBackup): ServerBackup {
    map name | name in stores ::
      BackupTo(h, stores[name], if name in previous then Some(previous[name].manifest) else None)
  }

  /** The backup the next one is taken since; a first one is taken since nothing. */
  function Latest(chain: seq<ServerBackup>, n: nat): ServerBackup
    requires n <= |chain|
  {
    if n == 0 then map[] else chain[n - 1]
  }

  function Step(h: Hash, s: Server, a: Action): Server {
    match a
    case Write(name, bytes, sidecars) =>
      if name !in s.stores then s
      else s.(stores := s.stores[name := Store(s.stores[name].log + bytes, sidecars)])
    case Compact(name, rewritten) =>
      if name !in s.stores then s else s.(stores := s.stores[name := rewritten])
    case Create(name, initial) =>
      if name in s.stores then s else s.(stores := s.stores[name := initial])
    case Drop(name) => s.(stores := s.stores - {name})
    case BackUp =>
      s.(chain := s.chain + [BackupServer(h, s.stores, Latest(s.chain, |s.chain|))],
         seen := s.seen + [s.stores])
  }

  function Reached(h: Hash, actions: seq<Action>): Server {
    if actions == [] then Server(map[], [], [])
    else Step(h, Reached(h, actions[..|actions| - 1]), actions[|actions| - 1])
  }

  /** The directories `restore_server` takes for `name` of the first `n` backups: from its
      latest full backup on. */
  function Selected(chain: seq<ServerBackup>, name: Name, n: nat): seq<nat>
    requires n <= |chain|
  {
    if n == 0 then []
    else if name !in chain[n - 1] then Selected(chain, name, n - 1)
    else if chain[n - 1][name].manifest.kind == Full then [n - 1]
    else Selected(chain, name, n - 1) + [n - 1]
  }

  /** The selection loop of `restore_server`. */
  method SelectDirs(chain: seq<ServerBackup>, name: Name) returns (dirs: seq<nat>)
    ensures dirs == Selected(chain, name, |chain|)
  {
    dirs := [];
    var i := 0;
    while i < |chain|
      invariant 0 <= i <= |chain|
      invariant dirs == Selected(chain, name, i)
    {
      if name in chain[i] {
        if chain[i][name].manifest.kind == Full {
          dirs := [];
        }
        dirs := dirs + [i];
      }
      i := i + 1;
    }
  }

  function Range(from: nat, to: nat): seq<nat>
    requires from <= to
  {
    seq(to - from, k requires 0 <= k < to - from => from + k)
  }

  /** The directories of `name` from one backup to another. */
  function Dirs(chain: seq<ServerBackup>, name: Name, from: nat, to: nat): seq<Backup>
    requires from <= to <= |chain| && forall i :: from <= i < to ==> name in chain[i]
  {
    seq(to - from, k requires 0 <= k < to - from => chain[from + k][name])
  }

  // ----- every run --------------------------------------------------------------------------

  /** Every backup is of the logs it saw, taken since the backup before. */
  ghost predicate Linked(h: Hash, chain: seq<ServerBackup>, seen: seq<map<Name, Store>>) {
    |chain| == |seen| && forall i :: 0 <= i < |chain| ==> Link(h, chain, seen, i)
  }

  ghost predicate Link(h: Hash, chain: seq<ServerBackup>, seen: seq<map<Name, Store>>, i: nat)
    requires i < |chain| == |seen|
  {
    chain[i] == BackupServer(h, seen[i], Latest(chain, i))
  }

  lemma {:induction false} RunIsLinked(h: Hash, actions: seq<Action>)
    ensures Linked(h, Reached(h, actions).chain, Reached(h, actions).seen)
  {
    if actions != [] {
      var s := Reached(h, actions[..|actions| - 1]);
      RunIsLinked(h, actions[..|actions| - 1]);
      LinkedMore(h, s.chain, s.seen, s.stores);
      hide Linked, BackupServer, Latest;
    }
  }

  lemma LinkedMore(h: Hash, chain: seq<ServerBackup>, seen: seq<map<Name, Store>>, stores: map<Name, Store>)
    requires Linked(h, chain, seen)
    ensures Linked(h, chain + [BackupServer(h, stores, Latest(chain, |chain|))], seen + [stores])
  {
    hide BackupServer;
    var chain', seen' := chain + [BackupServer(h, stores, Latest(chain, |chain|))], seen + [stores];
    forall i | 0 <= i < |chain'|
      ensures Link(h, chain', seen', i)
    {
      if i < |chain| {
        assert Link(h, chain, seen, i);
      }
    }
  }

  /** The hash tells the start of the log each backup saw from the log the one before saw. */
  ghost predicate ToldApart(h: Hash, seen: seq<map<Name, Store>>, name: Name) {
    forall i :: 0 < i < |seen| ==> StartTold(h, seen[i - 1], seen[i], name)
  }

  ghost predicate StartTold(h: Hash, before: map<Name, Store>, after: map<Name, Store>, name: Name) {
    name in before && name in after && |before[name].log| <= |after[name].log| ==>
      Tells(h, after[name].log[..|before[name].log|], before[name].log)
  }

  /** The directory of `name` in backup `i` of a linked chain. */
  lemma LinkedAt(h: Hash, chain: seq<ServerBackup>, seen: seq<map<Name, Store>>, name: Name, i: nat)
    requires Linked(h, chain, seen) && i < |chain| && name in chain[i]
    ensures name in seen[i]
    ensures chain[i][name] == BackupTo(h, seen[i][name],
              if i > 0 && name in chain[i - 1] then Some(chain[i - 1][name].manifest) else None)
  {
    assert Link(h, chain, seen, i);
  }

  /** A log that only grew since the backup before is backed up by what was written since; any
      other, where the hash tells it, in full. */
  lemma KindOfBackup(h: Hash, store: Store, before: Bytes, since: Manifest)
    requires since.walEnd == |before| && since.walSha == h(before)
    requires |before| <= |store.log| ==> Tells(h, store.log[..|before|], before)
    ensures var b := BackupTo(h, store, Some(since));
            && (b.manifest.kind == Incremental <==> before <= store.log)
            && b.file == (if before <= store.log then store.log[|before|..] else store.log)
  {
    hide Shas;
    if before <= store.log {
      assert store.log[..|before|] == before;
    }
  }

  /** Over every run: the kind and the content of every directory, from the logs alone. */
  lemma KindInEveryRun(h: Hash, actions: seq<Action>, name: Name, i: nat)
    requires var s := Reached(h, actions);
             |s.chain| == |s.seen| && i < |s.chain| && name in s.seen[i]
    requires ToldApart(h, Reached(h, actions).seen, name)
    ensures var s := Reached(h, actions);
            && name in s.chain[i]
            && var log, b := s.seen[i][name].log, s.chain[i][name];
               var grew := i > 0 && name in s.seen[i - 1] && s.seen[i - 1][name].log <= log;
            && (b.manifest.kind == Incremental <==> grew)
            && b.file == (if grew then log[|s.seen[i - 1][name].log|..] else log)
            && b.sidecars == s.seen[i][name].sidecars
  {
    RunIsLinked(h, actions);
    var s := Reached(h, actions);
    hide Reached;
    KindInChain(h, s.chain, s.seen, name, i);
  }

  lemma KindInChain(h: Hash, chain: seq<ServerBackup>, seen: seq<map<Name, Store>>, name: Name, i: nat)
    requires Linked(h, chain, seen) && ToldApart(h, seen, name) && i < |chain| && name in seen[i]
    ensures name in chain[i]
    ensures var log, b := seen[i][name].log, chain[i][name];
            var grew := i > 0 && name in seen[i - 1] && seen[i - 1][name].log <= log;
            && (b.manifest.kind == Incremental <==> grew)
            && b.file == (if grew then log[|seen[i - 1][name].log|..] else log)
            && b.sidecars == seen[i][name].sidecars
  {
    BackedUp(h, chain, seen, name, i);
    LinkedAt(h, chain, seen, name, i);
    if i > 0 && name in seen[i - 1] {
      BackedUp(h, chain, seen, name, i - 1);
      LinkedAt(h, chain, seen, name, i - 1);
      assert StartTold(h, seen[i - 1], seen[i], name);
      hide Linked, ToldApart;
      KindOfBackup(h, seen[i][name], seen[i - 1][name].log, chain[i - 1][name].manifest);
    } else if i > 0 {
      NotBackedUp(h, chain, seen, name, i - 1);
      hide Linked, ToldApart;
    }
  }

  lemma BackedUp(h: Hash, chain: seq<ServerBackup>, seen: seq<map<Name, Store>>, name: Name, i: nat)
    requires Linked(h, chain, seen) && i < |chain| && name in seen[i]
    ensures name in chain[i]
  {
    assert Link(h, chain, seen, i);
  }

  lemma NotBackedUp(h: Hash, chain: seq<ServerBackup>, seen: seq<map<Name, Store>>, name: Name, i: nat)
    requires Linked(h, chain, seen) && i < |chain| && name !in seen[i]
    ensures name !in chain[i]
  {
    assert Link(h, chain, seen, i);
  }

  /** A database that is only written between backups is restored from its first backup, the
      one full one, and every backup after it. */
  lemma OnlyWritten(h: Hash, actions: seq<Action>, name: Name)
    requires var s := Reached(h, actions);
             && |s.chain| == |s.seen| > 0 && (forall i :: 0 <= i < |s.seen| ==> name in s.seen[i])
             && (forall i :: 0 < i < |s.seen| ==> s.seen[i - 1][name].log <= s.seen[i][name].log)
    requires ToldApart(h, Reached(h, actions).seen, name)
    ensures var s := Reached(h, actions);
            && Selected(s.chain, name, |s.chain|) == Range(0, |s.chain|)
            && forall i :: 0 <= i < |s.chain| ==>
                 name in s.chain[i] && (s.chain[i][name].manifest.kind == Full <==> i == 0)
  {
    RunIsLinked(h, actions);
    var s := Reached(h, actions);
    hide Reached;
    forall i | 0 <= i < |s.chain|
      ensures name in s.chain[i] && (s.chain[i][name].manifest.kind == Full <==> i == 0)
    {
      KindInChain(h, s.chain, s.seen, name, i);
    }
    hide Linked;
    SelectedFromFirst(s.chain, name, |s.chain|);
  }

  lemma {:induction false} SelectedFromFirst(chain: seq<ServerBackup>, name: Name, n: nat)
    requires n <= |chain| && forall i :: 0 <= i < |chain| ==>
               name in chain[i] && (chain[i][name].manifest.kind == Full <==> i == 0)
    ensures Selected(chain, name, n) == Range(0, n)
    decreases n
  {
    if n > 0 {
      SelectedFromFirst(chain, name, n - 1);
      RangeMore(0, n);
    }
  }

  /** What restore takes for a database is a contiguous run of the chain: its latest full
      backup and the incrementals after it. */
  lemma {:induction false} SelectedIsRun(h: Hash, chain: seq<ServerBackup>, seen: seq<map<Name, Store>>,
                                         name: Name, n: nat)
    returns (full: nat)
    requires Linked(h, chain, seen) && 0 < n <= |chain| && name in chain[n - 1]
    ensures full < n && Selected(chain, name, n) == Range(full, n)
    ensures forall i :: full <= i < n ==> name in chain[i] && name in seen[i]
    ensures forall i :: full <= i < n ==> (chain[i][name].manifest.kind == Full <==> i == full)
    decreases n
  {
    if chain[n - 1][name].manifest.kind == Full {
      full := n - 1;
      SeenToo(h, chain, seen, name, n - 1);
      hide Linked;
    } else {
      IncrementalHasBase(h, chain, seen, name, n - 1);
      hide Linked;
      full := SelectedIsRun(h, chain, seen, name, n - 1);
      RangeMore(full, n);
      hide Range;
    }
  }

  lemma SeenToo(h: Hash, chain: seq<ServerBackup>, seen: seq<map<Name, Store>>, name: Name, i: nat)
    requires Linked(h, chain, seen) && i < |chain| && name in chain[i]
    ensures name in seen[i]
  {
    LinkedAt(h, chain, seen, name, i);
  }

  lemma RangeMore(from: nat, to: nat)
    requires from < to
    ensures Range(from, to) == Range(from, to - 1) + [to - 1]
  {
  }

  lemma IncrementalHasBase(h: Hash, chain: seq<ServerBackup>, seen: seq<map<Name, Store>>,
                           name: Name, i: nat)
    requires Linked(h, chain, seen) && i < |chain| && name in chain[i]
    requires chain[i][name].manifest.kind == Incremental
    ensures i > 0 && name in chain[i - 1] && name in seen[i]
  {
    LinkedAt(h, chain, seen, name, i);
    hide Linked;
  }

  /** An incremental backup holds what was written after the log the one before saw. */
  lemma IncrementalContinues(h: Hash, chain: seq<ServerBackup>, seen: seq<map<Name, Store>>,
                             name: Name, i: nat)
    requires ToldApart(h, seen, name) && Linked(h, chain, seen) && i < |chain| && name in chain[i]
    requires chain[i][name].manifest.kind == Incremental
    ensures i > 0 && name in chain[i - 1] && name in seen[i - 1] && name in seen[i]
    ensures Follows(chain[i - 1][name].manifest, chain[i][name].manifest)
    ensures Piece(chain[i][name]) == Some(chain[i][name].file)
    ensures seen[i][name].log == seen[i - 1][name].log + chain[i][name].file
  {
    LinkedAt(h, chain, seen, name, i);
    LinkedAt(h, chain, seen, name, i - 1);
    assert StartTold(h, seen[i - 1], seen[i], name);
    hide Linked;
    TailContinues(h, seen[i][name], seen[i - 1][name].log, chain[i - 1][name].manifest);
  }

  lemma TailContinues(h: Hash, store: Store, before: Bytes, since: Manifest)
    requires since.walEnd == |before| && since.walSha == h(before)
    requires |before| <= |store.log| ==> Tells(h, store.log[..|before|], before)
    requires BackupTo(h, store, Some(since)).manifest.kind == Incremental
    ensures var b := BackupTo(h, store, Some(since));
            Follows(since, b.manifest) && Piece(b) == Some(b.file) && store.log == before + b.file
  {
    hide Shas;
    var log, b := store.log, BackupTo(h, store, Some(since));
    assert log[..|before|] == before;
    assert log == log[..|before|] + log[|before|..];
    assert b.file[..|b.file|] == b.file;
  }

  lemma FullPiece(h: Hash, store: Store, since: Option<Manifest>)
    requires BackupTo(h, store, since).manifest.kind == Full
    ensures Piece(BackupTo(h, store, since)) == Some(store.log)
  {
    hide Shas;
    var b := BackupTo(h, store, since);
    assert b.file == store.log;
    assert b.file[..|store.log|] == store.log;
  }

  lemma AssembledMore(backups: seq<Backup>, next: Backup)
    ensures Assembled(backups + [next])
         == if Assembled(backups).Some? && Piece(next).Some? then
              Some(Assembled(backups).value + Piece(next).value)
            else None
  {
    assert (backups + [next])[..|backups|] == backups;
  }

  lemma DirsMore(chain: seq<ServerBackup>, name: Name, from: nat, to: nat)
    requires from < to <= |chain| && forall i :: from <= i < to ==> name in chain[i]
    ensures Dirs(chain, name, from, to) == Dirs(chain, name, from, to - 1) + [chain[to - 1][name]]
  {
  }

  lemma NoDirs(chain: seq<ServerBackup>, name: Name, at: nat)
    requires at <= |chain|
    ensures Assembled(Dirs(chain, name, at, at)) == Some([])
    ensures forall log: Bytes :: [] + log == log
  {
  }

  lemma {:induction false} RunAssembles(h: Hash, chain: seq<ServerBackup>, seen: seq<map<Name, Store>>,
                                        name: Name, full: nat, n: nat)
    requires ToldApart(h, seen, name) && Linked(h, chain, seen) && full < n <= |chain|
    requires forall i :: full <= i < n ==> name in chain[i] && name in seen[i]
    requires forall i :: full <= i < n ==> (chain[i][name].manifest.kind == Full <==> i == full)
    ensures Assembled(Dirs(chain, name, full, n)) == Some(seen[n - 1][name].log)
    decreases n
  {
    hide Assembled, Dirs, ToldApart;
    var before, next := Dirs(chain, name, full, n - 1), chain[n - 1][name];
    DirsMore(chain, name, full, n);
    AssembledMore(before, next);
    if full == n - 1 {
      LinkedAt(h, chain, seen, name, full);
      FullPiece(h, seen[full][name],
        if full > 0 && name in chain[full - 1] then Some(chain[full - 1][name].manifest) else None);
      NoDirs(chain, name, full);
    } else {
      IncrementalContinues(h, chain, seen, name, n - 1);
      RunAssembles(h, chain, seen, name, full, n - 1);
    }
  }

  lemma RunIsChain(h: Hash, chain: seq<ServerBackup>, seen: seq<map<Name, Store>>,
                   name: Name, full: nat, n: nat)
    requires ToldApart(h, seen, name) && Linked(h, chain, seen) && full < n <= |chain|
    requires forall i :: full <= i < n ==> name in chain[i] && name in seen[i]
    requires forall i :: full <= i < n ==> (chain[i][name].manifest.kind == Full <==> i == full)
    ensures IsChain(Dirs(chain, name, full, n))
    ensures forall k :: 0 <= k < n - full ==> Undamaged(h, Dirs(chain, name, full, n)[k])
  {
    hide Linked, Undamaged, Follows;
    var dirs := Dirs(chain, name, full, n);
    forall k | 0 <= k < |dirs|
      ensures Undamaged(h, dirs[k])
      ensures k > 0 ==> Follows(dirs[k - 1].manifest, dirs[k].manifest)
    {
      LinkedAt(h, chain, seen, name, full + k);
      if k > 0 {
        IncrementalContinues(h, chain, seen, name, full + k);
      }
    }
  }

  lemma RestoredIs(h: Hash, backups: seq<Backup>, store: Store)
    requires IsChain(backups) && Assembled(backups) == Some(store.log)
    requires forall k :: 0 <= k < |backups| ==> Undamaged(h, backups[k])
    requires var last := backups[|backups| - 1];
             && last.manifest.walSha == h(store.log) && last.manifest.walEnd == |store.log|
             && last.sidecars == store.sidecars
    ensures Restored(h, backups, false) == Ok(store)
  {
    hide Assembled, Undamaged, IsChain;
  }

  /** The directories taken for `name`, in order. */
  function Taken(chain: seq<ServerBackup>, name: Name): seq<Backup> {
    SelectedHold(chain, name, |chain|);
    var dirs := Selected(chain, name, |chain|);
    seq(|dirs|, k requires 0 <= k < |dirs| => chain[dirs[k]][name])
  }

  lemma SelectedHold(chain: seq<ServerBackup>, name: Name, n: nat)
    requires n <= |chain|
    ensures forall k :: 0 <= k < |Selected(chain, name, n)| ==>
              Selected(chain, name, n)[k] < n && name in chain[Selected(chain, name, n)[k]]
  {
  }

  lemma TakenIsRun(chain: seq<ServerBackup>, name: Name, full: nat)
    requires full <= |chain| && Selected(chain, name, |chain|) == Range(full, |chain|)
    requires forall i :: full <= i < |chain| ==> name in chain[i]
    ensures Taken(chain, name) == Dirs(chain, name, full, |chain|)
  {
    var taken, dirs := Taken(chain, name), Dirs(chain, name, full, |chain|);
    assert forall k :: 0 <= k < |chain| - full ==> taken[k] == dirs[k];
  }

  /** For every run of writes, compactions, creations, drops and backups, each taken since the
      one before: every database of the latest backup is restored, from its latest full backup
      and the incrementals after it, to the log that backup saw. */
  lemma RestoresLatest(h: Hash, actions: seq<Action>, name: Name) returns (full: nat)
    requires ToldApart(h, Reached(h, actions).seen, name)
    requires var s := Reached(h, actions); s.chain != [] && name in s.chain[|s.chain| - 1]
    ensures var s := Reached(h, actions);
            && |s.seen| == |s.chain| && name in s.seen[|s.chain| - 1]
            && full < |s.chain| && Selected(s.chain, name, |s.chain|) == Range(full, |s.chain|)
            && (forall i :: full <= i < |s.chain| ==>
                  name in s.chain[i] && (s.chain[i][name].manifest.kind == Full <==> i == full))
            && Restored(h, Taken(s.chain, name), false) == Ok(s.seen[|s.chain| - 1][name])
  {
    RunIsLinked(h, actions);
    hide Reached, Restored, Undamaged, IsChain, Assembled;
    var s := Reached(h, actions);
    full := RestoresLinked(h, s.chain, s.seen, name);
  }

  lemma RestoresLinked(h: Hash, chain: seq<ServerBackup>, seen: seq<map<Name, Store>>, name: Name)
    returns (full: nat)
    requires ToldApart(h, seen, name) && Linked(h, chain, seen) && chain != [] && name in chain[|chain| - 1]
    ensures name in seen[|chain| - 1]
    ensures full < |chain| && Selected(chain, name, |chain|) == Range(full, |chain|)
    ensures forall i :: full <= i < |chain| ==>
              name in chain[i] && (chain[i][name].manifest.kind == Full <==> i == full)
    ensures Restored(h, Taken(chain, name), false) == Ok(seen[|chain| - 1][name])
  {
    var n := |chain|;
    hide Restored, Undamaged, IsChain, Assembled, Selected, Range, Taken, ToldApart;
    full := SelectedIsRun(h, chain, seen, name, n);
    RunAssembles(h, chain, seen, name, full, n);
    RunIsChain(h, chain, seen, name, full, n);
    LastOfRun(h, chain, seen, name, full);
    TakenIsRun(chain, name, full);
    hide Linked, Dirs;
    RestoredIs(h, Dirs(chain, name, full, n), seen[n - 1][name]);
  }

  lemma LastOfRun(h: Hash, chain: seq<ServerBackup>, seen: seq<map<Name, Store>>, name: Name, full: nat)
    requires Linked(h, chain, seen) && full < |chain|
    requires forall i :: full <= i < |chain| ==> name in chain[i]
    ensures name in seen[|chain| - 1]
    ensures var dirs, store := Dirs(chain, name, full, |chain|), seen[|chain| - 1][name];
            && |dirs| == |chain| - full
            && dirs[|dirs| - 1].manifest.walSha == h(store.log)
            && dirs[|dirs| - 1].manifest.walEnd == |store.log|
            && dirs[|dirs| - 1].sidecars == store.sidecars
  {
    LinkedAt(h, chain, seen, name, |chain| - 1);
  }

  /** `restore_server`, for the databases `names` of the latest backup, into a new or empty
      directory: all are restored, each from what is taken for it, or none is. */
  method RestoreServer(h: Hash, chain: seq<ServerBackup>, names: seq<Name>)
    returns (r: Result<map<Name, Store>, Error>)
    ensures r.Ok? ==> forall name :: name in names <==> name in r.value
    ensures r.Ok? ==> forall name :: name in r.value ==>
              Restored(h, Taken(chain, name), false) == Ok(r.value[name])
    ensures r.Err? ==> exists name :: name in names && Restored(h, Taken(chain, name), false) == Err(r.error)
  {
    hide Taken, Restored;
    var stores := map[];
    var i := 0;
    while i < |names|
      invariant 0 <= i <= |names|
      invariant forall name :: name in names[..i] <==> name in stores
      invariant forall name :: name in stores ==> Restored(h, Taken(chain, name), false) == Ok(stores[name])
    {
      var one := RestoreDatabase(h, chain, names[i]);
      if one.Err? {
        assert names[i] in names;
        return Err(one.error);
      }
      stores := stores[names[i] := one.value];
      assert names[..i + 1] == names[..i] + [names[i]];
      i := i + 1;
    }
    assert names[..i] == names;
    r := Ok(stores);
  }

  method RestoreDatabase(h: Hash, chain: seq<ServerBackup>, name: Name) returns (r: Result<Store, Error>)
    ensures r == Restored(h, Taken(chain, name), false)
  {
    hide Restored;
    var dirs := SelectDirs(chain, name);
    SelectedHold(chain, name, |chain|);
    var backups := seq(|dirs|, k requires 0 <= k < |dirs| => chain[dirs[k]][name]);
    assert backups == Taken(chain, name);
    r := Restore(h, backups, false);
  }

  // ----- what restore refuses ------------------------------------------------------------------------------

  /** A chain that does not start in full, or in which some backup does not continue the one
      before it, is refused, whatever its files. */
  lemma BrokenChainRefused(h: Hash, backups: seq<Backup>, occupied: bool, i: nat)
    requires i < |backups|
    requires var m := backups[i].manifest;
             if i == 0 then m.kind == Incremental
             else
               var prev := backups[i - 1].manifest;
               m.kind == Full || m.walStart != prev.walEnd || m.baseSha != Some(prev.walSha)
    ensures Restored(h, backups, occupied) == Err(BrokenChain)
  {
    if i > 0 {
      assert !Follows(backups[i - 1].manifest, backups[i].manifest);
    }
  }

  /** A chain with a file that changed since it was taken, as far as the hash tells, is refused. */
  lemma DamageRefused(h: Hash, backups: seq<Backup>, occupied: bool, i: nat, file: Bytes)
    requires i < |backups| && IsChain(backups) && Undamaged(h, backups[i])
    requires file != backups[i].file && Tells(h, file, backups[i].file)
    ensures Restored(h, backups[i := backups[i].(file := file)], occupied) == Err(Corrupt)
  {
    var damaged := backups[i := backups[i].(file := file)];
    assert forall k :: 0 <= k < |backups| ==> damaged[k].manifest == backups[k].manifest;
    assert !Undamaged(h, damaged[i]);
  }
}
