/** How the service keeps its indexes (`src/native_service.rs`): one thread at a time brings
    them up to date under the write lock, step by step, while others commit, trim the change
    feed behind them, declare indexes and switch the secondary ones on and off. */
module IndexProtocol {
  import opened Prelude
  import opened Replay
  import opened GraphLog

  type Entry = string

  datatype Kind = Labels | Paths | Texts | Points | Props | Values | Fts | FtsRel

  /** Kinds that index what the registry declares. */
  predicate Declared(kind: Kind) {
    kind.Paths? || kind.Texts? || kind.Points?
  }

  /** Kinds that can be switched off. */
  predicate Optional(kind: Kind) {
    kind.Props? || kind.Values? || kind.Fts? || kind.FtsRel?
  }

  function AlwaysKept(): seq<Kind> {
    [Labels, Paths, Texts, Points]
  }

  function OptionalKinds(): seq<Kind> {
    [Props, Values, Fts, FtsRel]
  }

  function DeclaredKinds(): seq<Kind> {
    [Paths, Texts, Points]
  }

  /** The kinds kept, in the order they are synced. */
  function KeptKinds(secondary: bool): seq<Kind> {
    AlwaysKept() + (if secondary then OptionalKinds() else [])
  }

  /** One revision of the registry of declared indexes. */
  datatype Definitions = Definitions(paths: seq<string>, texts: seq<string>, points: seq<string>)
  {
    function For(kind: Kind): seq<string> {
      match kind
      case Paths => paths
      case Texts => texts
      case Points => points
      case _ => []
    }
  }

  /** What an index of nodes keeps of a node, given its kind and definitions, and what the
      full-text index of relationships keeps of a relationship. */
  datatype Projection = Projection(node: (Kind, seq<string>, nat, Record) -> Option<Entry>,
                                   rel: (nat, Edge) -> Option<Entry>)

  /** A declared kind without definitions keeps nothing. */
  function Projects(p: Projection, kind: Kind, specs: seq<string>): (nat, Record) -> Option<Entry> {
    if Declared(kind) && specs == [] then (k: nat, r: Record) => None
    else (k: nat, r: Record) => p.node(kind, specs, k, r)
  }

  /** An index: the changes it consumed, its definitions and their registry revision, its
      entries, how much of the log they reflect, and of its last rebuild the head read first
      and the length of the snapshot. */
  datatype Index = Index(cursor: nat, specs: seq<string>, rev: nat, entries: map<nat, Entry>, taken: nat,
                         start: nat, base: nat)

  const EMPTY_INDEX := Index(0, [], 0, map[], 0, 0, 0)

  /** Where the thread holding the write lock is. `mid` is the feed head it read before the
      snapshot it is about to rebuild the first of `left` from. */
  datatype Phase =
    | Free
    | Locked
    | GotVersion(version: nat)
    | Respecify(version: nat, rev: nat, left: seq<Kind>, mid: Option<nat>)
    | Switch
    | Refill(left: seq<Kind>, mid: Option<nat>)
    | Check
    | CatchUp(head: nat, left: seq<Kind>, mid: Option<nat>)

  datatype System = System(
    log: Log, floor: nat,
    // every revision of the registry, and whose version bumps are done, in order, or due
    revisions: seq<Definitions>, bumps: seq<nat>, due: set<nat>,
    wanted: bool,
    indexes: map<Kind, Index>, syncedHead: nat, pathsVersion: nat, secondary: bool,
    phase: Phase,
    // the values of `syncedHead` that trims have read
    trims: set<nat>)
  {
    predicate Kept(kind: Kind) {
      Optional(kind) ==> secondary
    }

    /** `with_fresh_indexes` serves at once. */
    predicate Fresh() {
      syncedHead == |log| && pathsVersion == |bumps| && secondary == wanted
    }
  }

  datatype Action =
    | Commit(ops: Log)
    | ReadSynced
    | Trim(synced: nat, keepFrom: nat)
    | Declare(definitions: Definitions)
    | Bump(rev: nat)
    | Want(on: bool)
    | Lock
    | Advance

  // ----- one index --------------------------------------------------------------------

  /** What a build from scratch over `g` holds. */
  function BuildOf(p: Projection, kind: Kind, specs: seq<string>, g: Graph): map<nat, Entry> {
    if kind.FtsRel? then Build(p.rel, g.edges) else Build(Projects(p, kind, specs), g.nodes)
  }

  /** Replace the definitions and rebuild from a snapshot of `log`, the head having been
      `head` before. */
  function Rebuilt(p: Projection, kind: Kind, log: Log, specs: seq<string>, rev: nat, head: nat): Index {
    Index(head, specs, rev, BuildOf(p, kind, specs, GraphOf(log)), |log|, head, |log|)
  }

  /** A declared index without definitions does not read the feed. */
  predicate ReadsFeed(kind: Kind, i: Index) {
    !(Declared(kind) && i.specs == [])
  }

  /** The changes since the cursor applied: those of nodes, or for the index of relationships
      those of relationships. Changes up to `floor` are no longer in the feed. */
  function Applied(p: Projection, kind: Kind, i: Index, log: Log, floor: nat): Index
    requires i.cursor <= |log| && (ReadsFeed(kind, i) ==> floor <= i.cursor)
  {
    var ops := log[i.cursor..];
    var entries :=
      if kind.FtsRel? then ApplyAll(p.rel, i.entries, EdgeChanges(ops))
      else if Declared(kind) && i.specs == [] then i.entries
      else ApplyAll(Projects(p, kind, i.specs), i.entries, NodeChanges(ops));
    i.(cursor := |log|, entries := entries, taken := |log|)
  }

  /** The cursor fell behind the feed: the index has to be rebuilt. */
  predicate Lagged(kind: Kind, i: Index, floor: nat) {
    i.cursor < floor && ReadsFeed(kind, i)
  }

  // ----- the steps -------------------------------------------------------------------

  /** The next step of the thread holding the write lock. */
  function Advanced(p: Projection, s: System): System
    requires s.revisions != [] && forall kind :: kind in s.indexes
    requires forall kind :: s.indexes[kind].cursor <= |s.log|
  {
    match s.phase
    case Free => s
    case Locked => s.(phase := if s.pathsVersion != |s.bumps| then GotVersion(|s.bumps|) else Switch)
    case GotVersion(version) => s.(phase := Respecify(version, |s.revisions| - 1, DeclaredKinds(), None))
    case Respecify(version, rev, left, mid) =>
      if left == [] then s.(pathsVersion := version, phase := Switch)
      else if mid.None? then s.(phase := Respecify(version, rev, left, Some(|s.log|)))
      else if rev >= |s.revisions| then s
      else s.(indexes := s.indexes[left[0] :=
                Rebuilt(p, left[0], s.log, s.revisions[rev].For(left[0]), rev, mid.value)],
              phase := Respecify(version, rev, left[1..], None))
    case Switch =>
      if s.wanted == s.secondary then s.(phase := Check)
      else s.(indexes := Emptied(s.indexes), secondary := s.wanted,
              phase := if s.wanted then Refill(OptionalKinds(), None) else Check)
    case Refill(left, mid) =>
      if left == [] then s.(phase := Check)
      else var (indexes, left', mid') := Sync(p, s, left, mid);
           s.(indexes := indexes, phase := Refill(left', mid'))
    case Check =>
      if s.syncedHead == |s.log| then s.(phase := Free)
      else s.(phase := CatchUp(|s.log|, KeptKinds(s.secondary), None))
    case CatchUp(head, left, mid) =>
      if left == [] then s.(syncedHead := head, phase := Free)
      else var (indexes, left', mid') := Sync(p, s, left, mid);
           s.(indexes := indexes, phase := CatchUp(head, left', mid'))
  }

  function Emptied(indexes: map<Kind, Index>): map<Kind, Index> {
    map kind | kind in indexes :: if Optional(kind) then EMPTY_INDEX else indexes[kind]
  }

  /** One step of syncing the first of `left`: the changes applied; or the head read, and the
      rebuild after it. */
  function Sync(p: Projection, s: System, left: seq<Kind>, mid: Option<nat>)
    : (map<Kind, Index>, seq<Kind>, Option<nat>)
    requires left != [] && forall kind :: kind in s.indexes
    requires forall kind :: s.indexes[kind].cursor <= |s.log|
  {
    var kind := left[0];
    var i := s.indexes[kind];
    if mid.Some? then
      (s.indexes[kind := Rebuilt(p, kind, s.log, i.specs, i.rev, mid.value)], left[1..], None)
    else if Lagged(kind, i, s.floor) then (s.indexes, left, Some(|s.log|))
    else (s.indexes[kind := Applied(p, kind, i, s.log, s.floor)], left[1..], None)
  }

  /** One step of the system; an action that is not possible changes nothing. */
  function Next(p: Projection, s: System, a: Action): System
    requires s.revisions != [] && forall kind :: kind in s.indexes
    requires forall kind :: s.indexes[kind].cursor <= |s.log|
  {
    match a
    case Commit(ops) => s.(log := s.log + ops)
    case ReadSynced => if s.phase.Free? then s.(trims := s.trims + {s.syncedHead}) else s
    case Trim(synced, keepFrom) =>
      if synced !in s.trims then s
      else s.(floor := Max(s.floor, Min(Min(synced, keepFrom), |s.log|)))
    case Declare(definitions) =>
      s.(revisions := s.revisions + [definitions], due := s.due + {|s.revisions|})
    case Bump(rev) =>
      if rev in s.due then s.(due := s.due - {rev}, bumps := s.bumps + [rev]) else s
    case Want(on) => s.(wanted := on)
    case Lock => if s.phase.Free? then s.(phase := Locked) else s
    case Advance => Advanced(p, s)
  }

  /** A service opened over `log`: its constructor is the first to catch up. */
  function Opened(log: Log, definitions: Definitions, secondary: bool): System {
    System(log, 0, [definitions], [], {}, secondary,
           map kind: Kind | kind in KeptKinds(true) ::
             kind := EMPTY_INDEX.(specs := definitions.For(kind)),
           0, 0, secondary,
           CatchUp(|log|, KeptKinds(secondary), None), {})
  }

  // ----- the invariant -----------------------------------------------------------------

  /** An index of nodes holds exactly what a build over the changes it reflects would, which
      are at least those it consumed; the index of relationships what it was rebuilt from,
      with the changes of relationships since. */
  ghost predicate IndexOk(p: Projection, kind: Kind, i: Index, log: Log, revisions: seq<Definitions>) {
    && i.start <= i.cursor <= i.taken <= |log| && i.start <= i.base <= i.taken
    && i.rev < |revisions| && i.specs == revisions[i.rev].For(kind)
    && i.entries == (if kind.FtsRel? then RelEntries(p.rel, log, i.start, i.base, i.cursor)
                     else BuildOf(p, kind, i.specs, GraphOf(log[..i.taken])))
  }

  type Indexes = map<Kind, Index>

  ghost predicate IndexesOk(p: Projection, indexes: Indexes, log: Log, revisions: seq<Definitions>) {
    forall kind :: kind in indexes && IndexOk(p, kind, indexes[kind], log, revisions)
  }

  /** Every kept index of a kind not in `left` consumed the changes up to `head`. */
  ghost predicate Consumed(indexes: Indexes, secondary: bool, head: nat, left: seq<Kind>) {
    forall kind :: kind in indexes && (Optional(kind) ==> secondary) && kind !in left ==>
      head <= indexes[kind].cursor
  }

  /** Every definition bumped before `version` is among those of revision `rev`. */
  ghost predicate Covers(bumps: seq<nat>, version: nat, rev: nat) {
    version <= |bumps| && forall i :: 0 <= i < version ==> bumps[i] <= rev
  }

  /** What the version claims is applied in every declared index. */
  ghost predicate RevsCover(indexes: Indexes, bumps: seq<nat>, version: nat) {
    forall kind :: kind in indexes && Declared(kind) ==> Covers(bumps, version, indexes[kind].rev)
  }

  /** The declared indexes of kinds not in `left` follow revision `rev`. */
  ghost predicate Follow(indexes: Indexes, rev: nat, left: seq<Kind>) {
    forall kind :: kind in indexes && Declared(kind) && kind !in left ==> indexes[kind].rev == rev
  }

  /** Every revision of the registry but the first is bumped or due. */
  ghost predicate Accounted(revisions: nat, bumps: seq<nat>, due: set<nat>) {
    && revisions > 0
    && (forall rev :: rev in bumps || rev in due ==> rev < revisions)
    && (forall rev :: 0 < rev < revisions ==> rev in bumps || rev in due)
  }

  ghost predicate FeedOk(floor: nat, syncedHead: nat, head: nat, trims: set<nat>) {
    floor <= syncedHead <= head && forall t :: t in trims ==> t <= syncedHead
  }

  ghost predicate MidOk(head: nat, log: Log, left: seq<Kind>, mid: Option<nat>) {
    mid.Some? ==> left != [] && head <= mid.value <= |log|
  }

  ghost predicate PhaseOk(s: System) {
    match s.phase
    case Respecify(version, rev, left, mid) =>
      && Consumed(s.indexes, s.secondary, s.syncedHead, [])
      && s.pathsVersion <= version && rev < |s.revisions| && Covers(s.bumps, version, rev)
      && Follow(s.indexes, rev, left) && MidOk(s.syncedHead, s.log, left, mid)
    case Refill(left, mid) =>
      && Consumed(s.indexes, s.secondary, s.syncedHead, left)
      && MidOk(s.syncedHead, s.log, left, mid)
    case CatchUp(head, left, mid) =>
      && Consumed(s.indexes, s.secondary, head, left)
      && s.syncedHead <= head <= |s.log| && MidOk(head, s.log, left, mid)
    case GotVersion(version) =>
      Consumed(s.indexes, s.secondary, s.syncedHead, []) && s.pathsVersion <= version <= |s.bumps|
    case _ => Consumed(s.indexes, s.secondary, s.syncedHead, [])
  }

  ghost predicate Inv(p: Projection, s: System) {
    && IndexesOk(p, s.indexes, s.log, s.revisions)
    && FeedOk(s.floor, s.syncedHead, |s.log|, s.trims)
    && Accounted(|s.revisions|, s.bumps, s.due)
    && RevsCover(s.indexes, s.bumps, s.pathsVersion) && s.pathsVersion <= |s.bumps|
    && PhaseOk(s)
  }

  /** The invariant makes every step defined. */
  lemma InvGives(p: Projection, s: System)
    requires Inv(p, s)
    ensures s.revisions != [] && forall kind :: kind in s.indexes
    ensures forall kind :: s.indexes[kind].cursor <= |s.log| && s.indexes[kind].rev < |s.revisions|
  {
    hide BuildOf, RelEntries, GraphOf;
  }

  // ----- every step keeps it ----------------------------------------------------------

  lemma RebuiltOk(p: Projection, kind: Kind, log: Log, revisions: seq<Definitions>, rev: nat, head: nat)
    requires rev < |revisions| && head <= |log|
    ensures IndexOk(p, kind, Rebuilt(p, kind, log, revisions[rev].For(kind), rev, head), log, revisions)
  {
    hide GraphOf;
    assert log[..|log|] == log && log[head..head] == [];
  }

  lemma AppliedOk(p: Projection, kind: Kind, i: Index, log: Log, floor: nat, revisions: seq<Definitions>)
    requires IndexOk(p, kind, i, log, revisions) && (ReadsFeed(kind, i) ==> floor <= i.cursor)
    ensures IndexOk(p, kind, Applied(p, kind, i, log, floor), log, revisions)
  {
    hide GraphOf, ApplyAll;
    assert log[..|log|] == log;
    if kind.FtsRel? {
      RelEntriesMore(p.rel, log, i.start, i.base, i.cursor);
    } else if Declared(kind) && i.specs == [] {
      assert i.entries == map[];
      assert BuildOf(p, kind, i.specs, GraphOf(log)) == map[];
    } else {
      NodeReplayRebuilds(Projects(p, kind, i.specs), log, i.cursor, i.taken);
    }
  }

  lemma RelEntriesMore(project: (nat, Edge) -> Option<Entry>, log: Log, start: nat, base: nat, cursor: nat)
    requires start <= cursor <= |log| && start <= base <= |log|
    ensures ApplyAll(project, RelEntries(project, log, start, base, cursor), EdgeChanges(log[cursor..]))
         == RelEntries(project, log, start, base, |log|)
  {
    hide GraphOf, Build;
    var a, b := EdgeChanges(log[start..cursor]), EdgeChanges(log[cursor..]);
    assert EdgeChanges(log[start..|log|]) == a + b;
    ApplyAllAppend(project, Build(project, GraphOf(log[..base]).edges), a, b);
  }

  /** An index stays exact while the log and the registry grow. */
  lemma StaysOk(p: Projection, kind: Kind, i: Index, log: Log, more: Log,
                revisions: seq<Definitions>, later: seq<Definitions>)
    requires IndexOk(p, kind, i, log, revisions)
    ensures IndexOk(p, kind, i, log + more, revisions + later)
  {
    hide GraphOf, ApplyAll, Build;
    var all := log + more;
    assert all[..i.taken] == log[..i.taken] && all[..i.base] == log[..i.base];
    assert all[i.start..i.cursor] == log[i.start..i.cursor];
  }

  lemma AllListed(secondary: bool)
    ensures forall kind :: Optional(kind) <==> kind in OptionalKinds()
    ensures forall kind :: Declared(kind) <==> kind in DeclaredKinds()
    ensures forall kind :: kind in KeptKinds(secondary) <==> !Optional(kind) || secondary
  {
    assert OptionalKinds()[0] == Props && OptionalKinds()[1] == Values;
    assert OptionalKinds()[2] == Fts && OptionalKinds()[3] == FtsRel;
    assert DeclaredKinds()[0] == Paths && DeclaredKinds()[1] == Texts && DeclaredKinds()[2] == Points;
    assert AlwaysKept()[0] == Labels && AlwaysKept()[1] == Paths;
    assert AlwaysKept()[2] == Texts && AlwaysKept()[3] == Points;
  }

  lemma OpenedOk(p: Projection, log: Log, definitions: Definitions, secondary: bool)
    ensures Inv(p, Opened(log, definitions, secondary))
  {
    AllListed(true);
    AllListed(secondary);
    assert log[..0] == [];
  }

  lemma AllStayOk(p: Projection, indexes: Indexes, log: Log, more: Log,
                  revisions: seq<Definitions>, later: seq<Definitions>)
    requires IndexesOk(p, indexes, log, revisions)
    ensures IndexesOk(p, indexes, log + more, revisions + later)
  {
    hide IndexOk;
    forall kind
      ensures kind in indexes && IndexOk(p, kind, indexes[kind], log + more, revisions + later)
    {
      StaysOk(p, kind, indexes[kind], log, more, revisions, later);
    }
  }

  lemma CommitKeeps(p: Projection, s: System, ops: Log)
    requires Inv(p, s)
    ensures Inv(p, Next(p, s, Commit(ops)))
  {
    InvGives(p, s);
    hide IndexesOk, Consumed, RevsCover, Follow, Accounted, Covers;
    AllStayOk(p, s.indexes, s.log, ops, s.revisions, []);
    assert s.revisions + [] == s.revisions;
  }

  lemma DeclareKeeps(p: Projection, s: System, definitions: Definitions)
    requires Inv(p, s)
    ensures Inv(p, Next(p, s, Declare(definitions)))
  {
    InvGives(p, s);
    hide IndexesOk, Consumed, RevsCover, Follow, Covers;
    AllStayOk(p, s.indexes, s.log, [], s.revisions, [definitions]);
    assert s.log + [] == s.log;
  }

  lemma BumpKeeps(p: Projection, s: System, rev: nat)
    requires Inv(p, s)
    ensures Inv(p, Next(p, s, Bump(rev)))
  {
    InvGives(p, s);
    hide IndexesOk, Consumed, Follow;
    if rev in s.due {
      var bumps := s.bumps + [rev];
      assert bumps[|s.bumps|] == rev && forall i :: 0 <= i < |s.bumps| ==> bumps[i] == s.bumps[i];
      assert forall r :: r in bumps <==> r in s.bumps || r == rev;
    }
  }

  lemma OthersKeep(p: Projection, s: System, a: Action)
    requires Inv(p, s) && !a.Commit? && !a.Declare? && !a.Bump? && !a.Advance?
    ensures Inv(p, Next(p, s, a))
  {
    InvGives(p, s);
    hide IndexesOk, Consumed, RevsCover, Follow, Accounted, Covers;
  }

  /** One index of `left` replaced by an exact one that consumed the changes up to `head`. */
  lemma OneReplaced(p: Projection, s: System, i: Index, head: nat, left: seq<Kind>)
    requires left != [] && left[0] in s.indexes && IndexesOk(p, s.indexes, s.log, s.revisions)
    requires IndexOk(p, left[0], i, s.log, s.revisions)
    requires head <= i.cursor && i.rev == s.indexes[left[0]].rev
    requires Consumed(s.indexes, s.secondary, head, left)
    ensures var indexes := s.indexes[left[0] := i];
            && IndexesOk(p, indexes, s.log, s.revisions)
            && Consumed(indexes, s.secondary, head, left[1..])
            && (forall kind :: kind in indexes && indexes[kind].rev == s.indexes[kind].rev)
  {
    hide IndexOk;
  }

  /** One index is brought to `head` or further, and stays exact; the others are not touched. */
  lemma SyncKeeps(p: Projection, s: System, head: nat, left: seq<Kind>, mid: Option<nat>)
    requires IndexesOk(p, s.indexes, s.log, s.revisions) && left != [] && head <= |s.log|
    requires forall kind :: kind in s.indexes && s.indexes[kind].cursor <= |s.log|
    requires MidOk(head, s.log, left, mid) && Consumed(s.indexes, s.secondary, head, left)
    ensures var (indexes, left', mid') := Sync(p, s, left, mid);
            && IndexesOk(p, indexes, s.log, s.revisions)
            && Consumed(indexes, s.secondary, head, left') && MidOk(head, s.log, left', mid')
            && (forall kind :: kind in indexes && indexes[kind].rev == s.indexes[kind].rev)
  {
    var kind := left[0];
    var i := s.indexes[kind];
    assert IndexOk(p, kind, i, s.log, s.revisions);
    if mid.Some? {
      RebuiltOk(p, kind, s.log, s.revisions, i.rev, mid.value);
      OneReplaced(p, s, Rebuilt(p, kind, s.log, i.specs, i.rev, mid.value), head, left);
    } else if !Lagged(kind, i, s.floor) {
      AppliedOk(p, kind, i, s.log, s.floor, s.revisions);
      OneReplaced(p, s, Applied(p, kind, i, s.log, s.floor), head, left);
    }
    hide IndexesOk, Consumed, IndexOk, BuildOf, RelEntries, GraphOf, ApplyAll;
  }

  lemma SameRevsCover(indexes: Indexes, later: Indexes, bumps: seq<nat>, version: nat)
    requires RevsCover(indexes, bumps, version)
    requires forall kind :: kind in indexes && kind in later && later[kind].rev == indexes[kind].rev
    ensures RevsCover(later, bumps, version)
  {
  }

  /** The steps that sync. */
  lemma SyncSteps(p: Projection, s: System)
    requires s.revisions != [] && forall kind :: kind in s.indexes && s.indexes[kind].cursor <= |s.log|
    requires (s.phase.Refill? || s.phase.CatchUp?) && s.phase.left != []
    ensures var (indexes, left, mid) := Sync(p, s, s.phase.left, s.phase.mid);
            Advanced(p, s) == s.(indexes := indexes, phase := s.phase.(left := left, mid := mid))
  {
    hide Sync;
  }

  lemma RefillKeeps(p: Projection, s: System)
    requires Inv(p, s) && s.phase.Refill?
    ensures Inv(p, Advanced(p, s))
  {
    hide Sync, IndexesOk, Consumed, RevsCover, Follow, Accounted, Covers;
    InvGives(p, s);
    if s.phase.left != [] {
      RefillOne(p, s);
    }
  }

  lemma RefillOne(p: Projection, s: System)
    requires Inv(p, s) && s.phase.Refill? && s.phase.left != []
    ensures Inv(p, Advanced(p, s))
  {
    hide Advanced, Sync, IndexesOk, Consumed, RevsCover, Follow, Accounted, Covers;
    InvGives(p, s);
    SyncSteps(p, s);
    SyncKeeps(p, s, s.syncedHead, s.phase.left, s.phase.mid);
    SameRevsCover(s.indexes, Sync(p, s, s.phase.left, s.phase.mid).0, s.bumps, s.pathsVersion);
  }

  lemma CatchUpKeeps(p: Projection, s: System)
    requires Inv(p, s) && s.phase.CatchUp?
    ensures Inv(p, Advanced(p, s))
  {
    hide Advanced, Sync, IndexesOk, Consumed, RevsCover, Follow, Accounted, Covers;
    InvGives(p, s);
    if s.phase.left == [] {
      AllSynced(p, s);
    } else {
      CatchUpOne(p, s);
    }
  }

  lemma CatchUpOne(p: Projection, s: System)
    requires Inv(p, s) && s.phase.CatchUp? && s.phase.left != []
    ensures Inv(p, Advanced(p, s))
  {
    hide Advanced, Sync, IndexesOk, Consumed, RevsCover, Follow, Accounted, Covers;
    InvGives(p, s);
    SyncSteps(p, s);
    SyncKeeps(p, s, s.phase.head, s.phase.left, s.phase.mid);
    SameRevsCover(s.indexes, Sync(p, s, s.phase.left, s.phase.mid).0, s.bumps, s.pathsVersion);
  }

  /** One declared index rebuilt with the definitions of `rev`. */
  lemma RespecifyOne(p: Projection, s: System, version: nat, rev: nat, left: seq<Kind>, head: nat)
    requires IndexesOk(p, s.indexes, s.log, s.revisions) && rev < |s.revisions| && left != []
    requires s.syncedHead <= head <= |s.log| && s.pathsVersion <= version
    requires Consumed(s.indexes, s.secondary, s.syncedHead, [])
    requires Covers(s.bumps, version, rev) && RevsCover(s.indexes, s.bumps, s.pathsVersion)
    requires Follow(s.indexes, rev, left)
    ensures var i := Rebuilt(p, left[0], s.log, s.revisions[rev].For(left[0]), rev, head);
            var indexes := s.indexes[left[0] := i];
            && IndexesOk(p, indexes, s.log, s.revisions)
            && Consumed(indexes, s.secondary, s.syncedHead, [])
            && RevsCover(indexes, s.bumps, s.pathsVersion) && Follow(indexes, rev, left[1..])
  {
    RebuiltOk(p, left[0], s.log, s.revisions, rev, head);
    hide IndexOk;
  }

  lemma FollowCovers(indexes: Indexes, bumps: seq<nat>, version: nat, rev: nat)
    requires Follow(indexes, rev, []) && Covers(bumps, version, rev)
    ensures RevsCover(indexes, bumps, version)
  {
    hide Covers;
  }

  lemma RespecifyKeeps(p: Projection, s: System)
    requires Inv(p, s) && s.phase.Respecify?
    ensures Inv(p, Advanced(p, s))
  {
    InvGives(p, s);
    var Respecify(version, rev, left, mid) := s.phase;
    if left == [] {
      FollowCovers(s.indexes, s.bumps, version, rev);
    } else if mid.Some? {
      RespecifyOne(p, s, version, rev, left, mid.value);
    }
    assert version <= |s.bumps|;
    hide IndexesOk, Consumed, RevsCover, Follow, Accounted, Covers;
  }

  lemma EmptiedOk(p: Projection, indexes: Indexes, log: Log, revisions: seq<Definitions>)
    requires IndexesOk(p, indexes, log, revisions) && revisions != []
    ensures IndexesOk(p, Emptied(indexes), log, revisions)
  {
    hide IndexOk;
    forall kind | Optional(kind)
      ensures IndexOk(p, kind, EMPTY_INDEX, log, revisions)
    {
      EmptyOk(p, kind, log, revisions);
    }
  }

  lemma EmptyOk(p: Projection, kind: Kind, log: Log, revisions: seq<Definitions>)
    requires Optional(kind) && revisions != []
    ensures IndexOk(p, kind, EMPTY_INDEX, log, revisions)
  {
    assert log[..0] == [] && log[0..0] == [];
  }

  lemma EmptiedConsumed(indexes: Indexes, head: nat, was: bool, on: bool)
    requires Consumed(indexes, was, head, [])
    ensures Consumed(Emptied(indexes), on, head, OptionalKinds())
    ensures !on ==> Consumed(Emptied(indexes), on, head, [])
  {
    AllListed(on);
  }

  lemma EmptiedCover(indexes: Indexes, bumps: seq<nat>, version: nat)
    requires RevsCover(indexes, bumps, version)
    ensures RevsCover(Emptied(indexes), bumps, version)
  {
    hide Covers;
  }

  lemma SwitchKeeps(p: Projection, s: System)
    requires Inv(p, s) && s.phase.Switch?
    ensures Inv(p, Advanced(p, s))
  {
    InvGives(p, s);
    EmptiedOk(p, s.indexes, s.log, s.revisions);
    EmptiedConsumed(s.indexes, s.syncedHead, s.secondary, s.wanted);
    EmptiedCover(s.indexes, s.bumps, s.pathsVersion);
    hide IndexesOk, RevsCover, Consumed, Follow, Accounted, Covers, Emptied, OptionalKinds;
  }

  lemma LockedKeeps(p: Projection, s: System)
    requires Inv(p, s) && (s.phase.Free? || s.phase.Locked?)
    ensures Inv(p, Advanced(p, s))
  {
    InvGives(p, s);
    hide IndexesOk, Consumed, RevsCover, Follow, Accounted, Covers;
  }

  /** The registry as it is now covers every bump so far. */
  lemma NowCovers(revisions: nat, bumps: seq<nat>, due: set<nat>, version: nat)
    requires Accounted(revisions, bumps, due) && version <= |bumps|
    ensures Covers(bumps, version, revisions - 1)
  {
    forall i | 0 <= i < version
      ensures bumps[i] <= revisions - 1
    {
      assert bumps[i] in bumps;
    }
  }

  lemma AllLeft(indexes: Indexes, secondary: bool, head: nat, rev: nat)
    ensures Consumed(indexes, secondary, head, KeptKinds(secondary))
    ensures Follow(indexes, rev, DeclaredKinds())
  {
    AllListed(secondary);
  }

  lemma GotVersionKeeps(p: Projection, s: System)
    requires Inv(p, s) && s.phase.GotVersion?
    ensures Inv(p, Advanced(p, s))
  {
    InvGives(p, s);
    NowCovers(|s.revisions|, s.bumps, s.due, s.phase.version);
    AllLeft(s.indexes, s.secondary, 0, |s.revisions| - 1);
    hide IndexesOk, Consumed, RevsCover, Follow, Accounted, Covers, DeclaredKinds;
  }

  lemma CheckKeeps(p: Projection, s: System)
    requires Inv(p, s) && s.phase.Check?
    ensures Inv(p, Advanced(p, s))
  {
    InvGives(p, s);
    AllLeft(s.indexes, s.secondary, |s.log|, 0);
    hide IndexesOk, Consumed, RevsCover, Follow, Accounted, Covers, KeptKinds;
  }

  /** Every step keeps the invariant. */
  lemma NextKeeps(p: Projection, s: System, a: Action)
    requires Inv(p, s)
    ensures Inv(p, Next(p, s, a))
  {
    InvGives(p, s);
    hide Inv;
    match a
    case Commit(ops) => CommitKeeps(p, s, ops);
    case Declare(definitions) => DeclareKeeps(p, s, definitions);
    case Bump(rev) => BumpKeeps(p, s, rev);
    case Advance =>
      match s.phase {
        case Respecify(_, _, _, _) => RespecifyKeeps(p, s);
        case Switch => SwitchKeeps(p, s);
        case Refill(_, _) => RefillKeeps(p, s);
        case CatchUp(_, _, _) => CatchUpKeeps(p, s);
        case GotVersion(_) => GotVersionKeeps(p, s);
        case Check => CheckKeeps(p, s);
        case _ => LockedKeeps(p, s);
      }
    case _ => OthersKeep(p, s, a);
  }

  // ----- every run --------------------------------------------------------------------

  /** A service opened over `log`, after `actions`. */
  ghost function Reached(p: Projection, log: Log, definitions: Definitions, secondary: bool,
                         actions: seq<Action>): (r: System)
    ensures Inv(p, r)
    decreases |actions|
  {
    if actions == [] then OpenedOk(p, log, definitions, secondary); Opened(log, definitions, secondary)
    else
      var before := Reached(p, log, definitions, secondary, actions[..|actions| - 1]);
      InvGives(p, before);
      NextKeeps(p, before, actions[|actions| - 1]);
      Next(p, before, actions[|actions| - 1])
  }

  /** Whatever the interleaving, the synced head is not ahead of the log and nothing is
      trimmed beyond it; while no thread holds the write lock, no kept index is behind it. */
  lemma NeverClaimsMore(p: Projection, log: Log, definitions: Definitions, secondary: bool,
                        actions: seq<Action>, kind: Kind)
    ensures var s := Reached(p, log, definitions, secondary, actions);
            && s.floor <= s.syncedHead <= |s.log|
            && kind in s.indexes
            && (s.phase.Free? && s.Kept(kind) ==>
                  && s.syncedHead <= s.indexes[kind].cursor
                  && !Lagged(kind, s.indexes[kind], s.floor))
  {
    var s := Reached(p, log, definitions, secondary, actions);
    InvGives(p, s);
    hide IndexesOk;
  }

  /** A statement served under the read lock sees, in every kept index but that of
      relationships, exactly what a build from scratch over the log would hold, for definitions
      no older than any whose declaration had completed; with none under way, for the registry
      as it is. */
  lemma ServedFresh(p: Projection, log: Log, definitions: Definitions, secondary: bool,
                    actions: seq<Action>, kind: Kind)
    ensures var s := Reached(p, log, definitions, secondary, actions);
            s.phase.Free? && s.Fresh() && s.Kept(kind) ==>
              && kind in s.indexes && s.indexes[kind].rev < |s.revisions|
              && var specs := s.revisions[s.indexes[kind].rev].For(kind);
              && s.indexes[kind].specs == specs
              && (!kind.FtsRel? ==> s.indexes[kind].entries == BuildOf(p, kind, specs, GraphOf(s.log)))
              && (Declared(kind) ==> forall rev :: rev in s.bumps ==> rev <= s.indexes[kind].rev)
              && (Declared(kind) && s.due == {} ==> s.indexes[kind].rev == |s.revisions| - 1)
  {
    FreshIsExact(p, Reached(p, log, definitions, secondary, actions), kind);
  }

  lemma FreshIsExact(p: Projection, s: System, kind: Kind)
    requires Inv(p, s)
    ensures s.phase.Free? && s.Fresh() && s.Kept(kind) ==>
              && kind in s.indexes && s.indexes[kind].rev < |s.revisions|
              && var specs := s.revisions[s.indexes[kind].rev].For(kind);
              && s.indexes[kind].specs == specs
              && (!kind.FtsRel? ==> s.indexes[kind].entries == BuildOf(p, kind, specs, GraphOf(s.log)))
              && (Declared(kind) ==> forall rev :: rev in s.bumps ==> rev <= s.indexes[kind].rev)
              && (Declared(kind) && s.due == {} ==> s.indexes[kind].rev == |s.revisions| - 1)
  {
    hide GraphOf, BuildOf, RelEntries;
    assert IndexOk(p, kind, s.indexes[kind], s.log, s.revisions);
    assert s.log[..|s.log|] == s.log;
    if s.phase.Free? && s.Fresh() && Declared(kind) && s.due == {} && |s.revisions| > 1 {
      assert |s.revisions| - 1 in s.bumps;
    }
  }

  /** The index of relationships sees the stored ones exactly as a build from scratch does; it
      holds nothing else exactly if no relationship it projects went with its node since its
      last rebuild. */
  lemma RelationshipsServed(p: Projection, log: Log, definitions: Definitions, secondary: bool,
                            actions: seq<Action>)
    ensures var s := Reached(p, log, definitions, secondary, actions);
            s.phase.Free? && s.Fresh() && s.secondary ==>
              && FtsRel in s.indexes
              && var i, live := s.indexes[FtsRel], GraphOf(s.log).edges;
              && i.start <= i.base <= |s.log|
              && (map id | id in i.entries && id in live :: i.entries[id]) == Build(p.rel, live)
              && (i.entries == Build(p.rel, live) <==>
                  forall id :: !LeftBehind(p.rel, s.log, i.start, i.base, id))
  {
    FreshRelationships(p, Reached(p, log, definitions, secondary, actions));
  }

  lemma FreshRelationships(p: Projection, s: System)
    requires Inv(p, s)
    ensures s.phase.Free? && s.Fresh() && s.secondary ==>
              && FtsRel in s.indexes
              && var i, live := s.indexes[FtsRel], GraphOf(s.log).edges;
              && i.start <= i.base <= |s.log|
              && (map id | id in i.entries && id in live :: i.entries[id]) == Build(p.rel, live)
              && (i.entries == Build(p.rel, live) <==>
                  forall id :: !LeftBehind(p.rel, s.log, i.start, i.base, id))
  {
    hide GraphOf, BuildOf, RelEntries, LeftBehind, Build;
    var i := s.indexes[FtsRel];
    assert IndexOk(p, FtsRel, i, s.log, s.revisions);
    RelEntriesExact(p.rel, s.log, i.start, i.base);
  }

  /** One more action of a run. */
  lemma ReachedNext(p: Projection, log: Log, definitions: Definitions, secondary: bool,
                    actions: seq<Action>, a: Action)
    ensures var s := Reached(p, log, definitions, secondary, actions);
            && s.revisions != [] && (forall kind :: kind in s.indexes && s.indexes[kind].cursor <= |s.log|)
            && Reached(p, log, definitions, secondary, actions + [a]) == Next(p, s, a)
  {
    InvGives(p, Reached(p, log, definitions, secondary, actions));
    assert (actions + [a])[..|actions|] == actions;
  }

  /** A thread that catches up while nothing is trimmed and nobody else moves. */
  lemma {:induction false} CatchUpRunsOut(p: Projection, log: Log, definitions: Definitions, secondary: bool,
                                          actions: seq<Action>)
    returns (more: seq<Action>)
    requires var s := Reached(p, log, definitions, secondary, actions);
             s.floor == 0 && s.phase.CatchUp? && s.phase.mid.None?
    ensures var s := Reached(p, log, definitions, secondary, actions);
            var t := Reached(p, log, definitions, secondary, actions + more);
            && t.(indexes := s.indexes) == s.(syncedHead := s.phase.head, phase := Free)
            && FtsRel in s.indexes && FtsRel in t.indexes
            && t.indexes[FtsRel].start == s.indexes[FtsRel].start
            && t.indexes[FtsRel].base == s.indexes[FtsRel].base
    decreases |Reached(p, log, definitions, secondary, actions).phase.left|
  {
    hide Reached, Inv, Advanced;
    var s := Reached(p, log, definitions, secondary, actions);
    ReachedNext(p, log, definitions, secondary, actions, Advance);
    more := [Advance];
    if s.phase.left == [] {
      AllSynced(p, s);
    } else {
      OneSynced(p, s);
      var rest := CatchUpRunsOut(p, log, definitions, secondary, actions + [Advance]);
      assert actions + ([Advance] + rest) == actions + [Advance] + rest;
      more := [Advance] + rest;
    }
  }

  lemma AllSynced(p: Projection, s: System)
    requires s.revisions != [] && forall kind :: kind in s.indexes && s.indexes[kind].cursor <= |s.log|
    requires s.phase.CatchUp? && s.phase.left == []
    ensures Advanced(p, s) == s.(syncedHead := s.phase.head, phase := Free)
  {
  }

  lemma OneSynced(p: Projection, s: System)
    requires s.revisions != [] && forall kind :: kind in s.indexes && s.indexes[kind].cursor <= |s.log|
    requires s.floor == 0 && s.phase.CatchUp? && s.phase.mid.None? && s.phase.left != []
    ensures var t := Advanced(p, s);
            && t.(indexes := s.indexes) == s.(phase := CatchUp(s.phase.head, s.phase.left[1..], None))
            && FtsRel in t.indexes
            && t.indexes[FtsRel].start == s.indexes[FtsRel].start
            && t.indexes[FtsRel].base == s.indexes[FtsRel].base
  {
    hide ApplyAll, EdgeChanges, NodeChanges;
  }

  /** From a free lock, with no definition or switch to follow, to the start of catching up. */
  lemma LockToCatchUp(p: Projection, log: Log, definitions: Definitions, secondary: bool, actions: seq<Action>)
    returns (more: seq<Action>)
    requires var s := Reached(p, log, definitions, secondary, actions);
             s.phase.Free? && s.pathsVersion == |s.bumps| && s.wanted == s.secondary && s.syncedHead != |s.log|
    ensures var s := Reached(p, log, definitions, secondary, actions);
            Reached(p, log, definitions, secondary, actions + more)
            == s.(phase := CatchUp(|s.log|, KeptKinds(s.secondary), None))
  {
    hide Reached, Inv, KeptKinds, Advanced;
    var s := Reached(p, log, definitions, secondary, actions);
    ReachedNext(p, log, definitions, secondary, actions, Lock);
    ReachedNext(p, log, definitions, secondary, actions + [Lock], Advance);
    ReachedNext(p, log, definitions, secondary, actions + [Lock] + [Advance], Advance);
    ReachedNext(p, log, definitions, secondary, actions + [Lock] + [Advance] + [Advance], Advance);
    NothingNew(p, s);
    more := [Lock] + [Advance] + [Advance] + [Advance];
    assert actions + more == actions + [Lock] + [Advance] + [Advance] + [Advance];
  }

  /** The steps before catching up, when the definitions and the switch are as they were. */
  lemma NothingNew(p: Projection, s: System)
    requires s.revisions != [] && forall kind :: kind in s.indexes && s.indexes[kind].cursor <= |s.log|
    requires s.pathsVersion == |s.bumps| && s.wanted == s.secondary && s.syncedHead != |s.log|
    ensures Advanced(p, s.(phase := Locked)) == s.(phase := Switch)
    ensures Advanced(p, s.(phase := Switch)) == s.(phase := Check)
    ensures Advanced(p, s.(phase := Check)) == s.(phase := CatchUp(|s.log|, KeptKinds(s.secondary), None))
  {
    hide KeptKinds;
  }

  /** The failing run: two nodes and a relationship are indexed, one node is deleted, the
      indexes catch up, and the index of relationships still holds the relationship. */
  lemma DeletedRelationshipStays(p: Projection, definitions: Definitions) returns (actions: seq<Action>)
    requires p.rel(3, Edge(1, 2, "text")).Some?
    ensures var log := [UpsertNode(1, "a"), UpsertNode(2, "b"), UpsertEdge(3, Edge(1, 2, "text"))];
            var s := Reached(p, log, definitions, true, actions);
            && s.log == log + [DeleteNode(1)] && s.phase.Free? && s.Fresh() && s.secondary
            && FtsRel in s.indexes
            && s.indexes[FtsRel].entries != Build(p.rel, GraphOf(s.log).edges)
  {
    var log := [UpsertNode(1, "a"), UpsertNode(2, "b"), UpsertEdge(3, Edge(1, 2, "text"))];
    var initial := Reached(p, log, definitions, true, []);
    AllListed(true);
    assert initial.indexes[FtsRel].start == 0 && initial.indexes[FtsRel].base == 0;
    hide Reached, Inv, KeptKinds;
    var first := CatchUpRunsOut(p, log, definitions, true, []);
    assert [] + first == first;
    ReachedNext(p, log, definitions, true, first, Commit([DeleteNode(1)]));
    var second := LockToCatchUp(p, log, definitions, true, first + [Commit([DeleteNode(1)])]);
    var third := CatchUpRunsOut(p, log, definitions, true, first + [Commit([DeleteNode(1)])] + second);
    actions := first + [Commit([DeleteNode(1)])] + second + third;
    RelationshipsServed(p, log, definitions, true, actions);
    LostWithNode(p.rel, log);
  }

  lemma LostWithNode(project: (nat, Edge) -> Option<Entry>, log: Log)
    requires log == [UpsertNode(1, "a"), UpsertNode(2, "b"), UpsertEdge(3, Edge(1, 2, "text"))]
    requires project(3, Edge(1, 2, "text")).Some?
    ensures LeftBehind(project, log + [DeleteNode(1)], 0, 0, 3)
  {
    var all := log + [DeleteNode(1)];
    assert all[..3] == log && all[4..] == [];
    assert log == [] + [log[0]] + [log[1]] + [log[2]];
    GraphSnoc([], log[0]);
    GraphSnoc([] + [log[0]], log[1]);
    GraphSnoc([] + [log[0]] + [log[1]], log[2]);
    assert GraphOf([]) == Graph(map[], map[]);
    hide GraphOf;
    assert GraphOf(log).nodes == map[1 := "a", 2 := "b"];
    assert GraphOf(log).edges == map[3 := Edge(1, 2, "text")];
    assert LostAt(project, all, 0, 0, 3, 3);
  }

  /** A trim that read the synced head now and keeps no more than is consumed drops all of it. */
  lemma TrimDrops(p: Projection, s: System, keepFrom: nat)
    requires Inv(p, s) && s.phase.Free?
    ensures s.revisions != [] && forall kind :: kind in s.indexes && s.indexes[kind].cursor <= |s.log|
    ensures var read := Next(p, s, ReadSynced);
            var t := Next(p, read, Trim(s.syncedHead, keepFrom));
            && t.floor == Max(s.floor, Min(s.syncedHead, keepFrom)) && t == s.(floor := t.floor, trims := t.trims)
  {
    InvGives(p, s);
    hide IndexesOk, Consumed, RevsCover, Accounted;
  }

  /** The synced head, the floor and the version only move forward. */
  lemma OnlyForward(p: Projection, s: System, a: Action)
    requires Inv(p, s)
    ensures s.revisions != [] && forall kind :: kind in s.indexes && s.indexes[kind].cursor <= |s.log|
    ensures Forward(s, Next(p, s, a))
  {
    InvGives(p, s);
    hide IndexesOk, Consumed, RevsCover, Follow, Accounted, Covers;
    if a.Advance? {
      AdvanceForward(p, s);
    } else {
      OthersForward(p, s, a);
    }
  }

  predicate Forward(s: System, t: System) {
    s.syncedHead <= t.syncedHead && s.floor <= t.floor && s.pathsVersion <= t.pathsVersion
  }

  lemma OthersForward(p: Projection, s: System, a: Action)
    requires s.revisions != [] && forall kind :: kind in s.indexes && s.indexes[kind].cursor <= |s.log|
    requires !a.Advance?
    ensures Forward(s, Next(p, s, a))
  {
  }

  lemma AdvanceForward(p: Projection, s: System)
    requires s.revisions != [] && forall kind :: kind in s.indexes && s.indexes[kind].cursor <= |s.log|
    requires PhaseOk(s)
    ensures Forward(s, Advanced(p, s))
  {
    hide Consumed, Follow, Covers, Sync, Emptied, Rebuilt;
  }
}
