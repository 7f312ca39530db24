/** The graph as the fold of its change log (`drevo-core/src/native.rs`), and what of the log
    an index follows.

    Deleting a node deletes its relationships with it, and the log says so by the node's
    deletion alone. Indexes of nodes follow every change of a node; the full-text index of
    relationships follows the changes of relationships and ignores those of nodes
    (`drevo-core/src/native_fts.rs`). */
module GraphLog {
  import opened Prelude
  import opened Replay

  type Record = string

  datatype Edge = Edge(from: nat, to: nat, record: Record)

  datatype Op =
    | UpsertNode(id: nat, node: Record)
    | DeleteNode(id: nat)
    | UpsertEdge(id: nat, edge: Edge)
    | DeleteEdge(id: nat)
    | OtherOp

  type Log = seq<Op>

  datatype Graph = Graph(nodes: map<nat, Record>, edges: map<nat, Edge>)

  predicate Joins(e: Edge, node: nat) {
    e.from == node || e.to == node
  }

  /** The relationships that do not end at `node`. */
  function Detached(edges: map<nat, Edge>, node: nat): map<nat, Edge> {
    map id | id in edges && !Joins(edges[id], node) :: edges[id]
  }

  /** `apply_wal_op`. */
  function After(g: Graph, op: Op): Graph {
    match op
    case UpsertNode(id, node) => g.(nodes := g.nodes[id := node])
    case DeleteNode(id) =>
      if id in g.nodes then Graph(g.nodes - {id}, Detached(g.edges, id)) else g
    case UpsertEdge(id, edge) => g.(edges := g.edges[id := edge])
    case DeleteEdge(id) => g.(edges := g.edges - {id})
    case OtherOp => g
  }

  function GraphOf(log: Log): Graph {
    if log == [] then Graph(map[], map[]) else After(GraphOf(log[..|log| - 1]), log[|log| - 1])
  }

  // ----- what an index follows ----------------------------------------------------------------

  function NodeChange(op: Op): Change<nat, Record> {
    match op
    case UpsertNode(id, node) => Upsert(id, node)
    case DeleteNode(id) => Delete(id)
    case _ => Unrelated
  }

  function EdgeChange(op: Op): Change<nat, Edge> {
    match op
    case UpsertEdge(id, edge) => Upsert(id, edge)
    case DeleteEdge(id) => Delete(id)
    case _ => Unrelated
  }

  function NodeChanges(log: Log): (r: seq<Change<nat, Record>>)
    ensures |r| == |log|
  {
    seq(|log|, i requires 0 <= i < |log| => NodeChange(log[i]))
  }

  function EdgeChanges(log: Log): (r: seq<Change<nat, Edge>>)
    ensures |r| == |log|
  {
    seq(|log|, i requires 0 <= i < |log| => EdgeChange(log[i]))
  }

  /** For nodes the log of changes says it all. */
  lemma {:induction false} NodesAreStored(log: Log)
    ensures GraphOf(log).nodes == Stored(NodeChanges(log))
  {
    if log != [] {
      NodesAreStored(log[..|log| - 1]);
      assert NodeChanges(log)[..|log| - 1] == NodeChanges(log[..|log| - 1]);
    }
  }

  /** Replaying the feed on a snapshot taken at or after the cursor gives, for an index of
      nodes, what a build from scratch does. */
  lemma NodeReplayRebuilds<E>(project: (nat, Record) -> Option<E>, log: Log, cursor: nat, taken: nat)
    requires cursor <= taken <= |log|
    ensures ApplyAll(project, Build(project, GraphOf(log[..taken]).nodes), NodeChanges(log[cursor..]))
         == Build(project, GraphOf(log).nodes)
  {
    hide GraphOf, Stored, ApplyAll, Build, Get;
    NodesAreStored(log);
    NodesAreStored(log[..taken]);
    assert NodeChanges(log)[..taken] == NodeChanges(log[..taken]);
    assert NodeChanges(log)[cursor..] == NodeChanges(log[cursor..]);
    ReplayRebuilds(project, NodeChanges(log), cursor, taken);
  }

  // ----- relationships -------------------------------------------------------------------------

  /** What `ops` last did, by its id, to the relationship `id`. */
  ghost function LastEdge(ops: Log, id: nat): Option<Option<Edge>> {
    LastOn(EdgeChanges(ops), id)
  }

  lemma {:induction false} EdgeAppend(a: Log, b: Log, id: nat)
    ensures LastEdge(a + b, id) == if LastEdge(b, id).Some? then LastEdge(b, id) else LastEdge(a, id)
    decreases |b|
  {
    if b == [] {
      assert a + b == a;
    } else {
      var front := b[..|b| - 1];
      assert EdgeChanges(a + b)[..|a + b| - 1] == EdgeChanges(a + front);
      assert EdgeChanges(b)[..|b| - 1] == EdgeChanges(front);
      EdgeAppend(a, front, id);
    }
  }

  /** One more change. */
  lemma EdgeSnoc(ops: Log, op: Op, id: nat)
    ensures LastEdge(ops + [op], id)
         == match op
            case UpsertEdge(k, edge) => if k == id then Some(Some(edge)) else LastEdge(ops, id)
            case DeleteEdge(k) => if k == id then Some(None) else LastEdge(ops, id)
            case _ => LastEdge(ops, id)
  {
    assert EdgeChanges(ops + [op])[..|ops|] == EdgeChanges(ops);
  }

  /** A stored relationship is as it was last written, by its id. */
  lemma {:induction false} StoredEdge(log: Log, id: nat)
    ensures id in GraphOf(log).edges ==> LastEdge(log, id) == Some(Some(GraphOf(log).edges[id]))
    ensures LastEdge(log, id).None? ==> id !in GraphOf(log).edges
  {
    if log != [] {
      StoredEdge(log[..|log| - 1], id);
      assert EdgeChanges(log)[..|log| - 1] == EdgeChanges(log[..|log| - 1]);
    }
  }

  /** The deletion of a node at position `at` removes the relationship `id`. */
  ghost predicate Cascades(log: Log, at: nat, id: nat) {
    at < |log| && Removes(GraphOf(log[..at]), log[at], id)
  }

  /** `op` removes the relationship `id` with one of its nodes. */
  predicate Removes(g: Graph, op: Op, id: nat) {
    op.DeleteNode? && op.id in g.nodes && id in g.edges && Joins(g.edges[id], op.id)
  }

  ghost predicate CascadedSince(log: Log, m: nat, id: nat) {
    exists j: nat :: m <= j < |log| && Cascades(log, j, id)
  }

  lemma GraphSnoc(log: Log, op: Op)
    ensures GraphOf(log + [op]) == After(GraphOf(log), op)
  {
    assert (log + [op])[..|log|] == log;
  }

  lemma CascadesSnoc(log: Log, op: Op, m: nat, id: nat)
    requires m <= |log|
    ensures CascadedSince(log + [op], m, id) <==> CascadedSince(log, m, id) || Removes(GraphOf(log), op, id)
  {
    var all := log + [op];
    hide GraphOf;
    assert all[..|log|] == log;
    forall j: nat | j < |log|
      ensures Cascades(log, j, id) <==> Cascades(all, j, id)
    {
      assert all[..j] == log[..j];
    }
    assert Cascades(all, |log|, id) <==> Removes(GraphOf(log), op, id);
    if CascadedSince(log, m, id) {
      var j: nat :| m <= j < |log| && Cascades(log, j, id);
      assert Cascades(all, j, id);
    }
  }

  /** A relationship not changed by its id is lost to a cascade, or kept as it was. */
  lemma {:induction false} KeptOrCascaded(log: Log, m: nat, id: nat)
    requires m <= |log| && id in GraphOf(log[..m]).edges && LastEdge(log[m..], id).None?
    ensures Get(GraphOf(log).edges, id)
         == if CascadedSince(log, m, id) then None else Some(GraphOf(log[..m]).edges[id])
    decreases |log|
  {
    hide LastEdge, GraphOf;
    if m == |log| {
      assert log[..m] == log;
    } else {
      var front, op := log[..|log| - 1], log[|log| - 1];
      assert log[m..] == front[m..] + [op] && log == front + [op] && front[..m] == log[..m];
      EdgeSnoc(front[m..], op, id);
      KeptOrCascaded(front, m, id);
      GraphSnoc(front, op);
      CascadesSnoc(front, op, m, id);
      hide CascadedSince;
    }
  }

  /** Once not stored, a relationship stays so until it is written. */
  lemma {:induction false} StaysGone(log: Log, m: nat, id: nat)
    requires m <= |log| && id !in GraphOf(log[..m]).edges && LastEdge(log[m..], id).None?
    ensures id !in GraphOf(log).edges
    decreases |log|
  {
    hide LastEdge, GraphOf;
    if m == |log| {
      assert log[..m] == log;
    } else {
      var front, op := log[..|log| - 1], log[|log| - 1];
      assert log[m..] == front[m..] + [op] && log == front + [op] && front[..m] == log[..m];
      EdgeSnoc(front[m..], op, id);
      GraphSnoc(front, op);
      StaysGone(front, m, id);
    }
  }

  // ----- an index of relationships -------------------------------------------------------------

  /** The entries of an index of relationships rebuilt from a snapshot of the first `base`
      changes, the feed's head having been `start` before it, that has since consumed the
      changes up to `cursor`. */
  function RelEntries<E>(project: (nat, Edge) -> Option<E>, log: Log, start: nat, base: nat, cursor: nat): map<nat, E>
    requires start <= cursor <= |log| && start <= base <= |log|
  {
    ApplyAll(project, Build(project, GraphOf(log[..base]).edges), EdgeChanges(log[start..cursor]))
  }

  /** A relationship the index projects went with its node: after the snapshot of the last
      rebuild, or while that rebuild was under way and written meanwhile; and has not been
      written or deleted by its id since. */
  ghost predicate LeftBehind<E>(project: (nat, Edge) -> Option<E>, log: Log, start: nat, base: nat, id: nat)
    requires start <= base <= |log|
  {
    exists j: nat :: LostAt(project, log, start, base, id, j)
  }

  ghost predicate LostAt<E>(project: (nat, Edge) -> Option<E>, log: Log, start: nat, base: nat, id: nat, j: nat)
    requires start <= base <= |log|
  {
    && start <= j < |log| && Cascades(log, j, id) && LastEdge(log[j + 1..], id).None?
    && project(id, GraphOf(log[..j]).edges[id]).Some?
    && (j >= base || LastEdge(log[start..j], id).Some?)
  }

  lemma EdgeSplit(log: Log, i: nat, id: nat)
    requires i <= |log|
    ensures LastEdge(log, id)
         == if LastEdge(log[i..], id).Some? then LastEdge(log[i..], id) else LastEdge(log[..i], id)
  {
    assert log == log[..i] + log[i..];
    EdgeAppend(log[..i], log[i..], id);
  }

  lemma NoEdgeSince(log: Log, i: nat, j: nat, id: nat)
    requires i <= j <= |log| && LastEdge(log[i..], id).None?
    ensures LastEdge(log[j..], id).None? && LastEdge(log[i..j], id).None?
  {
    assert log[i..] == log[i..j] + log[j..];
    EdgeAppend(log[i..j], log[j..], id);
  }

  /** A relationship lost to a cascade and not changed by its id since is not stored, and was
      last written as it was lost. */
  lemma CascadedEdge(log: Log, j: nat, id: nat)
    requires Cascades(log, j, id) && LastEdge(log[j + 1..], id).None?
    ensures id !in GraphOf(log).edges
    ensures LastEdge(log, id) == Some(Some(GraphOf(log[..j]).edges[id]))
  {
    var g := GraphOf(log[..j]);
    assert log[..j + 1][..j] == log[..j];
    StaysGone(log, j + 1, id);
    EdgeSplit(log, j + 1, id);
    EdgeSplit(log[..j + 1], j, id);
    assert EdgeChanges(log[..j + 1][j..]) == [Unrelated];
    StoredEdge(log[..j], id);
  }

  /** Where a relationship was last written, by its id. */
  lemma {:induction false} LastWritten(ops: Log, id: nat) returns (i: nat)
    requires LastEdge(ops, id).Some? && LastEdge(ops, id).value.Some?
    ensures i < |ops| && ops[i] == UpsertEdge(id, LastEdge(ops, id).value.value)
    ensures LastEdge(ops[i + 1..], id).None?
    decreases |ops|
  {
    assert ops != [];
    var front, op := ops[..|ops| - 1], ops[|ops| - 1];
    assert ops == front + [op];
    EdgeSnoc(front, op, id);
    if op.UpsertEdge? && op.id == id {
      i := |ops| - 1;
      assert ops[i + 1..] == [];
    } else {
      i := LastWritten(front, id);
      assert ops[i + 1..] == front[i + 1..] + [op];
      EdgeSnoc(front[i + 1..], op, id);
    }
  }

  /** A relationship that was written by its id and has gone otherwise went in a cascade. */
  lemma WrittenAndGone(log: Log, start: nat, id: nat) returns (j: nat)
    requires start <= |log| && id !in GraphOf(log).edges
    requires LastEdge(log[start..], id).Some? && LastEdge(log[start..], id).value.Some?
    ensures start <= j < |log| && Cascades(log, j, id) && LastEdge(log[j + 1..], id).None?
    ensures LastEdge(log[start..j], id).Some?
  {
    hide LastEdge, GraphOf, Cascades, Get;
    var k := LastWritten(log[start..], id);
    var i := start + k;
    assert log[start..][k + 1..] == log[i + 1..];
    JustWritten(log, i, id);
    GoneByCascade(log, i + 1, id);
    j :| i + 1 <= j < |log| && Cascades(log, j, id);
    NoEdgeSince(log, i + 1, j + 1, id);
    WrittenBefore(log, start, i, j, id);
  }

  lemma GoneByCascade(log: Log, m: nat, id: nat)
    requires m <= |log| && id in GraphOf(log[..m]).edges && LastEdge(log[m..], id).None?
    requires id !in GraphOf(log).edges
    ensures exists j: nat :: m <= j < |log| && Cascades(log, j, id)
  {
    KeptOrCascaded(log, m, id);
  }

  lemma JustWritten(log: Log, i: nat, id: nat)
    requires i < |log| && log[i].UpsertEdge? && log[i].id == id
    ensures id in GraphOf(log[..i + 1]).edges
  {
    assert log[..i + 1][..i] == log[..i];
  }

  lemma {:induction false} WrittenBefore(log: Log, start: nat, i: nat, j: nat, id: nat)
    requires start <= i < j <= |log| && log[i].UpsertEdge? && log[i].id == id
    ensures LastEdge(log[start..j], id).Some?
    decreases j
  {
    assert log[start..j] == log[start..j - 1] + [log[j - 1]];
    EdgeSnoc(log[start..j - 1], log[j - 1], id);
    if i < j - 1 {
      WrittenBefore(log, start, i, j - 1, id);
    }
  }

  /** A relationship in the snapshot, not changed by its id since. */
  lemma SnapshotEdge<E>(project: (nat, Edge) -> Option<E>, log: Log, start: nat, base: nat, id: nat)
    requires start <= base <= |log| && LastEdge(log[start..], id).None?
    ensures id in GraphOf(log).edges ==> Get(GraphOf(log[..base]).edges, id) == Some(GraphOf(log).edges[id])
    ensures id !in GraphOf(log).edges ==>
              (Projected(project, id, Get(GraphOf(log[..base]).edges, id)).Some? <==>
               LeftBehind(project, log, start, base, id))
  {
    hide LastEdge, GraphOf, Cascades;
    var snapshot := GraphOf(log[..base]).edges;
    NoEdgeSince(log, start, base, id);
    if id !in snapshot {
      StaysGone(log, base, id);
      forall j: nat
        ensures !LostAt(project, log, start, base, id, j)
      {
        if LostAt(project, log, start, base, id, j) {
          NotInSnapshot(log, start, base, id, j);
        }
      }
    } else {
      KeptOrCascaded(log, base, id);
      StoredEdge(log[..base], id);
      EdgeSplit(log, base, id);
      if id !in GraphOf(log).edges {
        var j :| base <= j < |log| && Cascades(log, j, id);
        NoEdgeSince(log, base, j + 1, id);
        CascadedEdge(log, j, id);
        assert project(id, snapshot[id]).Some? ==> LostAt(project, log, start, base, id, j);
        forall k: nat | LostAt(project, log, start, base, id, k)
          ensures project(id, snapshot[id]).Some?
        {
          CascadedEdge(log, k, id);
        }
      }
    }
  }

  lemma NotInSnapshot(log: Log, start: nat, base: nat, id: nat, j: nat)
    requires start <= base <= |log| && start <= j < |log|
    requires LastEdge(log[start..], id).None? && id !in GraphOf(log[..base]).edges
    ensures !Cascades(log, j, id) || (j < base && LastEdge(log[start..j], id).None?)
  {
    NoEdgeSince(log, start, j, id);
    hide LastEdge, GraphOf;
    if j >= base {
      assert log[..j][..base] == log[..base] && log[..j][base..] == log[base..j];
      NoEdgeSince(log, start, base, id);
      NoEdgeSince(log, base, j, id);
      StaysGone(log[..j], base, id);
    }
  }

  /** A relationship written by its id since the rebuild began. */
  lemma WrittenEdge<E>(project: (nat, Edge) -> Option<E>, log: Log, start: nat, base: nat, id: nat)
    requires start <= base <= |log| && LastEdge(log[start..], id).Some?
    ensures id in GraphOf(log).edges ==> LastEdge(log[start..], id) == Some(Some(GraphOf(log).edges[id]))
    ensures id !in GraphOf(log).edges ==>
              (Projected(project, id, LastEdge(log[start..], id).value).Some? <==>
               LeftBehind(project, log, start, base, id))
  {
    hide LastEdge, GraphOf, Cascades;
    StoredEdge(log, id);
    EdgeSplit(log, start, id);
    if id !in GraphOf(log).edges {
      forall k: nat | LostAt(project, log, start, base, id, k)
        ensures Projected(project, id, LastEdge(log[start..], id).value).Some?
      {
        CascadedEdge(log, k, id);
      }
      if LastEdge(log[start..], id).value.Some? {
        var j := WrittenAndGone(log, start, id);
        CascadedEdge(log, j, id);
        if Projected(project, id, LastEdge(log[start..], id).value).Some? {
          assert LostAt(project, log, start, base, id, j);
        }
      }
    }
  }

  /** What a relationship index that consumed the whole log holds for `id`: the projection of
      the stored relationship; where none is stored, an entry exactly if it was left behind. */
  lemma RelEntryAt<E>(project: (nat, Edge) -> Option<E>, log: Log, start: nat, base: nat, id: nat)
    requires start <= base <= |log|
    ensures var entry := Get(RelEntries(project, log, start, base, |log|), id);
            && (id in GraphOf(log).edges ==> entry == project(id, GraphOf(log).edges[id]))
            && (id !in GraphOf(log).edges ==> (entry.Some? <==> LeftBehind(project, log, start, base, id)))
  {
    var snapshot := GraphOf(log[..base]).edges;
    assert log[start..|log|] == log[start..];
    ApplyAllAt(project, Build(project, snapshot), EdgeChanges(log[start..]), id);
    BuildAt(project, snapshot, id);
    if LastEdge(log[start..], id).None? {
      SnapshotEdge(project, log, start, base, id);
    } else {
      WrittenEdge(project, log, start, base, id);
    }
  }

  /** Restricted to stored relationships, the entries are those of a build from scratch; they
      are the build exactly if no relationship was left behind. */
  lemma RelEntriesExact<E>(project: (nat, Edge) -> Option<E>, log: Log, start: nat, base: nat)
    requires start <= base <= |log|
    ensures var entries, live := RelEntries(project, log, start, base, |log|), GraphOf(log).edges;
            && (map id | id in entries && id in live :: entries[id]) == Build(project, live)
            && (entries == Build(project, live) <==> forall id :: !LeftBehind(project, log, start, base, id))
  {
    var entries, live := RelEntries(project, log, start, base, |log|), GraphOf(log).edges;
    var kept := map id | id in entries && id in live :: entries[id];
    forall id
      ensures Get(kept, id) == Get(Build(project, live), id)
      ensures id !in live ==> Get(Build(project, live), id) == None
      ensures id !in live ==> (Get(entries, id).Some? <==> LeftBehind(project, log, start, base, id))
      ensures id in live ==> Get(entries, id) == Get(Build(project, live), id)
      ensures id in live ==> !LeftBehind(project, log, start, base, id)
    {
      RelEntryAt(project, log, start, base, id);
      BuildAt(project, live, id);
      if id in live {
        forall j: nat | LostAt(project, log, start, base, id, j)
          ensures false
        {
          CascadedEdge(log, j, id);
        }
      }
    }
    SameMap(kept, Build(project, live));
    if forall id :: !LeftBehind(project, log, start, base, id) {
      SameMap(entries, Build(project, live));
    } else {
      var id :| LeftBehind(project, log, start, base, id);
      assert Get(entries, id).Some? && Get(Build(project, live), id).None?;
    }
  }

  // ----- the graph stays closed ------------------------------------------------------------------------

  /** Relationships are written only between stored nodes. */
  ghost predicate EndsStored(log: Log) {
    log == []
    || (var front, op := log[..|log| - 1], log[|log| - 1];
        && EndsStored(front)
        && (op.UpsertEdge? ==> op.edge.from in GraphOf(front).nodes && op.edge.to in GraphOf(front).nodes))
  }

  /** Then no deletion leaves a relationship without a node at each end. */
  lemma {:induction false} NoDanglingEdges(log: Log, id: nat)
    requires EndsStored(log) && id in GraphOf(log).edges
    ensures GraphOf(log).edges[id].from in GraphOf(log).nodes && GraphOf(log).edges[id].to in GraphOf(log).nodes
    decreases |log|
  {
    if log != [] {
      var front := log[..|log| - 1];
      if id in GraphOf(front).edges {
        NoDanglingEdges(front, id);
      }
    }
  }

  /** And a deletion removes no other relationship. */
  lemma OthersStay(log: Log, node: nat, id: nat)
    requires id in GraphOf(log).edges
    requires GraphOf(log).edges[id].from != node && GraphOf(log).edges[id].to != node
    ensures Get(GraphOf(log + [DeleteNode(node)]).edges, id) == Some(GraphOf(log).edges[id])
  {
    GraphSnoc(log, DeleteNode(node));
  }
}
