/** The cache of node projections (`src/native_value_cache.rs`). An entry holds the stored
    record it was made from; while it does, that allocation is neither reused nor changed, so
    a record at the same address is the same record. Other threads commit at any point of a
    `sync`: they are the parameter `others`. */
module ValueCache {
  import opened Prelude
  import opened Replay

  type Id = nat
  type Addr = nat
  type Data = string
  type Value = string

  /** A stored record, and the projection the executor works with. */
  datatype Node = Node(id: Id, data: Data)

  type Projection = Node -> Value

  type Log = seq<Change<Id, Data>>

  /** The graph: its change feed, the allocations, and the record stored under each id. */
  datatype Store = Store(log: Log, floor: nat, heap: map<Addr, Node>, live: map<Id, Addr>)
  {
    /** The stored records are what the log says. */
    ghost predicate Valid() {
      && floor <= |log|
      && (forall id :: id in live ==> live[id] in heap && heap[live[id]].id == id)
      && (forall id :: AsLogged(id))
    }

    ghost predicate AsLogged(id: Id) {
      if id in live then live[id] in heap && LastOn(log, id) == Some(Some(heap[live[id]].data))
      else LastOn(log, id).None? || LastOn(log, id) == Some(None)
    }
  }

  datatype Entry = Entry(source: Addr, value: Value)

  type Entries = map<Id, Entry>

  function Pins(entries: Entries): set<Addr> {
    set id | id in entries :: entries[id].source
  }

  /** What other threads may do: commit changes, which replaces the records they touch and no
      others, and trim the feed; allocations in `pins` stay as they are. */
  ghost predicate Later(s: Store, t: Store, pins: set<Addr>) {
    && t.Valid() && |s.log| <= |t.log| && t.log[..|s.log|] == s.log
    && (forall a :: a in pins && a in s.heap ==> a in t.heap && t.heap[a] == s.heap[a])
    && (forall id :: LastOn(t.log[|s.log|..], id).None? ==> SameRecord(s, t, id))
  }

  ghost predicate SameRecord(s: Store, t: Store, id: Id) {
    Get(s.live, id) == Get(t.live, id)
  }

  type Others = (nat, Store, set<Addr>) -> Store

  ghost predicate Interferes(others: Others) {
    forall k, s: Store, pins :: s.Valid() ==> Later(s, others(k, s, pins), pins)
  }

  /** Every entry is the projection of the record it pins, which is one of its id. */
  ghost predicate Exact(project: Projection, entries: Entries, heap: map<Addr, Node>) {
    forall id :: id in entries ==>
      && entries[id].source in heap && heap[entries[id].source].id == id
      && entries[id].value == project(heap[entries[id].source])
  }

  /** The entry of `id` pins the record stored now; there is none if none is stored. */
  ghost predicate Current(entries: Entries, s: Store, id: Id) {
    Get(s.live, id) == if id in entries then Some(entries[id].source) else None
  }

  /** Only ids in changes not consumed yet may be out of date. */
  ghost predicate CurrentBut(entries: Entries, s: Store, unseen: Log) {
    forall id :: LastOn(unseen, id).None? ==> Current(entries, s, id)
  }

  /** A full rebuild over the stored nodes. */
  function Rebuilt(project: Projection, s: Store): Entries
    requires forall id :: id in s.live ==> s.live[id] in s.heap
  {
    map id | id in s.live :: Entry(s.live[id], project(s.heap[s.live[id]]))
  }

  // ----- lemmas ------------------------------------------------------------------------------

  lemma {:induction false} LastOnAppend(a: Log, b: Log, id: Id)
    ensures LastOn(a + b, id) == if LastOn(b, id).Some? then LastOn(b, id) else LastOn(a, id)
    decreases |b|
  {
    if b == [] {
      assert a + b == a;
    } else {
      assert (a + b)[..|a + b| - 1] == a + b[..|b| - 1];
      LastOnAppend(a, b[..|b| - 1], id);
    }
  }

  lemma ExactStays(project: Projection, entries: Entries, s: Store, t: Store)
    requires Exact(project, entries, s.heap) && Later(s, t, Pins(entries))
    ensures Exact(project, entries, t.heap)
  {
    forall id | id in entries
      ensures entries[id].source in t.heap && t.heap[entries[id].source] == s.heap[entries[id].source]
    {
      assert entries[id].source in Pins(entries);
    }
  }

  /** The changes committed meanwhile are among those not consumed. */
  lemma CurrentStays(entries: Entries, s: Store, t: Store, pins: set<Addr>, from: nat, extra: Log)
    requires Later(s, t, pins) && from <= |s.log|
    requires CurrentBut(entries, s, extra + s.log[from..])
    ensures CurrentBut(entries, t, extra + t.log[from..])
  {
    forall id | LastOn(extra + t.log[from..], id).None?
      ensures Current(entries, t, id)
    {
      var more := t.log[|s.log|..];
      assert extra + t.log[from..] == (extra + s.log[from..]) + more;
      LastOnAppend(extra + s.log[from..], more, id);
      assert SameRecord(s, t, id);
    }
  }

  /** With nothing unseen, the entries are those of a full rebuild. */
  lemma CurrentIsRebuilt(project: Projection, entries: Entries, s: Store)
    requires s.Valid() && Exact(project, entries, s.heap) && CurrentBut(entries, s, [])
    ensures entries == Rebuilt(project, s)
  {
    forall id: Id
      ensures Get(entries, id) == Get(Rebuilt(project, s), id)
    {
      var nothing: Log := [];
      assert LastOn(nothing, id).None?;
      assert Current(entries, s, id);
    }
    SameMap(entries, Rebuilt(project, s));
  }

  lemma IndexedCurrent(entries: Entries, s: Store, id: Id, later: Entries, unseen: Log, rest: Log)
    requires CurrentBut(entries, s, unseen) && Current(later, s, id)
    requires forall k :: k != id ==> Get(later, k) == Get(entries, k)
    requires forall k :: k != id && LastOn(rest, k).None? ==> LastOn(unseen, k).None?
    ensures CurrentBut(later, s, rest)
  {
    forall k | LastOn(rest, k).None?
      ensures Current(later, s, k)
    {
      if k != id {
        assert Get(later, k) == Get(entries, k);
        assert Current(entries, s, k);
      }
    }
  }

  /** Consuming the first change of `unseen` leaves only its id's later changes to see. */
  lemma FirstSeen(ops: Log, i: nat, more: Log, id: Id)
    requires i < |ops| && (ops[i].Unrelated? || ops[i].key != id) && LastOn(ops[i + 1..] + more, id).None?
    ensures LastOn(ops[i..] + more, id).None?
  {
    assert ops[i..] + more == [ops[i]] + (ops[i + 1..] + more);
    LastOnAppend([ops[i]], ops[i + 1..] + more, id);
  }

  /** A record whose latest change is its deletion is not stored. */
  lemma DeletedIsGone(s: Store, i: nat, id: Id)
    requires s.Valid() && i < |s.log| && s.log[i] == Delete(id) && LastOn(s.log[i + 1..], id).None?
    ensures id !in s.live
  {
    assert s.log == s.log[..i + 1] + s.log[i + 1..];
    LastOnAppend(s.log[..i + 1], s.log[i + 1..], id);
    assert s.log[..i + 1][i] == Delete(id);
    assert s.AsLogged(id);
  }

  // ----- the cache ----------------------------------------------------------------------------

  class Cache {
    const project: Projection
    var entries: Entries
    var cursor: nat

    /** Every entry is exact for what it pins, and out of date only as far as changes since
        the cursor go. */
    ghost predicate Valid(s: Store)
      reads this
    {
      && s.Valid() && cursor <= |s.log|
      && Exact(project, entries, s.heap)
      && CurrentBut(entries, s, s.log[cursor..])
    }

    constructor (project: Projection, ghost s: Store)
      requires s.Valid()
      ensures this.project == project && Valid(s)
    {
      this.project := project;
      entries, cursor := map[], 0;
      new;
      assert s.log[0..] == s.log;
      forall id | LastOn(s.log, id).None?
        ensures Current(entries, s, id)
      {
        assert s.AsLogged(id);
      }
    }

    /** A hit is the projection of the live record, however stale the cache is: all it takes
        is that entries are exact for the records they pin. */
    method ValueFor(s: Store, live: Addr) returns (r: Option<Value>)
      requires live in s.heap && Exact(project, entries, s.heap)
      ensures r.Some? ==> r.value == project(s.heap[live])
      ensures r.Some? <==> s.heap[live].id in entries && entries[s.heap[live].id].source == live
    {
      var id := s.heap[live].id;
      if id !in entries {
        return None;
      }
      r := if entries[id].source == live then Some(entries[id].value) else None;
    }

    /** `index_id`: the record stored now, or no entry. */
    method IndexId(s: Store, id: Id)
      requires s.Valid() && Exact(project, entries, s.heap)
      modifies this`entries
      ensures Exact(project, entries, s.heap) && Current(entries, s, id)
      ensures forall k :: k != id ==> Get(entries, k) == Get(old(entries), k)
    {
      if id in s.live {
        entries := entries[id := Entry(s.live[id], project(s.heap[s.live[id]]))];
      } else {
        entries := entries - {id};
      }
    }

    /** `rebuild_from`: all stored nodes. */
    method RebuildFrom(s: Store)
      requires s.Valid()
      modifies this`entries
      ensures entries == Rebuilt(project, s)
      ensures Exact(project, entries, s.heap) && forall id :: Current(entries, s, id)
    {
      entries := map[];
      var left := s.live.Keys;
      while left != {}
        invariant left <= s.live.Keys
        invariant entries == map id | id in s.live.Keys - left :: Rebuilt(project, s)[id]
        decreases |left|
      {
        var id :| id in left;
        entries := entries[id := Entry(s.live[id], project(s.heap[s.live[id]]))];
        left := left - {id};
      }
    }
  
    /** `sync`, while others commit and trim: afterwards only what they changed meanwhile may
        be out of date, so on a quiet graph the entries are those of a full rebuild. */
    method Sync(s0: Store, others: Others) returns (s: Store)
      requires Valid(s0) && Interferes(others)
      modifies this
      ensures Valid(s) && cursor == |s0.log| <= |s.log| && s.log[..|s0.log|] == s0.log
      ensures s.log == s0.log ==> entries == Rebuilt(project, s)
    {
      ghost var head := |s0.log|;
      if cursor < s0.floor {
        var pins := Pins(entries);
        assert Later(s0, others(0, s0, pins), pins);
        s := others(0, s0, pins);
        RebuildFrom(s);
        cursor := |s0.log|;
        return;
      }
      var ops := s0.log[cursor..];
      s := s0;
      assert ops[0..] + s0.log[head..] == s0.log[cursor..];
      var i := 0;
      while i < |ops|
        invariant 0 <= i <= |ops| && cursor == old(cursor)
        invariant s.Valid() && head <= |s.log| && s.log[..head] == s0.log
        invariant Exact(project, entries, s.heap)
        invariant CurrentBut(entries, s, ops[i..] + s.log[head..])
      {
        s := Interleave(s0, s, others, i, ops[i..]);
        Consume(s, ops, i, head);
        i := i + 1;
      }
      cursor := |s0.log|;
      assert ops[i..] + s.log[head..] == s.log[cursor..];
      if s.log == s0.log {
        assert s.log[cursor..] == [];
        CurrentIsRebuilt(project, entries, s);
      }
    }

    /** The others take their turn. */
    method Interleave(ghost s0: Store, s: Store, others: Others, k: nat, ghost left: Log) returns (t: Store)
      requires Interferes(others) && s.Valid() && |s0.log| <= |s.log| && s.log[..|s0.log|] == s0.log
      requires Exact(project, entries, s.heap) && CurrentBut(entries, s, left + s.log[|s0.log|..])
      ensures t.Valid() && |s0.log| <= |t.log| && t.log[..|s0.log|] == s0.log
      ensures Exact(project, entries, t.heap) && CurrentBut(entries, t, left + t.log[|s0.log|..])
    {
      var pins := Pins(entries);
      t := others(k, s, pins);
      assert Later(s, t, pins);
      ExactStays(project, entries, s, t);
      CurrentStays(entries, s, t, pins, |s0.log|, left);
    }

    /** One change of the batch. */
    method Consume(s: Store, ops: Log, i: nat, ghost head: nat)
      requires s.Valid() && |ops| <= head <= |s.log| && i < |ops| && ops == s.log[head - |ops|..head]
      requires Exact(project, entries, s.heap) && CurrentBut(entries, s, ops[i..] + s.log[head..])
      modifies this`entries
      ensures Exact(project, entries, s.heap) && CurrentBut(entries, s, ops[i + 1..] + s.log[head..])
    {
      ghost var unseen, rest := ops[i..] + s.log[head..], ops[i + 1..] + s.log[head..];
      ghost var at := head - |ops| + i;
      BatchAt(s.log, ops, head, i);
      forall k | (ops[i].Unrelated? || ops[i].key != k) && LastOn(rest, k).None?
        ensures LastOn(unseen, k).None?
      {
        FirstSeen(ops, i, s.log[head..], k);
      }
      match ops[i] {
        case Upsert(id, _) =>
          IndexId(s, id);
          IndexedCurrent(old(entries), s, id, entries, unseen, rest);
        case Delete(id) =>
          entries := entries - {id};
          if LastOn(rest, id).None? {
            DeletedIsGone(s, at, id);
            IndexedCurrent(old(entries), s, id, entries, unseen, rest);
          } else {
            RemovedCurrent(old(entries), s, id, entries, unseen, rest);
          }
        case Unrelated =>
      }
    }
  }

  /** Where in the log a change of the batch is, and what follows it. */
  lemma BatchAt(log: Log, ops: Log, head: nat, i: nat)
    requires |ops| <= head <= |log| && i < |ops| && ops == log[head - |ops|..head]
    ensures log[head - |ops| + i] == ops[i]
    ensures ops[i + 1..] + log[head..] == log[head - |ops| + i + 1..]
  {
    var from := head - |ops|;
    assert ops[i + 1..] == log[from + i + 1..head];
    assert log[from + i + 1..head] + log[head..] == log[from + i + 1..];
  }

  lemma RemovedCurrent(entries: Entries, s: Store, id: Id, later: Entries, unseen: Log, rest: Log)
    requires CurrentBut(entries, s, unseen) && LastOn(rest, id).Some?
    requires forall k :: k != id ==> Get(later, k) == Get(entries, k)
    requires forall k :: k != id && LastOn(rest, k).None? ==> LastOn(unseen, k).None?
    ensures CurrentBut(later, s, rest)
  {
    forall k | LastOn(rest, k).None?
      ensures Current(later, s, k)
    {
      assert Get(later, k) == Get(entries, k);
      assert Current(entries, s, k);
    }
  }

  /** Between syncs too: through whatever others do, entries stay exact and out of date only
      as far as changes since the cursor go. */
  lemma StaysValid(project: Projection, entries: Entries, cursor: nat, s: Store, t: Store)
    requires Later(s, t, Pins(entries)) && cursor <= |s.log|
    requires Exact(project, entries, s.heap) && CurrentBut(entries, s, s.log[cursor..])
    ensures Exact(project, entries, t.heap) && CurrentBut(entries, t, t.log[cursor..])
  {
    ExactStays(project, entries, s, t);
    assert [] + s.log[cursor..] == s.log[cursor..] && [] + t.log[cursor..] == t.log[cursor..];
    CurrentStays(entries, s, t, Pins(entries), cursor, []);
  }
}
