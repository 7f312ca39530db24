/** Indexes over the change feed: replaying changes on what was built from a snapshot.

    The store is the fold of its log; an index keeps, per stored record, what it projects of
    it. A snapshot may hold changes the feed delivers again: replaying them is harmless. */
module Replay {
  import opened Prelude

  datatype Change<K, R> = Upsert(key: K, record: R) | Delete(key: K) | Unrelated

  /** The stored records after `log`. */
  function Stored<K, R>(log: seq<Change<K, R>>): map<K, R> {
    if log == [] then map[]
    else
      var before := Stored(log[..|log| - 1]);
      match log[|log| - 1]
      case Upsert(k, r) => before[k := r]
      case Delete(k) => before - {k}
      case Unrelated => before
  }

  /** What an index built from scratch over `stored` holds. */
  function Build<K, R, E>(project: (K, R) -> Option<E>, stored: map<K, R>): map<K, E> {
    map k | k in stored && project(k, stored[k]).Some? :: project(k, stored[k]).value
  }

  /** One change applied to an index. */
  function Apply<K, R, E>(project: (K, R) -> Option<E>, entries: map<K, E>, op: Change<K, R>): map<K, E> {
    match op
    case Upsert(k, r) =>
      if project(k, r).Some? then entries[k := project(k, r).value] else entries - {k}
    case Delete(k) => entries - {k}
    case Unrelated => entries
  }

  function ApplyAll<K, R, E>(project: (K, R) -> Option<E>, entries: map<K, E>,
                             ops: seq<Change<K, R>>): map<K, E> {
    if ops == [] then entries
    else Apply(project, ApplyAll(project, entries, ops[..|ops| - 1]), ops[|ops| - 1])
  }

  function Get<K, V>(m: map<K, V>, k: K): Option<V> {
    if k in m then Some(m[k]) else None
  }

  /** What `ops` last did to the record under `k`: nothing, or left this record or none. */
  ghost function LastOn<K, R>(ops: seq<Change<K, R>>, k: K): Option<Option<R>> {
    if ops == [] then None
    else match ops[|ops| - 1]
      case Upsert(k', r) => if k' == k then Some(Some(r)) else LastOn(ops[..|ops| - 1], k)
      case Delete(k') => if k' == k then Some(None) else LastOn(ops[..|ops| - 1], k)
      case Unrelated => LastOn(ops[..|ops| - 1], k)
  }

  function Projected<K, R, E>(project: (K, R) -> Option<E>, k: K, r: Option<R>): Option<E> {
    if r.Some? then project(k, r.value) else None
  }

  lemma {:induction false} StoredAt<K, R>(before: seq<Change<K, R>>, ops: seq<Change<K, R>>, k: K)
    ensures Get(Stored(before + ops), k)
         == if LastOn(ops, k).Some? then LastOn(ops, k).value else Get(Stored(before), k)
    decreases |ops|
  {
    if ops == [] {
      assert before + ops == before;
    } else {
      var front := ops[..|ops| - 1];
      assert (before + ops)[..|before + ops| - 1] == before + front;
      StoredAt(before, front, k);
    }
  }

  lemma {:induction false} ApplyAllAt<K, R, E>(project: (K, R) -> Option<E>, entries: map<K, E>,
                                               ops: seq<Change<K, R>>, k: K)
    ensures Get(ApplyAll(project, entries, ops), k)
         == if LastOn(ops, k).Some? then Projected(project, k, LastOn(ops, k).value) else Get(entries, k)
    decreases |ops|
  {
    if ops != [] {
      ApplyAllAt(project, entries, ops[..|ops| - 1], k);
    }
  }

  lemma {:induction false} ApplyAllAppend<K, R, E>(project: (K, R) -> Option<E>, entries: map<K, E>,
                                                   a: seq<Change<K, R>>, b: seq<Change<K, R>>)
    ensures ApplyAll(project, entries, a + b) == ApplyAll(project, ApplyAll(project, entries, a), b)
    decreases |b|
  {
    if b == [] {
      assert a + b == a;
    } else {
      assert (a + b)[..|a + b| - 1] == a + b[..|b| - 1];
      ApplyAllAppend(project, entries, a, b[..|b| - 1]);
    }
  }

  lemma BuildAt<K, R, E>(project: (K, R) -> Option<E>, stored: map<K, R>, k: K)
    ensures Get(Build(project, stored), k) == Projected(project, k, Get(stored, k))
  {
  }

  lemma {:induction false} LastOnSuffix<K, R>(ops: seq<Change<K, R>>, i: nat, k: K)
    requires i <= |ops| && LastOn(ops, k).None?
    ensures LastOn(ops[i..], k).None?
    decreases |ops|
  {
    if i < |ops| {
      LastOnSuffix(ops[..|ops| - 1], i, k);
      assert ops[i..][..|ops| - i - 1] == ops[..|ops| - 1][i..];
    }
  }

  lemma SameMap<K, V>(a: map<K, V>, b: map<K, V>)
    requires forall k :: Get(a, k) == Get(b, k)
    ensures a == b
  {
    forall k
      ensures k in a <==> k in b
      ensures k in a ==> a[k] == b[k]
    {
      assert Get(a, k) == Get(b, k);
    }
  }

  /** Replaying the feed from `cursor` on a snapshot taken at or after it gives the index of
      the whole log, however many of the changes the snapshot already held. */
  lemma ReplayRebuilds<K, R, E>(project: (K, R) -> Option<E>, log: seq<Change<K, R>>,
                                cursor: nat, taken: nat)
    requires cursor <= taken <= |log|
    ensures ApplyAll(project, Build(project, Stored(log[..taken])), log[cursor..])
         == Build(project, Stored(log))
  {
    var snapshot := Build(project, Stored(log[..taken]));
    var ops := log[cursor..];
    forall k
      ensures Get(ApplyAll(project, snapshot, ops), k) == Get(Build(project, Stored(log)), k)
    {
      ApplyAllAt(project, snapshot, ops, k);
      BuildAt(project, Stored(log[..taken]), k);
      BuildAt(project, Stored(log), k);
      assert log == log[..cursor] + ops;
      StoredAt(log[..cursor], ops, k);
      if LastOn(ops, k).None? {
        LastOnSuffix(ops, taken - cursor, k);
        assert ops[taken - cursor..] == log[taken..];
        assert log == log[..taken] + log[taken..];
        StoredAt(log[..taken], log[taken..], k);
      }
    }
    SameMap(ApplyAll(project, snapshot, ops), Build(project, Stored(log)));
  }
}
