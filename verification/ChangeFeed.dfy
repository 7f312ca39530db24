/** The change feed of the graph engine (`drevo-core/src/native.rs`): committed changes in
    commit order, numbered from 1, of which a prefix may have been trimmed. */
module ChangeFeed {
  import opened Prelude

  /** What `Feed.ChangesSince` returns: the changes, and the cursor to resume from. */
  datatype Batch<T> = Batch(cursor: nat, ops: seq<T>, lagged: bool)

  class Feed<T> {
    /** The number of the change before the oldest one kept. */
    var startSeq: nat
    var ops: seq<T>
    /** Every change ever committed. */
    ghost var log: seq<T>

    ghost predicate Valid()
      reads this
    {
      startSeq <= |log| && ops == log[startSeq..]
    }

    constructor ()
      ensures Valid() && log == [] && startSeq == 0
    {
      startSeq, ops, log := 0, [], [];
    }

    method Record(committed: seq<T>)
      requires Valid()
      modifies this`ops, this`log
      ensures Valid() && log == old(log) + committed
    {
      ops := ops + committed;
      log := log + committed;
    }

    method ChangeHead() returns (head: nat)
      requires Valid()
      ensures head == |log|
    {
      head := startSeq + |ops|;
    }

    /** The changes after `cursor`; lagged exactly when one of them was trimmed. */
    method ChangesSince(cursor: nat) returns (b: Batch<T>)
      requires Valid()
      ensures b.cursor == |log|
      ensures b.lagged <==> cursor < startSeq
      ensures !b.lagged ==> b.ops == if cursor <= |log| then log[cursor..] else []
    {
      var head := startSeq + |ops|;
      if cursor < startSeq {
        return Batch(head, ops, true);
      }
      var from := Min(cursor - startSeq, |ops|);
      b := Batch(head, ops[from..], false);
    }

    /** Forget the changes at or before `cursor`, never one not yet committed. */
    method TrimBefore(cursor: nat) returns (floor: nat)
      requires Valid()
      modifies this`startSeq, this`ops
      ensures Valid()
      ensures floor == startSeq == Max(old(startSeq), Min(cursor, |log|))
    {
      var target := Min(cursor, startSeq + |ops|);
      if target > startSeq {
        ops := ops[target - startSeq..];
        startSeq := target;
      }
      floor := startSeq;
    }
  }
}
