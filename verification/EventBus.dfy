/** Named application events of one database (`src/event_bus.rs`).

    The bus keeps only the latest published events. Its specification is the unbounded
    `history` of everything ever published: the kept deque is a suffix of it, and every
    query is answered as the history would answer it, or reports that it no longer can. */
module EventBus {
  import opened Prelude

  /** An event posted by a statement, waiting for its commit. */
  datatype Pending = Pending(name: string, payload: string)

  /** A published event: its number (from 1), and the change-feed head at publication. */
  datatype Posted = Posted(num: nat, cursor: nat, name: string, payload: string)

  /** What `Bus.After` found. */
  datatype After = After(events: seq<Posted>, lagged: bool, head: nat)

  // ----- the unbounded history ----------------------------------------------

  /** `batch` published after `issued` earlier events, all stamped `at`. */
  function Stamped(batch: seq<Pending>, issued: nat, at: nat): seq<Posted> {
    seq(|batch|, i requires 0 <= i < |batch| =>
      Posted(issued + i + 1, at, batch[i].name, batch[i].payload))
  }

  ghost predicate Numbered(history: seq<Posted>) {
    forall i :: 0 <= i < |history| ==> history[i].num == i + 1
  }

  /** Stamps never decrease: `publish` reads the head under the bus lock, and the head
      only grows. */
  ghost predicate Ordered(history: seq<Posted>) {
    forall i, j :: 0 <= i < j < |history| ==> history[i].cursor <= history[j].cursor
  }

  /** How many events of `history` are stamped below `cursor`. */
  function CountBelow(history: seq<Posted>, cursor: nat): nat {
    if history == [] then 0
    else CountBelow(history[..|history| - 1], cursor)
         + (if history[|history| - 1].cursor < cursor then 1 else 0)
  }

  /** In an ordered history the events stamped below a cursor are a prefix. */
  lemma {:induction false} CountBelowSplits(history: seq<Posted>, cursor: nat, n: nat)
    requires n <= |history|
    requires forall i :: 0 <= i < n ==> history[i].cursor < cursor
    requires forall i :: n <= i < |history| ==> history[i].cursor >= cursor
    ensures CountBelow(history, cursor) == n
  {
    if history != [] {
      CountBelowSplits(history[..|history| - 1], cursor, Min(n, |history| - 1));
    }
  }

  /** Of `history`, where the first `dropped` events are gone, the event number a
      subscriber that saw every change before `cursor` continues from. */
  function SeqBefore(history: seq<Posted>, dropped: nat, cursor: nat): Option<nat>
    requires dropped <= |history|
  {
    if exists i :: 0 <= i < dropped && history[i].cursor >= cursor then None
    else Some(CountBelow(history, cursor))
  }

  /** The stamp of the latest of the first `dropped` events. */
  function LastDropped(history: seq<Posted>, dropped: nat): Option<nat>
    requires dropped <= |history|
  {
    if dropped == 0 then None else Some(history[dropped - 1].cursor)
  }

  lemma SeqBeforeNone(history: seq<Posted>, dropped: nat, cursor: nat)
    requires 0 < dropped <= |history| && history[dropped - 1].cursor >= cursor
    ensures SeqBefore(history, dropped, cursor) == None
  {
  }

  /** `kept` is the end of `history`. */
  ghost predicate IsTail(kept: seq<Posted>, history: seq<Posted>) {
    |kept| <= |history| && kept == history[|history| - |kept|..]
  }

  lemma IsTailAt(kept: seq<Posted>, history: seq<Posted>, i: nat)
    requires IsTail(kept, history) && i < |kept|
    ensures kept[i] == history[|history| - |kept| + i]
  {
  }

  lemma AppendKeepsSuffix(history: seq<Posted>, kept: seq<Posted>, more: seq<Posted>)
    requires IsTail(kept, history)
    ensures IsTail(kept + more, history + more)
    ensures forall i :: 0 <= i < |history| ==> (history + more)[i] == history[i]
  {
  }

  lemma EvictKeepsSuffix(history: seq<Posted>, kept: seq<Posted>)
    requires IsTail(kept, history) && kept != []
    ensures IsTail(kept[1..], history)
    ensures kept[0] == history[|history| - |kept|]
  {
  }

  /** The length of the longest prefix of `events` stamped below `cursor`. */
  method CountLeading(events: seq<Posted>, cursor: nat) returns (n: nat)
    ensures n <= |events|
    ensures forall i :: 0 <= i < n ==> events[i].cursor < cursor
    ensures n < |events| ==> events[n].cursor >= cursor
  {
    n := 0;
    while n < |events| && events[n].cursor < cursor
      invariant n <= |events|
      invariant forall i :: 0 <= i < n ==> events[i].cursor < cursor
    {
      n := n + 1;
    }
  }

  /** In an ordered history the cut is where the stamps reach `cursor`. */
  lemma BoundaryIsCount(history: seq<Posted>, cursor: nat, dropped: nat, n: nat)
    requires Ordered(history) && dropped <= n <= |history|
    requires n > 0 ==> history[n - 1].cursor < cursor
    requires n < |history| ==> history[n].cursor >= cursor
    ensures CountBelow(history, cursor) == n
    ensures SeqBefore(history, dropped, cursor) == Some(n)
  {
    CountBelowSplits(history, cursor, n);
  }

  /** The number of the kept event before index `n`, or of the last one dropped. */
  lemma KeptNumber(history: seq<Posted>, kept: seq<Posted>, n: nat)
    requires Numbered(history) && IsTail(kept, history) && n <= |kept|
    requires history != [] ==> kept != []
    ensures kept != [] ==> kept[0].num > 0
    ensures var oldest := if kept == [] then |history| else kept[0].num - 1;
            (if n == 0 then oldest else kept[n - 1].num) == |history| - |kept| + n
  {
  }

  /** The bounded bus. */
  class Bus {
    var head: nat
    var events: seq<Posted>
    /** The stamp of the latest event dropped to keep the bus bounded. */
    var droppedCursor: Option<nat>
    /** Everything ever published. */
    ghost var history: seq<Posted>

    ghost predicate Valid()
      reads this
    {
      && Numbered(history)
      && head == |history|
      && |events| <= |history|
      && IsTail(events, history)
      && (history != [] ==> events != [])
      && droppedCursor == LastDropped(history, |history| - |events|)
    }

    /** How many events are no longer kept. */
    ghost function Dropped(): nat
      requires Valid()
      reads this
    {
      |history| - |events|
    }

    constructor ()
      ensures Valid() && history == [] && Dropped() == 0
    {
      head, events, droppedCursor, history := 0, [], None, [];
    }

    /** Publish `batch` in order, stamped `at`, and keep the latest `keep` (at least one).
        An empty batch publishes nothing and drops nothing. */
    method Publish(batch: seq<Pending>, at: nat, keep: nat)
      requires Valid()
      modifies this
      ensures Valid()
      ensures history == old(history) + Stamped(batch, |old(history)|, at)
      ensures Dropped() == if batch == [] then old(Dropped())
                           else Max(old(Dropped()), |history| - Max(keep, 1))
    {
      if batch == [] {
        assert Stamped(batch, |history|, at) == [];
        return;
      }
      Append(batch, at);
      Evict(Max(keep, 1));
    }

    method Append(batch: seq<Pending>, at: nat)
      requires Valid() && batch != []
      modifies this
      ensures Valid() && Dropped() == old(Dropped())
      ensures history == old(history) + Stamped(batch, |old(history)|, at)
    {
      hide IsTail;
      ghost var issued := |history|;
      ghost var stamped := Stamped(batch, issued, at);
      var i := 0;
      while i < |batch|
        invariant 0 <= i <= |batch|
        invariant head == issued + i
        invariant history == old(history) + stamped[..i]
        invariant events == old(events) + stamped[..i]
        invariant droppedCursor == old(droppedCursor)
      {
        head := head + 1;
        var posted := Posted(head, at, batch[i].name, batch[i].payload);
        assert stamped[..i + 1] == stamped[..i] + [posted];
        events := events + [posted];
        history := history + [posted];
        i := i + 1;
      }
      assert stamped[..i] == stamped;
      AppendKeepsSuffix(old(history), old(events), stamped);
    }

    method Evict(bound: nat)
      requires Valid() && bound > 0
      modifies this`events, this`droppedCursor
      ensures Valid() && Dropped() == Max(old(Dropped()), |history| - bound)
    {
      hide IsTail, Numbered;
      ghost var h, before := history, |events|;
      while |events| > bound
        invariant |events| <= before <= |h| && (|events| == before || |events| >= bound)
        invariant IsTail(events, h)
        invariant droppedCursor == LastDropped(h, |h| - |events|)
        decreases |events|
      {
        EvictKeepsSuffix(h, events);
        droppedCursor := Some(events[0].cursor);
        events := events[1..];
      }
    }

    /** The events numbered after `num`: exactly that suffix of the history, or lagged
        precisely when one of them was dropped or `num` was never issued. */
    method AfterNum(num: nat) returns (r: After)
      requires Valid()
      ensures r.head == |history|
      ensures r.lagged <==> num > |history| || num < Dropped()
      ensures r.events == if r.lagged then [] else history[num..]
    {
      var oldest := if events == [] then head + 1 else events[0].num;
      var lagged := num > head || num + 1 < oldest;
      var kept := [];
      if !lagged {
        var i := 0;
        while i < |events|
          invariant 0 <= i <= |events|
          invariant kept == if Dropped() + i <= num then [] else history[num..Dropped() + i]
        {
          if events[i].num > num {
            kept := kept + [events[i]];
          }
          i := i + 1;
        }
      }
      r := After(kept, lagged, head);
    }

    /** Where a subscriber resuming after the change at `cursor` follows the events from:
        the number of events stamped below `cursor`, an answer that `AfterNum` never calls
        lagged. `None` exactly when an event stamped at or after `cursor` was dropped. */
    method SeqBeforeCursor(cursor: nat) returns (r: Option<nat>)
      requires Valid() && Ordered(history)
      ensures r == SeqBefore(history, Dropped(), cursor)
      ensures r.Some? ==> r.value == CountBelow(history, cursor) && Dropped() <= r.value <= head
    {
      hide SeqBefore, CountBelow, Ordered, IsTail, Numbered;
      if droppedCursor.Some? && droppedCursor.value >= cursor {
        SeqBeforeNone(history, Dropped(), cursor);
        return None;
      }
      var below := CountLeading(events, cursor);
      KeptNumber(history, events, below);
      var oldest := if events == [] then head else events[0].num - 1;
      r := Some(if below == 0 then oldest else events[below - 1].num);
      if below > 0 {
        IsTailAt(events, history, below - 1);
      }
      if below < |events| {
        IsTailAt(events, history, below);
      }
      BoundaryIsCount(history, cursor, Dropped(), Dropped() + below);
    }
  }
}
