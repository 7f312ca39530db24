/** Resuming when the reads of a round are taken one at a time (`src/events.rs`).

    An id `cursor:n` always names the place it was sent from. A bare `cursor`, sent before the
    follower saw any named event, is looked up anew: an event published after the round read
    the bus may be stamped below a change that round goes on to send, and is then taken to
    have been seen. */
module StreamResume {
  import opened Prelude
  import opened Text
  import opened EventBus
  import opened EventMerge
  import opened EventStream
  import opened StreamProtocol

  lemma {:induction false} PathPrefix<T>(items: seq<Item<T>>, log: seq<T>, history: seq<Posted>,
                                         c: nat, s: nat, c2: nat, s2: nat, i: nat)
    requires Path(items, log, history, c, s, c2, s2) && i < |items|
    ensures Path(items[..i + 1], log, history, c, s, items[i].cursor, items[i].num)
    decreases |items|
  {
    assert items[..i + 1][1..] == items[1..][..i];
    if i > 0 {
      PathPrefix(items[1..], log, history, items[0].cursor, items[0].num, c2, s2, i - 1);
    }
  }

  /** The logs of the server only grow. */
  lemma {:induction false} RunGrows<T(!new)>(run: seq<State<T>>, at: nat, later: nat)
    requires IsRun(run) && at <= later < |run|
    ensures run[at].log <= run[later].log && run[at].history <= run[later].history
    ensures run[at].dropped <= run[later].dropped
    decreases later
  {
    if at < later {
      RunGrows(run, at, later - 1);
      assert Next(run[later - 1], run[later - 1 + 1]);
    }
  }

  /** A follower that consumed something is not past what there is. */
  ghost predicate Bounded<T>(s: State<T>) {
    s.consumed != [] ==> s.cursor <= |s.log| && s.num <= |s.history|
  }

  lemma ServerKeepsBounded<T(!new)>(s: State<T>, s': State<T>)
    requires Bounded(s) && (Commit(s, s') || Publish(s, s') || Evict(s, s') || StreamProtocol.Trim(s, s'))
    ensures Bounded(s')
  {
  }

  lemma FollowerKeepsBounded<T(!new)>(s: State<T>, s': State<T>)
    requires Inv(s) && Bounded(s) && (ReadBus(s, s') || ReadHead(s, s') || ReadFeed(s, s'))
    ensures Bounded(s')
  {
    if s.phase.HaveHead? {
      DrainedIsPath(s);
    }
    hide Path, Drained, EndOf, Closed, Ordered, Numbered;
  }

  lemma NextKeepsBounded<T(!new)>(s: State<T>, s': State<T>)
    requires Inv(s) && Bounded(s) && Next(s, s')
    ensures Bounded(s')
  {
    hide Inv, Bounded, Commit, Publish, Evict, StreamProtocol.Trim, ReadBus, ReadHead, ReadFeed;
    if Commit(s, s') || Publish(s, s') || Evict(s, s') || StreamProtocol.Trim(s, s') {
      ServerKeepsBounded(s, s');
    } else {
      FollowerKeepsBounded(s, s');
    }
  }

  lemma {:induction false} ConsumedIsBounded<T(!new)>(run: seq<State<T>>, at: nat)
    requires IsRun(run) && at < |run|
    ensures Bounded(run[at])
  {
    if at > 0 {
      hide Inv, Next;
      var s, s' := run[at - 1], run[at - 1 + 1];
      ConsumedIsBounded(run, at - 1);
      RunKeepsInv(run, at - 1);
      assert Next(s, s');
      NextKeepsBounded(s, s');
    }
  }

  /** No event of `history` is stamped below `cursor`. */
  ghost predicate NoneBelow(history: seq<Posted>, cursor: nat) {
    forall k :: 0 <= k < |history| ==> history[k].cursor >= cursor
  }

  /** A bare cursor is looked up as number 0 exactly if nothing was dropped and no event is
      stamped below it. */
  lemma BareCursor(history: seq<Posted>, dropped: nat, cursor: nat)
    requires Ordered(history) && dropped <= |history|
    ensures SeqBefore(history, dropped, cursor) == Some(0) <==> dropped == 0 && NoneBelow(history, cursor)
  {
    if NoneBelow(history, cursor) {
      CountBelowSplits(history, cursor, 0);
      if dropped > 0 {
        assert history[0].cursor >= cursor;
      }
    } else {
      SomeBelow(history, cursor);
    }
  }

  lemma {:induction false} SomeBelow(history: seq<Posted>, cursor: nat)
    requires !NoneBelow(history, cursor)
    ensures CountBelow(history, cursor) > 0
  {
    var front := history[..|history| - 1];
    if !NoneBelow(front, cursor) {
      SomeBelow(front, cursor);
    } else {
      assert forall k :: 0 <= k < |front| ==> history[k] == front[k];
    }
  }

  /** In every run, the id of an item consumed resolves, at any later time, to the place it was
      sent from exactly if it carries an event number, or nothing has been dropped and no event
      published is stamped below it. Otherwise the client is told to reload, or the events
      stamped below are passed over. */
  lemma ResumeInEveryRun(run: seq<State<Op>>, at: nat, i: nat, later: nat)
    requires IsRun(run) && at <= later < |run| && i < |run[at].consumed|
    requires |run[later].log| < U64_LIMIT && |run[later].history| < U64_LIMIT
    ensures var item, s := run[at].consumed[i], run[later];
            var since := ParseSince(Some(Position(item.cursor, item.num)));
            && since.Some? && s.dropped <= |s.history|
            && var start := StartAt(since.value, s.log, s.history, s.dropped);
            && (start == Some((item.cursor, item.num)) <==>
                item.num > 0 || (s.dropped == 0 && NoneBelow(s.history, item.cursor)))
            && (start.None? ==> item.num == 0 && s.dropped > 0)
            && (start.Some? && item.num == 0 ==>
                  start.value == (item.cursor, CountBelow(s.history, item.cursor)))
  {
    var item, s, r := run[at].consumed[i], run[later], run[at];
    RunKeepsInv(run, at);
    RunKeepsInv(run, later);
    RunGrows(run, at, later);
    PathCounts(r.consumed, r.log, r.history, r.startCursor, r.startNum, r.cursor, r.num, i);
    ConsumedIsBounded(run, at);
    PositionRoundTrip(item.cursor, item.num);
    BareCursor(s.history, s.dropped, item.cursor);
  }

  /** What a follower started at the position of a consumed item goes on to consume continues
      what was consumed up to it: together they are one path, each change and each event once. */
  lemma ResumedContinues<T(!new)>(run: seq<State<T>>, at: nat, i: nat, run2: seq<State<T>>, b: nat)
    requires IsRun(run) && at < |run| && i < |run[at].consumed|
    requires IsRun(run2) && b < |run2|
    requires run[at].log <= run2[b].log && run[at].history <= run2[b].history
    requires run2[b].startCursor == run[at].consumed[i].cursor
    requires run2[b].startNum == run[at].consumed[i].num
    ensures Path(run[at].consumed[..i + 1] + run2[b].consumed, run2[b].log, run2[b].history,
                 run[at].startCursor, run[at].startNum, run2[b].cursor, run2[b].num)
  {
    hide Path;
    RunKeepsInv(run, at);
    RunKeepsInv(run2, b);
    var s, t := run[at], run2[b];
    var (c, n) := (s.consumed[i].cursor, s.consumed[i].num);
    PathPrefix(s.consumed, s.log, s.history, s.startCursor, s.startNum, s.cursor, s.num, i);
    PathGrows(s.consumed[..i + 1], s.log, s.history, t.log, t.history, s.startCursor, s.startNum, c, n);
    PathAppend(s.consumed[..i + 1], t.consumed, t.log, t.history, s.startCursor, s.startNum, c, n, t.cursor, t.num);
  }

  // ----- the failing run -------------------------------------------------------------------------

  /** An event is published, and a second change committed, after the round read the bus: the
      round sends both changes under bare ids, and the second id is looked up as if the event
      had been sent. */
  lemma BareIdSkipsAnEvent(first: Op, second: Op, posted: Pending) returns (run: seq<State<Op>>)
    ensures IsRun(run)
    ensures var s := run[|run| - 1];
            && s.consumed == [Item(1, 0, Change(first)), Item(2, 0, Change(second))]
            && s.history == Stamped([posted], 0, 1) && s.dropped == 0
            && ParseSince(Some(Position(2, 0))) == Some(Cursor(2))
            && StartAt(Cursor(2), s.log, s.history, s.dropped) == Some((2, 1))
  {
    var s0: State<Op> := State([], 0, [], 0, 0, 0, 0, 0, [], Idle);
    var s1 := s0.(log := [first]);
    var s2 := s1.(phase := HaveBus(0, false));
    var s3 := s2.(history := Stamped([posted], 0, 1));
    var s4 := s3.(log := [first, second]);
    var s5 := s4.(phase := HaveHead(0, 2));
    var items := [Item(1, 0, Change(first)), Item(2, 0, Change(second))];
    var s6 := s5.(cursor := 2, consumed := items, phase := Idle);
    run := [s0, s1, s2, s3, s4, s5, s6];
    assert Publish(s2, s3) by {
      assert s2.history + Stamped([posted], 0, 1) == Stamped([posted], 0, 1);
    }
    DrainsTwo(first, second, s5.history);
    assert ReadFeed(s5, s6) by {
      assert [] + items == items;
    }
    PositionRoundTrip(2, 0);
    CountBelowSplits(s6.history, 2, 1);
  }

  lemma DrainsTwo(first: Op, second: Op, history: seq<Posted>)
    ensures Merge([first, second], history[..0], 0, 0)
         == [Item(1, 0, Change(first)), Item(2, 0, Change(second))]
  {
    var log, none: seq<Posted> := [first, second], [];
    assert history[..0] == none;
    assert Merge(log, none, 2, 0) == [];
    assert Merge(log, none, 1, 0) == [Item(2, 0, Change(second))];
    assert Merge(log, none, 0, 0) == [Item(1, 0, Change(first))] + Merge(log, none, 1, 0);
  }
}
