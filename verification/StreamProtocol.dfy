/** The event stream with its reads taken one at a time (`src/events.rs`, `catch_up`).

    A round of catching up reads the bus, then the head of the change feed, then the feed.
    Commits, publications, trimming and eviction may happen between any two of those reads.
    The order a subscriber sees then depends on the timing, but in every run it consumes
    each change and each event exactly once, and no event before the change it is stamped
    with. */
module StreamProtocol {
  import opened EventBus
  import opened EventMerge

  /** Where a follower is in its round. */
  datatype Phase =
    | Idle
    | HaveBus(upto: nat, lagged: bool)  // read the events up to this number
    | HaveHead(upto: nat, head: nat)    // and then the head of the feed

  datatype State<T> = State(
    log: seq<T>,             // every change committed
    floor: nat,              // changes up to here were trimmed
    history: seq<Posted>,    // every event published
    dropped: nat,            // events up to this number are no longer kept
    startCursor: nat,        // where the follower started, or was last told to reload
    startNum: nat,
    cursor: nat,             // where it is
    num: nat,
    consumed: seq<Item<T>>,  // what it consumed since it started
    phase: Phase)

  ghost predicate Init<T>(s: State<T>) {
    && s.log == [] && s.floor == 0 && s.history == [] && s.dropped == 0
    && s.cursor == s.startCursor && s.num == s.startNum
    && s.consumed == [] && s.phase == Idle
  }

  // ----- the server ------------------------------------------------------------

  ghost predicate Commit<T>(s: State<T>, s': State<T>) {
    s.log <= s'.log && s' == s.(log := s'.log)
  }

  /** `publish` reads the head and appends under the bus lock. */
  ghost predicate Publish<T(!new)>(s: State<T>, s': State<T>) {
    exists batch: seq<Pending> ::
      s' == s.(history := s.history + Stamped(batch, |s.history|, |s.log|))
  }

  ghost predicate Evict<T>(s: State<T>, s': State<T>) {
    s.dropped <= s'.dropped <= |s.history| && s' == s.(dropped := s'.dropped)
  }

  ghost predicate Trim<T>(s: State<T>, s': State<T>) {
    s.floor <= s'.floor <= |s.log| && s' == s.(floor := s'.floor)
  }

  // ----- the follower ------------------------------------------------------------

  /** Told to reload: follow from here, as if started here. */
  function Lag<T>(s: State<T>, cursor: nat, num: nat): State<T> {
    s.(startCursor := cursor, startNum := num, cursor := cursor, num := num,
       consumed := [], phase := Idle)
  }

  ghost predicate ReadBus<T>(s: State<T>, s': State<T>) {
    && s.phase == Idle
    && s' == s.(phase := HaveBus(|s.history|, s.num > |s.history| || s.num < s.dropped))
  }

  ghost predicate ReadHead<T>(s: State<T>, s': State<T>) {
    && s.phase.HaveBus?
    && s' == if s.cursor > |s.log| || s.phase.lagged then Lag(s, |s.log|, s.phase.upto)
             else s.(phase := HaveHead(s.phase.upto, |s.log|))
  }

  /** The changes a round drains: none when the head it read was already reached. */
  function Seen<T>(s: State<T>): seq<T>
    requires s.phase.HaveHead? && s.phase.head <= |s.log|
  {
    if s.cursor < s.phase.head then s.log else s.log[..s.phase.head]
  }

  function Drained<T>(s: State<T>): seq<Item<T>>
    requires s.phase.HaveHead? && s.phase.head <= |s.log| && s.phase.upto <= |s.history|
  {
    Merge(Seen(s), s.history[..s.phase.upto], s.cursor, s.num)
  }

  ghost predicate ReadFeed<T>(s: State<T>, s': State<T>) {
    && s.phase.HaveHead?
    && s.phase.head <= |s.log| && s.phase.upto <= |s.history|
    && s' == if s.cursor < s.phase.head && s.cursor < s.floor then Lag(s, |s.log|, s.phase.upto)
             else
               var (c, n) := EndOf(Drained(s), s.cursor, s.num);
               s.(cursor := c, num := n, consumed := s.consumed + Drained(s), phase := Idle)
  }

  ghost predicate Next<T(!new)>(s: State<T>, s': State<T>) {
    || Commit(s, s') || Publish(s, s') || Evict(s, s') || Trim(s, s')
    || ReadBus(s, s') || ReadHead(s, s') || ReadFeed(s, s')
  }

  ghost predicate IsRun<T(!new)>(run: seq<State<T>>) {
    && run != [] && Init(run[0])
    && forall i :: 0 <= i < |run| - 1 ==> Next(run[i], run[i + 1])
  }

  // ----- the invariant -----------------------------------------------------------

  ghost predicate PhaseOk<T>(s: State<T>) {
    match s.phase
    case Idle => true
    case HaveBus(upto, lagged) =>
      upto <= |s.history| && (!lagged ==> s.num <= upto)
    case HaveHead(upto, head) =>
      && s.num <= upto <= |s.history| && s.cursor <= head <= |s.log|
      && forall i :: 0 <= i < upto ==> s.history[i].cursor <= head
  }

  ghost predicate Inv<T>(s: State<T>) {
    && Closed(s.log, s.history) && Ordered(s.history) && Numbered(s.history)
    && s.floor <= |s.log| && s.dropped <= |s.history|
    && Path(s.consumed, s.log, s.history, s.startCursor, s.startNum, s.cursor, s.num)
    && PhaseOk(s)
  }

  lemma ServerStepKeepsInv<T(!new)>(s: State<T>, s': State<T>)
    requires Inv(s)
    requires Commit(s, s') || Publish(s, s') || Evict(s, s') || Trim(s, s')
    ensures Inv(s')
  {
    PathGrows(s.consumed, s.log, s.history, s'.log, s'.history, s.startCursor, s.startNum, s.cursor, s.num);
  }

  /** What a round drains leads to the last event it read, and at least to the head it read. */
  lemma DrainedIsPath<T>(s: State<T>)
    requires Inv(s) && s.phase.HaveHead?
    ensures var (c, n) := EndOf(Drained(s), s.cursor, s.num);
            && Path(Drained(s), s.log, s.history, s.cursor, s.num, c, n)
            && n == s.phase.upto && c == |Seen(s)| >= s.phase.head
  {
    var log, history := Seen(s), s.history[..s.phase.upto];
    MergeIsPath(log, history, s.cursor, s.num);
    PathEnds(Drained(s), log, history, s.cursor, s.num, |log|, |history|);
    PathGrows(Drained(s), log, history, s.log, s.history, s.cursor, s.num, |log|, |history|);
  }

  lemma FollowerStepKeepsInv<T(!new)>(s: State<T>, s': State<T>)
    requires Inv(s)
    requires ReadBus(s, s') || ReadHead(s, s') || ReadFeed(s, s')
    ensures Inv(s')
  {
    if ReadFeed(s, s') && !(s.cursor < s.phase.head && s.cursor < s.floor) {
      DrainedIsPath(s);
      PathAppend(s.consumed, Drained(s), s.log, s.history,
                 s.startCursor, s.startNum, s.cursor, s.num, s'.cursor, s'.num);
    }
  }

  lemma {:induction false} RunKeepsInv<T(!new)>(run: seq<State<T>>, i: nat)
    requires IsRun(run) && i < |run|
    ensures Inv(run[i])
  {
    if i > 0 {
      RunKeepsInv(run, i - 1);
      var s, s' := run[i - 1], run[i - 1 + 1];
      assert Next(s, s');
      if Commit(s, s') || Publish(s, s') || Evict(s, s') || Trim(s, s') {
        ServerStepKeepsInv(s, s');
      } else {
        FollowerStepKeepsInv(s, s');
      }
    }
  }

  // ----- what every run guarantees -------------------------------------------------

  ghost predicate ConsumesChange<T>(s: State<T>, i: int, k: nat) {
    0 <= i < |s.consumed| && s.consumed[i].what.Change? && s.consumed[i].cursor == k
  }

  ghost predicate ConsumesNamed<T>(s: State<T>, i: int, k: nat) {
    0 <= i < |s.consumed| && s.consumed[i].what.Named? && s.consumed[i].num == k
  }

  /** Item `i` is an event stamped with a change committed after the follower started. */
  ghost predicate HasCauseToSee<T>(s: State<T>, i: int)
    requires 0 <= i < |s.consumed|
  {
    s.consumed[i].what.Named? && s.consumed[i].what.event.cursor > s.startCursor
  }

  /** Every committed change the follower has passed was consumed, once, with its content. */
  lemma ChangesExactlyOnce<T(!new)>(run: seq<State<T>>, at: nat, k: nat)
    requires IsRun(run) && at < |run|
    requires run[at].startCursor < k <= run[at].cursor
    ensures exists i :: ConsumesChange(run[at], i, k)
    ensures forall i, j :: ConsumesChange(run[at], i, k) && ConsumesChange(run[at], j, k) ==> i == j
    ensures forall i :: ConsumesChange(run[at], i, k) ==>
              k <= |run[at].log| && run[at].consumed[i].what.op == run[at].log[k - 1]
  {
    RunKeepsInv(run, at);
    var s := run[at];
    var w := PathHasChange(s.consumed, s.log, s.history, s.startCursor, s.startNum, s.cursor, s.num, k);
    assert ConsumesChange(s, w, k);
    forall i, j | ConsumesChange(s, i, k) && ConsumesChange(s, j, k)
      ensures i == j
    {
      if i != j {
        var a, b := if i < j then i else j, if i < j then j else i;
        PathMonotone(s.consumed, s.log, s.history, s.startCursor, s.startNum, s.cursor, s.num, a, b);
      }
    }
    forall i | ConsumesChange(s, i, k)
      ensures k <= |s.log| && s.consumed[i].what.op == s.log[k - 1]
    {
      PathCounts(s.consumed, s.log, s.history, s.startCursor, s.startNum, s.cursor, s.num, i);
    }
  }

  /** Every published event the follower has passed was consumed, once, with its content. */
  lemma NamedExactlyOnce<T(!new)>(run: seq<State<T>>, at: nat, k: nat)
    requires IsRun(run) && at < |run|
    requires run[at].startNum < k <= run[at].num
    ensures exists i :: ConsumesNamed(run[at], i, k)
    ensures forall i, j :: ConsumesNamed(run[at], i, k) && ConsumesNamed(run[at], j, k) ==> i == j
    ensures forall i :: ConsumesNamed(run[at], i, k) ==>
              k <= |run[at].history| && run[at].consumed[i].what.event == run[at].history[k - 1]
  {
    RunKeepsInv(run, at);
    var s := run[at];
    var w := PathHasNamed(s.consumed, s.log, s.history, s.startCursor, s.startNum, s.cursor, s.num, k);
    assert ConsumesNamed(s, w, k);
    forall i, j | ConsumesNamed(s, i, k) && ConsumesNamed(s, j, k)
      ensures i == j
    {
      if i != j {
        var a, b := if i < j then i else j, if i < j then j else i;
        PathMonotone(s.consumed, s.log, s.history, s.startCursor, s.startNum, s.cursor, s.num, a, b);
      }
    }
    forall i | ConsumesNamed(s, i, k)
      ensures k <= |s.history| && s.consumed[i].what.event == s.history[k - 1]
    {
      PathCounts(s.consumed, s.log, s.history, s.startCursor, s.startNum, s.cursor, s.num, i);
    }
  }

  /** Changes are consumed in cursor order and events in number order, nothing else is
      consumed, and an event only after the change it is stamped with. */
  lemma ConsumedInCausalOrder<T(!new)>(run: seq<State<T>>, at: nat)
    requires IsRun(run) && at < |run|
    ensures |run[at].consumed|
         == run[at].cursor - run[at].startCursor + run[at].num - run[at].startNum
    ensures forall i, j :: 0 <= i < j < |run[at].consumed| ==>
              && run[at].consumed[i].cursor <= run[at].consumed[j].cursor
              && run[at].consumed[i].num <= run[at].consumed[j].num
    ensures forall i :: 0 <= i < |run[at].consumed| && HasCauseToSee(run[at], i) ==>
              exists j :: j < i && ConsumesChange(run[at], j, run[at].consumed[i].what.event.cursor)
  {
    RunKeepsInv(run, at);
    var s := run[at];
    PathEnds(s.consumed, s.log, s.history, s.startCursor, s.startNum, s.cursor, s.num);
    forall i, j | 0 <= i < j < |s.consumed|
      ensures s.consumed[i].cursor <= s.consumed[j].cursor && s.consumed[i].num <= s.consumed[j].num
    {
      PathMonotone(s.consumed, s.log, s.history, s.startCursor, s.startNum, s.cursor, s.num, i, j);
    }
    forall i | 0 <= i < |s.consumed| && HasCauseToSee(s, i)
      ensures exists j :: j < i && ConsumesChange(s, j, s.consumed[i].what.event.cursor)
    {
      var j := CauseBefore(s, i);
    }
  }

  lemma CauseBefore<T>(s: State<T>, i: nat) returns (j: nat)
    requires Inv(s) && i < |s.consumed| && HasCauseToSee(s, i)
    ensures j < i && ConsumesChange(s, j, s.consumed[i].what.event.cursor)
  {
    var k := s.consumed[i].what.event.cursor;
    PathCounts(s.consumed, s.log, s.history, s.startCursor, s.startNum, s.cursor, s.num, i);
    j := PathHasChange(s.consumed, s.log, s.history, s.startCursor, s.startNum, s.cursor, s.num, k);
    if j > i {
      PathMonotone(s.consumed, s.log, s.history, s.startCursor, s.startNum, s.cursor, s.num, i, j);
    }
  }

  /** A round that does not lag drains every event its bus read returned and every change up
      to the head it read, and keeps what was consumed before. */
  lemma RoundDrainsWhatItRead<T(!new)>(run: seq<State<T>>, at: nat)
    requires IsRun(run) && at + 1 < |run|
    requires ReadFeed(run[at], run[at + 1])
    requires !(run[at].cursor < run[at].phase.head && run[at].cursor < run[at].floor)
    ensures run[at + 1].num == run[at].phase.upto
    ensures run[at + 1].cursor >= run[at].phase.head
    ensures run[at].consumed <= run[at + 1].consumed
  {
    RunKeepsInv(run, at);
    DrainedIsPath(run[at]);
  }

  /** A round reads only what is kept: unless it is told to reload, the events after its number
      were all kept when it read the bus, and the changes after its cursor when it read the
      feed. */
  lemma ReadsOnlyKept<T(!new)>(run: seq<State<T>>, at: nat)
    requires IsRun(run) && at + 1 < |run|
    ensures ReadBus(run[at], run[at + 1]) ==>
              (!run[at + 1].phase.lagged <==>
               run[at].dropped <= run[at].num <= |run[at].history|)
    ensures ReadFeed(run[at], run[at + 1]) && run[at].phase.head > run[at].cursor
            && (run[at + 1].startCursor, run[at + 1].startNum) == (run[at].startCursor, run[at].startNum)
            && |run[at + 1].consumed| > 0 ==>
              run[at].floor <= run[at].cursor
  {
    RunKeepsInv(run, at);
    if ReadFeed(run[at], run[at + 1]) && run[at].cursor < run[at].phase.head && run[at].cursor < run[at].floor {
      assert run[at + 1].consumed == [];
    }
  }
}
