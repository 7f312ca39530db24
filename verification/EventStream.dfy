/** `GET /events` (`src/events.rs`): a subscriber's place in the change feed and among the
    named events, and the stream ids it can resume from. */
module EventStream {
  import opened Prelude
  import opened Text
  import opened EventBus
  import opened ChangeFeed
  import opened EventMerge

  // ----- stream ids ----------------------------------------------------------

  /** A stream position as an SSE id. */
  function Position(cursor: nat, num: nat): string {
    if num == 0 then Dec(cursor) else Dec(cursor) + ":" + Dec(num)
  }

  /** Where a client asked to start. */
  datatype Since = Latest | Cursor(cursor: nat) | At(cursor: nat, num: nat)

  /** Read `since` or `Last-Event-ID`: empty, `<cursor>` or `<cursor>:<n>`. */
  function ParseSince(text: Option<string>): Option<Since> {
    var trimmed := if text.None? then [] else Trim(text.value);
    if trimmed == [] then Some(Latest)
    else
      var colon := Find(trimmed, ':');
      if colon == |trimmed| then
        match ParseU64(trimmed)
        case Some(c) => Some(Cursor(c))
        case None => None
      else
        match (ParseU64(trimmed[..colon]), ParseU64(trimmed[colon + 1..]))
        case (Some(c), Some(n)) => Some(At(c, n))
        case _ => None
  }

  /** The server reads back every id it sends. */
  lemma PositionRoundTrip(cursor: nat, num: nat)
    requires cursor < U64_LIMIT && num < U64_LIMIT
    ensures ParseSince(Some(Position(cursor, num)))
         == Some(if num == 0 then Cursor(cursor) else At(cursor, num))
  {
    var c, n, id := Dec(cursor), Dec(num), Position(cursor, num);
    DecRoundTrip(cursor);
    DecRoundTrip(num);
    assert IsDigit(c[0]) && IsDigit(c[|c| - 1]) && IsDigit(n[|n| - 1]);
    TrimVisible(id);
    if num == 0 {
      FindAt(id, ':', |id|);
    } else {
      assert id[..|c|] == c && id[|c|] == ':' && id[|c| + 1..] == n;
      FindAt(id, ':', |c|);
    }
  }

  /** An id as it stands on the wire. */
  lemma PositionSpelt()
    ensures Position(70, 0) == "70" && Position(70, 31) == "70" + ":" + "31"
    ensures ParseSince(Some("70" + ":" + "31")) == Some(At(70, 31))
    ensures ParseSince(Some("")) == Some(Latest) && ParseSince(None) == Some(Latest)
  {
    assert Dec(7) == "7" && Dec(3) == "3";
    assert Dec(70) == Dec(7) + "0" == "70";
    assert Dec(31) == Dec(3) + "1" == "31";
    hide Dec, ParseU64;
    PositionRoundTrip(70, 31);
  }

  /** Text with anything but digits, a sign and a colon names no place. */
  lemma OtherTextRefused(text: string, k: nat)
    requires Trim(text) != [] && k < |Trim(text)|
    requires !IsDigit(Trim(text)[k]) && Trim(text)[k] != '+' && Trim(text)[k] != ':'
    ensures ParseSince(Some(text)) == None
  {
    var t := Trim(text);
    var colon := Find(t, ':');
    hide Trim, Find;
    if colon == |t| {
      NotANumber(t, k);
    } else if k < colon {
      NotANumber(t[..colon], k);
    } else if k > colon {
      NotANumber(t[colon + 1..], k - colon - 1);
    } else {
      FindHits(t, ':');
    }
  }

  lemma NotANumber(t: string, k: nat)
    requires k < |t| && !IsDigit(t[k]) && t[k] != '+'
    ensures ParseU64(t) == None
  {
    var body := if t[0] == '+' then t[1..] else t;
    assert k > 0 || t[0] != '+';
    assert t[k] == (if t[0] == '+' then body[k - 1] else body[k]);
  }

  lemma {:induction false} FindHits(t: string, c: char)
    requires Find(t, c) < |t|
    ensures t[Find(t, c)] == c
  {
    if t[0] != c {
      FindHits(t[1..], c);
    }
  }

  // ----- filters and events --------------------------------------------------

  datatype Op =
    | UpsertNode(id: nat, labels: seq<string>)
    | UpsertEdge(id: nat, kind: string, from: nat, to: nat)
    | DeleteNode(id: nat)
    | DeleteEdge(id: nat)
    | OtherOp

  /** What the subscriber's login may traverse. */
  datatype Privileges = Privileges(node: seq<string> -> bool, relationship: string -> bool)

  datatype Filter = Filter(labels: Option<set<string>>, names: Option<set<string>>,
                           context: Option<Privileges>)
  {
    predicate Changes() {
      labels.Some? || names.None?
    }

    predicate PostedNamed(name: string) {
      match names
      case Some(want) => name in want
      case None => labels.None?
    }

    predicate Node(nodeLabels: seq<string>) {
      && Changes()
      && (labels.None? || exists i :: 0 <= i < |nodeLabels| && nodeLabels[i] in labels.value)
      && (context.None? || context.value.node(nodeLabels))
    }

    predicate Relationship(kind: string) {
      && Changes()
      && (labels.None? || kind in labels.value)
      && (context.None? || context.value.relationship(kind))
    }
  }

  datatype Body =
    | NodeUpserted(node: nat, labels: seq<string>, at: nat)
    | RelationshipUpserted(edge: nat, kind: string, from: nat, to: nat, at: nat)
    | NodeDeleted(node: nat, at: nat)
    | RelationshipDeleted(edge: nat, at: nat)
    | PostedBody(name: string, payload: string, at: nat)
    | LaggedBody(at: nat)

  datatype Event = Event(id: string, body: Body)

  /** The SSE event for change `op` at `cursor`, or none when it is not shown. */
  function EventFor(op: Op, cursor: nat, id: string, filter: Filter): seq<Event> {
    match op
    case UpsertNode(n, labels) =>
      if filter.Node(labels) then [Event(id, NodeUpserted(n, labels, cursor))] else []
    case UpsertEdge(e, kind, from, to) =>
      if filter.Relationship(kind) then [Event(id, RelationshipUpserted(e, kind, from, to, cursor))] else []
    case DeleteNode(n) =>
      if filter.Changes() then [Event(id, NodeDeleted(n, cursor))] else []
    case DeleteEdge(e) =>
      if filter.Changes() then [Event(id, RelationshipDeleted(e, cursor))] else []
    case OtherOp => []
  }

  /** What the subscriber is sent for one consumed item. */
  function Shown(item: Item<Op>, filter: Filter): seq<Event> {
    var id := Position(item.cursor, item.num);
    match item.what
    case Change(op) => EventFor(op, item.cursor, id, filter)
    case Named(e) =>
      if filter.PostedNamed(e.name) then [Event(id, PostedBody(e.name, e.payload, e.cursor))] else []
  }

  function ShownAll(items: seq<Item<Op>>, filter: Filter): seq<Event> {
    if items == [] then [] else Shown(items[0], filter) + ShownAll(items[1..], filter)
  }

  lemma {:induction false} ShownAllAppend(a: seq<Item<Op>>, b: seq<Item<Op>>, filter: Filter)
    ensures ShownAll(a + b, filter) == ShownAll(a, filter) + ShownAll(b, filter)
  {
    if a == [] {
      assert a + b == b;
    } else {
      assert (a + b)[1..] == a[1..] + b;
      ShownAllAppend(a[1..], b, filter);
    }
  }

  /** What is queued from position (`c`, `s`) on. */
  function Queue(log: seq<Op>, history: seq<Posted>, c: nat, s: nat, filter: Filter): seq<Event> {
    ShownAll(Merge(log, history, c, s), filter)
  }

  lemma QueueNamed(log: seq<Op>, history: seq<Posted>, c: nat, s: nat, filter: Filter)
    requires s < |history| && history[s].cursor <= c <= |log|
    ensures Queue(log, history, c, s, filter)
         == Shown(Item(c, s + 1, Named(history[s])), filter) + Queue(log, history, c, s + 1, filter)
  {
    var m := Merge(log, history, c, s);
    assert m[1..] == Merge(log, history, c, s + 1);
  }

  lemma QueueChange(log: seq<Op>, history: seq<Posted>, c: nat, s: nat, filter: Filter)
    requires c < |log| && s <= |history| && (s < |history| ==> history[s].cursor > c)
    ensures Queue(log, history, c, s, filter)
         == EventFor(log[c], c + 1, Position(c + 1, s), filter) + Queue(log, history, c + 1, s, filter)
  {
    hide EventFor, Position;
    var m := Merge(log, history, c, s);
    assert m[1..] == Merge(log, history, c + 1, s);
  }

  lemma QueueWhole(log: seq<Op>, history: seq<Posted>, c: nat, s: nat, filter: Filter)
    requires c <= |log| && s <= |history| && Closed(log, history)
    ensures Queue(log, history, c, s, filter) == ShownAll(Merge(log, history, c, s), filter)
    ensures Queue(log, history, |log|, |history|, filter) == []
    ensures Merge(log, history, c, s) == [] <==> c == |log| && s == |history|
  {
    MergeIsPath(log, history, c, s);
    PathEnds(Merge(log, history, c, s), log, history, c, s, |log|, |history|);
  }

  // ----- where a stream starts, and when it lags -------------------------------

  /** The start-position match of `stream`; `None` is the lagged answer. */
  function StartAt(since: Since, log: seq<Op>, history: seq<Posted>, dropped: nat): Option<(nat, nat)>
    requires dropped <= |history|
  {
    match since
    case Latest => Some((|log|, |history|))
    case At(cursor, num) => Some((cursor, num))
    case Cursor(cursor) =>
      match SeqBefore(history, dropped, cursor)
      case Some(num) => Some((cursor, num))
      case None => None
  }

  /** Catching up from (`c`, `s`) cannot show everything after that position. */
  ghost predicate Lags(c: nat, s: nat, log: seq<Op>, floor: nat, history: seq<Posted>, dropped: nat) {
    c > |log| || s > |history| || s < dropped || (c < |log| && c < floor)
  }

  /** One subscriber. */
  class Follower {
    const feed: Feed<Op>
    const bus: Bus
    const filter: Filter
    var cursor: nat
    var num: nat
    var pending: seq<Event>

    constructor (feed: Feed<Op>, bus: Bus, filter: Filter, since: Since)
      requires feed.Valid() && bus.Valid() && Ordered(bus.history)
      ensures this.feed == feed && this.bus == bus && this.filter == filter
      ensures match StartAt(since, feed.log, bus.history, bus.Dropped())
              case Some(at) => (cursor, num) == at && pending == []
              case None =>
                && cursor == |feed.log| && num == |bus.history|
                && pending == [Event(Position(cursor, num), LaggedBody(cursor))]
    {
      var c, s, queued := 0, 0, [];
      match since {
        case Latest =>
          s := bus.head;
          c := feed.ChangeHead();
        case At(at, n) =>
          c, s := at, n;
        case Cursor(at) =>
          var before := bus.SeqBeforeCursor(at);
          match before {
            case Some(n) =>
              c, s := at, n;
            case None =>
              s := bus.head;
              c := feed.ChangeHead();
              queued := [Event(Position(c, s), LaggedBody(c))];
          }
      }
      this.feed, this.bus, this.filter := feed, bus, filter;
      cursor, num, pending := c, s, queued;
    }

    method Lag(at: nat, n: nat)
      modifies this
      ensures cursor == at && num == n
      ensures pending == old(pending) + [Event(Position(at, n), LaggedBody(at))]
    {
      cursor, num := at, n;
      pending := pending + [Event(Position(at, n), LaggedBody(at))];
    }

    /** Queue the named events from index `from` of `named` stamped at or below the cursor,
        the ones the merge puts before the next change. `named` are the events after `base`. */
    method SendNamed(named: seq<Posted>, from: nat, ghost base: nat, ghost log: seq<Op>, ghost history: seq<Posted>)
      returns (next: nat)
      requires cursor <= |log| && Numbered(history)
      requires base <= |history| && named == history[base..]
      requires from <= |named| && num == base + from
      modifies this`num, this`pending
      ensures from <= next <= |named| && num == base + next
      ensures next < |named| ==> named[next].cursor > cursor
      ensures pending + Queue(log, history, cursor, num, filter)
           == old(pending) + Queue(log, history, cursor, old(num), filter)
    {
      next := from;
      ghost var goal := old(pending) + Queue(log, history, cursor, num, filter);
      while next < |named| && named[next].cursor <= cursor
        invariant from <= next <= |named| && num == base + next
        invariant pending + Queue(log, history, cursor, num, filter) == goal
      {
        var e := named[next];
        QueueNamed(log, history, cursor, num, filter);
        ghost var rest := Queue(log, history, cursor, num + 1, filter);
        num := e.num;
        if filter.PostedNamed(e.name) {
          var event := Event(Position(cursor, num), PostedBody(e.name, e.payload, e.cursor));
          assert pending + ([event] + rest) == (pending + [event]) + rest;
          pending := pending + [event];
        } else {
          assert [] + rest == rest;
        }
        next := next + 1;
      }
    }

    /** Queue the events after the position and move it on. With both logs read at once,
        what is queued is exactly the filtered merge, or one `lagged` event precisely when
        something after the position is gone or the position was never issued. */
    method CatchUp() returns (moved: bool)
      requires feed.Valid() && bus.Valid() && Closed(feed.log, bus.history)
      modifies this
      ensures Lags(old(cursor), old(num), feed.log, feed.startSeq, bus.history, bus.Dropped()) ==>
                && moved
                && pending == old(pending) + [Event(Position(cursor, num), LaggedBody(cursor))]
      ensures !Lags(old(cursor), old(num), feed.log, feed.startSeq, bus.history, bus.Dropped()) ==>
                && var m := Merge(feed.log, bus.history, old(cursor), old(num));
                && moved == (m != [])
                && pending == old(pending) + ShownAll(m, filter)
      ensures cursor == |feed.log| && num == |bus.history|
    {
      var posted := bus.AfterNum(num);
      var head := feed.ChangeHead();
      if cursor > head || posted.lagged {
        Lag(head, posted.head);
        return true;
      }
      var ops := [];
      if cursor < head {
        var batch := feed.ChangesSince(cursor);
        if batch.lagged {
          Lag(batch.cursor, posted.head);
          return true;
        }
        ops := batch.ops;
      }
      moved := Drain(ops, posted.events, feed.log, bus.history);
    }

    /** The loop of `CatchUp`, over what was read. */
    method Drain(ops: seq<Op>, named: seq<Posted>, ghost log: seq<Op>, ghost history: seq<Posted>)
      returns (moved: bool)
      requires cursor <= |log| && num <= |history| && Numbered(history) && Closed(log, history)
      requires ops == log[cursor..] && named == history[num..]
      modifies this
      ensures var m := Merge(log, history, old(cursor), old(num));
              && moved == (m != [])
              && pending == old(pending) + ShownAll(m, filter)
      ensures cursor == |log| && num == |history|
    {
      hide Queue, EventFor, Position, ShownAll, Merge;
      ghost var c0, s0 := cursor, num;
      ghost var goal := pending + Queue(log, history, c0, s0, filter);
      var next := 0;
      var i := 0;
      while i < |ops|
        invariant 0 <= i <= |ops| && cursor == c0 + i
        invariant next <= |named| && num == s0 + next
        invariant pending + Queue(log, history, cursor, num, filter) == goal
      {
        next := SendNamed(named, next, s0, log, history);
        QueueChange(log, history, cursor, num, filter);
        ghost var rest := Queue(log, history, cursor + 1, num, filter);
        cursor := cursor + 1;
        var shown := EventFor(ops[i], cursor, Position(cursor, num), filter);
        Assoc(pending, shown, rest);
        pending := pending + shown;
        i := i + 1;
      }
      next := SendNamed(named, next, s0, log, history);
      moved := ops != [] || next > 0;
      QueueWhole(log, history, c0, s0, filter);
    }
  }

  // ----- resuming --------------------------------------------------------------

  /** A client that reconnects with the id of any event it was sent continues exactly where
      it left off: the id is read back, resolves to that event's position as long as no event
      it was not sent has been dropped, and what is merged from there is everything that
      follows, however much was committed and published meanwhile. */
  lemma ResumeExact(log1: seq<Op>, history1: seq<Posted>, c: nat, s: nat, i: nat,
                    log2: seq<Op>, history2: seq<Posted>, dropped: nat)
    requires c <= |log1| && s <= |history1| && i < |Merge(log1, history1, c, s)|
    requires Continues(log1, history1, log2, history2) && Ordered(history2)
    requires |log2| < U64_LIMIT && |history2| < U64_LIMIT && dropped <= |history2|
    ensures var sent := Merge(log1, history1, c, s);
            var id := Position(sent[i].cursor, sent[i].num);
            && ParseSince(Some(id)).Some?
            && var start := StartAt(ParseSince(Some(id)).value, log2, history2, dropped);
            && (start.None? <==> sent[i].num == 0 && dropped > 0)
            && (start.Some? ==> start.value == (sent[i].cursor, sent[i].num))
            && Merge(log2, history2, c, s)
            == sent[..i + 1] + Merge(log2, history2, sent[i].cursor, sent[i].num)
  {
    var sent := Merge(log1, history1, c, s);
    MergeIsPath(log1, history1, c, s);
    PathCounts(sent, log1, history1, c, s, |log1|, |history1|, i);
    PositionRoundTrip(sent[i].cursor, sent[i].num);
    if sent[i].num == 0 {
      BareIdResolves(log1, history1, c, s, i, log2, history2, dropped);
    }
    SentIsPrefix(log1, history1, c, s, i, log2, history2);
  }

  /** An id without an event number was sent before any event: it resolves to number 0. */
  lemma BareIdResolves(log1: seq<Op>, history1: seq<Posted>, c: nat, s: nat, i: nat,
                       log2: seq<Op>, history2: seq<Posted>, dropped: nat)
    requires c <= |log1| && s <= |history1| && i < |Merge(log1, history1, c, s)|
    requires Merge(log1, history1, c, s)[i].num == 0
    requires Continues(log1, history1, log2, history2) && Ordered(history2) && dropped <= |history2|
    ensures SeqBefore(history2, dropped, Merge(log1, history1, c, s)[i].cursor)
         == if dropped > 0 then None else Some(0)
  {
    var at := Merge(log1, history1, c, s)[i].cursor;
    MergeIsPath(log1, history1, c, s);
    PathCounts(Merge(log1, history1, c, s), log1, history1, c, s, |log1|, |history1|, i);
    forall k, l | 0 <= k < l < |history1|
      ensures history1[k].cursor <= history1[l].cursor
    {
      assert history2[k].cursor <= history2[l].cursor;
    }
    MergeBeforeFirstEvent(log1, history1, c, s, i);
    forall k | 0 <= k < |history2|
      ensures history2[k].cursor >= at
    {
      if k < |history1| {
        assert history1[k] == history2[k];
      }
    }
    CountBelowSplits(history2, at, 0);
    if dropped > 0 {
      assert history2[0].cursor >= at;
    }
  }

  /** Once sent, an item and those before it stay the beginning of the stream. */
  lemma SentIsPrefix(log1: seq<Op>, history1: seq<Posted>, c: nat, s: nat, i: nat,
                     log2: seq<Op>, history2: seq<Posted>)
    requires c <= |log1| && s <= |history1| && i < |Merge(log1, history1, c, s)|
    requires Continues(log1, history1, log2, history2)
    ensures var sent := Merge(log1, history1, c, s);
            Merge(log2, history2, c, s)
            == sent[..i + 1] + Merge(log2, history2, sent[i].cursor, sent[i].num)
  {
    var sent, all := Merge(log1, history1, c, s), Merge(log2, history2, c, s);
    MergeContinues(log1, history1, log2, history2, c, s);
    assert all[i] == sent[i] && all[..i + 1] == sent[..i + 1];
    MergeResumes(log2, history2, c, s, i);
    assert all == all[..i + 1] + all[i + 1..];
  }

  /** The same for what the filter lets through: what was shown up to the event whose id the
      client sends, and what is queued from where that id resolves to, are the whole stream. */
  lemma ResumeExactFiltered(log1: seq<Op>, history1: seq<Posted>, c: nat, s: nat, i: nat,
                            log2: seq<Op>, history2: seq<Posted>, dropped: nat, filter: Filter)
    requires c <= |log1| && s <= |history1| && i < |Merge(log1, history1, c, s)|
    requires Continues(log1, history1, log2, history2) && Ordered(history2)
    requires |log2| < U64_LIMIT && |history2| < U64_LIMIT && dropped <= |history2|
    ensures var sent := Merge(log1, history1, c, s);
            var since := ParseSince(Some(Position(sent[i].cursor, sent[i].num)));
            && since.Some?
            && var start := StartAt(since.value, log2, history2, dropped);
            && (start.None? <==> sent[i].num == 0 && dropped > 0)
            && (start.Some? ==>
                  Queue(log2, history2, c, s, filter)
                  == ShownAll(sent[..i + 1], filter)
                     + Queue(log2, history2, start.value.0, start.value.1, filter))
  {
    hide Position, ParseSince, StartAt, ShownAll;
    ResumeExact(log1, history1, c, s, i, log2, history2, dropped);
    var sent := Merge(log1, history1, c, s);
    ShownAllAppend(sent[..i + 1], Merge(log2, history2, sent[i].cursor, sent[i].num), filter);
  }

  /** A client that reconnects with the id of a `lagged` event continues from where the
      server left it. */
  lemma ResumeAfterLagged(log1: seq<Op>, history1: seq<Posted>,
                          log2: seq<Op>, history2: seq<Posted>, dropped: nat)
    requires Continues(log1, history1, log2, history2) && Ordered(history2)
    requires |log2| < U64_LIMIT && |history2| < U64_LIMIT && dropped <= |history2|
    ensures var id := Position(|log1|, |history1|);
            && ParseSince(Some(id)).Some?
            && var start := StartAt(ParseSince(Some(id)).value, log2, history2, dropped);
            && (start.None? <==> history1 == [] && dropped > 0)
            && (start.Some? ==> start.value == (|log1|, |history1|))
  {
    PositionRoundTrip(|log1|, |history1|);
    if history1 == [] {
      CountBelowSplits(history2, |log1|, 0);
      if dropped > 0 {
        assert history2[0].cursor >= |log1|;
      }
    }
  }
}
