/** The order in which a subscriber sees changes and named events, independent of how many
    reads it takes: `Merge` puts every event stamped `k` after change `k` and before change
    `k + 1`. What this module proves about it is what makes a stream position meaningful. */
module EventMerge {
  import opened EventBus

  datatype What<T> = Change(op: T) | Named(event: Posted)

  /** One consumed change or event, with the stream position reached by consuming it. */
  datatype Item<T> = Item(cursor: nat, num: nat, what: What<T>)

  /** Everything after position (`c`, `s`): `c` changes and `s` named events were seen. */
  function Merge<T>(log: seq<T>, history: seq<Posted>, c: nat, s: nat): seq<Item<T>>
    decreases |log| - c + |history| - s
  {
    if s < |history| && history[s].cursor <= c && c <= |log| then
      [Item(c, s + 1, Named(history[s]))] + Merge(log, history, c, s + 1)
    else if c < |log| && s <= |history| then
      [Item(c + 1, s, Change(log[c]))] + Merge(log, history, c + 1, s)
    else []
  }

  /** The position after `items`, consumed from (`c`, `s`). */
  function EndOf<T>(items: seq<Item<T>>, c: nat, s: nat): (nat, nat) {
    if items == [] then (c, s) else (items[|items| - 1].cursor, items[|items| - 1].num)
  }

  /** No event is stamped past the last change. */
  ghost predicate Closed<T>(log: seq<T>, history: seq<Posted>) {
    forall i :: 0 <= i < |history| ==> history[i].cursor <= |log|
  }

  /** `log2` and `history2` continue `log1` and `history1`: events published later are
      stamped at or after the changes committed before. */
  ghost predicate Continues<T>(log1: seq<T>, history1: seq<Posted>, log2: seq<T>, history2: seq<Posted>) {
    && log1 <= log2
    && history1 <= history2
    && Closed(log1, history1)
    && forall i :: |history1| <= i < |history2| ==> history2[i].cursor >= |log1|
  }

  // ----- exactly once, in order, after its cause ------------------------------

  /** `items` lead from (`c`, `s`) to (`c2`, `s2`) one change or one event at a time; each
      event follows the change it is stamped with. */
  ghost predicate Path<T>(items: seq<Item<T>>, log: seq<T>, history: seq<Posted>,
                          c: nat, s: nat, c2: nat, s2: nat)
    decreases |items|
  {
    if items == [] then c == c2 && s == s2
    else
      && (match items[0].what
          case Change(op) =>
            c < |log| && op == log[c] && items[0].cursor == c + 1 && items[0].num == s
          case Named(event) =>
            && s < |history| && event == history[s] && event.cursor <= c
            && items[0].cursor == c && items[0].num == s + 1)
      && Path(items[1..], log, history, items[0].cursor, items[0].num, c2, s2)
  }

  lemma {:induction false} PathAppend<T>(a: seq<Item<T>>, b: seq<Item<T>>, log: seq<T>, history: seq<Posted>,
                                         c: nat, s: nat, c1: nat, s1: nat, c2: nat, s2: nat)
    requires Path(a, log, history, c, s, c1, s1) && Path(b, log, history, c1, s1, c2, s2)
    ensures Path(a + b, log, history, c, s, c2, s2)
    decreases |a|
  {
    if a == [] {
      assert a + b == b;
    } else {
      assert (a + b)[1..] == a[1..] + b;
      PathAppend(a[1..], b, log, history, a[0].cursor, a[0].num, c1, s1, c2, s2);
    }
  }

  /** Growing the logs keeps a path a path. */
  lemma {:induction false} PathGrows<T>(items: seq<Item<T>>, log: seq<T>, history: seq<Posted>,
                                        log': seq<T>, history': seq<Posted>,
                                        c: nat, s: nat, c2: nat, s2: nat)
    requires Path(items, log, history, c, s, c2, s2)
    requires log <= log' && history <= history'
    ensures Path(items, log', history', c, s, c2, s2)
    decreases |items|
  {
    if items != [] {
      PathGrows(items[1..], log, history, log', history', items[0].cursor, items[0].num, c2, s2);
    }
  }

  /** What a path consumed: item `i` is change `cursor` or event `num`, and its position
      counts exactly the changes and events consumed so far. */
  lemma {:induction false} PathCounts<T>(items: seq<Item<T>>, log: seq<T>, history: seq<Posted>,
                                         c: nat, s: nat, c2: nat, s2: nat, i: nat)
    requires Path(items, log, history, c, s, c2, s2)
    requires i < |items|
    ensures c <= items[i].cursor <= c2 && s <= items[i].num <= s2
    ensures items[i].cursor - c + items[i].num - s == i + 1
    ensures items[i].what.Change? ==>
              c < items[i].cursor <= |log| && items[i].what.op == log[items[i].cursor - 1]
    ensures items[i].what.Named? ==>
              && s < items[i].num <= |history| && items[i].what.event == history[items[i].num - 1]
              && items[i].what.event.cursor <= items[i].cursor
    decreases |items|
  {
    PathEnds(items, log, history, c, s, c2, s2);
    if i > 0 {
      assert items[i] == items[1..][i - 1];
      PathCounts(items[1..], log, history, items[0].cursor, items[0].num, c2, s2, i - 1);
    } else {
      PathEnds(items[1..], log, history, items[0].cursor, items[0].num, c2, s2);
    }
  }

  lemma {:induction false} PathEnds<T>(items: seq<Item<T>>, log: seq<T>, history: seq<Posted>,
                                       c: nat, s: nat, c2: nat, s2: nat)
    requires Path(items, log, history, c, s, c2, s2)
    ensures c <= c2 && s <= s2 && |items| == c2 - c + s2 - s
    ensures (c2, s2) == EndOf(items, c, s)
    decreases |items|
  {
    if items != [] {
      PathEnds(items[1..], log, history, items[0].cursor, items[0].num, c2, s2);
      if |items| > 1 {
        assert items[1..][|items| - 2] == items[|items| - 1];
      }
    }
  }

  /** Every change in (`c`, `c2`] is consumed, at an index found by searching the path. */
  lemma {:induction false} PathHasChange<T>(items: seq<Item<T>>, log: seq<T>, history: seq<Posted>,
                                            c: nat, s: nat, c2: nat, s2: nat, k: nat) returns (i: nat)
    requires Path(items, log, history, c, s, c2, s2)
    requires c < k <= c2
    ensures i < |items| && items[i].what.Change? && items[i].cursor == k
    decreases |items|
  {
    if items[0].what.Change? && c + 1 == k {
      i := 0;
    } else {
      var j := PathHasChange(items[1..], log, history, items[0].cursor, items[0].num, c2, s2, k);
      i := j + 1;
    }
  }

  /** Every event in (`s`, `s2`] is consumed. */
  lemma {:induction false} PathHasNamed<T>(items: seq<Item<T>>, log: seq<T>, history: seq<Posted>,
                                           c: nat, s: nat, c2: nat, s2: nat, k: nat) returns (i: nat)
    requires Path(items, log, history, c, s, c2, s2)
    requires s < k <= s2
    ensures i < |items| && items[i].what.Named? && items[i].num == k
    decreases |items|
  {
    if items[0].what.Named? && s + 1 == k {
      i := 0;
    } else {
      var j := PathHasNamed(items[1..], log, history, items[0].cursor, items[0].num, c2, s2, k);
      i := j + 1;
    }
  }

  /** Positions along a path never go back. */
  lemma {:induction false} PathMonotone<T>(items: seq<Item<T>>, log: seq<T>, history: seq<Posted>,
                                           c: nat, s: nat, c2: nat, s2: nat, i: nat, j: nat)
    requires Path(items, log, history, c, s, c2, s2)
    requires i < j < |items|
    ensures items[i].cursor <= items[j].cursor && items[i].num <= items[j].num
    ensures items[j].what.Change? ==> items[i].cursor < items[j].cursor
    ensures items[j].what.Named? ==> items[i].num < items[j].num
    decreases |items|
  {
    var c1, s1 := items[0].cursor, items[0].num;
    if i == 0 {
      PathCounts(items[1..], log, history, c1, s1, c2, s2, j - 1);
    } else {
      PathMonotone(items[1..], log, history, c1, s1, c2, s2, i - 1, j - 1);
    }
  }

  // ----- the merge -----------------------------------------------------------

  /** The merge is a path, and with no event stamped past the log it reaches the end. */
  lemma {:induction false} MergeIsPath<T>(log: seq<T>, history: seq<Posted>, c: nat, s: nat)
    requires c <= |log| && s <= |history| && Closed(log, history)
    ensures Path(Merge(log, history, c, s), log, history, c, s, |log|, |history|)
    decreases |log| - c + |history| - s
  {
    if s < |history| && history[s].cursor <= c {
      MergeIsPath(log, history, c, s + 1);
    } else if c < |log| {
      MergeIsPath(log, history, c + 1, s);
    }
  }

  /** What follows item `i` is the merge from that item's position. */
  lemma {:induction false} MergeResumes<T>(log: seq<T>, history: seq<Posted>, c: nat, s: nat, i: nat)
    requires i < |Merge(log, history, c, s)|
    ensures var m := Merge(log, history, c, s);
            m[i + 1..] == Merge(log, history, m[i].cursor, m[i].num)
    decreases i
  {
    var m := Merge(log, history, c, s);
    if i == 0 {
      assert m[1..] == Merge(log, history, m[0].cursor, m[0].num);
    } else {
      assert m[1..] == Merge(log, history, m[0].cursor, m[0].num);
      MergeResumes(log, history, m[0].cursor, m[0].num, i - 1);
      assert m[1..][i..] == m[i + 1..];
    }
  }

  /** The merge of longer logs is the merge of the shorter ones, then what came later: the
      order a subscriber sees does not depend on when it reads. */
  lemma {:induction false} MergeContinues<T>(log1: seq<T>, history1: seq<Posted>,
                                             log2: seq<T>, history2: seq<Posted>, c: nat, s: nat)
    requires Continues(log1, history1, log2, history2)
    requires c <= |log1| && s <= |history1|
    ensures Merge(log2, history2, c, s)
         == Merge(log1, history1, c, s) + Merge(log2, history2, |log1|, |history1|)
    decreases |log1| - c + |history1| - s
  {
    if s < |history1| && history1[s].cursor <= c {
      MergeContinues(log1, history1, log2, history2, c, s + 1);
    } else if c < |log1| {
      MergeContinues(log1, history1, log2, history2, c + 1, s);
    } else {
      assert c == |log1| && s == |history1|;
    }
  }

  /** An item before the first event is a change that no event of the history precedes. */
  lemma {:induction false} MergeBeforeFirstEvent<T>(log: seq<T>, history: seq<Posted>, c: nat, s: nat, i: nat)
    requires c <= |log| && s <= |history|
    requires Ordered(history)
    requires i < |Merge(log, history, c, s)| && Merge(log, history, c, s)[i].num == 0
    ensures forall k :: 0 <= k < |history| ==> history[k].cursor >= Merge(log, history, c, s)[i].cursor
    decreases i
  {
    var m := Merge(log, history, c, s);
    assert m[1..] == Merge(log, history, m[0].cursor, m[0].num);
    if i > 0 {
      MergeBeforeFirstEvent(log, history, m[0].cursor, m[0].num, i - 1);
    }
  }

  // ----- several rounds of catching up ----------------------------------------

  datatype View<T> = View(log: seq<T>, history: seq<Posted>)

  ghost predicate Growing<T>(views: seq<View<T>>) {
    && (forall i :: 0 <= i < |views| ==> Closed(views[i].log, views[i].history))
    && forall i :: 0 <= i < |views| - 1 ==>
         Continues(views[i].log, views[i].history, views[i + 1].log, views[i + 1].history)
  }

  /** What a subscriber at (`c`, `s`) consumes when it catches up once in each view. */
  function Rounds<T>(views: seq<View<T>>, c: nat, s: nat): seq<Item<T>>
    decreases |views|
  {
    if views == [] then []
    else
      var m := Merge(views[0].log, views[0].history, c, s);
      var (c1, s1) := EndOf(m, c, s);
      m + Rounds(views[1..], c1, s1)
  }

  /** However often a subscriber catches up, it consumes the merge of the last view. */
  lemma {:induction false} RoundsAreOneMerge<T>(views: seq<View<T>>, c: nat, s: nat)
    requires views != [] && Growing(views)
    requires c <= |views[0].log| && s <= |views[0].history|
    ensures var last := views[|views| - 1];
            Rounds(views, c, s) == Merge(last.log, last.history, c, s)
    decreases |views|
  {
    var first, last := views[0], views[|views| - 1];
    var m := Merge(first.log, first.history, c, s);
    MergeIsPath(first.log, first.history, c, s);
    PathEnds(m, first.log, first.history, c, s, |first.log|, |first.history|);
    var rest := views[1..];
    if rest == [] {
      assert Rounds(rest, |first.log|, |first.history|) == [];
    } else {
      RoundsAreOneMerge(rest, |first.log|, |first.history|);
      ContinuesToLast(views);
      MergeContinues(first.log, first.history, last.log, last.history, c, s);
    }
  }

  lemma {:induction false} ContinuesToLast<T>(views: seq<View<T>>)
    requires |views| >= 2 && Growing(views)
    ensures Continues(views[0].log, views[0].history,
                      views[|views| - 1].log, views[|views| - 1].history)
    decreases |views|
  {
    assert Continues(views[0].log, views[0].history, views[0 + 1].log, views[0 + 1].history);
    if |views| > 2 {
      var rest := views[1..];
      forall i | 0 <= i < |rest| - 1
        ensures Continues(rest[i].log, rest[i].history, rest[i + 1].log, rest[i + 1].history)
      {
        var j := i + 1;
        assert Continues(views[j].log, views[j].history, views[j + 1].log, views[j + 1].history);
      }
      ContinuesToLast(rest);
    }
  }
}
