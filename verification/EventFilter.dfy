/** What a subscriber is sent, said without the filter's own tests (`src/events.rs`): from the
    two logs, the position it starts from, and the labels, names and privileges it has. */
module EventFilter {
  import opened Prelude
  import opened EventBus
  import opened EventMerge
  import opened EventStream

  // ----- where the merge puts things ------------------------------------------------------------

  /** A change is placed after the events stamped below it and before the others. */
  lemma {:induction false} ChangeAt<T>(log: seq<T>, history: seq<Posted>, c: nat, s: nat, i: nat)
    requires c <= |log| && s <= |history| && i < |Merge(log, history, c, s)|
    requires Merge(log, history, c, s)[i].what.Change?
    ensures var item := Merge(log, history, c, s)[i];
            && s <= item.num <= |history|
            && (forall j :: s <= j < item.num ==> history[j].cursor < item.cursor)
            && (item.num < |history| ==> history[item.num].cursor >= item.cursor)
    decreases i
  {
    var m := Merge(log, history, c, s);
    if i > 0 {
      assert m[1..] == Merge(log, history, m[0].cursor, m[0].num);
      assert m[i] == m[1..][i - 1];
      ChangeAt(log, history, m[0].cursor, m[0].num, i - 1);
      MergeForward(log, history, m[0].cursor, m[0].num, i - 1);
    }
  }

  /** A change in the merge lies after the position it starts from. */
  lemma {:induction false} MergeForward<T>(log: seq<T>, history: seq<Posted>, c: nat, s: nat, i: nat)
    requires i < |Merge(log, history, c, s)|
    ensures Merge(log, history, c, s)[i].cursor >= c
    ensures Merge(log, history, c, s)[i].what.Change? ==> Merge(log, history, c, s)[i].cursor > c
    decreases i
  {
    var m := Merge(log, history, c, s);
    if i > 0 {
      assert m[1..] == Merge(log, history, m[0].cursor, m[0].num);
      assert m[i] == m[1..][i - 1];
      MergeForward(log, history, m[0].cursor, m[0].num, i - 1);
    }
  }

  /** In an ordered history an event is placed right after the change it is stamped with. */
  lemma {:induction false} NamedAt<T>(log: seq<T>, history: seq<Posted>, c: nat, s: nat, i: nat)
    requires c <= |log| && s <= |history| && Ordered(history) && i < |Merge(log, history, c, s)|
    requires Merge(log, history, c, s)[i].what.Named?
    ensures var item := Merge(log, history, c, s)[i];
            && s < item.num <= |history| && item.what.event == history[item.num - 1]
            && item.cursor == Max(c, history[item.num - 1].cursor)
    decreases i
  {
    var m := Merge(log, history, c, s);
    if i > 0 {
      assert m[1..] == Merge(log, history, m[0].cursor, m[0].num);
      assert m[i] == m[1..][i - 1];
      NamedAt(log, history, m[0].cursor, m[0].num, i - 1);
    }
  }

  /** The number in the id of change `at`: the events stamped below it, or those the
      subscriber started after. */
  lemma NumberOfChange(history: seq<Posted>, s: nat, at: nat, num: nat)
    requires Ordered(history) && s <= num <= |history|
    requires forall j :: s <= j < num ==> history[j].cursor < at
    requires num < |history| ==> history[num].cursor >= at
    ensures num == Max(s, CountBelow(history, at))
  {
    if num > s {
      forall i | 0 <= i < num
        ensures history[i].cursor < at
      {
        assert history[num - 1].cursor < at;
      }
      CountBelowSplits(history, at, num);
    } else {
      AtMostBelow(history, at, num);
    }
  }

  lemma {:induction false} AtMostBelow(history: seq<Posted>, at: nat, n: nat)
    requires Ordered(history) && n <= |history| && (n < |history| ==> history[n].cursor >= at)
    ensures CountBelow(history, at) <= n
    decreases |history|
  {
    if |history| > n {
      var front := history[..|history| - 1];
      assert forall i, j :: 0 <= i < j < |front| ==> front[i].cursor <= front[j].cursor;
      AtMostBelow(front, at, n);
    } else {
      CountAtMost(history, at);
    }
  }

  lemma {:induction false} CountAtMost(history: seq<Posted>, at: nat)
    ensures CountBelow(history, at) <= |history|
  {
    if history != [] {
      CountAtMost(history[..|history| - 1], at);
    }
  }

  // ----- what has to be sent -------------------------------------------------------------------

  /** Changes are followed unless only named events were asked for. */
  predicate FollowsChanges(labels: Option<set<string>>, names: Option<set<string>>) {
    names.Some? ==> labels.Some?
  }

  /** The change at `at` has to be sent, with this content. */
  ghost predicate ChangeDue(op: Op, labels: Option<set<string>>, names: Option<set<string>>,
                            context: Option<Privileges>, body: Body) {
    && FollowsChanges(labels, names)
    && match body
       case NodeUpserted(n, nodeLabels, _) =>
         && op == UpsertNode(n, nodeLabels)
         && (labels.Some? ==> exists l :: l in nodeLabels && l in labels.value)
         && (context.Some? ==> context.value.node(nodeLabels))
       case RelationshipUpserted(e, kind, from, to, _) =>
         && op == UpsertEdge(e, kind, from, to)
         && (labels.Some? ==> kind in labels.value)
         && (context.Some? ==> context.value.relationship(kind))
       case NodeDeleted(n, _) => op == DeleteNode(n)
       case RelationshipDeleted(e, _) => op == DeleteEdge(e)
       case _ => false
  }

  /** The named event has to be sent: its name was asked for, or nothing in particular was. */
  ghost predicate NamedDue(labels: Option<set<string>>, names: Option<set<string>>, name: string) {
    if names.Some? then name in names.value else labels.None?
  }

  /** `e` has to be sent to a subscriber that starts from (`c`, `s`), under this id. */
  ghost predicate Due(log: seq<Op>, history: seq<Posted>, c: nat, s: nat, filter: Filter, e: Event) {
    match e.body
    case PostedBody(name, payload, at) =>
      && NamedDue(filter.labels, filter.names, name)
      && exists j :: s <= j < |history| && history[j] == Posted(j + 1, at, name, payload)
                     && e.id == Position(Max(c, at), j + 1)
    case LaggedBody(_) => false
    case body =>
      && c < body.at <= |log|
      && ChangeDue(log[body.at - 1], filter.labels, filter.names, filter.context, body)
      && e.id == Position(body.at, Max(s, CountBelow(history, body.at)))
  }

  lemma {:induction false} AmongShown(items: seq<Item<Op>>, filter: Filter, e: Event)
    ensures e in ShownAll(items, filter) <==> exists i :: 0 <= i < |items| && e in Shown(items[i], filter)
    decreases |items|
  {
    hide Shown;
    if items != [] {
      AmongShown(items[1..], filter, e);
      assert forall i :: 0 <= i < |items| - 1 ==> items[1..][i] == items[i + 1];
      if e in Shown(items[0], filter) {
        assert 0 <= 0 < |items|;
      } else if i :| 0 <= i < |items| && e in Shown(items[i], filter) {
        assert items[1..][i - 1] == items[i];
      }
    }
  }

  /** One change: it is shown exactly if it is due. */
  lemma ChangeShown(op: Op, cursor: nat, id: string, filter: Filter, e: Event)
    ensures e in EventFor(op, cursor, id, filter) <==>
              && e.id == id && !e.body.PostedBody? && !e.body.LaggedBody? && e.body.at == cursor
              && ChangeDue(op, filter.labels, filter.names, filter.context, e.body)
  {
    if op.UpsertNode? {
      LabelsMeet(op.labels, filter.labels);
    }
  }

  lemma LabelsMeet(nodeLabels: seq<string>, labels: Option<set<string>>)
    ensures labels.Some? ==>
              ((exists i :: 0 <= i < |nodeLabels| && nodeLabels[i] in labels.value) <==>
               (exists l :: l in nodeLabels && l in labels.value))
  {
    if labels.Some? && exists l :: l in nodeLabels && l in labels.value {
      var l :| l in nodeLabels && l in labels.value;
      var i :| 0 <= i < |nodeLabels| && nodeLabels[i] == l;
    }
  }

  lemma ItemShown(log: seq<Op>, history: seq<Posted>, c: nat, s: nat, filter: Filter, i: nat, e: Event)
    requires c <= |log| && s <= |history| && Closed(log, history) && Ordered(history) && Numbered(history)
    requires i < |Merge(log, history, c, s)| && e in Shown(Merge(log, history, c, s)[i], filter)
    ensures Due(log, history, c, s, filter, e)
  {
    hide ChangeDue, EventFor, Position, Path, Closed;
    var m := Merge(log, history, c, s);
    MergeIsPath(log, history, c, s);
    PathCounts(m, log, history, c, s, |log|, |history|, i);
    if m[i].what.Change? {
      ChangeAt(log, history, c, s, i);
      NumberOfChange(history, s, m[i].cursor, m[i].num);
      ChangeShown(m[i].what.op, m[i].cursor, Position(m[i].cursor, m[i].num), filter, e);
    } else {
      NamedAt(log, history, c, s, i);
      assert history[m[i].num - 1].num == m[i].num;
    }
  }

  lemma ChangeSent(log: seq<Op>, history: seq<Posted>, c: nat, s: nat, filter: Filter, e: Event)
    requires c <= |log| && s <= |history| && Closed(log, history) && Ordered(history)
    requires Due(log, history, c, s, filter, e) && !e.body.PostedBody?
    ensures exists i :: 0 <= i < |Merge(log, history, c, s)| && e in Shown(Merge(log, history, c, s)[i], filter)
  {
    hide ChangeDue, EventFor, Position, Path, Closed;
    var m, at := Merge(log, history, c, s), e.body.at;
    MergeIsPath(log, history, c, s);
    var i := PathHasChange(m, log, history, c, s, |log|, |history|, at);
    PathCounts(m, log, history, c, s, |log|, |history|, i);
    ChangeAt(log, history, c, s, i);
    NumberOfChange(history, s, at, m[i].num);
    ChangeShown(log[at - 1], at, Position(at, m[i].num), filter, e);
    assert e in Shown(m[i], filter);
  }

  lemma NamedSent(log: seq<Op>, history: seq<Posted>, c: nat, s: nat, filter: Filter, e: Event)
    requires c <= |log| && s <= |history| && Closed(log, history) && Ordered(history)
    requires Due(log, history, c, s, filter, e) && e.body.PostedBody?
    ensures exists i :: 0 <= i < |Merge(log, history, c, s)| && e in Shown(Merge(log, history, c, s)[i], filter)
  {
    hide EventFor, Position, Path, Closed;
    var m := Merge(log, history, c, s);
    var j :| s <= j < |history| && history[j] == Posted(j + 1, e.body.at, e.body.name, e.body.payload)
             && e.id == Position(Max(c, e.body.at), j + 1);
    MergeIsPath(log, history, c, s);
    var i := PathHasNamed(m, log, history, c, s, |log|, |history|, j + 1);
    NamedAt(log, history, c, s, i);
    assert e in Shown(m[i], filter);
  }

  /** What is queued is exactly what is due: every change and every named event after the
      position that was asked for and may be seen, under its own id, and nothing else. */
  lemma SentExactly(log: seq<Op>, history: seq<Posted>, c: nat, s: nat, filter: Filter, e: Event)
    requires c <= |log| && s <= |history| && Closed(log, history) && Ordered(history) && Numbered(history)
    ensures e in ShownAll(Merge(log, history, c, s), filter) <==> Due(log, history, c, s, filter, e)
  {
    AmongShown(Merge(log, history, c, s), filter, e);
    hide ShownAll, Shown, Merge, Due, Closed, Ordered, Numbered;
    if i :| 0 <= i < |Merge(log, history, c, s)| && e in Shown(Merge(log, history, c, s)[i], filter) {
      ItemShown(log, history, c, s, filter, i, e);
    } else if Due(log, history, c, s, filter, e) {
      if e.body.PostedBody? {
        NamedSent(log, history, c, s, filter, e);
      } else {
        ChangeSent(log, history, c, s, filter, e);
      }
    }
  }

  /** A subscriber is never sent a node or a relationship its privileges deny. */
  lemma NeverSentDenied(log: seq<Op>, history: seq<Posted>, c: nat, s: nat, filter: Filter, e: Event)
    requires c <= |log| && s <= |history| && Closed(log, history) && Ordered(history) && Numbered(history)
    requires filter.context.Some? && e in ShownAll(Merge(log, history, c, s), filter)
    ensures e.body.NodeUpserted? ==> filter.context.value.node(e.body.labels)
    ensures e.body.RelationshipUpserted? ==> filter.context.value.relationship(e.body.kind)
  {
    SentExactly(log, history, c, s, filter, e);
    hide ShownAll, Merge;
  }
}
