/** Backfilling embeddings (`semantic_reindex`, `semantic_pending_count` and `node_text`,
    `src/native_service.rs`): resumable passes over the nodes of a label. */
module Reindex {
  import opened Prelude

  datatype Value = Text(s: string) | List(items: seq<Value>) | Other

  datatype Node = Node(kind: string, title: string, body: string, properties: map<string, Value>)

  const SYNTHETIC: string := "__cypher__:"

  /** What to embed, and where. */
  datatype Target = Target(ofLabel: string, text: string, embedding: string)

  /** The server's embedder; a failure is `None`. */
  type Embedder = string -> Option<Value>

  datatype Report = Report(scanned: nat, embedded: nat, skipped: nat, remaining: nat)

  predicate StartsWith(s: string, prefix: string) {
    |prefix| <= |s| && s[..|prefix|] == prefix
  }

  /** The primary kind, or a secondary label. */
  predicate Matches(n: Node, t: Target) {
    || n.kind == t.ofLabel
    || ("_labels" in n.properties && n.properties["_labels"].List?
        && Text(t.ofLabel) in n.properties["_labels"].items)
  }

  /** All labels of a node. */
  ghost function LabelsOf(n: Node): set<string> {
    {n.kind}
    + (if "_labels" in n.properties && n.properties["_labels"].List? then
         set v | v in n.properties["_labels"].items && v.Text? :: v.s
       else {})
  }

  /** A node matches exactly if the label is one of its labels. */
  lemma MatchesByLabel(n: Node, t: Target)
    ensures Matches(n, t) <==> t.ofLabel in LabelsOf(n)
  {
    if "_labels" in n.properties && n.properties["_labels"].List? {
      var items := n.properties["_labels"].items;
      assert Text(t.ofLabel) in items <==> t.ofLabel in set v | v in items && v.Text? :: v.s by {
        if Text(t.ofLabel) in items {
          assert Text(t.ofLabel).s == t.ofLabel;
        }
      }
    }
  }

  /** `node_text`: the string property, else the node's own title or body; never empty, never
      a placeholder title. */
  function NodeText(n: Node, name: string): (r: Option<string>)
    ensures r.Some? ==> r.value != ""
    ensures name in n.properties ==>
              (r.Some? <==> n.properties[name].Text? && n.properties[name].s != "")
    ensures r.Some? ==>
              || (name in n.properties && n.properties[name] == Text(r.value))
              || (name !in n.properties && name == "title" && r.value == n.title
                  && !StartsWith(n.title, SYNTHETIC))
              || (name !in n.properties && name == "body" && r.value == n.body)
    ensures name == "title" && name !in n.properties ==>
              (r.None? <==> n.title == "" || StartsWith(n.title, SYNTHETIC))
    ensures name == "body" && name !in n.properties ==> (r.None? <==> n.body == "")
  {
    var text :=
      if name in n.properties then
        (if n.properties[name].Text? then Some(n.properties[name].s) else None)
      else if name == "title" && !StartsWith(n.title, SYNTHETIC) then Some(n.title)
      else if name == "body" then Some(n.body)
      else None;
    if text.Some? && text.value != "" then text else None
  }

  /** A node with text and no embedding. */
  predicate Pending(n: Node, t: Target) {
    Matches(n, t) && NodeText(n, t.text).Some? && t.embedding !in n.properties
  }

  function Embedded(n: Node, t: Target, vector: Value): Node {
    n.(properties := n.properties[t.embedding := vector])
  }

  function CountPending(nodes: seq<Node>, t: Target): nat {
    if nodes == [] then 0
    else CountPending(nodes[..|nodes| - 1], t) + (if Pending(nodes[|nodes| - 1], t) then 1 else 0)
  }

  function CountMatching(nodes: seq<Node>, t: Target): nat {
    if nodes == [] then 0
    else CountMatching(nodes[..|nodes| - 1], t) + (if Matches(nodes[|nodes| - 1], t) then 1 else 0)
  }

  /** `semantic_pending_count`. */
  method PendingCount(nodes: seq<Node>, t: Target) returns (pending: nat)
    ensures pending == CountPending(nodes, t)
  {
    pending := 0;
    var i := 0;
    while i < |nodes|
      invariant 0 <= i <= |nodes| && pending == CountPending(nodes[..i], t)
    {
      assert nodes[..i + 1][..i] == nodes[..i];
      if Pending(nodes[i], t) {
        pending := pending + 1;
      }
      i := i + 1;
    }
    assert nodes[..i] == nodes;
  }

  /** The embedder has a vector for every text. */
  ghost predicate NeverFails(embedder: Option<Embedder>) {
    embedder.Some? && forall text :: embedder.value(text).Some?
  }

  /** An embedding takes a node off the backlog, whatever property it is stored in. */
  lemma EmbeddedNotPending(n: Node, t: Target, vector: Value)
    ensures !Pending(Embedded(n, t, vector), t)
  {
  }

  lemma PendingMatches(n: Node, t: Target)
    ensures Pending(n, t) ==> Matches(n, t)
  {
  }

  lemma CountOne(nodes: seq<Node>, next: Node, t: Target)
    ensures CountPending(nodes + [next], t) == CountPending(nodes, t) + (if Pending(next, t) then 1 else 0)
    ensures CountMatching(nodes + [next], t) == CountMatching(nodes, t) + (if Matches(next, t) then 1 else 0)
  {
    assert (nodes + [next])[..|nodes|] == nodes;
  }

  /** One node of a pass, with `budget` embeddings left: the node after it. */
  function Visited(n: Node, t: Target, embedder: Option<Embedder>, budget: nat): Node {
    if !Pending(n, t) || budget == 0 || embedder.None? then n
    else
      match embedder.value(NodeText(n, t.text).value)
      case Some(vector) => Embedded(n, t, vector)
      case None => n
  }

  /** The nodes after a pass. */
  function Pass(nodes: seq<Node>, t: Target, embedder: Option<Embedder>, batch: nat): seq<Node> {
    if nodes == [] then []
    else
      var front := Pass(nodes[..|nodes| - 1], t, embedder, batch);
      var spent := CountPending(nodes[..|nodes| - 1], t) - CountPending(front, t);
      front + [Visited(nodes[|nodes| - 1], t, embedder, if batch >= spent >= 0 then batch - spent else 0)]
  }

  lemma {:induction false} PassCounts(nodes: seq<Node>, t: Target, embedder: Option<Embedder>, batch: nat)
    ensures |Pass(nodes, t, embedder, batch)| == |nodes|
    ensures var spent := CountPending(nodes, t) - CountPending(Pass(nodes, t, embedder, batch), t);
            && 0 <= spent <= batch
            && (NeverFails(embedder) ==> spent == Min(batch, CountPending(nodes, t)))
  {
    if nodes != [] {
      var front, last := nodes[..|nodes| - 1], nodes[|nodes| - 1];
      PassCounts(front, t, embedder, batch);
      var done := Pass(front, t, embedder, batch);
      var budget := batch - (CountPending(front, t) - CountPending(done, t));
      CountOne(done, Visited(last, t, embedder, budget), t);
    }
  }

  lemma PassNext(nodes: seq<Node>, next: Node, t: Target, embedder: Option<Embedder>, batch: nat, budget: nat)
    requires var spent := CountPending(nodes, t) - CountPending(Pass(nodes, t, embedder, batch), t);
             budget == batch - spent && spent >= 0
    ensures Pass(nodes + [next], t, embedder, batch)
         == Pass(nodes, t, embedder, batch) + [Visited(next, t, embedder, budget)]
  {
    hide Visited, CountPending;
    assert (nodes + [next])[..|nodes|] == nodes;
  }

  /** `after` is `n` with the embedder's vector for its text. */
  predicate HasItsVector(n: Node, after: Node, t: Target, embedder: Option<Embedder>) {
    && Pending(n, t) && embedder.Some?
    && var vector := embedder.value(NodeText(n, t.text).value);
    && vector.Some? && after == n.(properties := n.properties[t.embedding := vector.value])
  }

  lemma VisitedOnlyEmbeds(n: Node, t: Target, embedder: Option<Embedder>, budget: nat)
    ensures var after := Visited(n, t, embedder, budget);
            after == n || HasItsVector(n, after, t, embedder)
  {
  }

  /** A pass changes nodes only by adding the embedder's vector for their text, and only
      pending ones. */
  lemma {:induction false} PassOnlyEmbeds(nodes: seq<Node>, t: Target, embedder: Option<Embedder>, batch: nat, i: nat)
    requires i < |nodes|
    ensures |Pass(nodes, t, embedder, batch)| == |nodes|
    ensures var n, after := nodes[i], Pass(nodes, t, embedder, batch)[i];
            after == n || HasItsVector(n, after, t, embedder)
    decreases |nodes|
  {
    hide Visited, CountPending, HasItsVector;
    PassCounts(nodes, t, embedder, batch);
    var front, last := nodes[..|nodes| - 1], nodes[|nodes| - 1];
    PassCounts(front, t, embedder, batch);
    var budget := batch - (CountPending(front, t) - CountPending(Pass(front, t, embedder, batch), t));
    PassNext(front, last, t, embedder, batch, budget);
    assert nodes == front + [last];
    if i < |nodes| - 1 {
      PassOnlyEmbeds(front, t, embedder, batch, i);
    } else {
      VisitedOnlyEmbeds(last, t, embedder, budget);
    }
  }

  /** One node of a pass: the node after it, and how it counts. */
  method Visit(n: Node, t: Target, embedder: Option<Embedder>, budget: nat, r: Report)
    returns (after: Node, r': Report, left: nat)
    ensures after == Visited(n, t, embedder, budget)
    ensures r'.scanned == r.scanned + (if Matches(n, t) then 1 else 0)
    ensures r'.remaining == r.remaining + (if Pending(after, t) then 1 else 0)
    ensures r'.embedded == r.embedded + (if Pending(n, t) && !Pending(after, t) then 1 else 0)
    ensures r'.skipped == r.skipped + (if Matches(n, t) && !Pending(n, t) then 1 else 0)
    ensures left + r'.embedded == budget + r.embedded
    ensures !Pending(n, t) ==> after == n
  {
    after, r', left := n, r, budget;
    if !Matches(n, t) {
      return;
    }
    r' := r'.(scanned := r.scanned + 1);
    var text := NodeText(n, t.text);
    if text.None? || t.embedding in n.properties {
      r' := r'.(skipped := r.skipped + 1);
    } else if budget == 0 || embedder.None? {
      r' := r'.(remaining := r.remaining + 1);
    } else {
      var vector := embedder.value(text.value);
      if vector.None? {
        r' := r'.(remaining := r.remaining + 1);
      } else {
        EmbeddedNotPending(n, t, vector.value);
        after := Embedded(n, t, vector.value);
        r' := r'.(embedded := r.embedded + 1);
        left := budget - 1;
      }
    }
  }

  /** Where a pass is after the nodes `front`, which are now `done`. */
  ghost predicate Progress(front: seq<Node>, done: seq<Node>, t: Target, embedder: Option<Embedder>,
                           batch: nat, r: Report, budget: nat) {
    && done == Pass(front, t, embedder, batch)
    && r.scanned == CountMatching(front, t) == r.embedded + r.skipped + r.remaining
    && r.remaining == CountPending(done, t)
    && r.embedded == CountPending(front, t) - r.remaining
    && budget == batch - r.embedded
  }

  lemma ProgressStarts(t: Target, embedder: Option<Embedder>, batch: nat)
    ensures Progress([], [], t, embedder, batch, Report(0, 0, 0, 0), batch)
  {
  }

  lemma ProgressSoFar(front: seq<Node>, done: seq<Node>, t: Target, embedder: Option<Embedder>,
                      batch: nat, r: Report, budget: nat)
    requires Progress(front, done, t, embedder, batch, r, budget)
    ensures done == Pass(front, t, embedder, batch)
  {
  }

  lemma ProgressNext(front: seq<Node>, done: seq<Node>, n: Node, after: Node, t: Target,
                     embedder: Option<Embedder>, batch: nat, r: Report, budget: nat, r': Report, left: nat)
    requires Progress(front, done, t, embedder, batch, r, budget)
    requires after == Visited(n, t, embedder, budget) && (!Pending(n, t) ==> after == n)
    requires r'.scanned == r.scanned + (if Matches(n, t) then 1 else 0)
    requires r'.remaining == r.remaining + (if Pending(after, t) then 1 else 0)
    requires r'.embedded == r.embedded + (if Pending(n, t) && !Pending(after, t) then 1 else 0)
    requires r'.skipped == r.skipped + (if Matches(n, t) && !Pending(n, t) then 1 else 0)
    requires left + r'.embedded == budget + r.embedded
    ensures Progress(front + [n], done + [after], t, embedder, batch, r', left)
  {
    PendingMatches(n, t);
    hide Visited, Pending, Matches, NodeText;
    PassNext(front, n, t, embedder, batch, budget);
    CountOne(front, n, t);
    CountOne(done, after, t);
    hide Pass, CountPending, CountMatching;
  }

  lemma ProgressEnds(nodes: seq<Node>, done: seq<Node>, t: Target, embedder: Option<Embedder>,
                     batch: nat, r: Report, budget: nat)
    requires Progress(nodes, done, t, embedder, batch, r, budget)
    ensures done == Pass(nodes, t, embedder, batch) && r.embedded <= batch
    ensures r.scanned == CountMatching(nodes, t) == r.embedded + r.skipped + r.remaining
    ensures r.remaining == CountPending(done, t) && r.embedded == CountPending(nodes, t) - r.remaining
    ensures NeverFails(embedder) ==> r.embedded == Min(batch, CountPending(nodes, t))
  {
    hide NeverFails, Pass;
    PassCounts(nodes, t, embedder, batch);
  }

  class Service {
    var nodes: seq<Node>

    /** `semantic_reindex`: every node of the label is embedded, skipped or left; no more than
        the batch is embedded; what is left is what the status then counts as pending. An update
        the engine refuses ends the pass, with the embeddings made so far kept. */
    method SemanticReindex(t: Target, embedder: Option<Embedder>, batch: nat, refuses: nat -> bool)
      returns (result: Result<Report, nat>)
      modifies this
      ensures result.Ok? ==>
                var r := result.value;
                && nodes == Pass(old(nodes), t, embedder, batch)
                && r.scanned == CountMatching(old(nodes), t) == r.embedded + r.skipped + r.remaining
                && r.embedded <= batch
                && r.remaining == CountPending(nodes, t)
                && r.embedded == CountPending(old(nodes), t) - CountPending(nodes, t)
                && (NeverFails(embedder) ==> r.embedded == Min(batch, CountPending(old(nodes), t)))
      ensures result.Err? ==>
                var i := result.error;
                && i < |old(nodes)| && refuses(i) && Pending(old(nodes)[i], t)
                && nodes == Pass(old(nodes)[..i], t, embedder, batch) + old(nodes)[i..]
    {
      hide Progress, NeverFails;
      var r := Report(0, 0, 0, 0);
      var budget := batch;
      var snapshot := nodes;
      ghost var done: seq<Node> := [];
      ProgressStarts(t, embedder, batch);
      var i := 0;
      while i < |snapshot|
        invariant 0 <= i <= |snapshot| && |done| == i
        invariant nodes == done + snapshot[i..]
        invariant Progress(snapshot[..i], done, t, embedder, batch, r, budget)
      {
        var n, before := snapshot[i], r;
        ghost var had := budget;
        var after;
        after, r, budget := Visit(n, t, embedder, budget, before);
        if r.embedded > before.embedded && refuses(i) {
          ProgressSoFar(snapshot[..i], done, t, embedder, batch, before, had);
          return Err(i);
        }
        ProgressNext(snapshot[..i], done, n, after, t, embedder, batch, before, had, r, budget);
        ReplaceNext(done, snapshot, i, after);
        assert snapshot[..i + 1] == snapshot[..i] + [n];
        nodes := nodes[i := after];
        done := done + [after];
        i := i + 1;
      }
      assert snapshot[..i] == snapshot;
      assert done + [] == done;
      ProgressEnds(snapshot, done, t, embedder, batch, r, budget);
      result := Ok(r);
    }

    /** Passes until nothing is pending: with an embedder that never fails, the pending count
        over the batch size, rounded up. */
    method Backfill(t: Target, embedder: Option<Embedder>, batch: nat) returns (passes: nat)
      requires NeverFails(embedder) && batch > 0
      modifies this
      ensures CountPending(nodes, t) == 0
      ensures passes == (CountPending(old(nodes), t) + batch - 1) / batch
    {
      hide Pass, CountPending, CountMatching;
      passes := 0;
      var remaining := PendingCount(nodes, t);
      ghost var all := remaining;
      while remaining > 0
        invariant remaining == CountPending(nodes, t)
        invariant passes + (remaining + batch - 1) / batch == (all + batch - 1) / batch
        decreases remaining
      {
        var r := SemanticReindex(t, embedder, batch, _ => false);
        OnePassLess(remaining, batch);
        passes := passes + 1;
        remaining := r.value.remaining;
      }
    }
  }

  lemma ReplaceNext(done: seq<Node>, snapshot: seq<Node>, i: nat, after: Node)
    requires i < |snapshot| && |done| == i
    ensures (done + snapshot[i..])[i := after] == done + [after] + snapshot[i + 1..]
  {
  }

  lemma OnePassLess(remaining: nat, batch: nat)
    requires remaining > 0 && batch > 0
    ensures (remaining - Min(batch, remaining) + batch - 1) / batch + 1 == (remaining + batch - 1) / batch
  {
    if remaining <= batch {
      assert (remaining + batch - 1) / batch == 1 by {
        QuotientIs(remaining + batch - 1, batch, 1);
      }
      QuotientIs(batch - 1, batch, 0);
    } else {
      var q := (remaining - 1) / batch;
      assert remaining - 1 == q * batch + (remaining - 1) % batch;
      QuotientIs(remaining + batch - 1, batch, q + 1);
      QuotientIs(remaining - 1, batch, q);
    }
  }

  lemma QuotientIs(n: nat, d: nat, q: nat)
    requires d > 0 && q * d <= n < q * d + d
    ensures n / d == q
  {
    assert n == n / d * d + n % d;
    Multiples(n / d, q, d);
    Multiples(q, n / d, d);
  }

  lemma {:induction false} Multiples(a: nat, b: nat, d: nat)
    ensures a < b ==> a * d + d <= b * d
    decreases b
  {
    if a < b {
      assert b * d == (b - 1) * d + d;
      Multiples(a, b - 1, d);
    }
  }
}
