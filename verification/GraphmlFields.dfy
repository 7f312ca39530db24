/** What becomes of the `<data>` of a node or an edge (`graphml_records`, `merge_properties` and
    `fold_unknown_property`, `src/dump.rs`), said value by value: whichever was given last. */
module GraphmlFields {
  import opened Prelude
  import opened Text
  import opened Replay
  import opened XmlText
  import opened XmlReader
  import opened GraphmlImport

  const NODE_FIELDS: set<string> := {"uuid", "kind", "title", "body", "body_html", "created_at", "updated_at"}
  const EDGE_FIELDS: set<string> := {"uuid", "kind", "weight", "created_at"}

  /** The JSON a value spells, or the value as a string. */
  function JsonOf(codec: Codec, value: string): Json {
    match codec.parseJson(value)
    case Some(j) => j
    case None => codec.jsonString(value)
  }

  /** What one datum gives for property `key`, where `fields` have a place of their own. */
  function Gives(codec: Codec, fields: set<string>, d: Datum, key: string): Option<Json> {
    if d.name in fields then None
    else if d.name != "properties" then (if d.name == key then Some(JsonOf(codec, d.value)) else None)
    else
      match codec.parseProps(d.value)
      case Some(given) => if key in given then Some(given[key]) else None
      case None => if key == "properties" then Some(codec.jsonString(d.value)) else None
  }

  /** What is given last for property `key`. */
  function LastGiven(codec: Codec, fields: set<string>, data: seq<Datum>, key: string): Option<Json>
    decreases |data|
  {
    if data == [] then None
    else
      var later := LastGiven(codec, fields, data[1..], key);
      if later.Some? then later else Gives(codec, fields, data[0], key)
  }

  lemma NodeFieldGives(codec: Codec, d: Draft, datum: Datum, key: string)
    ensures var given := Gives(codec, NODE_FIELDS, datum, key);
            Get(SetNodeField(codec, d, datum).properties, key)
            == if given.Some? then given else Get(d.properties, key)
  {
    hide ParseI64;
  }

  lemma EdgeFieldGives(codec: Codec, d: Draft, datum: Datum, key: string)
    ensures var given := Gives(codec, EDGE_FIELDS, datum, key);
            Get(SetEdgeField(codec, d, datum).properties, key)
            == if given.Some? then given else Get(d.properties, key)
  {
    hide ParseI64;
  }

  lemma {:induction false} NodeProperty(codec: Codec, d: Draft, data: seq<Datum>, key: string)
    ensures var given := LastGiven(codec, NODE_FIELDS, data, key);
            Get(NodeDraft(codec, d, data).properties, key)
            == if given.Some? then given else Get(d.properties, key)
    decreases |data|
  {
    if data != [] {
      NodeFieldGives(codec, d, data[0], key);
      hide SetNodeField, Gives;
      NodeProperty(codec, SetNodeField(codec, d, data[0]), data[1..], key);
    }
  }

  lemma {:induction false} EdgeProperty(codec: Codec, d: Draft, data: seq<Datum>, key: string)
    ensures var given := LastGiven(codec, EDGE_FIELDS, data, key);
            Get(EdgeDraft(codec, d, data).properties, key)
            == if given.Some? then given else Get(d.properties, key)
    decreases |data|
  {
    if data != [] {
      EdgeFieldGives(codec, d, data[0], key);
      hide SetEdgeField, Gives;
      EdgeProperty(codec, SetEdgeField(codec, d, data[0]), data[1..], key);
    }
  }

  /** The properties of an imported node are exactly what its data give, each key the last
      time: nothing is lost and nothing is added. */
  lemma ImportedNodeProperties(codec: Codec, defaults: Defaults, raw: Raw, dbMaxNode: nat, dbMaxEdge: nat,
                               i: nat, key: string)
    requires RecordsOfRaw(codec, defaults, raw, dbMaxNode, dbMaxEdge).Ok? && i < |raw.nodes|
    ensures var nodes := RecordsOfRaw(codec, defaults, raw, dbMaxNode, dbMaxEdge).value.0;
            && |nodes| == |raw.nodes|
            && Get(nodes[i].properties, key) == LastGiven(codec, NODE_FIELDS, raw.nodes[i].data, key)
  {
    NodeProperty(codec, EMPTY_DRAFT, raw.nodes[i].data, key);
    hide NodeDraft, LastGiven, NodeIds, MakeEdges;
  }

  /** An attribute a program of its own gave, not overridden later, is kept. */
  lemma {:induction false} ForeignAttributeKept(codec: Codec, fields: set<string>, data: seq<Datum>, j: nat)
    requires j < |data| && data[j].name !in fields && data[j].name != "properties"
    requires forall k :: j < k < |data| ==> Gives(codec, fields, data[k], data[j].name).None?
    ensures LastGiven(codec, fields, data, data[j].name) == Some(JsonOf(codec, data[j].value))
    decreases |data|
  {
    if j > 0 {
      assert data[1..][j - 1] == data[j];
      assert forall k :: j - 1 < k < |data| - 1 ==> data[1..][k] == data[k + 1];
      ForeignAttributeKept(codec, fields, data[1..], j - 1);
    } else {
      NothingLater(codec, fields, data[1..], data[0].name);
    }
  }

  lemma {:induction false} NothingLater(codec: Codec, fields: set<string>, data: seq<Datum>, key: string)
    requires forall k :: 0 <= k < |data| ==> Gives(codec, fields, data[k], key).None?
    ensures LastGiven(codec, fields, data, key).None?
    decreases |data|
  {
    hide Gives;
    if data != [] {
      assert forall k :: 0 <= k < |data| - 1 ==> data[1..][k] == data[k + 1];
      NothingLater(codec, fields, data[1..], key);
    }
  }

  // ----- edges ------------------------------------------------------------------------------------

  lemma EdgeFieldSet(codec: Codec, d: Draft, datum: Datum)
    ensures var r := SetEdgeField(codec, d, datum);
            && r.kind == (if datum.name == "kind" then datum.value else d.kind)
            && r.weight == (if datum.name == "weight" then Some(codec.parseWeight(datum.value)) else d.weight)
            && r.uuid == (if datum.name == "uuid" then codec.parseUuid(datum.value) else d.uuid)
            && r.createdAt == (if datum.name == "created_at" then ParseI64(datum.value) else d.createdAt)
  {
    hide ParseI64, MergeProperties, FoldUnknown;
  }

  function WeightOf(codec: Codec, value: Option<string>, otherwise: Option<Weight>): Option<Weight> {
    if value.Some? then Some(codec.parseWeight(value.value)) else otherwise
  }

  lemma {:induction false} EdgeLastValues(codec: Codec, d: Draft, data: seq<Datum>)
    ensures var r := EdgeDraft(codec, d, data);
            && r.kind == OrElse(LastValue(data, "kind"), d.kind)
            && r.weight == WeightOf(codec, LastValue(data, "weight"), d.weight)
            && r.uuid == Read(LastValue(data, "uuid"), codec.parseUuid, d.uuid)
            && r.createdAt == Read(LastValue(data, "created_at"), ParseI64, d.createdAt)
    decreases |data|
  {
    hide ParseI64;
    if data != [] {
      EdgeFieldSet(codec, d, data[0]);
      hide SetEdgeField;
      EdgeLastValues(codec, SetEdgeField(codec, d, data[0]), data[1..]);
    }
  }

  lemma {:induction false} EdgesBuilt(codec: Codec, defaults: Defaults, raws: seq<RawEdge>, ids: map<string, nat>, base: nat)
    requires MakeEdges(codec, defaults, raws, ids, base).Ok?
    ensures var edges := MakeEdges(codec, defaults, raws, ids, base).value.0;
            && |edges| == |raws|
            && forall k :: 0 <= k < |edges| ==>
                 edges[k] == MakeEdge(codec, defaults, k, edges[k].id, edges[k].from, edges[k].to, raws[k].data)
    decreases |raws|
  {
    hide Preserved, EdgeDraft, OrElse;
    if raws != [] {
      EdgesBuilt(codec, defaults, raws[..|raws| - 1], ids, base);
    }
  }

  /** Edge `k` of the import has its fields from the last value given for each, and as its
      properties exactly what its data give. */
  lemma ImportedEdgeFields(codec: Codec, defaults: Defaults, raw: Raw, dbMaxNode: nat, dbMaxEdge: nat,
                           k: nat, key: string)
    requires RecordsOfRaw(codec, defaults, raw, dbMaxNode, dbMaxEdge).Ok? && k < |raw.edges|
    ensures var edges := RecordsOfRaw(codec, defaults, raw, dbMaxNode, dbMaxEdge).value.1;
            var data := raw.edges[k].data;
            && |edges| == |raw.edges|
            && edges[k].kind == OrElse(LastValue(data, "kind"), "")
            && edges[k].weight == OrElse(WeightOf(codec, LastValue(data, "weight"), None), codec.unitWeight)
            && edges[k].uuid == OrElse(Read(LastValue(data, "uuid"), codec.parseUuid, None), defaults.uuid(k))
            && edges[k].createdAt == OrElse(Read(LastValue(data, "created_at"), ParseI64, None), defaults.now)
            && Get(edges[k].properties, key) == LastGiven(codec, EDGE_FIELDS, data, key)
  {
    var ids := NodeIds(raw.nodes, dbMaxNode);
    EdgesBuilt(codec, defaults, raw.edges, ids, EdgeBase(raw.edges, dbMaxEdge));
    EdgeLastValues(codec, EMPTY_DRAFT, raw.edges[k].data);
    EdgeProperty(codec, EMPTY_DRAFT, raw.edges[k].data, key);
    hide EdgeDraft, LastGiven, LastValue, NodeIds, MakeEdges, ParseI64;
  }

  // ----- from the document to the data ---------------------------------------------------------------

  /** The first attribute of a name is the one that counts. */
  lemma {:induction false} FirstAttrCounts(attrs: seq<Attr>, key: string, j: nat)
    requires j <= |attrs| && forall i :: 0 <= i < j ==> attrs[i].name != key
    requires j < |attrs| ==> attrs[j].name == key
    ensures AttrOf(attrs, key) == if j < |attrs| then Some(attrs[j].value) else None
    decreases |attrs|
  {
    if j > 0 {
      assert forall i :: 0 <= i < j - 1 ==> attrs[1..][i] == attrs[i + 1];
      FirstAttrCounts(attrs[1..], key, j - 1);
    }
  }

  /** A `<key>` that declares a name for `id`. */
  predicate Declares(e: Element, id: string) {
    e.name == "key" && AttrOf(e.attrs, "id") == Some(id) && AttrOf(e.attrs, "attr.name").Some?
  }

  /** The last declaration of a key id gives its name; an id not declared has none. */
  lemma {:induction false} LastDeclarationCounts(elements: seq<Element>, id: string, j: int)
    requires -1 <= j < |elements| && forall i :: j < i < |elements| ==> !Declares(elements[i], id)
    requires j >= 0 ==> Declares(elements[j], id)
    ensures Get(KeyMap(elements), id)
         == if j >= 0 then AttrOf(elements[j].attrs, "attr.name") else None
    decreases |elements|
  {
    hide AttrOf;
    if elements != [] && j < |elements| - 1 {
      assert !Declares(elements[|elements| - 1], id);
      LastDeclarationCounts(elements[..|elements| - 1], id, j);
    }
  }

  /** A child that gives a datum. */
  predicate IsDatum(e: Element) {
    e.name == "data" && AttrOf(e.attrs, "key").Some?
  }

  predicate IsNodeElement(e: Element) {
    e.name == "node"
  }

  predicate IsEdgeElement(e: Element) {
    e.name == "edge"
  }

  /** How many of the first `n` elements are `p`. */
  function Before(s: seq<Element>, p: Element -> bool, n: nat): nat
    requires n <= |s|
  {
    if n == 0 then 0 else Before(s, p, n - 1) + (if p(s[n - 1]) then 1 else 0)
  }

  lemma {:induction false} BeforeFirst(s: seq<Element>, p: Element -> bool, n: nat)
    requires 0 < n <= |s|
    ensures Before(s, p, n) == (if p(s[0]) then 1 else 0) + Before(s[1..], p, n - 1)
    decreases n
  {
    if n > 1 {
      BeforeFirst(s, p, n - 1);
      assert s[1..][n - 2] == s[n - 1];
    }
  }

  /** Every `<data>` with a key is collected, in order, under its declared name or its key. */
  lemma {:induction false} EveryDatumCollected(children: seq<Element>, keys: map<string, string>, j: nat)
    requires j <= |children|
    ensures |CollectData(children, keys)| == Before(children, IsDatum, |children|)
    ensures j < |children| && IsDatum(children[j]) ==>
              var r, key := Before(children, IsDatum, j), AttrOf(children[j].attrs, "key").value;
              && r < |CollectData(children, keys)|
              && CollectData(children, keys)[r]
                 == Datum(if key in keys then keys[key] else key, children[j].text)
    decreases |children|
  {
    hide AttrOf;
    if children != [] {
      BeforeFirst(children, IsDatum, |children|);
      if j > 0 {
        BeforeFirst(children, IsDatum, j);
        EveryDatumCollected(children[1..], keys, j - 1);
      } else {
        EveryDatumCollected(children[1..], keys, 0);
      }
    }
  }

  /** Every `<node>` and `<edge>` of the graph is collected, in order, with its data. */
  lemma {:induction false} EveryRecordCollected(children: seq<Element>, keys: map<string, string>, j: nat)
    requires CollectRaw(children, keys).Ok? && j < |children|
    ensures var raw := CollectRaw(children, keys).value;
            && |raw.nodes| == Before(children, IsNodeElement, |children|)
            && |raw.edges| == Before(children, IsEdgeElement, |children|)
            && (IsNodeElement(children[j]) ==>
                  var r := Before(children, IsNodeElement, j);
                  && AttrOf(children[j].attrs, "id").Some? && r < |raw.nodes|
                  && raw.nodes[r] == RawNode(AttrOf(children[j].attrs, "id").value, CollectData(children[j].children, keys)))
            && (IsEdgeElement(children[j]) ==>
                  var r, attrs := Before(children, IsEdgeElement, j), children[j].attrs;
                  && AttrOf(attrs, "source").Some? && AttrOf(attrs, "target").Some? && r < |raw.edges|
                  && raw.edges[r] == RawEdge(AttrOf(attrs, "id"), AttrOf(attrs, "source").value,
                                             AttrOf(attrs, "target").value, CollectData(children[j].children, keys)))
    decreases |children|
  {
    hide AttrOf, CollectData;
    var n := |children| - 1;
    var front := children[..n];
    SameBefore(front, children, IsNodeElement, n);
    SameBefore(front, children, IsEdgeElement, n);
    if n == 0 {
      assert CollectRaw(front, keys) == Ok(Raw([], []));
    } else if j < n {
      EveryRecordCollected(front, keys, j);
      SameBefore(front, children, IsNodeElement, j);
      SameBefore(front, children, IsEdgeElement, j);
    } else {
      EveryRecordCollected(front, keys, 0);
    }
  }

  lemma {:induction false} SameBefore(front: seq<Element>, s: seq<Element>, p: Element -> bool, n: nat)
    requires n <= |front| <= |s| && front == s[..|front|]
    ensures Before(front, p, n) == Before(s, p, n)
    decreases n
  {
    if n > 0 {
      SameBefore(front, s, p, n - 1);
    }
  }

  // ----- what is refused ---------------------------------------------------------------------------------

  /** Every `<node>` has an id and every `<edge>` both ends. */
  ghost predicate Complete(e: Element) {
    && (IsNodeElement(e) ==> AttrOf(e.attrs, "id").Some?)
    && (IsEdgeElement(e) ==> AttrOf(e.attrs, "source").Some? && AttrOf(e.attrs, "target").Some?)
  }

  lemma {:induction false} CollectedIffComplete(children: seq<Element>, keys: map<string, string>)
    ensures CollectRaw(children, keys).Ok? <==> forall i :: 0 <= i < |children| ==> Complete(children[i])
    decreases |children|
  {
    hide AttrOf, CollectData;
    if children != [] {
      CollectedIffComplete(children[..|children| - 1], keys);
    }
  }

  /** The import of a graph succeeds exactly if every edge joins declared nodes. */
  lemma {:induction false} EdgesIffDeclared(codec: Codec, defaults: Defaults, raws: seq<RawEdge>, ids: map<string, nat>, base: nat)
    ensures MakeEdges(codec, defaults, raws, ids, base).Ok? <==>
              forall k :: 0 <= k < |raws| ==> raws[k].source in ids && raws[k].target in ids
    decreases |raws|
  {
    hide MakeEdge, Preserved;
    if raws != [] {
      EdgesIffDeclared(codec, defaults, raws[..|raws| - 1], ids, base);
    }
  }

  lemma ImportedIffDeclared(codec: Codec, defaults: Defaults, raw: Raw, dbMaxNode: nat, dbMaxEdge: nat)
    ensures RecordsOfRaw(codec, defaults, raw, dbMaxNode, dbMaxEdge).Ok? <==>
              forall k :: 0 <= k < |raw.edges| ==>
                && (exists i :: 0 <= i < |raw.nodes| && raw.nodes[i].raw == raw.edges[k].source)
                && (exists i :: 0 <= i < |raw.nodes| && raw.nodes[i].raw == raw.edges[k].target)
  {
    var ids := NodeIds(raw.nodes, dbMaxNode);
    EdgesIffDeclared(codec, defaults, raw.edges, ids, EdgeBase(raw.edges, dbMaxEdge));
    forall r: string
      ensures r in ids <==> exists i :: 0 <= i < |raw.nodes| && raw.nodes[i].raw == r
    {
      if r in ids {
        var i := DeclaredIsNode(raw.nodes, dbMaxNode, r);
      }
    }
    hide NodeIds, MakeEdges;
  }

  /** An id is preserved exactly if it is the prefix and a 64-bit number in digits. */
  lemma PreservedIds(s: string, prefix: char)
    ensures ParsePrefixed(s, prefix).Some? <==>
              |s| > 1 && s[0] == prefix && AllDigits(s[1..]) && DigitsValue(s[1..]) < U64_LIMIT
    ensures ParsePrefixed(s, prefix).Some? ==> ParsePrefixed(s, prefix).value == DigitsValue(s[1..])
  {
  }
}
