/** Reading graph records out of a GraphML document (`graphml_records` of `src/dump.rs`):
    interpreting `<data>` by the declared key names, keeping `n<id>` and `e<id>` ids and
    allocating ids for every other node and edge.

    UUIDs, JSON and weights are values whose text forms the program takes from libraries;
    a `Codec` stands for those forms. Ids are unbounded here: the two counters are assumed
    not to overflow. */
module GraphmlImport {
  import opened Prelude
  import opened Text
  import opened XmlText
  import opened XmlReader

  type Uuid = nat
  type Json = nat
  type Weight = nat
  type Properties = map<string, Json>

  datatype Node = Node(id: nat, uuid: Uuid, kind: string, title: string, body: string, bodyHtml: string,
                       createdAt: int, updatedAt: int, properties: Properties)

  datatype Edge = Edge(id: nat, uuid: Uuid, from: nat, to: nat, kind: string, weight: Weight,
                       createdAt: int, properties: Properties)

  /** Text forms of the opaque values. */
  datatype Codec = Codec(
    printUuid: Uuid -> string,
    parseUuid: string -> Option<Uuid>,
    printProps: Properties -> string,
    parseProps: string -> Option<Properties>,   // a JSON object
    parseJson: string -> Option<Json>,          // any JSON value
    jsonString: string -> Json,
    printWeight: Weight -> string,
    parseWeight: string -> Weight,              // total: what does not parse weighs 1
    unitWeight: Weight)

  /** Values made up for what a document leaves out. */
  datatype Defaults = Defaults(uuid: nat -> Uuid, now: int)

  datatype GraphmlError =
    | BadXml(error: XmlError)
    | NoGraphml
    | NoGraph
    | NodeWithoutId
    | EdgeWithoutSource
    | EdgeWithoutTarget
    | UndeclaredNode(raw: string)

  datatype Datum = Datum(name: string, value: string)
  datatype RawNode = RawNode(raw: string, data: seq<Datum>)
  datatype RawEdge = RawEdge(raw: Option<string>, source: string, target: string, data: seq<Datum>)
  datatype Raw = Raw(nodes: seq<RawNode>, edges: seq<RawEdge>)

  // ----- elements to raw records -------------------------------------------------

  /** The value of the first attribute named `key`. */
  function AttrOf(attrs: seq<Attr>, key: string): Option<string> {
    if attrs == [] then None
    else if attrs[0].name == key then Some(attrs[0].value)
    else AttrOf(attrs[1..], key)
  }

  function FirstNamed(elements: seq<Element>, name: string): Option<Element> {
    if elements == [] then None
    else if elements[0].name == name then Some(elements[0])
    else FirstNamed(elements[1..], name)
  }

  /** The declared name of each key id; a later declaration replaces an earlier one. */
  function KeyMap(elements: seq<Element>): map<string, string> {
    if elements == [] then map[]
    else
      var e := elements[|elements| - 1];
      var m := KeyMap(elements[..|elements| - 1]);
      if e.name != "key" then m
      else match (AttrOf(e.attrs, "id"), AttrOf(e.attrs, "attr.name"))
        case (Some(id), Some(name)) => m[id := name]
        case _ => m
  }

  function CollectData(children: seq<Element>, keys: map<string, string>): seq<Datum> {
    if children == [] then []
    else
      var rest := CollectData(children[1..], keys);
      var d := children[0];
      if d.name != "data" then rest
      else match AttrOf(d.attrs, "key")
        case None => rest
        case Some(key) => [Datum(if key in keys then keys[key] else key, d.text)] + rest
  }

  /** The raw record of one child of `<graph>`; other elements are ignored. */
  function RawOf(e: Element, keys: map<string, string>): Result<Raw, GraphmlError> {
    if e.name == "node" then
      match AttrOf(e.attrs, "id")
      case None => Err(NodeWithoutId)
      case Some(raw) => Ok(Raw([RawNode(raw, CollectData(e.children, keys))], []))
    else if e.name == "edge" then
      match AttrOf(e.attrs, "source")
      case None => Err(EdgeWithoutSource)
      case Some(source) =>
        match AttrOf(e.attrs, "target")
        case None => Err(EdgeWithoutTarget)
        case Some(target) =>
          Ok(Raw([], [RawEdge(AttrOf(e.attrs, "id"), source, target, CollectData(e.children, keys))]))
    else Ok(Raw([], []))
  }

  function CollectRaw(children: seq<Element>, keys: map<string, string>): Result<Raw, GraphmlError> {
    if children == [] then Ok(Raw([], []))
    else match CollectRaw(children[..|children| - 1], keys)
      case Err(e) => Err(e)
      case Ok(before) =>
        match RawOf(children[|children| - 1], keys)
        case Err(e) => Err(e)
        case Ok(r) => Ok(Raw(before.nodes + r.nodes, before.edges + r.edges))
  }

  // ----- ids ---------------------------------------------------------------------

  /** The number of a `<prefix><u64>` id. */
  function ParsePrefixed(s: string, prefix: char): Option<nat> {
    if s == [] || s[0] != prefix then None
    else match ParseDigits(s[1..])
      case Some(v) => if v < U64_LIMIT then Some(v) else None
      case None => None
  }

  function Preserved(raw: Option<string>, prefix: char): Option<nat> {
    if raw.None? then None else ParsePrefixed(raw.value, prefix)
  }

  function MaxPreserved(raws: seq<Option<string>>, prefix: char): nat {
    if raws == [] then 0
    else match Preserved(raws[|raws| - 1], prefix)
      case Some(id) => Max(id, MaxPreserved(raws[..|raws| - 1], prefix))
      case None => MaxPreserved(raws[..|raws| - 1], prefix)
  }

  /** The id of every raw id, and the last id allocated, starting after `base`. */
  function AssignIds(raws: seq<string>, prefix: char, base: nat): (map<string, nat>, nat) {
    if raws == [] then (map[], base)
    else
      var (ids, last) := AssignIds(raws[..|raws| - 1], prefix, base);
      var raw := raws[|raws| - 1];
      match ParsePrefixed(raw, prefix)
      case Some(id) => (ids[raw := id], last)
      case None => (ids[raw := last + 1], last + 1)
  }

  function RawIds(nodes: seq<RawNode>): seq<string> {
    seq(|nodes|, i requires 0 <= i < |nodes| => nodes[i].raw)
  }

  function NodeIdTexts(nodes: seq<RawNode>): seq<Option<string>> {
    seq(|nodes|, i requires 0 <= i < |nodes| => Some(nodes[i].raw))
  }

  function EdgeIdTexts(edges: seq<RawEdge>): seq<Option<string>> {
    seq(|edges|, i requires 0 <= i < |edges| => edges[i].raw)
  }

  function NodeBase(nodes: seq<RawNode>, dbMax: nat): nat {
    Max(dbMax, MaxPreserved(NodeIdTexts(nodes), 'n'))
  }

  function EdgeBase(edges: seq<RawEdge>, dbMax: nat): nat {
    Max(dbMax, MaxPreserved(EdgeIdTexts(edges), 'e'))
  }

  /** The id of every node of the document, by its raw id. */
  function NodeIds(nodes: seq<RawNode>, dbMax: nat): (ids: map<string, nat>)
    ensures forall i :: 0 <= i < |nodes| ==> nodes[i].raw in ids
  {
    var raws, base := RawIds(nodes), NodeBase(nodes, dbMax);
    AllAssigned(raws, 'n', base);
    assert forall i :: 0 <= i < |nodes| ==> nodes[i].raw == raws[i];
    AssignIds(raws, 'n', base).0
  }

  // ----- records -----------------------------------------------------------------

  function MergeProperties(codec: Codec, properties: Properties, value: string): Properties {
    match codec.parseProps(value)
    case Some(parsed) => properties + parsed
    case None => properties["properties" := codec.jsonString(value)]
  }

  function FoldUnknown(codec: Codec, properties: Properties, name: string, value: string): Properties {
    properties[name := match codec.parseJson(value)
                       case Some(j) => j
                       case None => codec.jsonString(value)]
  }

  datatype Draft = Draft(uuid: Option<Uuid>, kind: string, title: string, body: string, bodyHtml: string,
                         weight: Option<Weight>, createdAt: Option<int>, updatedAt: Option<int>,
                         properties: Properties)

  const EMPTY_DRAFT := Draft(None, "", "", "", "", None, None, None, map[])

  function SetNodeField(codec: Codec, d: Draft, datum: Datum): Draft {
    var (name, value) := (datum.name, datum.value);
    if name == "uuid" then d.(uuid := codec.parseUuid(value))
    else if name == "kind" then d.(kind := value)
    else if name == "title" then d.(title := value)
    else if name == "body" then d.(body := value)
    else if name == "body_html" then d.(bodyHtml := value)
    else if name == "created_at" then d.(createdAt := ParseI64(value))
    else if name == "updated_at" then d.(updatedAt := ParseI64(value))
    else if name == "properties" then d.(properties := MergeProperties(codec, d.properties, value))
    else d.(properties := FoldUnknown(codec, d.properties, name, value))
  }

  function SetEdgeField(codec: Codec, d: Draft, datum: Datum): Draft {
    var (name, value) := (datum.name, datum.value);
    if name == "uuid" then d.(uuid := codec.parseUuid(value))
    else if name == "kind" then d.(kind := value)
    else if name == "weight" then d.(weight := Some(codec.parseWeight(value)))
    else if name == "created_at" then d.(createdAt := ParseI64(value))
    else if name == "properties" then d.(properties := MergeProperties(codec, d.properties, value))
    else d.(properties := FoldUnknown(codec, d.properties, name, value))
  }

  function NodeDraft(codec: Codec, d: Draft, data: seq<Datum>): Draft
    decreases |data|
  {
    if data == [] then d else NodeDraft(codec, SetNodeField(codec, d, data[0]), data[1..])
  }

  function EdgeDraft(codec: Codec, d: Draft, data: seq<Datum>): Draft
    decreases |data|
  {
    if data == [] then d else EdgeDraft(codec, SetEdgeField(codec, d, data[0]), data[1..])
  }

  function OrElse<T>(o: Option<T>, d: T): T {
    match o
    case Some(v) => v
    case None => d
  }

  function MakeNode(codec: Codec, defaults: Defaults, nth: nat, id: nat, data: seq<Datum>): Node {
    var d := NodeDraft(codec, EMPTY_DRAFT, data);
    var created := OrElse(d.createdAt, defaults.now);
    Node(id, OrElse(d.uuid, defaults.uuid(nth)), d.kind, d.title, d.body, d.bodyHtml,
         created, OrElse(d.updatedAt, created), d.properties)
  }

  function MakeEdge(codec: Codec, defaults: Defaults, nth: nat, id: nat, from: nat, to: nat, data: seq<Datum>): Edge {
    var d := EdgeDraft(codec, EMPTY_DRAFT, data);
    Edge(id, OrElse(d.uuid, defaults.uuid(nth)), from, to, d.kind, OrElse(d.weight, codec.unitWeight),
         OrElse(d.createdAt, defaults.now), d.properties)
  }

  function MakeNodes(codec: Codec, defaults: Defaults, raws: seq<RawNode>, ids: map<string, nat>): seq<Node>
    requires forall i :: 0 <= i < |raws| ==> raws[i].raw in ids
  {
    seq(|raws|, i requires 0 <= i < |raws| => MakeNode(codec, defaults, i, ids[raws[i].raw], raws[i].data))
  }

  /** The first of `raws` whose endpoints are not both declared, as the error it causes. */
  function Undeclared(raw: RawEdge, ids: map<string, nat>): Option<GraphmlError> {
    if raw.source !in ids then Some(UndeclaredNode(raw.source))
    else if raw.target !in ids then Some(UndeclaredNode(raw.target))
    else None
  }

  /** The edges of `raws` and the last id allocated, starting after `base`. */
  function MakeEdges(codec: Codec, defaults: Defaults, raws: seq<RawEdge>, ids: map<string, nat>, base: nat)
    : Result<(seq<Edge>, nat), GraphmlError>
  {
    if raws == [] then Ok(([], base))
    else match MakeEdges(codec, defaults, raws[..|raws| - 1], ids, base)
      case Err(e) => Err(e)
      case Ok((before, last)) =>
        var nth := |raws| - 1;
        var raw := raws[nth];
        if Undeclared(raw, ids).Some? then Err(Undeclared(raw, ids).value)
        else
          var kept := Preserved(raw.raw, 'e');
          var id := if kept.Some? then kept.value else last + 1;
          var edge := MakeEdge(codec, defaults, nth, id, ids[raw.source], ids[raw.target], raw.data);
          Ok((before + [edge], if kept.Some? then last else last + 1))
  }

  function RecordsOfRaw(codec: Codec, defaults: Defaults, raw: Raw, dbMaxNode: nat, dbMaxEdge: nat)
    : Result<(seq<Node>, seq<Edge>), GraphmlError>
  {
    var ids := NodeIds(raw.nodes, dbMaxNode);
    match MakeEdges(codec, defaults, raw.edges, ids, EdgeBase(raw.edges, dbMaxEdge))
    case Err(e) => Err(e)
    case Ok((edges, _)) => Ok((MakeNodes(codec, defaults, raw.nodes, ids), edges))
  }

  function RecordsOfRoots(codec: Codec, defaults: Defaults, roots: seq<Element>, dbMaxNode: nat, dbMaxEdge: nat)
    : Result<(seq<Node>, seq<Edge>), GraphmlError>
  {
    match FirstNamed(roots, "graphml")
    case None => Err(NoGraphml)
    case Some(graphml) =>
      match FirstNamed(graphml.children, "graph")
      case None => Err(NoGraph)
      case Some(graph) =>
        match CollectRaw(graph.children, KeyMap(graphml.children))
        case Err(e) => Err(e)
        case Ok(raw) => RecordsOfRaw(codec, defaults, raw, dbMaxNode, dbMaxEdge)
  }

  /** `graphml_records`. */
  function Records(codec: Codec, defaults: Defaults, xml: string, dbMaxNode: nat, dbMaxEdge: nat)
    : Result<(seq<Node>, seq<Edge>), GraphmlError>
  {
    match ParseXml(xml)
    case Err(e) => Err(BadXml(e))
    case Ok(roots) => RecordsOfRoots(codec, defaults, roots, dbMaxNode, dbMaxEdge)
  }

  // ----- what id allocation guarantees ----------------------------------------------

  lemma {:induction false} AllAssigned(raws: seq<string>, prefix: char, base: nat)
    ensures AssignIds(raws, prefix, base).0.Keys == set i | 0 <= i < |raws| :: raws[i]
    ensures AssignIds(raws, prefix, base).1 >= base
  {
    if raws != [] {
      AllAssigned(raws[..|raws| - 1], prefix, base);
    }
  }

  /** Preserved ids are kept; allocated ids lie after `base` and are distinct for distinct
      raw ids. */
  lemma {:induction false} AllocatedIds(raws: seq<string>, prefix: char, base: nat)
    ensures var (ids, last) := AssignIds(raws, prefix, base);
            && (forall r :: r in ids && ParsePrefixed(r, prefix).Some? ==>
                  ids[r] == ParsePrefixed(r, prefix).value)
            && (forall r :: r in ids && ParsePrefixed(r, prefix).None? ==> base < ids[r] <= last)
            && (forall r, q :: r in ids && q in ids && r != q
                               && ParsePrefixed(r, prefix).None? && ParsePrefixed(q, prefix).None? ==>
                  ids[r] != ids[q])
  {
    if raws != [] {
      AllocatedIds(raws[..|raws| - 1], prefix, base);
      AllAssigned(raws[..|raws| - 1], prefix, base);
    }
  }

  lemma {:induction false} MaxPreservedBounds(raws: seq<Option<string>>, prefix: char, i: nat)
    requires i < |raws| && Preserved(raws[i], prefix).Some?
    ensures Preserved(raws[i], prefix).value <= MaxPreserved(raws, prefix)
    decreases |raws|
  {
    if i < |raws| - 1 {
      MaxPreservedBounds(raws[..|raws| - 1], prefix, i);
    }
  }

  /** Node `i` of `raws` has an id of its own; the others have ids to allocate. */
  predicate IsForeign(raw: string) {
    ParsePrefixed(raw, 'n').None?
  }

  /** Node ids, for any document: preserved ids are kept, and an allocated id lies above every
      id in the store and every preserved id of the document, and differs from the ids
      allocated for other raw ids. */
  lemma ImportedIds(raws: seq<RawNode>, dbMax: nat)
    ensures var ids := NodeIds(raws, dbMax);
            && (forall i :: 0 <= i < |raws| && !IsForeign(raws[i].raw) ==>
                  ids[raws[i].raw] == ParsePrefixed(raws[i].raw, 'n').value)
            && (forall i :: 0 <= i < |raws| && IsForeign(raws[i].raw) ==> ids[raws[i].raw] > dbMax)
            && (forall i, j :: 0 <= i < |raws| && 0 <= j < |raws|
                               && IsForeign(raws[i].raw) && !IsForeign(raws[j].raw) ==>
                  ids[raws[i].raw] > ids[raws[j].raw])
            && (forall i, j :: 0 <= i < |raws| && 0 <= j < |raws| && raws[i].raw != raws[j].raw
                               && IsForeign(raws[i].raw) && IsForeign(raws[j].raw) ==>
                  ids[raws[i].raw] != ids[raws[j].raw])
  {
    var base := NodeBase(raws, dbMax);
    AllocatedIds(RawIds(raws), 'n', base);
    forall j | 0 <= j < |raws| && !IsForeign(raws[j].raw)
      ensures ParsePrefixed(raws[j].raw, 'n').value <= base
    {
      assert NodeIdTexts(raws)[j] == Some(raws[j].raw);
      MaxPreservedBounds(NodeIdTexts(raws), 'n', j);
    }
  }

  /** The last value given for `name`. */
  function LastValue(data: seq<Datum>, name: string): Option<string>
    decreases |data|
  {
    if data == [] then None
    else
      var later := LastValue(data[1..], name);
      if later.Some? then later else if data[0].name == name then Some(data[0].value) else None
  }

  function Read<T>(value: Option<string>, read: string -> Option<T>, otherwise: Option<T>): Option<T> {
    if value.Some? then read(value.value) else otherwise
  }

  /** Of several values for one field, the last one counts, even if it cannot be read. */
  lemma {:induction false} LastValuesCount(codec: Codec, d: Draft, data: seq<Datum>)
    ensures var r := NodeDraft(codec, d, data);
            && r.kind == OrElse(LastValue(data, "kind"), d.kind)
            && r.title == OrElse(LastValue(data, "title"), d.title)
            && r.body == OrElse(LastValue(data, "body"), d.body)
            && r.bodyHtml == OrElse(LastValue(data, "body_html"), d.bodyHtml)
            && r.uuid == Read(LastValue(data, "uuid"), codec.parseUuid, d.uuid)
            && r.createdAt == Read(LastValue(data, "created_at"), ParseI64, d.createdAt)
            && r.updatedAt == Read(LastValue(data, "updated_at"), ParseI64, d.updatedAt)
    decreases |data|
  {
    hide ParseI64, MergeProperties, FoldUnknown;
    if data != [] {
      LastValuesCount(codec, SetNodeField(codec, d, data[0]), data[1..]);
      FieldSet(codec, d, data[0]);
      hide SetNodeField;
    }
  }

  lemma FieldSet(codec: Codec, d: Draft, datum: Datum)
    ensures var r := SetNodeField(codec, d, datum);
            && r.kind == (if datum.name == "kind" then datum.value else d.kind)
            && r.title == (if datum.name == "title" then datum.value else d.title)
            && r.body == (if datum.name == "body" then datum.value else d.body)
            && r.bodyHtml == (if datum.name == "body_html" then datum.value else d.bodyHtml)
            && r.uuid == (if datum.name == "uuid" then codec.parseUuid(datum.value) else d.uuid)
            && r.createdAt == (if datum.name == "created_at" then ParseI64(datum.value) else d.createdAt)
            && r.updatedAt == (if datum.name == "updated_at" then ParseI64(datum.value) else d.updatedAt)
  {
    hide ParseI64, MergeProperties, FoldUnknown;
  }

  /** Node `i` of the import is raw node `i` under its id, every field from the last value the
      document gives for it; what is missing or cannot be read is made up. */
  lemma ImportedNodes(codec: Codec, defaults: Defaults, raw: Raw, dbMaxNode: nat, dbMaxEdge: nat, i: nat)
    requires RecordsOfRaw(codec, defaults, raw, dbMaxNode, dbMaxEdge).Ok? && i < |raw.nodes|
    ensures var nodes := RecordsOfRaw(codec, defaults, raw, dbMaxNode, dbMaxEdge).value.0;
            var data := raw.nodes[i].data;
            && |nodes| == |raw.nodes|
            && nodes[i].id == NodeIds(raw.nodes, dbMaxNode)[raw.nodes[i].raw]
            && nodes[i].kind == OrElse(LastValue(data, "kind"), "")
            && nodes[i].title == OrElse(LastValue(data, "title"), "")
            && nodes[i].body == OrElse(LastValue(data, "body"), "")
            && nodes[i].bodyHtml == OrElse(LastValue(data, "body_html"), "")
            && nodes[i].uuid == OrElse(Read(LastValue(data, "uuid"), codec.parseUuid, None), defaults.uuid(i))
            && nodes[i].createdAt == OrElse(Read(LastValue(data, "created_at"), ParseI64, None), defaults.now)
            && nodes[i].updatedAt
               == OrElse(Read(LastValue(data, "updated_at"), ParseI64, None), nodes[i].createdAt)
  {
    LastValuesCount(codec, EMPTY_DRAFT, raw.nodes[i].data);
    hide NodeDraft, LastValue, ParseI64, NodeIds, MakeEdges;
  }

  /** The import has a node with raw id `raw`, and `id` is its id. */
  ghost predicate IsNode(nodes: seq<Node>, raws: seq<RawNode>, raw: string, id: nat)
    requires |nodes| == |raws|
  {
    exists i :: 0 <= i < |nodes| && raws[i].raw == raw && nodes[i].id == id
  }

  lemma DeclaredIsNode(raws: seq<RawNode>, dbMax: nat, raw: string) returns (i: nat)
    requires raw in NodeIds(raws, dbMax)
    ensures i < |raws| && raws[i].raw == raw
  {
    AllAssigned(RawIds(raws), 'n', NodeBase(raws, dbMax));
    var k :| 0 <= k < |RawIds(raws)| && RawIds(raws)[k] == raw;
    i := k;
  }

  /** Every edge joins two of the imported nodes; its id is the preserved one, or lies after
      every id in the store and every preserved edge id, in document order. */
  lemma ImportedEdges(codec: Codec, defaults: Defaults, raw: Raw, dbMaxNode: nat, dbMaxEdge: nat)
    requires RecordsOfRaw(codec, defaults, raw, dbMaxNode, dbMaxEdge).Ok?
    ensures var (nodes, edges) := RecordsOfRaw(codec, defaults, raw, dbMaxNode, dbMaxEdge).value;
            && |edges| == |raw.edges| && |nodes| == |raw.nodes|
            && (forall k :: 0 <= k < |edges| ==>
                  && IsNode(nodes, raw.nodes, raw.edges[k].source, edges[k].from)
                  && IsNode(nodes, raw.nodes, raw.edges[k].target, edges[k].to))
            && (forall k :: 0 <= k < |edges| ==>
                  match Preserved(raw.edges[k].raw, 'e')
                  case Some(id) => edges[k].id == id <= EdgeBase(raw.edges, dbMaxEdge)
                  case None => edges[k].id > EdgeBase(raw.edges, dbMaxEdge) >= dbMaxEdge)
            && (forall k, l :: 0 <= k < l < |edges| && Preserved(raw.edges[k].raw, 'e').None?
                               && Preserved(raw.edges[l].raw, 'e').None? ==>
                  edges[k].id < edges[l].id)
  {
    var ids := NodeIds(raw.nodes, dbMaxNode);
    EdgesMade(codec, defaults, raw.edges, ids, EdgeBase(raw.edges, dbMaxEdge));
    var (nodes, edges) := RecordsOfRaw(codec, defaults, raw, dbMaxNode, dbMaxEdge).value;
    forall k | 0 <= k < |edges|
      ensures IsNode(nodes, raw.nodes, raw.edges[k].source, edges[k].from)
      ensures IsNode(nodes, raw.nodes, raw.edges[k].target, edges[k].to)
    {
      var i := DeclaredIsNode(raw.nodes, dbMaxNode, raw.edges[k].source);
      var j := DeclaredIsNode(raw.nodes, dbMaxNode, raw.edges[k].target);
      assert nodes[i].id == edges[k].from && nodes[j].id == edges[k].to;
    }
    forall k | 0 <= k < |edges| && Preserved(raw.edges[k].raw, 'e').Some?
      ensures Preserved(raw.edges[k].raw, 'e').value <= EdgeBase(raw.edges, dbMaxEdge)
    {
      assert EdgeIdTexts(raw.edges)[k] == raw.edges[k].raw;
      MaxPreservedBounds(EdgeIdTexts(raw.edges), 'e', k);
    }
  }

  lemma {:induction false} EdgesMade(codec: Codec, defaults: Defaults, raws: seq<RawEdge>, ids: map<string, nat>, base: nat)
    requires MakeEdges(codec, defaults, raws, ids, base).Ok?
    ensures var (edges, last) := MakeEdges(codec, defaults, raws, ids, base).value;
            && |edges| == |raws| && last >= base
            && (forall k :: 0 <= k < |edges| ==>
                  && raws[k].source in ids && edges[k].from == ids[raws[k].source]
                  && raws[k].target in ids && edges[k].to == ids[raws[k].target])
            && (forall k :: 0 <= k < |edges| ==>
                  match Preserved(raws[k].raw, 'e')
                  case Some(id) => edges[k].id == id
                  case None => base < edges[k].id <= last)
            && (forall k, l :: 0 <= k < l < |edges| && Preserved(raws[k].raw, 'e').None?
                               && Preserved(raws[l].raw, 'e').None? ==>
                  edges[k].id < edges[l].id)
    decreases |raws|
  {
    hide Preserved, EdgeDraft;
    if raws != [] {
      EdgesMade(codec, defaults, raws[..|raws| - 1], ids, base);
    }
  }

  // ----- the loops -------------------------------------------------------------------

  method BuildKeyMap(children: seq<Element>) returns (keys: map<string, string>)
    ensures keys == KeyMap(children)
  {
    keys := map[];
    var i := 0;
    while i < |children|
      invariant 0 <= i <= |children| && keys == KeyMap(children[..i])
    {
      assert children[..i + 1][..i] == children[..i];
      if children[i].name == "key" {
        match (AttrOf(children[i].attrs, "id"), AttrOf(children[i].attrs, "attr.name")) {
          case (Some(id), Some(name)) => keys := keys[id := name];
          case _ =>
        }
      }
      i := i + 1;
    }
    assert children[..i] == children;
  }

  lemma DatumAssoc(a: seq<Datum>, d: Datum, b: seq<Datum>)
    ensures a + ([d] + b) == (a + [d]) + b
  {
  }

  method DataOf(children: seq<Element>, keys: map<string, string>) returns (data: seq<Datum>)
    ensures data == CollectData(children, keys)
  {
    hide AttrOf;
    data := [];
    var i := 0;
    assert children[0..] == children;
    while i < |children|
      invariant 0 <= i <= |children|
      invariant data + CollectData(children[i..], keys) == CollectData(children, keys)
    {
      assert children[i..][1..] == children[i + 1..];
      var key := AttrOf(children[i].attrs, "key");
      if children[i].name == "data" && key.Some? {
        var datum := Datum(if key.value in keys then keys[key.value] else key.value, children[i].text);
        DatumAssoc(data, datum, CollectData(children[i + 1..], keys));
        data := data + [datum];
      }
      i := i + 1;
    }
  }

  method RawRecord(e: Element, keys: map<string, string>) returns (r: Result<Raw, GraphmlError>)
    ensures r == RawOf(e, keys)
  {
    if e.name == "node" {
      var raw := AttrOf(e.attrs, "id");
      if raw.None? {
        return Err(NodeWithoutId);
      }
      var data := DataOf(e.children, keys);
      return Ok(Raw([RawNode(raw.value, data)], []));
    }
    if e.name == "edge" {
      var source, target := AttrOf(e.attrs, "source"), AttrOf(e.attrs, "target");
      if source.None? {
        return Err(EdgeWithoutSource);
      }
      if target.None? {
        return Err(EdgeWithoutTarget);
      }
      var data := DataOf(e.children, keys);
      return Ok(Raw([], [RawEdge(AttrOf(e.attrs, "id"), source.value, target.value, data)]));
    }
    r := Ok(Raw([], []));
  }

  method RawRecords(children: seq<Element>, keys: map<string, string>) returns (r: Result<Raw, GraphmlError>)
    ensures r == CollectRaw(children, keys)
  {
    var nodes, edges := [], [];
    var i := 0;
    while i < |children|
      invariant 0 <= i <= |children|
      invariant CollectRaw(children[..i], keys) == Ok(Raw(nodes, edges))
    {
      assert children[..i + 1][..i] == children[..i];
      var one := RawRecord(children[i], keys);
      if one.Err? {
        FailsOnwards(children, keys, i + 1);
        return Err(one.error);
      }
      nodes, edges := nodes + one.value.nodes, edges + one.value.edges;
      i := i + 1;
    }
    assert children[..i] == children;
    r := Ok(Raw(nodes, edges));
  }

  /** The first failure is the result. */
  lemma {:induction false} FailsOnwards(children: seq<Element>, keys: map<string, string>, i: nat)
    requires i <= |children| && CollectRaw(children[..i], keys).Err?
    ensures CollectRaw(children, keys) == CollectRaw(children[..i], keys)
    decreases |children|
  {
    if i == |children| {
      assert children[..i] == children;
    } else {
      assert children[..|children| - 1][..i] == children[..i];
      FailsOnwards(children[..|children| - 1], keys, i);
    }
  }

  method LargestPreserved(raws: seq<Option<string>>, prefix: char) returns (m: nat)
    ensures m == MaxPreserved(raws, prefix)
  {
    m := 0;
    var i := 0;
    while i < |raws|
      invariant 0 <= i <= |raws| && m == MaxPreserved(raws[..i], prefix)
    {
      assert raws[..i + 1][..i] == raws[..i];
      var id := Preserved(raws[i], prefix);
      if id.Some? && id.value > m {
        m := id.value;
      }
      i := i + 1;
    }
    assert raws[..i] == raws;
  }

  method AllocateIds(raws: seq<string>, prefix: char, base: nat) returns (ids: map<string, nat>)
    ensures ids == AssignIds(raws, prefix, base).0
  {
    ids := map[];
    var next := base;
    var i := 0;
    while i < |raws|
      invariant 0 <= i <= |raws| && (ids, next) == AssignIds(raws[..i], prefix, base)
    {
      assert raws[..i + 1][..i] == raws[..i];
      match ParsePrefixed(raws[i], prefix) {
        case Some(id) =>
          ids := ids[raws[i] := id];
        case None =>
          next := next + 1;
          ids := ids[raws[i] := next];
      }
      i := i + 1;
    }
    assert raws[..i] == raws;
  }

  method BuildEdges(codec: Codec, defaults: Defaults, raws: seq<RawEdge>, ids: map<string, nat>, base: nat)
    returns (r: Result<seq<Edge>, GraphmlError>)
    ensures match MakeEdges(codec, defaults, raws, ids, base)
            case Err(e) => r == Err(e)
            case Ok((edges, _)) => r == Ok(edges)
  {
    var edges, last := [], base;
    var i := 0;
    while i < |raws|
      invariant 0 <= i <= |raws|
      invariant MakeEdges(codec, defaults, raws[..i], ids, base) == Ok((edges, last))
    {
      assert raws[..i + 1][..i] == raws[..i];
      var bad := Undeclared(raws[i], ids);
      if bad.Some? {
        EdgesFailOnwards(codec, defaults, raws, ids, base, i + 1);
        return Err(bad.value);
      }
      var kept := Preserved(raws[i].raw, 'e');
      if kept.None? {
        last := last + 1;
      }
      var id := if kept.Some? then kept.value else last;
      edges := edges + [MakeEdge(codec, defaults, i, id, ids[raws[i].source], ids[raws[i].target], raws[i].data)];
      i := i + 1;
    }
    assert raws[..i] == raws;
    r := Ok(edges);
  }

  lemma {:induction false} EdgesFailOnwards(codec: Codec, defaults: Defaults, raws: seq<RawEdge>,
                                            ids: map<string, nat>, base: nat, i: nat)
    requires i <= |raws| && MakeEdges(codec, defaults, raws[..i], ids, base).Err?
    ensures MakeEdges(codec, defaults, raws, ids, base) == MakeEdges(codec, defaults, raws[..i], ids, base)
    decreases |raws|
  {
    if i == |raws| {
      assert raws[..i] == raws;
    } else {
      assert raws[..|raws| - 1][..i] == raws[..i];
      EdgesFailOnwards(codec, defaults, raws[..|raws| - 1], ids, base, i);
    }
  }

  /** `graphml_records`, from the parsed document on. */
  method ImportRoots(codec: Codec, defaults: Defaults, roots: seq<Element>, dbMaxNode: nat, dbMaxEdge: nat)
    returns (r: Result<(seq<Node>, seq<Edge>), GraphmlError>)
    ensures r == RecordsOfRoots(codec, defaults, roots, dbMaxNode, dbMaxEdge)
  {
    var graphml := FirstNamed(roots, "graphml");
    if graphml.None? {
      return Err(NoGraphml);
    }
    var keys := BuildKeyMap(graphml.value.children);
    var graph := FirstNamed(graphml.value.children, "graph");
    if graph.None? {
      return Err(NoGraph);
    }
    var raw := RawRecords(graph.value.children, keys);
    if raw.Err? {
      return Err(raw.error);
    }
    r := ImportRaw(codec, defaults, raw.value, dbMaxNode, dbMaxEdge);
  }

  method ImportRaw(codec: Codec, defaults: Defaults, raw: Raw, dbMaxNode: nat, dbMaxEdge: nat)
    returns (r: Result<(seq<Node>, seq<Edge>), GraphmlError>)
    ensures r == RecordsOfRaw(codec, defaults, raw, dbMaxNode, dbMaxEdge)
  {
    var maxNode := LargestPreserved(NodeIdTexts(raw.nodes), 'n');
    var ids := AllocateIds(RawIds(raw.nodes), 'n', Max(dbMaxNode, maxNode));
    assert ids == NodeIds(raw.nodes, dbMaxNode);
    var maxEdge := LargestPreserved(EdgeIdTexts(raw.edges), 'e');
    var edges := BuildEdges(codec, defaults, raw.edges, ids, Max(dbMaxEdge, maxEdge));
    match edges {
      case Err(e) => r := Err(e);
      case Ok(list) => r := Ok((MakeNodes(codec, defaults, raw.nodes, ids), list));
    }
  }

  /** `graphml_records`. */
  method ImportGraphml(codec: Codec, defaults: Defaults, xml: string, dbMaxNode: nat, dbMaxEdge: nat)
    returns (r: Result<(seq<Node>, seq<Edge>), GraphmlError>)
    ensures r == Records(codec, defaults, xml, dbMaxNode, dbMaxEdge)
  {
    var roots := ParseDocument(xml);
    match roots {
      case Err(e) => r := Err(BadXml(e));
      case Ok(list) => r := ImportRoots(codec, defaults, list, dbMaxNode, dbMaxEdge);
    }
  }
}
