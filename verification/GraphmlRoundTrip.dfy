/** Exporting a graph as GraphML and importing the document gives the graph back, up to the
    control characters XML cannot carry; exporting the result writes the same document. */
module GraphmlRoundTrip {
  import opened Prelude
  import opened Text
  import opened XmlText
  import opened XmlReader
  import opened XmlRoundTrip
  import opened GraphmlImport
  import opened GraphmlDocument

  /** The library text forms read back what they wrote, in characters XML can carry. */
  ghost predicate Lawful(codec: Codec) {
    && (forall u: Uuid :: codec.parseUuid(codec.printUuid(u)) == Some(u) && Sanitize(codec.printUuid(u)) == codec.printUuid(u))
    && (forall p: Properties :: codec.parseProps(codec.printProps(p)) == Some(p) && Sanitize(codec.printProps(p)) == codec.printProps(p))
    && (forall w: Weight :: codec.parseWeight(codec.printWeight(w)) == w && Sanitize(codec.printWeight(w)) == codec.printWeight(w))
  }

  predicate NodeInRange(n: Node) {
    n.id < U64_LIMIT && -I64_LIMIT <= n.createdAt < I64_LIMIT && -I64_LIMIT <= n.updatedAt < I64_LIMIT
  }

  predicate EdgeInRange(e: Edge) {
    && e.id < U64_LIMIT && e.from < U64_LIMIT && e.to < U64_LIMIT
    && -I64_LIMIT <= e.createdAt < I64_LIMIT
  }

  predicate InRange(nodes: seq<Node>, edges: seq<Edge>) {
    && (forall i :: 0 <= i < |nodes| ==> NodeInRange(nodes[i]))
    && (forall i :: 0 <= i < |edges| ==> EdgeInRange(edges[i]))
  }

  predicate HasNode(nodes: seq<Node>, id: nat) {
    exists i :: 0 <= i < |nodes| && nodes[i].id == id
  }

  predicate EndpointsExist(nodes: seq<Node>, edges: seq<Edge>) {
    forall k :: 0 <= k < |edges| ==> HasNode(nodes, edges[k].from) && HasNode(nodes, edges[k].to)
  }

  function CleanNode(n: Node): Node {
    n.(kind := Sanitize(n.kind), title := Sanitize(n.title), body := Sanitize(n.body), bodyHtml := Sanitize(n.bodyHtml))
  }

  function CleanEdge(e: Edge): Edge {
    e.(kind := Sanitize(e.kind))
  }

  function CleanNodes(nodes: seq<Node>): seq<Node> {
    seq(|nodes|, i requires 0 <= i < |nodes| => CleanNode(nodes[i]))
  }

  function CleanEdges(edges: seq<Edge>): seq<Edge> {
    seq(|edges|, i requires 0 <= i < |edges| => CleanEdge(edges[i]))
  }

  // ----- the document is well formed -------------------------------------------------------

  predicate AllOk(items: seq<Markup>) {
    forall i :: 0 <= i < |items| ==> MarkupOk(items[i])
  }

  lemma {:induction false} LinesOk(indent: string, items: seq<Markup>, last: string)
    requires AllOk(items)
    ensures ContentOk(Lines(indent, items, last))
    decreases |items|
  {
    if items != [] {
      LinesOk(indent, items[1..], last);
    }
  }

  lemma NamesOk()
    ensures IsName("data") && IsName("node") && IsName("edge") && IsName("key") && IsName("graph") && IsName("graphml")
  {
  }

  lemma AttrNamesOk()
    ensures IsName("id") && IsName("source") && IsName("target") && IsName("for")
    ensures IsName("attr.name") && IsName("attr.type") && IsName("edgedefault")
  {
    hide IsName;
    EndNamesOk();
    KeyNamesOk();
  }

  lemma EndNamesOk()
    ensures IsName("id") && IsName("source") && IsName("target") && IsName("for")
  {
  }

  lemma KeyNamesOk()
    ensures IsName("attr.name") && IsName("attr.type") && IsName("edgedefault")
  {
  }

  lemma SchemaNamesOk()
    ensures IsName("xmlns") && IsName("xmlns:xsi") && IsName("xsi:schemaLocation")
  {
  }

  lemma DataOk(data: seq<Datum>)
    ensures AllOk(DataMarkup(data))
  {
    NamesOk();
    forall i | 0 <= i < |data|
      ensures MarkupOk(DataMarkup(data)[i])
    {
      assert AttrOk(Spaced(" ", "key", data[i].name));
    }
  }

  lemma NodeOk(codec: Codec, n: Node)
    ensures MarkupOk(NodeMarkup(codec, n))
  {
    NamesOk();
    AttrNamesOk();
    DataOk(NodeData(codec, n));
    LinesOk("      ", DataMarkup(NodeData(codec, n)), "    ");
    assert AttrOk(Spaced(" ", "id", "n" + Dec(n.id)));
  }

  lemma EdgeOk(codec: Codec, e: Edge)
    ensures MarkupOk(EdgeMarkup(codec, e))
  {
    NamesOk();
    AttrNamesOk();
    DataOk(EdgeData(codec, e));
    LinesOk("      ", DataMarkup(EdgeData(codec, e)), "    ");
    assert AttrOk(Spaced(" ", "id", "e" + Dec(e.id))) && AttrOk(Spaced(" ", "source", "n" + Dec(e.from)))
        && AttrOk(Spaced(" ", "target", "n" + Dec(e.to)));
  }

  lemma KeyOk(key: Key, target: string)
    ensures MarkupOk(KeyMarkup(key, target))
  {
    NamesOk();
    AttrNamesOk();
    assert AttrOk(Spaced(" ", "id", key.id)) && AttrOk(Spaced(" ", "for", target))
        && AttrOk(Spaced(" ", "attr.name", key.name)) && AttrOk(Spaced(" ", "attr.type", key.kind));
  }

  function GraphItems(codec: Codec, nodes: seq<Node>, edges: seq<Edge>): seq<Markup> {
    NodeMarkups(codec, nodes) + EdgeMarkups(codec, edges)
  }

  lemma GraphOk(codec: Codec, nodes: seq<Node>, edges: seq<Edge>)
    ensures MarkupOk(GraphMarkup(codec, nodes, edges))
  {
    NamesOk();
    AttrNamesOk();
    var items := GraphItems(codec, nodes, edges);
    forall i | 0 <= i < |items|
      ensures MarkupOk(items[i])
    {
      if i < |nodes| {
        NodeOk(codec, nodes[i]);
      } else {
        EdgeOk(codec, edges[i - |nodes|]);
      }
    }
    LinesOk("    ", items, "  ");
    assert AttrOk(Spaced(" ", "id", "drevo")) && AttrOk(Spaced(" ", "edgedefault", "directed"));
  }

  lemma SchemaOk()
    ensures AttrsOk(SchemaAttrs())
  {
    SchemaNamesOk();
    assert forall i :: 0 <= i < |"\n         "| ==> IsSpace("\n         "[i]);
    assert AttrOk(SchemaAttrs()[0]) && AttrOk(SchemaAttrs()[1]) && AttrOk(SchemaAttrs()[2]);
  }

  lemma RootOk(codec: Codec, nodes: seq<Node>, edges: seq<Edge>)
    ensures MarkupOk(GraphmlMarkup(codec, nodes, edges))
  {
    NamesOk();
    var items := GraphmlItems(codec, nodes, edges);
    forall i | 0 <= i < |items|
      ensures MarkupOk(items[i])
    {
      if i < |NODE_KEYS| {
        KeyOk(NODE_KEYS[i], "node");
      } else if i < |NODE_KEYS| + |EDGE_KEYS| {
        KeyOk(EDGE_KEYS[i - |NODE_KEYS|], "edge");
      } else {
        GraphOk(codec, nodes, edges);
      }
    }
    LinesOk("  ", items, "");
    SchemaOk();
  }

  /** A terminator whose first character does not occur before it ends the text. */
  lemma AbsentEndsFirst(s: string, c: char, end: string)
    requires end != [] && end[0] == c && c !in s
    ensures EndsFirst(s, end)
  {
    var t := s + end;
    forall k | 0 <= k < |s|
      ensures !(end <= t[k..])
    {
      assert t[k..][0] == s[k];
    }
    assert t[|s|..] == end;
    FindStrAt(t, end, |s|);
  }

  lemma DocumentOk(codec: Codec, nodes: seq<Node>, edges: seq<Edge>)
    ensures ContentOk(Document(codec, nodes, edges))
  {
    assert '?' !in DECLARATION;
    AbsentEndsFirst(DECLARATION, '?', "?>");
    RootOk(codec, nodes, edges);
  }

  // ----- its elements -------------------------------------------------------------------------

  predicate IsElement(m: Markup) {
    m.Paired? || m.SelfClosed?
  }

  predicate AllElements(items: seq<Markup>) {
    forall i :: 0 <= i < |items| ==> IsElement(items[i])
  }

  function TheElement(m: Markup): Element
    requires IsElement(m)
  {
    ElementsOfMarkup(m)[0]
  }

  function Elements(items: seq<Markup>): seq<Element>
    requires AllElements(items)
  {
    seq(|items|, i requires 0 <= i < |items| => TheElement(items[i]))
  }

  lemma {:induction false} LinesElements(indent: string, items: seq<Markup>, last: string)
    requires AllElements(items)
    ensures ElementsOf(Lines(indent, items, last)) == Elements(items)
    decreases |items|
  {
    if items != [] {
      LinesElements(indent, items[1..], last);
      assert Elements(items) == [TheElement(items[0])] + Elements(items[1..]);
    }
  }

  lemma OneAttrOf(name: string, value: string)
    requires IsPlain(value)
    ensures AttrsOf([Spaced(" ", name, value)]) == [Attr(name, value)]
  {
    PlainIsItself(value);
  }

  // ----- data ------------------------------------------------------------------------------------

  /** What `<data>` elements say, by the declared key names. */
  function Named(data: seq<Datum>, keys: map<string, string>): seq<Datum> {
    seq(|data|, i requires 0 <= i < |data| =>
      Datum(if data[i].name in keys then keys[data[i].name] else data[i].name, Sanitize(data[i].value)))
  }

  lemma DatumElement(d: Datum)
    requires IsPlain(d.name)
    ensures TheElement(DatumMarkup(d)) == Element("data", [Attr("key", d.name)], [], Sanitize(d.value))
  {
    OneAttrOf("key", d.name);
    assert ElementsOf(Done(d.value)) == [] && TextOf(Done(d.value)) == Sanitize(d.value);
  }

  lemma {:induction false} CollectNamed(data: seq<Datum>, keys: map<string, string>)
    requires KeysPlain(data)
    ensures CollectData(Elements(DataMarkup(data)), keys) == Named(data, keys)
    decreases |data|
  {
    var es := Elements(DataMarkup(data));
    if data == [] {
      assert es == [] && Named(data, keys) == [];
    } else {
      DatumElement(data[0]);
      CollectNamed(data[1..], keys);
      DataElementsRest(data);
      NamedFirst(data, keys);
    }
  }

  lemma DataElementsRest(data: seq<Datum>)
    requires data != []
    ensures Elements(DataMarkup(data))[1..] == Elements(DataMarkup(data[1..]))
    ensures Elements(DataMarkup(data))[0] == TheElement(DatumMarkup(data[0]))
  {
  }

  lemma NamedFirst(data: seq<Datum>, keys: map<string, string>)
    requires data != []
    ensures Named(data, keys) == [Named(data, keys)[0]] + Named(data[1..], keys)
  {
  }

  /** An element holding data lines. */
  lemma RecordElement(name: string, attrs: seq<PrintedAttr>, data: seq<Datum>, keys: map<string, string>)
    requires KeysPlain(data)
    ensures var e := TheElement(Paired(name, attrs, Lines("      ", DataMarkup(data), "    ")));
            e.name == name && e.attrs == AttrsOf(attrs) && CollectData(e.children, keys) == Named(data, keys)
  {
    LinesElements("      ", DataMarkup(data), "    ");
    CollectNamed(data, keys);
  }

  // ----- keys ------------------------------------------------------------------------------------

  /** Declarations, later ones replacing earlier ones. */
  function Declare(m: map<string, string>, keys: seq<Key>): map<string, string> {
    if keys == [] then m
    else Declare(m, keys[..|keys| - 1])[keys[|keys| - 1].id := keys[|keys| - 1].name]
  }

  lemma KeyElement(key: Key, target: string)
    requires KeyPlain(key)
    ensures var e := TheElement(KeyMarkup(key, target));
            e.name == "key" && AttrOf(e.attrs, "id") == Some(key.id) && AttrOf(e.attrs, "attr.name") == Some(key.name)
  {
    PlainIsItself(key.id);
    PlainIsItself(key.name);
    var attrs := TheElement(KeyMarkup(key, target)).attrs;
    assert attrs[0] == Attr("id", key.id) && attrs[2] == Attr("attr.name", key.name);
    assert attrs[1].name == "for" && "for" != "attr.name" && "id" != "attr.name";
    assert AttrOf(attrs[2..], "attr.name") == Some(key.name);
    assert attrs[1..][1..] == attrs[2..];
    assert AttrOf(attrs[1..], "attr.name") == Some(key.name);
  }

  lemma {:induction false} KeyMapDeclares(before: seq<Element>, keys: seq<Key>, target: string)
    requires forall i :: 0 <= i < |keys| ==> KeyPlain(keys[i])
    ensures KeyMap(before + Elements(KeyMarkups(keys, target))) == Declare(KeyMap(before), keys)
    decreases |keys|
  {
    hide TheElement, AttrOf, KeyPlain;
    var es := Elements(KeyMarkups(keys, target));
    if keys == [] {
      assert before + es == before;
    } else {
      var front := keys[..|keys| - 1];
      KeyMapDeclares(before, front, target);
      assert es[..|keys| - 1] == Elements(KeyMarkups(front, target));
      assert (before + es)[..|before + es| - 1] == before + es[..|keys| - 1];
      KeyElement(keys[|keys| - 1], target);
    }
  }

  /** A key declared once has the name it was declared with. */
  lemma {:induction false} DeclareLookup(m: map<string, string>, keys: seq<Key>, j: nat)
    requires j < |keys| && forall k :: j < k < |keys| ==> keys[k].id != keys[j].id
    ensures keys[j].id in Declare(m, keys) && Declare(m, keys)[keys[j].id] == keys[j].name
    decreases |keys|
  {
    if j < |keys| - 1 {
      var front := keys[..|keys| - 1];
      assert keys[|keys| - 1].id != keys[j].id;
      DeclareLookup(m, front, j);
    }
  }

  lemma {:induction false} DeclareOther(m: map<string, string>, keys: seq<Key>, id: string)
    requires id in m && forall k :: 0 <= k < |keys| ==> keys[k].id != id
    ensures id in Declare(m, keys) && Declare(m, keys)[id] == m[id]
    decreases |keys|
  {
    if keys != [] {
      DeclareOther(m, keys[..|keys| - 1], id);
    }
  }

  /** The keys every exported document declares. */
  function SchemaKeys(): map<string, string> {
    Declare(Declare(map[], NODE_KEYS), EDGE_KEYS)
  }

  lemma NodeIdsDistinct()
    ensures forall i, j :: 0 <= i < j < |NODE_KEYS| ==> NODE_KEYS[j].id != NODE_KEYS[i].id
  {
    forall i, j | 0 <= i < j < |NODE_KEYS|
      ensures NODE_KEYS[j].id != NODE_KEYS[i].id
    {
      var a, b := NODE_KEYS[i].id, NODE_KEYS[j].id;
      assert |a| != |b| || a[2] != b[2];
    }
  }

  lemma EdgeIdsDistinct()
    ensures forall i, j :: 0 <= i < j < |EDGE_KEYS| ==> EDGE_KEYS[j].id != EDGE_KEYS[i].id
    ensures forall i, j :: 0 <= i < |NODE_KEYS| && 0 <= j < |EDGE_KEYS| ==> EDGE_KEYS[j].id != NODE_KEYS[i].id
  {
    forall i, j | 0 <= i < j < |EDGE_KEYS|
      ensures EDGE_KEYS[j].id != EDGE_KEYS[i].id
    {
      assert EDGE_KEYS[i].id[4] != EDGE_KEYS[j].id[4];
    }
    forall i, j | 0 <= i < |NODE_KEYS| && 0 <= j < |EDGE_KEYS|
      ensures EDGE_KEYS[j].id != NODE_KEYS[i].id
    {
      assert EDGE_KEYS[j].id[2] == 'e' && NODE_KEYS[i].id[2] != 'e';
    }
  }

  lemma NodeKeyName(j: nat)
    requires j < |NODE_KEYS|
    ensures NODE_KEYS[j].id in SchemaKeys() && SchemaKeys()[NODE_KEYS[j].id] == NODE_KEYS[j].name
  {
    NodeIdsDistinct();
    EdgeIdsDistinct();
    DeclareLookup(map[], NODE_KEYS, j);
    DeclareOther(Declare(map[], NODE_KEYS), EDGE_KEYS, NODE_KEYS[j].id);
  }

  lemma EdgeKeyName(j: nat)
    requires j < |EDGE_KEYS|
    ensures EDGE_KEYS[j].id in SchemaKeys() && SchemaKeys()[EDGE_KEYS[j].id] == EDGE_KEYS[j].name
  {
    EdgeIdsDistinct();
    DeclareLookup(Declare(map[], NODE_KEYS), EDGE_KEYS, j);
  }

  // ----- one node, one edge -----------------------------------------------------------------------

  /** The fields of an exported node, as the import sees them. */
  function NodeFields(codec: Codec, n: Node): seq<Datum> {
    [Datum("uuid", codec.printUuid(n.uuid)), Datum("kind", Sanitize(n.kind)), Datum("title", Sanitize(n.title)),
     Datum("body", Sanitize(n.body)), Datum("body_html", Sanitize(n.bodyHtml)),
     Datum("created_at", DecInt(n.createdAt)), Datum("updated_at", DecInt(n.updatedAt)),
     Datum("properties", codec.printProps(n.properties))]
  }

  function EdgeFields(codec: Codec, e: Edge): seq<Datum> {
    [Datum("uuid", codec.printUuid(e.uuid)), Datum("kind", Sanitize(e.kind)),
     Datum("weight", codec.printWeight(e.weight)), Datum("created_at", DecInt(e.createdAt)),
     Datum("properties", codec.printProps(e.properties))]
  }

  lemma DecIntClean(i: int)
    ensures Sanitize(DecInt(i)) == DecInt(i)
  {
    DigitsPlain(Dec(if i < 0 then -i else i));
    PlainIsItself(DecInt(i));
  }

  lemma NodeFieldsNamed(codec: Codec, n: Node)
    requires Lawful(codec)
    ensures Named(NodeData(codec, n), SchemaKeys()) == NodeFields(codec, n)
  {
    NodeKeyName(0);
    NodeKeyName(1);
    NodeKeyName(2);
    NodeKeyName(3);
    NodeKeyName(4);
    NodeKeyName(5);
    NodeKeyName(6);
    NodeKeyName(7);
    DecIntClean(n.createdAt);
    DecIntClean(n.updatedAt);
  }

  lemma EdgeFieldsNamed(codec: Codec, e: Edge)
    requires Lawful(codec)
    ensures Named(EdgeData(codec, e), SchemaKeys()) == EdgeFields(codec, e)
  {
    EdgeKeyName(0);
    EdgeKeyName(1);
    EdgeKeyName(2);
    EdgeKeyName(3);
    EdgeKeyName(4);
    DecIntClean(e.createdAt);
  }

  /** Fields are set from the first on. */
  lemma NodeDraftStep(codec: Codec, d: Draft, first: Datum, rest: seq<Datum>)
    ensures NodeDraft(codec, d, [first] + rest) == NodeDraft(codec, SetNodeField(codec, d, first), rest)
  {
    assert ([first] + rest)[1..] == rest;
  }

  lemma EdgeDraftStep(codec: Codec, d: Draft, first: Datum, rest: seq<Datum>)
    ensures EdgeDraft(codec, d, [first] + rest) == EdgeDraft(codec, SetEdgeField(codec, d, first), rest)
  {
    assert ([first] + rest)[1..] == rest;
  }

  lemma NodeDraftHead(codec: Codec, n: Node)
    requires Lawful(codec)
    ensures NodeDraft(codec, EMPTY_DRAFT, NodeFields(codec, n))
         == NodeDraft(codec, Draft(Some(n.uuid), Sanitize(n.kind), Sanitize(n.title), Sanitize(n.body), "", None,
                                   None, None, map[]), NodeFields(codec, n)[4..])
  {
    var f := NodeFields(codec, n);
    var d1 := SetNodeField(codec, EMPTY_DRAFT, f[0]);
    var d2 := SetNodeField(codec, d1, f[1]);
    var d3 := SetNodeField(codec, d2, f[2]);
    NodeDraftStep(codec, EMPTY_DRAFT, f[0], f[1..]);
    NodeDraftStep(codec, d1, f[1], f[2..]);
    NodeDraftStep(codec, d2, f[2], f[3..]);
    NodeDraftStep(codec, d3, f[3], f[4..]);
    assert f == [f[0]] + f[1..] && f[1..] == [f[1]] + f[2..] && f[2..] == [f[2]] + f[3..] && f[3..] == [f[3]] + f[4..];
  }

  lemma NodeDraftOf(codec: Codec, n: Node)
    requires Lawful(codec) && NodeInRange(n)
    ensures NodeDraft(codec, EMPTY_DRAFT, NodeFields(codec, n))
         == Draft(Some(n.uuid), Sanitize(n.kind), Sanitize(n.title), Sanitize(n.body), Sanitize(n.bodyHtml), None,
                  Some(n.createdAt), Some(n.updatedAt), n.properties)
  {
    NodeDraftHead(codec, n);
    var f := NodeFields(codec, n);
    DecIntRoundTrip(n.createdAt);
    DecIntRoundTrip(n.updatedAt);
    var d4 := Draft(Some(n.uuid), Sanitize(n.kind), Sanitize(n.title), Sanitize(n.body), "", None, None, None, map[]);
    var d5 := SetNodeField(codec, d4, f[4]);
    var d6 := SetNodeField(codec, d5, f[5]);
    var d7 := SetNodeField(codec, d6, f[6]);
    NodeDraftStep(codec, d4, f[4], f[5..]);
    NodeDraftStep(codec, d5, f[5], f[6..]);
    NodeDraftStep(codec, d6, f[6], f[7..]);
    NodeDraftStep(codec, d7, f[7], []);
    assert f[4..] == [f[4]] + f[5..] && f[5..] == [f[5]] + f[6..] && f[6..] == [f[6]] + f[7..] && f[7..] == [f[7]] + [];
    assert map[] + n.properties == n.properties;
  }

  lemma EdgeDraftOf(codec: Codec, e: Edge)
    requires Lawful(codec) && EdgeInRange(e)
    ensures EdgeDraft(codec, EMPTY_DRAFT, EdgeFields(codec, e))
         == Draft(Some(e.uuid), Sanitize(e.kind), "", "", "", Some(e.weight), Some(e.createdAt), None, e.properties)
  {
    var f := EdgeFields(codec, e);
    DecIntRoundTrip(e.createdAt);
    var d1 := SetEdgeField(codec, EMPTY_DRAFT, f[0]);
    var d2 := SetEdgeField(codec, d1, f[1]);
    var d3 := SetEdgeField(codec, d2, f[2]);
    var d4 := SetEdgeField(codec, d3, f[3]);
    EdgeDraftStep(codec, EMPTY_DRAFT, f[0], f[1..]);
    EdgeDraftStep(codec, d1, f[1], f[2..]);
    EdgeDraftStep(codec, d2, f[2], f[3..]);
    EdgeDraftStep(codec, d3, f[3], f[4..]);
    EdgeDraftStep(codec, d4, f[4], []);
    assert f == [f[0]] + f[1..] && f[1..] == [f[1]] + f[2..] && f[2..] == [f[2]] + f[3..];
    assert f[3..] == [f[3]] + f[4..] && f[4..] == [f[4]] + [];
    assert map[] + e.properties == e.properties;
  }

  lemma NodeRead(codec: Codec, defaults: Defaults, nth: nat, n: Node)
    requires Lawful(codec) && NodeInRange(n)
    ensures MakeNode(codec, defaults, nth, n.id, NodeFields(codec, n)) == CleanNode(n)
  {
    NodeDraftOf(codec, n);
  }

  lemma EdgeRead(codec: Codec, defaults: Defaults, nth: nat, e: Edge)
    requires Lawful(codec) && EdgeInRange(e)
    ensures MakeEdge(codec, defaults, nth, e.id, e.from, e.to, EdgeFields(codec, e)) == CleanEdge(e)
  {
    EdgeDraftOf(codec, e);
  }

  // ----- raw records ---------------------------------------------------------------------------------

  function RawNodeOf(codec: Codec, n: Node): RawNode {
    RawNode("n" + Dec(n.id), NodeFields(codec, n))
  }

  function RawEdgeOf(codec: Codec, e: Edge): RawEdge {
    RawEdge(Some("e" + Dec(e.id)), "n" + Dec(e.from), "n" + Dec(e.to), EdgeFields(codec, e))
  }

  function RawNodesOf(codec: Codec, nodes: seq<Node>): seq<RawNode> {
    seq(|nodes|, i requires 0 <= i < |nodes| => RawNodeOf(codec, nodes[i]))
  }

  function RawEdgesOf(codec: Codec, edges: seq<Edge>): seq<RawEdge> {
    seq(|edges|, i requires 0 <= i < |edges| => RawEdgeOf(codec, edges[i]))
  }

  lemma NodeCollected(codec: Codec, n: Node)
    requires Lawful(codec)
    ensures RawOf(TheElement(NodeMarkup(codec, n)), SchemaKeys()) == Ok(Raw([RawNodeOf(codec, n)], []))
  {
    var id := "n" + Dec(n.id);
    NodeIdPlain(n.id);
    OneAttrOf("id", id);
    NodeKeysPlain(codec, n);
    NodeFieldsNamed(codec, n);
    RecordElement("node", [Spaced(" ", "id", id)], NodeData(codec, n), SchemaKeys());
  }

  lemma AttrOfSecond(a: Attr, rest: seq<Attr>, key: string)
    requires a.name != key
    ensures AttrOf([a] + rest, key) == AttrOf(rest, key)
  {
    assert ([a] + rest)[1..] == rest;
  }

  lemma ThreeAttrsOf(a: string, b: string, c: string)
    requires IsPlain(a) && IsPlain(b) && IsPlain(c)
    ensures var attrs := AttrsOf([Spaced(" ", "id", a), Spaced(" ", "source", b), Spaced(" ", "target", c)]);
            AttrOf(attrs, "id") == Some(a) && AttrOf(attrs, "source") == Some(b) && AttrOf(attrs, "target") == Some(c)
  {
    PlainIsItself(a);
    PlainIsItself(b);
    PlainIsItself(c);
    var attrs := AttrsOf([Spaced(" ", "id", a), Spaced(" ", "source", b), Spaced(" ", "target", c)]);
    assert attrs == [Attr("id", a), Attr("source", b), Attr("target", c)];
    assert "id" != "source" && "id" != "target" && "source" != "target";
    AttrOfSecond(Attr("id", a), [Attr("source", b), Attr("target", c)], "source");
    AttrOfSecond(Attr("id", a), [Attr("source", b), Attr("target", c)], "target");
    AttrOfSecond(Attr("source", b), [Attr("target", c)], "target");
    assert attrs == [Attr("id", a)] + [Attr("source", b), Attr("target", c)];
    assert [Attr("source", b), Attr("target", c)] == [Attr("source", b)] + [Attr("target", c)];
  }

  lemma EdgeCollected(codec: Codec, e: Edge)
    requires Lawful(codec)
    ensures RawOf(TheElement(EdgeMarkup(codec, e)), SchemaKeys()) == Ok(Raw([], [RawEdgeOf(codec, e)]))
  {
    var id, from, to := "e" + Dec(e.id), "n" + Dec(e.from), "n" + Dec(e.to);
    NodeIdPlain(e.id);
    NodeIdPlain(e.from);
    NodeIdPlain(e.to);
    ThreeAttrsOf(id, from, to);
    EdgeKeysPlain(codec, e);
    EdgeFieldsNamed(codec, e);
    RecordElement("edge", [Spaced(" ", "id", id), Spaced(" ", "source", from), Spaced(" ", "target", to)],
                  EdgeData(codec, e), SchemaKeys());
    assert "edge" != "node";
  }

  /** One more element read. */
  lemma CollectSnoc(children: seq<Element>, e: Element, keys: map<string, string>, before: Raw, one: Raw)
    requires CollectRaw(children, keys) == Ok(before) && RawOf(e, keys) == Ok(one)
    ensures CollectRaw(children + [e], keys) == Ok(Raw(before.nodes + one.nodes, before.edges + one.edges))
  {
    assert (children + [e])[..|children|] == children;
  }

  lemma ElementsSnoc(items: seq<Markup>)
    requires AllElements(items) && items != []
    ensures Elements(items) == Elements(items[..|items| - 1]) + [TheElement(items[|items| - 1])]
  {
  }

  lemma NodesSnoc(codec: Codec, nodes: seq<Node>)
    requires nodes != []
    ensures var front, last := nodes[..|nodes| - 1], nodes[|nodes| - 1];
            && Elements(NodeMarkups(codec, nodes)) == Elements(NodeMarkups(codec, front)) + [TheElement(NodeMarkup(codec, last))]
            && RawNodesOf(codec, nodes) == RawNodesOf(codec, front) + [RawNodeOf(codec, last)]
  {
    ElementsSnoc(NodeMarkups(codec, nodes));
    assert NodeMarkups(codec, nodes)[..|nodes| - 1] == NodeMarkups(codec, nodes[..|nodes| - 1]);
  }

  lemma EdgesSnoc(codec: Codec, edges: seq<Edge>)
    requires edges != []
    ensures var front, last := edges[..|edges| - 1], edges[|edges| - 1];
            && Elements(EdgeMarkups(codec, edges)) == Elements(EdgeMarkups(codec, front)) + [TheElement(EdgeMarkup(codec, last))]
            && RawEdgesOf(codec, edges) == RawEdgesOf(codec, front) + [RawEdgeOf(codec, last)]
  {
    ElementsSnoc(EdgeMarkups(codec, edges));
    EdgeMarkupsFront(codec, edges);
  }

  lemma {:induction false} NodesCollected(codec: Codec, nodes: seq<Node>)
    requires Lawful(codec)
    ensures CollectRaw(Elements(NodeMarkups(codec, nodes)), SchemaKeys()) == Ok(Raw(RawNodesOf(codec, nodes), []))
    decreases |nodes|
  {
    hide Lawful, RawOf, RawNodeOf, SchemaKeys;
    if nodes == [] {
      assert Elements(NodeMarkups(codec, nodes)) == [] && RawNodesOf(codec, nodes) == [];
    } else {
      var front, last := nodes[..|nodes| - 1], nodes[|nodes| - 1];
      NodesCollected(codec, front);
      NodeCollected(codec, last);
      NodesSnoc(codec, nodes);
      CollectSnoc(Elements(NodeMarkups(codec, front)), TheElement(NodeMarkup(codec, last)), SchemaKeys(),
                  Raw(RawNodesOf(codec, front), []), Raw([RawNodeOf(codec, last)], []));
      var none: seq<RawEdge> := [];
      assert none + none == none;
    }
  }

  lemma {:induction false} EdgesCollected(codec: Codec, nodes: seq<Node>, edges: seq<Edge>)
    requires Lawful(codec)
    ensures CollectRaw(Elements(NodeMarkups(codec, nodes)) + Elements(EdgeMarkups(codec, edges)), SchemaKeys())
         == Ok(Raw(RawNodesOf(codec, nodes), RawEdgesOf(codec, edges)))
    decreases |edges|
  {
    hide Lawful, CollectRaw, RawOf, RawNodesOf, RawNodeOf, RawEdgeOf, SchemaKeys;
    var ns := Elements(NodeMarkups(codec, nodes));
    if edges == [] {
      NodesCollected(codec, nodes);
      assert Elements(EdgeMarkups(codec, edges)) == [] && RawEdgesOf(codec, edges) == [];
      assert ns + [] == ns;
    } else {
      var front, last := edges[..|edges| - 1], edges[|edges| - 1];
      var es, e := Elements(EdgeMarkups(codec, front)), TheElement(EdgeMarkup(codec, last));
      EdgesCollected(codec, nodes, front);
      EdgeCollected(codec, last);
      EdgesSnoc(codec, edges);
      CollectSnoc(ns + es, e, SchemaKeys(),
                  Raw(RawNodesOf(codec, nodes), RawEdgesOf(codec, front)), Raw([], [RawEdgeOf(codec, last)]));
      ConcatAssoc(ns, es, [e]);
      assert RawNodesOf(codec, nodes) + [] == RawNodesOf(codec, nodes);
    }
  }

  lemma ConcatAssoc(a: seq<Element>, b: seq<Element>, c: seq<Element>)
    ensures a + b + c == a + (b + c)
  {
  }

  // ----- records ---------------------------------------------------------------------------------------

  lemma PrefixedId(prefix: char, id: nat)
    requires id < U64_LIMIT
    ensures ParsePrefixed([prefix] + Dec(id), prefix) == Some(id)
  {
    DecValue(id);
    assert ([prefix] + Dec(id))[1..] == Dec(id);
  }

  /** The import finds a node under the id it was exported with, and no other. */
  lemma ExportedIds(codec: Codec, nodes: seq<Node>, dbMax: nat, id: nat)
    requires id < U64_LIMIT && forall i :: 0 <= i < |nodes| ==> NodeInRange(nodes[i])
    ensures var ids := NodeIds(RawNodesOf(codec, nodes), dbMax);
            && ("n" + Dec(id) in ids <==> HasNode(nodes, id))
            && (HasNode(nodes, id) ==> ids["n" + Dec(id)] == id)
  {
    var raws := RawNodesOf(codec, nodes);
    var ids := NodeIds(raws, dbMax);
    var raw := "n" + Dec(id);
    PrefixedId('n', id);
    ImportedIds(raws, dbMax);
    if HasNode(nodes, id) {
      var i :| 0 <= i < |nodes| && nodes[i].id == id;
      assert raws[i].raw == raw;
    }
    if raw in ids {
      var i := DeclaredIsNode(raws, dbMax, raw);
      PrefixedId('n', nodes[i].id);
      assert nodes[i].id == id;
    }
  }

  lemma NodesRead(codec: Codec, defaults: Defaults, nodes: seq<Node>, dbMax: nat)
    requires Lawful(codec) && forall i :: 0 <= i < |nodes| ==> NodeInRange(nodes[i])
    ensures MakeNodes(codec, defaults, RawNodesOf(codec, nodes), NodeIds(RawNodesOf(codec, nodes), dbMax)) == CleanNodes(nodes)
  {
    var raws := RawNodesOf(codec, nodes);
    var ids := NodeIds(raws, dbMax);
    var made := MakeNodes(codec, defaults, raws, ids);
    forall i | 0 <= i < |nodes|
      ensures made[i] == CleanNode(nodes[i])
    {
      assert HasNode(nodes, nodes[i].id);
      ExportedIds(codec, nodes, dbMax, nodes[i].id);
      NodeRead(codec, defaults, i, nodes[i]);
    }
  }

  lemma {:induction false} EdgesRead(codec: Codec, defaults: Defaults, nodes: seq<Node>, edges: seq<Edge>, dbMax: nat, base: nat)
    requires Lawful(codec) && InRange(nodes, edges)
    ensures var made := MakeEdges(codec, defaults, RawEdgesOf(codec, edges), NodeIds(RawNodesOf(codec, nodes), dbMax), base);
            if EndpointsExist(nodes, edges) then made == Ok((CleanEdges(edges), base)) else made.Err?
    decreases |edges|
  {
    hide MakeEdge, NodeIds, HasNode, RawNodesOf, Dec, EdgeFields, Lawful, CleanEdge, ParsePrefixed;
    var ids, raws := NodeIds(RawNodesOf(codec, nodes), dbMax), RawEdgesOf(codec, edges);
    if edges == [] {
      assert raws == [] && CleanEdges(edges) == [];
    } else {
      var front, last := edges[..|edges| - 1], edges[|edges| - 1];
      EdgesRead(codec, defaults, nodes, front, dbMax, base);
      EdgesSnoc(codec, edges);
      assert raws[..|edges| - 1] == RawEdgesOf(codec, front) && raws[|edges| - 1] == RawEdgeOf(codec, last);
      ExportedIds(codec, nodes, dbMax, last.from);
      ExportedIds(codec, nodes, dbMax, last.to);
      EndpointsSplit(nodes, edges);
      PrefixedId('e', last.id);
      EdgeRead(codec, defaults, |edges| - 1, last);
      assert CleanEdges(edges) == CleanEdges(front) + [CleanEdge(last)];
    }
  }

  lemma EndpointsSplit(nodes: seq<Node>, edges: seq<Edge>)
    requires edges != []
    ensures EndpointsExist(nodes, edges)
       <==> EndpointsExist(nodes, edges[..|edges| - 1])
            && HasNode(nodes, edges[|edges| - 1].from) && HasNode(nodes, edges[|edges| - 1].to)
  {
    hide HasNode;
    var front := edges[..|edges| - 1];
    assert forall k :: 0 <= k < |edges| - 1 ==> front[k] == edges[k];
  }

  // ----- the theorem -----------------------------------------------------------------------------------

  lemma {:induction false} FirstNamedSkips(skipped: seq<Element>, e: Element, name: string)
    requires e.name == name && forall i :: 0 <= i < |skipped| ==> skipped[i].name != name
    ensures FirstNamed(skipped + [e], name) == Some(e)
    decreases |skipped|
  {
    if skipped == [] {
      assert skipped + [e] == [e];
    } else {
      assert (skipped + [e])[1..] == skipped[1..] + [e];
      FirstNamedSkips(skipped[1..], e, name);
    }
  }

  lemma ElementsAppend(a: seq<Markup>, b: seq<Markup>)
    requires AllElements(a) && AllElements(b)
    ensures AllElements(a + b) && Elements(a + b) == Elements(a) + Elements(b)
  {
  }

  lemma OneElement(m: Markup)
    requires IsElement(m)
    ensures Elements([m]) == [TheElement(m)]
  {
  }

  function KeyElements(): seq<Element> {
    Elements(KeyMarkups(NODE_KEYS, "node")) + Elements(KeyMarkups(EDGE_KEYS, "edge"))
  }

  /** The root element's children: the keys, then the graph. */
  lemma RootChildren(codec: Codec, nodes: seq<Node>, edges: seq<Edge>)
    ensures ElementsOf(Lines("  ", GraphmlItems(codec, nodes, edges), ""))
         == KeyElements() + [TheElement(GraphMarkup(codec, nodes, edges))]
  {
    var a, b, g := KeyMarkups(NODE_KEYS, "node"), KeyMarkups(EDGE_KEYS, "edge"), GraphMarkup(codec, nodes, edges);
    ElementsAppend(a, b);
    ElementsAppend(a + b, [g]);
    OneElement(g);
    LinesElements("  ", a + b + [g], "");
  }

  lemma GraphFound(graph: Element)
    requires graph.name == "graph"
    ensures FirstNamed(KeyElements() + [graph], "graph") == Some(graph)
  {
    assert "key" != "graph";
    FirstNamedSkips(KeyElements(), graph, "graph");
  }

  lemma KeysFound(graph: Element)
    requires graph.name == "graph"
    ensures KeyMap(KeyElements() + [graph]) == SchemaKeys()
  {
    var n, e := Elements(KeyMarkups(NODE_KEYS, "node")), Elements(KeyMarkups(EDGE_KEYS, "edge"));
    assert "key" != "graph";
    assert (n + e + [graph])[..|n + e|] == n + e;
    NodeSchemaPlain();
    EdgeSchemaPlain();
    KeyMapDeclares([], NODE_KEYS, "node");
    assert [] + n == n;
    KeyMapDeclares(n, EDGE_KEYS, "edge");
  }

  lemma GraphChildren(codec: Codec, nodes: seq<Node>, edges: seq<Edge>)
    ensures TheElement(GraphMarkup(codec, nodes, edges)).children
         == Elements(NodeMarkups(codec, nodes)) + Elements(EdgeMarkups(codec, edges))
  {
    ElementsAppend(NodeMarkups(codec, nodes), EdgeMarkups(codec, edges));
    LinesElements("    ", GraphItems(codec, nodes, edges), "  ");
  }

  lemma RootsRead(codec: Codec, defaults: Defaults, nodes: seq<Node>, edges: seq<Edge>, dbMaxNode: nat, dbMaxEdge: nat)
    requires Lawful(codec)
    ensures RecordsOfRoots(codec, defaults, [TheElement(GraphmlMarkup(codec, nodes, edges))], dbMaxNode, dbMaxEdge)
         == RecordsOfRaw(codec, defaults, Raw(RawNodesOf(codec, nodes), RawEdgesOf(codec, edges)), dbMaxNode, dbMaxEdge)
  {
    RootChildren(codec, nodes, edges);
    GraphFound(TheElement(GraphMarkup(codec, nodes, edges)));
    KeysFound(TheElement(GraphMarkup(codec, nodes, edges)));
    GraphChildren(codec, nodes, edges);
    EdgesCollected(codec, nodes, edges);
  }

  lemma DocumentElements(decl: string, root: Markup)
    requires IsElement(root)
    ensures ElementsOf(More("", Instruction(decl), More("\n", root, Done("\n")))) == [TheElement(root)]
  {
    assert ElementsOf(Done("\n")) == [];
    assert ElementsOf(More("\n", root, Done("\n"))) == [TheElement(root)];
  }

  /** The exported document is read as its root element. */
  lemma ParsedBack(codec: Codec, nodes: seq<Node>, edges: seq<Edge>)
    ensures ParseXml(Render(codec, nodes, edges)) == Ok([TheElement(GraphmlMarkup(codec, nodes, edges))])
  {
    RenderIsDocument(codec, nodes, edges);
    DocumentOk(codec, nodes, edges);
    ParsePrinted(Document(codec, nodes, edges));
    DocumentElements(DECLARATION, GraphmlMarkup(codec, nodes, edges));
  }

  /** Importing an exported graph succeeds exactly when every edge joins exported nodes, and
      then returns the same nodes and edges, with forbidden control characters replaced. */
  lemma GraphRoundTrip(codec: Codec, defaults: Defaults, nodes: seq<Node>, edges: seq<Edge>, dbMaxNode: nat, dbMaxEdge: nat)
    requires Lawful(codec) && InRange(nodes, edges)
    ensures var imported := Records(codec, defaults, Render(codec, nodes, edges), dbMaxNode, dbMaxEdge);
            && (imported.Ok? <==> EndpointsExist(nodes, edges))
            && (imported.Ok? ==> imported.value == (CleanNodes(nodes), CleanEdges(edges)))
  {
    ParsedBack(codec, nodes, edges);
    RootsRead(codec, defaults, nodes, edges, dbMaxNode, dbMaxEdge);
    NodesRead(codec, defaults, nodes, dbMaxNode);
    EdgesRead(codec, defaults, nodes, edges, dbMaxNode, EdgeBase(RawEdgesOf(codec, edges), dbMaxEdge));
  }

  lemma {:induction false} NodesRenderedAgain(codec: Codec, nodes: seq<Node>)
    ensures RenderNodes(codec, CleanNodes(nodes)) == RenderNodes(codec, nodes)
    decreases |nodes|
  {
    hide RenderNode, CleanNode;
    if nodes != [] {
      var front, n := nodes[..|nodes| - 1], nodes[|nodes| - 1];
      NodesRenderedAgain(codec, front);
      assert CleanNodes(nodes)[..|nodes| - 1] == CleanNodes(front);
      NodeRenderedAgain(codec, n);
    }
  }

  /** Data whose values are escaped alike are written alike. */
  lemma {:induction false} DataRenderedAlike(a: seq<Datum>, b: seq<Datum>)
    requires |a| == |b|
    requires forall i :: 0 <= i < |a| ==> a[i].name == b[i].name && Escape(a[i].value) == Escape(b[i].value)
    ensures RenderData(a) == RenderData(b)
    decreases |a|
  {
    if a != [] {
      DataRenderedAlike(a[..|a| - 1], b[..|b| - 1]);
    }
  }

  lemma NodeRenderedAgain(codec: Codec, n: Node)
    ensures RenderNode(codec, CleanNode(n)) == RenderNode(codec, n)
  {
    hide Escape, Sanitize, RenderData, Dec, DecInt;
    EscapeSanitized(n.kind);
    EscapeSanitized(n.title);
    EscapeSanitized(n.body);
    EscapeSanitized(n.bodyHtml);
    DataRenderedAlike(NodeData(codec, CleanNode(n)), NodeData(codec, n));
  }

  lemma EdgeRenderedAgain(codec: Codec, e: Edge)
    ensures RenderEdge(codec, CleanEdge(e)) == RenderEdge(codec, e)
  {
    hide Escape, Sanitize, RenderData, Dec, DecInt;
    EscapeSanitized(e.kind);
    DataRenderedAlike(EdgeData(codec, CleanEdge(e)), EdgeData(codec, e));
  }

  lemma {:induction false} EdgesRenderedAgain(codec: Codec, edges: seq<Edge>)
    ensures RenderEdges(codec, CleanEdges(edges)) == RenderEdges(codec, edges)
    decreases |edges|
  {
    hide RenderEdge, CleanEdge;
    if edges != [] {
      var front, e := edges[..|edges| - 1], edges[|edges| - 1];
      EdgesRenderedAgain(codec, front);
      assert CleanEdges(edges)[..|edges| - 1] == CleanEdges(front);
      EdgeRenderedAgain(codec, e);
    }
  }

  /** Exporting what was imported writes the identical document. */
  lemma ExportIsStable(codec: Codec, defaults: Defaults, nodes: seq<Node>, edges: seq<Edge>, dbMaxNode: nat, dbMaxEdge: nat)
    requires Lawful(codec) && InRange(nodes, edges) && EndpointsExist(nodes, edges)
    ensures var document := Render(codec, nodes, edges);
            var imported := Records(codec, defaults, document, dbMaxNode, dbMaxEdge);
            imported.Ok? && Render(codec, imported.value.0, imported.value.1) == document
  {
    GraphRoundTrip(codec, defaults, nodes, edges, dbMaxNode, dbMaxEdge);
    NodesRenderedAgain(codec, nodes);
    EdgesRenderedAgain(codec, edges);
  }
}
