/** The GraphML printer (`render_graphml` of `src/dump.rs`), and the document tree its text
    is the printed form of. */
module GraphmlDocument {
  import opened Prelude
  import opened Text
  import opened XmlText
  import opened XmlReader
  import opened XmlRoundTrip
  import opened GraphmlImport

  // ----- the text, as the program writes it ------------------------------------------

  const DECLARATION := "xml version=\"1.0\" encoding=\"UTF-8\""
  const NAMESPACE := "http://graphml." + "graphdrawing.org" + "/xmlns"
  const INSTANCE := "http://www.w3.org" + "/2001/XMLSchema" + "-instance"
  const SCHEMA := "/1.0/graphml.xsd"

  /** A `<key>` declaration: its id, the name it stands for, and its type. */
  datatype Key = Key(id: string, name: string, kind: string)

  const NODE_KEYS: seq<Key> := [
    Key("d_uuid", "uuid", "string"),
    Key("d_kind", "kind", "string"),
    Key("d_title", "title", "string"),
    Key("d_body", "body", "string"),
    Key("d_body_html", "body_html", "string"),
    Key("d_created_at", "created_at", "long"),
    Key("d_updated_at", "updated_at", "long"),
    Key("d_props", "properties", "string")]

  const EDGE_KEYS: seq<Key> := [
    Key("d_e_uuid", "uuid", "string"),
    Key("d_e_kind", "kind", "string"),
    Key("d_e_weight", "weight", "double"),
    Key("d_e_created_at", "created_at", "long"),
    Key("d_e_props", "properties", "string")]

  function RenderKey(key: Key, target: string): string {
    "  <key id=\"" + key.id + "\" for=\"" + target + "\" attr.name=\"" + key.name
    + "\" attr.type=\"" + key.kind + "\"/>\n"
  }

  function RenderKeys(keys: seq<Key>, target: string): string {
    if keys == [] then "" else RenderKeys(keys[..|keys| - 1], target) + RenderKey(keys[|keys| - 1], target)
  }

  /** `push_data`. */
  function RenderDatum(d: Datum): string {
    "      <data key=\"" + d.name + "\">" + Escape(d.value) + "</data>\n"
  }

  function RenderData(data: seq<Datum>): string {
    if data == [] then "" else RenderData(data[..|data| - 1]) + RenderDatum(data[|data| - 1])
  }

  function NodeData(codec: Codec, n: Node): seq<Datum> {
    [Datum("d_uuid", codec.printUuid(n.uuid)),
     Datum("d_kind", n.kind),
     Datum("d_title", n.title),
     Datum("d_body", n.body),
     Datum("d_body_html", n.bodyHtml),
     Datum("d_created_at", DecInt(n.createdAt)),
     Datum("d_updated_at", DecInt(n.updatedAt)),
     Datum("d_props", codec.printProps(n.properties))]
  }

  function EdgeData(codec: Codec, e: Edge): seq<Datum> {
    [Datum("d_e_uuid", codec.printUuid(e.uuid)),
     Datum("d_e_kind", e.kind),
     Datum("d_e_weight", codec.printWeight(e.weight)),
     Datum("d_e_created_at", DecInt(e.createdAt)),
     Datum("d_e_props", codec.printProps(e.properties))]
  }

  function RenderNode(codec: Codec, n: Node): string {
    "    <node id=\"n" + Dec(n.id) + "\">\n" + RenderData(NodeData(codec, n)) + "    </node>\n"
  }

  function RenderEdge(codec: Codec, e: Edge): string {
    "    <edge id=\"e" + Dec(e.id) + "\" source=\"n" + Dec(e.from) + "\" target=\"n" + Dec(e.to) + "\">\n"
    + RenderData(EdgeData(codec, e)) + "    </edge>\n"
  }

  function RenderNodes(codec: Codec, nodes: seq<Node>): string {
    if nodes == [] then ""
    else RenderNodes(codec, nodes[..|nodes| - 1]) + RenderNode(codec, nodes[|nodes| - 1])
  }

  function RenderEdges(codec: Codec, edges: seq<Edge>): string {
    if edges == [] then ""
    else RenderEdges(codec, edges[..|edges| - 1]) + RenderEdge(codec, edges[|edges| - 1])
  }

  function Header(): string {
    "<?" + DECLARATION + "?>\n"
    + "<graphml xmlns=\"" + NAMESPACE + "\"\n         xmlns:xsi=\"" + INSTANCE
    + "\"\n         xsi:schemaLocation=\"" + (NAMESPACE + " " + NAMESPACE + SCHEMA) + "\">\n"
  }

  function OpenGraph(): string {
    "  <graph id=\"" + "drevo" + "\" edgedefault=\"" + "directed" + "\">\n"
  }

  /** `render_graphml`. */
  function Render(codec: Codec, nodes: seq<Node>, edges: seq<Edge>): string {
    Header() + RenderKeys(NODE_KEYS, "node") + RenderKeys(EDGE_KEYS, "edge")
    + OpenGraph()
    + RenderNodes(codec, nodes) + RenderEdges(codec, edges)
    + "  </graph>\n" + "</graphml>\n"
  }

  // ----- the loops ---------------------------------------------------------------------

  method PushDatum(d: Datum) returns (line: string)
    ensures line == RenderDatum(d)
  {
    hide Escape;
    line := PushEscaped("      <data key=\"" + d.name + "\">", d.value);
    line := line + "</data>\n";
  }

  method PushData(out: string, data: seq<Datum>) returns (r: string)
    ensures r == out + RenderData(data)
  {
    hide RenderDatum;
    r := out;
    var i := 0;
    while i < |data|
      invariant 0 <= i <= |data| && r == out + RenderData(data[..i])
    {
      assert data[..i + 1][..i] == data[..i];
      var line := PushDatum(data[i]);
      Assoc(out, RenderData(data[..i]), RenderDatum(data[i]));
      r := r + line;
      i := i + 1;
    }
    assert data[..i] == data;
  }

  method PushNode(codec: Codec, out: string, n: Node) returns (r: string)
    ensures r == out + RenderNode(codec, n)
  {
    hide RenderData, NodeData, Dec;
    var open := PushData("    <node id=\"n" + Dec(n.id) + "\">\n", NodeData(codec, n));
    r := out + (open + "    </node>\n");
  }

  method PushEdge(codec: Codec, out: string, e: Edge) returns (r: string)
    ensures r == out + RenderEdge(codec, e)
  {
    hide RenderData, EdgeData, Dec;
    var open := PushData("    <edge id=\"e" + Dec(e.id) + "\" source=\"n" + Dec(e.from)
                         + "\" target=\"n" + Dec(e.to) + "\">\n", EdgeData(codec, e));
    r := out + (open + "    </edge>\n");
  }

  method PushKeys(out: string, keys: seq<Key>, target: string) returns (r: string)
    ensures r == out + RenderKeys(keys, target)
  {
    hide RenderKey;
    r := out;
    var i := 0;
    while i < |keys|
      invariant 0 <= i <= |keys| && r == out + RenderKeys(keys[..i], target)
    {
      assert keys[..i + 1][..i] == keys[..i];
      Assoc(out, RenderKeys(keys[..i], target), RenderKey(keys[i], target));
      r := r + RenderKey(keys[i], target);
      i := i + 1;
    }
    assert keys[..i] == keys;
  }

  method PushNodes(codec: Codec, out: string, nodes: seq<Node>) returns (r: string)
    ensures r == out + RenderNodes(codec, nodes)
  {
    hide RenderNode;
    r := out;
    var i := 0;
    while i < |nodes|
      invariant 0 <= i <= |nodes| && r == out + RenderNodes(codec, nodes[..i])
    {
      assert nodes[..i + 1][..i] == nodes[..i];
      Assoc(out, RenderNodes(codec, nodes[..i]), RenderNode(codec, nodes[i]));
      r := PushNode(codec, r, nodes[i]);
      i := i + 1;
    }
    assert nodes[..i] == nodes;
  }

  method PushEdges(codec: Codec, out: string, edges: seq<Edge>) returns (r: string)
    ensures r == out + RenderEdges(codec, edges)
  {
    hide RenderEdge;
    r := out;
    var i := 0;
    while i < |edges|
      invariant 0 <= i <= |edges| && r == out + RenderEdges(codec, edges[..i])
    {
      assert edges[..i + 1][..i] == edges[..i];
      Assoc(out, RenderEdges(codec, edges[..i]), RenderEdge(codec, edges[i]));
      r := PushEdge(codec, r, edges[i]);
      i := i + 1;
    }
    assert edges[..i] == edges;
  }

  method RenderGraphml(codec: Codec, nodes: seq<Node>, edges: seq<Edge>) returns (out: string)
    ensures out == Render(codec, nodes, edges)
  {
    hide Header, RenderKeys, OpenGraph, RenderNodes, RenderEdges;
    out := Header();
    out := PushKeys(out, NODE_KEYS, "node");
    out := PushKeys(out, EDGE_KEYS, "edge");
    out := PushNodes(codec, out + OpenGraph(), nodes);
    out := PushEdges(codec, out, edges);
    out := out + "  </graph>\n" + "</graphml>\n";
  }

  // ----- the document tree ----------------------------------------------------------------

  function Spaced(pad: string, name: string, value: string): PrintedAttr {
    PrintedAttr(pad, name, '"', value)
  }

  /** `items`, each on a line of its own, indented by `indent`; `last` indents what follows. */
  function Lines(indent: string, items: seq<Markup>, last: string): Content {
    if items == [] then Done("\n" + last)
    else More("\n" + indent, items[0], Lines(indent, items[1..], last))
  }

  function DatumMarkup(d: Datum): Markup {
    Paired("data", [Spaced(" ", "key", d.name)], Done(d.value))
  }

  function DataMarkup(data: seq<Datum>): seq<Markup> {
    seq(|data|, i requires 0 <= i < |data| => DatumMarkup(data[i]))
  }

  function NodeMarkup(codec: Codec, n: Node): Markup {
    Paired("node", [Spaced(" ", "id", "n" + Dec(n.id))],
           Lines("      ", DataMarkup(NodeData(codec, n)), "    "))
  }

  function EdgeMarkup(codec: Codec, e: Edge): Markup {
    Paired("edge", [Spaced(" ", "id", "e" + Dec(e.id)), Spaced(" ", "source", "n" + Dec(e.from)),
                    Spaced(" ", "target", "n" + Dec(e.to))],
           Lines("      ", DataMarkup(EdgeData(codec, e)), "    "))
  }

  function KeyMarkup(key: Key, target: string): Markup {
    SelfClosed("key", [Spaced(" ", "id", key.id), Spaced(" ", "for", target),
                       Spaced(" ", "attr.name", key.name), Spaced(" ", "attr.type", key.kind)])
  }

  function KeyMarkups(keys: seq<Key>, target: string): seq<Markup> {
    seq(|keys|, i requires 0 <= i < |keys| => KeyMarkup(keys[i], target))
  }

  function NodeMarkups(codec: Codec, nodes: seq<Node>): seq<Markup> {
    seq(|nodes|, i requires 0 <= i < |nodes| => NodeMarkup(codec, nodes[i]))
  }

  function EdgeMarkups(codec: Codec, edges: seq<Edge>): seq<Markup> {
    seq(|edges|, i requires 0 <= i < |edges| => EdgeMarkup(codec, edges[i]))
  }

  function GraphMarkup(codec: Codec, nodes: seq<Node>, edges: seq<Edge>): Markup {
    Paired("graph", [Spaced(" ", "id", "drevo"), Spaced(" ", "edgedefault", "directed")],
           Lines("    ", NodeMarkups(codec, nodes) + EdgeMarkups(codec, edges), "  "))
  }

  function SchemaAttrs(): seq<PrintedAttr> {
    [Spaced(" ", "xmlns", NAMESPACE),
     Spaced("\n         ", "xmlns:xsi", INSTANCE),
     Spaced("\n         ", "xsi:schemaLocation", NAMESPACE + " " + NAMESPACE + SCHEMA)]
  }

  function GraphmlItems(codec: Codec, nodes: seq<Node>, edges: seq<Edge>): seq<Markup> {
    KeyMarkups(NODE_KEYS, "node") + KeyMarkups(EDGE_KEYS, "edge") + [GraphMarkup(codec, nodes, edges)]
  }

  function GraphmlMarkup(codec: Codec, nodes: seq<Node>, edges: seq<Edge>): Markup {
    Paired("graphml", SchemaAttrs(), Lines("  ", GraphmlItems(codec, nodes, edges), ""))
  }

  function Document(codec: Codec, nodes: seq<Node>, edges: seq<Edge>): Content {
    More("", Instruction(DECLARATION), More("\n", GraphmlMarkup(codec, nodes, edges), Done("\n")))
  }

  // ----- the text is the printed document ------------------------------------------------

  /** Each of `items` on a line of its own. */
  function Block(indent: string, items: seq<Markup>): string {
    if items == [] then ""
    else Block(indent, items[..|items| - 1]) + Line(indent, items[|items| - 1])
  }

  function Line(indent: string, m: Markup): string {
    indent + PrintMarkup(m) + "\n"
  }

  lemma {:induction false} BlockFirst(indent: string, items: seq<Markup>)
    requires items != []
    ensures Block(indent, items) == Line(indent, items[0]) + Block(indent, items[1..])
    decreases |items|
  {
    if |items| == 1 {
      assert items[..0] == [] && items[1..] == [];
      assert Block(indent, items[..0]) == "" && Block(indent, items[1..]) == "";
      assert Line(indent, items[0]) + "" == Line(indent, items[0]) == "" + Line(indent, items[0]);
    } else {
      var front, last := items[..|items| - 1], items[|items| - 1];
      BlockFirst(indent, front);
      assert items[1..][..|items| - 2] == front[1..];
      assert Line(indent, items[0]) + Block(indent, front[1..]) + Line(indent, last)
          == Line(indent, items[0]) + (Block(indent, front[1..]) + Line(indent, last));
    }
  }

  lemma {:induction false} BlockAppend(indent: string, a: seq<Markup>, b: seq<Markup>)
    ensures Block(indent, a + b) == Block(indent, a) + Block(indent, b)
    decreases |b|
  {
    if b == [] {
      assert a + b == a;
      assert Block(indent, a) + "" == Block(indent, a);
    } else {
      assert (a + b)[..|a + b| - 1] == a + b[..|b| - 1];
      BlockAppend(indent, a, b[..|b| - 1]);
      assert Block(indent, a) + Block(indent, b[..|b| - 1]) + Line(indent, b[|b| - 1])
          == Block(indent, a) + (Block(indent, b[..|b| - 1]) + Line(indent, b[|b| - 1]));
    }
  }

  predicate IsIndent(s: string) {
    forall i :: 0 <= i < |s| ==> s[i] == ' '
  }

  lemma IndentPlain(s: string)
    requires IsIndent(s)
    ensures Escape("\n" + s) == "\n" + s
  {
    PlainIsItself("\n" + s);
  }

  lemma RegroupLines(nl: string, indent: string, m: string, rest: string, last: string)
    ensures (nl + indent) + m + (nl + rest + last) == nl + ((indent + m + nl) + rest) + last
  {
  }

  lemma {:induction false} LinesPrinted(indent: string, items: seq<Markup>, last: string)
    requires IsIndent(indent) && IsIndent(last)
    ensures PrintContent(Lines(indent, items, last)) == "\n" + Block(indent, items) + last
    decreases |items|
  {
    if items == [] {
      IndentPlain(last);
      assert "\n" + "" + last == "\n" + last;
    } else {
      IndentPlain(indent);
      LinesPrinted(indent, items[1..], last);
      BlockFirst(indent, items);
      RegroupLines("\n", indent, PrintMarkup(items[0]), Block(indent, items[1..]), last);
    }
  }

  lemma DigitsPlain(s: string)
    requires AllDigits(s)
    ensures IsPlain(s)
  {
  }

  /** An attribute whose value needs no escaping, as it is written out. */
  lemma PlainAttr(pad: string, name: string, value: string)
    requires IsPlain(value)
    ensures PrintAttr(Spaced(pad, name, value)) == pad + name + "=\"" + value + "\""
  {
    hide Escape;
    PlainIsItself(value);
    assert "=" + ['"'] == "=\"";
    RegroupAttr(pad, name, "=", ['"'], value);
  }

  lemma RegroupAttr(pad: string, name: string, eq: string, q: string, value: string)
    ensures pad + (name + eq + q + value + q) == pad + name + (eq + q) + value + q
  {
  }

  lemma OneAttr(a: PrintedAttr)
    ensures PrintAttrs([a]) == PrintAttr(a)
  {
    assert [a][1..] == [];
    assert PrintAttr(a) + "" == PrintAttr(a);
  }

  lemma FirstAttr(a: PrintedAttr, more: seq<PrintedAttr>)
    ensures PrintAttrs([a] + more) == PrintAttr(a) + PrintAttrs(more)
  {
    assert ([a] + more)[1..] == more;
  }

  lemma RegroupDatum(sp: string, lt: string, name: string, attr: string, gt: string, v: string, end: string, nl: string)
    ensures (sp + lt + name + attr + gt) + v + (end + name + gt + nl)
         == sp + (lt + (name + attr) + gt + v + end + name + gt) + nl
  {
  }

  lemma DatumText(key: string, v: string)
    ensures "      <data key=\"" + key + "\">" + v + "</data>\n"
         == ("      " + "<" + "data" + (" " + "key" + "=\"" + key + "\"") + ">") + v + ("</" + "data" + ">" + "\n")
  {
    assert "      <data key=\"" + key + "\">" == "      " + "<" + "data" + (" " + "key" + "=\"" + key + "\"") + ">";
    assert "</data>\n" == "</" + "data" + ">" + "\n";
  }

  lemma DatumPrinted(d: Datum)
    requires IsPlain(d.name)
    ensures RenderDatum(d) == Line("      ", DatumMarkup(d))
  {
    PlainAttr(" ", "key", d.name);
    OneAttr(Spaced(" ", "key", d.name));
    assert PrintTag("data", [Spaced(" ", "key", d.name)]) == "data" + (" " + "key" + "=\"" + d.name + "\"");
    DatumText(d.name, Escape(d.value));
    assert PrintContent(Done(d.value)) == Escape(d.value);
    RegroupDatum("      ", "<", "data", " " + "key" + "=\"" + d.name + "\"", ">", Escape(d.value), "</", "\n");
  }

  predicate KeysPlain(data: seq<Datum>) {
    forall i :: 0 <= i < |data| ==> IsPlain(data[i].name)
  }

  lemma {:induction false} DataPrinted(data: seq<Datum>)
    requires KeysPlain(data)
    ensures RenderData(data) == Block("      ", DataMarkup(data))
    decreases |data|
  {
    hide RenderDatum, Line, DatumMarkup;
    if data != [] {
      var front := data[..|data| - 1];
      DataPrinted(front);
      DatumPrinted(data[|data| - 1]);
      assert DataMarkup(data)[..|data| - 1] == DataMarkup(front);
    }
  }

  lemma NodeKeysPlain(codec: Codec, n: Node)
    ensures KeysPlain(NodeData(codec, n))
  {
    hide IsPlain;
    NodeSchemaPlain();
    var d := NodeData(codec, n);
    assert d[0].name == NODE_KEYS[0].id && d[1].name == NODE_KEYS[1].id && d[2].name == NODE_KEYS[2].id;
    assert d[3].name == NODE_KEYS[3].id && d[4].name == NODE_KEYS[4].id && d[5].name == NODE_KEYS[5].id;
    assert d[6].name == NODE_KEYS[6].id && d[7].name == NODE_KEYS[7].id;
    assert forall i :: 0 <= i < 8 ==> KeyPlain(NODE_KEYS[i]) && d[i].name == NODE_KEYS[i].id;
  }

  lemma EdgeKeysPlain(codec: Codec, e: Edge)
    ensures KeysPlain(EdgeData(codec, e))
  {
    hide IsPlain;
    EdgeSchemaPlain();
    var d := EdgeData(codec, e);
    assert d[0].name == EDGE_KEYS[0].id && d[1].name == EDGE_KEYS[1].id && d[2].name == EDGE_KEYS[2].id;
    assert d[3].name == EDGE_KEYS[3].id && d[4].name == EDGE_KEYS[4].id;
    assert forall i :: 0 <= i < 5 ==> KeyPlain(EDGE_KEYS[i]) && d[i].name == EDGE_KEYS[i].id;
  }

  lemma NodeIdPlain(id: nat)
    ensures IsPlain("n" + Dec(id)) && IsPlain("e" + Dec(id))
  {
    DigitsPlain(Dec(id));
  }

  /** An element with lines inside, as it is written out: opening tag, lines, closing tag. */
  lemma ElementLine(indent: string, name: string, attrs: seq<PrintedAttr>, inner: string, items: seq<Markup>)
    requires IsIndent(indent) && IsIndent(inner)
    ensures Line(indent, Paired(name, attrs, Lines(inner, items, indent)))
         == indent + "<" + PrintTag(name, attrs) + ">\n" + Block(inner, items) + indent + "</" + name + ">\n"
  {
    LinesPrinted(inner, items, indent);
    RegroupElement(indent, "<", PrintTag(name, attrs), ">", "\n", Block(inner, items), "</", name);
    assert ">" + "\n" == ">\n";
  }

  lemma RegroupElement(indent: string, lt: string, t: string, gt: string, nl: string, b: string, end: string, name: string)
    ensures indent + (lt + t + gt + (nl + b + indent) + end + name + gt) + nl
         == indent + lt + t + (gt + nl) + b + indent + end + name + (gt + nl)
  {
  }

  /** A node or edge, as it is written out. */
  lemma RecordPrinted(open: string, name: string, attrs: seq<PrintedAttr>, data: seq<Datum>, close: string)
    requires open == "    " + "<" + PrintTag(name, attrs) + ">\n" && close == "    </" + name + ">\n"
    requires KeysPlain(data)
    ensures open + RenderData(data) + close
         == Line("    ", Paired(name, attrs, Lines("      ", DataMarkup(data), "    ")))
  {
    DataPrinted(data);
    ElementLine("    ", name, attrs, "      ", DataMarkup(data));
    CloseText(open, Block("      ", DataMarkup(data)), close, name);
  }

  lemma CloseText(open: string, b: string, close: string, name: string)
    requires close == "    </" + name + ">\n"
    ensures open + b + close == open + b + "    " + "</" + name + ">\n"
  {
  }

  lemma OpenNodeText(id: string)
    ensures "    <node id=\"n" + id + "\">\n"
         == "    " + "<" + ("node" + (" " + "id" + "=\"" + ("n" + id) + "\"")) + ">\n"
  {
    assert "    <node id=\"n" == "    " + "<" + "node" + " " + "id" + "=\"" + "n";
    assert "\">\n" == "\"" + ">\n";
  }

  lemma NodePrinted(codec: Codec, n: Node)
    ensures RenderNode(codec, n) == Line("    ", NodeMarkup(codec, n))
  {
    var data, id := NodeData(codec, n), "n" + Dec(n.id);
    var attrs := [Spaced(" ", "id", id)];
    assert PrintTag("node", attrs) == "node" + (" " + "id" + "=\"" + id + "\"") by {
      NodeIdPlain(n.id);
      PlainAttr(" ", "id", id);
      OneAttr(attrs[0]);
    }
    OpenNodeText(Dec(n.id));
    NodeKeysPlain(codec, n);
    RecordPrinted("    <node id=\"n" + Dec(n.id) + "\">\n", "node", attrs, data, "    </node>\n");
  }

  lemma RegroupEdge(o: string, i: string, s: string, f: string, t: string, n: string, c: string,
                    head: string, a: string, b: string, d: string, end: string)
    requires o + i == head + a && s + f == b && t + n + c == d + end
    ensures o + i + s + f + t + n + c == head + (a + (b + d)) + end
  {
    assert o + i + s + f + t + n + c == (o + i) + (s + f) + (t + n + c);
  }

  lemma OpenEdgeText(id: string, from: string, to: string)
    ensures "    <edge id=\"e" + id + "\" source=\"n" + from + "\" target=\"n" + to + "\">\n"
         == "    " + "<" + ("edge" + ((" " + "id" + "=\"" + ("e" + id) + "\"")
                                   + ((" " + "source" + "=\"" + ("n" + from) + "\"")
                                      + (" " + "target" + "=\"" + ("n" + to) + "\"")))) + ">\n"
  {
    var a, b := " id=\"e" + id, "\" source=\"n" + from;
    var d, end := "\" target=\"n" + to + "\"", ">\n";
    assert "    <edge id=\"e" + id == "    <edge" + a;
    RegroupEdge("    <edge id=\"e", id, "\" source=\"n", from, "\" target=\"n", to, "\">\n", "    <edge", a, b, d, end);
    EdgeTagText(id, from, to);
    assert "    <edge" == "    " + "<" + "edge";
    assert ("    " + "<" + "edge") + (a + (b + d)) == "    " + "<" + ("edge" + (a + (b + d)));
  }

  lemma EdgeTagText(id: string, from: string, to: string)
    ensures " id=\"e" + id + ("\" source=\"n" + from + ("\" target=\"n" + to + "\""))
         == (" " + "id" + "=\"" + ("e" + id) + "\"")
            + ((" " + "source" + "=\"" + ("n" + from) + "\"") + (" " + "target" + "=\"" + ("n" + to) + "\""))
  {
    assert " id=\"e" == " " + "id" + "=\"" + "e";
    assert "\" source=\"n" == "\"" + (" " + "source" + "=\"" + "n");
    assert "\" target=\"n" == "\"" + (" " + "target" + "=\"" + "n");
  }

  lemma EdgeTag(e: Edge)
    ensures PrintTag("edge", [Spaced(" ", "id", "e" + Dec(e.id)), Spaced(" ", "source", "n" + Dec(e.from)),
                              Spaced(" ", "target", "n" + Dec(e.to))])
         == "edge" + ((" " + "id" + "=\"" + ("e" + Dec(e.id)) + "\"")
                      + ((" " + "source" + "=\"" + ("n" + Dec(e.from)) + "\"")
                         + (" " + "target" + "=\"" + ("n" + Dec(e.to)) + "\"")))
  {
    var a := Spaced(" ", "id", "e" + Dec(e.id));
    var b := Spaced(" ", "source", "n" + Dec(e.from));
    var c := Spaced(" ", "target", "n" + Dec(e.to));
    NodeIdPlain(e.id);
    NodeIdPlain(e.from);
    NodeIdPlain(e.to);
    PlainAttr(" ", "id", a.value);
    PlainAttr(" ", "source", b.value);
    PlainAttr(" ", "target", c.value);
    OneAttr(c);
    FirstAttr(b, [c]);
    FirstAttr(a, [b] + [c]);
    assert [a, b, c] == [a] + ([b] + [c]);
  }

  lemma EdgePrinted(codec: Codec, e: Edge)
    ensures RenderEdge(codec, e) == Line("    ", EdgeMarkup(codec, e))
  {
    var attrs := [Spaced(" ", "id", "e" + Dec(e.id)), Spaced(" ", "source", "n" + Dec(e.from)),
                  Spaced(" ", "target", "n" + Dec(e.to))];
    EdgeTag(e);
    OpenEdgeText(Dec(e.id), Dec(e.from), Dec(e.to));
    EdgeKeysPlain(codec, e);
    RecordPrinted("    <edge id=\"e" + Dec(e.id) + "\" source=\"n" + Dec(e.from) + "\" target=\"n" + Dec(e.to) + "\">\n",
                  "edge", attrs, EdgeData(codec, e), "    </edge>\n");
  }

  lemma {:induction false} NodesPrinted(codec: Codec, nodes: seq<Node>)
    ensures RenderNodes(codec, nodes) == Block("    ", NodeMarkups(codec, nodes))
    decreases |nodes|
  {
    hide RenderNode, Line, NodeMarkup;
    if nodes != [] {
      NodesPrinted(codec, nodes[..|nodes| - 1]);
      NodePrinted(codec, nodes[|nodes| - 1]);
      assert NodeMarkups(codec, nodes)[..|nodes| - 1] == NodeMarkups(codec, nodes[..|nodes| - 1]);
    }
  }

  lemma {:induction false} EdgesPrinted(codec: Codec, edges: seq<Edge>)
    ensures RenderEdges(codec, edges) == Block("    ", EdgeMarkups(codec, edges))
    decreases |edges|
  {
    hide RenderEdge, Line, EdgeMarkup;
    if edges != [] {
      EdgesPrinted(codec, edges[..|edges| - 1]);
      EdgePrinted(codec, edges[|edges| - 1]);
      EdgeMarkupsFront(codec, edges);
    }
  }

  lemma EdgeMarkupsFront(codec: Codec, edges: seq<Edge>)
    requires edges != []
    ensures EdgeMarkups(codec, edges)[..|edges| - 1] == EdgeMarkups(codec, edges[..|edges| - 1])
  {
    hide EdgeMarkup;
  }

  predicate KeyPlain(key: Key) {
    IsPlain(key.id) && IsPlain(key.name) && IsPlain(key.kind)
  }

  lemma KeyTag(key: Key, target: string)
    requires KeyPlain(key) && IsPlain(target)
    ensures PrintTag("key", KeyMarkup(key, target).attrs)
         == "key" + ((" " + "id" + "=\"" + key.id + "\"") + ((" " + "for" + "=\"" + target + "\"")
                     + ((" " + "attr.name" + "=\"" + key.name + "\"") + (" " + "attr.type" + "=\"" + key.kind + "\""))))
  {
    var attrs := KeyMarkup(key, target).attrs;
    var a, b, c, d := attrs[0], attrs[1], attrs[2], attrs[3];
    PlainAttr(" ", "id", key.id);
    PlainAttr(" ", "for", target);
    PlainAttr(" ", "attr.name", key.name);
    PlainAttr(" ", "attr.type", key.kind);
    OneAttr(d);
    FirstAttr(c, [d]);
    FirstAttr(b, [c] + [d]);
    FirstAttr(a, [b] + ([c] + [d]));
    assert attrs == [a] + ([b] + ([c] + [d]));
  }

  lemma KeyText(id: string, target: string, name: string, kind: string)
    ensures "  <key id=\"" + id + "\" for=\"" + target + "\" attr.name=\"" + name + "\" attr.type=\"" + kind + "\"/>\n"
         == "  " + ("<" + ("key" + ((" " + "id" + "=\"" + id + "\"") + ((" " + "for" + "=\"" + target + "\"")
                     + ((" " + "attr.name" + "=\"" + name + "\"") + (" " + "attr.type" + "=\"" + kind + "\""))))) + "/>") + "\n"
  {
    var a, b, c, d := " id=\"" + id + "\"", " for=\"" + target + "\"", " attr.name=\"" + name + "\"", " attr.type=\"" + kind + "\"";
    assert " id=\"" == " " + "id" + "=\"";
    assert " for=\"" == " " + "for" + "=\"";
    assert " attr.name=\"" == " " + "attr.name" + "=\"";
    assert " attr.type=\"" == " " + "attr.type" + "=\"";
    KeyTextCut(id, target, name, kind);
    RegroupKey("  ", "<", "key", a, b, c, d, "/>", "\n");
  }

  lemma RegroupKey(sp: string, lt: string, key: string, a: string, b: string, c: string, d: string, end: string, nl: string)
    ensures sp + lt + key + a + b + c + d + end + nl == sp + (lt + (key + (a + (b + (c + d)))) + end) + nl
  {
  }

  lemma KeyTextCut(id: string, target: string, name: string, kind: string)
    ensures "  <key id=\"" + id + "\" for=\"" + target + "\" attr.name=\"" + name + "\" attr.type=\"" + kind + "\"/>\n"
         == "  " + "<" + "key" + (" id=\"" + id + "\"") + (" for=\"" + target + "\"")
            + (" attr.name=\"" + name + "\"") + (" attr.type=\"" + kind + "\"") + "/>" + "\n"
  {
    assert "  <key id=\"" == "  " + "<" + "key" + " id=\"";
    assert "\" for=\"" == "\"" + " for=\"";
    assert "\" attr.name=\"" == "\"" + " attr.name=\"";
    assert "\" attr.type=\"" == "\"" + " attr.type=\"";
    assert "\"/>\n" == "\"" + "/>" + "\n";
  }

  lemma KeyPrinted(key: Key, target: string)
    requires KeyPlain(key) && IsPlain(target)
    ensures RenderKey(key, target) == Line("  ", KeyMarkup(key, target))
  {
    KeyTag(key, target);
    KeyText(key.id, target, key.name, key.kind);
  }

  lemma {:induction false} KeysPrinted(keys: seq<Key>, target: string)
    requires IsPlain(target) && forall i :: 0 <= i < |keys| ==> KeyPlain(keys[i])
    ensures RenderKeys(keys, target) == Block("  ", KeyMarkups(keys, target))
    decreases |keys|
  {
    hide RenderKey, Line, KeyMarkup, IsPlain;
    if keys != [] {
      KeysPrinted(keys[..|keys| - 1], target);
      KeyPrinted(keys[|keys| - 1], target);
      KeyMarkupsFront(keys, target);
    }
  }

  lemma KeyMarkupsFront(keys: seq<Key>, target: string)
    requires keys != []
    ensures KeyMarkups(keys, target)[..|keys| - 1] == KeyMarkups(keys[..|keys| - 1], target)
  {
    hide KeyMarkup;
  }

  lemma TypesPlain()
    ensures IsPlain("string") && IsPlain("long") && IsPlain("double")
  {
  }

  lemma NodeSchemaPlain()
    ensures forall i :: 0 <= i < |NODE_KEYS| ==> KeyPlain(NODE_KEYS[i])
  {
    hide KeyPlain;
    NodeNamesPlain();
    NodeTextsPlain();
    NodeTimesPlain();
    NodeOthersPlain();
  }

  lemma NodeNamesPlain()
    ensures KeyPlain(NODE_KEYS[0]) && KeyPlain(NODE_KEYS[1])
  {
    TypesPlain();
  }

  lemma NodeTextsPlain()
    ensures KeyPlain(NODE_KEYS[2]) && KeyPlain(NODE_KEYS[3])
  {
    TypesPlain();
  }

  lemma NodeTimesPlain()
    ensures KeyPlain(NODE_KEYS[5]) && KeyPlain(NODE_KEYS[6])
  {
    TypesPlain();
  }

  lemma NodeOthersPlain()
    ensures KeyPlain(NODE_KEYS[4]) && KeyPlain(NODE_KEYS[7])
  {
    TypesPlain();
  }

  lemma EdgeSchemaPlain()
    ensures forall i :: 0 <= i < |EDGE_KEYS| ==> KeyPlain(EDGE_KEYS[i])
  {
    hide KeyPlain;
    EdgeNamesPlain();
    EdgeWeightPlain();
    EdgeOthersPlain();
  }

  lemma EdgeNamesPlain()
    ensures KeyPlain(EDGE_KEYS[0]) && KeyPlain(EDGE_KEYS[1])
  {
    TypesPlain();
  }

  lemma EdgeWeightPlain()
    ensures KeyPlain(EDGE_KEYS[2])
  {
    TypesPlain();
  }

  lemma EdgeOthersPlain()
    ensures KeyPlain(EDGE_KEYS[3]) && KeyPlain(EDGE_KEYS[4])
  {
    TypesPlain();
  }

  // ----- the whole document --------------------------------------------------------------

  lemma GraphTag(id: string, edges: string)
    requires IsPlain(id) && IsPlain(edges)
    ensures PrintTag("graph", [Spaced(" ", "id", id), Spaced(" ", "edgedefault", edges)])
         == "graph" + ((" " + "id" + "=\"" + id + "\"") + (" " + "edgedefault" + "=\"" + edges + "\""))
  {
    var a, b := Spaced(" ", "id", id), Spaced(" ", "edgedefault", edges);
    PlainAttr(" ", "id", id);
    PlainAttr(" ", "edgedefault", edges);
    OneAttr(b);
    FirstAttr(a, [b]);
    assert [a, b] == [a] + [b];
  }

  lemma OpenGraphText(id: string, edges: string)
    ensures "  <graph id=\"" + id + "\" edgedefault=\"" + edges + "\">\n"
         == "  " + "<" + ("graph" + ((" " + "id" + "=\"" + id + "\"") + (" " + "edgedefault" + "=\"" + edges + "\""))) + ">\n"
  {
    assert "  <graph id=\"" == "  " + "<" + "graph" + " " + "id" + "=\"";
    assert "\" edgedefault=\"" == "\"" + (" " + "edgedefault" + "=\"");
    assert "\">\n" == "\"" + ">\n";
  }

  lemma GraphText(open: string, nodes: string, edges: string, head: string)
    requires open == head
    ensures open + nodes + edges + "  </graph>\n"
         == head + (nodes + edges) + "  " + "</" + "graph" + ">\n"
  {
    assert "  </graph>\n" == "  " + "</" + "graph" + ">\n";
  }

  lemma GraphElement(id: string, direction: string, items: seq<Markup>, nodes: string, edges: string)
    requires IsPlain(id) && IsPlain(direction) && nodes + edges == Block("    ", items)
    ensures "  <graph id=\"" + id + "\" edgedefault=\"" + direction + "\">\n" + nodes + edges + "  </graph>\n"
         == Line("  ", Paired("graph", [Spaced(" ", "id", id), Spaced(" ", "edgedefault", direction)],
                              Lines("    ", items, "  ")))
  {
    var attrs := [Spaced(" ", "id", id), Spaced(" ", "edgedefault", direction)];
    ElementLine("  ", "graph", attrs, "    ", items);
    GraphTag(id, direction);
    OpenGraphText(id, direction);
    GraphText("  <graph id=\"" + id + "\" edgedefault=\"" + direction + "\">\n", nodes, edges,
              "  " + "<" + PrintTag("graph", attrs) + ">\n");
  }

  lemma GraphWordsPlain()
    ensures IsPlain("drevo") && IsPlain("directed")
  {
  }

  lemma GraphPrinted(codec: Codec, nodes: seq<Node>, edges: seq<Edge>)
    ensures OpenGraph() + RenderNodes(codec, nodes) + RenderEdges(codec, edges) + "  </graph>\n"
         == Line("  ", GraphMarkup(codec, nodes, edges))
  {
    NodesPrinted(codec, nodes);
    EdgesPrinted(codec, edges);
    BlockAppend("    ", NodeMarkups(codec, nodes), EdgeMarkups(codec, edges));
    GraphWordsPlain();
    GraphElement("drevo", "directed", NodeMarkups(codec, nodes) + EdgeMarkups(codec, edges),
                 RenderNodes(codec, nodes), RenderEdges(codec, edges));
  }

  lemma ItemsPrinted(codec: Codec, nodes: seq<Node>, edges: seq<Edge>)
    ensures RenderKeys(NODE_KEYS, "node") + RenderKeys(EDGE_KEYS, "edge") + Line("  ", GraphMarkup(codec, nodes, edges))
         == Block("  ", GraphmlItems(codec, nodes, edges))
  {
    NodeSchemaPlain();
    EdgeSchemaPlain();
    assert IsPlain("node") && IsPlain("edge");
    var a, b, g := KeyMarkups(NODE_KEYS, "node"), KeyMarkups(EDGE_KEYS, "edge"), GraphMarkup(codec, nodes, edges);
    KeysPrinted(NODE_KEYS, "node");
    KeysPrinted(EDGE_KEYS, "edge");
    BlockAppend("  ", a, b);
    BlockSnoc("  ", a + b, g);
  }

  lemma BlockSnoc(indent: string, items: seq<Markup>, m: Markup)
    ensures Block(indent, items + [m]) == Block(indent, items) + Line(indent, m)
  {
    assert (items + [m])[..|items|] == items;
  }

  lemma NamespacePlain()
    ensures IsPlain(NAMESPACE)
  {
    assert IsPlain("http://graphml.");
    assert IsPlain("graphdrawing.org");
    assert IsPlain("/xmlns");
    hide IsPlain;
    PlainBoth("http://graphml.", "graphdrawing.org");
    PlainBoth("http://graphml." + "graphdrawing.org", "/xmlns");
  }

  lemma SchemaPlain()
    ensures IsPlain(NAMESPACE) && IsPlain(INSTANCE) && IsPlain(NAMESPACE + " " + NAMESPACE + SCHEMA)
  {
    NamespacePlain();
    InstancePlain();
    SuffixPlain();
    hide IsPlain;
    PlainBoth(NAMESPACE, " ");
    PlainBoth(NAMESPACE + " ", NAMESPACE);
    PlainBoth(NAMESPACE + " " + NAMESPACE, SCHEMA);
  }

  lemma InstancePlain()
    ensures IsPlain(INSTANCE)
  {
    assert IsPlain("http://www.w3.org");
    assert IsPlain("/2001/XMLSchema");
    assert IsPlain("-instance");
    hide IsPlain;
    PlainBoth("http://www.w3.org", "/2001/XMLSchema");
    PlainBoth("http://www.w3.org" + "/2001/XMLSchema", "-instance");
  }

  lemma SuffixPlain()
    ensures IsPlain(SCHEMA) && IsPlain(" ")
  {
  }

  lemma PlainBoth(a: string, b: string)
    requires IsPlain(a) && IsPlain(b)
    ensures IsPlain(a + b)
  {
  }

  lemma SchemaTag(ns: string, instance: string, location: string)
    requires IsPlain(ns) && IsPlain(instance) && IsPlain(location)
    ensures PrintTag("graphml", [Spaced(" ", "xmlns", ns), Spaced("\n         ", "xmlns:xsi", instance),
                                 Spaced("\n         ", "xsi:schemaLocation", location)])
         == "graphml" + ((" " + "xmlns" + "=\"" + ns + "\"")
                         + (("\n         " + "xmlns:xsi" + "=\"" + instance + "\"")
                            + ("\n         " + "xsi:schemaLocation" + "=\"" + location + "\"")))
  {
    var pad := "\n         ";
    var a, b, c := Spaced(" ", "xmlns", ns), Spaced(pad, "xmlns:xsi", instance), Spaced(pad, "xsi:schemaLocation", location);
    PlainAttr(" ", "xmlns", ns);
    PlainAttr(pad, "xmlns:xsi", instance);
    PlainAttr(pad, "xsi:schemaLocation", location);
    ThreeAttrs(a, b, c);
  }

  lemma ThreeAttrs(a: PrintedAttr, b: PrintedAttr, c: PrintedAttr)
    ensures PrintAttrs([a, b, c]) == PrintAttr(a) + (PrintAttr(b) + PrintAttr(c))
  {
    OneAttr(c);
    FirstAttr(b, [c]);
    FirstAttr(a, [b] + [c]);
    assert [a, b, c] == [a] + ([b] + [c]);
  }

  lemma SchemaText(ns: string, instance: string, location: string)
    ensures "<graphml xmlns=\"" + ns + "\"\n         xmlns:xsi=\"" + instance
            + "\"\n         xsi:schemaLocation=\"" + location + "\">\n"
         == "<" + ("graphml" + ((" " + "xmlns" + "=\"" + ns + "\"")
                         + (("\n         " + "xmlns:xsi" + "=\"" + instance + "\"")
                            + ("\n         " + "xsi:schemaLocation" + "=\"" + location + "\"")))) + ">\n"
  {
    var q, pad, gt := "\"", "\n         ", ">\n";
    assert "<graphml xmlns=\"" == "<" + "graphml" + (" " + "xmlns" + "=\"");
    assert "\"\n         xmlns:xsi=\"" == q + (pad + "xmlns:xsi" + "=\"");
    assert "\"\n         xsi:schemaLocation=\"" == q + (pad + "xsi:schemaLocation" + "=\"");
    assert "\">\n" == q + gt;
    RegroupSchema("<", "graphml", " " + "xmlns" + "=\"", ns, q, pad + "xmlns:xsi" + "=\"", instance,
                  pad + "xsi:schemaLocation" + "=\"", location, gt);
  }

  lemma RegroupSchema(lt: string, g: string, a: string, ns: string, q: string, b: string, instance: string,
                      c: string, location: string, gt: string)
    ensures (lt + g + a) + ns + (q + b) + instance + (q + c) + location + (q + gt)
         == lt + (g + ((a + ns + q) + ((b + instance + q) + (c + location + q)))) + gt
  {
  }

  lemma RegroupRender(h: string, k1: string, k2: string, o: string, n: string, e: string, c: string,
                      g: string, block: string, end: string)
    requires o + n + e + c == g && k1 + k2 + g == block
    ensures h + k1 + k2 + o + n + e + c + end == h + block + end
  {
    assert h + k1 + k2 + o + n + e + c == h + (k1 + k2 + (o + n + e + c));
  }

  lemma RootText(decl: string, tag: string, block: string)
    ensures ("<?" + decl + "?>\n" + ("<" + tag + ">\n")) + block + "</graphml>\n"
         == "" + ("<?" + decl + "?>") + ("\n" + ("<" + tag + ">" + ("\n" + block + "") + "</" + "graphml" + ">") + "\n")
  {
    assert "?>\n" == "?>" + "\n" && ">\n" == ">" + "\n" && "</graphml>\n" == "</" + "graphml" + ">" + "\n";
  }

  lemma HeaderText()
    ensures Header() == "<?" + DECLARATION + "?>\n" + ("<" + PrintTag("graphml", SchemaAttrs()) + ">\n")
  {
    SchemaPlain();
    SchemaTag(NAMESPACE, INSTANCE, NAMESPACE + " " + NAMESPACE + SCHEMA);
    SchemaText(NAMESPACE, INSTANCE, NAMESPACE + " " + NAMESPACE + SCHEMA);
    RegroupHeader("<?" + DECLARATION + "?>\n", "<graphml xmlns=\"", NAMESPACE, "\"\n         xmlns:xsi=\"", INSTANCE,
                  "\"\n         xsi:schemaLocation=\"", NAMESPACE + " " + NAMESPACE + SCHEMA, "\">\n");
  }

  lemma RegroupHeader(d: string, a: string, b: string, c: string, e: string, f: string, g: string, h: string)
    ensures d + a + b + c + e + f + g + h == d + (a + b + c + e + f + g + h)
  {
  }

  lemma NewlinePlain()
    ensures Escape("") == "" && Escape("\n") == "\n"
  {
    PlainIsItself("\n");
  }

  /** The text the program writes is the printed form of the document tree. */
  lemma RenderIsDocument(codec: Codec, nodes: seq<Node>, edges: seq<Edge>)
    ensures Render(codec, nodes, edges) == PrintContent(Document(codec, nodes, edges))
  {
    var items := GraphmlItems(codec, nodes, edges);
    var tag, block := PrintTag("graphml", SchemaAttrs()), Block("  ", items);
    GraphPrinted(codec, nodes, edges);
    ItemsPrinted(codec, nodes, edges);
    RegroupRender(Header(), RenderKeys(NODE_KEYS, "node"), RenderKeys(EDGE_KEYS, "edge"), OpenGraph(),
                  RenderNodes(codec, nodes), RenderEdges(codec, edges), "  </graph>\n",
                  Line("  ", GraphMarkup(codec, nodes, edges)), block, "</graphml>\n");
    HeaderText();
    RootText(DECLARATION, tag, block);
    DocumentText(DECLARATION, SchemaAttrs(), items);
  }

  /** A document with one root element, as it is written out. */
  lemma DocumentText(decl: string, attrs: seq<PrintedAttr>, items: seq<Markup>)
    ensures PrintContent(More("", Instruction(decl), More("\n", Paired("graphml", attrs, Lines("  ", items, "")), Done("\n"))))
         == "" + ("<?" + decl + "?>")
            + ("\n" + ("<" + PrintTag("graphml", attrs) + ">" + ("\n" + Block("  ", items) + "") + "</" + "graphml" + ">") + "\n")
  {
    LinesPrinted("  ", items, "");
    NewlinePlain();
    var root := Paired("graphml", attrs, Lines("  ", items, ""));
    assert PrintContent(Done("\n")) == "\n";
    assert PrintContent(More("\n", root, Done("\n"))) == "\n" + PrintMarkup(root) + "\n";
  }
}
