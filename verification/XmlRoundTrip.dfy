/** Documents as the exporter writes them, and the theorem that the reader gets them back.

    A printed document keeps what the reader forgets: the blanks between attributes, which
    quotes were used, whether an element without content was written `<a/>` or `<a></a>`,
    comments, which characters were written as references, and where the text of an element
    stands between its children. */
module XmlRoundTrip {
  import opened Prelude
  import opened Text
  import opened XmlText
  import opened XmlCharRef
  import opened XmlReader

  /** An attribute as printed: the blanks before it, and its quote. */
  datatype PrintedAttr = PrintedAttr(pad: string, name: string, quote: char, value: string)

  datatype Markup =
    | Paired(name: string, attrs: seq<PrintedAttr>, body: Content)
    | SelfClosed(name: string, attrs: seq<PrintedAttr>)
    | Comment(comment: string)
    | CData(data: string)
    | Instruction(instruction: string)
    | Declaration(declaration: string)
    | CharData(raw: string)  // text as it stands in the document, references and all

  /** Text, then markup, alternating; the text may be empty. */
  datatype Content = Done(text: string) | More(text: string, markup: Markup, rest: Content)

  // ----- printing --------------------------------------------------------------

  function PrintAttr(a: PrintedAttr): string {
    a.pad + PrintPair(a)
  }

  function PrintPair(a: PrintedAttr): string {
    a.name + "=" + [a.quote] + Escape(a.value) + [a.quote]
  }

  function PrintAttrs(attrs: seq<PrintedAttr>): string {
    if attrs == [] then "" else PrintAttr(attrs[0]) + PrintAttrs(attrs[1..])
  }

  function PrintTag(name: string, attrs: seq<PrintedAttr>): string {
    name + PrintAttrs(attrs)
  }

  function PrintMarkup(m: Markup): string {
    match m
    case Paired(name, attrs, body) =>
      "<" + PrintTag(name, attrs) + ">" + PrintContent(body) + "</" + name + ">"
    case SelfClosed(name, attrs) => "<" + PrintTag(name, attrs) + "/>"
    case Comment(comment) => "<!--" + comment + "-->"
    case CData(data) => "<![CDATA[" + data + "]]>"
    case Instruction(instruction) => "<?" + instruction + "?>"
    case Declaration(declaration) => "<!" + declaration + ">"
    case CharData(raw) => raw
  }

  function PrintContent(c: Content): string {
    match c
    case Done(text) => Escape(text)
    case More(text, markup, rest) => Escape(text) + PrintMarkup(markup) + PrintContent(rest)
  }

  // ----- what a document means ---------------------------------------------------

  function AttrsOf(attrs: seq<PrintedAttr>): seq<Attr> {
    seq(|attrs|, i requires 0 <= i < |attrs| => Attr(attrs[i].name, Sanitize(attrs[i].value)))
  }

  function ElementsOfMarkup(m: Markup): seq<Element> {
    match m
    case Paired(name, attrs, body) => [Element(name, AttrsOf(attrs), ElementsOf(body), TextOf(body))]
    case SelfClosed(name, attrs) => [Element(name, AttrsOf(attrs), [], "")]
    case Comment(_) => []
    case CData(_) => []
    case Instruction(_) => []
    case Declaration(_) => []
    case CharData(_) => []
  }

  function ElementsOf(c: Content): seq<Element> {
    match c
    case Done(_) => []
    case More(_, markup, rest) => ElementsOfMarkup(markup) + ElementsOf(rest)
  }

  function TextOf(c: Content): string {
    match c
    case Done(text) => Sanitize(text)
    case More(text, markup, rest) =>
      Sanitize(text) + OwnText(markup) + TextOf(rest)
  }

  /** The text that markup adds to the element it stands in. */
  function OwnText(m: Markup): string {
    match m
    case CData(data) => data
    case CharData(raw) => if Unescape(raw).Ok? then Unescape(raw).value else ""
    case _ => ""
  }

  // ----- well-formed documents -----------------------------------------------------

  predicate IsNameChar(c: char) {
    !IsSpace(c) && c != '<' && c != '>' && c != '=' && c != '/' && !IsQuote(c)
  }

  predicate IsName(s: string) {
    && s != [] && s[0] != '!' && s[0] != '?'
    && forall i :: 0 <= i < |s| ==> IsNameChar(s[i])
  }

  predicate AttrOk(a: PrintedAttr) {
    && a.pad != [] && (forall i :: 0 <= i < |a.pad| ==> IsSpace(a.pad[i]))
    && IsName(a.name) && IsQuote(a.quote)
  }

  predicate AttrsOk(attrs: seq<PrintedAttr>) {
    forall i :: 0 <= i < |attrs| ==> AttrOk(attrs[i])
  }

  /** `end` occurs in `s + end` only at its end. */
  predicate EndsFirst(s: string, end: string) {
    FindStr(s + end, end) == |s|
  }

  predicate MarkupOk(m: Markup) {
    match m
    case Paired(name, attrs, body) => IsName(name) && AttrsOk(attrs) && ContentOk(body)
    case SelfClosed(name, attrs) => IsName(name) && AttrsOk(attrs)
    case Comment(comment) => EndsFirst(comment, "-->")
    case CData(data) => EndsFirst(data, "]]>")
    case Instruction(instruction) => EndsFirst(instruction, "?>")
    case Declaration(declaration) =>
      declaration != [] && declaration[0] != '-' && declaration[0] != '[' && '>' !in declaration
    case CharData(raw) => '<' !in raw && Unescape(raw).Ok?
  }

  predicate ContentOk(c: Content) {
    match c
    case Done(_) => true
    case More(_, markup, rest) => MarkupOk(markup) && ContentOk(rest)
  }

  // ----- tags ------------------------------------------------------------------------

  /** Whatever follows, `a` is passed over in the search for the end of a tag. */
  ghost predicate Skips(a: string) {
    forall s {:trigger SkipsBefore(a, s)} :: SkipsBefore(a, s)
  }

  ghost predicate SkipsBefore(a: string, s: string) {
    TagEnd(a + s, None) == Shift(|a|, TagEnd(s, None))
  }

  lemma SkipsBoth(a: string, b: string)
    requires Skips(a) && Skips(b)
    ensures Skips(a + b)
  {
    forall s
      ensures SkipsBefore(a + b, s)
    {
      assert a + b + s == a + (b + s);
      assert SkipsBefore(b, s) && SkipsBefore(a, b + s);
    }
  }

  lemma {:induction false} SkipsPlain(a: string)
    requires forall i :: 0 <= i < |a| ==> a[i] != '>' && !IsQuote(a[i])
    ensures Skips(a)
  {
    if a != [] {
      SkipsPlain(a[1..]);
    }
    forall s
      ensures SkipsBefore(a, s)
    {
      if a == [] {
        assert a + s == s;
      } else {
        assert SkipsBefore(a[1..], s);
        assert (a + s)[1..] == a[1..] + s;
      }
    }
  }

  lemma {:induction false} TagEndSkipsQuoted(v: string, q: char, s: string)
    requires q !in v
    ensures TagEnd(v + ([q] + s), Some(q)) == Shift(|v| + 1, TagEnd(s, None))
  {
    if v == [] {
      assert v + ([q] + s) == [q] + s;
      assert ([q] + s)[1..] == s;
    } else {
      assert (v + ([q] + s))[1..] == v[1..] + ([q] + s);
      TagEndSkipsQuoted(v[1..], q, s);
    }
  }

  lemma SkipsQuoted(v: string, q: char)
    requires IsQuote(q) && q !in v
    ensures Skips([q] + v + [q])
  {
    forall s
      ensures SkipsBefore([q] + v + [q], s)
    {
      assert ([q] + v + [q] + s)[1..] == v + ([q] + s);
      TagEndSkipsQuoted(v, q, s);
    }
  }

  lemma SkipsAttr(a: PrintedAttr)
    requires AttrOk(a)
    ensures Skips(PrintAttr(a))
  {
    hide Skips, Escape;
    EscapeIsInert(a.value);
    SkipsQuoted(Escape(a.value), a.quote);
    SkipsPlain(a.name + "=");
    SkipsPlain(a.pad);
    hide AttrOk, IsName, IsQuote;
    SkipsBoth(a.name + "=", [a.quote] + Escape(a.value) + [a.quote]);
    PairText(a.name, [a.quote], Escape(a.value));
    SkipsBoth(a.pad, PrintPair(a));
  }

  lemma PairText(name: string, quote: string, value: string)
    ensures name + "=" + quote + value + quote == (name + "=") + (quote + value + quote)
  {
  }

  lemma {:induction false} SkipsAttrs(attrs: seq<PrintedAttr>)
    requires AttrsOk(attrs)
    ensures Skips(PrintAttrs(attrs))
    decreases |attrs|
  {
    if attrs == [] {
      SkipsPlain("");
    } else {
      SkipsAttrs(attrs[1..]);
      SkipsAttr(attrs[0]);
      SkipsBoth(PrintAttr(attrs[0]), PrintAttrs(attrs[1..]));
    }
  }

  /** A printed pair, cut at its delimiters. */
  lemma PairParts(a: PrintedAttr, s: string)
    ensures PrintPair(a) + s == a.name + (['='] + ([a.quote] + (Escape(a.value) + ([a.quote] + s))))
  {
  }

  /** The last character of a tag's interior is a name character or a quote. */
  lemma TagLastChar(name: string, attrs: seq<PrintedAttr>)
    requires IsName(name) && AttrsOk(attrs)
    ensures var t := PrintTag(name, attrs);
            t != [] && !IsSpace(t[|t| - 1]) && t[|t| - 1] != '/' && t[0] == name[0]
  {
    if attrs != [] {
      AttrsLastChar(attrs);
    }
  }

  lemma {:induction false} AttrsLastChar(attrs: seq<PrintedAttr>)
    requires AttrsOk(attrs) && attrs != []
    ensures PrintAttrs(attrs) != [] && IsQuote(PrintAttrs(attrs)[|PrintAttrs(attrs)| - 1])
    decreases |attrs|
  {
    if |attrs| > 1 {
      AttrsLastChar(attrs[1..]);
    } else {
      assert PrintAttrs(attrs[1..]) == "";
    }
  }

  lemma TrimName(name: string)
    requires IsName(name)
    ensures Trim(name) == name
  {
    TrimVisible(name);
  }

  /** What a delimiter cuts off, when it does not occur before. */
  lemma Cut(before: string, c: char, after: string)
    requires c !in before
    ensures var s := before + ([c] + after);
            Find(s, c) == |before| < |s| && s[..|before|] == before && s[|before| + 1..] == after
  {
    var s := before + ([c] + after);
    assert s[..|before|] == before;
    FindAt(s, c, |before|);
  }

  lemma AttrValuePrinted(a: PrintedAttr, s: string)
    requires AttrOk(a)
    ensures AttrValue(a.name, [a.quote] + (Escape(a.value) + ([a.quote] + s)))
         == Ok((Attr(a.name, Sanitize(a.value)), TrimStart(s)))
  {
    var afterQuote := Escape(a.value) + ([a.quote] + s);
    assert ([a.quote] + afterQuote)[1..] == afterQuote;
    EscapeIsInert(a.value);
    Cut(Escape(a.value), a.quote, s);
    EscapeRoundTrip(a.value);
  }

  lemma NextAttrPrinted(a: PrintedAttr, s: string, tag: string)
    requires AttrOk(a)
    ensures NextAttr(PrintPair(a) + s, tag) == Ok((Attr(a.name, Sanitize(a.value)), TrimStart(s)))
  {
    var value := [a.quote] + (Escape(a.value) + ([a.quote] + s));
    PairParts(a, s);
    Cut(a.name, '=', value);
    TrimName(a.name);
    assert TrimStart(value) == value;
    AttrValuePrinted(a, s);
  }

  /** Blanks before the first attribute are skipped. */
  lemma TrimStartAttrs(pad: string, a: PrintedAttr, s: string)
    requires AttrOk(a) && forall k :: 0 <= k < |pad| ==> IsSpace(pad[k])
    ensures TrimStart(pad + (PrintPair(a) + s)) == PrintPair(a) + s
  {
    assert (PrintPair(a) + s)[0] == a.name[0];
    TrimStartPadded(pad, PrintPair(a) + s);
  }

  lemma TrimPrintedAttrs(attrs: seq<PrintedAttr>)
    requires AttrsOk(attrs) && attrs != []
    ensures TrimStart(PrintAttrs(attrs)) == PrintPair(attrs[0]) + PrintAttrs(attrs[1..])
  {
    var a, more := attrs[0], PrintAttrs(attrs[1..]);
    assert PrintAttrs(attrs) == a.pad + (PrintPair(a) + more);
    TrimStartAttrs(a.pad, a, more);
  }

  lemma AttrsOfFirst(attrs: seq<PrintedAttr>)
    requires attrs != []
    ensures AttrsOf(attrs) == [Attr(attrs[0].name, Sanitize(attrs[0].value))] + AttrsOf(attrs[1..])
  {
  }

  lemma {:induction false} ParseAttrsPrinted(attrs: seq<PrintedAttr>, tag: string)
    requires AttrsOk(attrs)
    ensures ParseAttrs(TrimStart(PrintAttrs(attrs)), tag) == Ok(AttrsOf(attrs))
    decreases |attrs|
  {
    if attrs == [] {
      assert AttrsOf(attrs) == [];
    } else {
      var a, more := attrs[0], PrintAttrs(attrs[1..]);
      TrimPrintedAttrs(attrs);
      NextAttrPrinted(a, more, tag);
      ParseAttrsPrinted(attrs[1..], tag);
      AttrsOfFirst(attrs);
    }
  }

  lemma ParseTagCut(name: string, c: char, rest: string)
    requires IsName(name) && IsSpace(c)
    requires rest != [] && !IsSpace(rest[|rest| - 1])
    requires ParseAttrs(TrimStart(rest), name).Ok?
    ensures ParseTag(name + ([c] + rest)) == Ok((name, ParseAttrs(TrimStart(rest), name).value))
  {
    hide IsSpace, ParseAttrs, TrimStart;
    var t := name + ([c] + rest);
    assert t[0] == name[0] && t[|t| - 1] == rest[|rest| - 1];
    TrimVisible(t);
    FindSpaceAt(t, |name|);
    assert t[..|name|] == name && t[|name| + 1..] == rest;
  }

  lemma ParseTagPrinted(name: string, attrs: seq<PrintedAttr>)
    requires IsName(name) && AttrsOk(attrs)
    ensures ParseTag(PrintTag(name, attrs)) == Ok((name, AttrsOf(attrs)))
  {
    if attrs == [] {
      assert PrintTag(name, attrs) == name;
      TrimName(name);
      FindSpaceAt(name, |name|);
      assert name[..|name|] == name && AttrsOf(attrs) == [];
    } else {
      var printed := PrintAttrs(attrs);
      AttrsLastChar(attrs);
      var c, rest := printed[0], printed[1..];
      assert printed == [c] + rest;
      assert c == attrs[0].pad[0];
      AttrsAfterBlank(attrs);
      ParseAttrsPrinted(attrs, name);
      ParseTagCut(name, c, rest);
    }
  }

  lemma AttrsAfterBlank(attrs: seq<PrintedAttr>)
    requires AttrsOk(attrs) && attrs != []
    ensures |PrintAttrs(attrs)| > 1
    ensures TrimStart(PrintAttrs(attrs)[1..]) == TrimStart(PrintAttrs(attrs))
  {
    assert PrintAttrs(attrs)[0] == attrs[0].pad[0];
  }

  lemma SkipsTag(name: string, attrs: seq<PrintedAttr>)
    requires IsName(name) && AttrsOk(attrs)
    ensures Skips(PrintTag(name, attrs))
  {
    SkipsPlain(name);
    SkipsAttrs(attrs);
    SkipsBoth(name, PrintAttrs(attrs));
  }

  lemma TagEndAt(a: string, tail: string)
    requires Skips(a)
    ensures TagEnd(a + (['>'] + tail), None) == Some(|a|)
  {
    assert SkipsBefore(a, ['>'] + tail);
    EndsHere(tail);
    hide TagEnd, Skips;
  }

  lemma EndsHere(tail: string)
    ensures TagEnd(['>'] + tail, None) == Some(0)
  {
  }

  lemma TagEndPrinted(name: string, attrs: seq<PrintedAttr>, end: string, tail: string)
    requires IsName(name) && AttrsOk(attrs) && (end == "" || end == "/")
    ensures TagEnd(PrintTag(name, attrs) + end + (['>'] + tail), None)
         == Some(|PrintTag(name, attrs) + end|)
  {
    SkipsTag(name, attrs);
    SkipsPlain(end);
    SkipsBoth(PrintTag(name, attrs), end);
    TagEndAt(PrintTag(name, attrs) + end, tail);
  }

  lemma ReadTagPrinted(name: string, attrs: seq<PrintedAttr>, selfClosed: bool, tail: string)
    requires IsName(name) && AttrsOk(attrs)
    ensures var end := if selfClosed then "/" else "";
            var t := PrintTag(name, attrs);
            ReadTag("<" + t + end + ">" + tail)
              == Ok((OpenTag(name, AttrsOf(attrs), selfClosed), 1 + |t| + |end| + 1))
  {
    hide TagOf, TagEnd, ReadTag, PrintTag, AttrsOf, AttrsOk, IsName;
    var end := if selfClosed then "/" else "";
    var t := PrintTag(name, attrs);
    TagSlices(t, end, tail);
    TagEndPrinted(name, attrs, end, tail);
    TagOfPrinted(name, attrs, selfClosed);
    ReadTagFrom("<" + t + end + ">" + tail, t + end, OpenTag(name, AttrsOf(attrs), selfClosed));
  }

  lemma ReadTagFrom(s: string, inner: string, token: Token)
    requires |s| > |inner| && TagEnd(s[1..], None) == Some(|inner|) && s[1..1 + |inner|] == inner
    requires TagOf(inner) == Ok(token)
    ensures ReadTag(s) == Ok((token, |inner| + 2))
  {
  }

  lemma TagSlices(t: string, end: string, tail: string)
    ensures var s := "<" + t + end + ">" + tail;
            s[1..] == t + end + (['>'] + tail) && s[1..1 + |t + end|] == t + end
  {
  }

  lemma SlashAtEnd(t: string)
    requires t != [] && !IsSpace(t[|t| - 1]) && t[|t| - 1] != '/'
    ensures !EndsWithSlash(t) && EndsWithSlash(t + "/")
    ensures (t + "/")[..|t + "/"| - 1] == t && t + "" == t
  {
  }

  lemma TagOfPrinted(name: string, attrs: seq<PrintedAttr>, selfClosed: bool)
    requires IsName(name) && AttrsOk(attrs)
    ensures TagOf(PrintTag(name, attrs) + (if selfClosed then "/" else ""))
         == Ok(OpenTag(name, AttrsOf(attrs), selfClosed))
  {
    var t := PrintTag(name, attrs);
    TagLastChar(name, attrs);
    SlashAtEnd(t);
    ParseTagPrinted(name, attrs);
  }

  lemma ReadTokenTag(name: string, attrs: seq<PrintedAttr>, selfClosed: bool, tail: string)
    requires IsName(name) && AttrsOk(attrs)
    ensures var end := if selfClosed then "/" else "";
            var t := PrintTag(name, attrs);
            ReadToken("<" + t + end + ">" + tail)
              == Ok((OpenTag(name, AttrsOf(attrs), selfClosed), 1 + |t| + |end| + 1))
  {
    ReadTagPrinted(name, attrs, selfClosed, tail);
    var s := "<" + PrintTag(name, attrs) + (if selfClosed then "/" else "") + ">" + tail;
    assert s[1] == name[0];
    ReadTokenIsTag(s);
  }

  lemma ReadTokenIsTag(s: string)
    requires |s| > 1 && s[0] == '<' && s[1] != '!' && s[1] != '?' && s[1] != '/'
    ensures ReadToken(s) == ReadTag(s)
  {
    hide ReadTag, FindStr, Find, Trim;
    assert !StartsWith(s, "<!--") && !StartsWith(s, "<![CDATA[") && !StartsWith(s, "<!");
    assert !StartsWith(s, "<?") && !StartsWith(s, "</");
  }

  lemma ReadTokenClose(name: string, tail: string)
    requires IsName(name)
    ensures ReadToken("</" + name + ">" + tail) == Ok((CloseTag(name), |name| + 3))
  {
    var s := "</" + name + ">" + tail;
    assert s[..|name| + 2] == "</" + name;
    FindAt(s, '>', |name| + 2);
    assert s[2..|name| + 2] == name;
    TrimName(name);
  }

  lemma FindStrEndsFirst(s: string, end: string, tail: string)
    requires EndsFirst(s, end)
    ensures FindStr(s + end + tail, end) == |s|
  {
    var t, u := s + end + tail, s + end;
    assert t[|s|..] == end + tail;
    forall k | 0 <= k < |s|
      ensures !(end <= t[k..])
    {
      if end <= t[k..] {
        assert u[k..] == t[k..][..|u| - k];
        assert end <= u[k..];
        FindStrNotBefore(u, end, k);
      }
    }
    FindStrAt(t, end, |s|);
  }

  /** The search never passes an occurrence. */
  lemma {:induction false} FindStrNotBefore(s: string, pat: string, k: nat)
    requires k <= |s| && pat <= s[k..]
    ensures FindStr(s, pat) <= k
  {
    assert s[0..] == s;
    if k > 0 && !(pat <= s) {
      assert s[1..][k - 1..] == s[k..];
      FindStrNotBefore(s[1..], pat, k - 1);
    }
  }

  lemma ReadTokenComment(comment: string, tail: string)
    requires EndsFirst(comment, "-->")
    ensures ReadToken("<!--" + comment + "-->" + tail) == Ok((Skipped, |comment| + 7))
  {
    var s := "<!--" + comment + "-->" + tail;
    assert s[4..] == comment + "-->" + tail;
    FindStrEndsFirst(comment, "-->", tail);
  }

  lemma ReadTokenCData(data: string, tail: string)
    requires EndsFirst(data, "]]>")
    ensures ReadToken("<![CDATA[" + data + "]]>" + tail) == Ok((Verbatim(data), |data| + 12))
  {
    var s := "<![CDATA[" + data + "]]>" + tail;
    assert s[2] == '[';
    assert s[9..] == data + "]]>" + tail;
    FindStrEndsFirst(data, "]]>", tail);
    assert s[9..9 + |data|] == data;
  }

  lemma ReadTokenInstruction(instruction: string, tail: string)
    requires EndsFirst(instruction, "?>")
    ensures ReadToken("<?" + instruction + "?>" + tail) == Ok((Skipped, |instruction| + 4))
  {
    var s := "<?" + instruction + "?>" + tail;
    assert s[1] == '?';
    assert s[2..] == instruction + "?>" + tail;
    FindStrEndsFirst(instruction, "?>", tail);
  }

  lemma ReadTokenDeclaration(declaration: string, tail: string)
    requires MarkupOk(Declaration(declaration))
    ensures ReadToken("<!" + declaration + ">" + tail) == Ok((Skipped, |declaration| + 3))
  {
    var s := "<!" + declaration + ">" + tail;
    assert s[1] == '!' && s[2] == declaration[0];
    assert s[|declaration| + 2] == '>';
    FindAt(s, '>', |declaration| + 2);
  }

  // ----- the round trip ----------------------------------------------------------------

  /** Text whose references are complete is added on its own, whatever follows. */
  lemma ReadAllPrefix(raw: string, tail: string, tree: Tree)
    requires '<' !in raw && Unescape(raw).Ok?
    ensures ReadAll(raw + tail, tree) == ReadAll(tail, tree.AddText(Unescape(raw).value))
  {
    var text, lt := Unescape(raw).value, Find(tail, '<');
    FindFinds(tail, '<');
    FindBehind(raw, tail, lt);
    if lt == |tail| {
      assert Step(raw + tail, tree) == Finished && Step(tail, tree.AddText(text)) == Finished;
    } else {
      ReadTextPrefix(raw, tail[..lt], tree);
      StepsBehind(raw, tail, lt, tree, tree.AddText(text));
    }
  }

  lemma FindBehind(raw: string, tail: string, lt: nat)
    requires '<' !in raw && lt <= |tail| && (lt < |tail| ==> tail[lt] == '<')
    requires forall k :: 0 <= k < lt ==> tail[k] != '<'
    ensures Find(raw + tail, '<') == |raw| + lt
    ensures (raw + tail)[..|raw| + lt] == raw + tail[..lt] && (raw + tail)[|raw| + lt..] == tail[lt..]
  {
    FindAt(raw + tail, '<', |raw| + lt);
  }

  /** Reading a run of text in two parts. */
  lemma ReadTextPrefix(raw: string, more: string, tree: Tree)
    requires Unescape(raw).Ok?
    ensures ReadText(raw + more, tree) == ReadText(more, tree.AddText(Unescape(raw).value))
  {
    UnescapeAppend(raw, more);
    AddNoText(tree);
    if raw == [] {
      assert raw + more == more;
      FindAt(raw, '&', 0);
    } else if more == [] {
      assert raw + more == raw;
    } else if tree.stack != [] && Unescape(more).Ok? {
      AddTextTwice(tree, Unescape(raw).value, Unescape(more).value);
    }
  }

  lemma AddTextTwice(tree: Tree, a: string, b: string)
    requires tree.stack != []
    ensures tree.AddText(a).AddText(b) == tree.AddText(a + b)
  {
    var once := tree.AddText(a);
    assert once.stack[..|once.stack| - 1] == tree.stack[..|tree.stack| - 1];
    Assoc(tree.Top().text, a, b);
  }

  /** What reading gives from the markup at the start of `s` on. */
  ghost function FromMarkup(s: string, tree: Tree): Res<seq<Element>>
    requires s != [] && s[0] == '<'
  {
    match MarkupStep(s, tree, 0)
    case Failed(e) => Err(e)
    case Continues(next, n) => ReadAll(s[n..], next)
  }

  /** Reading is the text up to the markup at `lt`, then the rest from that markup on. */
  lemma ReadAllAt(s: string, lt: nat, tree: Tree)
    requires lt < |s| && Find(s, '<') == lt && s[lt] == '<'
    ensures match ReadText(s[..lt], tree)
            case Err(e) => ReadAll(s, tree) == Err(e)
            case Ok(next) => ReadAll(s, tree) == FromMarkup(s[lt..], next)
  {
    hide MarkupStep, ReadText;
    match ReadText(s[..lt], tree)
    case Err(e) =>
      assert Step(s, tree) == Failed(e);
    case Ok(next) =>
      var markup := s[lt..];
      MarkupStepShift(markup, next, lt);
      assert Step(s, tree) == MarkupStep(markup, next, lt);
      hide Step;
      var r := MarkupStep(markup, next, 0);
      if r.Continues? {
        assert s[lt + r.consumed..] == markup[r.consumed..];
      }
  }

  lemma StepsBehind(raw: string, tail: string, lt: nat, tree: Tree, tree1: Tree)
    requires '<' !in raw && lt < |tail| && Find(tail, '<') == lt && tail[lt] == '<'
    requires Find(raw + tail, '<') == |raw| + lt
    requires (raw + tail)[..|raw| + lt] == raw + tail[..lt] && (raw + tail)[|raw| + lt..] == tail[lt..]
    requires ReadText(raw + tail[..lt], tree) == ReadText(tail[..lt], tree1)
    ensures ReadAll(raw + tail, tree) == ReadAll(tail, tree1)
  {
    hide MarkupStep, ReadText, ReadAll, FromMarkup, Find;
    ReadAllAt(raw + tail, |raw| + lt, tree);
    ReadAllAt(tail, lt, tree1);
  }

  /** Escaped text is added on its own. */
  lemma ReadAllText(text: string, tail: string, tree: Tree)
    ensures ReadAll(Escape(text) + tail, tree) == ReadAll(tail, tree.AddText(Sanitize(text)))
  {
    EscapeIsInert(text);
    EscapeRoundTrip(text);
    hide Escape, ReadAll;
    ReadAllPrefix(Escape(text), tail, tree);
  }

  /** The text skipped before markup only counts. */
  lemma MarkupStepShift(s: string, tree: Tree, skipped: nat)
    requires s != [] && s[0] == '<'
    ensures match MarkupStep(s, tree, 0)
            case Continues(next, n) => MarkupStep(s, tree, skipped) == Continues(next, skipped + n)
            case other => MarkupStep(s, tree, skipped) == other
  {
    hide ReadToken;
  }

  lemma AddNoText(tree: Tree)
    ensures tree.AddText("") == tree
  {
    if tree.stack != [] {
      assert tree.Top().text + "" == tree.Top().text;
      assert tree.stack == tree.stack[..|tree.stack| - 1] + [tree.Top()];
    }
  }

  /** Markup at the front is read and applied. */
  lemma ReadAllToken(markup: string, tail: string, tree: Tree, token: Token, tree1: Tree)
    requires markup != [] && markup[0] == '<'
    requires ReadToken(markup + tail) == Ok((token, |markup|))
    requires tree.Apply(token) == Ok(tree1)
    ensures ReadAll(markup + tail, tree) == ReadAll(tail, tree1)
  {
    var s := markup + tail;
    FindAt(s, '<', 0);
    assert s[..0] == [] && s[0..] == s && s[|markup|..] == tail;
  }

  function AddAll(tree: Tree, elements: seq<Element>): Tree {
    if tree.stack == [] then tree.(roots := tree.roots + elements)
    else tree.(stack := tree.stack[..|tree.stack| - 1] + [tree.Top().(children := tree.Top().children + elements)])
  }

  /** `tree` after reading `c` inside its innermost element. */
  function Absorb(tree: Tree, c: Content): Tree {
    AddAll(tree, ElementsOf(c)).AddText(TextOf(c))
  }

  function AbsorbMarkup(tree: Tree, m: Markup): Tree {
    AddAll(tree, ElementsOfMarkup(m)).AddText(OwnText(m))
  }

  lemma AbsorbDone(tree: Tree, text: string)
    ensures Absorb(tree, Done(text)) == tree.AddText(Sanitize(text))
  {
    AddNothing(tree);
  }

  lemma AddNothing(tree: Tree)
    ensures AddAll(tree, []) == tree
  {
    if tree.stack == [] {
      assert tree.roots + [] == tree.roots;
    } else {
      assert tree.Top().children + [] == tree.Top().children;
      assert tree.stack == tree.stack[..|tree.stack| - 1] + [tree.Top()];
    }
  }

  lemma AbsorbMore(tree: Tree, text: string, m: Markup, rest: Content)
    ensures Absorb(AbsorbMarkup(tree.AddText(Sanitize(text)), m), rest) == Absorb(tree, More(text, m, rest))
  {
    hide Sanitize, ElementsOfMarkup, OwnText;
    var t, d, e, f := Sanitize(text), OwnText(m), ElementsOfMarkup(m), ElementsOf(rest);
    var u := TextOf(rest);
    if tree.stack == [] {
      Assoc(tree.roots, e, f);
    } else {
      var top := tree.Top();
      RegroupText(top.text, t, d, u);
      Assoc(top.children, e, f);
    }
  }

  lemma RegroupText(a: string, b: string, c: string, d: string)
    ensures a + b + c + d == a + (b + c + d)
  {
  }

  lemma SelfClosedText(t: string, tail: string)
    ensures "<" + t + "/>" + tail == "<" + t + "/" + ">" + tail
  {
  }

  lemma ReadSelfClosed(name: string, attrs: seq<PrintedAttr>, tail: string, tree: Tree)
    requires IsName(name) && AttrsOk(attrs)
    ensures ReadAll(PrintMarkup(SelfClosed(name, attrs)) + tail, tree)
         == ReadAll(tail, AbsorbMarkup(tree, SelfClosed(name, attrs)))
  {
    var open := "<" + PrintTag(name, attrs) + "/>";
    SelfClosedText(PrintTag(name, attrs), tail);
    ReadTokenTag(name, attrs, true, tail);
    var e := Element(name, AttrsOf(attrs), [], "");
    ReadAllToken(open, tail, tree, OpenTag(name, AttrsOf(attrs), true), tree.AddElement(e));
    AbsorbOne(tree, SelfClosed(name, attrs), e);
  }

  lemma AbsorbOne(tree: Tree, m: Markup, e: Element)
    requires ElementsOfMarkup(m) == [e] && OwnText(m) == ""
    ensures AbsorbMarkup(tree, m) == tree.AddElement(e)
  {
    AddNoText(tree.AddElement(e));
  }

  lemma ReadSkipped(m: Markup, tail: string, tree: Tree)
    requires MarkupOk(m) && (m.Comment? || m.Instruction? || m.Declaration?)
    ensures ReadAll(PrintMarkup(m) + tail, tree) == ReadAll(tail, AbsorbMarkup(tree, m))
  {
    if m.Comment? {
      ReadTokenComment(m.comment, tail);
    } else if m.Instruction? {
      ReadTokenInstruction(m.instruction, tail);
    } else {
      ReadTokenDeclaration(m.declaration, tail);
    }
    ReadAllToken(PrintMarkup(m), tail, tree, Skipped, tree);
    AddNothing(tree);
    AddNoText(tree);
  }

  lemma ReadCData(data: string, tail: string, tree: Tree)
    requires MarkupOk(CData(data))
    ensures ReadAll(PrintMarkup(CData(data)) + tail, tree) == ReadAll(tail, AbsorbMarkup(tree, CData(data)))
  {
    ReadTokenCData(data, tail);
    ReadAllToken(PrintMarkup(CData(data)), tail, tree, Verbatim(data), tree.AddText(data));
    AddNothing(tree);
  }

  lemma ReadCharData(raw: string, tail: string, tree: Tree)
    requires MarkupOk(CharData(raw))
    ensures ReadAll(PrintMarkup(CharData(raw)) + tail, tree) == ReadAll(tail, AbsorbMarkup(tree, CharData(raw)))
  {
    ReadAllPrefix(raw, tail, tree);
    AddNothing(tree);
    hide ReadAll, Unescape;
  }

  /** Reading printed markup adds what it means and nothing else. */
  lemma {:induction false} ReadPrintedMarkup(m: Markup, tail: string, tree: Tree)
    requires MarkupOk(m)
    ensures ReadAll(PrintMarkup(m) + tail, tree) == ReadAll(tail, AbsorbMarkup(tree, m))
    decreases m, 0
  {
    match m
    case Paired(name, attrs, body) => ReadPaired(name, attrs, body, tail, tree);
    case SelfClosed(name, attrs) => ReadSelfClosed(name, attrs, tail, tree);
    case CData(data) => ReadCData(data, tail, tree);
    case CharData(raw) => ReadCharData(raw, tail, tree);
    case _ => ReadSkipped(m, tail, tree);
  }

  lemma ReadOpen(name: string, attrs: seq<PrintedAttr>, inside: string, tree: Tree)
    requires IsName(name) && AttrsOk(attrs)
    ensures ReadAll("<" + PrintTag(name, attrs) + ">" + inside, tree)
         == ReadAll(inside, tree.(stack := tree.stack + [Element(name, AttrsOf(attrs), [], "")]))
  {
    var open := "<" + PrintTag(name, attrs) + ">";
    assert open + inside == "<" + PrintTag(name, attrs) + "" + ">" + inside;
    ReadTokenTag(name, attrs, false, inside);
    ReadAllToken(open, inside, tree, OpenTag(name, AttrsOf(attrs), false),
                 tree.(stack := tree.stack + [Element(name, AttrsOf(attrs), [], "")]));
  }

  lemma ReadClose(e: Element, tail: string, tree: Tree)
    requires IsName(e.name)
    ensures ReadAll("</" + e.name + ">" + tail, tree.(stack := tree.stack + [e]))
         == ReadAll(tail, tree.AddElement(e))
  {
    ReadTokenClose(e.name, tail);
    var filled := tree.(stack := tree.stack + [e]);
    assert filled.stack[..|filled.stack| - 1] == tree.stack;
    ReadAllToken("</" + e.name + ">", tail, filled, CloseTag(e.name), tree.AddElement(e));
  }

  lemma PairedParts(name: string, attrs: seq<PrintedAttr>, body: Content, tail: string)
    ensures PrintMarkup(Paired(name, attrs, body)) + tail
         == "<" + PrintTag(name, attrs) + ">" + (PrintContent(body) + ("</" + name + ">" + tail))
  {
  }

  lemma {:induction false} ReadPaired(name: string, attrs: seq<PrintedAttr>, body: Content, tail: string, tree: Tree)
    requires IsName(name) && AttrsOk(attrs) && ContentOk(body)
    ensures ReadAll(PrintMarkup(Paired(name, attrs, body)) + tail, tree)
         == ReadAll(tail, AbsorbMarkup(tree, Paired(name, attrs, body)))
    decreases body, 2
  {
    var close := "</" + name + ">" + tail;
    PairedParts(name, attrs, body, tail);
    ReadOpen(name, attrs, PrintContent(body) + close, tree);
    var e := Element(name, AttrsOf(attrs), [], "");
    ReadContent(body, close, tree.(stack := tree.stack + [e]));
    AbsorbedTop(tree, e, body);
    var full := Element(name, AttrsOf(attrs), ElementsOf(body), TextOf(body));
    ReadClose(full, tail, tree);
    AbsorbOne(tree, Paired(name, attrs, body), full);
  }

  lemma AbsorbedTop(tree: Tree, e: Element, body: Content)
    requires e.children == [] && e.text == ""
    ensures Absorb(tree.(stack := tree.stack + [e]), body)
         == tree.(stack := tree.stack + [Element(e.name, e.attrs, ElementsOf(body), TextOf(body))])
  {
    var entered := tree.(stack := tree.stack + [e]);
    assert entered.stack[..|entered.stack| - 1] == tree.stack;
    assert [] + ElementsOf(body) == ElementsOf(body);
    assert "" + TextOf(body) == TextOf(body);
    var added := AddAll(entered, ElementsOf(body));
    assert added.stack[..|added.stack| - 1] == tree.stack;
  }

  /** Reading printed content adds what it means, whatever follows. */
  lemma {:induction false} ReadContent(c: Content, tail: string, tree: Tree)
    requires ContentOk(c)
    ensures ReadAll(PrintContent(c) + tail, tree) == ReadAll(tail, Absorb(tree, c))
    decreases c, 1
  {
    match c
    case Done(text) =>
      ReadAllText(text, tail, tree);
      AbsorbDone(tree, text);
    case More(text, m, rest) =>
      var afterText := PrintMarkup(m) + (PrintContent(rest) + tail);
      ContentParts(text, m, rest, tail);
      ReadAllText(text, afterText, tree);
      var tree1 := tree.AddText(Sanitize(text));
      ReadPrintedMarkup(m, PrintContent(rest) + tail, tree1);
      ReadContent(rest, tail, AbsorbMarkup(tree1, m));
      AbsorbMore(tree, text, m, rest);
  }

  lemma ContentParts(text: string, m: Markup, rest: Content, tail: string)
    ensures PrintContent(More(text, m, rest)) + tail
         == Escape(text) + (PrintMarkup(m) + (PrintContent(rest) + tail))
  {
    var a, b, c := Escape(text), PrintMarkup(m), PrintContent(rest);
    assert PrintContent(More(text, m, rest)) == a + b + c;
    hide PrintMarkup, Escape, PrintContent;
    RegroupContent(a, b, c, tail);
  }

  lemma RegroupContent(a: string, b: string, c: string, d: string)
    ensures a + b + c + d == a + (b + (c + d))
  {
  }

  /** For every well-formed document, of any depth: reading its printed form gives its
      elements, with forbidden control characters replaced. */
  lemma ParsePrinted(c: Content)
    requires ContentOk(c)
    ensures ParseXml(PrintContent(c)) == Ok(ElementsOf(c))
  {
    ReadContent(c, "", EMPTY_TREE);
    AbsorbedDocument(c);
    hide PrintContent, ReadAll, Absorb, ElementsOf, ContentOk;
    assert PrintContent(c) + "" == PrintContent(c);
  }

  lemma AbsorbedDocument(c: Content)
    ensures ReadAll("", Absorb(EMPTY_TREE, c)) == Ok(ElementsOf(c))
  {
    hide TextOf;
    NothingLeft(Absorb(EMPTY_TREE, c));
    hide ReadAll;
    assert [] + ElementsOf(c) == ElementsOf(c);
  }

  // ----- what is not well formed ------------------------------------------------------------------------

  /** An element closed by another name is refused. */
  lemma MismatchedRejected(name: string, attrs: seq<PrintedAttr>, body: Content, other: string, tail: string)
    requires IsName(name) && AttrsOk(attrs) && ContentOk(body) && IsName(other) && other != name
    ensures ParseXml("<" + PrintTag(name, attrs) + ">" + (PrintContent(body) + ("</" + other + ">" + tail)))
         == Err(MismatchedCloseTag(name, other))
  {
    var close := "</" + other + ">" + tail;
    var e := Element(name, AttrsOf(attrs), [], "");
    ReadOpen(name, attrs, PrintContent(body) + close, EMPTY_TREE);
    ReadContent(body, close, EMPTY_TREE.(stack := EMPTY_TREE.stack + [e]));
    AbsorbedTop(EMPTY_TREE, e, body);
    var inside := EMPTY_TREE.(stack := EMPTY_TREE.stack + [Element(name, AttrsOf(attrs), ElementsOf(body), TextOf(body))]);
    ReadTokenClose(other, tail);
    RefusedToken("</" + other + ">", tail, inside, CloseTag(other), MismatchedCloseTag(name, other));
  }

  /** Markup the element stack refuses. */
  lemma RefusedToken(markup: string, tail: string, tree: Tree, token: Token, error: XmlError)
    requires markup != [] && markup[0] == '<'
    requires ReadToken(markup + tail) == Ok((token, |markup|)) && tree.Apply(token) == Err(error)
    ensures ReadAll(markup + tail, tree) == Err(error)
  {
    var s := markup + tail;
    FindAt(s, '<', 0);
    assert s[..0] == [] && s[0..] == s;
  }

  /** An element that is not closed is refused. */
  lemma UnclosedRejected(name: string, attrs: seq<PrintedAttr>, body: Content)
    requires IsName(name) && AttrsOk(attrs) && ContentOk(body)
    ensures ParseXml("<" + PrintTag(name, attrs) + ">" + PrintContent(body)) == Err(UnclosedElement(name))
  {
    var e := Element(name, AttrsOf(attrs), [], "");
    assert PrintContent(body) + "" == PrintContent(body);
    ReadOpen(name, attrs, PrintContent(body), EMPTY_TREE);
    ReadContent(body, "", EMPTY_TREE.(stack := EMPTY_TREE.stack + [e]));
    AbsorbedTop(EMPTY_TREE, e, body);
    NothingLeft(EMPTY_TREE.(stack := EMPTY_TREE.stack + [Element(name, AttrsOf(attrs), ElementsOf(body), TextOf(body))]));
  }

  /** A close tag with nothing open is refused. */
  lemma UnexpectedCloseRejected(before: Content, name: string, tail: string)
    requires ContentOk(before) && IsName(name)
    ensures ParseXml(PrintContent(before) + ("</" + name + ">" + tail)) == Err(UnexpectedCloseTag(name))
  {
    ReadContent(before, "</" + name + ">" + tail, EMPTY_TREE);
    ReadTokenClose(name, tail);
    assert Absorb(EMPTY_TREE, before).stack == [];
    RefusedToken("</" + name + ">", tail, Absorb(EMPTY_TREE, before), CloseTag(name), UnexpectedCloseTag(name));
  }
}
