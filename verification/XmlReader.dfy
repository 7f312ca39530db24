/** The hand-written XML reader of `src/dump.rs`.

    Each function reads from the front of the text that is left; each method is the loop of
    the source over positions, proved to compute that function. Every slice the methods take
    is in bounds and every iteration moves forward, on any input. */
module XmlReader {
  import opened Prelude
  import opened Text
  import opened XmlText

  datatype Attr = Attr(name: string, value: string)

  datatype Element = Element(name: string, attrs: seq<Attr>, children: seq<Element>, text: string)

  datatype Token =
    | Skipped                                                          // comment, instruction, declaration
    | Verbatim(text: string)                                           // CDATA
    | CloseTag(name: string)
    | OpenTag(name: string, attrs: seq<Attr>, selfClosing: bool)

  type Res<T> = Result<T, XmlError>

  // ----- tags ----------------------------------------------------------------

  predicate IsQuote(c: char) {
    c == '"' || c == '\''
  }

  /** The position of the `>` that ends a tag, skipping quoted values. */
  function TagEnd(s: string, quote: Option<char>): (r: Option<nat>)
    ensures r.Some? ==> r.value < |s| && s[r.value] == '>'
  {
    if s == [] then None
    else
      if quote.None? && s[0] == '>' then Some(0)
      else Shift(1, TagEnd(s[1..], NextQuote(quote, s[0])))
  }

  /** The quote that is open after `c`. */
  function NextQuote(quote: Option<char>, c: char): Option<char> {
    match quote
    case Some(q) => if c == q then None else quote
    case None => if IsQuote(c) then Some(c) else None
  }

  function Shift(n: nat, r: Option<nat>): Option<nat> {
    match r
    case Some(i) => Some(n + i)
    case None => None
  }

  predicate IsBlank(c: char) {
    c == ' ' || c == '\t' || c == '\n' || c == '\r'
  }

  /** Whether the last character of a tag's interior that is not blank is a `/`. */
  predicate EndsWithSlash(inner: string) {
    inner != [] &&
    var last := inner[|inner| - 1];
    if IsBlank(last) then EndsWithSlash(inner[..|inner| - 1]) else last == '/'
  }

  /** The attribute at the front of `s`, and what follows it. */
  function NextAttr(s: string, tag: string): (r: Res<(Attr, string)>)
    requires s != []
    ensures r.Ok? ==> |r.value.1| < |s|
  {
    var eq := Find(s, '=');
    if eq == |s| then Err(AttributeWithoutEquals(tag))
    else AttrValue(Trim(s[..eq]), TrimStart(s[eq + 1..]))
  }

  /** The quoted value of attribute `name` at the front of `s`, and what follows it. */
  function AttrValue(name: string, s: string): (r: Res<(Attr, string)>)
    ensures r.Ok? ==> |r.value.1| < |s|
  {
    if s == [] then Err(AttributeWithoutValue(name))
    else if !IsQuote(s[0]) then Err(AttributeNotQuoted(name))
    else
      var afterQuote := s[1..];
      var close := Find(afterQuote, s[0]);
      if close == |afterQuote| then Err(AttributeUnterminated(name))
      else match Unescape(afterQuote[..close])
        case Err(e) => Err(e)
        case Ok(value) => Ok((Attr(name, value), TrimStart(afterQuote[close + 1..])))
  }

  function ParseAttrs(s: string, tag: string): Res<seq<Attr>>
    decreases |s|
  {
    if s == [] then Ok([])
    else match NextAttr(s, tag)
      case Err(e) => Err(e)
      case Ok((attr, rest)) => PrependAttr(attr, ParseAttrs(rest, tag))
  }

  function PrependAttr(attr: Attr, r: Res<seq<Attr>>): Res<seq<Attr>> {
    match r
    case Err(e) => Err(e)
    case Ok(more) => Ok([attr] + more)
  }

  /** A tag's interior: its name and attributes. */
  function ParseTag(inner: string): Res<(string, seq<Attr>)> {
    var t := Trim(inner);
    var space := FindSpace(t);
    var name := t[..space];
    if name == [] then Err(EmptyTagName)
    else if space == |t| then Ok((name, []))
    else match ParseAttrs(TrimStart(t[space + 1..]), name)
      case Err(e) => Err(e)
      case Ok(attrs) => Ok((name, attrs))
  }

  // ----- tokens --------------------------------------------------------------

  function ReadTag(s: string): (r: Res<(Token, nat)>)
    requires s != []
    ensures r.Ok? ==> 0 < r.value.1 <= |s|
  {
    match TagEnd(s[1..], None)
    case None => Err(UnterminatedTag)
    case Some(i) =>
      match TagOf(s[1..i + 1])
      case Err(e) => Err(e)
      case Ok(token) => Ok((token, i + 2))
  }

  /** The tag whose interior is `inner`. */
  function TagOf(inner: string): Res<Token> {
    var selfClosing := EndsWithSlash(inner);
    match ParseTag(if selfClosing then inner[..|inner| - 1] else inner)
    case Err(e) => Err(e)
    case Ok((name, attrs)) => Ok(OpenTag(name, attrs, selfClosing))
  }

  /** The markup at the front of `s`, and how long it is. */
  function ReadToken(s: string): (r: Res<(Token, nat)>)
    requires s != [] && s[0] == '<'
    ensures r.Ok? ==> 0 < r.value.1 <= |s|
  {
    if StartsWith(s, "<!--") then
      var end := FindStr(s[4..], "-->");
      if end > |s| - 4 then Err(UnterminatedComment) else Ok((Skipped, 4 + end + 3))
    else if StartsWith(s, "<![CDATA[") then
      var end := FindStr(s[9..], "]]>");
      if end > |s| - 9 then Err(UnterminatedCData)
      else Ok((Verbatim(s[9..9 + end]), 9 + end + 3))
    else if StartsWith(s, "<?") then
      var end := FindStr(s[2..], "?>");
      if end > |s| - 2 then Err(UnterminatedInstruction) else Ok((Skipped, 2 + end + 2))
    else if StartsWith(s, "<!") then
      var end := Find(s, '>');
      if end == |s| then Err(UnterminatedDeclaration) else Ok((Skipped, end + 1))
    else if StartsWith(s, "</") then
      var end := Find(s, '>');
      assert end >= 2;
      if end == |s| then Err(UnterminatedCloseTag) else Ok((CloseTag(Trim(s[2..end])), end + 1))
    else ReadTag(s)
  }

  // ----- the element stack -----------------------------------------------------

  /** Elements read so far, and the elements still open, outermost first. */
  datatype Tree = Tree(roots: seq<Element>, stack: seq<Element>)
  {
    function Top(): Element
      requires stack != []
    {
      stack[|stack| - 1]
    }

    function AddText(text: string): Tree {
      if stack == [] then this
      else this.(stack := stack[..|stack| - 1] + [Top().(text := Top().text + text)])
    }

    function AddElement(e: Element): Tree {
      if stack == [] then this.(roots := roots + [e])
      else this.(stack := stack[..|stack| - 1] + [Top().(children := Top().children + [e])])
    }

    function Apply(token: Token): Res<Tree> {
      match token
      case Skipped => Ok(this)
      case Verbatim(text) => Ok(AddText(text))
      case OpenTag(name, attrs, selfClosing) =>
        var e := Element(name, attrs, [], "");
        Ok(if selfClosing then AddElement(e) else this.(stack := stack + [e]))
      case CloseTag(name) =>
        if stack == [] then Err(UnexpectedCloseTag(name))
        else if Top().name != name then Err(MismatchedCloseTag(Top().name, name))
        else Ok(this.(stack := stack[..|stack| - 1]).AddElement(Top()))
    }

    /** What the reader returns when no markup is left. */
    function Finish(): Res<seq<Element>> {
      if stack != [] then Err(UnclosedElement(Top().name)) else Ok(roots)
    }
  }

  /** What one round of reading does. */
  datatype Round = Finished | Failed(error: XmlError) | Continues(tree: Tree, consumed: nat)

  /** Read the markup at the front of `s`, which follows `skipped` characters of text. */
  function MarkupStep(s: string, tree: Tree, skipped: nat): (r: Round)
    requires s != [] && s[0] == '<'
    ensures !r.Finished?
    ensures r.Continues? ==> skipped < r.consumed <= skipped + |s|
  {
    match ReadToken(s)
    case Err(e) => Failed(e)
    case Ok((token, n)) =>
      match tree.Apply(token)
      case Err(e) => Failed(e)
      case Ok(next) => Continues(next, skipped + n)
  }

  /** Read the text up to the next markup, and that markup. */
  function Step(s: string, tree: Tree): (r: Round)
    ensures r.Continues? ==> 0 < r.consumed <= |s|
  {
    var lt := Find(s, '<');
    if lt == |s| then Finished
    else match ReadText(s[..lt], tree)
      case Err(e) => Failed(e)
      case Ok(next) => MarkupStep(s[lt..], next, lt)
  }

  /** Read `s` into `tree`. */
  function ReadAll(s: string, tree: Tree): Res<seq<Element>>
    decreases |s|
  {
    match Step(s, tree)
    case Finished => tree.Finish()
    case Failed(e) => Err(e)
    case Continues(next, n) => ReadAll(s[n..], next)
  }

  /** Character data belongs to the innermost open element; outside it is not even decoded. */
  function ReadText(raw: string, tree: Tree): Res<Tree> {
    if raw == [] || tree.stack == [] then Ok(tree)
    else match Unescape(raw)
      case Err(e) => Err(e)
      case Ok(text) => Ok(tree.AddText(text))
  }

  const EMPTY_TREE := Tree([], [])

  /** The elements of a document. */
  function ParseXml(input: string): Res<seq<Element>> {
    ReadAll(input, EMPTY_TREE)
  }

  // ----- the loops ---------------------------------------------------------------

  /** `find_tag_end`: the `>` closing the tag at `lt`, and whether it is self-closing. */
  method FindTagEnd(bytes: string, lt: nat) returns (r: Option<(nat, bool)>)
    requires lt < |bytes|
    ensures match TagEnd(bytes[lt + 1..], None)
            case None => r == None
            case Some(i) => r == Some((lt + 1 + i, EndsWithSlash(bytes[lt + 1..lt + 1 + i])))
  {
    hide EndsWithSlash;
    var i := lt + 1;
    var quote: Option<char> := None;
    ghost var whole := TagEnd(bytes[lt + 1..], None);
    while i < |bytes|
      invariant lt + 1 <= i <= |bytes|
      invariant whole == Shift(i - (lt + 1), TagEnd(bytes[i..], quote))
    {
      var c := bytes[i];
      assert bytes[i..][1..] == bytes[i + 1..];
      if quote.Some? {
        if c == quote.value {
          quote := None;
        }
      } else if IsQuote(c) {
        quote := Some(c);
      } else if c == '>' {
        var selfClosing := TrailingSlash(bytes, lt, i);
        return Some((i, selfClosing));
      }
      i := i + 1;
    }
    r := None;
  }

  /** The backward scan from the closing `>`. */
  method TrailingSlash(bytes: string, lt: nat, gt: nat) returns (slash: bool)
    requires lt < gt <= |bytes|
    ensures slash == EndsWithSlash(bytes[lt + 1..gt])
  {
    var k := gt;
    while k > lt + 1
      invariant lt + 1 <= k <= gt
      invariant EndsWithSlash(bytes[lt + 1..k]) == EndsWithSlash(bytes[lt + 1..gt])
    {
      k := k - 1;
      assert bytes[lt + 1..k + 1][..k - lt - 1] == bytes[lt + 1..k];
      if !IsBlank(bytes[k]) {
        return bytes[k] == '/';
      }
    }
    slash := false;
  }

  /** One attribute of the loop of `parse_tag`. */
  method ReadAttr(s: string, tag: string) returns (r: Res<(Attr, string)>)
    requires s != []
    ensures r == NextAttr(s, tag)
  {
    hide Unescape, Trim, TrimStart;
    var eq := Find(s, '=');
    if eq == |s| {
      return Err(AttributeWithoutEquals(tag));
    }
    var name := Trim(s[..eq]);
    var afterEq := TrimStart(s[eq + 1..]);
    if afterEq == [] {
      return Err(AttributeWithoutValue(name));
    }
    if !IsQuote(afterEq[0]) {
      return Err(AttributeNotQuoted(name));
    }
    var afterQuote := afterEq[1..];
    var close := Find(afterQuote, afterEq[0]);
    if close == |afterQuote| {
      return Err(AttributeUnterminated(name));
    }
    var value := XmlUnescape(afterQuote[..close]);
    match value {
      case Err(e) => r := Err(e);
      case Ok(v) => r := Ok((Attr(name, v), TrimStart(afterQuote[close + 1..])));
    }
  }

  function PrependAttrs(a: seq<Attr>, r: Res<seq<Attr>>): Res<seq<Attr>> {
    match r
    case Err(e) => Err(e)
    case Ok(b) => Ok(a + b)
  }

  lemma PrependAttrsOne(a: seq<Attr>, attr: Attr, r: Res<seq<Attr>>)
    ensures PrependAttrs(a, PrependAttr(attr, r)) == PrependAttrs(a + [attr], r)
    ensures PrependAttrs([], r) == r
  {
    if r.Ok? {
      assert a + ([attr] + r.value) == (a + [attr]) + r.value;
      assert [] + r.value == r.value;
    }
  }

  method ReadAttrs(text: string, tag: string) returns (r: Res<seq<Attr>>)
    ensures r == ParseAttrs(text, tag)
  {
    var s, attrs := text, [];
    PrependAttrsOne([], Attr("", ""), ParseAttrs(text, tag));
    while s != []
      invariant PrependAttrs(attrs, ParseAttrs(s, tag)) == ParseAttrs(text, tag)
      decreases |s|
    {
      var next := ReadAttr(s, tag);
      if next.Err? {
        return Err(next.error);
      }
      var (attr, rest) := next.value;
      PrependAttrsOne(attrs, attr, ParseAttrs(rest, tag));
      attrs := attrs + [attr];
      s := rest;
    }
    assert attrs + [] == attrs;
    r := Ok(attrs);
  }

  /** `parse_tag`. */
  method ReadTagInterior(inner: string) returns (r: Res<(string, seq<Attr>)>)
    ensures r == ParseTag(inner)
  {
    var t := Trim(inner);
    var space := FindSpace(t);
    var name := t[..space];
    if name == [] {
      return Err(EmptyTagName);
    }
    if space == |t| {
      return Ok((name, []));
    }
    var attrs := ReadAttrs(TrimStart(t[space + 1..]), name);
    match attrs {
      case Err(e) => r := Err(e);
      case Ok(list) => r := Ok((name, list));
    }
  }

  method NextTag(rest: string) returns (r: Res<(Token, nat)>)
    requires rest != []
    ensures r == ReadTag(rest)
  {
    var end := FindTagEnd(rest, 0);
    if end.None? {
      return Err(UnterminatedTag);
    }
    var (gt, selfClosing) := end.value;
    var token := MakeTag(rest, gt, selfClosing);
    match token {
      case Err(e) => r := Err(e);
      case Ok(t) => r := Ok((t, gt + 1));
    }
  }

  method MakeTag(rest: string, gt: nat, selfClosing: bool) returns (r: Res<Token>)
    requires 0 < gt < |rest| && selfClosing == EndsWithSlash(rest[1..gt])
    ensures r == TagOf(rest[1..gt])
  {
    var innerEnd := if selfClosing then gt - 1 else gt;
    assert rest[1..gt][..innerEnd - 1] == rest[1..innerEnd];
    var tag := ReadTagInterior(rest[1..innerEnd]);
    match tag {
      case Err(e) => r := Err(e);
      case Ok((name, attrs)) => r := Ok(OpenTag(name, attrs, selfClosing));
    }
  }

  /** The markup at the front of the rest of the document. */
  method NextToken(rest: string) returns (r: Res<(Token, nat)>)
    requires rest != [] && rest[0] == '<'
    ensures r == ReadToken(rest)
  {
    if StartsWith(rest, "<!") || StartsWith(rest, "<?") || StartsWith(rest, "</") {
      r := ReadToken(rest);
    } else {
      r := NextTag(rest);
    }
  }

  method DecodeText(raw: string, tree: Tree) returns (r: Res<Tree>)
    ensures r == ReadText(raw, tree)
  {
    if raw == [] || tree.stack == [] {
      return Ok(tree);
    }
    var text := XmlUnescape(raw);
    match text {
      case Err(e) => r := Err(e);
      case Ok(t) => r := Ok(tree.AddText(t));
    }
  }

  method ApplyNext(rest: string, tree: Tree, skipped: nat) returns (r: Round)
    requires rest != [] && rest[0] == '<'
    ensures r == MarkupStep(rest, tree, skipped)
  {
    var token := NextToken(rest);
    if token.Err? {
      return Failed(token.error);
    }
    var applied := tree.Apply(token.value.0);
    match applied {
      case Err(e) => r := Failed(e);
      case Ok(next) => r := Continues(next, skipped + token.value.1);
    }
  }

  /** One round of the loop of `parse_xml`. */
  method NextRound(rest: string, tree: Tree) returns (r: Round)
    ensures r == Step(rest, tree)
  {
    var lt := Find(rest, '<');
    if lt == |rest| {
      return Finished;
    }
    var current := DecodeText(rest[..lt], tree);
    if current.Err? {
      return Failed(current.error);
    }
    r := ApplyNext(rest[lt..], current.value, lt);
  }

  lemma NothingLeft(tree: Tree)
    ensures ReadAll([], tree) == tree.Finish()
  {
  }

  /** `parse_xml`. */
  method ParseDocument(input: string) returns (r: Res<seq<Element>>)
    ensures r == ParseXml(input)
  {
    hide Step;
    var tree := EMPTY_TREE;
    var pos := 0;
    assert input[0..] == input;
    ghost var whole := ReadAll(input, tree);
    while pos < |input|
      invariant pos <= |input|
      invariant ReadAll(input[pos..], tree) == whole
      decreases |input| - pos
    {
      var round := NextRound(input[pos..], tree);
      match round {
        case Finished => return tree.Finish();
        case Failed(e) => return Err(e);
        case Continues(next, n) =>
          assert input[pos..][n..] == input[pos + n..];
          tree, pos := next, pos + n;
      }
    }
    assert input[pos..] == [];
    NothingLeft(tree);
    r := tree.Finish();
  }
}
