/** Documents the XML reader refuses (`parse_xml`, `find_tag_end` and `parse_tag`,
    `src/dump.rs`): markup that does not end, and attributes that are not `name="value"`. */
module XmlRejects {
  import opened Prelude
  import opened Text
  import opened XmlText
  import opened XmlReader
  import opened XmlRoundTrip

  /** A text in which `pat` does not occur. */
  predicate Lacks(s: string, pat: string) {
    forall k :: 0 <= k <= |s| ==> !(pat <= s[k..])
  }

  lemma {:induction false} FindStrNone(s: string, pat: string)
    requires Lacks(s, pat)
    ensures FindStr(s, pat) == |s| + 1
  {
    assert s[0..] == s;
    assert !(pat <= s[0..]);
    if s != [] {
      forall k | 0 <= k <= |s| - 1
        ensures !(pat <= s[1..][k..])
      {
        assert s[1..][k..] == s[k + 1..];
      }
      FindStrNone(s[1..], pat);
    }
  }

  lemma FindNone(s: string, c: char)
    requires c !in s
    ensures Find(s, c) == |s|
  {
    FindAt(s, c, |s|);
  }

  /** Markup that does not end makes the whole document fail, whatever came before it. */
  lemma EndsReading(s: string, tree: Tree, error: XmlError)
    requires s != [] && s[0] == '<' && ReadToken(s) == Err(error)
    ensures ReadAll(s, tree) == Err(error)
  {
    FindAt(s, '<', 0);
    assert s[..0] == [] && s[0..] == s;
  }

  lemma RejectedAfter(before: Content, s: string, error: XmlError)
    requires ContentOk(before) && s != [] && s[0] == '<' && ReadToken(s) == Err(error)
    ensures ParseXml(PrintContent(before) + s) == Err(error)
  {
    hide ReadToken, PrintContent, ContentOk, Absorb, ReadAll;
    ReadContent(before, s, EMPTY_TREE);
    EndsReading(s, Absorb(EMPTY_TREE, before), error);
  }

  lemma UnterminatedCommentToken(t: string)
    requires Lacks(t, "-->")
    ensures ReadToken("<!--" + t) == Err(UnterminatedComment)
  {
    var s := "<!--" + t;
    assert s[4..] == t && s[..4] == "<!--";
    FindStrNone(t, "-->");
  }

  lemma UnterminatedCommentRejected(before: Content, t: string)
    requires ContentOk(before) && Lacks(t, "-->")
    ensures ParseXml(PrintContent(before) + ("<!--" + t)) == Err(UnterminatedComment)
  {
    hide ReadToken;
    UnterminatedCommentToken(t);
    assert ("<!--" + t)[0] == '<';
    RejectedAfter(before, "<!--" + t, UnterminatedComment);
  }

  lemma UnterminatedCDataToken(t: string)
    requires Lacks(t, "]]>")
    ensures ReadToken("<![CDATA[" + t) == Err(UnterminatedCData)
  {
    var s := "<![CDATA[" + t;
    assert s[9..] == t && s[..9] == "<![CDATA[" && s[2] == '[';
    FindStrNone(t, "]]>");
  }

  lemma UnterminatedCDataRejected(before: Content, t: string)
    requires ContentOk(before) && Lacks(t, "]]>")
    ensures ParseXml(PrintContent(before) + ("<![CDATA[" + t)) == Err(UnterminatedCData)
  {
    hide ReadToken;
    UnterminatedCDataToken(t);
    assert ("<![CDATA[" + t)[0] == '<';
    RejectedAfter(before, "<![CDATA[" + t, UnterminatedCData);
  }

  lemma UnterminatedInstructionToken(t: string)
    requires Lacks(t, "?>")
    ensures ReadToken("<?" + t) == Err(UnterminatedInstruction)
  {
    var s := "<?" + t;
    assert s[2..] == t && s[..2] == "<?" && s[1] == '?';
    FindStrNone(t, "?>");
  }

  lemma UnterminatedInstructionRejected(before: Content, t: string)
    requires ContentOk(before) && Lacks(t, "?>")
    ensures ParseXml(PrintContent(before) + ("<?" + t)) == Err(UnterminatedInstruction)
  {
    hide ReadToken;
    UnterminatedInstructionToken(t);
    assert ("<?" + t)[0] == '<';
    RejectedAfter(before, "<?" + t, UnterminatedInstruction);
  }

  lemma UnterminatedCloseTagToken(t: string)
    requires '>' !in t
    ensures ReadToken("</" + t) == Err(UnterminatedCloseTag)
  {
    var s := "</" + t;
    assert s[..2] == "</" && s[1] == '/';
    FindNone(s, '>');
  }

  lemma UnterminatedCloseTagRejected(before: Content, t: string)
    requires ContentOk(before) && '>' !in t
    ensures ParseXml(PrintContent(before) + ("</" + t)) == Err(UnterminatedCloseTag)
  {
    hide ReadToken;
    UnterminatedCloseTagToken(t);
    assert ("</" + t)[0] == '<';
    RejectedAfter(before, "</" + t, UnterminatedCloseTag);
  }

  /** A tag that is open at the end, outside quotes or inside them. */
  lemma {:induction false} NoTagEnd(s: string, quote: Option<char>)
    requires if quote.Some? then quote.value !in s else '>' !in s && '"' !in s && '\'' !in s
    ensures TagEnd(s, quote) == None
    decreases |s|
  {
    if s != [] {
      NoTagEnd(s[1..], quote);
    }
  }

  // ----- attributes ----------------------------------------------------------------------------------------

  /** An attribute without `=`. */
  lemma AttributeNeedsEquals(s: string, tag: string)
    requires s != [] && '=' !in s
    ensures ParseAttrs(s, tag) == Err(AttributeWithoutEquals(tag))
  {
    FindNone(s, '=');
  }

  /** An attribute whose value is missing, not quoted, or not closed; the blanks around its name
      do not count. */
  lemma AttributeNeedsValue(name: string, rest: string, tag: string)
    requires '=' !in name
    ensures var value := TrimStart(rest);
            && (value == [] ==> ParseAttrs(name + "=" + rest, tag) == Err(AttributeWithoutValue(Trim(name))))
            && (value != [] && value[0] != '"' && value[0] != '\'' ==>
                  ParseAttrs(name + "=" + rest, tag) == Err(AttributeNotQuoted(Trim(name))))
            && (value != [] && (value[0] == '"' || value[0] == '\'') && value[0] !in value[1..] ==>
                  ParseAttrs(name + "=" + rest, tag) == Err(AttributeUnterminated(Trim(name))))
  {
    var s, value := name + "=" + rest, TrimStart(rest);
    assert s[..|name|] == name && s[|name|] == '=' && s[|name| + 1..] == rest;
    FindAt(s, '=', |name|);
    if value != [] && value[0] !in value[1..] {
      FindNone(value[1..], value[0]);
    }
    hide Trim, TrimStart, Find, Unescape;
  }

  /** A tag without a name. */
  lemma TagNeedsName(inner: string)
    requires forall i :: 0 <= i < |inner| ==> IsSpace(inner[i])
    ensures ParseTag(inner) == Err(EmptyTagName)
  {
    AllBlank(inner);
  }

  lemma {:induction false} AllBlank(s: string)
    requires forall i :: 0 <= i < |s| ==> IsSpace(s[i])
    ensures TrimStart(s) == [] && Trim(s) == []
    decreases |s|
  {
    if s != [] {
      AllBlank(s[1..]);
    }
  }

  /** The five predefined entities, by name. */
  lemma PredefinedEntities()
    ensures Unescape("&" + "amp" + ";") == Ok("&")
    ensures Unescape("&" + "lt" + ";") == Ok("<") && Unescape("&" + "gt" + ";") == Ok(">")
    ensures Unescape("&" + "quot" + ";") == Ok("\"") && Unescape("&" + "apos" + ";") == Ok("'")
  {
    hide Unescape;
    OneEntity("amp", '&');
    OneEntity("lt", '<');
    OneEntity("gt", '>');
    OneEntity("quot", '"');
    OneEntity("apos", '\'');
  }

  lemma OneEntity(entity: string, c: char)
    requires '&' !in entity && ';' !in entity && DecodeEntity(entity) == Ok(c)
    ensures Unescape("&" + entity + ";") == Ok([c])
  {
    UnescapeReference(entity, c, "");
    FindAt("", '&', 0);
    assert [c] + "" == [c];
    var s := "&" + entity + ";";
    assert s + "" == s;
  }
}
