/** Character data of the GraphML printer and reader (`src/dump.rs`): escaping the XML
    special characters, and decoding entity and character references (sections 2.4, 4.1 and
    4.6 of XML 1.0, Fifth Edition). */
module XmlText {
  import opened Prelude
  import opened Text

  datatype XmlError =
    | UnterminatedEntity
    | UnknownEntity(entity: string)
    | BadCharRef(entity: string)
    | InvalidCodePoint(entity: string)
    | UnterminatedComment
    | UnterminatedCData
    | UnterminatedInstruction
    | UnterminatedDeclaration
    | UnterminatedCloseTag
    | UnexpectedCloseTag(name: string)
    | MismatchedCloseTag(expected: string, found: string)
    | UnterminatedTag
    | EmptyTagName
    | AttributeWithoutEquals(tag: string)
    | AttributeWithoutValue(attribute: string)
    | AttributeNotQuoted(attribute: string)
    | AttributeUnterminated(attribute: string)
    | UnclosedElement(name: string)

  // ----- escaping --------------------------------------------------------------

  /** Control characters XML 1.0 does not allow in a document. */
  predicate IsForbidden(c: char) {
    c < ' ' && c != '\t' && c != '\n' && c != '\r'
  }

  /** The predefined entity for `c`, empty when it needs none. */
  function EntityOf(c: char): string {
    if c == '&' then "amp"
    else if c == '<' then "lt"
    else if c == '>' then "gt"
    else if c == '"' then "quot"
    else if c == '\'' then "apos"
    else ""
  }

  function EscapeChar(c: char): string {
    if EntityOf(c) != [] then "&" + EntityOf(c) + ";"
    else if IsForbidden(c) then ['\U{FFFD}']
    else [c]
  }

  function Escape(s: string): string {
    if s == [] then [] else EscapeChar(s[0]) + Escape(s[1..])
  }

  /** `s` with every forbidden control character replaced. */
  function Sanitize(s: string): string {
    seq(|s|, i requires 0 <= i < |s| => if IsForbidden(s[i]) then '\U{FFFD}' else s[i])
  }

  lemma {:induction false} EscapeAppend(a: string, b: string)
    ensures Escape(a + b) == Escape(a) + Escape(b)
  {
    if a == [] {
      assert a + b == b;
    } else {
      assert (a + b)[1..] == a[1..] + b;
      EscapeAppend(a[1..], b);
    }
  }

  method PushEscaped(out: string, s: string) returns (r: string)
    ensures r == out + Escape(s)
  {
    r := out;
    var i := 0;
    while i < |s|
      invariant 0 <= i <= |s|
      invariant r + Escape(s[i..]) == out + Escape(s)
    {
      assert s[i..][1..] == s[i + 1..];
      assert r + (EscapeChar(s[i]) + Escape(s[i + 1..])) == (r + EscapeChar(s[i])) + Escape(s[i + 1..]);
      r := r + EscapeChar(s[i]);
      i := i + 1;
    }
  }

  /** None of the characters that end a text or an attribute value. */
  predicate IsInert(s: string) {
    forall i :: 0 <= i < |s| ==> s[i] != '<' && s[i] != '>' && s[i] != '"' && s[i] != '\''
  }

  lemma EntityIsLetters(c: char)
    ensures forall i :: 0 <= i < |EntityOf(c)| ==> 'a' <= EntityOf(c)[i] <= 'z'
  {
  }

  lemma {:induction false} EscapeIsInert(s: string)
    ensures IsInert(Escape(s))
  {
    if s != [] {
      EscapeIsInert(s[1..]);
      EntityIsLetters(s[0]);
      assert IsInert(EscapeChar(s[0]));
    }
  }

  /** Nothing to escape and nothing forbidden. */
  predicate IsPlain(s: string) {
    forall i :: 0 <= i < |s| ==>
      s[i] != '&' && s[i] != '<' && s[i] != '>' && s[i] != '"' && s[i] != '\'' && !IsForbidden(s[i])
  }

  lemma {:induction false} PlainIsItself(s: string)
    requires IsPlain(s)
    ensures Escape(s) == s && Sanitize(s) == s
  {
    if s != [] {
      PlainIsItself(s[1..]);
      assert s == [s[0]] + s[1..];
    }
  }

  /** Printing what was read back gives the same text again. */
  lemma {:induction false} EscapeSanitized(s: string)
    ensures Escape(Sanitize(s)) == Escape(s)
    ensures Sanitize(Sanitize(s)) == Sanitize(s)
  {
    if s != [] {
      assert Sanitize(s)[1..] == Sanitize(s[1..]);
      EscapeSanitized(s[1..]);
    }
  }

  // ----- unescaping --------------------------------------------------------------

  function HexDigit(c: char): Option<nat> {
    if '0' <= c <= '9' then Some(c as int - '0' as int)
    else if 'a' <= c <= 'f' then Some(c as int - 'a' as int + 10)
    else if 'A' <= c <= 'F' then Some(c as int - 'A' as int + 10)
    else None
  }

  function HexValue(s: string): Option<nat> {
    if s == [] then Some(0)
    else match (HexValue(s[..|s| - 1]), HexDigit(s[|s| - 1]))
      case (Some(high), Some(low)) => Some(high * 16 + low)
      case _ => None
  }

  /** `u32::from_str_radix(s, 16)`: an optional `+`, then hexadecimal digits that fit. */
  function ParseHexU32(s: string): Option<nat> {
    var body := if s != [] && s[0] == '+' then s[1..] else s;
    if body == [] then None
    else match HexValue(body)
      case Some(v) => if v < 0x1_0000_0000 then Some(v) else None
      case None => None
  }

  /** `str::parse::<u32>`. */
  function ParseU32(s: string): Option<nat> {
    match ParseU64(s)
    case Some(v) => if v < 0x1_0000_0000 then Some(v) else None
    case None => None
  }

  /** `char::from_u32`: every code point but the surrogates. */
  function CharOf(code: nat): Option<char> {
    if code < 0xD800 || 0xE000 <= code < 0x11_0000 then Some(code as char) else None
  }

  function DecodeCharRef(code: Option<nat>, entity: string): Result<char, XmlError> {
    match code
    case None => Err(BadCharRef(entity))
    case Some(v) =>
      match CharOf(v)
      case None => Err(InvalidCodePoint(entity))
      case Some(c) => Ok(c)
  }

  /** The character `&entity;` stands for. */
  function DecodeEntity(entity: string): Result<char, XmlError> {
    if entity == "amp" then Ok('&')
    else if entity == "lt" then Ok('<')
    else if entity == "gt" then Ok('>')
    else if entity == "quot" then Ok('"')
    else if entity == "apos" then Ok('\'')
    else if StartsWith(entity, "#x") || StartsWith(entity, "#X") then
      DecodeCharRef(ParseHexU32(entity[2..]), entity)
    else if StartsWith(entity, "#") then
      DecodeCharRef(ParseU32(entity[1..]), entity)
    else Err(UnknownEntity(entity))
  }

  function Prepend(s: string, r: Result<string, XmlError>): Result<string, XmlError> {
    match r
    case Ok(t) => Ok(s + t)
    case Err(e) => Err(e)
  }

  /** The reference at the front of `s`, decoded, and what follows it. */
  function DecodeReference(s: string): (r: Result<(char, string), XmlError>)
    requires s != [] && s[0] == '&'
    ensures r.Ok? ==> |r.value.1| < |s|
  {
    var semi := Find(s, ';');
    if semi == |s| then Err(UnterminatedEntity)
    else match DecodeEntity(s[1..semi])
      case Err(e) => Err(e)
      case Ok(c) => Ok((c, s[semi + 1..]))
  }

  /** The text up to and including the first reference, decoded, and what follows it. */
  function FirstReference(s: string): (r: Result<(string, string), XmlError>)
    requires Find(s, '&') < |s|
    ensures r.Ok? ==> |r.value.1| < |s|
  {
    var amp := Find(s, '&');
    match DecodeReference(s[amp..])
    case Err(e) => Err(e)
    case Ok((c, rest)) => Ok((s[..amp] + [c], rest))
  }

  /** Entity references turned back into their characters, in one left-to-right pass. */
  function Unescape(s: string): Result<string, XmlError>
    decreases |s|
  {
    if Find(s, '&') == |s| then Ok(s)
    else match FirstReference(s)
      case Err(e) => Err(e)
      case Ok((decoded, rest)) => Prepend(decoded, Unescape(rest))
  }

  lemma PrependNothing(r: Result<string, XmlError>)
    ensures Prepend("", r) == r
  {
    if r.Ok? {
      assert "" + r.value == r.value;
    }
  }

  lemma PrependPrepend(a: string, b: string, r: Result<string, XmlError>)
    ensures Prepend(a, Prepend(b, r)) == Prepend(a + b, r)
  {
    if r.Ok? {
      assert a + (b + r.value) == (a + b) + r.value;
    }
  }

  /** One round of the loop of `xml_unescape`: the decoded text so far, and what is left. */
  method DecodeNext(out: string, rest: string) returns (r: Result<(string, string), XmlError>)
    requires Find(rest, '&') < |rest|
    ensures match FirstReference(rest)
            case Err(e) => r == Err(e)
            case Ok((decoded, left)) => r == Ok((out + decoded, left))
  {
    var amp := Find(rest, '&');
    var after := rest[amp..];
    var semi := Find(after, ';');
    if semi == |after| {
      return Err(UnterminatedEntity);
    }
    var decoded := DecodeEntity(after[1..semi]);
    match decoded {
      case Err(e) => r := Err(e);
      case Ok(c) => r := Ok((out + (rest[..amp] + [c]), after[semi + 1..]));
    }
  }

  method XmlUnescape(s: string) returns (r: Result<string, XmlError>)
    ensures r == Unescape(s)
  {
    if '&' !in s {
      FindAt(s, '&', |s|);
      return Ok(s);
    }
    var out, rest := "", s;
    PrependNothing(Unescape(s));
    while Find(rest, '&') < |rest|
      invariant Prepend(out, Unescape(rest)) == Unescape(s)
      decreases |rest|
    {
      var next := DecodeNext(out, rest);
      if next.Err? {
        return Err(next.error);
      }
      PrependPrepend(out, FirstReference(rest).value.0, Unescape(next.value.1));
      out, rest := next.value.0, next.value.1;
    }
    r := Ok(out + rest);
  }

  // ----- the round trip ------------------------------------------------------------

  lemma FindAfter(c: char, rest: string)
    requires c != '&'
    ensures Find([c] + rest, '&') == 1 + Find(rest, '&')
  {
    assert ([c] + rest)[1..] == rest;
  }

  lemma FirstReferenceAfter(c: char, rest: string)
    requires c != '&' && Find(rest, '&') < |rest|
    ensures Find([c] + rest, '&') < |[c] + rest|
    ensures match FirstReference(rest)
            case Err(e) => FirstReference([c] + rest) == Err(e)
            case Ok((decoded, left)) => FirstReference([c] + rest) == Ok(([c] + decoded, left))
  {
    FindAfter(c, rest);
    var s, amp := [c] + rest, Find(rest, '&');
    assert s[amp + 1..] == rest[amp..];
    assert s[..amp + 1] == [c] + rest[..amp];
    if DecodeReference(rest[amp..]).Ok? {
      var d := DecodeReference(rest[amp..]).value.0;
      assert [c] + rest[..amp] + [d] == [c] + (rest[..amp] + [d]);
    }
  }

  /** A character that starts no reference is read as itself. */
  lemma UnescapeOrdinary(c: char, rest: string)
    requires c != '&'
    ensures Unescape([c] + rest) == Prepend([c], Unescape(rest))
  {
    FindAfter(c, rest);
    if Find(rest, '&') < |rest| {
      FirstReferenceAfter(c, rest);
      if FirstReference(rest).Ok? {
        var (decoded, left) := FirstReference(rest).value;
        PrependPrepend([c], decoded, Unescape(left));
      }
    }
  }

  lemma UnescapeReference(entity: string, c: char, rest: string)
    requires '&' !in entity && ';' !in entity && DecodeEntity(entity) == Ok(c)
    ensures Unescape("&" + entity + ";" + rest) == Prepend([c], Unescape(rest))
  {
    var s := "&" + entity + ";" + rest;
    FindAt(s, '&', 0);
    assert s[0..] == s;
    assert s[..|entity| + 1] == "&" + entity;
    FindAt(s, ';', |entity| + 1);
    assert s[1..|entity| + 1] == entity;
    assert s[|entity| + 2..] == rest;
    assert s[..0] + [c] == [c];
  }

  lemma EntityDecodes(c: char)
    requires EntityOf(c) != []
    ensures DecodeEntity(EntityOf(c)) == Ok(c) && !IsForbidden(c)
    ensures '&' !in EntityOf(c) && ';' !in EntityOf(c)
  {
  }

  lemma UnescapeEscapedChar(c: char, rest: string)
    ensures Unescape(EscapeChar(c) + rest) == Prepend(Sanitize([c]), Unescape(rest))
  {
    if EntityOf(c) != [] {
      EntityDecodes(c);
      UnescapeReference(EntityOf(c), c, rest);
    } else if IsForbidden(c) {
      UnescapeOrdinary('\U{FFFD}', rest);
    } else {
      UnescapeOrdinary(c, rest);
    }
    assert Sanitize([c]) == [if IsForbidden(c) then '\U{FFFD}' else c];
  }

  lemma SanitizeFirst(s: string)
    requires s != []
    ensures Sanitize(s) == Sanitize([s[0]]) + Sanitize(s[1..])
  {
  }

  /** Reading escaped text gives the text, with forbidden control characters replaced. */
  lemma {:induction false} EscapeRoundTrip(s: string)
    ensures Unescape(Escape(s)) == Ok(Sanitize(s))
  {
    if s == [] {
      assert Sanitize(s) == [];
    } else {
      EscapeRoundTrip(s[1..]);
      UnescapeEscapedChar(s[0], Escape(s[1..]));
      SanitizeFirst(s);
    }
  }
}
