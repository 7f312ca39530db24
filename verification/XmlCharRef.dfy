/** Character references (`xml_unescape`, `src/dump.rs`; section 4.1 of XML 1.0, Fifth
    Edition), against the decimal and hexadecimal numbers they spell. */
module XmlCharRef {
  import opened Prelude
  import opened Text
  import opened XmlText

  const SCALARS_END: nat := 0x11_0000
  const U32_END: nat := 0x1_0000_0000

  /** A code point that is a character: not a surrogate, not beyond the last. */
  predicate IsScalar(code: nat) {
    code < 0xD800 || 0xE000 <= code < SCALARS_END
  }

  function HexChar(d: nat, upper: bool): (c: char)
    requires d < 16
  {
    if d < 10 then ('0' as int + d) as char
    else if upper then ('A' as int + (d - 10)) as char
    else ('a' as int + (d - 10)) as char
  }

  function Later(upper: nat -> bool): nat -> bool {
    (k: nat) => upper(k + 1)
  }

  /** The hexadecimal text of `n`; `upper` chooses the case of each digit, from the last. */
  function Hex(n: nat, upper: nat -> bool): (s: string)
    ensures s != []
    decreases n
  {
    if n < 16 then [HexChar(n, upper(0))]
    else Hex(n / 16, Later(upper)) + [HexChar(n % 16, upper(0))]
  }

  lemma HexCharReads(d: nat, upper: bool)
    requires d < 16
    ensures HexDigit(HexChar(d, upper)) == Some(d)
    ensures HexChar(d, upper) != ';' && HexChar(d, upper) != '&' && HexChar(d, upper) != '+'
  {
  }

  /** A text that can stand in a reference. */
  predicate Inert(s: string) {
    forall i :: 0 <= i < |s| ==> s[i] != ';' && s[i] != '&' && s[i] != '+'
  }

  lemma {:induction false} HexReads(n: nat, upper: nat -> bool)
    ensures HexValue(Hex(n, upper)) == Some(n) && Inert(Hex(n, upper))
    decreases n
  {
    hide Later;
    if n < 16 {
      HexCharReads(n, upper(0));
      HexSnoc([], HexChar(n, upper(0)));
      assert [] + [HexChar(n, upper(0))] == Hex(n, upper);
    } else {
      HexReads(n / 16, Later(upper));
      HexCharReads(n % 16, upper(0));
      HexSnoc(Hex(n / 16, Later(upper)), HexChar(n % 16, upper(0)));
    }
  }

  lemma HexSnoc(s: string, c: char)
    requires HexValue(s).Some? && HexDigit(c).Some?
    ensures HexValue(s + [c]) == Some(HexValue(s).value * 16 + HexDigit(c).value)
  {
    assert (s + [c])[..|s|] == s;
  }

  lemma DecIsInert(n: nat)
    ensures Inert(Dec(n))
  {
    assert AllDigits(Dec(n));
  }

  // ----- what an entity stands for -------------------------------------------------------------------

  lemma HashIsNoName(rest: string)
    ensures var entity := "#" + rest;
            entity != "amp" && entity != "lt" && entity != "gt" && entity != "quot" && entity != "apos"
  {
    assert ("#" + rest)[0] == '#';
    assert "amp"[0] != '#' && "lt"[0] != '#' && "gt"[0] != '#' && "quot"[0] != '#' && "apos"[0] != '#';
  }

  /** The number of a decimal reference, from its text. */
  lemma DecimalEntity(t: string)
    requires t == [] || (t[0] != 'x' && t[0] != 'X')
    ensures DecodeEntity("#" + t) == DecodeCharRef(ParseU32(t), "#" + t)
  {
    HashIsNoName(t);
    var entity := "#" + t;
    assert entity[1..] == t && entity[0] == '#';
    assert !StartsWith(entity, "#x") && !StartsWith(entity, "#X") by {
      if t != [] {
        assert entity[1] == t[0];
      }
    }
    assert entity[..1] == "#";
  }

  lemma HexEntity(x: char, t: string)
    requires x == 'x' || x == 'X'
    ensures DecodeEntity("#" + [x] + t) == DecodeCharRef(ParseHexU32(t), "#" + [x] + t)
  {
    HashIsNoName([x] + t);
    var entity := "#" + [x] + t;
    assert entity == "#" + ([x] + t);
    assert entity[2..] == t && entity[..2] == "#" + [x];
  }

  /** What a number that was read stands for. */
  lemma CodeDecodes(code: nat, entity: string)
    ensures IsScalar(code) ==> DecodeCharRef(Some(code), entity) == Ok(code as char)
    ensures !IsScalar(code) ==> DecodeCharRef(Some(code), entity) == Err(InvalidCodePoint(entity))
  {
  }

  // ----- references in text --------------------------------------------------------------------------

  lemma FailingReference(entity: string, e: XmlError, rest: string)
    requires '&' !in entity && ';' !in entity && DecodeEntity(entity) == Err(e)
    ensures Unescape("&" + entity + ";" + rest) == Err(e)
  {
    var s := "&" + entity + ";" + rest;
    FindAt(s, '&', 0);
    assert s[0..] == s;
    assert s[..|entity| + 1] == "&" + entity;
    FindAt(s, ';', |entity| + 1);
    assert s[1..|entity| + 1] == entity;
  }

  /** `&#<decimal>;`: the character of every scalar value, an invalid code point for every other
      number that fits 32 bits, a bad reference for a larger one. */
  lemma DecimalReference(code: nat, rest: string)
    ensures var entity := "#" + Dec(code);
            var r := Unescape("&" + entity + ";" + rest);
            && (IsScalar(code) ==> r == Prepend([code as char], Unescape(rest)))
            && (!IsScalar(code) && code < U32_END ==> r == Err(InvalidCodePoint(entity)))
            && (code >= U32_END ==> r == Err(BadCharRef(entity)))
  {
    var t, entity := Dec(code), "#" + Dec(code);
    DecIsInert(code);
    assert IsDigit(t[0]);
    DecimalEntity(t);
    DecValue(code);
    assert ParseU32(t) == if code < U32_END then Some(code) else None;
    CodeDecodes(code, entity);
    EntityInert("#", t);
    hide Dec, ParseU32, DecodeEntity, DecodeCharRef, Unescape, Inert;
    if IsScalar(code) {
      UnescapeReference(entity, code as char, rest);
    } else if code < U32_END {
      FailingReference(entity, InvalidCodePoint(entity), rest);
    } else {
      FailingReference(entity, BadCharRef(entity), rest);
    }
  }

  lemma EntityInert(prefix: string, t: string)
    requires Inert(t) && Inert(prefix)
    ensures '&' !in prefix + t && ';' !in prefix + t
  {
  }

  /** `&#x<hexadecimal>;` and `&#X<hexadecimal>;`, with digits of either case. */
  lemma HexReference(x: char, code: nat, upper: nat -> bool, rest: string)
    requires x == 'x' || x == 'X'
    ensures var entity := "#" + [x] + Hex(code, upper);
            var r := Unescape("&" + entity + ";" + rest);
            && (IsScalar(code) ==> r == Prepend([code as char], Unescape(rest)))
            && (!IsScalar(code) && code < U32_END ==> r == Err(InvalidCodePoint(entity)))
            && (code >= U32_END ==> r == Err(BadCharRef(entity)))
  {
    var t := Hex(code, upper);
    var entity := "#" + [x] + t;
    HexReads(code, upper);
    HexEntity(x, t);
    assert t[0] != '+';
    assert ParseHexU32(t) == if code < U32_END then Some(code) else None;
    CodeDecodes(code, entity);
    EntityInert("#" + [x], t);
    hide Hex, ParseHexU32, DecodeEntity, DecodeCharRef, Unescape, Inert;
    if IsScalar(code) {
      UnescapeReference(entity, code as char, rest);
    } else if code < U32_END {
      FailingReference(entity, InvalidCodePoint(entity), rest);
    } else {
      FailingReference(entity, BadCharRef(entity), rest);
    }
  }

  /** A decimal reference that is not a number: empty, or with something other than a digit
      after an optional `+`. */
  lemma NotADecimal(t: string, rest: string)
    requires '&' !in t && ';' !in t && (t == [] || (t[0] != 'x' && t[0] != 'X'))
    requires var digits := if t != [] && t[0] == '+' then t[1..] else t;
             digits == [] || exists i :: 0 <= i < |digits| && !IsDigit(digits[i])
    ensures Unescape("&" + ("#" + t) + ";" + rest) == Err(BadCharRef("#" + t))
  {
    DecimalEntity(t);
    assert ParseU32(t) == None;
    assert '&' !in "#" + t && ';' !in "#" + t;
    hide DecodeEntity, Unescape, ParseU32;
    FailingReference("#" + t, BadCharRef("#" + t), rest);
  }

  predicate IsHexDigit(c: char) {
    '0' <= c <= '9' || 'a' <= c <= 'f' || 'A' <= c <= 'F'
  }

  lemma {:induction false} HexOnlyDigits(s: string)
    ensures HexValue(s).Some? <==> forall i :: 0 <= i < |s| ==> IsHexDigit(s[i])
  {
    if s != [] {
      HexOnlyDigits(s[..|s| - 1]);
    }
  }

  lemma NotAHexadecimal(x: char, t: string, rest: string)
    requires (x == 'x' || x == 'X') && '&' !in t && ';' !in t
    requires var digits := if t != [] && t[0] == '+' then t[1..] else t;
             digits == [] || exists i :: 0 <= i < |digits| && !IsHexDigit(digits[i])
    ensures Unescape("&" + ("#" + [x] + t) + ";" + rest) == Err(BadCharRef("#" + [x] + t))
  {
    HexEntity(x, t);
    HexOnlyDigits(if t != [] && t[0] == '+' then t[1..] else t);
    assert ParseHexU32(t) == None;
    var entity := "#" + [x] + t;
    assert '&' !in entity && ';' !in entity;
    hide DecodeEntity, Unescape, ParseHexU32;
    FailingReference(entity, BadCharRef(entity), rest);
  }

  /** Any other name is unknown. */
  lemma UnknownReference(entity: string, rest: string)
    requires '&' !in entity && ';' !in entity && (entity == [] || entity[0] != '#')
    requires entity != "amp" && entity != "lt" && entity != "gt" && entity != "quot" && entity != "apos"
    ensures Unescape("&" + entity + ";" + rest) == Err(UnknownEntity(entity))
  {
    assert DecodeEntity(entity) == Err(UnknownEntity(entity));
    hide DecodeEntity, Unescape;
    FailingReference(entity, UnknownEntity(entity), rest);
  }

  // ----- text in pieces ---------------------------------------------------------------------------------

  lemma {:induction false} OrdinaryPrefix(a: string, u: string)
    requires '&' !in a
    ensures Unescape(a + u) == Prepend(a, Unescape(u))
    decreases |a|
  {
    if a == [] {
      assert a + u == u;
      PrependNothing(Unescape(u));
    } else {
      assert a + u == [a[0]] + (a[1..] + u);
      UnescapeOrdinary(a[0], a[1..] + u);
      OrdinaryPrefix(a[1..], u);
      PrependPrepend([a[0]], a[1..], Unescape(u));
      assert [a[0]] + a[1..] == a;
    }
  }

  /** Text whose references are complete is decoded on its own. */
  lemma {:induction false} UnescapeAppend(a: string, u: string)
    requires Unescape(a).Ok?
    ensures Unescape(a + u) == Prepend(Unescape(a).value, Unescape(u))
    decreases |a|
  {
    var amp := Find(a, '&');
    FindFinds(a, '&');
    if amp == |a| {
      OrdinaryPrefix(a, u);
    } else {
      var (decoded, rest) := FirstReference(a).value;
      ReferenceInFront(a, u);
      hide FirstReference;
      UnescapeAppend(rest, u);
      PrependPrepend(decoded, Unescape(rest).value, Unescape(u));
    }
  }

  lemma ReferenceInFront(a: string, u: string)
    requires Find(a, '&') < |a| && FirstReference(a).Ok?
    ensures Find(a + u, '&') < |a + u|
    ensures FirstReference(a + u) == Ok((FirstReference(a).value.0, FirstReference(a).value.1 + u))
  {
    var amp := Find(a, '&');
    FindFinds(a, '&');
    FindAt(a + u, '&', amp);
    DecodeInFront(a[amp..], u);
    hide DecodeReference, Find;
    assert (a + u)[amp..] == a[amp..] + u && (a + u)[..amp] == a[..amp];
  }

  lemma DecodeInFront(s: string, u: string)
    requires s != [] && s[0] == '&' && DecodeReference(s).Ok?
    ensures DecodeReference(s + u) == Ok((DecodeReference(s).value.0, DecodeReference(s).value.1 + u))
  {
    var semi := Find(s, ';');
    FindFinds(s, ';');
    FindAt(s + u, ';', semi);
    hide DecodeEntity, Find;
    assert (s + u)[1..semi] == s[1..semi] && (s + u)[semi + 1..] == s[semi + 1..] + u;
  }
}
