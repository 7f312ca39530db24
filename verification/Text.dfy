/** The string operations of Rust's standard library that the parsers rely on: searching,
    trimming and decimal numbers. Strings are sequences of Unicode scalar values; every
    delimiter the parsers search for is ASCII, so scalar positions and byte positions cut
    a string at the same places. */
module Text {
  import opened Prelude

  const U64_LIMIT: int := 0x1_0000_0000_0000_0000
  const I64_LIMIT: int := 0x8000_0000_0000_0000

  /** Unicode `White_Space`, which `char::is_whitespace` tests. */
  predicate IsSpace(c: char) {
    || '\t' <= c <= '\r'
    || c == ' '
    || c == '\U{85}'
    || c == '\U{A0}'
    || c == '\U{1680}'
    || '\U{2000}' <= c <= '\U{200A}'
    || c == '\U{2028}'
    || c == '\U{2029}'
    || c == '\U{202F}'
    || c == '\U{205F}'
    || c == '\U{3000}'
  }

  lemma Assoc<T>(a: seq<T>, b: seq<T>, c: seq<T>)
    ensures a + b + c == a + (b + c)
  {
  }

  // ----- searching -----------------------------------------------------------

  /** The first position of `c` in `s`, or `|s|`. */
  function Find(s: string, c: char): (i: nat)
    ensures i <= |s|
    ensures i < |s| ==> s[i] == c
  {
    if s == [] || s[0] == c then 0 else 1 + Find(s[1..], c)
  }

  lemma {:induction false} FindFinds(s: string, c: char)
    ensures forall k :: 0 <= k < Find(s, c) ==> s[k] != c
  {
    if s != [] && s[0] != c {
      FindFinds(s[1..], c);
    }
  }

  /** The first position is the only one with nothing equal to `c` before it. */
  lemma FindAt(s: string, c: char, i: nat)
    requires i <= |s|
    requires i < |s| ==> s[i] == c
    requires c !in s[..i]
    ensures Find(s, c) == i
  {
    FindFinds(s, c);
  }

  /** Whether `s` starts with `prefix`. */
  predicate StartsWith(s: string, prefix: string) {
    prefix <= s
  }

  /** The first position at which `pat` occurs in `s`, or `|s| + 1` when it does not. */
  function FindStr(s: string, pat: string): (i: nat)
    ensures i <= |s| ==> i + |pat| <= |s|
    ensures i <= |s| + 1
    decreases |s|
  {
    if pat <= s then 0
    else if s == [] then 1
    else 1 + FindStr(s[1..], pat)
  }

  lemma {:induction false} FindStrAt(s: string, pat: string, i: nat)
    requires i <= |s|
    requires pat <= s[i..]
    requires forall k :: 0 <= k < i ==> !(pat <= s[k..])
    ensures FindStr(s, pat) == i
  {
    assert s[0..] == s;
    if i > 0 {
      assert !(pat <= s[0..]);
      forall k | 0 <= k < i - 1
        ensures !(pat <= s[1..][k..])
      {
        assert s[1..][k..] == s[k + 1..];
      }
      assert s[1..][i - 1..] == s[i..];
      FindStrAt(s[1..], pat, i - 1);
    }
  }

  // ----- trimming ------------------------------------------------------------

  function TrimStart(s: string): (r: string)
    ensures |r| <= |s|
  {
    if s == [] || !IsSpace(s[0]) then s else TrimStart(s[1..])
  }

  function TrimEnd(s: string): (r: string)
    ensures |r| <= |s|
  {
    if s == [] || !IsSpace(s[|s| - 1]) then s else TrimEnd(s[..|s| - 1])
  }

  function Trim(s: string): string {
    TrimEnd(TrimStart(s))
  }

  /** Leading white space followed by a visible character is exactly what is removed. */
  lemma {:induction false} TrimStartPadded(pad: string, s: string)
    requires forall k :: 0 <= k < |pad| ==> IsSpace(pad[k])
    requires s == [] || !IsSpace(s[0])
    ensures TrimStart(pad + s) == s
  {
    if pad == [] {
      assert pad + s == s;
    } else {
      assert (pad + s)[1..] == pad[1..] + s;
      TrimStartPadded(pad[1..], s);
    }
  }

  lemma TrimVisible(s: string)
    requires s != [] && !IsSpace(s[0]) && !IsSpace(s[|s| - 1])
    ensures Trim(s) == s
  {
  }

  /** The first white-space position of `s`, or `|s|`. */
  function FindSpace(s: string): (i: nat)
    ensures i <= |s|
  {
    if s == [] || IsSpace(s[0]) then 0 else 1 + FindSpace(s[1..])
  }

  lemma {:induction false} FindSpaceAt(s: string, i: nat)
    requires i <= |s|
    requires i < |s| ==> IsSpace(s[i])
    requires forall k :: 0 <= k < i ==> !IsSpace(s[k])
    ensures FindSpace(s) == i
  {
    if i > 0 {
      FindSpaceAt(s[1..], i - 1);
    }
  }

  // ----- decimal numbers -----------------------------------------------------

  predicate IsDigit(c: char) {
    '0' <= c <= '9'
  }

  predicate AllDigits(s: string) {
    forall k :: 0 <= k < |s| ==> IsDigit(s[k])
  }

  function DigitChar(d: nat): (c: char)
    requires d < 10
    ensures IsDigit(c) && c as int - '0' as int == d
  {
    ('0' as int + d) as char
  }

  /** The decimal text of `n`, as `Display` writes it. */
  function Dec(n: nat): (s: string)
    ensures s != [] && AllDigits(s)
  {
    if n < 10 then [DigitChar(n)] else Dec(n / 10) + [DigitChar(n % 10)]
  }

  function DigitsValue(s: string): nat
    requires AllDigits(s)
  {
    if s == [] then 0
    else DigitsValue(s[..|s| - 1]) * 10 + (s[|s| - 1] as int - '0' as int)
  }

  lemma {:induction false} DecValue(n: nat)
    ensures DigitsValue(Dec(n)) == n
  {
    if n >= 10 {
      var s := Dec(n);
      assert s[..|s| - 1] == Dec(n / 10);
      DecValue(n / 10);
    }
  }

  function ParseDigits(s: string): Option<nat> {
    if s != [] && AllDigits(s) then Some(DigitsValue(s)) else None
  }

  /** `str::parse::<u64>`: an optional `+`, then digits whose value fits. */
  function ParseU64(s: string): Option<nat> {
    var body := if s != [] && s[0] == '+' then s[1..] else s;
    match ParseDigits(body)
    case Some(v) => if v < U64_LIMIT then Some(v) else None
    case None => None
  }

  /** `str::parse::<i64>`: an optional sign, then digits whose value fits. */
  function ParseI64(s: string): Option<int> {
    if s != [] && s[0] == '-' then
      match ParseDigits(s[1..])
      case Some(v) => if v <= I64_LIMIT then Some(-(v as int)) else None
      case None => None
    else
      var body := if s != [] && s[0] == '+' then s[1..] else s;
      match ParseDigits(body)
      case Some(v) => if v < I64_LIMIT then Some(v) else None
      case None => None
  }

  function DecInt(i: int): string {
    if i < 0 then "-" + Dec(-i) else Dec(i)
  }

  /** Printing a `u64` and reading it back is the identity. */
  lemma DecRoundTrip(n: nat)
    requires n < U64_LIMIT
    ensures ParseU64(Dec(n)) == Some(n)
  {
    DecValue(n);
    assert IsDigit(Dec(n)[0]);
  }

  /** Printing an `i64` and reading it back is the identity. */
  lemma DecIntRoundTrip(i: int)
    requires -I64_LIMIT <= i < I64_LIMIT
    ensures ParseI64(DecInt(i)) == Some(i)
  {
    if i < 0 {
      DecValue(-i);
      assert DecInt(i)[1..] == Dec(-i);
    } else {
      DecValue(i);
      assert IsDigit(Dec(i)[0]);
    }
  }

  /** A number beyond 64 bits is refused. */
  lemma DecTooLarge(n: nat)
    requires n >= U64_LIMIT
    ensures ParseU64(Dec(n)) == None
  {
    DecValue(n);
    assert IsDigit(Dec(n)[0]);
  }

  lemma DecIntTooLarge(i: int)
    requires i < -I64_LIMIT || i >= I64_LIMIT
    ensures ParseI64(DecInt(i)) == None
  {
    hide Dec, DigitsValue;
    if i < 0 {
      DecValue(-i);
      assert DecInt(i)[0] == '-' && DecInt(i)[1..] == Dec(-i);
    } else {
      DecValue(i);
      assert IsDigit(Dec(i)[0]);
    }
  }
}
