/** The text of Engine.IO and Socket.IO packets: decimal ids, digit prefixes, JSON string escapes. */
module WireText {
  import opened Wrappers

  /** Int.max on the 64-bit targets: Int(_:) answers nil above it. */
  const INT_MAX: nat := 0x7FFF_FFFF_FFFF_FFFF

  /** JSON values as far as the pipe looks into them. */
  datatype Json = JString(text: string) | JArray(items: seq<Json>) | JOther(text: string)

  /** The parts of the Swift library the pipe relies on. */
  datatype Library = Library(
    isNumber: char -> bool,
    parse: string -> Option<Json>,
    encode: seq<Json> -> Option<string>)

  ghost predicate Sane(lib: Library) {
    && (forall c: char :: '0' <= c <= '9' ==> lib.isNumber(c))
    && !lib.isNumber('[')
    && (forall a: seq<Json> :: lib.encode(a).Some? ==> lib.encode(a).value != [] && lib.encode(a).value[0] == '[')
  }

  // ---------------------------------------------------------------- decimal numbers

  function Digit(d: nat): char
    requires d < 10
  {
    '0' + d as char
  }

  predicate IsDigit(c: char) {
    '0' <= c <= '9'
  }

  /** String interpolation of a non-negative Int. */
  function Decimal(n: nat): string {
    if n < 10 then [Digit(n)] else Decimal(n / 10) + [Digit(n % 10)]
  }

  predicate AllDigits(s: string) {
    forall i :: 0 <= i < |s| ==> IsDigit(s[i])
  }

  function Value(s: string): nat
    requires AllDigits(s)
  {
    if s == [] then 0 else Value(s[..|s| - 1]) * 10 + (s[|s| - 1] as int - '0' as int)
  }

  /** Int(_:) on text made of numeric characters only: other numerals than 0-9, overflow and "" give nil. */
  function IntOf(s: string): Option<nat> {
    if s != [] && AllDigits(s) && Value(s) <= INT_MAX then Some(Value(s)) else None
  }

  lemma {:induction false} DecimalReadsBack(n: nat)
    ensures Decimal(n) != [] && AllDigits(Decimal(n)) && Value(Decimal(n)) == n
  {
    if n >= 10 {
      DecimalReadsBack(n / 10);
      var s := Decimal(n);
      assert s[..|s| - 1] == Decimal(n / 10);
    } else {
      assert Decimal(n)[..0] == [];
    }
  }

  /** A printed number reads back up to the largest Int, and not beyond. */
  lemma PrintedReadsBack(n: nat)
    ensures IntOf(Decimal(n)) == if n <= 9_223_372_036_854_775_807 then Some(n) else None
  {
    DecimalReadsBack(n);
  }

  /** Text with any other character, even a numeral of another script, is no number; nor is none at all. */
  lemma NoOtherNumeral(s: string, i: nat)
    ensures i < |s| && !('0' <= s[i] <= '9') ==> IntOf(s).None?
    ensures s == "" ==> IntOf(s).None?
  {
  }

  // ---------------------------------------------------------------- splitLeadingDigits

  function LeadingDigits(lib: Library, s: string): (n: nat)
    ensures n <= |s|
    ensures forall i :: 0 <= i < n ==> lib.isNumber(s[i])
    ensures n < |s| ==> !lib.isNumber(s[n])
  {
    if s == [] || !lib.isNumber(s[0]) then 0 else 1 + LeadingDigits(lib, s[1..])
  }

  /** There is only one way to cut a text before its first non-numeric character. */
  lemma SplitIsUnique(lib: Library, digits: string, rest: string)
    requires forall i :: 0 <= i < |digits| ==> lib.isNumber(digits[i])
    requires rest != [] ==> !lib.isNumber(rest[0])
    ensures LeadingDigits(lib, digits + rest) == |digits|
  {
    var s := digits + rest;
    assert forall i :: 0 <= i < |digits| ==> lib.isNumber(s[i]);
    assert rest != [] ==> !lib.isNumber(s[|digits|]);
  }

  method SplitLeadingDigits(lib: Library, s: string) returns (digits: string, rest: string)
    ensures digits == s[..LeadingDigits(lib, s)] && rest == s[LeadingDigits(lib, s)..]
  {
    var idx := 0;
    while idx < |s| && lib.isNumber(s[idx])
      invariant idx <= |s|
      invariant forall i :: 0 <= i < idx ==> lib.isNumber(s[i])
    {
      idx := idx + 1;
    }
    SplitIsUnique(lib, s[..idx], s[idx..]);
    assert s[..idx] + s[idx..] == s;
    return s[..idx], s[idx..];
  }

  /** A printed id followed by text that does not start with a numeral is cut apart and read back. */
  lemma IdSplitsBack(lib: Library, id: nat, rest: string)
    requires Sane(lib) && id <= INT_MAX && (rest != [] ==> !lib.isNumber(rest[0]))
    ensures var s := Decimal(id) + rest;
            var n := LeadingDigits(lib, s);
            IntOf(s[..n]) == Some(id) && s[n..] == rest
  {
    DecimalReadsBack(id);
    SplitIsUnique(lib, Decimal(id), rest);
    assert (Decimal(id) + rest)[..|Decimal(id)|] == Decimal(id);
  }

  // ---------------------------------------------------------------- jsonEscape

  /** replacingOccurrences(of:with:) for a one-character pattern. */
  function ReplaceAll(s: string, c: char, replacement: string): string {
    if s == [] then [] else (if s[0] == c then replacement else [s[0]]) + ReplaceAll(s[1..], c, replacement)
  }

  const BACKSLASH: char := '\\'
  const QUOTE: char := '\"'

  /** Two passes: backslashes first, then quotes. */
  function JsonEscape(s: string): string {
    ReplaceAll(ReplaceAll(s, BACKSLASH, [BACKSLASH, BACKSLASH]), QUOTE, [BACKSLASH, QUOTE])
  }

  function EscapeChar(c: char): string {
    if c == BACKSLASH || c == QUOTE then [BACKSLASH, c] else [c]
  }

  lemma {:induction false} ReplaceAllConcat(s: string, t: string, c: char, replacement: string)
    ensures ReplaceAll(s + t, c, replacement) == ReplaceAll(s, c, replacement) + ReplaceAll(t, c, replacement)
  {
    if s == [] {
      assert s + t == t;
    } else {
      assert (s + t)[0] == s[0] && (s + t)[1..] == s[1..] + t;
      ReplaceAllConcat(s[1..], t, c, replacement);
    }
  }

  /** The two passes do not disturb each other: each character is escaped on its own. */
  lemma JsonEscapeHead(s: string)
    requires s != []
    ensures JsonEscape(s) == EscapeChar(s[0]) + JsonEscape(s[1..])
  {
    var first := if s[0] == BACKSLASH then [BACKSLASH, BACKSLASH] else [s[0]];
    ReplaceAllConcat(first, ReplaceAll(s[1..], BACKSLASH, [BACKSLASH, BACKSLASH]), QUOTE, [BACKSLASH, QUOTE]);
    assert ReplaceAll(first, QUOTE, [BACKSLASH, QUOTE]) == EscapeChar(s[0]) by {
      assert first[1..] == [] || (first[1..] == [BACKSLASH] && first[1..][1..] == []);
    }
  }

  /** Section 7 of RFC 8259: characters below U+0020 must not stand unescaped. */
  predicate IsControl(c: char) {
    c < ' '
  }

  /**
   The text a JSON string body stands for, by section 7 of RFC 8259; None when
   it is no string body. The hexadecimal form, which the escaper never writes,
   is not decoded.
   */
  function StringBody(t: string): Option<string> {
    if t == [] then Some([])
    else if t[0] == BACKSLASH then
      if |t| < 2 || Unescaped(t[1]).None? then None
      else Prepend(Unescaped(t[1]).value, StringBody(t[2..]))
    else if t[0] == QUOTE || IsControl(t[0]) then None
    else Prepend(t[0], StringBody(t[1..]))
  }

  function Unescaped(c: char): Option<char> {
    if c == BACKSLASH || c == QUOTE || c == '/' then Some(c)
    else if c == 'b' then Some(8 as char)
    else if c == 'f' then Some(12 as char)
    else if c == 'n' then Some('\n')
    else if c == 'r' then Some('\r')
    else if c == 't' then Some('\t')
    else None
  }

  function Prepend(c: char, rest: Option<string>): Option<string> {
    if rest.None? then None else Some([c] + rest.value)
  }

  predicate NoControls(s: string) {
    forall i :: 0 <= i < |s| ==> !IsControl(s[i])
  }

  /**
   jsonEscape escapes quotes and backslashes but not control characters, so the
   result is a JSON string body standing for `s` exactly when `s` has none.
   */
  lemma {:induction false} EscapeIsJsonUnlessControl(s: string)
    ensures StringBody(JsonEscape(s)) == if NoControls(s) then Some(s) else None
  {
    if s != [] {
      JsonEscapeHead(s);
      EscapeIsJsonUnlessControl(s[1..]);
      var e, rest := EscapeChar(s[0]), JsonEscape(s[1..]);
      assert (e + rest)[|e|..] == rest;
      assert NoControls(s) <==> !IsControl(s[0]) && NoControls(s[1..]) by {
        assert s == [s[0]] + s[1..];
      }
      assert StringBody(e + rest) == if IsControl(s[0]) then None else Prepend(s[0], StringBody(rest));
      assert s == [s[0]] + s[1..];
    }
  }

  /** A line feed in an error description breaks the event text. */
  lemma LineFeedIsNotEscaped()
    ensures StringBody(JsonEscape(['a', '\n'])) == None
  {
    EscapeIsJsonUnlessControl(['a', '\n']);
    assert IsControl(['a', '\n'][1]);
  }
}
