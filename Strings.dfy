/**
 * String helpers shared by the frontend and the backend: whitespace
 * stripping (Python `str.strip()`, JavaScript `String.prototype.trim()`),
 * lengths in UTF-16 code units (JavaScript `.length`), ASCII lower-casing
 * (JavaScript `toLowerCase()`) and decimal numerals (Python `f"{i}"`).
 */
module Strings {

  /** Whose notion of whitespace a strip uses. */
  datatype Runtime = Python | JavaScript

  /**
   * The characters `str.strip()` (Python's `str.isspace`) and `trim()`
   * (ECMAScript WhiteSpace and LineTerminator) remove. They share the ASCII
   * controls tab to carriage return, the space, and the Unicode space
   * separators and line and paragraph separators; only Python also removes
   * the ASCII separators U+001C..U+001F and NEL (U+0085), only JavaScript
   * the byte-order mark U+FEFF.
   */
  predicate IsSpace(rt: Runtime, c: char) {
    || '\t' <= c <= '\r'
    || c == ' ' || c == '\U{A0}' || c == '\U{1680}'
    || '\U{2000}' <= c <= '\U{200A}'
    || c == '\U{2028}' || c == '\U{2029}' || c == '\U{202F}' || c == '\U{205F}' || c == '\U{3000}'
    || (rt == Python && ('\U{1C}' <= c <= '\U{1F}' || c == '\U{85}'))
    || (rt == JavaScript && c == '\U{FEFF}')
  }

  ghost predicate AllSpace(rt: Runtime, s: string) {
    forall i :: 0 <= i < |s| ==> IsSpace(rt, s[i])
  }

  /** Neither end of `s` is whitespace. */
  predicate IsStripped(rt: Runtime, s: string) {
    s == [] || (!IsSpace(rt, s[0]) && !IsSpace(rt, s[|s| - 1]))
  }

  /** `s` without its trailing whitespace (`str.rstrip()`). */
  function StripEnd(rt: Runtime, s: string): (r: string)
    ensures r <= s
    ensures r == [] <==> AllSpace(rt, s)
    ensures r != [] ==> !IsSpace(rt, r[|r| - 1])
    ensures AllSpace(rt, s[|r|..])
  {
    if s != [] && IsSpace(rt, s[|s| - 1]) then
      var init := s[..|s| - 1];
      var r := StripEnd(rt, init);
      assert s == init + [s[|s| - 1]];
      assert s[|r|..] == init[|r|..] + [s[|s| - 1]];
      assert AllSpace(rt, init) ==> AllSpace(rt, s);
      r
    else s
  }

  /**
   * `s` with leading and trailing whitespace removed (`str.strip()`,
   * `trim()`): the result is stripped, and it is empty exactly when `s` is
   * all whitespace.
   */
  function Strip(rt: Runtime, s: string): (r: string)
    ensures IsStripped(rt, r)
    ensures r == [] <==> AllSpace(rt, s)
  {
    if s != [] && IsSpace(rt, s[0]) then
      assert AllSpace(rt, s[1..]) ==> AllSpace(rt, s) by {
        if AllSpace(rt, s[1..]) {
          forall i | 0 <= i < |s| ensures IsSpace(rt, s[i]) {
            if i > 0 { assert s[i] == s[1..][i - 1]; }
          }
        }
      }
      Strip(rt, s[1..])
    else
      var r := StripEnd(rt, s);
      assert r != [] ==> r[0] == s[0];
      r
  }

  /** `Strip` only removes whitespace: it returns a slice of `s` with only whitespace around it. */
  lemma {:induction false} StripSlice(rt: Runtime, s: string) returns (a: nat)
    ensures a + |Strip(rt, s)| <= |s|
    ensures Strip(rt, s) == s[a..a + |Strip(rt, s)|]
    ensures AllSpace(rt, s[..a]) && AllSpace(rt, s[a + |Strip(rt, s)|..])
  {
    if s != [] && IsSpace(rt, s[0]) {
      var a' := StripSlice(rt, s[1..]);
      SliceAfterSpace(rt, s, a', Strip(rt, s[1..]));
      a := a' + 1;
    } else {
      a := 0;
      StripEndSlice(rt, s);
    }
  }

  /** Stripping never lengthens a text. */
  lemma StripLength(rt: Runtime, s: string)
    ensures |Strip(rt, s)| <= |s|
  {
    var _ := StripSlice(rt, s);
  }

  /** Without leading whitespace, `Strip` is a prefix of `s` followed only by whitespace. */
  lemma StripEndSlice(rt: Runtime, s: string)
    requires s == [] || !IsSpace(rt, s[0])
    ensures Strip(rt, s) == s[..|Strip(rt, s)|]
    ensures AllSpace(rt, s[|Strip(rt, s)|..])
  {
  }

  /** A slice of `s[1..]` with whitespace around it is one of `s` when `s` starts with whitespace. */
  lemma SliceAfterSpace(rt: Runtime, s: string, a: nat, r: string)
    requires s != [] && IsSpace(rt, s[0])
    requires a + |r| <= |s[1..]| && r == s[1..][a..a + |r|]
    requires AllSpace(rt, s[1..][..a]) && AllSpace(rt, s[1..][a + |r|..])
    ensures r == s[a + 1..a + 1 + |r|]
    ensures AllSpace(rt, s[..a + 1]) && AllSpace(rt, s[a + 1 + |r|..])
  {
    assert s[1..][a + |r|..] == s[a + 1 + |r|..];
    var head := s[..a + 1];
    forall i | 0 <= i < |head| ensures IsSpace(rt, head[i]) {
      if i > 0 { assert head[i] == s[1..][..a][i - 1]; }
    }
  }

  /** With no whitespace at the end of `r`, `StripEnd` removes exactly the trailing whitespace `q`. */
  lemma {:induction false} StripEndPadded(rt: Runtime, r: string, q: string)
    requires AllSpace(rt, q)
    requires r == [] || !IsSpace(rt, r[|r| - 1])
    ensures StripEnd(rt, r + q) == r
    decreases |q|
  {
    if q == [] {
      assert r + q == r;
    } else {
      var q' := q[..|q| - 1];
      assert (r + q)[..|r + q| - 1] == r + q';
      StripEndPadded(rt, r, q');
    }
  }

  /** Whitespace around a stripped string is exactly what `Strip` removes. */
  lemma {:induction false} StripPadded(rt: Runtime, p: string, r: string, q: string)
    requires AllSpace(rt, p) && AllSpace(rt, q) && IsStripped(rt, r)
    ensures Strip(rt, p + r + q) == r
    decreases |p|
  {
    var s := p + r + q;
    if p != [] {
      assert s[0] == p[0];
      assert s[1..] == p[1..] + r + q;
      StripPadded(rt, p[1..], r, q);
    } else if r == [] {
      assert s == q;
    } else {
      assert s == r + q;
      assert s[0] == r[0];
      StripEndPadded(rt, r, q);
    }
  }

  /** Stripping a string that is already stripped changes nothing. */
  lemma StripStripped(rt: Runtime, r: string)
    requires IsStripped(rt, r)
    ensures Strip(rt, r) == r
  {
    StripPadded(rt, [], r, []);
    assert [] + r + [] == r;
  }

  /** The runtimes differ: Python strips an information separator that JavaScript keeps, and the reverse for the byte-order mark. */
  lemma StripRuntimesDiffer()
    ensures Strip(Python, "\U{1C}") == [] && Strip(JavaScript, "\U{1C}") == "\U{1C}"
    ensures Strip(JavaScript, "\U{FEFF}") == [] && Strip(Python, "\U{FEFF}") == "\U{FEFF}"
  {
    StripStripped(JavaScript, "\U{1C}");
    StripStripped(Python, "\U{FEFF}");
  }

  /** The UTF-16 code units one character takes: two above U+FFFF (a surrogate pair), else one. */
  function Utf16Units(c: char): nat {
    if c as int > 0xFFFF then 2 else 1
  }

  /** JavaScript's `s.length`: the number of UTF-16 code units of `s`. */
  function Utf16Length(s: string): (n: nat)
    ensures |s| <= n <= 2 * |s|
    ensures (forall i :: 0 <= i < |s| ==> s[i] as int <= 0xFFFF) ==> n == |s|
  {
    if s == [] then 0 else Utf16Units(s[0]) + Utf16Length(s[1..])
  }

  /** Code units add up over a concatenation. */
  lemma {:induction false} Utf16LengthAppend(a: string, b: string)
    ensures Utf16Length(a + b) == Utf16Length(a) + Utf16Length(b)
    decreases |a|
  {
    if a == [] {
      assert a + b == b;
    } else {
      assert (a + b)[1..] == a[1..] + b;
      Utf16LengthAppend(a[1..], b);
    }
  }

  /** A slice never has more code units than the text it is cut from. */
  lemma Utf16LengthSlice(s: string, a: nat, b: nat)
    requires a <= b <= |s|
    ensures Utf16Length(s[a..b]) <= Utf16Length(s)
  {
    assert s == s[..a] + s[a..b] + s[b..];
    Utf16LengthAppend(s[..a] + s[a..b], s[b..]);
    Utf16LengthAppend(s[..a], s[a..b]);
  }

  /** Stripping never lengthens a text, in code units. */
  lemma StripUtf16Length(rt: Runtime, s: string)
    ensures Utf16Length(Strip(rt, s)) <= Utf16Length(s)
  {
    var a := StripSlice(rt, s);
    Utf16LengthSlice(s, a, a + |Strip(rt, s)|);
  }

  /** ASCII lower-casing of one character. */
  function LowerChar(c: char): char {
    if 'A' <= c <= 'Z' then (c as int + 32) as char else c
  }

  /** `s.toLowerCase()` on the ASCII letters. */
  function ToLower(s: string): (r: string)
    ensures |r| == |s|
    ensures forall i :: 0 <= i < |s| ==> r[i] == LowerChar(s[i])
  {
    if s == [] then [] else [LowerChar(s[0])] + ToLower(s[1..])
  }

  predicate IsDigit(c: char) {
    '0' <= c <= '9'
  }

  function DigitChar(d: nat): (c: char)
    requires d < 10
    ensures IsDigit(c)
  {
    ('0' as int + d) as char
  }

  /** The decimal numeral of `n`, as Python's `f"{n}"` writes it. */
  function NatToString(n: nat): (s: string)
    ensures s != []
    ensures forall i :: 0 <= i < |s| ==> IsDigit(s[i])
  {
    if n < 10 then [DigitChar(n)] else NatToString(n / 10) + [DigitChar(n % 10)]
  }

  /** The value of a string of decimal digits. */
  function DigitsValue(s: string): nat
    requires forall i :: 0 <= i < |s| ==> IsDigit(s[i])
  {
    if s == [] then 0 else 10 * DigitsValue(s[..|s| - 1]) + DigitValue(s[|s| - 1])
  }

  function DigitValue(c: char): nat
    requires IsDigit(c)
  {
    c as int - '0' as int
  }

  /** Reading the numeral of `n` back gives `n`. */
  lemma {:induction false} NatToStringRoundTrip(n: nat)
    ensures DigitsValue(NatToString(n)) == n
  {
    if n >= 10 {
      var s := NatToString(n);
      assert s[..|s| - 1] == NatToString(n / 10);
      NatToStringRoundTrip(n / 10);
    }
  }
}
