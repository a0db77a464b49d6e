/** JavaScript strings as the browser and the Deno runtime see them: sequences
    of UTF-16 code units. Only the few string operations the article page and
    the generation handler use are modelled here: ASCII case mapping, the
    `String.prototype.trim` white-space set, substring search and
    concatenation of several parts. */
module JsString {

  /** One UTF-16 code unit. */
  newtype CodeUnit = x: int | 0 <= x < 0x1_0000

  /** A JavaScript string value. */
  type Str = seq<CodeUnit>

  /** UTF-16 encoding of one Unicode scalar value: one code unit inside the
      Basic Multilingual Plane, a surrogate pair outside it. */
  function EncodeChar(c: char): (r: Str)
    ensures (c as int) < 0x1_0000 ==> r == [c as int as CodeUnit]
    ensures (c as int) >= 0x1_0000 ==>
              |r| == 2 && 0xD800 <= r[0] < 0xDC00 && 0xDC00 <= r[1] < 0xE000
              && 0x1_0000 + (r[0] as int - 0xD800) * 0x400 + (r[1] as int - 0xDC00) == c as int
  {
    var v := c as int;
    if v < 0x1_0000 then [v as CodeUnit]
    else [(0xD800 + (v - 0x1_0000) / 0x400) as CodeUnit, (0xDC00 + (v - 0x1_0000) % 0x400) as CodeUnit]
  }

  /** The JavaScript string any source literal denotes: the UTF-16 encodings
      of its characters, joined. */
  function Utf16(s: string): (r: Str)
  {
    Concat(seq(|s|, i requires 0 <= i < |s| => EncodeChar(s[i])))
  }

  /** No character of `s` lies beyond the Basic Multilingual Plane. */
  predicate IsBmp(s: string)
  {
    forall i :: 0 <= i < |s| ==> (s[i] as int) < 0x1_0000
  }

  /** One code unit per character: the JavaScript string a literal denotes
      when all its characters lie in the Basic Multilingual Plane, as every
      literal written with it does (`UnitsAreUtf16`). A character beyond the
      plane would become U+FFFD; the one passage that has such a character
      is encoded with `Utf16`. */
  function Units(s: string): (r: Str)
  {
    seq(|s|, i requires 0 <= i < |s| => if (s[i] as int) < 0x1_0000 then s[i] as int as CodeUnit else 0xFFFD)
  }

  /** Joining parts of one code unit each gives those code units. */
  lemma {:induction false} ConcatOfSingletons(parts: seq<Str>)
    requires forall i :: 0 <= i < |parts| ==> |parts[i]| == 1
    ensures |Concat(parts)| == |parts|
    ensures forall i :: 0 <= i < |parts| ==> Concat(parts)[i] == parts[i][0]
  {
    if parts != [] {
      ConcatOfSingletons(parts[1..]);
    }
  }

  /** Inside the Basic Multilingual Plane the two encodings agree. */
  lemma UnitsAreUtf16(s: string)
    requires IsBmp(s)
    ensures Units(s) == Utf16(s)
  {
    ConcatOfSingletons(seq(|s|, i requires 0 <= i < |s| => EncodeChar(s[i])));
  }

  /** Encoding a literal piece by piece gives the encoding of the whole. */
  lemma Utf16Append(a: string, b: string)
    ensures Utf16(a + b) == Utf16(a) + Utf16(b)
  {
    var ea := seq(|a|, i requires 0 <= i < |a| => EncodeChar(a[i]));
    var eb := seq(|b|, i requires 0 <= i < |b| => EncodeChar(b[i]));
    assert seq(|a + b|, i requires 0 <= i < |a + b| => EncodeChar((a + b)[i])) == ea + eb;
    ConcatAppend(ea, eb);
  }

  // ---------------------------------------------------------------------------
  // ASCII classes and case mapping

  predicate IsAsciiUpper(c: CodeUnit) { 0x41 <= c <= 0x5A }   // 'A' .. 'Z'
  predicate IsAsciiLower(c: CodeUnit) { 0x61 <= c <= 0x7A }   // 'a' .. 'z'
  predicate IsAsciiDigit(c: CodeUnit) { 0x30 <= c <= 0x39 }   // '0' .. '9'

  /** The code units the class `[a-z0-9]` accepts under the `i` flag. */
  predicate IsAsciiAlnum(c: CodeUnit) { IsAsciiUpper(c) || IsAsciiLower(c) || IsAsciiDigit(c) }

  /** `toLowerCase` on one ASCII code unit; every other code unit is kept. */
  function ToLowerAscii(c: CodeUnit): (r: CodeUnit)
    ensures !IsAsciiUpper(r)
    ensures IsAsciiUpper(c) ==> IsAsciiLower(r) && r as int == c as int + 0x20
    ensures !IsAsciiUpper(c) ==> r == c
  {
    if IsAsciiUpper(c) then c + 0x20 else c
  }

  /** `toLowerCase` restricted to ASCII: upper-case ASCII letters become
      lower-case, every other code unit is kept. */
  function LowerAscii(s: Str): (r: Str)
  {
    seq(|s|, i requires 0 <= i < |s| => ToLowerAscii(s[i]))
  }

  // ---------------------------------------------------------------------------
  // String.prototype.trim

  /** WhiteSpace and LineTerminator code points of ECMAScript: TAB, LF, VT, FF,
      CR, SPACE, NO-BREAK SPACE, OGHAM SPACE MARK, U+2000..U+200A, LINE and
      PARAGRAPH SEPARATOR, NARROW NO-BREAK SPACE, MEDIUM MATHEMATICAL SPACE,
      IDEOGRAPHIC SPACE and the byte order mark. */
  predicate IsWhiteSpace(c: CodeUnit)
  {
    (0x09 <= c <= 0x0D) || c == 0x20 || c == 0xA0 || c == 0x1680 ||
    (0x2000 <= c <= 0x200A) || c == 0x2028 || c == 0x2029 || c == 0x202F ||
    c == 0x205F || c == 0x3000 || c == 0xFEFF
  }

  /** Every code unit of `s` is white space (also true of the empty string). */
  predicate IsBlank(s: Str)
  {
    forall i :: 0 <= i < |s| ==> IsWhiteSpace(s[i])
  }

  /** Drops leading white space: the result is a suffix of `s` that does not
      start with white space. */
  function TrimStart(s: Str): (r: Str)
    ensures |r| <= |s|
    ensures r != [] ==> !IsWhiteSpace(r[0])
    decreases |s|
  {
    if s != [] && IsWhiteSpace(s[0]) then TrimStart(s[1..]) else s
  }

  /** `TrimStart` keeps a suffix of `s`, and what it drops is all white
      space. */
  lemma {:induction false} TrimStartDropsBlank(s: Str)
    ensures TrimStart(s) == s[|s| - |TrimStart(s)|..]
    ensures IsBlank(s[..|s| - |TrimStart(s)|])
    decreases |s|
  {
    if s != [] && IsWhiteSpace(s[0]) {
      var rest := TrimStart(s[1..]);
      TrimStartDropsBlank(s[1..]);
      assert s[1..][..|s[1..]| - |rest|] == s[1..|s| - |rest|];
    }
  }

  /** Drops trailing white space: the result is a prefix of `s` that does not
      end with white space. */
  function TrimEnd(s: Str): (r: Str)
    ensures |r| <= |s|
    ensures r != [] ==> !IsWhiteSpace(r[|r| - 1])
    decreases |s|
  {
    if s != [] && IsWhiteSpace(s[|s| - 1]) then TrimEnd(s[..|s| - 1]) else s
  }

  /** `TrimEnd` keeps a prefix of `s`, and what it drops is all white
      space. */
  lemma {:induction false} TrimEndDropsBlank(s: Str)
    ensures TrimEnd(s) == s[..|TrimEnd(s)|]
    ensures IsBlank(s[|TrimEnd(s)|..])
    decreases |s|
  {
    if s != [] && IsWhiteSpace(s[|s| - 1]) {
      var rest := TrimEnd(s[..|s| - 1]);
      TrimEndDropsBlank(s[..|s| - 1]);
      assert s[|rest|..] == s[..|s| - 1][|rest|..] + [s[|s| - 1]];
    }
  }

  /** `s.trim()`: white space dropped from both ends; a non-empty result
      neither starts nor ends with white space. */
  function Trim(s: Str): (r: Str)
    ensures r != [] ==> !IsWhiteSpace(r[0]) && !IsWhiteSpace(r[|r| - 1])
  {
    TrimEndDropsBlank(TrimStart(s));
    TrimEnd(TrimStart(s))
  }

  /** `s.trim()` is empty exactly when `s` is nothing but white space. */
  lemma TrimEmptyIffBlank(s: Str)
    ensures Trim(s) == [] <==> IsBlank(s)
  {
    var front := TrimStart(s);
    TrimStartDropsBlank(s);
    TrimEndDropsBlank(front);
    assert front == [] ==> s[..|s|] == s;
    if Trim(s) == [] {
      assert s == s[..|s| - |front|] + front;
    }
  }

  /** What `s.trim()` keeps is one contiguous piece of `s`, and only white
      space is dropped on either side of it. */
  lemma TrimIsInfix(s: Str) returns (i: nat)
    ensures i + |Trim(s)| <= |s| && IsAt(s, Trim(s), i)
    ensures IsBlank(s[..i]) && IsBlank(s[i + |Trim(s)|..])
  {
    var front := TrimStart(s);
    var r := TrimEnd(front);
    assert r == Trim(s);
    TrimStartDropsBlank(s);
    TrimEndDropsBlank(front);
    i := |s| - |front|;
    assert front == s[i..];
    assert IsAt(s, r, i) by {
      assert s[i..i + |r|] == front[..|r|];
    }
    assert IsBlank(s[i + |r|..]) by {
      assert s[i + |r|..] == front[|r|..];
    }
  }

  lemma {:induction false} TrimIdempotent(s: Str)
    ensures Trim(Trim(s)) == Trim(s)
  {
    var t := Trim(s);
    if t != [] {
      assert TrimStart(t) == t;
      assert TrimEnd(t) == t;
    }
  }

  // ---------------------------------------------------------------------------
  // Substring search

  /** `needle` occurs in `hay` starting at index `i`. */
  predicate IsAt(hay: Str, needle: Str, i: int)
  {
    0 <= i && i + |needle| <= |hay| && hay[i..i + |needle|] == needle
  }

  /** `needle` occurs somewhere in `hay`. */
  ghost predicate Contains(hay: Str, needle: Str)
  {
    exists i :: IsAt(hay, needle, i)
  }

  /** A left-to-right scan for `needle`, as an unanchored regular-expression
      alternative matches a literal word. */
  function HasInfix(hay: Str, needle: Str): (b: bool)
    decreases |hay|
  {
    if |hay| < |needle| then false
    else hay[..|needle|] == needle || HasInfix(hay[1..], needle)
  }

  /** The scan finds `needle` exactly when it occurs. */
  lemma {:induction false} HasInfixIffContains(hay: Str, needle: Str)
    ensures HasInfix(hay, needle) <==> Contains(hay, needle)
    decreases |hay|
  {
    if |hay| < |needle| {
      forall i ensures !IsAt(hay, needle, i) { }
    } else if hay[..|needle|] == needle {
      assert IsAt(hay, needle, 0);
    } else {
      HasInfixIffContains(hay[1..], needle);
      if HasInfix(hay[1..], needle) {
        var i :| IsAt(hay[1..], needle, i);
        assert hay[1..][i..i + |needle|] == needle;
        assert hay[i + 1..i + 1 + |needle|] == needle;
        assert IsAt(hay, needle, i + 1);
      }
      if Contains(hay, needle) {
        var i :| IsAt(hay, needle, i);
        assert i != 0;
        assert hay[1..][i - 1..i - 1 + |needle|] == hay[i..i + |needle|];
        assert IsAt(hay[1..], needle, i - 1);
      }
    }
  }

  /** The middle part of a concatenation occurs right after the first part. */
  lemma IsAtMiddle(a: Str, b: Str, c: Str)
    ensures IsAt(a + b + c, b, |a|)
  {
    assert (a + b + c)[|a|..|a| + |b|] == b;
  }

  // ---------------------------------------------------------------------------
  // Concatenation of several parts (template literals, `+=` loops)

  /** The parts joined left to right. */
  function Concat(parts: seq<Str>): (r: Str)
  {
    if parts == [] then [] else parts[0] + Concat(parts[1..])
  }

  /** Joining distributes over splitting the list of parts. */
  lemma {:induction false} ConcatAppend(a: seq<Str>, b: seq<Str>)
    ensures Concat(a + b) == Concat(a) + Concat(b)
  {
    if a == [] {
      assert a + b == b;
    } else {
      assert (a + b)[1..] == a[1..] + b;
      ConcatAppend(a[1..], b);
    }
  }

  /** The join of a run of consecutive parts occurs in the join of all parts,
      right after the join of the parts before the run. */
  lemma ConcatIsAt(parts: seq<Str>, k: nat, m: nat)
    requires k <= m <= |parts|
    ensures IsAt(Concat(parts), Concat(parts[k..m]), |Concat(parts[..k])|)
  {
    assert parts == parts[..k] + parts[k..m] + parts[m..];
    ConcatAppend(parts[..k] + parts[k..m], parts[m..]);
    ConcatAppend(parts[..k], parts[k..m]);
    IsAtMiddle(Concat(parts[..k]), Concat(parts[k..m]), Concat(parts[m..]));
  }
}
