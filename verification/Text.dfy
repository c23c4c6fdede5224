/** Bytes as the protocol and the archive headers read them: searching and trimming. */
module Text {
  import opened Ids

  const NEWLINE: Byte := 10
  const QUOTE: Byte := 34
  const BACKSLASH: Byte := 92

  /** The index of the first b in s, or |s|. */
  function IndexByte(s: Bytes, b: Byte): (i: nat)
    ensures i <= |s| && b !in s[..i] && (i < |s| ==> s[i] == b)
  {
    if s == [] || s[0] == b then 0
    else
      var i := 1 + IndexByte(s[1..], b);
      assert s[..i] == [s[0]] + s[1..][..i - 1];
      i
  }

  lemma {:induction false} FirstIndex(s: Bytes, b: Byte, i: nat)
    requires i < |s| && s[i] == b && b !in s[..i]
    ensures IndexByte(s, b) == i
  {
    if i > 0 {
      assert s[..i] == [s[0]] + s[1..][..i - 1];
      FirstIndex(s[1..], b, i - 1);
    }
  }

  /** Spaces in UTF-8: the ASCII ones, */
  predicate IsSpace(a: Byte) {
    9 <= a <= 13 || a == 32
  }

  /** U+0085 and U+00A0, */
  predicate IsSpace2(a: Byte, b: Byte) {
    a == 0xC2 && (b == 0x85 || b == 0xA0)
  }

  /** U+1680, U+2000 to U+200A, U+2028, U+2029, U+202F, U+205F and U+3000. */
  predicate IsSpace3(a: Byte, b: Byte, c: Byte) {
    || (a == 0xE1 && b == 0x9A && c == 0x80)
    || (a == 0xE2 && b == 0x80 && (0x80 <= c <= 0x8A || c == 0xA8 || c == 0xA9 || c == 0xAF))
    || (a == 0xE2 && b == 0x81 && c == 0x9F)
    || (a == 0xE3 && b == 0x80 && c == 0x80)
  }

  /** A code point as UTF-8 writes it. */
  function Utf8(r: int): Bytes
    requires 0 <= r < 0x11_0000
  {
    if r < 0x80 then [r as Byte]
    else if r < 0x800 then [(0xC0 + r / 0x40) as Byte, Continued(r)]
    else if r < 0x1_0000 then [(0xE0 + r / 0x1000) as Byte, Continued(r / 0x40), Continued(r)]
    else [(0xF0 + r / 0x4_0000) as Byte, Continued(r / 0x1000), Continued(r / 0x40), Continued(r)]
  }

  function Continued(r: int): Byte {
    (0x80 + r % 0x40) as Byte
  }

  /** Unicode's white space. */
  predicate IsWhite(r: int) {
    || 0x09 <= r <= 0x0D || r == 0x20 || r == 0x85 || r == 0xA0 || r == 0x1680 || 0x2000 <= r <= 0x200A
    || r == 0x2028 || r == 0x2029 || r == 0x202F || r == 0x205F || r == 0x3000
  }

  /** Trimming takes a code point at either end exactly when it is white space. */
  lemma LeadingIsWhite(r: int, rest: Bytes)
    requires 0 <= r < 0x11_0000
    ensures LeadingSpace(Utf8(r) + rest) == if IsWhite(r) then |Utf8(r)| else 0
  {
    FirstBytes(Utf8(r), rest);
  }

  lemma FirstBytes(s: Bytes, rest: Bytes)
    ensures forall i :: 0 <= i < |s| ==> (s + rest)[i] == s[i]
  {
  }

  lemma TrailingIsWhite(before: Bytes, r: int)
    requires 0 <= r < 0x11_0000
    ensures TrailingSpace(before + Utf8(r)) == if IsWhite(r) then |Utf8(r)| else 0
  {
    LastBytes(before, Utf8(r));
  }

  lemma LastBytes(before: Bytes, s: Bytes)
    ensures forall i :: 0 <= i < |s| ==> (before + s)[|before| + i] == s[i]
  {
  }

  /** The length of the space a text starts with, or zero. */
  function LeadingSpace(s: Bytes): (n: nat)
    ensures n <= |s|
  {
    if |s| >= 1 && IsSpace(s[0]) then 1
    else if |s| >= 2 && IsSpace2(s[0], s[1]) then 2
    else if |s| >= 3 && IsSpace3(s[0], s[1], s[2]) then 3
    else 0
  }

  function TrailingSpace(s: Bytes): (n: nat)
    ensures n <= |s|
  {
    var k := |s|;
    if k >= 1 && IsSpace(s[k - 1]) then 1
    else if k >= 2 && IsSpace2(s[k - 2], s[k - 1]) then 2
    else if k >= 3 && IsSpace3(s[k - 3], s[k - 2], s[k - 1]) then 3
    else 0
  }

  function TrimLeft(s: Bytes): (t: Bytes)
    ensures |t| <= |s| && LeadingSpace(t) == 0
    decreases |s|
  {
    if LeadingSpace(s) > 0 then TrimLeft(s[LeadingSpace(s)..]) else s
  }

  function TrimRight(s: Bytes): (t: Bytes)
    ensures t <= s && TrailingSpace(t) == 0
    decreases |s|
  {
    if TrailingSpace(s) > 0 then TrimRight(s[..|s| - TrailingSpace(s)]) else s
  }

  function TrimSpace(s: Bytes): (t: Bytes)
    ensures |t| <= |s|
  {
    TrimRight(TrimLeft(s))
  }

  lemma TrimRightSpace(s: Bytes, space: Byte)
    requires IsSpace(space)
    ensures TrimRight(s + [space]) == TrimRight(s)
  {
    var t := s + [space];
    assert t[|t| - 1] == space && t[..|t| - 1] == s;
  }

  /** A text that starts and ends with a visible ASCII character has nothing to trim. */
  lemma PlainEndsDoNotTrim(s: Bytes)
    requires s != [] && 33 <= s[0] < 127 && 33 <= s[|s| - 1] < 127
    ensures LeadingSpace(s) == 0 && TrailingSpace(s) == 0
  {
  }

  /** Code points, one after another. */
  function Written(runes: seq<int>): Bytes
    requires forall i :: 0 <= i < |runes| ==> 0 <= runes[i] < 0x11_0000
  {
    if runes == [] then [] else Utf8(runes[0]) + Written(runes[1..])
  }

  predicate AreWhite(runes: seq<int>) {
    forall i :: 0 <= i < |runes| ==> IsWhite(runes[i])
  }

  lemma {:induction false} TrimsBefore(runes: seq<int>, rest: Bytes)
    requires AreWhite(runes)
    ensures TrimLeft(Written(runes) + rest) == TrimLeft(rest)
  {
    if runes == [] {
      assert Written(runes) + rest == rest;
    } else {
      var more := Written(runes[1..]) + rest;
      LeadingIsWhite(runes[0], more);
      assert Written(runes) + rest == Utf8(runes[0]) + more;
      assert (Utf8(runes[0]) + more)[|Utf8(runes[0])|..] == more;
      TrimsBefore(runes[1..], rest);
    }
  }

  lemma {:induction false} WrittenLast(runes: seq<int>)
    requires runes != [] && AreWhite(runes)
    ensures Written(runes) == Written(runes[..|runes| - 1]) + Utf8(runes[|runes| - 1])
  {
    if |runes| == 1 {
      assert runes[1..] == [];
    } else {
      WrittenLast(runes[1..]);
      assert runes[1..][..|runes| - 2] == runes[..|runes| - 1][1..];
    }
  }

  lemma {:induction false} TrimsAfter(text: Bytes, runes: seq<int>)
    requires AreWhite(runes)
    ensures TrimRight(text + Written(runes)) == TrimRight(text)
  {
    if runes == [] {
      assert text + Written(runes) == text;
    } else {
      var last := runes[|runes| - 1];
      var before := text + Written(runes[..|runes| - 1]);
      WrittenLast(runes);
      TrailingIsWhite(before, last);
      assert text + Written(runes) == before + Utf8(last);
      assert (before + Utf8(last))[..|before|] == before;
      TrimsAfter(text, runes[..|runes| - 1]);
    }
  }

  predicate IsVisible(text: Bytes) {
    text != [] && 33 <= text[0] < 127 && 33 <= text[|text| - 1] < 127
  }

  lemma {:induction false} TrimsText(text: Bytes, after: seq<int>)
    requires AreWhite(after) && IsVisible(text)
    ensures TrimSpace(text + Written(after)) == text
  {
    PlainEndsDoNotTrim(text);
    FirstBytes(text, Written(after));
    assert LeadingSpace(text + Written(after)) == 0;
    TrimsAfter(text, after);
  }

  lemma {:induction false} TrimsBlank(after: seq<int>)
    requires AreWhite(after)
    ensures TrimSpace(Written(after)) == []
  {
    TrimsBefore(after, []);
    assert Written(after) + [] == Written(after);
    assert TrimLeft([]) == [] && TrimRight([]) == [];
  }

  /** White space on either side of a text goes, whatever it is of; and all of a text that is
      nothing else. */
  lemma {:induction false} TrimsBothEnds(before: seq<int>, text: Bytes, after: seq<int>)
    requires AreWhite(before) && AreWhite(after) && (text == [] || IsVisible(text))
    ensures TrimSpace(Written(before) + (text + Written(after))) == text
  {
    TrimsBefore(before, text + Written(after));
    if text == [] {
      assert text + Written(after) == Written(after);
      TrimsBlank(after);
    } else {
      TrimsText(text, after);
    }
  }

  /** A line trims to its content. */
  lemma TrimLine(line: Bytes)
    requires line != [] && LeadingSpace(line) == 0 && TrailingSpace(line) == 0
    ensures TrimSpace(line + [NEWLINE]) == line
  {
    LeadingSpaceStays(line, NEWLINE);
    TrimRightSpace(line, NEWLINE);
  }

  lemma LeadingSpaceStays(line: Bytes, last: Byte)
    requires line != [] && LeadingSpace(line) == 0 && last < 0x80
    ensures LeadingSpace(line + [last]) == 0
  {
    var s := line + [last];
    assert forall i :: 0 <= i < |line| ==> s[i] == line[i];
  }

  lemma TrimNewline()
    ensures TrimSpace([NEWLINE]) == []
  {
    assert TrimLeft([NEWLINE]) == [];
  }
}
