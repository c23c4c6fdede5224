/** The standard base64 encoding, section 4 of RFC 4648, as put bodies use it: padded, read
    with line ends skipped and stray trailing bits ignored. */
module Base64 {
  import opened Ids
  import opened Text

  const PAD: Byte := 61

  /** The character of a 6-bit digit. */
  function Character(n: int): Byte
    requires 0 <= n < 64
  {
    if n < 26 then (65 + n) as Byte
    else if n < 52 then (71 + n) as Byte
    else if n < 62 then (n - 4) as Byte
    else if n == 62 then 43 else 47
  }

  function Digit(c: Byte): Option<int> {
    if 65 <= c <= 90 then Some(c as int - 65)
    else if 97 <= c <= 122 then Some(c as int - 71)
    else if 48 <= c <= 57 then Some(c as int + 4)
    else if c == 43 then Some(62)
    else if c == 47 then Some(63)
    else None
  }

  lemma DigitOfCharacter(n: int)
    requires 0 <= n < 64
    ensures Digit(Character(n)) == Some(n) && Character(n) != PAD
  {
  }

  function Encode(data: Bytes): (text: Bytes) {
    if data == [] then []
    else if |data| == 1 then Four(data[0], 0, 0)[..2] + [PAD, PAD]
    else if |data| == 2 then Four(data[0], data[1], 0)[..3] + [PAD]
    else Four(data[0], data[1], data[2]) + Encode(data[3..])
  }

  /** Three bytes are four digits. */
  function Four(a: Byte, b: Byte, c: Byte): (text: Bytes)
    ensures |text| == 4
  {
    var x, y, z := a as int, b as int, c as int;
    [Character(x / 4), Character(x % 4 * 16 + y / 16), Character(y % 16 * 4 + z / 64), Character(z % 64)]
  }

  function First(i: int, j: int): Byte
    requires 0 <= i < 64 && 0 <= j < 64
  {
    (i * 4 + j / 16) as Byte
  }

  function Second(j: int, k: int): Byte
    requires 0 <= j < 64 && 0 <= k < 64
  {
    (j % 16 * 16 + k / 4) as Byte
  }

  function Third(k: int, l: int): Byte
    requires 0 <= k < 64 && 0 <= l < 64
  {
    (k % 4 * 64 + l) as Byte
  }

  /** What text without line ends decodes to. Padding ends it. */
  function DecodeQuanta(text: Bytes): Option<Bytes> {
    if text == [] then Some([])
    else if |text| < 4 then None
    else
      match (Digit(text[0]), Digit(text[1]))
      case (Some(i), Some(j)) =>
        if text[2] == PAD then
          if text[3] == PAD && |text| == 4 && InRange(i) && InRange(j) then Some([First(i, j)]) else None
        else (
          match (Digit(text[2]), Digit(text[3]), DecodeQuanta(text[4..]))
          case (Some(k), Some(l), Some(rest)) =>
            if InRange(i) && InRange(j) && InRange(k) && InRange(l)
            then Some([First(i, j), Second(j, k), Third(k, l)] + rest) else None
          case (Some(k), None, _) =>
            if text[3] == PAD && |text| == 4 && InRange(i) && InRange(j) && InRange(k)
            then Some([First(i, j), Second(j, k)]) else None
          case _ => None)
      case _ => None
  }

  predicate InRange(n: int) {
    0 <= n < 64
  }

  function SkipLineEnds(text: Bytes): Bytes {
    if text == [] then []
    else if text[0] == 10 || text[0] == 13 then SkipLineEnds(text[1..])
    else [text[0]] + SkipLineEnds(text[1..])
  }

  function Decode(text: Bytes): Option<Bytes> {
    DecodeQuanta(SkipLineEnds(text))
  }

  /******* What is encoded is decoded *******/

  lemma ThreeBack(a: Byte, b: Byte, c: Byte)
    ensures
      var x, y, z := a as int, b as int, c as int;
      && First(x / 4, x % 4 * 16 + y / 16) == a
      && Second(x % 4 * 16 + y / 16, y % 16 * 4 + z / 64) == b
      && Third(y % 16 * 4 + z / 64, z % 64) == c
  {
  }

  lemma FourDigits(a: Byte, b: Byte, c: Byte)
    ensures
      var x, y, z := a as int, b as int, c as int;
      var text := Four(a, b, c);
      && Digit(text[0]) == Some(x / 4) && Digit(text[1]) == Some(x % 4 * 16 + y / 16)
      && Digit(text[2]) == Some(y % 16 * 4 + z / 64) && Digit(text[3]) == Some(z % 64)
      && forall i :: 0 <= i < 4 ==> text[i] != PAD
  {
    var x, y, z := a as int, b as int, c as int;
    DigitOfCharacter(x / 4);
    DigitOfCharacter(x % 4 * 16 + y / 16);
    DigitOfCharacter(y % 16 * 4 + z / 64);
    DigitOfCharacter(z % 64);
  }

  lemma DecodesThree(text: Bytes, i: int, j: int, k: int, l: int, rest: Bytes)
    requires |text| >= 4 && InRange(i) && InRange(j) && InRange(k) && InRange(l) && text[2] != PAD
    requires Digit(text[0]) == Some(i) && Digit(text[1]) == Some(j)
    requires Digit(text[2]) == Some(k) && Digit(text[3]) == Some(l)
    requires DecodeQuanta(text[4..]) == Some(rest)
    ensures DecodeQuanta(text) == Some([First(i, j), Second(j, k), Third(k, l)] + rest)
  {
  }

  lemma DecodesTwo(text: Bytes, i: int, j: int, k: int)
    requires |text| == 4 && InRange(i) && InRange(j) && InRange(k) && text[2] != PAD && text[3] == PAD
    requires Digit(text[0]) == Some(i) && Digit(text[1]) == Some(j) && Digit(text[2]) == Some(k)
    ensures DecodeQuanta(text) == Some([First(i, j), Second(j, k)])
  {
  }

  lemma DecodesOne(text: Bytes, i: int, j: int)
    requires |text| == 4 && InRange(i) && InRange(j) && text[2] == PAD && text[3] == PAD
    requires Digit(text[0]) == Some(i) && Digit(text[1]) == Some(j)
    ensures DecodeQuanta(text) == Some([First(i, j)])
  {
  }

  lemma OneBack(a: Byte)
    ensures DecodeQuanta(Four(a, 0, 0)[..2] + [PAD, PAD]) == Some([a])
  {
    FourDigits(a, 0, 0);
    ThreeBack(a, 0, 0);
    DecodesOne(Four(a, 0, 0)[..2] + [PAD, PAD], a as int / 4, a as int % 4 * 16);
  }

  lemma TwoBack(a: Byte, b: Byte)
    ensures DecodeQuanta(Four(a, b, 0)[..3] + [PAD]) == Some([a, b])
  {
    var x, y := a as int, b as int;
    FourDigits(a, b, 0);
    ThreeBack(a, b, 0);
    DecodesTwo(Four(a, b, 0)[..3] + [PAD], x / 4, x % 4 * 16 + y / 16, y % 16 * 4);
  }

  lemma ThreeMoreBack(a: Byte, b: Byte, c: Byte, text: Bytes, data: Bytes)
    requires DecodeQuanta(text) == Some(data)
    ensures DecodeQuanta(Four(a, b, c) + text) == Some([a, b, c] + data)
  {
    var x, y, z := a as int, b as int, c as int;
    FourDigits(a, b, c);
    ThreeBack(a, b, c);
    assert (Four(a, b, c) + text)[4..] == text;
    DecodesThree(Four(a, b, c) + text, x / 4, x % 4 * 16 + y / 16, y % 16 * 4 + z / 64, z % 64, data);
  }

  lemma {:induction false} ShortRoundTrip(data: Bytes)
    requires |data| < 3
    ensures DecodeQuanta(Encode(data)) == Some(data)
  {
    if |data| == 1 {
      OneBack(data[0]);
      assert data == [data[0]];
    } else if |data| == 2 {
      TwoBack(data[0], data[1]);
      assert data == [data[0], data[1]];
    }
  }

  lemma {:induction false} LongRoundTrip(data: Bytes)
    requires |data| >= 3 && DecodeQuanta(Encode(data[3..])) == Some(data[3..])
    ensures DecodeQuanta(Encode(data)) == Some(data)
  {
    var a, b, c, rest := data[0], data[1], data[2], data[3..];
    ThreeMoreBack(a, b, c, Encode(rest), rest);
    assert data == [a, b, c] + rest;
    assert Encode(data) == Four(a, b, c) + Encode(rest);
  }

  lemma {:induction false} QuantaRoundTrip(data: Bytes)
    ensures DecodeQuanta(Encode(data)) == Some(data)
  {
    if |data| < 3 {
      ShortRoundTrip(data);
    } else {
      QuantaRoundTrip(data[3..]);
      LongRoundTrip(data);
    }
  }

  /** The encoding is of the alphabet and its padding: no quote, backslash or line end. */
  predicate Plain(c: Byte) {
    Digit(c).Some? || c == PAD
  }

  lemma {:induction false} EncodingIsPlain(data: Bytes)
    ensures forall i :: 0 <= i < |Encode(data)| ==> Plain(Encode(data)[i])
  {
    if data != [] {
      var b := if |data| > 1 then data[1] else 0;
      var c := if |data| > 2 then data[2] else 0;
      FourDigits(data[0], b, c);
      if |data| >= 3 {
        EncodingIsPlain(data[3..]);
      }
    }
  }

  lemma {:induction false} NothingToSkip(text: Bytes)
    requires forall i :: 0 <= i < |text| ==> Plain(text[i])
    ensures SkipLineEnds(text) == text
  {
    if text != [] {
      assert Plain(text[0]);
      NothingToSkip(text[1..]);
    }
  }

  lemma NotPlain(text: Bytes, c: Byte)
    requires (forall i :: 0 <= i < |text| ==> Plain(text[i])) && !Plain(c)
    ensures c !in text
  {
  }

  lemma RoundTrip(data: Bytes)
    ensures Decode(Encode(data)) == Some(data)
  {
    QuantaRoundTrip(data);
    EncodingIsPlain(data);
    NothingToSkip(Encode(data));
  }

  lemma EncodingIsQuotable(data: Bytes)
    ensures QUOTE !in Encode(data) && BACKSLASH !in Encode(data) && NEWLINE !in Encode(data)
  {
    EncodingIsPlain(data);
    NotPlain(Encode(data), QUOTE);
    NotPlain(Encode(data), BACKSLASH);
    NotPlain(Encode(data), NEWLINE);
  }

  /******* The alphabet, and what is text in it *******/

  const UPPER := "ABCDEFGHIJKLMNOPQRSTUVWXYZ"
  const LOWER := "abcdefghijklmnopqrstuvwxyz"
  const OTHERS := "0123456789+/"

  /** The 64 characters, each at the value it stands for. */
  const ALPHABET := UPPER + LOWER + OTHERS

  lemma UpperAt(n: int)
    requires 0 <= n < 26
    ensures UPPER[n] as int == 65 + n
  {
    assert UPPER == [
      'A', 'B', 'C', 'D', 'E', 'F', 'G', 'H', 'I', 'J', 'K', 'L', 'M',
      'N', 'O', 'P', 'Q', 'R', 'S', 'T', 'U', 'V', 'W', 'X', 'Y', 'Z'];
  }

  lemma LowerAt(n: int)
    requires 0 <= n < 26
    ensures LOWER[n] as int == 97 + n
  {
    assert LOWER == [
      'a', 'b', 'c', 'd', 'e', 'f', 'g', 'h', 'i', 'j', 'k', 'l', 'm',
      'n', 'o', 'p', 'q', 'r', 's', 't', 'u', 'v', 'w', 'x', 'y', 'z'];
  }

  lemma OthersAt(n: int)
    requires 0 <= n < 12
    ensures OTHERS[n] as int == Character(52 + n) as int
  {
    assert OTHERS == ['0', '1', '2', '3', '4', '5', '6', '7', '8', '9', '+', '/'];
  }

  lemma AlphabetAt(n: int)
    requires 0 <= n < 64
    ensures |ALPHABET| == 64 && ALPHABET[n] as int == Character(n) as int
  {
    if n < 26 {
      UpperAt(n);
    } else if n < 52 {
      LowerAt(n - 26);
    } else {
      OthersAt(n - 52);
    }
  }

  /** A digit is worth its place in the alphabet, and nothing else is a digit. */
  lemma DigitIsPlace(c: Byte, n: int)
    ensures Digit(c) == Some(n) <==> 0 <= n < 64 && ALPHABET[n] as int == c as int
  {
    if 0 <= n < 64 {
      AlphabetAt(n);
      DigitOfCharacter(n);
    }
  }

  /** Four digits are the number that three bytes are, the highest first. */
  lemma QuantumIsNumber(a: Byte, b: Byte, c: Byte)
    ensures
      var text := Four(a, b, c);
      && (forall i :: 0 <= i < 4 ==> Digit(text[i]).Some?)
      && ((Digit(text[0]).value * 64 + Digit(text[1]).value) * 64 + Digit(text[2]).value) * 64 + Digit(text[3]).value ==
         (a as int * 256 + b as int) * 256 + c as int
  {
    FourDigits(a, b, c);
  }

  /** What a text is: digits, four and four, and one or two signs of padding at the end. */
  predicate IsText(s: Bytes) {
    s == [] || (
      && |s| % 4 == 0 && (forall i :: 0 <= i < |s| - 2 ==> Digit(s[i]).Some?)
      && (Digit(s[|s| - 2]).Some? || (s[|s| - 2] == 61 && s[|s| - 1] == 61))
      && (Digit(s[|s| - 1]).Some? || s[|s| - 1] == 61))
  }

  lemma DigitInRange(c: Byte)
    ensures Digit(c).Some? ==> InRange(Digit(c).value) && c != PAD
  {
  }

  lemma TextGoesOn(s: Bytes)
    requires |s| > 4
    ensures IsText(s) <==> (forall i :: 0 <= i < 4 ==> Digit(s[i]).Some?) && s[4..] != [] && IsText(s[4..])
  {
    var rest := s[4..];
    assert forall i :: 0 <= i < |rest| ==> rest[i] == s[4..][i] == s[i + 4];
    if IsText(rest) && forall i :: 0 <= i < 4 ==> Digit(s[i]).Some? {
      forall i | 0 <= i < |s| - 2 ensures Digit(s[i]).Some? {
        if i >= 4 {
          assert Digit(rest[i - 4]).Some?;
        }
      }
    }
    if IsText(s) {
      forall i | 0 <= i < |rest| - 2 ensures Digit(rest[i]).Some? {
        assert Digit(s[i + 4]).Some?;
      }
    }
  }

  lemma {:induction false} LastQuantum(s: Bytes)
    requires |s| == 4
    ensures DecodeQuanta(s).Some? <==> IsText(s)
  {
    DigitInRange(s[0]);
    DigitInRange(s[1]);
    DigitInRange(s[2]);
    DigitInRange(s[3]);
    assert s[4..] == [];
  }

  lemma {:induction false} QuantumGoesOn(s: Bytes)
    requires |s| > 4
    ensures DecodeQuanta(s).Some? <==> (forall i :: 0 <= i < 4 ==> Digit(s[i]).Some?) && DecodeQuanta(s[4..]).Some?
  {
    DigitInRange(s[0]);
    DigitInRange(s[1]);
    DigitInRange(s[2]);
    DigitInRange(s[3]);
    assert Digit(s[0]).Some? && Digit(s[1]).Some? && Digit(s[2]).Some? && Digit(s[3]).Some? <==>
           forall i :: 0 <= i < 4 ==> Digit(s[i]).Some?;
  }

  lemma {:induction false} QuantaDecodeIffText(s: Bytes)
    ensures DecodeQuanta(s).Some? <==> IsText(s)
  {
    if |s| == 4 {
      LastQuantum(s);
    } else if |s| > 4 {
      QuantaDecodeIffText(s[4..]);
      TextGoesOn(s);
      QuantumGoesOn(s);
    }
  }

  /** Line ends are those two bytes, wherever they are, and nothing else. */
  lemma {:induction false} SkipsLineEnds(before: Bytes, c: Byte, after: Bytes)
    ensures SkipLineEnds(before + [c] + after) ==
      SkipLineEnds(before) + (if c == 10 || c == 13 then [] else [c]) + SkipLineEnds(after)
  {
    if before == [] {
      assert (before + [c] + after)[1..] == after;
    } else {
      SkipsLineEnds(before[1..], c, after);
      assert (before + [c] + after)[1..] == before[1..] + [c] + after;
    }
  }

  /** What is left without line ends is decoded exactly when it is text. */
  lemma DecodesIffText(s: Bytes)
    ensures Decode(s).Some? <==> IsText(SkipLineEnds(s))
  {
    QuantaDecodeIffText(SkipLineEnds(s));
  }
}
