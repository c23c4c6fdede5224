/** Action and output ids, and the names the cache derives from them: hex digests,
    shard directories, blob, pending and live file names, and the BLOB order SQLite
    compares keys by. */
module Ids {
  newtype Byte = b: int | 0 <= b < 256
  type Bytes = seq<Byte>

  datatype Option<+T> = None | Some(value: T)

  /******* Hex *******/

  function HexDigit(n: int): char
    requires 0 <= n < 16
  {
    "0123456789abcdef"[n]
  }

  function HexEncode(key: Bytes): (hex: string)
    ensures |hex| == 2 * |key|
  {
    if key == [] then "" else
    [HexDigit(key[0] as int / 16), HexDigit(key[0] as int % 16)] + HexEncode(key[1..])
  }

  /** Decoding accepts upper-case digits, as Go's decoder does. */
  function DigitValue(c: char): Option<int> {
    if '0' <= c <= '9' then Some(c as int - '0' as int)
    else if 'a' <= c <= 'f' then Some(c as int - 'a' as int + 10)
    else if 'A' <= c <= 'F' then Some(c as int - 'A' as int + 10)
    else None
  }

  function HexDecode(hex: string): Option<Bytes> {
    if hex == "" then Some([])
    else if |hex| == 1 then None
    else
      match (DigitValue(hex[0]), DigitValue(hex[1]), HexDecode(hex[2..]))
      case (Some(h), Some(l), Some(rest)) =>
        if 0 <= h < 16 && 0 <= l < 16 then Some([(16 * h + l) as Byte] + rest) else None
      case _ => None
  }

  lemma {:induction false} HexRoundTrip(key: Bytes)
    ensures HexDecode(HexEncode(key)) == Some(key)
  {
    if key != [] {
      HexRoundTrip(key[1..]);
      DecodeOneMore(key[0], HexEncode(key[1..]), key[1..]);
      assert [key[0]] + key[1..] == key;
    }
  }

  lemma DecodeOneMore(b: Byte, hex: string, key: Bytes)
    requires HexDecode(hex) == Some(key)
    ensures HexDecode([HexDigit(b as int / 16), HexDigit(b as int % 16)] + hex) == Some([b] + key)
  {
    var h, l := b as int / 16, b as int % 16;
    DigitRoundTrip(h);
    DigitRoundTrip(l);
    assert ([HexDigit(h), HexDigit(l)] + hex)[2..] == hex;
    assert (16 * h + l) as Byte == b;
  }

  lemma DigitRoundTrip(n: int)
    requires 0 <= n < 16
    ensures DigitValue(HexDigit(n)) == Some(n)
  {
    assert "0123456789abcdef" == ['0','1','2','3','4','5','6','7','8','9','a','b','c','d','e','f'];
  }

  /** Different ids never share a file name. */
  lemma HexInjective(a: Bytes, b: Bytes)
    requires HexEncode(a) == HexEncode(b)
    ensures a == b
  {
    HexRoundTrip(a);
    HexRoundTrip(b);
  }

  lemma {:induction false} HexHasNoPunctuation(key: Bytes)
    ensures '-' !in HexEncode(key) && '.' !in HexEncode(key)
  {
    if key != [] {
      HexHasNoPunctuation(key[1..]);
      DigitRoundTrip(key[0] as int / 16);
      DigitRoundTrip(key[0] as int % 16);
    }
  }

  /** A digest has two digits a byte, the higher first, all of them lower-case. */
  lemma {:induction false} HexDigits(key: Bytes, i: nat)
    requires i < |key|
    ensures
      var high, low := HexEncode(key)[2 * i], HexEncode(key)[2 * i + 1];
      && ('0' <= high <= '9' || 'a' <= high <= 'f') && ('0' <= low <= '9' || 'a' <= low <= 'f')
      && 16 * DigitOf(high) + DigitOf(low) == key[i] as int
  {
    if i == 0 {
      DigitRoundTrip(key[0] as int / 16);
      DigitRoundTrip(key[0] as int % 16);
      assert HexDigit(key[0] as int / 16) in "0123456789abcdef" && HexDigit(key[0] as int % 16) in "0123456789abcdef";
    } else {
      var j: nat := i - 1;
      HexDigits(key[1..], j);
      assert HexEncode(key)[2..] == HexEncode(key[1..]);
      assert HexEncode(key)[2 * i] == HexEncode(key[1..])[2 * j];
      assert HexEncode(key)[2 * i + 1] == HexEncode(key[1..])[2 * j + 1];
    }
  }

  function DigitOf(c: char): int {
    if c <= '9' then c as int - '0' as int else c as int - 'a' as int + 10
  }

  /******* Live file names *******/

  /** The index of the first c in s, or |s|. */
  function IndexOf(s: string, c: char): (i: nat)
    ensures i <= |s| && c !in s[..i] && (i < |s| ==> s[i] == c)
  {
    if s == "" then 0
    else if s[0] == c then 0
    else
      var i := 1 + IndexOf(s[1..], c);
      assert s[..i] == [s[0]] + s[1..][..i - 1];
      i
  }

  lemma {:induction false} IndexOfFirst(s: string, c: char, i: nat)
    requires i < |s| && s[i] == c && c !in s[..i]
    ensures IndexOf(s, c) == i
  {
    if i > 0 {
      assert s[..i] == [s[0]] + s[1..][..i - 1];
      IndexOfFirst(s[1..], c, i - 1);
    }
  }

  /** The output id a live file was created for, or "" for a name the cache did not
      write: the part before the first hyphen, and only when it is the canonical
      (lower-case) encoding of some key. */
  function LiveOutputId(base: string): string {
    var i := IndexOf(base, '-');
    if i == |base| then ""
    else
      var id := base[..i];
      match HexDecode(id)
      case Some(key) => if HexEncode(key) == id then id else ""
      case None => ""
  }

  lemma LiveOutputIdIsPrefix(base: string)
    requires LiveOutputId(base) != ""
    ensures LiveOutputId(base) + "-" <= base
  {
    var i := IndexOf(base, '-');
    assert base[..i + 1] == base[..i] + "-";
  }

  /** A name belongs to an output exactly when it is the output's id, a hyphen and
      anything; no other spelling is ever taken for an output id. */
  lemma LiveOutputIdExact(base: string, key: Bytes)
    requires key != []
    ensures LiveOutputId(base) == HexEncode(key) <==> HexEncode(key) + "-" <= base
  {
    var hex := HexEncode(key);
    if hex + "-" <= base {
      HexRoundTrip(key);
      HexHasNoPunctuation(key);
      assert base[|hex|] == '-' && base[..|hex|] == hex;
      IndexOfFirst(base, '-', |hex|);
    }
    if LiveOutputId(base) == hex {
      LiveOutputIdIsPrefix(base);
    }
  }

  lemma LiveOutputIdCanonical(base: string)
    requires LiveOutputId(base) != ""
    ensures exists key :: key != [] && LiveOutputId(base) == HexEncode(key)
  {
    var key := HexDecode(base[..IndexOf(base, '-')]).value;
    assert key != [] && LiveOutputId(base) == HexEncode(key);
  }

  /******* Shards *******/

  function OutputShard(hex: string): string {
    if |hex| < 2 then "xx" else hex[..2]
  }

  /** The lock that guards an output's files is named after its shard. */
  function StripeName(output: Bytes): string {
    OutputShard(HexEncode(output))
  }

  function ShardPrefix(shard: int): string
    requires 0 <= shard < 256
  {
    [HexDigit(shard / 16), HexDigit(shard % 16)]
  }

  lemma ShardPrefixInjective(j: int, k: int)
    requires 0 <= j < 256 && 0 <= k < 256
    requires ShardPrefix(j) == ShardPrefix(k)
    ensures j == k
  {
    assert ShardPrefix(j)[0] == ShardPrefix(k)[0] && ShardPrefix(j)[1] == ShardPrefix(k)[1];
    DigitRoundTrip(j / 16); DigitRoundTrip(k / 16);
    DigitRoundTrip(j % 16); DigitRoundTrip(k % 16);
  }

  /** SQLite's order on BLOBs: by content, the shorter one first. */
  predicate BlobLess(a: Bytes, b: Bytes) {
    if b == [] then false
    else if a == [] then true
    else if a[0] != b[0] then a[0] < b[0]
    else BlobLess(a[1..], b[1..])
  }

  lemma {:induction false} BlobLessTransitive(a: Bytes, b: Bytes, c: Bytes)
    requires BlobLess(a, b) && BlobLess(b, c)
    ensures BlobLess(a, c)
  {
    if a != [] && a[0] == b[0] == c[0] {
      BlobLessTransitive(a[1..], b[1..], c[1..]);
    }
  }

  /** Exactly one of: equal, below, above. */
  lemma {:induction false} BlobLessTrichotomy(a: Bytes, b: Bytes)
    ensures a != b <==> BlobLess(a, b) || BlobLess(b, a)
    ensures !(BlobLess(a, b) && BlobLess(b, a))
  {
    if a != [] && b != [] && a[0] == b[0] {
      BlobLessTrichotomy(a[1..], b[1..]);
      assert [a[0]] + a[1..] == a && [b[0]] + b[1..] == b;
    }
  }

  /** They are the same before, and a has the lower byte there. */
  predicate LowerAt(a: Bytes, b: Bytes, i: nat) {
    i < |a| && i < |b| && a[..i] == b[..i] && a[i] < b[i]
  }

  lemma LowerAtNext(a: Bytes, b: Bytes, i: nat)
    requires a != [] && b != [] && a[0] == b[0]
    ensures LowerAt(a, b, i + 1) <==> LowerAt(a[1..], b[1..], i)
    ensures !LowerAt(a, b, 0) && (a < b <==> a[1..] < b[1..])
  {
    assert a == [a[0]] + a[1..] && b == [b[0]] + b[1..];
    if i < |a| - 1 && i < |b| - 1 {
      assert a[..i + 1] == [a[0]] + a[1..][..i] && b[..i + 1] == [b[0]] + b[1..][..i];
      assert a[..i + 1][1..] == a[1..][..i] && b[..i + 1][1..] == b[1..][..i];
    }
  }

  /** That is: a proper prefix, or the lower byte where they first differ. */
  lemma {:induction false} BlobLessIsLexicographic(a: Bytes, b: Bytes)
    ensures BlobLess(a, b) <==> a < b || exists i :: LowerAt(a, b, i)
  {
    if a != [] && b != [] && a[0] == b[0] {
      BlobLessIsLexicographic(a[1..], b[1..]);
      LowerAtNext(a, b, 0);
      if i: nat :| LowerAt(a, b, i) {
        var j: nat := i - 1;
        LowerAtNext(a, b, j);
      }
      if i: nat :| LowerAt(a[1..], b[1..], i) {
        LowerAtNext(a, b, i);
      }
    } else if a != [] && b != [] {
      FirstBytesDiffer(a, b);
    }
  }

  lemma SameBefore(a: Bytes, b: Bytes, i: nat)
    requires LowerAt(a, b, i) && i > 0
    ensures a[0] == b[0]
  {
    assert a[..i][0] == b[..i][0];
  }

  lemma FirstBytesDiffer(a: Bytes, b: Bytes)
    requires a != [] && b != [] && a[0] != b[0]
    ensures !(a < b) && (a[0] < b[0] <==> exists i :: LowerAt(a, b, i))
  {
    if a[0] < b[0] {
      assert LowerAt(a, b, 0);
    }
    forall i: nat ensures LowerAt(a, b, i) ==> i == 0 || a[0] == b[0] {
      if i > 0 && LowerAt(a, b, i) {
        SameBefore(a, b, i);
      }
    }
  }

  /** The bounds of the referenced-outputs query for one shard. The last shard has no
      successor byte and is left open above. */
  predicate InShardRange(shard: int, key: Bytes)
    requires 0 <= shard < 256
  {
    if shard == 255 then
      !BlobLess(key, [255])
    else
      !BlobLess(key, [shard as Byte]) && BlobLess(key, [(shard + 1) as Byte])
  }

  /** The keys one shard's range query returns. */
  function ShardKeys(keys: set<Bytes>, shard: int): set<Bytes>
    requires 0 <= shard < 256
  {
    set k | k in keys && InShardRange(shard, k)
  }

  lemma BelowOneByte(key: Bytes, bound: Byte)
    ensures BlobLess(key, [bound]) <==> key == [] || key[0] < bound
  {
    assert key != [] ==> !BlobLess(key[1..], [bound][1..]);
  }

  /** Every id is found by exactly one of the 256 range queries: the one of its first
      byte, which is also the one whose directory its files are in. The empty id, which
      the protocol refuses, is found by none. */
  lemma ShardRangesPartition(shard: int, key: Bytes)
    requires 0 <= shard < 256
    ensures InShardRange(shard, key) <==> key != [] && key[0] as int == shard
    ensures key != [] ==>
      (InShardRange(shard, key) <==> OutputShard(HexEncode(key)) == ShardPrefix(shard))
  {
    BelowOneByte(key, shard as Byte);
    if shard < 255 { BelowOneByte(key, (shard + 1) as Byte); }
    if key != [] {
      assert HexEncode(key)[..2] == ShardPrefix(key[0] as int);
      if OutputShard(HexEncode(key)) == ShardPrefix(shard) {
        ShardPrefixInjective(key[0] as int, shard);
      }
    }
  }

  /******* Blob and pending file names *******/

  function BlobName(key: Bytes): string {
    HexEncode(key) + ".zst"
  }

  /** A put's temporary file: CreateTemp replaces the star with a random suffix. */
  function PendingName(key: Bytes, random: string): string {
    HexEncode(key) + "-pending-" + random + ".zst"
  }

  /** The glob *-pending-*.zst: some text, "-pending-", some text, ".zst". */
  predicate MatchesPending(base: string) {
    |base| >= 13 && base[|base| - 4..] == ".zst" &&
    exists i :: 0 <= i <= |base| - 13 && PendingAt(base, i)
  }

  predicate PendingAt(base: string, i: int)
    requires 0 <= i <= |base| - 13
  {
    base[i..i + 9] == "-pending-"
  }

  lemma PartOfConcat(before: string, part: string, after: string)
    ensures (before + part + after)[|before|..|before| + |part|] == part
  {
  }

  lemma PendingNamesMatch(key: Bytes, random: string)
    ensures MatchesPending(PendingName(key, random))
  {
    var stem, base := HexEncode(key), PendingName(key, random);
    PartOfConcat(stem, "-pending-", random + ".zst");
    PartOfConcat(stem + "-pending-" + random, ".zst", "");
    assert base == stem + "-pending-" + (random + ".zst");
    assert base == stem + "-pending-" + random + ".zst" + "";
    assert PendingAt(base, |stem|);
  }

  lemma BlobNamesDoNotMatch(key: Bytes)
    ensures !MatchesPending(BlobName(key))
  {
    HexHasNoPunctuation(key);
    var base := BlobName(key);
    forall i | 0 <= i <= |base| - 13
      ensures !PendingAt(base, i)
    {
      assert base[i..i + 9][0] == base[i] == HexEncode(key)[i] != '-';
    }
  }

  /** The extension: from the last dot on, or "" without one. */
  function Ext(base: string): (ext: string)
    ensures |ext| <= |base| && base[|base| - |ext|..] == ext
  {
    if base == "" then ""
    else if '.' in base[1..] || base[0] != '.' then
      var ext := Ext(base[1..]);
      assert base[|base| - |ext|..] == base[1..][|base| - 1 - |ext|..];
      ext
    else base
  }

  /** What is left of a name without its extension. */
  function Stem(base: string): string {
    base[..|base| - |Ext(base)|]
  }

  lemma {:induction false} ExtOfConcat(stem: string, ext: string)
    requires '.' !in stem
    requires |ext| > 0 && ext[0] == '.' && '.' !in ext[1..]
    ensures Ext(stem + ext) == ext && Stem(stem + ext) == stem
  {
    if stem == "" {
      assert stem + ext == ext;
    } else {
      ExtOfConcat(stem[1..], ext);
      assert (stem + ext)[1..] == stem[1..] + ext;
      assert stem[0] in stem;
    }
    assert (stem + ext)[..|stem|] == stem;
  }

  /** Where one kind of a output's files live: the shard directory and the name. */
  datatype FilePath = FilePath(dir: string, base: string)

  function OutputPath(key: Bytes, ext: string): FilePath {
    FilePath(OutputShard(HexEncode(key)), HexEncode(key) + ext)
  }

  lemma OutputDir(key: Bytes, ext: string)
    requires key != []
    ensures OutputPath(key, ext).dir == ShardPrefix(key[0] as int)
  {
    ShardRangesPartition(key[0] as int, key);
  }

  /** A file's stem spells an id, in the directory of one shard, exactly when the file
      is that output's own file. */
  lemma StemNamesOutput(shard: int, base: string, key: Bytes)
    requires 0 <= shard < 256 && key != []
    requires InShardRange(shard, key)
    requires Ext(base) != ""
    ensures Stem(base) == HexEncode(key) <==> FilePath(ShardPrefix(shard), base) == OutputPath(key, Ext(base))
  {
    ShardRangesPartition(shard, key);
    assert base == Stem(base) + Ext(base);
    if base == HexEncode(key) + Ext(base) {
      assert Stem(base) == base[..|HexEncode(key)|];
    }
  }
}
