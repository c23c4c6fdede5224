/** The buffered reader the protocol stream is read through: lines it returns are ranges of
    its buffer, which the next fill moves or overwrites. */
module Buffered {
  import opened Ids
  import opened Text

  datatype Err =
    | Eof | Failed | BufferFull | InvalidUnread
    | NotAString | Escape
    | Malformed | NoId | NegativeSize | UnknownCommand | BadBase64 | WrongSize

  function Concat(chunks: seq<Bytes>): Bytes {
    if chunks == [] then [] else chunks[0] + Concat(chunks[1..])
  }

  /** What one read of n bytes leaves of the source. */
  function AfterRead(chunks: seq<Bytes>, n: nat): seq<Bytes>
    requires chunks != [] && n <= |chunks[0]|
  {
    if n == |chunks[0]| then chunks[1..] else [chunks[0][n..]] + chunks[1..]
  }

  lemma Associate(a: Bytes, b: Bytes, c: Bytes)
    ensures a + (b + c) == a + b + c
  {
  }

  lemma TakeFromChunks(chunks: seq<Bytes>, n: nat)
    requires chunks != [] && n <= |chunks[0]|
    requires forall i :: 0 <= i < |chunks| ==> chunks[i] != []
    ensures Concat(chunks) == chunks[0][..n] + Concat(AfterRead(chunks, n))
    ensures forall i :: 0 <= i < |AfterRead(chunks, n)| ==> AfterRead(chunks, n)[i] != []
  {
    var first, after := chunks[0], AfterRead(chunks, n);
    if n == |first| {
      assert first[..n] == first;
    } else {
      assert first == first[..n] + first[n..];
      assert after[0] == first[n..] && after[1..] == chunks[1..];
      Associate(first[..n], first[n..], Concat(chunks[1..]));
    }
  }

  /** The least size a buffered reader gives its buffer. */
  const MIN_BUFFER := 16

  /** Ends with `delim`, the only one in it. */
  predicate IsLine(line: Bytes, delim: Byte) {
    line != [] && line[|line| - 1] == delim && delim !in line[..|line| - 1]
  }

  lemma SplitSlice(a: array<Byte>, lo: nat, mid: nat, hi: nat, later: Bytes)
    requires lo <= mid <= hi <= a.Length
    ensures a[lo..hi] == a[lo..mid] + a[mid..hi]
    ensures (a[lo..hi] + later)[..mid - lo] == a[lo..mid]
    ensures (a[lo..hi] + later)[mid - lo..] == a[mid..hi] + later
  {
    assert (a[lo..hi] + later)[..mid - lo] == a[lo..hi][..mid - lo];
  }

  /** A buffered reader: buf[r..w] is read and not yet consumed. `chunks` is what the
      source's next reads bring, in pieces of any size, before it ends with `endErr`. */
  class BufReader {
    const buf: array<Byte>
    const endErr: Err
    var r: nat
    var w: nat
    var err: Option<Err>
    var lastByte: Option<Byte>
    var chunks: seq<Bytes>
    ghost var rest: Bytes   // everything still to be read

    constructor (size: nat, chunks: seq<Bytes>, endErr: Err)
      requires size >= MIN_BUFFER && (endErr.Eof? || endErr.Failed?)
      requires forall i :: 0 <= i < |chunks| ==> chunks[i] != []
      ensures Valid() && rest == Concat(chunks) && fresh(buf) && this.endErr == endErr && buf.Length == size
    {
      buf := new Byte[size];
      this.endErr := endErr;
      r, w, err, lastByte := 0, 0, None, None;
      this.chunks := chunks;
      rest := Concat(chunks);
    }

    ghost predicate Valid()
      reads this, buf
    {
      && buf.Length >= MIN_BUFFER && r <= w <= buf.Length
      && (endErr.Eof? || endErr.Failed?)
      && (forall i :: 0 <= i < |chunks| ==> chunks[i] != [])
      && (err.Some? ==> chunks == [] && err.value == endErr && w < buf.Length)
      && (lastByte.Some? && r > 0 ==> buf[r - 1] == lastByte.value)
      && rest == buf[r..w] + Concat(chunks)
    }

    /** Moves what is unread to the front of the buffer. */
    method Shift()
      requires Valid()
      modifies this, buf
      ensures Valid() && rest == old(rest) && r == 0 && w == old(w - r)
      ensures buf[..w] == old(buf[r..w])
      ensures chunks == old(chunks) && err == old(err)
    {
      if r > 0 {
        forall i | 0 <= i < w - r {
          buf[i] := buf[r + i];
        }
        r, w := 0, w - r;
        assert buf[..w] == old(buf[r..w]);
      }
    }

    /** Moves what is unread to the front and reads once more behind it. */
    method Fill()
      requires Valid() && w - r < buf.Length && err.None?
      modifies this, buf
      ensures Valid() && rest == old(rest) && r == 0
      ensures w >= old(w - r) && buf[..old(w - r)] == old(buf[r..w])
      ensures old(chunks) == [] ==> err == Some(endErr)
      ensures old(chunks) != [] ==> err.None? && |Concat(chunks)| < |old(Concat(chunks))|
    {
      Shift();
      if chunks == [] {
        err := Some(endErr);
        return;
      }
      ReadOnce();
    }

    method ReadOnce()
      requires Valid() && r == 0 && w < buf.Length && err.None? && chunks != []
      modifies this, buf
      ensures Valid() && rest == old(rest) && r == 0 && err.None?
      ensures w >= old(w) && buf[..old(w)] == old(buf[..w]) && |Concat(chunks)| < |old(Concat(chunks))|
    {
      var n := if |chunks[0]| <= buf.Length - w then |chunks[0]| else buf.Length - w;
      ghost var unread, before := buf[..w], Concat(chunks);
      var bytes := chunks[0][..n];
      TakeFromChunks(chunks, n);
      Associate(unread, bytes, Concat(AfterRead(chunks, n)));
      Append(bytes);
      chunks := AfterRead(chunks, n);
      assert before == bytes + Concat(chunks);
    }

    method Append(bytes: Bytes)
      requires r == 0 && w + |bytes| <= buf.Length
      modifies this`w, buf
      ensures w == old(w) + |bytes| && buf[..w] == old(buf[..w]) + bytes && buf[..old(w)] == old(buf[..w])
    {
      forall i | 0 <= i < |bytes| {
        buf[w + i] := bytes[i];
      }
      assert buf[..w] == old(buf[..w]) && buf[w..w + |bytes|] == bytes;
      w := w + |bytes|;
    }

    ghost predicate Absent(delim: Byte, lo: nat, hi: nat)
      reads this, buf
      requires lo <= hi <= buf.Length
    {
      forall k :: lo <= k < hi ==> buf[k] != delim
    }

    lemma AbsentLine(delim: Byte, lo: nat, hi: nat)
      requires lo < hi <= buf.Length && buf[hi - 1] == delim && Absent(delim, lo, hi - 1)
      ensures IsLine(buf[lo..hi], delim)
    {
    }

    lemma AbsentPart(delim: Byte, lo: nat, hi: nat)
      requires lo <= hi <= buf.Length && Absent(delim, lo, hi)
      ensures delim !in buf[lo..hi]
    {
    }

    /** Looks for `delim` in what is unread, from offset s, before which there is none. */
    method Search(s: nat, delim: Byte) returns (found: bool, n: nat)
      requires Valid() && s <= w - r && Absent(delim, r, r + s)
      ensures r + n <= w && Absent(delim, r, r + n)
      ensures if found then r + n < w && buf[r + n] == delim else r + n == w
    {
      var unread := buf[r + s..w];
      var i := IndexByte(unread, delim);
      forall k | r + s <= k < r + s + i ensures buf[k] != delim {
        assert unread[..i][k - r - s] == buf[k];
      }
      found, n := r + s + i < w, s + i;
      if found {
        assert unread[i] == buf[r + n];
      }
    }

    /** Fills until `delim` is found, the source has ended or the buffer is full. */
    method FillUntil(delim: Byte) returns (found: bool, n: nat)
      requires Valid()
      modifies this, buf
      ensures Valid() && rest == old(rest) && r + n <= w && Absent(delim, r, r + n)
      ensures found ==> r + n < w && buf[r + n] == delim
      ensures !found ==> r + n == w && (err.Some? || w - r == buf.Length)
    {
      var s: nat := 0;
      while true
        invariant Valid() && rest == old(rest) && s <= w - r && Absent(delim, r, r + s)
        decreases |Concat(chunks)|, if err.None? then 1 else 0
      {
        found, n := Search(s, delim);
        if found {
          return;
        }
        if err.Some? {
          return;
        }
        if w - r >= buf.Length {
          return;
        }
        s := w - r;
        ghost var unread := buf[r..w];
        Fill();
        forall k | r <= k < r + s ensures buf[k] != delim {
          assert buf[..s][k] == unread[k];
        }
      }
    }

    method Take(n: nat) returns (lo: nat, hi: nat, ghost taken: Bytes)
      requires Valid() && n <= w - r
      modifies this
      ensures Valid() && lo == old(r) && hi == r == old(r) + n && w == old(w)
      ensures taken == buf[lo..hi] && taken + rest == old(rest) && err == old(err) && chunks == old(chunks)
    {
      lo, hi := r, r + n;
      SplitSlice(buf, r, r + n, w, Concat(chunks));
      ghost var left := buf[hi..w];
      taken := buf[lo..hi];
      r, rest := hi, rest[n..];
      if lo < hi {
        lastByte := Some(buf[hi - 1]);
      }
      assert buf[lo..hi] == taken && buf[r..w] == left;
    }

    method TakeLine(n: nat, delim: Byte) returns (lo: nat, hi: nat, ghost line: Bytes)
      requires Valid() && 0 < n <= w - r && Absent(delim, r, r + n - 1) && buf[r + n - 1] == delim
      modifies this
      ensures Valid() && lo < hi == r && line == buf[lo..hi] && line + rest == old(rest) && IsLine(line, delim)
    {
      AbsentLine(delim, r, r + n);
      lo, hi, line := Take(n);
    }

    /** Without a line: a full buffer, or what is left when the source has ended. */
    method TakeAll(delim: Byte) returns (lo: nat, hi: nat, e: Option<Err>, ghost line: Bytes)
      requires Valid() && Absent(delim, r, w) && (err.Some? || w - r == buf.Length)
      modifies this
      ensures Valid() && lo <= hi == r && line == buf[lo..hi] && line + rest == old(rest) && delim !in line
      ensures if old(err).Some? then e == Some(endErr) && rest == [] && hi - lo < buf.Length
              else e == Some(BufferFull) && hi - lo == buf.Length
    {
      AbsentPart(delim, r, w);
      e := if err.Some? then err else Some(BufferFull);
      lo, hi, line := Take(w - r);
      err := None;
    }

    /** Reads up to and including the next `delim`, and returns where that line is in the
        buffer: it stays there only until the next fill. Without one it returns a full
        buffer, or whatever is left when the source ends. */
    method ReadSlice(delim: Byte) returns (lo: nat, hi: nat, e: Option<Err>, ghost line: Bytes)
      requires Valid()
      modifies this, buf
      ensures Valid() && lo <= hi == r
      ensures line == buf[lo..hi] && line + rest == old(rest)
      ensures e.None? ==> IsLine(line, delim)
      ensures e.Some? ==> delim !in line
      ensures e == Some(BufferFull) ==> |line| == buf.Length
      ensures e.Some? && e != Some(BufferFull) ==> e == Some(endErr) && rest == [] && |line| < buf.Length
    {
      var found, n := FillUntil(delim);
      if found {
        lo, hi, line := TakeLine(n + 1, delim);
        e := None;
      } else {
        lo, hi, e, line := TakeAll(delim);
      }
    }

    /** Fills until there is a byte or the source has ended. */
    method FillSome() returns (some: bool)
      requires Valid()
      modifies this, buf
      ensures Valid() && rest == old(rest) && (some <==> r < w) && (!some ==> err == Some(endErr) && chunks == [])
    {
      while r == w
        invariant Valid() && rest == old(rest)
        decreases |Concat(chunks)|, if err.None? then 1 else 0
      {
        if err.Some? {
          return false;
        }
        Fill();
      }
      return true;
    }

    method TakeByte() returns (b: Byte)
      requires Valid() && r < w
      modifies this
      ensures Valid() && [b] + rest == old(rest) && r > 0 && lastByte == Some(b)
    {
      b := buf[r];
      SplitSlice(buf, r, r + 1, w, Concat(chunks));
      ghost var left := buf[r + 1..w];
      r, rest, lastByte := r + 1, rest[1..], Some(b);
      assert buf[r..w] == left;
    }

    method ReadByte() returns (b: Byte, e: Option<Err>)
      requires Valid()
      modifies this, buf
      ensures Valid()
      ensures old(rest) != [] ==> e.None? && [b] + rest == old(rest) && r > 0 && lastByte == Some(b)
      ensures old(rest) == [] ==> e == Some(endErr) && rest == []
    {
      var some := FillSome();
      if some {
        b := TakeByte();
        e := None;
      } else {
        b, e := 0, err;
        err := None;
      }
    }

    method UnreadByte() returns (e: Option<Err>)
      requires Valid()
      modifies this, buf
      ensures Valid()
      ensures old(lastByte.Some? && r > 0) ==> e.None? && rest == [old(lastByte.value)] + old(rest)
      ensures e.Some? ==> e == Some(InvalidUnread) && rest == old(rest)
    {
      if lastByte.None? || (r == 0 && w > 0) {
        return Some(InvalidUnread);
      }
      ghost var unread := buf[r..w];
      if r > 0 {
        r := r - 1;
      } else {
        w := 1;
      }
      buf[r] := lastByte.value;
      rest := [lastByte.value] + rest;
      assert buf[r..w] == [buf[r]] + unread;
      lastByte := None;
      e := None;
    }
  }
}
