/** The body of a put: a JSON string in the protocol stream, read in chunks that stay in the
    shared buffer until they are handed out. */
module BodyStream {
  import opened Ids
  import opened Text
  import opened Buffered

  /** A JSON string without escapes, read from just past its opening quote: the body, and
      what follows the closing quote, or nothing if there is none. */
  predicate Splits(rest: Bytes, body: Bytes, after: Option<Bytes>) {
    if body == [] then rest == match after { case Some(tail) => [QUOTE] + tail case None => [] }
    else rest != [] && rest[0] == body[0] != QUOTE && Splits(rest[1..], body[1..], after)
  }

  function Joined(body: Bytes, after: Option<Bytes>): Bytes {
    match after
    case Some(tail) => body + [QUOTE] + tail
    case None => body
  }

  lemma {:induction false} SplitsIsJoined(rest: Bytes, body: Bytes, after: Option<Bytes>)
    ensures Splits(rest, body, after) <==> QUOTE !in body && rest == Joined(body, after)
  {
    if body == [] {
      assert Joined(body, after) == match after { case Some(tail) => [QUOTE] + tail case None => [] };
    } else {
      assert body == [body[0]] + body[1..];
      assert Joined(body, after) == [body[0]] + Joined(body[1..], after);
      if rest != [] {
        assert rest == [rest[0]] + rest[1..];
        SplitsIsJoined(rest[1..], body[1..], after);
      }
    }
  }

  lemma SplitExists(rest: Bytes)
    ensures exists body, after :: Splits(rest, body, after)
  {
    var i := IndexByte(rest, QUOTE);
    if i < |rest| {
      assert rest == rest[..i] + [QUOTE] + rest[i + 1..];
      SplitsIsJoined(rest, rest[..i], Some(rest[i + 1..]));
    } else {
      assert rest[..i] == rest;
      SplitsIsJoined(rest, rest, None);
    }
  }

  /** There is one way to split, so the body is what is before the first quote. */
  lemma {:induction false} SplitIsUnique(
      rest: Bytes, body: Bytes, after: Option<Bytes>, body': Bytes, after': Option<Bytes>)
    requires Splits(rest, body, after) && Splits(rest, body', after')
    ensures body == body' && after == after'
  {
    var i := IndexByte(rest, QUOTE);
    SplitIndex(rest, body, after);
    SplitIndex(rest, body', after');
    if after.Some? {
      assert after.value == rest[|body| + 1..] == after'.value;
    }
  }

  lemma {:induction false} SplitIndex(rest: Bytes, body: Bytes, after: Option<Bytes>)
    requires Splits(rest, body, after)
    ensures |body| == IndexByte(rest, QUOTE) && body == rest[..|body|] && (after.Some? <==> |body| < |rest|)
    ensures after.Some? ==> rest == body + [QUOTE] + after.value
  {
    SplitsIsJoined(rest, body, after);
    if after.Some? {
      assert rest[|body|] == QUOTE;
      FirstIndex(rest, QUOTE, |body|);
    } else {
      assert IndexByte(rest, QUOTE) == |rest|;
    }
  }

  lemma {:induction false} SplitContinues(chunk: Bytes, rest: Bytes, body: Bytes, after: Option<Bytes>)
    requires QUOTE !in chunk && Splits(chunk + rest, body, after)
    ensures chunk <= body && body == chunk + body[|chunk|..] && Splits(rest, body[|chunk|..], after)
  {
    if chunk == [] {
      assert chunk + rest == rest && body[0..] == body;
    } else {
      assert (chunk + rest)[0] == chunk[0] && chunk[0] in chunk;
      assert (chunk + rest)[1..] == chunk[1..] + rest;
      SplitContinues(chunk[1..], rest, body[1..], after);
      assert body[1..][|chunk| - 1..] == body[|chunk|..];
    }
  }

  lemma GotMore(got: Bytes, part: Bytes, left: Bytes, all: Bytes)
    requires got + (part + left) == all && BACKSLASH !in got && BACKSLASH !in part
    ensures got + part + left == all && BACKSLASH !in got + part
  {
  }

  lemma GotAll(got: Bytes, left: Bytes, all: Bytes)
    requires got + left == all && BACKSLASH !in got
    ensures got <= all && (left == [] ==> got == all)
    ensures BACKSLASH in left <==> BACKSLASH in all
  {
  }

  /** How many of n bytes whole buffers hold. */
  function WholeBuffers(n: nat, size: nat): (w: nat)
    requires size > 0
    ensures w <= n < w + size
  {
    if n < size then 0 else size + WholeBuffers(n - size, size)
  }

  /** What is looked at of the rest of a body: all of it if it is closed, else only whole
      buffers of it. */
  function Seen(coming: Bytes, closed: bool, size: nat): Bytes
    requires size > 0
  {
    if closed then coming else coming[..WholeBuffers(|coming|, size)]
  }

  lemma SeenFrom(chunk: Bytes, rest: Bytes, closed: bool, size: nat)
    requires size > 0
    ensures closed || |chunk| == size ==> Seen(chunk + rest, closed, size) == chunk + Seen(rest, closed, size)
    ensures !closed && |chunk + rest| < size ==> Seen(chunk + rest, closed, size) == []
  {
  }

  /** What a chunk without a quote is of the body, with the quote after it or not. */
  lemma ChunkSplits(rest: Bytes, body: Bytes, after: Option<Bytes>, chunk: Bytes, tail: Bytes, ends: bool, size: nat)
    requires Splits(rest, body, after) && QUOTE !in chunk && size > 0
    requires rest == if ends then chunk + [QUOTE] + tail else chunk + tail
    ensures |chunk| <= |body| && body == chunk + body[|chunk|..]
    ensures ends ==> body[|chunk|..] == [] && after == Some(tail)
    ensures !ends ==> Splits(tail, body[|chunk|..], after)
    ensures !ends && tail == [] ==> body[|chunk|..] == [] && after.None?
    ensures ends || |chunk| == size ==>
      Seen(body, after.Some?, size) == chunk + Seen(body[|chunk|..], after.Some?, size)
    ensures !ends && tail == [] && |chunk| < size ==> Seen(body, after.Some?, size) == []
  {
    if ends {
      SplitsIsJoined(rest, chunk, Some(tail));
      SplitIsUnique(rest, body, after, chunk, Some(tail));
    } else {
      SplitContinues(chunk, tail, body, after);
    }
    SeenFrom(chunk, body[|chunk|..], after.Some?, size);
  }

  lemma SplitTail(chunk: Bytes, later: Bytes)
    ensures BACKSLASH in chunk ==> BACKSLASH in chunk + later
  {
  }

  lemma WithoutLast(a: array<Byte>, lo: nat, hi: nat)
    requires lo < hi <= a.Length
    ensures a[lo..hi][..hi - lo - 1] == a[lo..hi - 1]
    ensures a[lo..hi - 1] + [] == a[lo..hi - 1]
  {
  }

  /** Handing out the first n pending bytes. */
  lemma HandOut(pending: Bytes, n: nat, later: Bytes)
    requires n <= |pending|
    ensures pending[..n] + (pending[n..] + later) == pending + later
    ensures BACKSLASH !in pending ==> BACKSLASH !in pending[..n] && BACKSLASH !in pending[n..]
  {
  }

  class JsonStringReader {
    const br: BufReader
    var lo: nat   // pending is br.buf[lo..hi]
    var hi: nat
    var done: bool
    ghost var pending: Bytes
    ghost var coming: Bytes          // the body bytes still in the stream
    ghost var after: Option<Bytes>   // what follows the closing quote, if there is one

    constructor (br: BufReader)
      requires br.Valid()
      ensures this.br == br && !done && Valid() && pending == []
      ensures Splits(br.rest, Undelivered(), after)
    {
      this.br, lo, hi, done := br, 0, 0, false;
      SplitExists(br.rest);
      ghost var body, tail :| Splits(br.rest, body, tail);
      pending, coming, after := [], body, tail;
      assert [] + body == body;
    }

    ghost predicate Valid()
      reads this, br, br.buf
    {
      && br.Valid() && lo <= hi <= br.buf.Length && pending == br.buf[lo..hi] && BACKSLASH !in pending
      && if done then coming == [] && after == Some(br.rest) else Splits(br.rest, coming, after)
    }

    /** The body bytes not yet handed out. */
    ghost function Undelivered(): Bytes
      reads `pending, `coming
    {
      pending + coming
    }

    /** What will be looked at of the body bytes still in the stream. */
    ghost function ToSee(): Bytes
      reads `coming, `after
      requires br.buf.Length > 0
    {
      Seen(coming, after.Some?, br.buf.Length)
    }

    /** The body bytes not yet handed out that have been looked at or will be. */
    ghost function Examined(): Bytes
      reads `pending, `coming, `after
      requires br.buf.Length > 0
    {
      pending + ToSee()
    }

    ghost function Size(): nat
      reads `pending, br`rest
    {
      |pending| + |br.rest|
    }

    /** Reads up to the next quote, or a part without one, and says where it is. */
    method ReadChunk() returns (from: nat, to: nat, e: Option<Err>, ghost chunk: Bytes)
      requires br.Valid()
      modifies br, br.buf
      ensures br.Valid() && from <= to <= br.buf.Length && chunk == br.buf[from..to] && QUOTE !in chunk
      ensures old(br.rest) == if e.None? then chunk + [QUOTE] + br.rest else chunk + br.rest
      ensures e == Some(BufferFull) ==> |chunk| == br.buf.Length
      ensures e.Some? && e != Some(BufferFull) ==> e == Some(br.endErr) && br.rest == [] && |chunk| < br.buf.Length
    {
      from, to, e, chunk := br.ReadSlice(QUOTE);
      if e.None? {
        WithoutLast(br.buf, from, to);
        assert chunk == chunk[..|chunk| - 1] + [QUOTE];
        to, chunk := to - 1, chunk[..|chunk| - 1];
      }
    }

    /** Reads the next chunk of the body, without the closing quote, and says where it is. */
    method NextChunk() returns (from: nat, to: nat, e: Option<Err>, ghost chunk: Bytes)
      requires br.Valid() && Splits(br.rest, coming, after)
      modifies this`coming, br, br.buf
      ensures br.Valid() && from <= to <= br.buf.Length && chunk == br.buf[from..to] && old(coming) == chunk + coming
      ensures |chunk| + |br.rest| <= |old(br.rest)|
      ensures e.None? ==> coming == [] && after == Some(br.rest)
      ensures e.Some? ==> Splits(br.rest, coming, after)
      ensures e == Some(BufferFull) ==> |chunk| == br.buf.Length
      ensures e.None? || e == Some(BufferFull) ==>
        old(ToSee()) == chunk + ToSee() && (BACKSLASH in chunk ==> BACKSLASH in old(ToSee()))
      ensures e.Some? && e != Some(BufferFull) ==>
        e == Some(br.endErr) && br.rest == [] && after.None? && old(ToSee()) == []
    {
      ghost var rest, left := br.rest, coming;
      from, to, e, chunk := ReadChunk();
      ChunkSplits(rest, left, after, chunk, br.rest, e.None?, br.buf.Length);
      coming := left[|chunk|..];
      SplitTail(chunk, ToSee());
      assert br.buf[from..to] == chunk;
    }

    /** Makes a chunk the pending range, unless there is a backslash in it. */
    method Accept(from: nat, to: nat, closed: bool, ghost chunk: Bytes) returns (ok: bool)
      requires br.Valid() && from <= to <= br.buf.Length && chunk == br.buf[from..to]
      requires if closed then coming == [] && after == Some(br.rest) else Splits(br.rest, coming, after)
      requires pending == [] && lo == hi <= br.buf.Length
      modifies this`lo, this`hi, this`done, this`pending
      ensures Valid() && done == closed && (ok <==> BACKSLASH !in chunk) && pending == if ok then chunk else []
    {
      done := closed;
      ok := BACKSLASH !in br.buf[from..to];
      if ok {
        lo, hi, pending := from, to, chunk;
      }
      assert br.buf[lo..hi] == pending;
    }

    /** Reads the next chunk of the body into the pending range. */
    method Refill() returns (e: Option<Err>)
      requires Valid() && pending == [] && !done
      modifies this, br, br.buf
      ensures Valid() && after == old(after) && |br.rest| <= |old(br.rest)|
      ensures e.None? ==> Undelivered() == old(coming) && Examined() == old(ToSee())
      ensures e.None? ==> Size() <= old(Size()) && (pending != [] || done)
      ensures e == Some(Escape) ==> BACKSLASH in old(ToSee())
      ensures e.Some? && e != Some(Escape) ==>
        !done && e == Some(br.endErr) && after.None? && br.rest == [] && old(ToSee()) == []
    {
      var from, to, err;
      ghost var chunk;
      from, to, err, chunk := NextChunk();
      if err.None? || err == Some(BufferFull) {
        var ok := Accept(from, to, err.None?, chunk);
        e := if ok then None else Some(Escape);
      } else {
        assert br.buf[lo..hi] == [];
        e := err;
      }
    }

    /** Copies what fits of the pending bytes. */
    method CopyPending(p: array<Byte>) returns (n: nat)
      requires Valid() && p != br.buf
      modifies p
      ensures n == (if p.Length < |pending| then p.Length else |pending|)
      ensures p[..n] == pending[..n]
    {
      n := if p.Length < hi - lo then p.Length else hi - lo;
      assert forall i :: 0 <= i < n ==> br.buf[lo + i] == pending[i];
      forall i | 0 <= i < n {
        p[i] := br.buf[lo + i];
      }
      assert forall i :: 0 <= i < n ==> p[i] == pending[i];
    }

    method Deliver(p: array<Byte>) returns (n: nat)
      requires Valid() && p != br.buf
      modifies this, p
      ensures Valid() && n == (if p.Length < |old(pending)| then p.Length else |old(pending)|)
      ensures p[..n] + Undelivered() == old(Undelivered()) && after == old(after) && BACKSLASH !in p[..n]
      ensures p[..n] + Examined() == old(Examined())
      ensures Size() + n == old(Size()) && done == old(done)
    {
      n := CopyPending(p);
      HandOut(pending, n, coming);
      HandOut(pending, n, ToSee());
      SplitSlice(br.buf, lo, lo + n, hi, []);
      lo, pending := lo + n, pending[n..];
      assert br.buf[lo..hi] == pending;
    }

    /** One read of the body into a buffer of any size. What it returns, followed by what
        is still to come, is what was to come before: nothing is skipped, repeated or
        overwritten, and what follows the body stays where it was. */
    method Read(p: array<Byte>) returns (n: nat, e: Option<Err>)
      requires Valid() && p != br.buf
      modifies this, br, br.buf, p
      ensures Valid() && n <= p.Length && |br.rest| <= |old(br.rest)|
      ensures e.None? ==> p[..n] + Undelivered() == old(Undelivered()) && after == old(after)
      ensures e.None? ==> p[..n] + Examined() == old(Examined())
      ensures e.None? ==> BACKSLASH !in p[..n] && Size() + n <= old(Size()) && (p.Length > 0 ==> n > 0)
      ensures e.Some? ==> n == 0
      ensures e == Some(Escape) ==> BACKSLASH in old(Examined())
      ensures e.Some? && e != Some(Escape) ==>
        && old(Examined()) == []
        && if done then e == Some(Eof) && old(Undelivered()) == [] && old(after) == Some(br.rest)
           else e == Some(br.endErr) && old(after).None? && br.rest == []
    {
      if p.Length == 0 {
        assert p[..0] == [];
        return 0, None;
      }
      if lo < hi {
        n := Deliver(p);
        return n, None;
      }
      if done {
        return 0, Some(Eof);
      }
      e := Refill();
      if e.Some? {
        return 0, e;
      }
      n := Deliver(p);
      if n == 0 && done {
        e := Some(Eof);
      }
    }

    /** Reads the body to its end with buffers of the given sizes. It is refused exactly
        for a backslash in what is looked at. Otherwise a closed body is read whole, the
        stream left just past its quote; and one the source cuts off is read as the whole
        buffers of it, which succeeds when the source merely ended. */
    method Drain(size: nat -> nat) returns (got: Bytes, e: Option<Err>)
      requires Valid() && forall k :: size(k) > 0
      modifies this, br, br.buf
      ensures Valid() && |br.rest| <= |old(br.rest)| && got <= old(Examined()) && BACKSLASH !in got
      ensures e == Some(Escape) <==> BACKSLASH in old(Examined())
      ensures BACKSLASH !in old(Examined()) ==> got == old(Examined())
      ensures BACKSLASH !in old(Examined()) && old(after).Some? ==> e.None? && done && old(after) == Some(br.rest)
      ensures BACKSLASH !in old(Examined()) && old(after).None? ==>
        !done && br.rest == [] && e == if br.endErr.Eof? then None else Some(br.endErr)
    {
      got := [];
      var k := 0;
      ghost var all := Examined();
      while true
        invariant Valid() && got + Examined() == all && after == old(after)
        invariant BACKSLASH !in got && |br.rest| <= |old(br.rest)|
        decreases Size()
      {
        var p := new Byte[size(k)];
        ghost var left := Examined();
        var n;
        n, e := Read(p);
        if e.Some? {
          GotAll(got, left, all);
          break;
        }
        GotMore(got, p[..n], Examined(), all);
        got := got + p[..n];
        k := k + 1;
      }
      if e == Some(Eof) {
        e := None;
      }
    }
  }

  /** A body of one byte and no closing quote drains as if it were empty. */
  method DrainCutOff(size: nat -> nat) returns (got: Bytes, e: Option<Err>, done: bool)
    requires forall k :: size(k) > 0
    ensures got == [] && e.None? && !done
  {
    var br := new BufReader(MIN_BUFFER, [[65]], Eof);
    assert [[65]][1..] == [] && br.rest == [65];
    var r := new JsonStringReader(br);
    SplitsIsJoined([65], [65], None);
    SplitIsUnique([65], r.coming, r.after, [65], None);
    got, e := r.Drain(size);
    done := r.done;
  }
}
