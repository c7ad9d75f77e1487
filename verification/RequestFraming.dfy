/**
 * Request framing of the job centre: newline-delimited requests cut out of a connection whose reads
 * may be split anywhere, kept in a list of equal-capacity chunks, and read back by position.
 */
module RequestFraming {
  import opened Arith
  import opened Bytes

  // ---------- chunk lists, on values ----------

  /** All chunks but the last are full. */
  ghost predicate Shaped(size: nat, data: seq<Bytes>) {
    && size > 0
    && (forall i :: 0 <= i < |data| ==> |data[i]| <= size)
    && (forall i :: 0 <= i < |data| - 1 ==> |data[i]| == size)
  }

  function Length(size: nat, data: seq<Bytes>): nat {
    if data == [] then 0 else (|data| - 1) * size + |data[|data| - 1]|
  }

  lemma {:induction false} LengthIsFlat(size: nat, data: seq<Bytes>)
    requires Shaped(size, data)
    ensures Length(size, data) == |Flatten(data)|
  {
    if |data| == 1 {
      assert data[1..] == [];
    } else if |data| > 1 {
      var rest := data[1..];
      assert forall i :: 0 <= i < |rest| ==> rest[i] == data[i + 1];
      LengthIsFlat(size, rest);
      assert (|data| - 1) * size == size + (|rest| - 1) * size;
    }
  }

  lemma {:induction false} FullChunks(size: nat, data: seq<Bytes>)
    requires forall i :: 0 <= i < |data| ==> |data[i]| == size
    ensures |Flatten(data)| == |data| * size
  {
    if data != [] {
      FullChunks(size, data[1..]);
      assert |data| * size == size + |data[1..]| * size;
    }
  }

  /** The bytes before, in and after chunk q. */
  lemma ChunkAt(size: nat, data: seq<Bytes>, q: nat)
    requires Shaped(size, data) && q < |data|
    ensures Flatten(data) == Flatten(data[..q]) + data[q] + Flatten(data[q + 1..])
    ensures |Flatten(data[..q])| == q * size
  {
    assert data == data[..q + 1] + data[q + 1..];
    FlattenConcat(data[..q + 1], data[q + 1..]);
    assert data[..q + 1] == data[..q] + [data[q]];
    FlattenSnoc(data[..q], data[q]);
    FullChunks(size, data[..q]);
  }

  lemma MiddleTail(a: Bytes, b: Bytes, c: Bytes, r: nat)
    requires r <= |b|
    ensures (a + b + c)[|a| + r..|a| + |b|] == b[r..]
  {
  }

  /** A quotient and remainder stay within full chunks followed by a last one. */
  lemma QuotientInRange(size: nat, full: nat, last: nat, q: nat, r: nat)
    requires last <= size && r < size && q * size + r < full * size + last
    ensures q <= full
    ensures q == full ==> r < last
  {
    if q > full {
      MulMono(full + 1, q, size);
    }
    assert (full + 1) * size == full * size + size;
  }

  lemma DivMod(pos: nat, size: nat)
    requires size > 0
    ensures pos == (pos / size) * size + pos % size && pos % size < size
  {
  }

  /** Position q * size + r lies in chunk q at offset r. */
  lemma SlotOf(size: nat, data: seq<Bytes>, pos: nat, q: nat, r: nat)
    requires Shaped(size, data) && pos == q * size + r < |Flatten(data)| && r < size
    ensures q < |data| && r < |data[q]|
    ensures var tail := data[q][r..]; pos + |tail| <= |Flatten(data)| && tail == Flatten(data)[pos..pos + |tail|]
  {
    LengthIsFlat(size, data);
    QuotientInRange(size, |data| - 1, |data[|data| - 1]|, q, r);
    ChunkAt(size, data, q);
    MiddleTail(Flatten(data[..q]), data[q], Flatten(data[q + 1..]), r);
  }

  // ---------- the connection ----------

  /** What the reads of the connection will deliver, one element at a time; then it ends. */
  class Conn {
    var chunks: seq<Bytes>

    function Unread(): Bytes
      reads this
    {
      Flatten(chunks)
    }

    constructor (chunks: seq<Bytes>)
      ensures this.chunks == chunks
    {
      this.chunks := chunks;
    }

    /** Up to `size` bytes of the next delivery, possibly none; not ok at the end. */
    method Read(size: nat) returns (data: Bytes, ok: bool)
      requires size > 0
      modifies this
      ensures ok <==> old(chunks) != []
      ensures ok ==> |data| <= size && data + Unread() == old(Unread())
      ensures ok ==> |Unread()| + |chunks| < |old(Unread())| + |old(chunks)|
      ensures !ok ==> data == [] && chunks == []
    {
      if chunks == [] {
        return [], false;
      }
      var c, rest := chunks[0], chunks[1..];
      if |c| <= size {
        chunks := rest;
        return c, true;
      }
      data := c[..size];
      chunks := [c[size..]] + rest;
      assert chunks[1..] == rest;
      ConcatAssoc(data, c[size..], Flatten(rest));
      return data, true;
    }
  }

  // ---------- the request buffer ----------

  const SEEK_START := 0

  datatype SeekResult = SeekOk(n: nat) | SeekFailed | SeekPanic

  class RequestBuffer {
    const size: nat          // the capacity of every chunk
    var data: seq<Bytes>
    var pos: nat
    var closed: bool

    ghost predicate Valid()
      reads this
    {
      Shaped(size, data)
    }

    function Flat(): Bytes
      reads this
    {
      Flatten(data)
    }

    constructor (size: nat)
      requires size > 0
      ensures Valid() && this.size == size && data == [] && pos == 0 && !closed
    {
      this.size := size;
      data, pos, closed := [], 0, false;
    }

    method Len() returns (n: nat)
      requires Valid()
      ensures n == |Flat()|
    {
      LengthIsFlat(size, data);
      if |data| == 0 {
        return 0;
      }
      n := (|data| - 1) * size + |data[|data| - 1]|;
    }

    /** Copies as much as fits into the last chunk, after starting a new one if that is full. */
    method Fill(bytes: Bytes) returns (n: nat)
      requires Valid() && data != [] && bytes != []
      modifies this`data
      ensures Valid() && data != [] && 0 < n <= |bytes| && Flat() == old(Flat()) + bytes[..n]
    {
      if |data[|data| - 1]| == size {
        FlattenSnoc(data, []);
        data := data + [[]];
        assert old(Flat()) + [] == old(Flat());
      }
      var init, last := data[..|data| - 1], data[|data| - 1];
      assert data == init + [last];
      n := Min(size - |last|, |bytes|);
      FlattenSnoc(init, last);
      FlattenSnoc(init, last + bytes[..n]);
      ConcatAssoc(Flatten(init), last, bytes[..n]);
      data := init + [last + bytes[..n]];
    }

    /** Stores the bytes chunk by chunk. */
    method Append(bytes: Bytes)
      requires Valid()
      modifies this`data
      ensures Valid() && data != [] && Flat() == old(Flat()) + bytes
    {
      if data == [] {
        data := [[]];
      }
      var rest := bytes;
      assert [] + rest == rest;
      while rest != []
        invariant Valid() && data != [] && Flat() + rest == old(Flat()) + bytes
        decreases |rest|
      {
        var n := Fill(rest);
        rest := rest[n..];
      }
    }

    /** From the start only: moves back there whatever the offset, and reports the position it left. */
    method Seek(offset: int, whence: int) returns (r: SeekResult)
      requires Valid()
      modifies this`pos
      ensures closed ==> r == SeekFailed && pos == old(pos)
      ensures !closed && data == [] ==> r == SeekPanic && pos == old(pos)
      ensures !closed && data != [] ==>
        if whence != SEEK_START then r == SeekFailed && pos == old(pos)
        else if offset < 0 then r == SeekOk(0) && pos == old(pos)
        else if offset >= |Flat()| then r == SeekFailed && pos == old(pos)
        else r == SeekOk(old(pos)) && pos == 0
    {
      if closed {
        return SeekFailed;
      }
      if data == [] {
        return SeekPanic;
      }
      LengthIsFlat(size, data);
      var maxSize := (|data| - 1) * size + |data[|data| - 1]|;
      if whence != SEEK_START {
        return SeekFailed;
      }
      if offset < 0 {
        return SeekOk(0);
      }
      if offset >= maxSize {
        return SeekFailed;
      }
      r := SeekOk(pos);
      pos := 0;
    }

    /** The rest of the chunk that holds position `at`. */
    method TailAt(at: nat) returns (tail: Bytes)
      requires Valid() && at < |Flat()|
      ensures tail != [] && at + |tail| <= |Flat()| && tail == Flat()[at..at + |tail|]
    {
      var q, r := at / size, at % size;
      DivMod(at, size);
      SlotOf(size, data, at, q, r);
      tail := data[q][r..];
    }

    /** Copies from the current position on; not ok when closed or at the end. */
    method Read(p: array<Byte>) returns (n: nat, ok: bool)
      requires Valid()
      modifies this`pos, p
      ensures ok <==> !closed && old(pos) < |Flat()|
      ensures n == if ok then Min(p.Length, |Flat()| - old(pos)) else 0
      ensures pos == old(pos) + n
      ensures ok ==> p[..n] == Flat()[old(pos)..old(pos) + n]
      ensures p[n..] == old(p[n..])
    {
      n := 0;
      if closed || |data| <= 0 {
        return 0, false;
      }
      LengthIsFlat(size, data);
      var maxSize := (|data| - 1) * size + |data[|data| - 1]|;
      if pos >= maxSize {
        return 0, false;
      }
      ghost var flat, start := Flat(), pos;
      while n < p.Length && pos < maxSize
        invariant n <= p.Length && pos == start + n <= maxSize == |flat|
        invariant p[..n] == flat[start..start + n]
        invariant p[n..] == old(p[n..])
        decreases p.Length - n
      {
        var tail := TailAt(pos);
        var copied := Min(p.Length - n, |tail|);
        CopyInto(p, n, tail[..copied]);
        SliceExtends(flat, start, n, tail, copied);
        n := n + copied;
        pos := pos + copied;
      }
      ok := true;
    }
  }

  lemma SliceExtends(flat: Bytes, start: nat, n: nat, tail: Bytes, copied: nat)
    requires copied <= |tail| && start + n + |tail| <= |flat| && tail == flat[start + n..start + n + |tail|]
    ensures flat[start..start + n] + tail[..copied] == flat[start..start + n + copied]
  {
  }

  /** The built-in copy into a slice. */
  method CopyInto(p: array<Byte>, at: nat, bytes: Bytes)
    requires at + |bytes| <= p.Length
    modifies p
    ensures p[..at + |bytes|] == old(p[..at]) + bytes && p[at + |bytes|..] == old(p[at + |bytes|..])
  {
    forall i | 0 <= i < |bytes| {
      p[at + i] := bytes[i];
    }
  }

  // ---------- framing ----------

  method FindNewline(buf: Bytes) returns (idx: int)
    ensures -1 <= idx < |buf|
    ensures idx == -1 ==> NEWLINE !in buf
    ensures idx >= 0 ==> buf[idx] == NEWLINE && NEWLINE !in buf[..idx]
  {
    for i := 0 to |buf|
      invariant NEWLINE !in buf[..i]
    {
      if buf[i] == NEWLINE {
        return i;
      }
    }
    assert buf[..|buf|] == buf;
    return -1;
  }

  /** The next piece of input: what the previous request left over, or else a read. */
  method NextInput(conn: Conn, bufSize: nat, prev: Bytes) returns (buf: Bytes, ok: bool)
    requires bufSize > 0 && |prev| <= bufSize
    modifies conn
    ensures |buf| <= bufSize && buf + conn.Unread() == prev + old(conn.Unread())
    ensures ok ==> |conn.Unread()| + |conn.chunks| <= |old(conn.Unread())| + |old(conn.chunks)|
    ensures ok && prev == [] ==> |conn.Unread()| + |conn.chunks| < |old(conn.Unread())| + |old(conn.chunks)|
    ensures !ok ==> prev == [] && old(conn.Unread()) == []
  {
    if |prev| > 0 {
      return prev, true;
    }
    buf, ok := conn.Read(bufSize);
    assert prev + old(conn.Unread()) == old(conn.Unread());
  }

  lemma FoundNewline(flat: Bytes, buf: Bytes, idx: nat, unread: Bytes)
    requires idx < |buf| && buf[idx] == NEWLINE
    ensures flat + buf + unread == (flat + buf[..idx]) + [NEWLINE] + buf[idx + 1..] + unread
  {
    assert buf == buf[..idx] + [NEWLINE] + buf[idx + 1..];
  }

  /**
   * Reads up to and including the next newline.  The request, the newline, the rest handed to the
   * next call and the bytes still unread are exactly what there was; it fails when no newline comes.
   */
  method NextRequest(conn: Conn, bufSize: nat, cur: RequestBuffer, prevBuf: Bytes) returns (restBuf: Bytes, ok: bool)
    requires bufSize > 0 && |prevBuf| <= bufSize && cur.Valid() && cur.size == bufSize && cur.data == []
    modifies conn, cur`data
    ensures ok ==>
      && cur.Valid() && cur.data != [] && |restBuf| <= bufSize && NEWLINE !in cur.Flat()
      && prevBuf + old(conn.Unread()) == cur.Flat() + [NEWLINE] + restBuf + conn.Unread()
    ensures !ok ==> restBuf == [] && NEWLINE !in prevBuf + old(conn.Unread())
  {
    var prev := prevBuf;
    ghost var total := prevBuf + old(conn.Unread());
    while true
      invariant cur.Valid() && NEWLINE !in cur.Flat() && |prev| <= bufSize
      invariant cur.Flat() + prev + conn.Unread() == total
      decreases |conn.Unread()| + |conn.chunks| + (if prev == [] then 0 else 1)
    {
      ghost var flat, unread := cur.Flat(), conn.Unread();
      var buf, more := NextInput(conn, bufSize, prev);
      ConcatAssoc(flat, prev, unread);
      ConcatAssoc(flat, buf, conn.Unread());
      if !more {
        assert flat + [] + [] == flat;
        return [], false;
      }
      prev := [];
      if |buf| == 0 {
        assert flat + [] + conn.Unread() == flat + buf + conn.Unread();
        continue;
      }
      var idx := FindNewline(buf);
      if idx != -1 {
        FoundNewline(flat, buf, idx, conn.Unread());
        cur.Append(buf[..idx]);
        return buf[idx + 1..], true;
      }
      cur.Append(buf);
      assert cur.Flat() + [] == cur.Flat();
    }
  }

  lemma NextLine(request: Bytes, rest: Bytes, unread: Bytes)
    requires NEWLINE !in request
    ensures Lines(request + [NEWLINE] + rest + unread) == [request] + Lines(rest + unread)
  {
    ConcatAssoc(request + [NEWLINE], rest, unread);
    LinesFirst(request, rest + unread);
  }

  /** The request loop of a connection: however its reads are cut, the requests are the lines it carries. */
  method ReadRequests(conn: Conn, bufSize: nat) returns (requests: seq<Bytes>)
    requires bufSize > 0
    modifies conn
    ensures requests == Lines(old(conn.Unread()))
  {
    requests := [];
    var prevBuf: Bytes := [];
    assert [] + conn.Unread() == conn.Unread();
    while true
      invariant |prevBuf| <= bufSize && requests + Lines(prevBuf + conn.Unread()) == Lines(old(conn.Unread()))
      decreases |prevBuf| + |conn.Unread()|
    {
      ghost var before := prevBuf + conn.Unread();
      var rb := new RequestBuffer(bufSize);
      var restBuf, ok := NextRequest(conn, bufSize, rb, prevBuf);
      if !ok {
        LinesNone(before);
        return;
      }
      NextLine(rb.Flat(), restBuf, conn.Unread());
      ConcatAssoc(requests, [rb.Flat()], Lines(restBuf + conn.Unread()));
      requests := requests + [rb.Flat()];
      prevBuf := restBuf;
    }
  }

  /** A request is decoded twice: once for its kind and, after moving back to the start, once in full. */
  method DecodeTwice(rb: RequestBuffer, p: array<Byte>, q: array<Byte>)
    requires rb.Valid() && !rb.closed && rb.pos == 0 && rb.Flat() != []
    requires p != q && p.Length >= |rb.Flat()| && q.Length >= |rb.Flat()|
    modifies rb`pos, p, q
    ensures p[..|rb.Flat()|] == q[..|rb.Flat()|] == rb.Flat() && rb.pos == |rb.Flat()|
  {
    var n, _ := rb.Read(p);
    assert rb.Flat()[0..|rb.Flat()|] == rb.Flat();
    assert rb.data != [];
    var _ := rb.Seek(0, SEEK_START);
    var m, _ := rb.Read(q);
  }
}
