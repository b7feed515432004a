/**
 * The chunk locator with the refill read to where the moved tail ends
 * (`buf[rest..]`) instead of to where it began: the buffer then always holds
 * consecutive bytes of the file, and the scan finds the first occurrence of
 * the pattern wherever it lies.
 */
module LocatorFixed {
  import opened Wrappers
  import opened ClipFormat
  import opened Streams
  import opened Locator

  /**
   * The scan state as values: `buf[k]` is the file byte at `pos - bufidx + k`
   * for every `k` below `bufsize`, and the reader stands right after them.
   */
  ghost predicate ContiguousOk(data: seq<byte>, contents: seq<byte>, pos: nat, bufidx: nat, bufsize: nat,
                               eof: bool, cursor: nat)
  {
    && |contents| == BufferSize
    && bufidx <= bufsize <= BufferSize && bufidx <= pos
    && cursor == pos - bufidx + bufsize <= |data|
    && (eof ==> bufsize < ReadBlockSize && cursor == |data|)
    && (!eof && bufsize == 0 ==> pos == 0)
    && (!eof && bufsize != 0 ==> ReadBlockSize <= bufsize && (bufsize == BufferSize || cursor == |data|))
    && forall k :: 0 <= k < bufsize ==> contents[k] == data[pos - bufidx + k]
  }

  /** One refill into `buf[rest..]` keeps the buffer contiguous with the file. */
  lemma ContiguousRefill(data: seq<byte>, before: seq<byte>, after: seq<byte>,
                         pos: nat, idx: nat, bufsize: nat, cursor: nat, readSize: nat,
                         newSize: nat, newEof: bool, newCursor: nat)
    requires ContiguousOk(data, before, pos, idx, bufsize, false, cursor)
    requires readSize == Min(BufferSize - (bufsize - idx), |data| - cursor)
    requires after == Refilled(before, data, cursor, idx, bufsize - idx, bufsize - idx, readSize)
    requires newSize == bufsize - idx + readSize && newEof == (newSize < ReadBlockSize)
    requires newCursor == cursor + readSize
    ensures ContiguousOk(data, after, pos, 0, newSize, newEof, newCursor)
  {
    var rest := bufsize - idx;
    forall k | 0 <= k < newSize
      ensures after[k] == data[pos + k]
    {
      if k < rest {
        assert after[k] == before[idx + k];
      } else {
        assert after[k] == data[cursor + k - rest];
      }
    }
  }

  /** The bytes at `bufidx` are the file's 32 bytes at the current position. */
  lemma ContiguousWindow(data: seq<byte>, contents: seq<byte>, pos: nat, bufidx: nat, bufsize: nat,
                         eof: bool, cursor: nat)
    requires ContiguousOk(data, contents, pos, bufidx, bufsize, eof, cursor)
    requires bufidx + ReadBlockSize <= bufsize
    ensures pos + ReadBlockSize <= |data|
    ensures contents[bufidx..bufidx + ReadBlockSize] == data[pos..pos + ReadBlockSize]
    ensures ContiguousOk(data, contents, pos + 1, bufidx + 1, bufsize, eof, cursor)
  {
  }

  /** `Buffer` of src/clip.rs:112-119 with the corrected refill. */
  class Buffer {
    const io: FileReader
    const buf: array<byte>
    var pos: nat
    var bufidx: nat
    var bufsize: nat
    var eof: bool

    ghost predicate Valid()
      reads this, io, buf
    {
      && io.Valid()
      && buf.Length == BufferSize
      && ContiguousOk(io.data, buf[..], pos, bufidx, bufsize, eof, io.cursor)
    }

    constructor (io: FileReader)
      requires io.Valid() && io.cursor == 0
      ensures Valid() && fresh(buf) && buf[..] == seq(BufferSize, _ => 0)
      ensures this.io == io && pos == 0 && bufidx == 0 && bufsize == 0 && !eof
    {
      this.io := io;
      buf := new byte[BufferSize](_ => 0);
      pos, bufidx, bufsize, eof := 0, 0, 0, false;
    }

    /** `Buffer::next`, whose windows are now always the file's own bytes. */
    method Next() returns (r: Option<(nat, seq<byte>)>)
      requires Valid()
      modifies this, io, buf
      ensures Valid()
      ensures r.Some? ==>
                && r.value.0 == old(pos) && pos == old(pos) + 1
                && old(pos) + ReadBlockSize <= |io.data|
                && r.value.1 == io.data[old(pos)..old(pos) + ReadBlockSize]
      ensures r.None? ==> pos == old(pos) && old(pos) + ReadBlockSize > |io.data|
    {
      if bufsize == 0 && !eof {
        FirstFill();
      }

      if bufidx + ReadBlockSize > bufsize {
        if eof {
          return None;
        }
        Refill();
        if eof {
          return None;
        }
      }
      var p, window := Advance();
      r := Some((p, window));
    }

    /** The first read, into the whole buffer. */
    method FirstFill()
      requires Valid() && bufsize == 0 && !eof
      modifies this, io, buf
      ensures Valid() && pos == old(pos) && bufidx == old(bufidx)
      ensures bufsize == Min(BufferSize, |io.data|) && eof == (bufsize < ReadBlockSize)
    {
      bufsize := io.Read(buf, 0, BufferSize);
      eof := bufsize < ReadBlockSize;
    }

    /** Report the window at `bufidx` and step past it. */
    method Advance() returns (p: nat, window: seq<byte>)
      requires Valid() && bufidx + ReadBlockSize <= bufsize
      modifies this
      ensures Valid()
      ensures p == old(pos) && pos == old(pos) + 1 && bufidx == old(bufidx) + 1
      ensures bufsize == old(bufsize) && eof == old(eof)
      ensures p + ReadBlockSize <= |io.data| && window == io.data[p..p + ReadBlockSize]
    {
      var idx := bufidx;
      p := pos;
      window := buf[idx..idx + ReadBlockSize];
      ContiguousWindow(io.data, buf[..], pos, idx, bufsize, eof, io.cursor);
      bufidx := idx + 1;
      pos := pos + 1;
    }

    /** The `//move` block, reading to `buf[rest..]`. */
    method Refill()
      requires Valid() && !eof && bufsize != 0 && bufidx + ReadBlockSize > bufsize
      modifies this, io, buf
      ensures Valid() && pos == old(pos) && bufidx == 0
      ensures eof <==> pos + ReadBlockSize > |io.data|
    {
      var idx := bufidx;
      var rest := bufsize - idx;
      ghost var before := buf[..];
      ghost var cursor := io.cursor;
      var readSize := MoveAndRead(io, buf, idx, rest, rest);
      var size := rest + readSize;
      ContiguousRefill(io.data, before, buf[..], pos, idx, bufsize, cursor, readSize,
                       size, size < ReadBlockSize, io.cursor);
      bufidx, bufsize, eof := 0, size, size < ReadBlockSize;
    }
  }

  /** The first occurrence from `p` on, by whether the window at `p` holds the pattern. */
  lemma FirstOccurrenceStep(data: seq<byte>, p: nat, window: seq<byte>)
    requires p + ReadBlockSize <= |data| && window == data[p..p + ReadBlockSize]
    ensures FirstOccurrenceFrom(data, p) == if Matches(window) then Some((FromBE8(window[8..16]), p + 16))
                                            else FirstOccurrenceFrom(data, p + 1)
  {
    assert forall i :: 0 <= i < 8 ==> window[8..16][i] == data[p + 8..p + 16][i];
    assert window[8..16] == data[p + 8..p + 16];
    assert OccursAt(data, p) == Matches(window);
  }

  /** `find_sqlite` over the corrected buffer: exactly the first occurrence. */
  method FindSqlite(file: seq<byte>) returns (r: Option<(u64, nat)>)
    ensures r == FirstOccurrence(file)
  {
    var io := new FileReader(file);
    var b := new Buffer(io);
    r := Scan(b);
  }

  method Scan(b: Buffer) returns (r: Option<(u64, nat)>)
    requires b.Valid()
    modifies b, b.io, b.buf
    ensures r == FirstOccurrenceFrom(b.io.data, old(b.pos))
  {
    ghost var target := FirstOccurrenceFrom(b.io.data, b.pos);
    while true
      invariant b.Valid()
      invariant FirstOccurrenceFrom(b.io.data, b.pos) == target
      decreases |b.io.data| - b.pos
    {
      var next := b.Next();
      if next.None? {
        return None;
      }
      var (pos, window) := next.value;
      FirstOccurrenceStep(b.io.data, pos, window);
      if Matches(window) {
        return Some((FromBE8(window[|SqlChunk|..|SqlChunk| + 8]), pos + |SqlChunk| + 8));
      }
    }
  }
}
