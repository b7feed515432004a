/**
 * The streaming chunk locator of src/clip.rs:110-210: a 1024-byte window
 * buffer over the file and `find_sqlite`, which slides a 32-byte pattern
 * check over it.
 *
 * The refill of `Buffer::next` moves the 31 unread tail bytes to the front
 * of the buffer but then reads the new bytes to where the tail used to start
 * (`buf[idx..]`) rather than after the moved tail.  The model keeps this, and
 * `Origin` says, for every reported position and every byte of its window,
 * which byte of the file ends up there.
 */
module Locator {
  import opened Wrappers
  import opened ClipFormat
  import opened Streams

  const BufferSize: nat := 1024
  const ReadBlockSize: nat := SqlHeaderTotalSize

  /** The 32-byte pattern: the chunk marker, eight length bytes of any value, the SQLite header. */
  predicate Matches(window: seq<byte>)
    requires |window| == ReadBlockSize
  {
    window[..|SqlChunk|] == SqlChunk && window[|SqlChunk| + 8..] == SqlHeader
  }

  /**
   * The windows passed to the pattern check are the file's own bytes exactly
   * at these positions: the whole first fill, and afterwards the positions whose
   * offset in the buffer is at least 31 (see `OriginExact`).
   */
  predicate Exact(p: nat)
  {
    p < 993 || (p - 993) % 1024 >= 62
  }

  /**
   * The file offset of byte `i` of the window that the scan reports at
   * position `p`.  Past the first fill, the arithmetic follows the two kinds of
   * refill that alternate: after a full buffer the front 31 bytes are the unread
   * tail and the next 31 are left over from the previous fill; after the short
   * buffer that follows, the front 31 bytes are left over, and the rest is new.
   */
  function Origin(p: nat, i: nat): (o: nat)
    requires i < ReadBlockSize
    ensures o <= p + i
  {
    if p < 993 then p + i
    else
      var m, j := (p - 993) / 1024, (p - 993) % 1024;
      if j < 31 then
        (if j + i < 31 then p + i else 1024 * m + j + i)
      else
        (if j - 31 + i < 31 then 1024 * m + j + i else p + i)
  }

  /** The window the scan checks at position `p`. */
  function WindowAt(data: seq<byte>, p: nat): (w: seq<byte>)
    requires p + ReadBlockSize <= |data|
    ensures |w| == ReadBlockSize
  {
    seq(ReadBlockSize, i requires 0 <= i < ReadBlockSize => data[Origin(p, i)])
  }

  /** What `find_sqlite` returns when it starts checking at position `p`. */
  function FirstMatchFrom(data: seq<byte>, p: nat): Option<(u64, nat)>
    decreases |data| - p
  {
    if p + ReadBlockSize > |data| then None
    else if HitAt(data, p) then Some((FromBE8(WindowAt(data, p)[8..16]), p + 16))
    else FirstMatchFrom(data, p + 1)
  }

  /** The window the scan checks at `p` is the pattern. */
  predicate HitAt(data: seq<byte>, p: nat)
    requires p + ReadBlockSize <= |data|
  {
    Matches(WindowAt(data, p))
  }

  function FirstMatch(data: seq<byte>): Option<(u64, nat)>
  {
    FirstMatchFrom(data, 0)
  }

  /**
   * The reference the scan is measured against: the first offset at which the
   * file itself holds the 32-byte pattern, with the length field read there.
   */
  function FirstOccurrenceFrom(data: seq<byte>, p: nat): Option<(u64, nat)>
    decreases |data| - p
  {
    if p + ReadBlockSize > |data| then None
    else if OccursAt(data, p) then Some((FromBE8(data[p + 8..p + 16]), p + 16))
    else FirstOccurrenceFrom(data, p + 1)
  }

  /** The file's own 32 bytes at `p` are the pattern. */
  predicate OccursAt(data: seq<byte>, p: nat)
    requires p + ReadBlockSize <= |data|
  {
    Matches(data[p..p + ReadBlockSize])
  }

  function FirstOccurrence(data: seq<byte>): Option<(u64, nat)>
  {
    FirstOccurrenceFrom(data, 0)
  }

  /**
   * A reported result names a window that matches, reads the length from
   * its bytes 8..16, and no earlier window checked matched.
   */
  lemma {:induction false} FirstMatchFound(data: seq<byte>, p: nat, size: u64, q: nat)
    requires FirstMatchFrom(data, p) == Some((size, q))
    ensures p + 16 <= q && q + 16 <= |data|
    ensures HitAt(data, q - 16) && size == FromBE8(WindowAt(data, q - 16)[8..16])
    ensures forall r :: p <= r < q - 16 ==> !HitAt(data, r)
    decreases |data| - p
  {
    if !HitAt(data, p) {
      FirstMatchFound(data, p + 1, size, q);
    }
  }

  /** `None` means that no window checked from `p` on matched. */
  lemma {:induction false} FirstMatchNone(data: seq<byte>, p: nat)
    requires FirstMatchFrom(data, p).None?
    ensures forall r :: p <= r && r + ReadBlockSize <= |data| ==> !HitAt(data, r)
    decreases |data| - p
  {
    if p + ReadBlockSize <= |data| {
      FirstMatchNone(data, p + 1);
    }
  }

  /**
   * What `find_sqlite` promises its caller: the chunk marker at `q - 16`, the
   * SQLite header at `q`, and the length between them, whenever the window
   * there is the file's own bytes (always so within the first 993 offsets).
   */
  lemma FoundInFile(data: seq<byte>, size: u64, q: nat)
    requires FirstMatch(data) == Some((size, q)) && 16 <= q && Exact(q - 16)
    ensures 16 <= q && q + 16 <= |data|
    ensures data[q - 16..q - 8] == SqlChunk && data[q..q + 16] == SqlHeader
    ensures size == FromBE8(data[q - 8..q])
  {
    FirstMatchFound(data, 0, size, q);
    WindowAtExact(data, q - 16);
    assert data[q - 16..q + 16][..8] == data[q - 16..q - 8];
    assert data[q - 16..q + 16][8..16] == data[q - 8..q];
    assert data[q - 16..q + 16][16..] == data[q..q + 16];
  }

  /** While every position checked is exact, the scan agrees with the reference. */
  lemma {:induction false} AgreeWhileExact(data: seq<byte>, p: nat, size: u64, q: nat)
    requires FirstOccurrenceFrom(data, p) == Some((size, q))
    requires forall r :: p <= r <= q - 16 ==> Exact(r)
    ensures FirstMatchFrom(data, p) == Some((size, q))
    decreases |data| - p
  {
    FirstOccurrenceFound(data, p, size, q);
    WindowAtExact(data, p);
    assert data[p..p + ReadBlockSize][8..16] == data[p + 8..p + 16];
    if !OccursAt(data, p) {
      AgreeWhileExact(data, p + 1, size, q);
    }
  }

  /** With no occurrence from `p` on and every position from `p` on exact, the scan reports none either. */
  lemma {:induction false} AgreeNoneWhileExact(data: seq<byte>, p: nat)
    requires FirstOccurrenceFrom(data, p).None?
    requires forall r :: p <= r && r + ReadBlockSize <= |data| ==> Exact(r)
    ensures FirstMatchFrom(data, p).None?
    decreases |data| - p
  {
    if p + ReadBlockSize <= |data| {
      WindowAtExact(data, p);
      AgreeNoneWhileExact(data, p + 1);
    }
  }

  /**
   * Within the first fill the scan is complete: an occurrence that starts
   * before offset 993 is the one reported, and a file that fits the first fill
   * is scanned exactly.
   */
  lemma FirstFillComplete(data: seq<byte>)
    ensures (FirstOccurrence(data).Some? && FirstOccurrence(data).value.1 - 16 < 993) ||
            |data| <= BufferSize
            ==> FirstMatch(data) == FirstOccurrence(data)
  {
    match FirstOccurrence(data)
    case Some((size, q)) =>
      FirstOccurrenceFound(data, 0, size, q);
      if q - 16 < 993 || |data| <= BufferSize {
        AgreeWhileExact(data, 0, size, q);
      }
    case None =>
      if |data| <= BufferSize {
        AgreeNoneWhileExact(data, 0);
      }
  }

  lemma {:induction false} FirstOccurrenceFound(data: seq<byte>, p: nat, size: u64, q: nat)
    requires FirstOccurrenceFrom(data, p) == Some((size, q))
    ensures p + 16 <= q && q + 16 <= |data|
    ensures OccursAt(data, q - 16) && size == FromBE8(data[q - 8..q])
    ensures forall r :: p <= r < q - 16 ==> !OccursAt(data, r)
    decreases |data| - p
  {
    if !OccursAt(data, p) {
      FirstOccurrenceFound(data, p + 1, size, q);
    }
  }

  /**
   * A 1025-byte file whose only occurrence of the pattern is its last 32
   * bytes, from offset 993, across the end of the first buffer; the length
   * field there is zero, and byte 31 is 1 (every other byte is zero).
   */
  function StraddleFile(): (f: seq<byte>)
    ensures |f| == 1025
  {
    var pattern := SqlChunk + ZeroBytes(8) + SqlHeader;
    seq(1025, i requires 0 <= i < 1025 => if i >= 993 then pattern[i - 993] else if i == 31 then 1 else 0)
  }

  function ZeroBytes(n: nat): (z: seq<byte>)
    ensures |z| == n && forall i :: 0 <= i < n ==> z[i] == 0
  {
    seq(n, _ => 0)
  }

  lemma {:induction false} FromBigEndianZeros(n: nat)
    ensures FromBigEndian(ZeroBytes(n)) == 0
  {
    if n > 0 {
      assert ZeroBytes(n)[..n - 1] == ZeroBytes(n - 1);
      FromBigEndianZeros(n - 1);
    }
  }

  /**
   * As written, the scan misses the pattern at offset 993 of `StraddleFile`:
   * the window it checks there takes its byte 31 from offset 31, which was
   * left in the buffer, instead of from offset 1024, which was read to index
   * 993 after the tail move.
   */
  lemma StraddlingPatternMissed()
    ensures FirstOccurrence(StraddleFile()) == Some((0, 1009))
    ensures FirstMatch(StraddleFile()).None?
  {
    var f := StraddleFile();
    assert f[993..1025] == SqlChunk + ZeroBytes(8) + SqlHeader;
    assert f[1001..1009] == ZeroBytes(8);
    FromBigEndianZeros(8);
    assert OccursAt(f, 993);
    assert WindowAt(f, 993)[31] == f[31] == 1;
    assert !HitAt(f, 993);
    StraddleScanFrom(f, 0);
  }

  /**
   * A 1025-byte file that holds the first 31 bytes of the pattern from offset
   * 993 on, with a zero length field, and 1 instead of the header's closing
   * zero at offset 1024 (every other byte is zero).  The file does not hold
   * the pattern anywhere.
   */
  function FalseHitFile(): (f: seq<byte>)
    ensures |f| == 1025
  {
    var pattern := SqlChunk + ZeroBytes(8) + SqlHeader;
    seq(1025, i requires 0 <= i < 1025 => if i == 1024 then 1 else if i >= 993 then pattern[i - 993] else 0)
  }

  /**
   * As written, the scan also reports a pattern the file does not hold: the
   * window it checks at offset 993 takes its byte 31 from the zero left at
   * offset 31 of the buffer, not from the 1 at offset 1024 of the file.
   */
  lemma StraddlingPatternInvented()
    ensures FirstOccurrence(FalseHitFile()).None?
    ensures FirstMatch(FalseHitFile()) == Some((0, 1009))
  {
    var f := FalseHitFile();
    var pattern := SqlChunk + ZeroBytes(8) + SqlHeader;
    assert f[993..1024] == pattern[..31];
    assert f[1024] == 1 != pattern[31];
    assert !OccursAt(f, 993);
    assert WindowAt(f, 993) == pattern;
    assert WindowAt(f, 993)[8..16] == ZeroBytes(8);
    FromBigEndianZeros(8);
    assert HitAt(f, 993);
    StraddleScanFrom(f, 0);
  }

  /**
   * Before offset 993, a 1025-byte file whose bytes there cannot start the
   * pattern gives neither a match nor an occurrence: both scans go on to 993.
   */
  lemma {:induction false} StraddleScanFrom(f: seq<byte>, p: nat)
    requires |f| == 1025 && p <= 993
    requires forall i :: p <= i < 993 ==> f[i] != SqlChunk[0]
    ensures FirstOccurrenceFrom(f, p) == FirstOccurrenceFrom(f, 993)
    ensures FirstMatchFrom(f, p) == FirstMatchFrom(f, 993)
    decreases 993 - p
  {
    if p < 993 {
      assert f[p..p + ReadBlockSize][0] == f[p] != SqlChunk[0];
      assert WindowAt(f, p)[0] == f[p];
      StraddleScanFrom(f, p + 1);
    }
  }

  /** One step of the scan, as `find_sqlite`'s loop takes it. */
  lemma FirstMatchStep(data: seq<byte>, p: nat)
    requires p + ReadBlockSize <= |data|
    ensures var w := WindowAt(data, p);
            FirstMatchFrom(data, p) == if Matches(w) then Some((FromBE8(w[8..16]), p + 16))
                                       else FirstMatchFrom(data, p + 1)
  {
  }

  /**
   * The refills alternate between a full buffer (`short` false) and a short
   * one of at most 62 bytes (`short` true); `m` counts the full buffers after
   * the first.  This is the file offset at which a phase puts buffer index 0.
   */
  function PhaseBase(m: nat, short: bool): nat
  {
    1024 * m + if short then 993 else 0
  }

  /** The file offset of what sits at index `k` of the buffer (below `bufsize`) in a phase. */
  function BufOrigin(m: nat, short: bool, k: nat): nat
  {
    if short then (if k < 31 then 1024 * m + 993 + k else 1024 * m + k)
    else if m == 0 then k
    else (if k < 31 then 1024 * (m - 1) + 31 + k else 1024 * m + k)
  }

  lemma DivMod1024(x: nat, q: nat, r: nat)
    requires x == 1024 * q + r && r < 1024
    ensures x / 1024 == q && x % 1024 == r
  {
  }

  /** What the buffer holds at `bufidx + i` is the `i`-th byte of the window at `pos`. */
  lemma WindowOrigin(m: nat, short: bool, bufidx: nat, i: nat)
    requires i < ReadBlockSize
    requires if short then bufidx <= 30 else bufidx <= 992
    ensures BufOrigin(m, short, bufidx + i) == Origin(PhaseBase(m, short) + bufidx, i)
  {
    var p := PhaseBase(m, short) + bufidx;
    if short {
      DivMod1024(p - 993, m, bufidx);
    } else if m > 0 {
      DivMod1024(p - 993, m - 1, bufidx + 31);
    }
  }

  /** The window at `p` is the file's own 32 bytes there exactly when `Exact(p)`. */
  lemma OriginExact(p: nat)
    ensures Exact(p) <==> forall i :: 0 <= i < ReadBlockSize ==> Origin(p, i) == p + i
  {
    if p >= 993 {
      var j := (p - 993) % 1024;
      var m := (p - 993) / 1024;
      assert p == 993 + 1024 * m + j;
      if j < 31 {
        assert Origin(p, 31 - j) != p + 31 - j;
      } else if j < 62 {
        assert Origin(p, 0) != p;
      }
    }
  }

  lemma WindowAtExact(data: seq<byte>, p: nat)
    requires p + ReadBlockSize <= |data| && Exact(p)
    ensures WindowAt(data, p) == data[p..p + ReadBlockSize]
  {
    OriginExact(p);
  }

  /**
   * The scan state of `Buffer` as values: `contents` is the buffer, `cursor`
   * how far the reader has read, and `m`/`short` the refill phase.
   */
  ghost predicate StateOk(data: seq<byte>, contents: seq<byte>, pos: nat, bufidx: nat, bufsize: nat,
                          eof: bool, cursor: nat, m: nat, short: bool)
  {
    && |contents| == BufferSize
    && cursor <= |data|
    && bufidx <= bufsize <= BufferSize
    && (eof ==> bufsize < ReadBlockSize && pos + ReadBlockSize - 1 >= |data|)
    && (!eof && bufsize == 0 ==> pos == 0 && bufidx == 0 && m == 0 && !short && cursor == 0)
    && (!eof && bufsize != 0 ==> Filled(data, contents, pos, bufidx, bufsize, cursor, m, short))
  }

  /** The state between two refills, with the buffer contents tied to the file. */
  ghost predicate Filled(data: seq<byte>, contents: seq<byte>, pos: nat, bufidx: nat, bufsize: nat,
                         cursor: nat, m: nat, short: bool)
  {
    && ReadBlockSize <= bufsize <= |contents|
    && bufidx + ReadBlockSize - 1 <= bufsize
    && pos == PhaseBase(m, short) + bufidx
    && cursor == PhaseBase(m, short) + bufsize
    && cursor <= |data|
    && (if short then bufsize <= 62 && (bufsize == 62 || cursor == |data|)
        else bufsize == BufferSize || cursor == |data|)
    && forall k :: 0 <= k < bufsize ==>
         BufOrigin(m, short, k) < |data| && contents[k] == data[BufOrigin(m, short, k)]
  }

  /** The first read puts the file's first bytes at the front of the buffer. */
  lemma FirstFillStep(data: seq<byte>, before: seq<byte>, after: seq<byte>, bufsize: nat)
    requires StateOk(data, before, 0, 0, 0, false, 0, 0, false)
    requires bufsize == Min(BufferSize, |data|) && |after| == BufferSize
    requires forall k :: 0 <= k < bufsize ==> after[k] == data[k]
    ensures StateOk(data, after, 0, 0, bufsize, bufsize < ReadBlockSize, bufsize, 0, false)
  {
  }

  /**
   * The buffer after the `rest` bytes at `idx` have been moved to the front
   * and `readSize` file bytes from `cursor` on have been read to `at`; the old
   * contents everywhere else.
   */
  function Refilled(before: seq<byte>, data: seq<byte>, cursor: nat, idx: nat, rest: nat,
                    at: nat, readSize: nat): (after: seq<byte>)
    requires |before| == BufferSize && idx + rest <= BufferSize
    requires at + readSize <= BufferSize && cursor + readSize <= |data|
    ensures |after| == BufferSize
  {
    seq(BufferSize, k requires 0 <= k < BufferSize =>
      if at <= k < at + readSize then data[cursor + k - at]
      else if k < rest then before[idx + k]
      else before[k])
  }

  /** Copy the `rest` bytes at `idx` to the front of `buf`, one at a time. */
  method MoveToFront(buf: array<byte>, idx: nat, rest: nat)
    requires idx + rest <= buf.Length
    modifies buf
    ensures forall k :: 0 <= k < rest ==> buf[k] == old(buf[idx + k])
    ensures forall k :: rest <= k < buf.Length ==> buf[k] == old(buf[k])
  {
    for i := 0 to rest
      invariant forall k :: 0 <= k < i ==> buf[k] == old(buf[idx + k])
      invariant forall k :: i <= k < buf.Length ==> buf[k] == old(buf[k])
    {
      buf[i] := buf[idx + i];
    }
  }

  /** The tail move and the read into `buf[at..]` that follows it. */
  method MoveAndRead(io: FileReader, buf: array<byte>, idx: nat, rest: nat, at: nat) returns (readSize: nat)
    requires io.Valid() && buf.Length == BufferSize && idx + rest <= BufferSize && at <= BufferSize
    modifies io, buf
    ensures io.Valid() && io.cursor == old(io.cursor) + readSize
    ensures readSize == Min(BufferSize - at, |io.data| - old(io.cursor))
    ensures buf[..] == Refilled(old(buf[..]), io.data, old(io.cursor), idx, rest, at, readSize)
  {
    ghost var before := buf[..];
    ghost var cursor := io.cursor;
    MoveToFront(buf, idx, rest);
    ghost var moved := buf[..];
    readSize := io.Read(buf, at, BufferSize - at);
    forall k | 0 <= k < BufferSize
      ensures buf[k] == Refilled(before, io.data, cursor, idx, rest, at, readSize)[k]
    {
      assert moved[k] == if k < rest then before[idx + k] else before[k];
    }
  }

  /**
   * One refill as written, with the read into `buf[idx..]`: the buffer
   * contents, the counters and the phase afterwards.
   */
  lemma RefillStep(data: seq<byte>, before: seq<byte>, after: seq<byte>,
                   pos: nat, idx: nat, bufsize: nat, cursor: nat, readSize: nat, m: nat, short: bool,
                   newIdx: nat, newSize: nat, newEof: bool, newCursor: nat, newM: nat, newShort: bool)
    requires StateOk(data, before, pos, idx, bufsize, false, cursor, m, short)
    requires bufsize != 0 && idx + ReadBlockSize > bufsize
    requires readSize == Min(BufferSize - idx, |data| - cursor)
    requires after == Refilled(before, data, cursor, idx, bufsize - idx, idx, readSize)
    requires newIdx == 0 && newSize == bufsize - idx + readSize && newEof == (newSize < ReadBlockSize)
    requires newCursor == cursor + readSize
    requires newM == (if short then m + 1 else m) && newShort == !short
    ensures StateOk(data, after, pos, newIdx, newSize, newEof, newCursor, newM, newShort)
  {
    if cursor < |data| {
      assert readSize > 0;
      if short {
        assert idx == 31 && bufsize == 62;
        assert forall k :: 0 <= k < 31 ==> after[k] == before[31 + k];
        forall k | 31 <= k < 31 + readSize ensures after[k] == data[1024 * (m + 1) + k] {
          assert cursor + k - idx == 1024 * (m + 1) + k;
        }
        RefillAfterShort(data, before, after, m + 1, readSize);
      } else {
        assert idx == 993 && bufsize == BufferSize;
        assert forall k :: 0 <= k < 31 ==> after[k] == before[993 + k];
        assert forall k :: 31 <= k < 62 ==> after[k] == before[k];
        RefillAfterFull(data, before, after, m, readSize);
      }
      assert PhaseBase(if short then m + 1 else m, !short) == pos;
    }
  }

  /**
   * The scan state of src/clip.rs:112-119.  The ghost fields `m` and `short`
   * name the refill phase; they only serve to say which file bytes are in `buf`.
   */
  class Buffer {
    const io: FileReader
    const buf: array<byte>
    var pos: nat
    var bufidx: nat
    var bufsize: nat
    var eof: bool
    ghost var m: nat
    ghost var short: bool

    ghost predicate Valid()
      reads this, io, buf
    {
      && io.Valid()
      && buf.Length == BufferSize
      && StateOk(io.data, buf[..], pos, bufidx, bufsize, eof, io.cursor, m, short)
    }

    /** `Buffer::new`, with the zeroed buffer. */
    constructor (io: FileReader)
      requires io.Valid() && io.cursor == 0
      ensures Valid() && fresh(buf) && buf[..] == seq(BufferSize, _ => 0)
      ensures this.io == io && pos == 0 && bufidx == 0 && bufsize == 0 && !eof
    {
      this.io := io;
      buf := new byte[BufferSize](_ => 0);
      pos, bufidx, bufsize, eof := 0, 0, 0, false;
      m, short := 0, false;
    }

    /** `w` is the 32 bytes of `buf` just before `bufidx`, all below `bufsize`. */
    ghost predicate LastWindow(w: seq<byte>)
      reads this, buf
    {
      1 <= bufidx && bufidx + ReadBlockSize - 1 <= bufsize <= buf.Length
      && w == buf[bufidx - 1..bufidx + ReadBlockSize - 1]
    }

    /**
     * `Buffer::next`: the next position and the 32 bytes checked there, or
     * `None` once fewer than 32 bytes remain.
     */
    method Next() returns (r: Option<(nat, seq<byte>)>)
      requires Valid()
      modifies this, io, buf
      ensures Valid()
      ensures r.Some? ==>
                && r.value.0 == old(pos) && pos == old(pos) + 1
                && old(pos) + ReadBlockSize <= |io.data|
                && LastWindow(r.value.1)
                && r.value.1 == WindowAt(io.data, old(pos))
      ensures r.None? ==> pos == old(pos) && old(pos) + ReadBlockSize - 1 >= |io.data|
    {
      if bufsize == 0 && !eof {
        FirstFill();
      }

      if bufidx + ReadBlockSize > bufsize {
        if eof {
          return None;
        }
        Refill();
        if eof {
          return None;
        }
      }
      var p, window := Advance();
      r := Some((p, window));
    }

    /** The first read of `Buffer::next` (src/clip.rs:123-129), into the whole buffer. */
    method FirstFill()
      requires Valid() && bufsize == 0 && !eof
      modifies this, io, buf
      ensures Valid() && pos == old(pos) && bufidx == old(bufidx)
      ensures bufsize == Min(BufferSize, |io.data|) && eof == (bufsize < ReadBlockSize)
    {
      ghost var before := buf[..];
      bufsize := io.Read(buf, 0, BufferSize);
      eof := bufsize < ReadBlockSize;
      FirstFillStep(io.data, before, buf[..], bufsize);
    }

    /**
     * The `//move` block of `Buffer::next` (src/clip.rs:135-151): move the
     * `rest` bytes from `bufidx` on to the front, read into `buf[bufidx..]`, and
     * set `eof` when fewer than 32 bytes are then counted in the buffer.
     */
    method Refill()
      requires Valid() && !eof && bufsize != 0 && bufidx + ReadBlockSize > bufsize
      modifies this, io, buf
      ensures Valid() && pos == old(pos)
      ensures !eof ==> bufidx + ReadBlockSize <= bufsize
    {
      var idx := bufidx;
      var rest := bufsize - idx;
      ghost var before := buf[..];
      ghost var cursor := io.cursor;
      var readSize := MoveAndRead(io, buf, idx, rest, idx);
      var size := rest + readSize;
      ghost var m1, short1 := if short then m + 1 else m, !short;
      RefillStep(io.data, before, buf[..], pos, idx, bufsize, cursor, readSize, m, short,
                 0, size, size < ReadBlockSize, io.cursor, m1, short1);
      bufidx, bufsize, eof := 0, size, size < ReadBlockSize;
      m, short := m1, short1;
    }

    /** The final step of `Buffer::next` (src/clip.rs:153-157): report the window at `bufidx`. */
    method Advance() returns (p: nat, window: seq<byte>)
      requires Valid() && !eof && bufsize != 0 && bufidx + ReadBlockSize <= bufsize
      modifies this
      ensures Valid()
      ensures p == old(pos) && pos == old(pos) + 1 && bufidx == old(bufidx) + 1
      ensures bufsize == old(bufsize) && eof == old(eof)
      ensures p + ReadBlockSize <= |io.data|
      ensures window == buf[bufidx - 1..bufidx + ReadBlockSize - 1]
      ensures window == WindowAt(io.data, p)
    {
      var idx := bufidx;
      p := pos;
      window := buf[idx..idx + ReadBlockSize];
      WindowFromBuffer(io.data, buf[..], pos, idx, bufsize, io.cursor, m, short);
      bufidx := idx + 1;
      pos := pos + 1;
    }
  }

  /** The bytes at `bufidx` are the window at the current position. */
  lemma WindowFromBuffer(data: seq<byte>, contents: seq<byte>, pos: nat, bufidx: nat, bufsize: nat,
                         cursor: nat, m: nat, short: bool)
    requires |contents| == BufferSize && Filled(data, contents, pos, bufidx, bufsize, cursor, m, short)
    requires bufidx + ReadBlockSize <= bufsize
    ensures pos + ReadBlockSize <= |data|
    ensures contents[bufidx..bufidx + ReadBlockSize] == WindowAt(data, pos)
  {
    forall i | 0 <= i < ReadBlockSize
      ensures contents[bufidx + i] == WindowAt(data, pos)[i]
    {
      WindowOrigin(m, short, bufidx, i);
    }
  }

  /** The buffer contents after the refill that follows a full buffer. */
  lemma RefillAfterFull(data: seq<byte>, before: seq<byte>, after: seq<byte>, m: nat, readSize: nat)
    requires |before| == |after| == BufferSize && readSize <= 31
    requires forall k :: 0 <= k < BufferSize ==>
               BufOrigin(m, false, k) < |data| && before[k] == data[BufOrigin(m, false, k)]
    requires forall k :: 0 <= k < 31 ==> after[k] == before[993 + k]
    requires forall k :: 31 <= k < 62 ==> after[k] == before[k]
    ensures forall k :: 0 <= k < 31 + readSize ==>
              BufOrigin(m, true, k) < |data| && after[k] == data[BufOrigin(m, true, k)]
  {
    forall k | 0 <= k < 31 + readSize
      ensures BufOrigin(m, true, k) < |data| && after[k] == data[BufOrigin(m, true, k)]
    {
      if k < 31 {
        assert after[k] == before[993 + k] == data[BufOrigin(m, false, 993 + k)];
        assert BufOrigin(m, false, 993 + k) == BufOrigin(m, true, k);
      } else {
        assert after[k] == before[k] == data[BufOrigin(m, false, k)];
        assert BufOrigin(m, false, k) == BufOrigin(m, true, k);
      }
    }
  }

  /** The buffer contents after the refill that follows a short buffer; `m` is the new phase's. */
  lemma RefillAfterShort(data: seq<byte>, before: seq<byte>, after: seq<byte>, m: nat, readSize: nat)
    requires |before| == |after| == BufferSize && readSize <= 993 && m >= 1
    requires 1024 * m + 31 + readSize <= |data|
    requires forall k :: 0 <= k < 62 ==>
               BufOrigin(m - 1, true, k) < |data| && before[k] == data[BufOrigin(m - 1, true, k)]
    requires forall k :: 0 <= k < 31 ==> after[k] == before[31 + k]
    requires forall k :: 31 <= k < 31 + readSize ==> after[k] == data[1024 * m + k]
    ensures forall k :: 0 <= k < 31 + readSize ==>
              BufOrigin(m, false, k) < |data| && after[k] == data[BufOrigin(m, false, k)]
  {
    forall k | 0 <= k < 31 + readSize
      ensures BufOrigin(m, false, k) < |data| && after[k] == data[BufOrigin(m, false, k)]
    {
      if k < 31 {
        assert after[k] == before[31 + k] == data[BufOrigin(m - 1, true, 31 + k)];
        assert BufOrigin(m - 1, true, 31 + k) == BufOrigin(m, false, k);
      } else {
        assert after[k] == data[1024 * m + k];
        assert BufOrigin(m, false, k) == 1024 * m + k;
      }
    }
  }

  /**
   * `find_sqlite`: the declared size and the offset of the SQLite header of
   * the first window that matches, `None` when there is none.
   */
  method FindSqlite(file: seq<byte>) returns (r: Option<(u64, nat)>)
    ensures r == FirstMatch(file)
    ensures |file| < ReadBlockSize ==> r.None?
  {
    var io := new FileReader(file);
    var b := new Buffer(io);
    r := Scan(b);
  }

  /** The `'outer` loop of `find_sqlite`, from wherever `b` stands. */
  method Scan(b: Buffer) returns (r: Option<(u64, nat)>)
    requires b.Valid()
    modifies b, b.io, b.buf
    ensures r == FirstMatchFrom(b.io.data, old(b.pos))
  {
    ghost var target := FirstMatchFrom(b.io.data, b.pos);
    while true
      invariant b.Valid()
      invariant FirstMatchFrom(b.io.data, b.pos) == target
      decreases |b.io.data| - b.pos
    {
      var next := b.Next();
      if next.None? {
        return None;
      }
      var (pos, window) := next.value;
      FirstMatchStep(b.io.data, pos);
      if Matches(window) {
        return Some((FromBE8(window[|SqlChunk|..|SqlChunk| + 8]), pos + |SqlChunk| + 8));
      }
    }
  }
}
