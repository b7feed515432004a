/**
 * The byte surgery of src/clip.rs:221-343: cutting the embedded database
 * out of a clip file (`save_sql_only`) and putting a database back in its
 * place (`concat_sql`).  Files are byte sequences; what is written to an
 * output file is the sequence of its bytes.
 */
module Surgery {
  import opened Wrappers
  import opened ClipFormat
  import opened Streams
  import opened Locator

  const ChunkSize: nat := 1024

  /**
   * `save_sql_only`: the `size` bytes from `index` on, copied in reads of at
   * most 1024 bytes.  The source loops for ever when the file ends first, so
   * callers must give a range inside the file.  `requests` logs the length
   * of every read the loop asks for.
   */
  method SaveSqlOnly(src: seq<byte>, size: u64, index: nat) returns (out: seq<byte>, ghost requests: seq<nat>)
    requires index + size <= |src|
    ensures out == src[index..index + size]
    ensures ChunkedRequests(size, requests)
  {
    var inf := new FileReader(src);
    inf.Seek(index);
    var buf := new byte[ChunkSize](_ => 0);
    out := [];
    requests := [];
    var writesize: nat := size;
    while writesize != 0
      invariant inf.Valid() && inf.data == src
      invariant writesize <= size && inf.cursor == index + size - writesize
      invariant out == src[index..inf.cursor]
      invariant writesize != 0 ==> size - writesize == ChunkSize * |requests|
      invariant forall k :: 0 <= k < |requests| ==> ChunkSize * k < size && requests[k] == Min(size - ChunkSize * k, ChunkSize)
      invariant writesize == 0 ==> ChunkSize * |requests| >= size
      decreases writesize
    {
      var length := if writesize > buf.Length then buf.Length else writesize;
      assert length == Min(size - ChunkSize * |requests|, ChunkSize);
      ghost var at := inf.cursor;
      var read := inf.Read(buf, 0, length);
      out := out + buf[0..read];
      requests := requests + [length];
      assert src[index..inf.cursor] == src[index..at] + src[at..inf.cursor];
      writesize := writesize - read;
    }
  }

  /**
   * The reads that copy `size` bytes: 1024 bytes each while more than that is
   * left, then the remainder, so that together they ask for exactly `size`.
   */
  ghost predicate ChunkedRequests(size: nat, requests: seq<nat>)
  {
    && ChunkSize * |requests| >= size
    && forall k :: 0 <= k < |requests| ==> ChunkSize * k < size && requests[k] == Min(size - ChunkSize * k, ChunkSize)
  }

  /**
   * The file `concat_sql` writes: the clip file up to the length field, the
   * length of the database, the database and the footer chunk.
   */
  function Reassembled(src: seq<byte>, sql: seq<byte>, index: nat): (out: seq<byte>)
    requires 8 <= index && index - 8 <= |src| && |sql| < 0x1_0000_0000_0000_0000
  {
    src[..index - 8] + BE8(|sql|) + sql + FootChunkData
  }

  /** `bytes` written over `s` from `at` on, which a seek back and a write do. */
  function Patch(s: seq<byte>, at: nat, bytes: seq<byte>): (r: seq<byte>)
    requires at + |bytes| <= |s|
    ensures |r| == |s| && r[at..at + |bytes|] == bytes
    ensures r[..at] == s[..at] && r[at + |bytes|..] == s[at + |bytes|..]
  {
    s[..at] + bytes + s[at + |bytes|..]
  }

  /**
   * `concat_sql`: `Err(FileReadError)` when the clip file ends before
   * `index - 8`, and otherwise the reassembled file.  `index` is at least 8
   * because the source computes `index - 8` on an unsigned integer, and the
   * database is shorter than 2^64 bytes because its length is counted in a
   * `u64`.
   */
  method ConcatSql(src: seq<byte>, sql: seq<byte>, index: nat) returns (r: Result<seq<byte>, ClipError>)
    requires 8 <= index && |sql| < 0x1_0000_0000_0000_0000
    ensures r.Ok? <==> index - 8 <= |src|
    ensures r.Ok? ==> r.value == Reassembled(src, sql, index)
    ensures r.Err? ==> r.error == FileReadError
  {
    var buf := new byte[ChunkSize](_ => 0);
    var ok, out := CopyPrefix(src, index - 8, buf);
    if !ok {
      return Err(FileReadError);
    }

    var sqlsize: u64 := 0;
    out := out + BE8(sqlsize);
    var copied;
    copied, sqlsize := CopyAll(sql, buf);
    out := out + copied;
    out := out + FootChunkData;
    PatchedLength(src[..index - 8], sql, BE8(sqlsize));
    out := Patch(out, index - 8, BE8(sqlsize));
    r := Ok(out);
  }

  /** Writing the length over the placeholder gives the reassembled layout. */
  lemma PatchedLength(prefix: seq<byte>, sql: seq<byte>, field: seq<byte>)
    requires |field| == 8
    ensures Patch(prefix + BE8(0) + sql + FootChunkData, |prefix|, field) == prefix + field + sql + FootChunkData
  {
    var s := prefix + BE8(0) + sql + FootChunkData;
    assert s[..|prefix|] == prefix;
    assert s[|prefix| + 8..] == sql + FootChunkData;
  }

  /**
   * The `// SQLite` block of `concat_sql`: read the database in blocks of
   * 1024 until a read returns nothing, counting the bytes in a `u64`.
   */
  method CopyAll(sql: seq<byte>, buf: array<byte>) returns (copied: seq<byte>, sqlsize: u64)
    requires buf.Length == ChunkSize && |sql| < 0x1_0000_0000_0000_0000
    modifies buf
    ensures copied == sql && sqlsize == |sql|
  {
    var inf := new FileReader(sql);
    copied, sqlsize := [], 0;
    while true
      invariant inf.Valid() && inf.data == sql && fresh(inf) && sqlsize == inf.cursor
      invariant copied == sql[..inf.cursor]
      decreases |sql| - inf.cursor
    {
      ghost var at := inf.cursor;
      var readLength := inf.Read(buf, 0, buf.Length);
      if readLength == 0 {
        break;
      }
      copied := copied + buf[0..readLength];
      assert sql[..inf.cursor] == sql[..at] + sql[at..inf.cursor];
      sqlsize := sqlsize + readLength;
    }
    assert sql[..inf.cursor] == sql;
  }

  /**
   * The `// Original meta data` block of `concat_sql`: copy the first `count`
   * bytes of the clip file with `read_exact` in blocks of at most 1024,
   * failing when the file is shorter.
   */
  method CopyPrefix(src: seq<byte>, count: nat, buf: array<byte>) returns (ok: bool, out: seq<byte>)
    requires buf.Length == ChunkSize
    modifies buf
    ensures ok <==> count <= |src|
    ensures ok ==> out == src[..count]
  {
    var inf := new FileReader(src);
    out := [];
    var writeSize: nat := count;
    while writeSize != 0
      invariant inf.Valid() && inf.data == src && fresh(inf)
      invariant writeSize <= count && inf.cursor == count - writeSize
      invariant out == src[..inf.cursor]
      decreases writeSize
    {
      var readLength := Min(writeSize, buf.Length);
      ghost var at := inf.cursor;
      ok := inf.ReadExact(buf, 0, readLength);
      if !ok {
        return;
      }
      out := out + buf[0..readLength];
      assert src[..inf.cursor] == src[..at] + src[at..inf.cursor];
      writeSize := writeSize - readLength;
    }
    ok := true;
  }

  /**
   * Reading the reassembled file back the way the locator and the extractor
   * do: the file is 16 bytes longer than the prefix, the length field and
   * the database; the length field before `index` decodes to the length of
   * the database; and the bytes from `index` on are the database, then the
   * footer.
   */
  lemma ReassembledReadsBack(src: seq<byte>, sql: seq<byte>, index: nat)
    requires 8 <= index && index - 8 <= |src| && |sql| < 0x1_0000_0000_0000_0000
    ensures var out := Reassembled(src, sql, index);
            && |out| == index + |sql| + 16
            && FromBE8(out[index - 8..index]) == |sql|
            && out[index..index + |sql|] == sql
            && out[index + |sql|..] == FootChunkData
            && out[..index - 8] == src[..index - 8]
  {
    var out := Reassembled(src, sql, index);
    assert out[index - 8..index] == BE8(|sql|);
    BE8RoundTrip(|sql|);
  }

  /**
   * A clip file whose chunk marker stood at `index - 16`, given back a
   * database that starts with the SQLite header, again holds the 32-byte
   * pattern there, now with the new length.
   */
  lemma ReassembledHoldsPattern(src: seq<byte>, sql: seq<byte>, index: nat)
    requires 16 <= index && index - 8 <= |src| && 16 <= |sql| < 0x1_0000_0000_0000_0000
    requires src[index - 16..index - 8] == SqlChunk && sql[..16] == SqlHeader
    ensures var out := Reassembled(src, sql, index);
            && index + 16 <= |out|
            && OccursAt(out, index - 16)
            && FromBE8(out[index - 8..index]) == |sql|
  {
    var out := Reassembled(src, sql, index);
    ReassembledReadsBack(src, sql, index);
    var w := out[index - 16..index + 16];
    assert w[..8] == out[..index - 8][index - 16..];
    assert w[16..] == out[index..index + |sql|][..16];
  }
}
