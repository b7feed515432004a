/**
 * Files as byte sequences: a reader over the bytes of a file with the
 * `Read::read`, `Read::read_exact` and `Seek::seek` calls that src/clip.rs
 * makes on its `BufReader`s.  A read returns every byte asked for while the
 * file lasts.
 */
module Streams {
  import opened ClipFormat

  function Min(a: nat, b: nat): (r: nat)
    ensures r <= a && r <= b && (r == a || r == b)
  {
    if a <= b then a else b
  }

  /** The bytes of a file being read and how far the reader stands in them. */
  class FileReader {
    const data: seq<byte>
    var cursor: nat

    ghost predicate Valid()
      reads this
    {
      cursor <= |data|
    }

    constructor (data: seq<byte>)
      ensures Valid() && this.data == data && cursor == 0
    {
      this.data := data;
      cursor := 0;
    }

    /** `Seek::seek(SeekFrom::Start(p))`, within the file. */
    method Seek(p: nat)
      requires p <= |data|
      modifies this
      ensures Valid() && cursor == p
    {
      cursor := p;
    }

    /** `Read::read` into `dst[from..from + count]`: all of it, or all that is left. */
    method Read(dst: array<byte>, from: nat, count: nat) returns (n: nat)
      requires Valid() && from + count <= dst.Length
      modifies this, dst
      ensures Valid()
      ensures n == Min(count, |data| - old(cursor))
      ensures cursor == old(cursor) + n
      ensures dst[from..from + n] == data[old(cursor)..cursor]
      ensures forall k :: 0 <= k < dst.Length ==>
                dst[k] == if from <= k < from + n then data[old(cursor) + k - from] else old(dst[k])
    {
      n := Min(count, |data| - cursor);
      forall k | from <= k < from + n {
        dst[k] := data[cursor + k - from];
      }
      cursor := cursor + n;
    }

    /**
     * `Read::read_exact` into `dst[from..from + count]`: fails when the file
     * ends first, and then leaves the reader at the end of the file.
     */
    method ReadExact(dst: array<byte>, from: nat, count: nat) returns (ok: bool)
      requires Valid() && from + count <= dst.Length
      modifies this, dst
      ensures Valid()
      ensures ok <==> old(cursor) + count <= |data|
      ensures ok ==> cursor == old(cursor) + count && dst[from..from + count] == data[old(cursor)..cursor]
      ensures !ok ==> cursor == |data|
      ensures forall k :: 0 <= k < dst.Length && !(from <= k < from + count) ==> dst[k] == old(dst[k])
    {
      if cursor + count > |data| {
        cursor := |data|;
        return false;
      }
      var n := Read(dst, from, count);
      ok := true;
    }
  }
}
