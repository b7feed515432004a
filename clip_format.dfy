/**
 * The byte-level vocabulary of a clip file: the error kinds of the Rust
 * `ClipError` enum, the fixed chunk markers and the 8-byte big-endian length
 * field (`u64::to_be_bytes` / `u64::from_be_bytes`), src/clip.rs:21-50.
 */
module ClipFormat {

  /** A Rust `u8`. */
  type byte = x: int | 0 <= x < 256

  /** Rust's `u64`. */
  type u64 = x: int | 0 <= x < 0x1_0000_0000_0000_0000

  datatype ClipError =
    | FileOpenError
    | TmpDirError
    | FileSaveError
    | CreateDirectoryError
    | FileReadError
    | SQLError
    | UnknownFileStruct
    | IOError
    | NotClipFile

  /** "CHNKSQLi": the marker of the chunk that embeds the SQLite database. */
  const SqlChunk: seq<byte> := [0x43, 0x48, 0x4E, 0x4B, 0x53, 0x51, 0x4C, 0x69]

  /** "SQLite format 3\0": the first 16 bytes of every SQLite database file. */
  const SqlHeader: seq<byte> :=
    [0x53, 0x51, 0x4C, 0x69, 0x74, 0x65, 0x20, 0x66, 0x6F, 0x72, 0x6D, 0x61, 0x74, 0x20, 0x33, 0x00]

  /** Marker, 8-byte length and SQLite header: the 32 bytes the locator looks for. */
  const SqlHeaderTotalSize: nat := |SqlChunk| + 8 + |SqlHeader|

  /** "CHNKFoot" followed by eight zero bytes: the trailer chunk. */
  const FootChunkData: seq<byte> :=
    [0x43, 0x48, 0x4E, 0x4B, 0x46, 0x6F, 0x6F, 0x74, 0, 0, 0, 0, 0, 0, 0, 0]

  function Pow256(k: nat): (r: nat)
    ensures r >= 1
  {
    if k == 0 then 1 else 256 * Pow256(k - 1)
  }

  /** The `len` low-order bytes of `n`, most significant first. */
  function ToBigEndian(n: nat, len: nat): (s: seq<byte>)
    requires n < Pow256(len)
    ensures |s| == len
  {
    if len == 0 then []
    else
      assert n / 256 < Pow256(len - 1);
      ToBigEndian(n / 256, len - 1) + [n % 256]
  }

  /** The unsigned integer whose big-endian bytes are `s`. */
  function FromBigEndian(s: seq<byte>): (n: nat)
    ensures n < Pow256(|s|)
  {
    if |s| == 0 then 0
    else
      var high := FromBigEndian(s[..|s| - 1]);
      assert high * 256 + s[|s| - 1] < Pow256(|s| - 1) * 256 by {
        assert high <= Pow256(|s| - 1) - 1;
        assert high * 256 <= (Pow256(|s| - 1) - 1) * 256;
      }
      high * 256 + s[|s| - 1]
  }

  lemma U64Bound()
    ensures Pow256(8) == 0x1_0000_0000_0000_0000
  {
  }

  /** `u64::to_be_bytes`. */
  function BE8(n: u64): (s: seq<byte>)
    ensures |s| == 8
  {
    U64Bound();
    ToBigEndian(n, 8)
  }

  /** `u64::from_be_bytes`. */
  function FromBE8(s: seq<byte>): (n: u64)
    requires |s| == 8
  {
    U64Bound();
    FromBigEndian(s)
  }

  /** Decoding what was encoded gives the number back. */
  lemma {:induction false} FromToBigEndian(n: nat, len: nat)
    requires n < Pow256(len)
    ensures FromBigEndian(ToBigEndian(n, len)) == n
  {
    if len > 0 {
      var s := ToBigEndian(n, len);
      var q, r := n / 256, n % 256;
      assert q < Pow256(len - 1);
      assert s == ToBigEndian(q, len - 1) + [r];
      assert s[..len - 1] == ToBigEndian(q, len - 1);
      assert s[len - 1] == r;
      FromToBigEndian(q, len - 1);
      assert FromBigEndian(s) == q * 256 + r;
    }
  }

  /** Encoding what was decoded gives the bytes back. */
  lemma {:induction false} ToFromBigEndian(s: seq<byte>)
    ensures ToBigEndian(FromBigEndian(s), |s|) == s
  {
    if |s| > 0 {
      var n := FromBigEndian(s);
      var high := FromBigEndian(s[..|s| - 1]);
      assert n / 256 == high && n % 256 == s[|s| - 1];
      ToFromBigEndian(s[..|s| - 1]);
      assert s == s[..|s| - 1] + [s[|s| - 1]];
    }
  }

  /** The length field written by `to_be_bytes` reads back through `from_be_bytes`. */
  lemma BE8RoundTrip(n: u64)
    ensures FromBE8(BE8(n)) == n
  {
    U64Bound();
    FromToBigEndian(n, 8);
  }

  /** And every 8-byte field is the encoding of the number it decodes to. */
  lemma FromBE8RoundTrip(s: seq<byte>)
    requires |s| == 8
    ensures BE8(FromBE8(s)) == s
  {
    U64Bound();
    ToFromBigEndian(s);
  }
}
