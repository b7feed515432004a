# clip_layer_rename, modelled in Dafny

`clip_layer_rename` renames the layers of a CLIP STUDIO PAINT file. Such a
file embeds an SQLite database inside a chunk whose 32-byte head is:

- the marker `CHNKSQLi`;
- an 8-byte big-endian length;
- the SQLite header `SQLite format 3\0`.

The program's core is `src/clip.rs`, which runs in three stages:

1. **Locate.** `Buffer` and `find_sqlite` slide a 1024-byte buffer over the
   file, looking for that pattern.
2. **Extract and reassemble.** `save_sql_only` copies the database out.
   `concat_sql` later puts a database back. It writes the database's new length
   into the 8-byte field and closes the file with the `CHNKFoot` trailer.
3. **Rename.** `get_layers` loads the `Layer` table, sorts it by `main_id` and
   picks the root folder. `find_layer_index` looks layers up by binary search.
   `rename_layers_in_folder` walks each folder's child chain. It renames the leaf
   layers that the caller's predicate selects to `"<base> <n>"`, numbering them
   in chain order, and recurses into subfolders.

This project models each stage on values: files are byte sequences and the
layer table is a map from `main_id` to name. The source's imperative parts stay
imperative:

- `Locator.Buffer` is a class with a 1024-byte `array` and the same counters.
  Its tail move is a loop over that array.
- The copy loops of the extractor and the reassembler are `while` loops over a
  1024-byte array buffer. They read through `Streams.FileReader`, a reader over
  a byte sequence with a cursor.
- `get_layers` is a loop over the rows.
- The rename walk is a recursive method with the source's `while next != 0`
  loop. It updates a `Rename.LayerStore` object.

Each method is proved against a value-level definition:

- `Locator.FirstMatch` is the scan as written.
- `Locator.FirstOccurrence` is the first place the file itself holds the
  pattern.
- `Surgery.Reassembled` is the file `concat_sql` writes.
- `Layers.SortByMainId` is the sort.
- `Rename.FolderWalk` and `Rename.ChainWalk` give the renames that the walk of
  a folder makes, in order, and how the walk ends.

The properties are then proved about these definitions.

Three points of the code are easy to misread:

- The pattern is 32 bytes long, and `find_sqlite` reports `pos + 16`. That is
  the offset of the SQLite header, the first byte of the database, not the
  offset after the header (src/clip.rs:47, 206-208).
- Several root candidates are not rejected. The last one in load order wins
  (src/clip.rs:414-416).
- The refill does not keep the buffer contiguous with the file; see Findings.
  The reference the scan is measured against, `FirstOccurrence`, is the
  contiguous scan that the `//move` step (src/clip.rs:135-147) evidently aims
  at.

Under the root with an empty base name, no leaf directly under the root is
renamed, and the predicate is not consulted for them. Subfolders of the root are
still walked and renamed as usual. This is what the code does.

## Model

| member | source | states |
|---|---|---|
| ClipFormat.BE8RoundTrip | src/clip.rs:206-207 | `from_be_bytes` of the 8 bytes that `to_be_bytes(n)` writes is `n` again |
| ClipFormat.FromBE8RoundTrip | src/clip.rs:206-207 | every 8-byte field is the `to_be_bytes` encoding of the number it decodes to |
| ClipFormat.FromToBigEndian | src/clip.rs:339 | big-endian encoding to `len` bytes, then decoding, is the identity on numbers below 256^len |
| ClipFormat.ToFromBigEndian | src/clip.rs:207 | big-endian decoding, then encoding to the same width, gives the bytes back |
| Streams.FileReader.Read | src/clip.rs:143-146 | `read` copies `min(count, remaining)` bytes from the cursor into `dst[from..]`, advances the cursor by that many and leaves the rest of `dst` alone |
| Streams.FileReader.Seek | src/clip.rs:230-232 | `seek(SeekFrom::Start(index))` within the file puts the cursor at `index` |
| Streams.FileReader.ReadExact | src/clip.rs:291-293 | `read_exact` succeeds exactly when `count` bytes remain, and then copies them and advances by `count`; on failure the reader is at the end of the file; either way `dst` outside `[from, from + count)` keeps its bytes |
| Locator.Buffer.constructor | src/clip.rs:160-172 | `Buffer::new`: a zeroed buffer (every byte 0), every counter 0, `eof` false, and the scan invariant established |
| Locator.Buffer.Next | src/clip.rs:122-158 | every `Some` gives the current `pos`, and `pos` grows by exactly 1; the window is the 32 bytes `buf[bufidx-1..bufidx+31]`, with `1 <= bufidx` and `bufidx + 31 <= bufsize <= 1024`; the window is `WindowAt(file, pos)`; `None` comes only when fewer than 32 bytes remain from `pos` |
| Locator.Buffer.FirstFill | src/clip.rs:123-129 | the first read fills `min(1024, file length)` bytes and sets `eof` when fewer than 32 were read |
| Locator.Buffer.Refill | src/clip.rs:131-152 | after the tail move and the read into `buf[idx..]`, the scan invariant still holds and, unless `eof`, a whole window lies ahead of `bufidx` |
| Locator.Buffer.Advance | src/clip.rs:153-157 | reports `buf[bufidx..bufidx+32]` at `pos` and steps both by one |
| Locator.MoveAndRead | src/clip.rs:140-147 | the tail move followed by one read into `buf[at..]`: the reader advances by the bytes read, which are `min(1024 - at, remaining)`, and the buffer then holds the bytes read at `buf[at..at+readSize]`, the moved tail in what else lies below `rest`, and its old bytes everywhere else |
| Locator.MoveToFront | src/clip.rs:140-142 | the loop copies `buf[idx..idx+rest]` to `buf[0..rest]` and leaves the rest of the array alone |
| Locator.OriginExact | src/clip.rs:136-148 | the window checked at `p` is the file's own `file[p..p+32]` exactly when `p < 993` or `(p - 993) % 1024 >= 62` |
| Locator.WindowAtExact | src/clip.rs:123-129 | at such a position, in particular anywhere within the first fill, the checked window equals `file[p..p+32]` |
| Locator.FindSqlite | src/clip.rs:187-210 | `find_sqlite` returns `FirstMatch(file)`: the length field and `pos + 16` of the first checked window that matches; a file shorter than 32 bytes gives `None`, not an error |
| Locator.Scan | src/clip.rs:189-209 | the `'outer` loop from any valid position returns the first match from there on |
| Locator.FirstMatchFound | src/clip.rs:194-208 | a reported `(size, q)` has its matching window at `q - 16`, the size read from that window's bytes 8..16, and no earlier checked window that matches |
| Locator.FirstMatchNone | src/clip.rs:190-193 | `None` means that no window checked matched |
| Locator.FoundInFile | src/clip.rs:194-208 | when the reported window is exact, the file holds `CHNKSQLi` at `q-16`, the SQLite header at `q`, and `size` is the big-endian value of `file[q-8..q]` |
| Locator.FirstFillComplete | src/clip.rs:123-157 | the scan reports exactly the first occurrence when that occurrence starts before offset 993, or when the file fits the first fill |
| Locator.StraddlingPatternMissed | src/clip.rs:136-147 | a 1025-byte file holds the pattern at offset 993, yet the scan as written reports `None` |
| Locator.StraddlingPatternInvented | src/clip.rs:136-147 | a 1025-byte file holds the pattern nowhere, yet the scan as written reports `Some((0, 1009))` |
| LocatorFixed.Buffer.constructor | src/clip.rs:160-172 | `Buffer::new`: a zeroed buffer, every counter 0, `eof` false, and the contiguity invariant established |
| LocatorFixed.Buffer.FirstFill | src/clip.rs:123-129 | the first read fills `min(1024, file length)` bytes and sets `eof` when fewer than 32 were read, keeping the buffer contiguous with the file |
| LocatorFixed.Buffer.Advance | src/clip.rs:153-157 | reports `pos` and a window that is the file's own `file[pos..pos+32]`, and steps `pos` and `bufidx` by one |
| LocatorFixed.Buffer.Next | src/clip.rs:122-158 | with the refill read into `buf[rest..]`, every window is the file's own `file[pos..pos+32]` |
| LocatorFixed.Buffer.Refill | src/clip.rs:135-151 | the corrected refill keeps the buffer contiguous with the file and sets `eof` exactly when fewer than 32 bytes remain from `pos` |
| LocatorFixed.Scan | src/clip.rs:189-209 | the `'outer` loop over the corrected buffer, from any valid position, returns the first occurrence from there on |
| LocatorFixed.FindSqlite | src/clip.rs:187-210 | over the corrected buffer, `find_sqlite` returns exactly `FirstOccurrence(file)` |
| Surgery.SaveSqlOnly | src/clip.rs:220-259 | when `index + size` is at most the file length, the bytes written are `src[index..index+size]`; the reads ask for 1024 bytes each while more than that is left, then for the remainder, exactly `size` bytes in all |
| Surgery.ConcatSql | src/clip.rs:269-345 | `Err(FileReadError)` exactly when the clip file is shorter than `index - 8`; otherwise the output is `src[..index-8] ++ BE8(sql length) ++ sql ++ FOOT` |
| Surgery.CopyPrefix | src/clip.rs:280-300 | the `read_exact` loop copies `src[..count]`, and fails exactly when the file is shorter |
| Surgery.CopyAll | src/clip.rs:308-329 | the read loop copies the whole database and counts its bytes in `sqlsize` |
| Surgery.Patch | src/clip.rs:335-342 | the seek back and the write replace exactly the 8 bytes at `index - 8` and keep the length |
| Surgery.PatchedLength | src/clip.rs:301-342 | writing the counted length over the zero placeholder gives the final layout |
| Surgery.ReassembledReadsBack | src/clip.rs:301-342 | the output is `index + 16` bytes longer than the database; its field at `index-8` decodes to the database length; the database follows at `index`, then the footer; the prefix is unchanged |
| Surgery.ReassembledHoldsPattern | src/clip.rs:206-208 | a clip file whose marker stood at `index - 16`, given back a database that starts with the SQLite header, holds the locator's pattern at `index - 16` again, with the new length |
| Layers.GetLayers | src/clip.rs:391-423 | the output is a permutation of the loaded rows, sorted by `main_id`; the result is the `main_id` of the last row in load order with type 256 and folder flag 1, or `UnknownFileStruct` when no row qualifies |
| Layers.SortByMainId | src/clip.rs:420 | the sort keeps the same multiset of rows |
| Layers.SortSorted | src/clip.rs:420 | the sorted rows are in `main_id` order |
| Layers.LastRootCandidateIsLast | src/clip.rs:411-416 | the root chosen is that of the last candidate, and there is one exactly when some row is a candidate |
| Layers.BinarySearch | src/clip.rs:436-441 | a found index holds the key; on a sorted list, `None` means the key is nowhere in the range |
| Layers.FindLayerIndex | src/clip.rs:436-441 | `Some(i)` implies `v[i].main_id == id`; on a sorted list, `None` holds exactly when no row has that id |
| Layers.RootIsFound | src/clip.rs:367-371 | the root that `get_layers` names is always found in the sorted list, so the panic cannot be reached |
| Decimal.NatToString | src/clip.rs:484-486 | `format!("{}", n)`: a non-empty string of digits with no leading zero, one digit long exactly when `n < 10` |
| Decimal.ParseNatToString | src/clip.rs:484-486 | reading the digits back gives `n` |
| Decimal.NatToStringInjective | src/clip.rs:484-486 | different numbers get different strings, so the numbered names of one folder are distinct |
| Rename.RenameOne | src/clip.rs:503-510 | `UPDATE ... WHERE MainId = id`: the ids stay the same, `id` gets the new name, and every other id keeps its name |
| Rename.LayerStore.RenameLayer | src/clip.rs:503-510 | on a writable store, `Ok` and that update; otherwise `Err(SQLError)` and no change |
| Rename.FolderWalk | src/clip.rs:464-493 | the walk of a folder as a value; every error it ends with is `UnknownFileStruct`, and a walked row that is not a folder is one, with nothing renamed |
| Rename.ChainWalk | src/clip.rs:473-491 | the `while next != 0` loop as a value; every error is `UnknownFileStruct` |
| Rename.ChildWalk | src/clip.rs:478-490 | one pass of the loop body; every error is `UnknownFileStruct` |
| Rename.ApplyRenamesFrame | src/clip.rs:503-510 | only renamed ids change: the ids stay the same, an id never renamed keeps its name, and a renamed id ends with the name of its last rename |
| Rename.RenameLayersInFolder | src/clip.rs:453-494 | on a writable store, the walk applies exactly the renames of `FolderWalk`, in order, and returns its outcome; on a store that rejects updates, it returns `SQLError` at the first rename and changes nothing |
| Rename.VisitChild | src/clip.rs:478-490 | the loop body applies exactly the renames of `ChildWalk` and returns the next number |
| Rename.RenameLayersInSqlite | src/clip.rs:354-380 | with no root candidate, `UnknownFileStruct` and no change; otherwise the root is found in the sorted rows and the store ends as `FolderWalk` of the root, on the root base name, says |
| Rename.FolderNumbering | src/clip.rs:470-490 | the renames made directly in a folder are named `"<base> 1"`, `"<base> 2"`, ..., with no gaps; `base` is the root base name for the root and the folder's own name otherwise; under the root with an empty base name there are none; every other rename is made in a subfolder ranked below |
| Rename.ChainNumbering | src/clip.rs:473-491 | along a chain, the direct renames carry `number`, `number + 1`, ... in order, and there are none when renaming is suppressed |
| Rename.StepNumbering | src/clip.rs:478-490 | the counter advances by one exactly when a leaf is renamed directly in the folder, and not for subfolders |
| Rename.FolderRenamesLeaves | src/clip.rs:480-482 | every rename the walk makes is of a leaf row that the predicate selected |
| Rename.ChainRenamesLeaves | src/clip.rs:480-482 | the same along a chain |
| Rename.FolderNamesKept | src/clip.rs:480-489 | with distinct `main_id`s, folders are never renamed, and neither is any row the predicate does not select |
| Rename.ZeroIdRanked | src/clip.rs:470-473 | a table of a childless root and a leaf with `main_id` 0 is ranked, and the walk of its root ends at once with `Ok(())` and no renames |
| Rename.DanglingLink | src/clip.rs:474-477 | a child or next id that no row has stops the walk with `UnknownFileStruct` |

## Left out

- Real files, `BufReader`/`BufWriter` and `File::open`/`File::create` are not modelled. A file is a byte sequence, so `FileOpenError`, `FileSaveError` and the `IOError` of the seek cannot arise. A read that fails (`FileReadError` in `Buffer::next`, `save_sql_only` and the database loop of `concat_sql`) is not modelled either.
- Streams.FileReader.Read: a read returns every byte asked for while the file lasts. A `BufReader` returns a short read when a request crosses the end of its internal 8 KiB buffer. The 1024-byte requests of `save_sql_only` and `concat_sql` start at the reader's buffer boundary after `seek` or `open` and never cross one. The refill requests of `Buffer::next` (1024 bytes, then 31 and 993 alternately) each end on a multiple of 1024, so they never cross one either.
- Streams.FileReader.ReadExact: its contract says nothing about the slice `dst[from..from + count]` on failure. A failed `read_exact` leaves it unspecified, and the caller returns `FileReadError` without using it.
- `create_layer_renamed_clip_file` (src/clip.rs:60-108) is not modelled: temporary directories, copying and renaming files, and the `NotClipFile` mapping. Neither is `src/main.rs`: argument parsing, backups and the regular-expression predicate. The predicate is the function parameter `need`.
- rusqlite is not modelled: opening, `prepare` and `query_map`, the conversions of `row.get`, the `layer.unwrap()` panic and the SQL text. The rows arrive as a sequence of `ClipLayer` values. The table is a map from `main_id` to name. A failing `UPDATE` is the store's `writable` flag.
- Layers.SortByMainId: `sort_by` is modelled as an insertion sort. Its result is sorted and a permutation of its input, but its stability is not proved.
- Surgery.SaveSqlOnly: it requires `index + size <= |src|`, because the source loops for ever when the file ends first.
- Surgery.ConcatSql: it requires `8 <= index`, because the source computes `index - 8` on a `usize`. It also requires the database to be shorter than 2^64 bytes, because `sqlsize` is a `u64`.
- Rename.RenameLayersInFolder: termination rests on a ghost `rank` map, under which every nonzero next and first-child link to a ranked id lowers the rank. The link 0 ends a chain and is never followed, so a row whose `main_id` is 0 is allowed. This is a modelling device, not source behaviour. The source walks cyclic chains for ever.
- Rename.RenameLayersInSqlite: it requires the same ranking of the rows.
- Rename.RenameLayersInFolder, Rename.RenameLayersInSqlite: `Ranked` constrains every row, not only the links the walk follows. So the model also excludes tables on which the source does finish: a cycle among rows the root never reaches, or one reached only after the walk has already stopped with an error.
- Layers.FindLayerIndex: when several rows share a `main_id`, `binary_search_by_key` may return any of them, depending on the standard library version. The model returns the one its midpoint search reaches, and `FolderWalk` follows that row. What the source does on duplicate ids is therefore modelled for one choice only.
- `layer_number` is an `i32` in the source. That it never overflows is not modelled: numbers are unbounded.

## Findings

| source | as written | input that shows it | evidently intended | confidence | as-written member | corrected member |
|---|---|---|---|---|---|---|
| src/clip.rs:136-147 | After moving the `rest` unread bytes to `buf[0..rest]`, the refill reads the new bytes into `buf[idx..]`, where `idx` is where the tail used to start. So `buf[rest..idx]` keeps stale bytes. Past the first buffer, the windows at positions `p >= 993` with `(p - 993) % 1024 < 62` are not the file's bytes. A pattern there can be missed, and a pattern the file does not hold can be reported, which is why `FoundInFile` holds only at exact positions. | `Locator.StraddleFile`: 1025 bytes, with `CHNKSQLi`, eight zero bytes and `SQLite format 3\0` at offset 993, byte 31 set to 1 and every other byte 0. The first occurrence is `(0, 1009)`, but `find_sqlite` returns `None`. `Locator.FalseHitFile` has the first 31 pattern bytes at offset 993 and 1 at offset 1024; it holds no pattern, but `find_sqlite` returns `Some((0, 1009))`. | Read into `buf[rest..]` so that the buffer stays contiguous with the file. Then the first occurrence is found wherever it lies. | not executed | Locator.StraddlingPatternMissed, Locator.StraddlingPatternInvented | LocatorFixed.FindSqlite |
