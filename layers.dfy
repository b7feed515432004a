/**
 * The layer table of the embedded database (src/clip.rs:10-19, 393-441):
 * reading its rows, picking the root folder and looking layers up by
 * `main_id` in the list sorted by it.
 */
module Layers {
  import opened Wrappers
  import opened ClipFormat

  /** One row of the `Layer` table. */
  datatype ClipLayer = ClipLayer(
    pwId: u64,
    mainId: u64,
    layerName: string,
    layerType: u64,
    layerFolder: u64,
    layerNextIndex: u64,
    layerFirstChildIndex: u64)

  /** The root folder row: layer type 256 with the folder flag 1. */
  predicate IsRootCandidate(l: ClipLayer)
  {
    l.layerType == 256 && l.layerFolder == 1
  }

  predicate SortedByMainId(v: seq<ClipLayer>)
  {
    forall i, j :: 0 <= i < j < |v| ==> v[i].mainId <= v[j].mainId
  }

  /** Some row has this `main_id`. */
  predicate HasMainId(v: seq<ClipLayer>, id: u64)
  {
    exists i :: 0 <= i < |v| && v[i].mainId == id
  }

  /** `x` put into `s` before the first row whose key is greater. */
  function Insert(x: ClipLayer, s: seq<ClipLayer>): (r: seq<ClipLayer>)
    ensures multiset(r) == multiset(s) + multiset{x}
  {
    if |s| == 0 then [x]
    else if x.mainId < s[0].mainId then [x] + s
    else
      assert s == [s[0]] + s[1..];
      [s[0]] + Insert(x, s[1..])
  }

  /** Inserting into a sorted list keeps it sorted. */
  lemma {:induction false} InsertSorted(x: ClipLayer, s: seq<ClipLayer>)
    requires SortedByMainId(s)
    ensures SortedByMainId(Insert(x, s))
  {
    if |s| > 0 && x.mainId >= s[0].mainId {
      var tail := Insert(x, s[1..]);
      InsertSorted(x, s[1..]);
      forall i | 0 <= i < |tail| ensures s[0].mainId <= tail[i].mainId {
        assert tail[i] in multiset(s[1..]) + multiset{x};
        if tail[i] != x {
          var j :| 0 <= j < |s[1..]| && s[1..][j] == tail[i];
          assert s[1 + j] == tail[i];
        }
      }
    }
  }

  /**
   * `v.sort_by(|a, b| a.main_id.cmp(&b.main_id))`, as an insertion sort:
   * the same rows, ordered by `main_id`.
   */
  function SortByMainId(s: seq<ClipLayer>): (r: seq<ClipLayer>)
    ensures multiset(r) == multiset(s)
  {
    if |s| == 0 then []
    else
      assert s == s[..|s| - 1] + [s[|s| - 1]];
      Insert(s[|s| - 1], SortByMainId(s[..|s| - 1]))
  }

  lemma {:induction false} SortSorted(s: seq<ClipLayer>)
    ensures SortedByMainId(SortByMainId(s))
  {
    if |s| > 0 {
      SortSorted(s[..|s| - 1]);
      InsertSorted(s[|s| - 1], SortByMainId(s[..|s| - 1]));
    }
  }

  /** The `main_id` of the last root candidate, when there is one. */
  function LastRootCandidate(rows: seq<ClipLayer>): Option<u64>
  {
    if |rows| == 0 then None
    else if IsRootCandidate(rows[|rows| - 1]) then Some(rows[|rows| - 1].mainId)
    else LastRootCandidate(rows[..|rows| - 1])
  }

  /**
   * `LastRootCandidate` is the one of the last row that is a candidate, and
   * there is one exactly when some row is a candidate.
   */
  lemma {:induction false} LastRootCandidateIsLast(rows: seq<ClipLayer>, r: Option<u64>)
    requires r.None? <==> forall i :: 0 <= i < |rows| ==> !IsRootCandidate(rows[i])
    requires r.Some? ==> exists i :: && 0 <= i < |rows| && IsRootCandidate(rows[i])
                                    && r.value == rows[i].mainId
                                    && forall j :: i < j < |rows| ==> !IsRootCandidate(rows[j])
    ensures LastRootCandidate(rows) == r
  {
    if |rows| > 0 {
      var prefix := rows[..|rows| - 1];
      if !IsRootCandidate(rows[|rows| - 1]) {
        if r.Some? {
          var i :| && 0 <= i < |rows| && IsRootCandidate(rows[i])
                   && r.value == rows[i].mainId
                   && forall j :: i < j < |rows| ==> !IsRootCandidate(rows[j]);
          assert prefix[i] == rows[i];
        }
        LastRootCandidateIsLast(prefix, r);
      }
    }
  }

  /**
   * `get_layers`: the rows sorted by `main_id`, and the `main_id` of the
   * last root candidate in load order, or `UnknownFileStruct` when there is
   * none.
   */
  method GetLayers(rows: seq<ClipLayer>) returns (v: seq<ClipLayer>, r: Result<u64, ClipError>)
    ensures v == SortByMainId(rows) && SortedByMainId(v) && multiset(v) == multiset(rows)
    ensures r.Ok? <==> exists i :: 0 <= i < |rows| && IsRootCandidate(rows[i])
    ensures r.Ok? ==> exists i :: && 0 <= i < |rows| && IsRootCandidate(rows[i])
                                  && r.value == rows[i].mainId
                                  && forall j :: i < j < |rows| ==> !IsRootCandidate(rows[j])
    ensures r.Err? ==> r.error == UnknownFileStruct
    ensures r == match LastRootCandidate(rows) case Some(id) => Ok(id) case None => Err(UnknownFileStruct)
  {
    var rootMainId: Option<u64> := None;
    ghost var rootAt: nat := 0;
    v := [];
    for n := 0 to |rows|
      invariant v == rows[..n]
      invariant rootMainId.None? <==> forall i :: 0 <= i < n ==> !IsRootCandidate(rows[i])
      invariant rootMainId.Some? ==> && rootAt < n && IsRootCandidate(rows[rootAt])
                                     && rootMainId.value == rows[rootAt].mainId
                                     && forall j :: rootAt < j < n ==> !IsRootCandidate(rows[j])
    {
      var b := rows[n];
      if IsRootCandidate(b) {
        rootMainId := Some(b.mainId);
        rootAt := n;
      }
      v := v + [b];
    }
    assert rows[..|rows|] == rows;
    v := SortByMainId(v);
    SortSorted(rows);
    LastRootCandidateIsLast(rows, rootMainId);
    match rootMainId {
      case Some(x) => return v, Ok(x);
      case None => return v, Err(UnknownFileStruct);
    }
  }

  /**
   * `find_layer_index` over `v[lo..hi]`: the halving search of
   * `binary_search_by_key`, which only ever reports an index whose key is
   * `id`, and on a sorted list misses no key present.
   */
  function BinarySearch(v: seq<ClipLayer>, id: u64, lo: nat, hi: nat): (r: Option<nat>)
    requires lo <= hi <= |v|
    ensures r.Some? ==> lo <= r.value < hi && v[r.value].mainId == id
    ensures r.None? && SortedByMainId(v) ==> forall i :: lo <= i < hi ==> v[i].mainId != id
    decreases hi - lo
  {
    if lo == hi then None
    else
      var mid := (lo + hi) / 2;
      if v[mid].mainId == id then Some(mid)
      else if v[mid].mainId < id then BinarySearch(v, id, mid + 1, hi)
      else BinarySearch(v, id, lo, mid)
  }

  function FindLayerIndex(v: seq<ClipLayer>, id: u64): (r: Option<nat>)
    ensures r.Some? ==> r.value < |v| && v[r.value].mainId == id
    ensures SortedByMainId(v) ==> (r.None? <==> !HasMainId(v, id))
  {
    BinarySearch(v, id, 0, |v|)
  }

  /** The root `get_layers` names is always found in the list it returns. */
  lemma RootIsFound(rows: seq<ClipLayer>, v: seq<ClipLayer>, root: u64)
    requires SortedByMainId(v) && multiset(v) == multiset(rows)
    requires exists i :: 0 <= i < |rows| && rows[i].mainId == root
    ensures FindLayerIndex(v, root).Some?
  {
    var i :| 0 <= i < |rows| && rows[i].mainId == root;
    assert rows[i] in multiset(v);
    var j :| 0 <= j < |v| && v[j] == rows[i];
  }
}
