/**
 * The rename walk of src/clip.rs:359-510: starting at the root folder, every
 * folder's direct leaves that the caller's predicate selects are renamed to
 * the folder's base name followed by a space and their number among the
 * renamed leaves of that folder; folders are walked recursively.
 *
 * The database is a map from `main_id` to layer name (`LayerStore`), the
 * rows read at the start are a sequence of `ClipLayer` values, and the
 * predicate is a function parameter.  `FolderWalk` and `ChainWalk` say,
 * as values, which renames the walk makes in which order and how it ends;
 * the imperative walk is proved to make exactly those updates.
 */
module Rename {
  import opened Wrappers
  import opened ClipFormat
  import opened Layers
  import opened Decimal

  /** `rename_layer`'s effect on the names: an `UPDATE ... WHERE MainId = id`, a no-op for an absent id. */
  function RenameOne(names: map<u64, string>, id: u64, name: string): (r: map<u64, string>)
    ensures r.Keys == names.Keys
    ensures forall k :: k in r ==> r[k] == if k == id then name else names[k]
  {
    if id in names then names[id := name] else names
  }

  /** The `Layer` table as the walk sees it: one name per `main_id`. */
  class LayerStore {
    var names: map<u64, string>
    /** Whether updates succeed; when they do not, `conn.execute` fails with an SQL error. */
    const writable: bool

    constructor (names: map<u64, string>, writable: bool)
      ensures this.names == names && this.writable == writable
    {
      this.names := names;
      this.writable := writable;
    }

    /** `rename_layer` (src/clip.rs:500-510). */
    method RenameLayer(mainId: u64, rename: string) returns (r: Result<(), ClipError>)
      modifies this
      ensures writable ==> r == Ok(()) && names == RenameOne(old(names), mainId, rename)
      ensures !writable ==> r == Err(SQLError) && names == old(names)
    {
      if !writable {
        return Err(SQLError);
      }
      names := RenameOne(names, mainId, rename);
      r := Ok(());
    }
  }

  /** One rename the walk makes: leaf `leaf` of folder `folder` gets `name`. */
  datatype Renamed = Renamed(folder: u64, leaf: u64, name: string)

  /** The renames of a walk, in order, and the error that stopped it, if any. */
  datatype Walk = Walk(renames: seq<Renamed>, err: Option<ClipError>)

  function Then(done: seq<Renamed>, w: Walk): Walk
  {
    Walk(done + w.renames, w.err)
  }

  /**
   * A modelling device for termination, not part of the source: a rank for
   * every `main_id` of the rows such that following a `next` link, or the
   * first-child link of a folder, to a ranked nonzero id lowers the rank.
   * The link 0 ends a chain and is never followed, even when a row has
   * `main_id` 0.  The source walks cyclic links for ever.
   */
  ghost predicate Ranked(v: seq<ClipLayer>, rank: map<u64, nat>)
  {
    forall i :: 0 <= i < |v| ==>
      && v[i].mainId in rank
      && (v[i].layerNextIndex != 0 && v[i].layerNextIndex in rank ==>
            rank[v[i].layerNextIndex] < rank[v[i].mainId])
      && (v[i].layerFolder != 0 && v[i].layerFirstChildIndex != 0 && v[i].layerFirstChildIndex in rank ==>
            rank[v[i].layerFirstChildIndex] < rank[v[i].mainId])
  }

  function Rank(rank: map<u64, nat>, id: u64): nat
  {
    if id != 0 && id in rank then rank[id] + 1 else 0
  }

  /** The new name of a leaf: `format!("{} {}", base, number)`. */
  function NumberedName(base: string, number: nat): string
  {
    base + " " + NatToString(number)
  }

  /** The rename is of a leaf row that the predicate selected. */
  predicate RenamesLeaf(v: seq<ClipLayer>, need: string -> bool, r: Renamed)
  {
    exists i :: 0 <= i < |v| && v[i].mainId == r.leaf && v[i].layerFolder == 0 && need(v[i].layerName)
  }

  /**
   * `rename_layers_in_folder` on `v[index]`, as a value.  Every error is
   * `UnknownFileStruct`, and a walked row that is not a folder is one.
   */
  ghost function FolderWalk(v: seq<ClipLayer>, index: nat, root: bool, rootBase: string,
                            need: string -> bool, rank: map<u64, nat>): (w: Walk)
    requires index < |v| && Ranked(v, rank)
    ensures w.err.Some? ==> w.err == Some(UnknownFileStruct)
    ensures v[index].layerFolder == 0 ==> w.err.Some? && w.renames == []
    decreases rank[v[index].mainId] + 1, 0
  {
    var f := v[index];
    if f.layerFolder == 0 then Walk([], Some(UnknownFileStruct))
    else
      ChainWalk(v, f.layerFirstChildIndex, !root || |rootBase| != 0, if root then rootBase else f.layerName,
                1, f.mainId, rootBase, need, rank)
  }

  /**
   * The `while next != 0` loop from the sibling `next` on, in a folder with
   * id `folder` whose leaves are named after `base` when `allowed`, the next
   * one with `number`.
   */
  ghost function ChainWalk(v: seq<ClipLayer>, next: u64, allowed: bool, base: string, number: nat,
                           folder: u64, rootBase: string, need: string -> bool,
                           rank: map<u64, nat>): (w: Walk)
    requires Ranked(v, rank)
    ensures w.err.Some? ==> w.err == Some(UnknownFileStruct)
    decreases Rank(rank, next), 2
  {
    if next == 0 then Walk([], None)
    else
      match FindLayerIndex(v, next)
      case None => Walk([], Some(UnknownFileStruct))
      case Some(ci) =>
        var (cw, n) := ChildWalk(v, ci, allowed, base, number, folder, rootBase, need, rank);
        if cw.err.Some? then cw
        else Then(cw.renames, ChainWalk(v, v[ci].layerNextIndex, allowed, base, n, folder, rootBase, need, rank))
  }

  /**
   * One pass of the loop body on the child `v[ci]`: the walk of a subfolder,
   * the rename of a selected leaf with the current number, or nothing; and
   * the number for the next leaf.
   */
  ghost function ChildWalk(v: seq<ClipLayer>, ci: nat, allowed: bool, base: string, number: nat,
                           folder: u64, rootBase: string, need: string -> bool,
                           rank: map<u64, nat>): (r: (Walk, nat))
    requires ci < |v| && Ranked(v, rank)
    ensures r.0.err.Some? ==> r.0.err == Some(UnknownFileStruct)
    decreases rank[v[ci].mainId] + 1, 1
  {
    var c := v[ci];
    if c.layerFolder != 0 then (FolderWalk(v, ci, false, rootBase, need, rank), number)
    else if allowed && need(c.layerName) then
      (Walk([Renamed(folder, c.mainId, NumberedName(base, number))], None), number + 1)
    else (Walk([], None), number)
  }

  /** One turn of the loop: the chain from `next` is the step on its row, then the chain after it. */
  lemma ChainStep(v: seq<ClipLayer>, next: u64, allowed: bool, base: string, number: nat,
                  folder: u64, rootBase: string, need: string -> bool, rank: map<u64, nat>,
                  ci: nat, step: (Walk, nat), done: seq<Renamed>, whole: Walk)
    requires Ranked(v, rank) && next != 0 && FindLayerIndex(v, next) == Some(ci)
    requires step == ChildWalk(v, ci, allowed, base, number, folder, rootBase, need, rank)
    requires whole == Then(done, ChainWalk(v, next, allowed, base, number, folder, rootBase, need, rank))
    ensures step.0.err.Some? ==> whole == Then(done, step.0)
    ensures step.0.err.None? ==>
              whole == Then(done + step.0.renames,
                            ChainWalk(v, v[ci].layerNextIndex, allowed, base, step.1, folder, rootBase, need, rank))
  {
    if step.0.err.None? {
      var after := ChainWalk(v, v[ci].layerNextIndex, allowed, base, step.1, folder, rootBase, need, rank);
      assert done + (step.0.renames + after.renames) == (done + step.0.renames) + after.renames;
    }
  }

  /** The names after applying the renames in order. */
  function ApplyRenames(names: map<u64, string>, rs: seq<Renamed>): map<u64, string>
  {
    if |rs| == 0 then names else ApplyRenames(RenameOne(names, rs[0].leaf, rs[0].name), rs[1..])
  }

  /**
   * Only renamed ids change: the ids stay the same, an id no rename names
   * keeps its name, and a renamed id ends with the name of its last rename.
   */
  lemma {:induction false} ApplyRenamesFrame(names: map<u64, string>, rs: seq<Renamed>)
    ensures ApplyRenames(names, rs).Keys == names.Keys
    ensures forall k :: k in names && (forall j :: 0 <= j < |rs| ==> rs[j].leaf != k) ==>
              ApplyRenames(names, rs)[k] == names[k]
    ensures forall j :: 0 <= j < |rs| && rs[j].leaf in names &&
                        (forall j' :: j < j' < |rs| ==> rs[j'].leaf != rs[j].leaf) ==>
              ApplyRenames(names, rs)[rs[j].leaf] == rs[j].name
    decreases |rs|
  {
    if |rs| > 0 {
      var first := RenameOne(names, rs[0].leaf, rs[0].name);
      var tail := rs[1..];
      ApplyRenamesFrame(first, tail);
      forall j | 0 <= j < |rs| && rs[j].leaf in names &&
                 (forall j' :: j < j' < |rs| ==> rs[j'].leaf != rs[j].leaf)
        ensures ApplyRenames(names, rs)[rs[j].leaf] == rs[j].name
      {
        if j > 0 {
          assert tail[j - 1] == rs[j];
          assert forall j' :: j - 1 < j' < |tail| ==> tail[j'].leaf != tail[j - 1].leaf by {
            forall j' | j - 1 < j' < |tail| ensures tail[j'].leaf != tail[j - 1].leaf {
              assert tail[j'] == rs[j' + 1];
            }
          }
        } else {
          forall j' | 0 <= j' < |tail| ensures tail[j'].leaf != rs[0].leaf {
            assert tail[j'] == rs[j' + 1];
          }
        }
      }
    }
  }

  /** What the walk returns: `Ok(())`, or the error that stopped it. */
  function Outcome(err: Option<ClipError>): Result<(), ClipError>
  {
    match err
    case None => Ok(())
    case Some(e) => Err(e)
  }

  /**
   * The store after the walk `w` and what it returns: on a writable store
   * every rename of `w` is applied and the walk's own outcome returned; on
   * one that is not, the first rename fails with `SQLError` and nothing
   * changes.
   */
  ghost predicate WalkDone(writable: bool, before: map<u64, string>, w: Walk,
                           after: map<u64, string>, r: Result<(), ClipError>)
  {
    (after, r) == if writable then (ApplyRenames(before, w.renames), Outcome(w.err))
                  else (before, if |w.renames| > 0 then Err(SQLError) else Outcome(w.err))
  }

  /**
   * Part of a walk done: on a writable store the renames `done` are applied,
   * and on one that is not there are none yet.
   */
  ghost predicate Progress(writable: bool, before: map<u64, string>, done: seq<Renamed>, mid: map<u64, string>)
  {
    mid == (if writable then ApplyRenames(before, done) else before) && (writable || done == [])
  }

  lemma {:induction false} ApplyRenamesConcat(names: map<u64, string>, a: seq<Renamed>, b: seq<Renamed>)
    ensures ApplyRenames(names, a + b) == ApplyRenames(ApplyRenames(names, a), b)
    decreases |a|
  {
    if |a| > 0 {
      assert (a + b)[0] == a[0] && (a + b)[1..] == a[1..] + b;
      ApplyRenamesConcat(RenameOne(names, a[0].leaf, a[0].name), a[1..], b);
    } else {
      assert a + b == b;
    }
  }

  /** The state before a step, the step's walk done from there: the walk so far then the step, done. */
  lemma WalkDoneThen(writable: bool, before: map<u64, string>, done: seq<Renamed>, mid: map<u64, string>,
                     w: Walk, after: map<u64, string>, r: Result<(), ClipError>)
    requires Progress(writable, before, done, mid)
    requires WalkDone(writable, mid, w, after, r)
    ensures WalkDone(writable, before, Then(done, w), after, r)
  {
    if writable {
      ApplyRenamesConcat(before, done, w.renames);
    } else {
      assert done + w.renames == w.renames;
    }
  }

  /** A step that returned `Ok(())` ran to its end and extends the renames done. */
  lemma WalkDoneOk(writable: bool, before: map<u64, string>, done: seq<Renamed>, mid: map<u64, string>,
                   w: Walk, after: map<u64, string>)
    requires Progress(writable, before, done, mid)
    requires WalkDone(writable, mid, w, after, Ok(()))
    ensures w.err.None? && Progress(writable, before, done + w.renames, after)
  {
    if writable {
      ApplyRenamesConcat(before, done, w.renames);
    }
  }

  /**
   * `rename_layers_in_folder`: walk the folder `v[index]`, renaming its
   * selected leaves and recursing into its subfolders, exactly as
   * `FolderWalk` says.
   */
  method RenameLayersInFolder(store: LayerStore, v: seq<ClipLayer>, index: nat, root: bool,
                              rootBase: string, need: string -> bool, ghost rank: map<u64, nat>)
    returns (r: Result<(), ClipError>)
    requires index < |v| && Ranked(v, rank)
    modifies store
    ensures WalkDone(store.writable, old(store.names), FolderWalk(v, index, root, rootBase, need, rank),
                     store.names, r)
    decreases rank[v[index].mainId] + 1, 0
  {
    var f := v[index];
    if f.layerFolder == 0 {
      return Err(UnknownFileStruct);
    }
    var next := f.layerFirstChildIndex;
    var layerNumber: nat := 1;
    var allowed := !root || |rootBase| != 0;
    var base := if root then rootBase else f.layerName;
    ghost var done: seq<Renamed> := [];

    while next != 0
      invariant FolderWalk(v, index, root, rootBase, need, rank)
                == Then(done, ChainWalk(v, next, allowed, base, layerNumber, f.mainId, rootBase, need, rank))
      invariant Progress(store.writable, old(store.names), done, store.names)
      invariant Rank(rank, next) <= rank[f.mainId]
      decreases Rank(rank, next)
    {
      var found := FindLayerIndex(v, next);
      if found.None? {
        r := Err(UnknownFileStruct);
        WalkDoneThen(store.writable, old(store.names), done, store.names, Walk([], Some(UnknownFileStruct)),
                     store.names, r);
        return;
      }
      var ci := found.value;
      ghost var step := ChildWalk(v, ci, allowed, base, layerNumber, f.mainId, rootBase, need, rank);
      ChainStep(v, next, allowed, base, layerNumber, f.mainId, rootBase, need, rank, ci, step, done,
                FolderWalk(v, index, root, rootBase, need, rank));
      ghost var mid := store.names;
      next := v[ci].layerNextIndex;
      r, layerNumber := VisitChild(store, v, ci, allowed, base, layerNumber, f.mainId, rootBase, need, rank);
      if r.Err? {
        WalkDoneThen(store.writable, old(store.names), done, mid, step.0, store.names, r);
        return;
      }
      WalkDoneOk(store.writable, old(store.names), done, mid, step.0, store.names);
      done := done + step.0.renames;
    }
    r := Ok(());
    WalkDoneThen(store.writable, old(store.names), done, store.names, Walk([], None), store.names, r);
  }

  /** The loop body of `rename_layers_in_folder` on the child `v[ci]`. */
  method VisitChild(store: LayerStore, v: seq<ClipLayer>, ci: nat, allowed: bool, base: string, number: nat,
                    folder: u64, rootBase: string, need: string -> bool, ghost rank: map<u64, nat>)
    returns (r: Result<(), ClipError>, nextNumber: nat)
    requires ci < |v| && Ranked(v, rank)
    modifies store
    ensures var step := ChildWalk(v, ci, allowed, base, number, folder, rootBase, need, rank);
            WalkDone(store.writable, old(store.names), step.0, store.names, r) && nextNumber == step.1
    decreases rank[v[ci].mainId] + 1, 1
  {
    var c := v[ci];
    nextNumber := number;
    if c.layerFolder != 0 {
      r := RenameLayersInFolder(store, v, ci, false, rootBase, need, rank);
    } else if allowed && need(c.layerName) {
      var name := NumberedName(base, number);
      nextNumber := number + 1;
      r := store.RenameLayer(c.mainId, name);
      assert [Renamed(folder, c.mainId, name)][1..] == [];
    } else {
      r := Ok(());
    }
  }

  /**
   * `rename_layers_in_sqlite`: load the rows, find the root and walk it on
   * the root's own base name.  The lookup of the root never fails, so the
   * source's panic is unreachable.
   */
  method RenameLayersInSqlite(store: LayerStore, rows: seq<ClipLayer>, rootBase: string,
                              need: string -> bool, ghost rank: map<u64, nat>)
    returns (r: Result<(), ClipError>)
    requires Ranked(rows, rank)
    modifies store
    ensures LastRootCandidate(rows).None? ==> r == Err(UnknownFileStruct) && store.names == old(store.names)
    ensures LastRootCandidate(rows).Some? ==>
              var v := SortByMainId(rows);
              var found := FindLayerIndex(v, LastRootCandidate(rows).value);
              && found.Some? && Ranked(v, rank)
              && WalkDone(store.writable, old(store.names), FolderWalk(v, found.value, true, rootBase, need, rank),
                          store.names, r)
  {
    var v, rootMainId := GetLayers(rows);
    if rootMainId.Err? {
      return Err(rootMainId.error);
    }
    RootIsFound(rows, v, rootMainId.value);
    RankedPermutation(rows, v, rank);
    var rootIndex := FindLayerIndex(v, rootMainId.value).value;
    r := RenameLayersInFolder(store, v, rootIndex, true, rootBase, need, rank);
  }

  /** The renames made directly in the folder `folder`, in order. */
  function Direct(rs: seq<Renamed>, folder: u64): (d: seq<Renamed>)
  {
    if |rs| == 0 then []
    else (if rs[0].folder == folder then [rs[0]] else []) + Direct(rs[1..], folder)
  }

  lemma {:induction false} DirectConcat(a: seq<Renamed>, b: seq<Renamed>, folder: u64)
    ensures Direct(a + b, folder) == Direct(a, folder) + Direct(b, folder)
    decreases |a|
  {
    if |a| > 0 {
      assert (a + b)[0] == a[0] && (a + b)[1..] == a[1..] + b;
      DirectConcat(a[1..], b, folder);
    } else {
      assert a + b == b;
    }
  }

  /** Every rename of `rs` is made in `folder` or in a folder ranked below `bound`. */
  ghost predicate TagsWithin(rs: seq<Renamed>, rank: map<u64, nat>, folder: u64, bound: nat)
  {
    forall k :: 0 <= k < |rs| ==> rs[k].folder == folder || (rs[k].folder in rank && rank[rs[k].folder] < bound)
  }

  lemma TagsWithinConcat(a: seq<Renamed>, b: seq<Renamed>, rank: map<u64, nat>, folder: u64, bound: nat)
    requires TagsWithin(a, rank, folder, bound) && TagsWithin(b, rank, folder, bound)
    ensures TagsWithin(a + b, rank, folder, bound)
  {
    forall k | |a| <= k < |a + b| ensures (a + b)[k] == b[k - |a|] {
    }
  }

  /**
   * The tags of a subfolder's walk, seen from the folder `folder` that holds
   * it: none is `folder`, which is ranked above the subfolder.
   */
  lemma SubfolderTags(rs: seq<Renamed>, rank: map<u64, nat>, sub: u64, folder: u64, bound: nat)
    requires sub in rank && folder in rank && rank[sub] < rank[folder] && rank[sub] < bound
    requires TagsWithin(rs, rank, sub, rank[sub])
    ensures TagsWithin(rs, rank, folder, bound) && Direct(rs, folder) == []
    decreases |rs|
  {
    if |rs| > 0 {
      assert rs[0].folder != folder;
      assert TagsWithin(rs[1..], rank, sub, rank[sub]) by {
        forall k | 0 <= k < |rs[1..]| ensures rs[1..][k] == rs[k + 1] {
        }
      }
      SubfolderTags(rs[1..], rank, sub, folder, bound);
    }
  }

  /** The names of `d` are `"<base> <start>"`, `"<base> <start + 1>"`, ... in order. */
  predicate NumberedFrom(d: seq<Renamed>, base: string, start: nat)
  {
    forall j :: 0 <= j < |d| ==> d[j].name == NumberedName(base, start + j)
  }

  lemma NumberedConcat(a: seq<Renamed>, b: seq<Renamed>, base: string, start: nat)
    requires NumberedFrom(a, base, start) && NumberedFrom(b, base, start + |a|)
    ensures NumberedFrom(a + b, base, start)
  {
    forall j | |a| <= j < |a + b| ensures (a + b)[j] == b[j - |a|] {
    }
  }

  /**
   * The numbering within a folder: the renames the walk of `v[index]` makes
   * directly in it are named `"<base> 1"`, `"<base> 2"`, ... in order, with
   * `base` the root base name for the root and the folder's own name
   * otherwise; under the root with an empty base name there are none.  Every
   * other rename is made in a folder ranked below this one.
   */
  lemma {:induction false} FolderNumbering(v: seq<ClipLayer>, index: nat, root: bool, rootBase: string,
                                           need: string -> bool, rank: map<u64, nat>)
    requires index < |v| && Ranked(v, rank)
    ensures NumberedFrom(Direct(FolderWalk(v, index, root, rootBase, need, rank).renames, v[index].mainId),
                         if root then rootBase else v[index].layerName, 1)
    ensures root && |rootBase| == 0 ==>
              Direct(FolderWalk(v, index, root, rootBase, need, rank).renames, v[index].mainId) == []
    ensures TagsWithin(FolderWalk(v, index, root, rootBase, need, rank).renames, rank, v[index].mainId,
                       rank[v[index].mainId])
    decreases rank[v[index].mainId] + 1, 0
  {
    var f := v[index];
    if f.layerFolder != 0 {
      var allowed, base := !root || |rootBase| != 0, if root then rootBase else f.layerName;
      assert FolderWalk(v, index, root, rootBase, need, rank)
             == ChainWalk(v, f.layerFirstChildIndex, allowed, base, 1, f.mainId, rootBase, need, rank);
      ChainNumbering(v, f.layerFirstChildIndex, allowed, base, 1, f.mainId, rootBase, need, rank);
    }
  }

  /**
   * The numbering along a chain: the renames made directly in `folder` carry
   * `number`, `number + 1`, ... in order, and there are none when renaming is
   * not allowed; every other rename is made in a folder ranked below `next`.
   */
  lemma {:induction false} ChainNumbering(v: seq<ClipLayer>, next: u64, allowed: bool, base: string, number: nat,
                                          folder: u64, rootBase: string, need: string -> bool,
                                          rank: map<u64, nat>)
    requires Ranked(v, rank) && folder in rank && Rank(rank, next) <= rank[folder]
    ensures NumberedFrom(Direct(ChainWalk(v, next, allowed, base, number, folder, rootBase, need, rank).renames, folder),
                         base, number)
    ensures !allowed ==> Direct(ChainWalk(v, next, allowed, base, number, folder, rootBase, need, rank).renames, folder) == []
    ensures TagsWithin(ChainWalk(v, next, allowed, base, number, folder, rootBase, need, rank).renames, rank, folder,
                       Rank(rank, next))
    decreases Rank(rank, next), 2
  {
    if next != 0 && FindLayerIndex(v, next).Some? {
      var ci := FindLayerIndex(v, next).value;
      StepNumbering(v, ci, allowed, base, number, folder, rootBase, need, rank);
      var step := ChildWalk(v, ci, allowed, base, number, folder, rootBase, need, rank);
      if step.0.err.None? {
        var rest := ChainWalk(v, v[ci].layerNextIndex, allowed, base, step.1, folder, rootBase, need, rank);
        ChainNumbering(v, v[ci].layerNextIndex, allowed, base, step.1, folder, rootBase, need, rank);
        assert ChainWalk(v, next, allowed, base, number, folder, rootBase, need, rank) == Then(step.0.renames, rest);
        DirectConcat(step.0.renames, rest.renames, folder);
        NumberedConcat(Direct(step.0.renames, folder), Direct(rest.renames, folder), base, number);
        TagsWithinConcat(step.0.renames, rest.renames, rank, folder, Rank(rank, next));
      }
    }
  }

  /** The numbering for one child `v[ci]` of the chain at `v[ci].mainId`. */
  lemma StepNumbering(v: seq<ClipLayer>, ci: nat, allowed: bool, base: string, number: nat,
                      folder: u64, rootBase: string, need: string -> bool, rank: map<u64, nat>)
    requires ci < |v| && Ranked(v, rank) && folder in rank && rank[v[ci].mainId] < rank[folder]
    ensures var step := ChildWalk(v, ci, allowed, base, number, folder, rootBase, need, rank);
            && NumberedFrom(Direct(step.0.renames, folder), base, number)
            && step.1 == number + |Direct(step.0.renames, folder)|
            && (!allowed ==> Direct(step.0.renames, folder) == [])
            && TagsWithin(step.0.renames, rank, folder, rank[v[ci].mainId] + 1)
    decreases rank[v[ci].mainId] + 1, 1
  {
    var c := v[ci];
    var step := ChildWalk(v, ci, allowed, base, number, folder, rootBase, need, rank);
    if c.layerFolder != 0 {
      FolderNumbering(v, ci, false, rootBase, need, rank);
      SubfolderTags(step.0.renames, rank, c.mainId, folder, rank[c.mainId] + 1);
    } else if allowed && need(c.layerName) {
      var r := Renamed(folder, c.mainId, NumberedName(base, number));
      assert step.0.renames == [r];
      assert Direct([r][1..], folder) == [];
    }
  }

  /** Every rename of `rs` is of a leaf row the predicate selected. */
  predicate AllLeaves(v: seq<ClipLayer>, need: string -> bool, rs: seq<Renamed>)
  {
    forall k :: 0 <= k < |rs| ==> RenamesLeaf(v, need, rs[k])
  }

  /** Every rename the walk makes is of a leaf row the predicate selected. */
  lemma {:induction false} FolderRenamesLeaves(v: seq<ClipLayer>, index: nat, root: bool, rootBase: string,
                                               need: string -> bool, rank: map<u64, nat>)
    requires index < |v| && Ranked(v, rank)
    ensures AllLeaves(v, need, FolderWalk(v, index, root, rootBase, need, rank).renames)
    decreases rank[v[index].mainId] + 1, 0
  {
    var f := v[index];
    if f.layerFolder != 0 {
      var allowed, base := !root || |rootBase| != 0, if root then rootBase else f.layerName;
      assert FolderWalk(v, index, root, rootBase, need, rank)
             == ChainWalk(v, f.layerFirstChildIndex, allowed, base, 1, f.mainId, rootBase, need, rank);
      ChainRenamesLeaves(v, f.layerFirstChildIndex, allowed, base, 1, f.mainId, rootBase, need, rank);
    }
  }

  lemma {:induction false} ChainRenamesLeaves(v: seq<ClipLayer>, next: u64, allowed: bool, base: string, number: nat,
                                              folder: u64, rootBase: string, need: string -> bool,
                                              rank: map<u64, nat>)
    requires Ranked(v, rank)
    ensures AllLeaves(v, need, ChainWalk(v, next, allowed, base, number, folder, rootBase, need, rank).renames)
    decreases Rank(rank, next), 2
  {
    if next != 0 && FindLayerIndex(v, next).Some? {
      var ci := FindLayerIndex(v, next).value;
      var c := v[ci];
      var step := ChildWalk(v, ci, allowed, base, number, folder, rootBase, need, rank);
      if c.layerFolder != 0 {
        assert step.0 == FolderWalk(v, ci, false, rootBase, need, rank);
        FolderRenamesLeaves(v, ci, false, rootBase, need, rank);
      } else if allowed && need(c.layerName) {
        assert step.0.renames == [Renamed(folder, c.mainId, NumberedName(base, number))];
        assert RenamesLeaf(v, need, step.0.renames[0]);
      }
      if step.0.err.None? {
        var rest := ChainWalk(v, c.layerNextIndex, allowed, base, step.1, folder, rootBase, need, rank);
        ChainRenamesLeaves(v, c.layerNextIndex, allowed, base, step.1, folder, rootBase, need, rank);
        assert ChainWalk(v, next, allowed, base, number, folder, rootBase, need, rank) == Then(step.0.renames, rest);
        var all := step.0.renames + rest.renames;
        forall k | |step.0.renames| <= k < |all| ensures all[k] == rest.renames[k - |step.0.renames|] {
        }
      }
    }
  }

  /** No two rows share a `main_id`. */
  predicate DistinctIds(v: seq<ClipLayer>)
  {
    forall i, j :: 0 <= i < j < |v| ==> v[i].mainId != v[j].mainId
  }

  /**
   * Folders are never renamed: when the rows' ids are distinct, the walk
   * leaves the name of every folder row as it was, and likewise that of
   * every row the predicate does not select.
   */
  lemma FolderNamesKept(v: seq<ClipLayer>, index: nat, root: bool, rootBase: string,
                        need: string -> bool, rank: map<u64, nat>, names: map<u64, string>, i: nat)
    requires index < |v| && Ranked(v, rank) && DistinctIds(v)
    requires i < |v| && (v[i].layerFolder != 0 || !need(v[i].layerName)) && v[i].mainId in names
    ensures var after := ApplyRenames(names, FolderWalk(v, index, root, rootBase, need, rank).renames);
            v[i].mainId in after && after[v[i].mainId] == names[v[i].mainId]
  {
    var rs := FolderWalk(v, index, root, rootBase, need, rank).renames;
    FolderRenamesLeaves(v, index, root, rootBase, need, rank);
    ApplyRenamesFrame(names, rs);
    forall j | 0 <= j < |rs| ensures rs[j].leaf != v[i].mainId {
      assert RenamesLeaf(v, need, rs[j]);
      var l :| 0 <= l < |v| && v[l].mainId == rs[j].leaf && v[l].layerFolder == 0 && need(v[l].layerName);
      assert l != i;
    }
  }

  /** A childless root folder and a leaf whose `main_id` is 0, sorted by `main_id`. */
  function ZeroIdRows(): (v: seq<ClipLayer>)
    ensures |v| == 2 && SortedByMainId(v)
  {
    [ClipLayer(2, 0, "leaf", 0, 0, 0, 0), ClipLayer(1, 1, "root", 256, 1, 0, 0)]
  }

  /**
   * A row with `main_id` 0 does not stop the table from being ranked, since
   * the link 0 is never followed; the walk of the childless root ends at
   * once with `Ok(())`.
   */
  lemma ZeroIdRanked(rootBase: string, need: string -> bool)
    ensures Ranked(ZeroIdRows(), map[0 := 0, 1 := 1])
    ensures FolderWalk(ZeroIdRows(), 1, true, rootBase, need, map[0 := 0, 1 := 1]) == Walk([], None)
  {
    var v, rank := ZeroIdRows(), map[0 := 0, 1 := 1];
    assert Ranked(v, rank);
  }

  /** A child or sibling id that no row has stops the walk with `UnknownFileStruct`, renaming nothing more. */
  lemma DanglingLink(v: seq<ClipLayer>, next: u64, allowed: bool, base: string, number: nat,
                     folder: u64, rootBase: string, need: string -> bool, rank: map<u64, nat>)
    requires Ranked(v, rank) && SortedByMainId(v) && next != 0 && !HasMainId(v, next)
    ensures ChainWalk(v, next, allowed, base, number, folder, rootBase, need, rank) == Walk([], Some(UnknownFileStruct))
  {
  }

  /** The ranking is a property of the rows, not of their order. */
  lemma RankedPermutation(rows: seq<ClipLayer>, v: seq<ClipLayer>, rank: map<u64, nat>)
    requires Ranked(rows, rank) && multiset(v) == multiset(rows)
    ensures Ranked(v, rank)
  {
    forall i | 0 <= i < |v|
      ensures v[i].mainId in rank
      ensures v[i].layerNextIndex != 0 && v[i].layerNextIndex in rank ==>
                rank[v[i].layerNextIndex] < rank[v[i].mainId]
      ensures v[i].layerFolder != 0 && v[i].layerFirstChildIndex != 0 && v[i].layerFirstChildIndex in rank ==>
                rank[v[i].layerFirstChildIndex] < rank[v[i].mainId]
    {
      assert v[i] in multiset(rows);
      var j :| 0 <= j < |rows| && rows[j] == v[i];
    }
  }
}
