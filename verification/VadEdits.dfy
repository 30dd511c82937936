/**
 The elementary edits that alloc, free, protect and coalesce make to the VAD array, each with the
 effect it has page by page. Every edit keeps the regions aligned, non-empty and disjoint.
 */
module VadEdits {
  import opened Common
  import opened Vads

  /** Cutting region `i` at `at` leaves two non-empty aligned pieces. */
  predicate Cuttable(r: Regions, i: int, at: int) {
    && 0 <= i < |r.vads|
    && at % PAGE == 0
    && r.vads[i].start < at < r.vads[i].end
  }

  function Part(h: Shadow, lo: int, hi: int): Shadow
    requires h.Slots? ==> 0 <= lo <= hi <= |h.slots|
  {
    if h.NoArray? then NoArray else Slots(h.slots[lo..hi])
  }

  function Front(h: Shadow, v: Vad, at: int): Shadow
    requires Fits(v, h) && First(v) <= at / PAGE <= Limit(v)
  {
    Part(h, 0, at / PAGE - First(v))
  }

  function Back(h: Shadow, v: Vad, at: int): Shadow
    requires Fits(v, h) && First(v) <= at / PAGE <= Limit(v)
  {
    Part(h, at / PAGE - First(v), Limit(v) - First(v))
  }

  /* ---- one region replaced by a region inside it ---- */

  function Replace(r: Regions, i: int, v: Vad, h: Shadow): Regions
    requires 0 <= i < |r.vads| == |r.shadows|
  {
    Regions(r.vads[i := v], r.shadows[i := h])
  }

  predicate Inside(v: Vad, u: Vad) { u.start <= v.start && v.end <= u.end }

  lemma ReplaceLayout(r: Regions, i: int, v: Vad, h: Shadow)
    requires Layout(r) && 0 <= i < |r.vads|
    requires WellFormed(v) && Inside(v, r.vads[i]) && Fits(v, h)
    ensures Layout(Replace(r, i, v, h))
  {
  }

  lemma ReplaceCell(r: Regions, i: int, v: Vad, h: Shadow, p: int)
    requires Layout(r) && 0 <= i < |r.vads|
    requires WellFormed(v) && Inside(v, r.vads[i]) && Fits(v, h)
    ensures Layout(Replace(r, i, v, h))
    ensures CellAt(Replace(r, i, v, h), p)
            == if Covers(v, p) then Some(CellOf(v, h, p)) else if Covers(r.vads[i], p) then None else CellAt(r, p)
  {
    ReplaceLayout(r, i, v, h);
    var r' := Replace(r, i, v, h);
    if k :| 0 <= k < |r.vads| && Covers(r.vads[k], p) {
      CellIs(r, k, p);
      if k != i {
        CellIs(r', k, p);
      } else if Covers(v, p) {
        CellIs(r', i, p);
      } else {
        forall j | 0 <= j < |r.vads| && j != i ensures !Covers(r'.vads[j], p) {
          assert i < j ==> Apart(r.vads[i], r.vads[j]);
          assert j < i ==> Apart(r.vads[j], r.vads[i]);
        }
      }
    }
  }

  /** Region `i` keeps the pages from `at` on. */
  function KeepBack(r: Regions, i: int, at: int): Regions
    requires Cuttable(r, i, at) && Layout(r)
  {
    Replace(r, i, r.vads[i].(start := at), Back(r.shadows[i], r.vads[i], at))
  }

  /** Region `i` keeps the pages before `at`. */
  function KeepFront(r: Regions, i: int, at: int): Regions
    requires Cuttable(r, i, at) && Layout(r)
  {
    Replace(r, i, r.vads[i].(end := at), Front(r.shadows[i], r.vads[i], at))
  }

  lemma KeepBackCells(r: Regions, i: int, at: int, p: int)
    requires Layout(r) && Cuttable(r, i, at)
    ensures Layout(KeepBack(r, i, at))
    ensures CellAt(KeepBack(r, i, at), p) == if r.vads[i].start <= p * PAGE < at then None else CellAt(r, p)
  {
    ReplaceCell(r, i, r.vads[i].(start := at), Back(r.shadows[i], r.vads[i], at), p);
    if Covers(r.vads[i], p) {
      CellIs(r, i, p);
    }
  }

  lemma KeepFrontCells(r: Regions, i: int, at: int, p: int)
    requires Layout(r) && Cuttable(r, i, at)
    ensures Layout(KeepFront(r, i, at))
    ensures CellAt(KeepFront(r, i, at), p) == if at <= p * PAGE < r.vads[i].end then None else CellAt(r, p)
  {
    ReplaceCell(r, i, r.vads[i].(end := at), Front(r.shadows[i], r.vads[i], at), p);
    if Covers(r.vads[i], p) {
      CellIs(r, i, p);
    }
  }

  /** `as->vads[idx].prot = prot`. */
  function Paint(r: Regions, i: int, prot: nat): Regions
    requires 0 <= i < |r.vads| && Layout(r)
  {
    Replace(r, i, r.vads[i].(prot := prot), r.shadows[i])
  }

  lemma PaintCells(r: Regions, i: int, prot: nat, p: int)
    requires Layout(r) && 0 <= i < |r.vads|
    ensures Layout(Paint(r, i, prot))
    ensures Covers(r.vads[i], p) ==> CellAt(r, p).Some?
    ensures CellAt(Paint(r, i, prot), p)
            == if Covers(r.vads[i], p) then Some(CellAt(r, p).value.(prot := prot)) else CellAt(r, p)
  {
    ReplaceCell(r, i, r.vads[i].(prot := prot), r.shadows[i], p);
    if Covers(r.vads[i], p) {
      CellIs(r, i, p);
    }
  }

  /* ---- a region appended over a hole ---- */

  /** `vad_append`. */
  function Append(r: Regions, v: Vad, h: Shadow): Regions {
    Regions(r.vads + [v], r.shadows + [h])
  }

  /** No region touches the pages of `v`. */
  ghost predicate Free(r: Regions, v: Vad) {
    forall i :: 0 <= i < |r.vads| ==> Apart(r.vads[i], v)
  }

  lemma AppendLayout(r: Regions, v: Vad, h: Shadow)
    requires Layout(r) && WellFormed(v) && Fits(v, h) && Free(r, v)
    ensures Layout(Append(r, v, h))
  {
  }

  lemma AppendCells(r: Regions, v: Vad, h: Shadow, p: int)
    requires Layout(r) && WellFormed(v) && Fits(v, h) && Free(r, v)
    ensures Layout(Append(r, v, h))
    ensures Covers(v, p) ==> CellAt(r, p) == None
    ensures CellAt(Append(r, v, h), p) == if Covers(v, p) then Some(CellOf(v, h, p)) else CellAt(r, p)
  {
    AppendLayout(r, v, h);
    var r' := Append(r, v, h);
    if Covers(v, p) {
      CellIs(r', |r.vads|, p);
      assert forall i :: 0 <= i < |r.vads| ==> !Covers(r.vads[i], p);
    } else if k :| 0 <= k < |r.vads| && Covers(r.vads[k], p) {
      CellIs(r, k, p);
      CellIs(r', k, p);
    }
  }

  /* ---- a region cut in two ---- */

  /** Region `i` keeps its back; its front is appended. */
  function CutFront(r: Regions, i: int, at: int): Regions
    requires Cuttable(r, i, at) && Layout(r)
  {
    Append(KeepBack(r, i, at), r.vads[i].(end := at), Front(r.shadows[i], r.vads[i], at))
  }

  /** Region `i` keeps its front; its back is appended. */
  function CutBack(r: Regions, i: int, at: int): Regions
    requires Cuttable(r, i, at) && Layout(r)
  {
    Append(KeepFront(r, i, at), r.vads[i].(start := at), Back(r.shadows[i], r.vads[i], at))
  }

  lemma CutFrontLayout(r: Regions, i: int, at: int)
    requires Layout(r) && Cuttable(r, i, at)
    ensures Layout(KeepBack(r, i, at)) && Layout(CutFront(r, i, at))
    ensures Free(KeepBack(r, i, at), r.vads[i].(end := at))
  {
    KeepBackCells(r, i, at, 0);
    forall j | 0 <= j < |r.vads| ensures Apart(KeepBack(r, i, at).vads[j], r.vads[i].(end := at)) {
      assert i < j ==> Apart(r.vads[i], r.vads[j]);
      assert j < i ==> Apart(r.vads[j], r.vads[i]);
    }
    AppendLayout(KeepBack(r, i, at), r.vads[i].(end := at), Front(r.shadows[i], r.vads[i], at));
  }

  lemma CutBackLayout(r: Regions, i: int, at: int)
    requires Layout(r) && Cuttable(r, i, at)
    ensures Layout(KeepFront(r, i, at)) && Layout(CutBack(r, i, at))
    ensures Free(KeepFront(r, i, at), r.vads[i].(start := at))
  {
    KeepFrontCells(r, i, at, 0);
    forall j | 0 <= j < |r.vads| ensures Apart(KeepFront(r, i, at).vads[j], r.vads[i].(start := at)) {
      assert i < j ==> Apart(r.vads[i], r.vads[j]);
      assert j < i ==> Apart(r.vads[j], r.vads[i]);
    }
    AppendLayout(KeepFront(r, i, at), r.vads[i].(start := at), Back(r.shadows[i], r.vads[i], at));
  }

  lemma CutFrontCells(r: Regions, i: int, at: int, p: int)
    requires Layout(r) && Cuttable(r, i, at)
    ensures Layout(CutFront(r, i, at))
    ensures CellAt(CutFront(r, i, at), p) == CellAt(r, p)
  {
    CutFrontLayout(r, i, at);
    KeepBackCells(r, i, at, p);
    AppendCells(KeepBack(r, i, at), r.vads[i].(end := at), Front(r.shadows[i], r.vads[i], at), p);
    if Covers(r.vads[i], p) {
      CellIs(r, i, p);
    }
  }

  lemma CutBackCells(r: Regions, i: int, at: int, p: int)
    requires Layout(r) && Cuttable(r, i, at)
    ensures Layout(CutBack(r, i, at))
    ensures CellAt(CutBack(r, i, at), p) == CellAt(r, p)
  {
    CutBackLayout(r, i, at);
    KeepFrontCells(r, i, at, p);
    AppendCells(KeepFront(r, i, at), r.vads[i].(start := at), Back(r.shadows[i], r.vads[i], at), p);
    if Covers(r.vads[i], p) {
      CellIs(r, i, p);
    }
  }

  /* ---- a region removed by moving the last one into its place ---- */

  /** `vad_remove_at`, on both arrays. */
  function Remove(r: Regions, i: int): Regions
    requires 0 <= i < |r.vads| == |r.shadows|
  {
    Regions(RemoveAt(r.vads, i), RemoveAt(r.shadows, i))
  }

  /** Where the entry that `Remove` leaves at `j` was before. */
  function Was(r: Regions, i: int, j: int): int {
    if j == i then |r.vads| - 1 else j
  }

  lemma RemovedEntries(r: Regions, i: int, j: int)
    requires 0 <= i < |r.vads| == |r.shadows| && 0 <= j < |r.vads| - 1
    ensures Remove(r, i).vads[j] == r.vads[Was(r, i, j)]
    ensures Remove(r, i).shadows[j] == r.shadows[Was(r, i, j)]
  {
  }

  lemma RemoveLayout(r: Regions, i: int)
    requires Layout(r) && 0 <= i < |r.vads|
    ensures Layout(Remove(r, i))
  {
    var r' := Remove(r, i);
    forall j, k | 0 <= j < k < |r'.vads| ensures Apart(r'.vads[j], r'.vads[k]) {
      assert k == i ==> Apart(r.vads[j], r.vads[|r.vads| - 1]);
      assert j == i ==> Apart(r.vads[k], r.vads[|r.vads| - 1]);
    }
  }

  lemma RemoveCells(r: Regions, i: int, p: int)
    requires Layout(r) && 0 <= i < |r.vads|
    ensures Layout(Remove(r, i))
    ensures CellAt(Remove(r, i), p) == if Covers(r.vads[i], p) then None else CellAt(r, p)
  {
    RemoveLayout(r, i);
    var r' := Remove(r, i);
    if j :| 0 <= j < |r'.vads| && Covers(r'.vads[j], p) {
      RemovedEntries(r, i, j);
      CellIs(r', j, p);
      CellIs(r, Was(r, i, j), p);
      if Covers(r.vads[i], p) {
        OnlyOneCovers(r, i, Was(r, i, j), p);
      }
    } else if k :| 0 <= k < |r.vads| && Covers(r.vads[k], p) && k != i {
      var j := if k == |r.vads| - 1 then i else k;
      RemovedEntries(r, i, j);
    }
  }
}
