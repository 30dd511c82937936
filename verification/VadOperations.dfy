/**
 What protect, free and coalesce do to the whole VAD array: exact page-by-page effect, page totals,
 and which ranges stay inside a single region.
 */
module VadOperations {
  import opened Common
  import opened Vads
  import opened VadEdits

  /** `vad_contains_range`: region `i` holds all of [base, end). */
  predicate Contains(v: Vad, base: int, end: int) { v.start <= base && end <= v.end }

  ghost predicate InOne(r: Regions, base: int, end: int) {
    exists i :: 0 <= i < |r.vads| && Contains(r.vads[i], base, end)
  }

  /** Every range inside one region of `r` that does not meet [base, end) is inside one region of `r'`. */
  ghost predicate KeepsOthers(r: Regions, r': Regions, base: int, end: int) {
    forall lo, hi :: InOne(r, lo, hi) && (hi <= base || end <= lo) ==> InOne(r', lo, hi)
  }

  predicate Target(r: Regions, i: int, base: int, end: int) {
    && 0 <= i < |r.vads|
    && base % PAGE == 0 && end % PAGE == 0
    && base < end
    && Contains(r.vads[i], base, end)
  }

  /* ---- protect on a range inside one region ---- */

  function Isolate(r: Regions, i: int, base: int, end: int): Regions
    requires Layout(r) && Target(r, i, base, end)
  {
    IsolateLayout(r, i, base, end);
    var r1 := if r.vads[i].start < base then CutFront(r, i, base) else r;
    if end < r.vads[i].end then CutBack(r1, i, end) else r1
  }

  lemma IsolateLayout(r: Regions, i: int, base: int, end: int)
    requires Layout(r) && Target(r, i, base, end)
    ensures r.vads[i].start < base ==> Cuttable(r, i, base) && Layout(CutFront(r, i, base))
    ensures var r1 := if r.vads[i].start < base then CutFront(r, i, base) else r;
            && Layout(r1) && i < |r1.vads|
            && r1.vads[i] == r.vads[i].(start := base)
            && (end < r.vads[i].end ==> Cuttable(r1, i, end) && Layout(CutBack(r1, i, end)))
  {
    if r.vads[i].start < base {
      CutFrontLayout(r, i, base);
    }
    var r1 := if r.vads[i].start < base then CutFront(r, i, base) else r;
    if end < r.vads[i].end {
      CutBackLayout(r1, i, end);
    }
  }

  lemma IsolateCells(r: Regions, i: int, base: int, end: int, p: int)
    requires Layout(r) && Target(r, i, base, end)
    ensures Layout(Isolate(r, i, base, end))
    ensures i < |Isolate(r, i, base, end).vads|
    ensures Isolate(r, i, base, end).vads[i] == r.vads[i].(start := base, end := end)
    ensures CellAt(Isolate(r, i, base, end), p) == CellAt(r, p)
  {
    IsolateLayout(r, i, base, end);
    if r.vads[i].start < base {
      CutFrontCells(r, i, base, p);
    }
    var r1 := if r.vads[i].start < base then CutFront(r, i, base) else r;
    if end < r.vads[i].end {
      CutBackCells(r1, i, end, p);
    }
  }

  /** The arrays after the contained path of `vmm_protect_user`: middle in place, then prefix, then suffix. */
  function Protect(r: Regions, i: int, base: int, end: int, prot: nat): Regions
    requires Layout(r) && Target(r, i, base, end)
  {
    IsolateCells(r, i, base, end, 0);
    Paint(Isolate(r, i, base, end), i, prot)
  }

  lemma UpdatePrefix<T>(s: seq<T>, i: int, a: T, b: T, tail: seq<T>)
    requires 0 <= i < |s|
    ensures (s[i := a] + tail)[i := b] == s[i := b] + tail && s[i := a][i := b] == s[i := b]
  {
  }

  /** The arrays after a protect, written out: the middle in place, then the prefix, then the suffix. */
  lemma ProtectVads(r: Regions, i: int, base: int, end: int, prot: nat)
    requires Layout(r) && Target(r, i, base, end)
    ensures var v := r.vads[i];
            Protect(r, i, base, end, prot).vads
            == r.vads[i := Vad(base, end, prot, v.kind, v.committed)]
               + (if v.start < base then [v.(end := base)] else [])
               + (if end < v.end then [v.(start := end)] else [])
  {
    hide Layout;
    IsolateLayout(r, i, base, end);
    IsolateCells(r, i, base, end, 0);
    var v := r.vads[i];
    var u, mid := v.(start := base), Vad(base, end, prot, v.kind, v.committed);
    var front := if v.start < base then [v.(end := base)] else [];
    var back := if end < v.end then [v.(start := end)] else [];
    var r1 := if v.start < base then CutFront(r, i, base) else r;
    assert r1.vads == r.vads[i := u] + front;
    UpdatePrefix(r.vads, i, u, u.(end := end), front);
    assert Isolate(r, i, base, end).vads == r.vads[i := u.(end := end)] + front + back;
    UpdatePrefix(r.vads, i, u.(end := end), mid, front + back);
    assert r.vads[i := u.(end := end)] + front + back == r.vads[i := u.(end := end)] + (front + back);
    assert r.vads[i := mid] + front + back == r.vads[i := mid] + (front + back);
  }

  lemma FrontShadows(r: Regions, i: int, base: int, end: int)
    requires Layout(r) && Target(r, i, base, end)
    ensures var v, h := r.vads[i], r.shadows[i];
            var lo, n := base / PAGE - First(v), Limit(v) - First(v);
            && 0 <= lo <= n && (h.Slots? ==> |h.slots| == n)
            && (if v.start < base then CutFront(r, i, base) else r).shadows
               == r.shadows[i := Part(h, lo, n)] + (if v.start < base then [Part(h, 0, lo)] else [])
  {
    hide Layout;
    IsolateLayout(r, i, base, end);
    CutBounds(r, i, base, end);
    var v, h := r.vads[i], r.shadows[i];
    PartOfPart(h, 0, 0, Limit(v) - First(v));
  }

  lemma BackShadows(r1: Regions, i: int, end: int)
    requires Layout(r1) && 0 <= i < |r1.vads| && end % PAGE == 0 && r1.vads[i].start < end <= r1.vads[i].end
    ensures var v, h := r1.vads[i], r1.shadows[i];
            var hi, n := end / PAGE - First(v), Limit(v) - First(v);
            && 0 <= hi <= n && (h.Slots? ==> |h.slots| == n)
            && (if end < v.end then CutBack(r1, i, end) else r1).shadows
               == r1.shadows[i := Part(h, 0, hi)] + (if end < v.end then [Part(h, hi, n)] else [])
  {
    var v, h := r1.vads[i], r1.shadows[i];
    assert WellFormed(v) && Fits(v, h);
    PartOfPart(h, 0, 0, Limit(v) - First(v));
  }

  lemma ProtectShadows(r: Regions, i: int, base: int, end: int, prot: nat)
    requires Layout(r) && Target(r, i, base, end)
    ensures var v, h := r.vads[i], r.shadows[i];
            var lo, hi, n := base / PAGE - First(v), end / PAGE - First(v), Limit(v) - First(v);
            Protect(r, i, base, end, prot).shadows
            == r.shadows[i := Part(h, lo, hi)]
               + (if v.start < base then [Part(h, 0, lo)] else [])
               + (if end < v.end then [Part(h, hi, n)] else [])
  {
    hide Layout, WellFormed, Part, CutFront, CutBack;
    IsolateLayout(r, i, base, end);
    IsolateCells(r, i, base, end, 0);
    CutBounds(r, i, base, end);
    FrontShadows(r, i, base, end);
    var v, h := r.vads[i], r.shadows[i];
    var lo, hi, n := base / PAGE - First(v), end / PAGE - First(v), Limit(v) - First(v);
    var front := if v.start < base then [Part(h, 0, lo)] else [];
    var r1 := if v.start < base then CutFront(r, i, base) else r;
    BackShadows(r1, i, end);
    PartOfPart(h, lo, hi, n);
    UpdatePrefix(r.shadows, i, Part(h, lo, n), Part(h, lo, hi), front);
  }

  lemma CutBounds(r: Regions, i: int, base: int, end: int)
    requires Layout(r) && Target(r, i, base, end)
    ensures |r.vads| == |r.shadows| && Fits(r.vads[i], r.shadows[i])
    ensures First(r.vads[i]) <= base / PAGE < end / PAGE <= Limit(r.vads[i])
    ensures base == r.vads[i].start <==> base / PAGE == First(r.vads[i])
    ensures end == r.vads[i].end <==> end / PAGE == Limit(r.vads[i])
  {
    assert WellFormed(r.vads[i]) && Fits(r.vads[i], r.shadows[i]);
  }

  lemma PartOfPart(h: Shadow, lo: int, hi: int, n: int)
    requires 0 <= lo <= hi <= n && (h.Slots? ==> |h.slots| == n)
    ensures Part(Part(h, lo, n), 0, hi - lo) == Part(h, lo, hi)
    ensures Part(Part(h, lo, n), hi - lo, n - lo) == Part(h, hi, n)
    ensures Part(h, 0, n) == h
  {
  }

  /** Protect changes the protection of exactly the pages of the range, whatever their slots hold. */
  lemma ProtectCells(r: Regions, i: int, base: int, end: int, prot: nat, p: int)
    requires Layout(r) && Target(r, i, base, end)
    ensures Layout(Protect(r, i, base, end, prot))
    ensures base <= p * PAGE < end ==> CellAt(r, p).Some? && CellAt(r, p).value.prot == r.vads[i].prot
    ensures CellAt(Protect(r, i, base, end, prot), p)
            == if base <= p * PAGE < end then Some(CellAt(r, p).value.(prot := prot)) else CellAt(r, p)
  {
    IsolateCells(r, i, base, end, p);
    PaintCells(Isolate(r, i, base, end), i, prot, p);
    if base <= p * PAGE < end {
      CellIs(r, i, p);
    }
  }

  lemma CutFrontInOne(r: Regions, i: int, at: int, lo: int, hi: int)
    requires Layout(r) && Cuttable(r, i, at)
    requires InOne(r, lo, hi) && (hi <= at || at <= lo)
    ensures InOne(CutFront(r, i, at), lo, hi)
  {
    var k :| 0 <= k < |r.vads| && Contains(r.vads[k], lo, hi);
    var r' := CutFront(r, i, at);
    assert r'.vads[|r.vads|] == r.vads[i].(end := at);
    assert k != i || at <= lo ==> Contains(r'.vads[k], lo, hi);
  }

  lemma CutBackInOne(r: Regions, i: int, at: int, lo: int, hi: int)
    requires Layout(r) && Cuttable(r, i, at)
    requires InOne(r, lo, hi) && (hi <= at || at <= lo)
    ensures InOne(CutBack(r, i, at), lo, hi)
  {
    var k :| 0 <= k < |r.vads| && Contains(r.vads[k], lo, hi);
    var r' := CutBack(r, i, at);
    assert r'.vads[|r.vads|] == r.vads[i].(start := at);
    assert k != i || hi <= at ==> Contains(r'.vads[k], lo, hi);
  }

  /** A range on one side of the protected one that was inside a single region still is. */
  lemma ProtectInOne(r: Regions, i: int, base: int, end: int, prot: nat, lo: int, hi: int)
    requires Layout(r) && Target(r, i, base, end)
    requires InOne(r, lo, hi) && (hi <= base || end <= lo)
    ensures InOne(Protect(r, i, base, end, prot), lo, hi)
  {
    IsolateLayout(r, i, base, end);
    if r.vads[i].start < base {
      CutFrontInOne(r, i, base, lo, hi);
    }
    var r1 := if r.vads[i].start < base then CutFront(r, i, base) else r;
    if end < r.vads[i].end {
      CutBackInOne(r1, i, end, lo, hi);
    }
    var r2 := Isolate(r, i, base, end);
    var k :| 0 <= k < |r2.vads| && Contains(r2.vads[k], lo, hi);
    assert Contains(Protect(r, i, base, end, prot).vads[k], lo, hi);
  }

  lemma ProtectKeepsOthers(r: Regions, i: int, base: int, end: int, prot: nat)
    requires Layout(r) && Target(r, i, base, end)
    ensures KeepsOthers(r, Protect(r, i, base, end, prot), base, end)
  {
    forall lo, hi | InOne(r, lo, hi) && (hi <= base || end <= lo)
      ensures InOne(Protect(r, i, base, end, prot), lo, hi)
    {
      ProtectInOne(r, i, base, end, prot, lo, hi);
    }
  }

  /* ---- free of a range inside one region ---- */

  function Release(r: Regions, i: int, base: int, end: int): Regions
    requires Layout(r) && Target(r, i, base, end)
  {
    var v := r.vads[i];
    if v.start < base && end < v.end then
      CutBackLayout(r, i, base);
      KeepBack(CutBack(r, i, base), |r.vads|, end)
    else if v.start < base then KeepFront(r, i, base)
    else if end < v.end then KeepBack(r, i, end)
    else Remove(r, i)
  }

  /** The four shapes of a release, with the slot arrays written out. */
  lemma ReleaseArrays(r: Regions, i: int, base: int, end: int)
    requires Layout(r) && Target(r, i, base, end)
    ensures var v, h := r.vads[i], r.shadows[i];
            var front := Part(h, 0, base / PAGE - First(v));
            var back := Part(h, end / PAGE - First(v), Limit(v) - First(v));
            Release(r, i, base, end) ==
            if v.start < base && end < v.end then
              Regions(r.vads[i := v.(end := base)] + [v.(start := end)], r.shadows[i := front] + [back])
            else if v.start < base then Regions(r.vads[i := v.(end := base)], r.shadows[i := front])
            else if end < v.end then Regions(r.vads[i := v.(start := end)], r.shadows[i := back])
            else Regions(RemoveAt(r.vads, i), RemoveAt(r.shadows, i))
  {
    var v, h := r.vads[i], r.shadows[i];
    if v.start < base && end < v.end {
      CutBackLayout(r, i, base);
      var cut := CutBack(r, i, base);
      var tail := Back(h, v, base);
      assert Back(tail, v.(start := base), end) == Back(h, v, end);
      assert cut.vads[|r.vads| := v.(start := end)] == r.vads[i := v.(end := base)] + [v.(start := end)];
      assert cut.shadows[|r.vads| := Back(h, v, end)] == r.shadows[i := Front(h, v, base)] + [Back(h, v, end)];
    }
  }

  /** Free turns exactly the pages of the range into holes. */
  lemma ReleaseCells(r: Regions, i: int, base: int, end: int, p: int)
    requires Layout(r) && Target(r, i, base, end)
    ensures Layout(Release(r, i, base, end))
    ensures base <= p * PAGE < end ==> CellAt(r, p) == Some(CellOf(r.vads[i], r.shadows[i], p))
    ensures CellAt(Release(r, i, base, end), p) == if base <= p * PAGE < end then None else CellAt(r, p)
  {
    var v := r.vads[i];
    if base <= p * PAGE < end {
      CellIs(r, i, p);
    }
    if v.start < base && end < v.end {
      CutBackCells(r, i, base, p);
      KeepBackCells(CutBack(r, i, base), |r.vads|, end, p);
    } else if v.start < base {
      KeepFrontCells(r, i, base, p);
    } else if end < v.end {
      KeepBackCells(r, i, end, p);
    } else {
      RemoveCells(r, i, p);
    }
  }

  /* ---- coalesce ---- */

  function Expand(h: Shadow, n: nat): seq<Slot> {
    if h.NoArray? then seq(n, _ => Null) else h.slots
  }

  /** The concatenated shadow; no array is made when neither half has one. */
  function Join(hk: Shadow, nk: nat, he: Shadow, ne: nat): Shadow {
    if hk.NoArray? && he.NoArray? then NoArray else Slots(Expand(hk, nk) + Expand(he, ne))
  }

  predicate Mergeable(u: Vad, v: Vad) {
    u.end == v.start && u.prot == v.prot && u.kind == v.kind && u.committed == v.committed
  }

  /** No two adjacent regions have equal attributes. */
  ghost predicate Coalesced(vads: seq<Vad>) {
    forall i, j :: 0 <= i < |vads| && 0 <= j < |vads| && i != j ==> !Mergeable(vads[i], vads[j])
  }

  function Grown(r: Regions, k: int, v: Vad, h: Shadow): Regions
    requires 0 <= k < |r.vads| == |r.shadows| && WellFormed(v) && WellFormed(r.vads[k])
  {
    var u := r.vads[k];
    Replace(r, k, u.(end := v.end), Join(r.shadows[k], Limit(u) - First(u), h, Limit(v) - First(v)))
  }

  /** One round of `vad_coalesce`. */
  function Merge(r: Regions, keep: int, eat: int): Regions
    requires Layout(r) && 0 <= keep < |r.vads| && 0 <= eat < |r.vads|
  {
    Remove(Grown(r, keep, r.vads[eat], r.shadows[eat]), eat)
  }

  lemma GrownLayout(r: Regions, k: int, v: Vad, h: Shadow)
    requires Layout(r) && 0 <= k < |r.vads|
    requires WellFormed(v) && Fits(v, h) && Free(r, v) && Mergeable(r.vads[k], v)
    ensures Layout(Grown(r, k, v, h))
  {
    forall j | 0 <= j < |r.vads| && j != k ensures Apart(r.vads[j], r.vads[k].(end := v.end)) {
      assert Apart(r.vads[j], v);
      assert k < j ==> Apart(r.vads[k], r.vads[j]);
      assert j < k ==> Apart(r.vads[j], r.vads[k]);
    }
  }

  lemma GrownCells(r: Regions, k: int, v: Vad, h: Shadow, p: int)
    requires Layout(r) && 0 <= k < |r.vads|
    requires WellFormed(v) && Fits(v, h) && Free(r, v) && Mergeable(r.vads[k], v)
    ensures Layout(Grown(r, k, v, h))
    ensures CellAt(Grown(r, k, v, h), p) == if Covers(v, p) then Some(CellOf(v, h, p)) else CellAt(r, p)
  {
    GrownLayout(r, k, v, h);
    var r' := Grown(r, k, v, h);
    if Covers(r'.vads[k], p) {
      CellIs(r', k, p);
      if Covers(r.vads[k], p) {
        CellIs(r, k, p);
      }
    } else if j :| 0 <= j < |r.vads| && Covers(r.vads[j], p) {
      CellIs(r, j, p);
      CellIs(r', j, p);
    }
  }

  /** Writing at `k` and then removing `e` is removing `e` and then writing where `k` went. */
  lemma UpdateThenRemove<T>(s: seq<T>, k: int, e: int, x: T)
    requires 0 <= k < |s| && 0 <= e < |s| && k != e
    ensures var at := if k == |s| - 1 then e else k;
            at < |s| - 1 && RemoveAt(s, e)[at] == s[k] && RemoveAt(s[k := x], e) == RemoveAt(s, e)[at := x]
  {
  }

  /** Growing the kept region and then removing the other equals doing it the other way round. */
  lemma MergeIsGrown(r: Regions, keep: int, eat: int)
    requires Layout(r) && 0 <= keep < |r.vads| && 0 <= eat < |r.vads| && keep != eat
    ensures Layout(Remove(r, eat))
    ensures var k := if keep == |r.vads| - 1 then eat else keep;
            && 0 <= k < |r.vads| - 1
            && Remove(r, eat).vads[k] == r.vads[keep]
            && Merge(r, keep, eat) == Grown(Remove(r, eat), k, r.vads[eat], r.shadows[eat])
  {
    RemoveLayout(r, eat);
    var g := Grown(r, keep, r.vads[eat], r.shadows[eat]);
    UpdateThenRemove(r.vads, keep, eat, g.vads[keep]);
    UpdateThenRemove(r.shadows, keep, eat, g.shadows[keep]);
  }

  lemma RemovedIsFree(r: Regions, i: int)
    requires Layout(r) && 0 <= i < |r.vads|
    ensures Free(Remove(r, i), r.vads[i])
  {
    forall j | 0 <= j < |r.vads| - 1 ensures Apart(Remove(r, i).vads[j], r.vads[i]) {
      RemovedEntries(r, i, j);
      var was := Was(r, i, j);
      assert i < was ==> Apart(r.vads[i], r.vads[was]);
      assert was < i ==> Apart(r.vads[was], r.vads[i]);
    }
  }

  /** A round of coalescing changes no page. */
  lemma MergeCells(r: Regions, keep: int, eat: int, p: int)
    requires Layout(r) && 0 <= keep < |r.vads| && 0 <= eat < |r.vads| && keep != eat
    requires Mergeable(r.vads[keep], r.vads[eat])
    ensures Layout(Merge(r, keep, eat))
    ensures CellAt(Merge(r, keep, eat), p) == CellAt(r, p)
  {
    MergeIsGrown(r, keep, eat);
    var k := if keep == |r.vads| - 1 then eat else keep;
    RemovedIsFree(r, eat);
    RemoveCells(r, eat, p);
    GrownCells(Remove(r, eat), k, r.vads[eat], r.shadows[eat], p);
    if Covers(r.vads[eat], p) {
      CellIs(r, eat, p);
    }
  }

  /** Coalescing never breaks a range up. */
  lemma MergeInOne(r: Regions, keep: int, eat: int, lo: int, hi: int)
    requires Layout(r) && 0 <= keep < |r.vads| && 0 <= eat < |r.vads| && keep != eat
    requires Mergeable(r.vads[keep], r.vads[eat])
    requires InOne(r, lo, hi)
    ensures InOne(Merge(r, keep, eat), lo, hi)
  {
    hide Layout, Merge;
    MergedVads(r, keep, eat);
    var i :| 0 <= i < |r.vads| && Contains(r.vads[i], lo, hi);
    var last := |r.vads| - 1;
    var from := if i == eat then keep else i;
    var k := if from == last then eat else from;
    assert Contains(Merge(r, keep, eat).vads[k], lo, hi);
  }

  lemma MergedVads(r: Regions, keep: int, eat: int)
    requires Layout(r) && 0 <= keep < |r.vads| && 0 <= eat < |r.vads|
    ensures Merge(r, keep, eat).vads == RemoveAt(r.vads[keep := r.vads[keep].(end := r.vads[eat].end)], eat)
    ensures r.vads[keep].start <= r.vads[keep].end && r.vads[eat].start <= r.vads[eat].end
  {
    hide Join;
    assert WellFormed(r.vads[keep]) && WellFormed(r.vads[eat]);
  }

  lemma MergeKeepsOthers(r: Regions, keep: int, eat: int)
    requires Layout(r) && 0 <= keep < |r.vads| && 0 <= eat < |r.vads| && keep != eat
    requires Mergeable(r.vads[keep], r.vads[eat])
    ensures KeepsOthers(r, Merge(r, keep, eat), 0, 0)
  {
    forall lo, hi | InOne(r, lo, hi) ensures InOne(Merge(r, keep, eat), lo, hi) {
      MergeInOne(r, keep, eat, lo, hi);
    }
  }

  /* ---- totals ---- */

  lemma CutFrontPages(r: Regions, i: int, at: int)
    requires Layout(r) && Cuttable(r, i, at)
    ensures PagesOf(CutFront(r, i, at).vads) == PagesOf(r.vads)
  {
    PagesOfUpdate(r.vads, i, r.vads[i].(start := at));
    PagesOfAppend(KeepBack(r, i, at).vads, r.vads[i].(end := at));
  }

  lemma CutBackPages(r: Regions, i: int, at: int)
    requires Layout(r) && Cuttable(r, i, at)
    ensures PagesOf(CutBack(r, i, at).vads) == PagesOf(r.vads)
  {
    PagesOfUpdate(r.vads, i, r.vads[i].(end := at));
    PagesOfAppend(KeepFront(r, i, at).vads, r.vads[i].(start := at));
  }

  lemma ProtectPages(r: Regions, i: int, base: int, end: int, prot: nat)
    requires Layout(r) && Target(r, i, base, end)
    ensures PagesOf(Protect(r, i, base, end, prot).vads) == PagesOf(r.vads)
    ensures |Protect(r, i, base, end, prot).vads|
            == |r.vads| + Cuts(r.vads[i], base, end)
  {
    hide Layout, CutFront, CutBack;
    ProtectVads(r, i, base, end, prot);
    IsolateLayout(r, i, base, end);
    IsolateCells(r, i, base, end, 0);
    if r.vads[i].start < base {
      CutFrontPages(r, i, base);
    }
    var r1 := if r.vads[i].start < base then CutFront(r, i, base) else r;
    if end < r.vads[i].end {
      CutBackPages(r1, i, end);
    }
    var r2 := Isolate(r, i, base, end);
    PagesOfUpdate(r2.vads, i, r2.vads[i].(prot := prot));
  }

  lemma ReleasePages(r: Regions, i: int, base: int, end: int)
    requires Layout(r) && Target(r, i, base, end)
    ensures PagesOf(Release(r, i, base, end).vads) == PagesOf(r.vads) - (end - base) / PAGE >= 0
    ensures |Release(r, i, base, end).vads|
            == |r.vads| + Cuts(r.vads[i], base, end) - 1
  {
    var v := r.vads[i];
    if v.start < base && end < v.end {
      CutBackLayout(r, i, base);
      PagesOfUpdate(r.vads, i, v.(end := base));
      PagesOfAppend(KeepFront(r, i, base).vads, v.(start := base));
      var cut := CutBack(r, i, base);
      PagesOfUpdate(cut.vads, |r.vads|, v.(start := end));
    } else if v.start < base {
      PagesOfUpdate(r.vads, i, v.(end := base));
    } else if end < v.end {
      PagesOfUpdate(r.vads, i, v.(start := end));
    } else {
      PagesOfRemove(r.vads, i);
    }
    ReleaseCells(r, i, base, end, 0);
    PagesOfNatural(Release(r, i, base, end).vads);
  }

  lemma MergePages(r: Regions, keep: int, eat: int)
    requires Layout(r) && 0 <= keep < |r.vads| && 0 <= eat < |r.vads| && keep != eat
    requires Mergeable(r.vads[keep], r.vads[eat])
    ensures PagesOf(Merge(r, keep, eat).vads) == PagesOf(r.vads)
    ensures |Merge(r, keep, eat).vads| == |r.vads| - 1
  {
    var u := r.vads[keep].(end := r.vads[eat].end);
    PagesOfUpdate(r.vads, keep, u);
    PagesOfRemove(r.vads[keep := u], eat);
  }

  /* ---- how many entries ---- */

  /** The number of pieces that [base, end) cuts off region `v`. */
  function Cuts(v: Vad, base: int, end: int): nat {
    (if v.start < base then 1 else 0) + (if end < v.end then 1 else 0)
  }

  ghost function Starts(vads: seq<Vad>): set<int> {
    set i | 0 <= i < |vads| :: vads[i].start
  }

  lemma {:induction false} StartsCount(vads: seq<Vad>)
    requires forall i, j :: 0 <= i < j < |vads| ==> vads[i].start != vads[j].start
    ensures |Starts(vads)| == |vads|
  {
    if vads != [] {
      var n := |vads| - 1;
      StartsCount(vads[..n]);
      assert Starts(vads) == Starts(vads[..n]) + {vads[n].start} by {
        forall a | a in Starts(vads) ensures a in Starts(vads[..n]) + {vads[n].start} {
          var i :| 0 <= i < |vads| && vads[i].start == a;
          assert i < n ==> vads[..n][i].start == a;
        }
        forall a | a in Starts(vads[..n]) ensures a in Starts(vads) {
          var i :| 0 <= i < n && vads[..n][i].start == a;
          assert vads[i].start == a;
        }
      }
    }
  }

  /** Regions are disjoint, so each is known by where it starts. */
  lemma RegionCount(r: Regions)
    requires Layout(r)
    ensures |Starts(r.vads)| == |r.vads|
  {
    forall i, j | 0 <= i < j < |r.vads| ensures r.vads[i].start != r.vads[j].start {
      assert Apart(r.vads[i], r.vads[j]) && WellFormed(r.vads[i]) && WellFormed(r.vads[j]);
    }
    StartsCount(r.vads);
  }

  /** A cut inside a region starts no region yet. */
  lemma InteriorStart(r: Regions, i: int, at: int)
    requires Layout(r) && 0 <= i < |r.vads| && r.vads[i].start < at < r.vads[i].end
    ensures at !in Starts(r.vads)
  {
    forall j | 0 <= j < |r.vads| ensures r.vads[j].start != at {
      assert WellFormed(r.vads[j]);
      assert i < j ==> Apart(r.vads[i], r.vads[j]);
      assert j < i ==> Apart(r.vads[j], r.vads[i]);
    }
  }

  /** A cut at `a` would split a region. */
  ghost predicate Interior(vads: seq<Vad>, a: int) {
    exists i :: 0 <= i < |vads| && vads[i].start < a < vads[i].end
  }

  /** How many of the two ends of a range split a region. */
  ghost function EndCuts(vads: seq<Vad>, base: int, end: int): nat {
    (if Interior(vads, base) then 1 else 0) + (if Interior(vads, end) then 1 else 0)
  }

  /** Where regions begin once both ends of a range are cut. */
  ghost function Seams(vads: seq<Vad>, base: int, end: int): set<int> {
    Starts(vads) + (if Interior(vads, base) then {base} else {}) + (if Interior(vads, end) then {end} else {})
  }

  lemma SeamsCount(r: Regions, base: int, end: int)
    requires Layout(r) && base < end
    ensures |Seams(r.vads, base, end)| == |r.vads| + EndCuts(r.vads, base, end)
  {
    hide Starts, Layout;
    RegionCount(r);
    var s := Starts(r.vads);
    if i :| 0 <= i < |r.vads| && r.vads[i].start < base < r.vads[i].end {
      InteriorStart(r, i, base);
    }
    if i :| 0 <= i < |r.vads| && r.vads[i].start < end < r.vads[i].end {
      InteriorStart(r, i, end);
    }
    var a := if Interior(r.vads, base) then {base} else {};
    var b := if Interior(r.vads, end) then {end} else {};
    assert |s + a| == |s| + |a| && |s + a + b| == |s + a| + |b|;
  }

  /** For a range inside one region, the ends that split are the pieces cut off it. */
  lemma CutsCount(r: Regions, i: int, base: int, end: int)
    requires Layout(r) && Target(r, i, base, end)
    ensures Cuts(r.vads[i], base, end) == EndCuts(r.vads, base, end)
  {
    var v := r.vads[i];
    forall j | 0 <= j < |r.vads| && j != i ensures !(r.vads[j].start < base < r.vads[j].end) && !(r.vads[j].start < end < r.vads[j].end) {
      assert i < j ==> Apart(r.vads[i], r.vads[j]);
      assert j < i ==> Apart(r.vads[j], r.vads[i]);
    }
    assert v.start < base ==> Interior(r.vads, base);
    assert end < v.end ==> Interior(r.vads, end);
  }

  lemma {:induction false} SubsetCount(a: set<int>, b: set<int>)
    requires a <= b
    ensures |a| <= |b|
  {
    assert b == a + (b - a);
  }

  /** Protect begins no region except where an end of its range splits one. */
  lemma ProtectStarts(r: Regions, i: int, base: int, end: int, prot: nat)
    requires Layout(r) && Target(r, i, base, end)
    ensures Starts(Protect(r, i, base, end, prot).vads) <= Seams(r.vads, base, end)
  {
    hide Layout, Protect;
    ProtectVads(r, i, base, end, prot);
    var v, vads := r.vads[i], Protect(r, i, base, end, prot).vads;
    assert v.start in Starts(r.vads);
    assert v.start < base ==> Interior(r.vads, base);
    assert end < v.end ==> Interior(r.vads, end);
    forall a | a in Starts(vads) ensures a in Seams(r.vads, base, end) {
      var k :| 0 <= k < |vads| && vads[k].start == a;
      assert k < |r.vads| && k != i ==> r.vads[k].start == a;
    }
  }

  /** Coalescing begins no region anywhere. */
  lemma MergeStarts(r: Regions, keep: int, eat: int)
    requires Layout(r) && 0 <= keep < |r.vads| && 0 <= eat < |r.vads|
    ensures Starts(Merge(r, keep, eat).vads) <= Starts(r.vads)
  {
    hide Layout, Merge;
    MergedVads(r, keep, eat);
    var vads := Merge(r, keep, eat).vads;
    forall a | a in Starts(vads) ensures a in Starts(r.vads) {
      var k :| 0 <= k < |vads| && vads[k].start == a;
      assert r.vads[if k == eat then |r.vads| - 1 else k].start == a;
    }
  }

  /* ---- regions that were never touched ---- */

  /** No region has a shadow array. */
  ghost predicate Bare(r: Regions) {
    forall i :: 0 <= i < |r.shadows| ==> r.shadows[i].NoArray?
  }

  lemma ProtectBare(r: Regions, i: int, base: int, end: int, prot: nat)
    requires Layout(r) && Target(r, i, base, end) && Bare(r)
    ensures Bare(Protect(r, i, base, end, prot))
  {
  }

  lemma ReleaseBare(r: Regions, i: int, base: int, end: int)
    requires Layout(r) && Target(r, i, base, end) && Bare(r)
    ensures Bare(Release(r, i, base, end))
  {
  }

  lemma MergeBare(r: Regions, keep: int, eat: int)
    requires Layout(r) && 0 <= keep < |r.vads| && 0 <= eat < |r.vads| && Bare(r)
    ensures Bare(Merge(r, keep, eat))
  {
  }
}
