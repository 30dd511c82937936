/**
 The VAD array of a user address space, and what it says about each page.

 Addresses are byte addresses, as in the source; page numbers are addresses divided by PAGE.
 `vads[i]` and `shadows[i]` are the parallel arrays `as->vads[]` and `as->host_pages[]`.
 */
module Vads {
  import opened Common

  const MAX_VADS: int := 64
  /** One past USER_CANONICAL_TOP. */
  const ADDRESS_END: int := 0x8000_0000_0000
  /** USER_COMMIT_MAX in pages. */
  const COMMIT_PAGES: int := 8192

  datatype Vad = Vad(start: nat, end: nat, prot: nat, kind: nat, committed: nat)

  /** One entry of a shadow array: NULL, or a 4 KiB block of the kernel heap. */
  datatype Slot = Null | Block(id: nat)

  /** `host_pages[i]`: NULL until the region is first touched. */
  datatype Shadow = NoArray | Slots(slots: seq<Slot>)

  /** What one mapped page of the address space is. */
  datatype Cell = Cell(prot: nat, kind: nat, committed: nat, slot: Slot)

  function First(v: Vad): int { v.start / PAGE }

  function Limit(v: Vad): int { v.end / PAGE }

  predicate Covers(v: Vad, p: int) { v.start <= p * PAGE < v.end }

  predicate WellFormed(v: Vad) {
    && v.start % PAGE == 0
    && v.end % PAGE == 0
    && v.start < v.end <= ADDRESS_END
  }

  lemma PageCount(v: Vad)
    requires WellFormed(v)
    ensures (v.end - v.start) / PAGE == Limit(v) - First(v) > 0
  {
  }

  predicate Apart(u: Vad, v: Vad) { u.end <= v.start || v.end <= u.start }

  predicate Fits(v: Vad, h: Shadow) { h.Slots? ==> |h.slots| == Limit(v) - First(v) }

  /** The two parallel arrays, `vad_count` entries of each. */
  datatype Regions = Regions(vads: seq<Vad>, shadows: seq<Shadow>)

  ghost predicate Layout(r: Regions) {
    && |r.vads| == |r.shadows|
    && (forall i :: 0 <= i < |r.vads| ==> WellFormed(r.vads[i]))
    && (forall i, j :: 0 <= i < j < |r.vads| ==> Apart(r.vads[i], r.vads[j]))
    && (forall i :: 0 <= i < |r.vads| ==> Fits(r.vads[i], r.shadows[i]))
  }

  function CellOf(v: Vad, h: Shadow, p: int): Cell
    requires WellFormed(v) && Covers(v, p) && Fits(v, h)
  {
    Cell(v.prot, v.kind, v.committed, if h.NoArray? then Null else h.slots[p - First(v)])
  }

  ghost function CellAt(r: Regions, p: int): Option<Cell>
    requires Layout(r)
  {
    if exists i :: 0 <= i < |r.vads| && Covers(r.vads[i], p) then
      var i :| 0 <= i < |r.vads| && Covers(r.vads[i], p);
      Some(CellOf(r.vads[i], r.shadows[i], p))
    else
      None
  }

  lemma OnlyOneCovers(r: Regions, i: int, j: int, p: int)
    requires Layout(r)
    requires 0 <= i < |r.vads| && 0 <= j < |r.vads| && Covers(r.vads[i], p) && Covers(r.vads[j], p)
    ensures i == j
  {
    assert i < j ==> Apart(r.vads[i], r.vads[j]);
    assert j < i ==> Apart(r.vads[j], r.vads[i]);
  }

  /** Regions are disjoint, so any region that covers a page decides its cell. */
  lemma CellIs(r: Regions, i: int, p: int)
    requires Layout(r)
    requires 0 <= i < |r.vads| && Covers(r.vads[i], p)
    ensures CellAt(r, p) == Some(CellOf(r.vads[i], r.shadows[i], p))
  {
    var k :| 0 <= k < |r.vads| && Covers(r.vads[k], p) && CellAt(r, p) == Some(CellOf(r.vads[k], r.shadows[k], p));
    OnlyOneCovers(r, i, k, p);
  }

  /** The sum of the page counts of all regions. */
  function PagesOf(vads: seq<Vad>): int {
    if vads == [] then 0
    else PagesOf(vads[..|vads| - 1]) + (Limit(vads[|vads| - 1]) - First(vads[|vads| - 1]))
  }

  lemma {:induction false} PagesOfNatural(vads: seq<Vad>)
    requires forall i :: 0 <= i < |vads| ==> WellFormed(vads[i])
    ensures PagesOf(vads) >= |vads|
  {
    if vads != [] {
      PagesOfNatural(vads[..|vads| - 1]);
      PageCount(vads[|vads| - 1]);
    }
  }

  lemma {:induction false} PagesOfUpdate(vads: seq<Vad>, i: int, v: Vad)
    requires 0 <= i < |vads|
    ensures PagesOf(vads[i := v]) == PagesOf(vads) - (Limit(vads[i]) - First(vads[i])) + (Limit(v) - First(v))
  {
    var n := |vads| - 1;
    if i == n {
      assert vads[i := v][..n] == vads[..n];
    } else {
      PagesOfUpdate(vads[..n], i, v);
      assert vads[i := v][..n] == vads[..n][i := v];
    }
  }

  lemma PagesOfAppend(vads: seq<Vad>, v: Vad)
    ensures PagesOf(vads + [v]) == PagesOf(vads) + (Limit(v) - First(v))
  {
    assert (vads + [v])[..|vads|] == vads;
  }

  /** Swap-with-last removal, as `vad_remove_at` does it on either array. */
  function RemoveAt<T>(s: seq<T>, i: int): seq<T>
    requires 0 <= i < |s|
  {
    s[i := s[|s| - 1]][..|s| - 1]
  }

  lemma PagesOfRemove(vads: seq<Vad>, i: int)
    requires 0 <= i < |vads|
    ensures PagesOf(RemoveAt(vads, i)) == PagesOf(vads) - (Limit(vads[i]) - First(vads[i]))
  {
    var n := |vads| - 1;
    var moved := vads[i := vads[n]];
    PagesOfUpdate(vads, i, vads[n]);
    assert PagesOf(moved) == PagesOf(moved[..n]) + (Limit(vads[n]) - First(vads[n]));
  }
}
