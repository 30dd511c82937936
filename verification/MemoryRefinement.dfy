/**
 How the VAD array, the shadow arrays and the kernel heap together stand for flat memory, and that
 each edit of them is the matching event of the specification.
 */
module MemoryRefinement {
  import opened Common
  import opened Vads
  import opened VadEdits
  import opened VadOperations
  import FlatMemory

  type Cells = map<int, Cell>
  type Heap = map<nat, seq<byte>>

  /** The mapped pages that the two arrays describe. */
  ghost function CellsOf(r: Regions): Cells
    requires Layout(r)
  {
    map p: int | 0 <= p < ADDRESS_END / PAGE && CellAt(r, p).Some? :: CellAt(r, p).value
  }

  lemma InCells(r: Regions, p: int)
    requires Layout(r)
    ensures p in CellsOf(r) <==> CellAt(r, p).Some?
    ensures p in CellsOf(r) ==> CellAt(r, p) == Some(CellsOf(r)[p])
  {
  }

  ghost predicate Agrees(r: Regions, c: Cells, p: int)
    requires Layout(r)
  {
    CellAt(r, p) == if p in c then Some(c[p]) else None
  }

  lemma CellsAre(r: Regions, c: Cells)
    requires Layout(r) && forall p :: Agrees(r, c, p)
    ensures CellsOf(r) == c
  {
    forall p ensures p in CellsOf(r) <==> p in c ensures p in c ==> CellsOf(r)[p] == c[p] {
      assert Agrees(r, c, p);
      InCells(r, p);
    }
  }

  /* ---- the edits as functions on the mapped pages ---- */

  ghost function Reprotect(c: Cells, lo: int, hi: int, prot: nat): Cells {
    map p | p in c :: if lo <= p < hi then c[p].(prot := prot) else c[p]
  }

  ghost function Unmap(c: Cells, lo: int, hi: int): Cells {
    map p | p in c && !(lo <= p < hi) :: c[p]
  }

  ghost function Extend(c: Cells, lo: int, hi: int, cell: Cell): Cells {
    c + map p: int | lo <= p < hi && Within(p, lo, hi) :: cell
  }

  ghost predicate AllMapped(c: Cells, lo: int, hi: int) {
    forall p :: lo <= p < hi ==> p in c
  }

  ghost predicate NoneMapped(c: Cells, lo: int, hi: int) {
    forall p :: lo <= p < hi ==> p !in c
  }

  lemma ProtectIsReprotect(r: Regions, i: int, base: int, end: int, prot: nat)
    requires Layout(r) && Target(r, i, base, end)
    ensures Layout(Protect(r, i, base, end, prot))
    ensures AllMapped(CellsOf(r), base / PAGE, end / PAGE)
    ensures CellsOf(Protect(r, i, base, end, prot)) == Reprotect(CellsOf(r), base / PAGE, end / PAGE, prot)
  {
    ProtectCells(r, i, base, end, prot, 0);
    var r', c, lo, hi := Protect(r, i, base, end, prot), CellsOf(r), base / PAGE, end / PAGE;
    forall p ensures lo <= p < hi ==> p in c ensures Agrees(r', Reprotect(c, lo, hi, prot), p) {
      ProtectCells(r, i, base, end, prot, p);
      InCells(r, p);
    }
    CellsAre(r', Reprotect(c, lo, hi, prot));
  }

  lemma ReleaseIsUnmap(r: Regions, i: int, base: int, end: int)
    requires Layout(r) && Target(r, i, base, end)
    ensures Layout(Release(r, i, base, end))
    ensures AllMapped(CellsOf(r), base / PAGE, end / PAGE)
    ensures CellsOf(Release(r, i, base, end)) == Unmap(CellsOf(r), base / PAGE, end / PAGE)
  {
    ReleaseCells(r, i, base, end, 0);
    var r', c, lo, hi := Release(r, i, base, end), CellsOf(r), base / PAGE, end / PAGE;
    forall p ensures lo <= p < hi ==> p in c ensures Agrees(r', Unmap(c, lo, hi), p) {
      ReleaseCells(r, i, base, end, p);
      InCells(r, p);
    }
    CellsAre(r', Unmap(c, lo, hi));
  }

  lemma MergeKeepsCells(r: Regions, keep: int, eat: int)
    requires Layout(r) && 0 <= keep < |r.vads| && 0 <= eat < |r.vads| && keep != eat
    requires Mergeable(r.vads[keep], r.vads[eat])
    ensures Layout(Merge(r, keep, eat))
    ensures CellsOf(Merge(r, keep, eat)) == CellsOf(r)
  {
    MergeCells(r, keep, eat, 0);
    forall p ensures CellAt(Merge(r, keep, eat), p) == CellAt(r, p) {
      MergeCells(r, keep, eat, p);
    }
  }

  lemma AppendIsExtend(r: Regions, v: Vad)
    requires Layout(r) && WellFormed(v) && VadEdits.Free(r, v)
    ensures Layout(Append(r, v, NoArray))
    ensures NoneMapped(CellsOf(r), First(v), Limit(v))
    ensures CellsOf(Append(r, v, NoArray))
            == Extend(CellsOf(r), First(v), Limit(v), Cell(v.prot, v.kind, v.committed, Null))
  {
    AppendLayout(r, v, NoArray);
    var r', c, lo, hi := Append(r, v, NoArray), CellsOf(r), First(v), Limit(v);
    var c' := Extend(c, lo, hi, Cell(v.prot, v.kind, v.committed, Null));
    forall p ensures lo <= p < hi ==> p !in c ensures Agrees(r', c', p) {
      AppendCells(r, v, NoArray, p);
      InCells(r, p);
    }
    CellsAre(r', c');
  }

  function Nulls(n: nat): seq<Slot> {
    seq(n, _ => Null)
  }

  /** Giving a region its array of NULL slots changes no page. */
  lemma TouchKeepsCells(r: Regions, i: int)
    requires Layout(r) && 0 <= i < |r.vads| && r.shadows[i].NoArray?
    ensures var r' := Replace(r, i, r.vads[i], Slots(Nulls(Limit(r.vads[i]) - First(r.vads[i]))));
            Layout(r') && CellsOf(r') == CellsOf(r)
  {
    var h := Slots(Nulls(Limit(r.vads[i]) - First(r.vads[i])));
    ReplaceLayout(r, i, r.vads[i], h);
    forall p ensures CellAt(Replace(r, i, r.vads[i], h), p) == CellAt(r, p) {
      ReplaceCell(r, i, r.vads[i], h, p);
      if Covers(r.vads[i], p) {
        CellIs(r, i, p);
      }
    }
  }

  function Filled(r: Regions, i: int, p: int, id: nat): Regions
    requires Layout(r) && 0 <= i < |r.vads| && Covers(r.vads[i], p) && r.shadows[i].Slots?
  {
    Replace(r, i, r.vads[i], Slots(r.shadows[i].slots[p - First(r.vads[i]) := Block(id)]))
  }

  lemma FilledCell(r: Regions, i: int, p: int, id: nat, q: int)
    requires Layout(r) && 0 <= i < |r.vads| && Covers(r.vads[i], p) && r.shadows[i].Slots?
    ensures Layout(Filled(r, i, p, id)) && CellAt(r, p).Some?
    ensures CellAt(Filled(r, i, p, id), q) == if q == p then Some(CellAt(r, p).value.(slot := Block(id))) else CellAt(r, q)
  {
    var h := Slots(r.shadows[i].slots[p - First(r.vads[i]) := Block(id)]);
    ReplaceCell(r, i, r.vads[i], h, q);
    CellIs(r, i, p);
    if Covers(r.vads[i], q) {
      CellIs(r, i, q);
    }
  }

  lemma FilledCells(r: Regions, i: int, p: int, id: nat)
    requires Layout(r) && 0 <= i < |r.vads| && Covers(r.vads[i], p) && r.shadows[i].Slots?
    ensures Layout(Filled(r, i, p, id)) && p in CellsOf(r)
    ensures CellsOf(Filled(r, i, p, id)) == CellsOf(r)[p := CellsOf(r)[p].(slot := Block(id))]
  {
    FilledCell(r, i, p, id, p);
    InCells(r, p);
    var c := CellsOf(r);
    var c' := c[p := c[p].(slot := Block(id))];
    forall q ensures Agrees(Filled(r, i, p, id), c', q) {
      FilledCell(r, i, p, id, q);
      InCells(r, q);
    }
    CellsAre(Filled(r, i, p, id), c');
  }

  /* ---- what the cells and the heap stand for ---- */

  function SlotBytes(s: Slot, heap: Heap): seq<byte> {
    if s.Block? && s.id in heap then heap[s.id] else FlatMemory.ZeroPage()
  }

  function PageOf(c: Cell, heap: Heap): FlatMemory.PageView {
    FlatMemory.PageView(c.prot, c.kind, c.committed, SlotBytes(c.slot, heap))
  }

  /** The flat memory that the data structures represent. */
  ghost function ViewOf(c: Cells, heap: Heap): FlatMemory.Memory {
    map p | p in c :: PageOf(c[p], heap)
  }

  /**
   Every heap block is the slot of exactly one page, its home, and every filled slot names a heap
   block: no block is shared, lost or dangling.
   */
  ghost predicate Housed(c: Cells, heap: Heap, home: map<nat, int>, next: nat) {
    && home.Keys == heap.Keys
    && (forall id :: id in heap ==> id < next && |heap[id]| == PAGE)
    && (forall id :: id in heap ==> home[id] in c && c[home[id]].slot == Block(id))
    && (forall p :: p in c && c[p].slot.Block? ==> c[p].slot.id in heap && home[c[p].slot.id] == p)
  }

  lemma ProtectRefines(c: Cells, heap: Heap, home: map<nat, int>, next: nat, lo: int, hi: int, prot: nat)
    requires Housed(c, heap, home, next) && AllMapped(c, lo, hi)
    ensures Housed(Reprotect(c, lo, hi, prot), heap, home, next)
    ensures FlatMemory.Legal(ViewOf(c, heap), FlatMemory.Event.Protect(lo, hi, prot))
    ensures ViewOf(Reprotect(c, lo, hi, prot), heap)
            == FlatMemory.Apply(ViewOf(c, heap), FlatMemory.Event.Protect(lo, hi, prot))
  {
  }

  lemma AllocRefines(c: Cells, heap: Heap, home: map<nat, int>, next: nat, lo: int, hi: int, prot: nat, kind: nat)
    requires Housed(c, heap, home, next) && NoneMapped(c, lo, hi)
    ensures Housed(Extend(c, lo, hi, Cell(prot, kind, 1, Null)), heap, home, next)
    ensures FlatMemory.Legal(ViewOf(c, heap), FlatMemory.Alloc(lo, hi, prot, kind))
    ensures ViewOf(Extend(c, lo, hi, Cell(prot, kind, 1, Null)), heap)
            == FlatMemory.Apply(ViewOf(c, heap), FlatMemory.Alloc(lo, hi, prot, kind))
  {
    hide Housed, Extend, ViewOf, FlatMemory.Apply;
    AllocHoused(c, heap, home, next, lo, hi, prot, kind);
    AllocView(c, heap, lo, hi, prot, kind);
  }

  lemma AllocView(c: Cells, heap: Heap, lo: int, hi: int, prot: nat, kind: nat)
    requires NoneMapped(c, lo, hi)
    ensures FlatMemory.Legal(ViewOf(c, heap), FlatMemory.Alloc(lo, hi, prot, kind))
    ensures ViewOf(Extend(c, lo, hi, Cell(prot, kind, 1, Null)), heap)
            == FlatMemory.Apply(ViewOf(c, heap), FlatMemory.Alloc(lo, hi, prot, kind))
  {
  }

  lemma AllocHoused(c: Cells, heap: Heap, home: map<nat, int>, next: nat, lo: int, hi: int, prot: nat, kind: nat)
    requires Housed(c, heap, home, next) && NoneMapped(c, lo, hi)
    ensures Housed(Extend(c, lo, hi, Cell(prot, kind, 1, Null)), heap, home, next)
  {
  }

  /** The heap once the blocks whose home lies in the pages [lo, hi) are freed. */
  ghost function Drop(heap: Heap, home: map<nat, int>, lo: int, hi: int): Heap
    requires home.Keys == heap.Keys
  {
    map id | id in heap && !(lo <= home[id] < hi) :: heap[id]
  }

  ghost function DropHome(home: map<nat, int>, lo: int, hi: int): map<nat, int> {
    map id | id in home && !(lo <= home[id] < hi) :: home[id]
  }

  lemma ReleaseRefines(c: Cells, heap: Heap, home: map<nat, int>, next: nat, lo: int, hi: int)
    requires Housed(c, heap, home, next) && AllMapped(c, lo, hi)
    ensures Housed(Unmap(c, lo, hi), Drop(heap, home, lo, hi), DropHome(home, lo, hi), next)
    ensures FlatMemory.Legal(ViewOf(c, heap), FlatMemory.Event.Free(lo, hi))
    ensures ViewOf(Unmap(c, lo, hi), Drop(heap, home, lo, hi))
            == FlatMemory.Apply(ViewOf(c, heap), FlatMemory.Event.Free(lo, hi))
  {
  }

  /** A fresh zero block behind an untouched page is not visible. */
  lemma FillRefines(c: Cells, heap: Heap, home: map<nat, int>, next: nat, p: int)
    requires Housed(c, heap, home, next) && p in c && c[p].slot.Null?
    ensures var c' := c[p := c[p].(slot := Block(next))];
            && Housed(c', heap[next := FlatMemory.ZeroPage()], home[next := p], next + 1)
            && ViewOf(c', heap[next := FlatMemory.ZeroPage()]) == ViewOf(c, heap)
  {
    var c', heap' := c[p := c[p].(slot := Block(next))], heap[next := FlatMemory.ZeroPage()];
    forall q | q in c ensures PageOf(c'[q], heap') == PageOf(c[q], heap) {
      assert SlotBytes(c'[q].slot, heap') == SlotBytes(c[q].slot, heap);
    }
    assert home[next := p].Keys == heap'.Keys;
    assert ViewOf(c', heap') == ViewOf(c, heap);
  }

  lemma OverlayElsewhere(bytes: seq<byte>, at: int, va: int, data: seq<byte>)
    requires at + |bytes| <= va || va + |data| <= at
    ensures FlatMemory.Overlay(bytes, at, va, data) == bytes
  {
  }

  /** A store inside one page's block is the write event. */
  lemma StoreRefines(c: Cells, heap: Heap, home: map<nat, int>, next: nat, p: int, id: nat, va: int, data: seq<byte>)
    requires Housed(c, heap, home, next) && p in c && c[p].slot == Block(id)
    requires p * PAGE <= va && va + |data| <= p * PAGE + PAGE
    ensures id in heap
    ensures Housed(c, heap[id := FlatMemory.Overlay(heap[id], p * PAGE, va, data)], home, next)
    ensures ViewOf(c, heap[id := FlatMemory.Overlay(heap[id], p * PAGE, va, data)])
            == FlatMemory.Apply(ViewOf(c, heap), FlatMemory.Write(va, data))
  {
    hide FlatMemory.Overlay;
    var heap' := heap[id := FlatMemory.Overlay(heap[id], p * PAGE, va, data)];
    forall q | q in c && q != p
      ensures SlotBytes(c[q].slot, heap') == FlatMemory.Overlay(SlotBytes(c[q].slot, heap), q * PAGE, va, data)
    {
      assert |SlotBytes(c[q].slot, heap)| == PAGE;
      OverlayElsewhere(SlotBytes(c[q].slot, heap), q * PAGE, va, data);
    }
  }
}
