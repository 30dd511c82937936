/**
 User address spaces with per-page shadows: alloc, free, protect, populate, read and write over the
 unsorted VAD array. The lock is a step boundary: every call runs to completion.
 */
module AddressSpaces {
  import opened Common
  import opened Vads
  import opened VadEdits
  import opened VadOperations
  import opened MemoryRefinement
  import FlatMemory

  const U64: int := 0x1_0000_0000_0000_0000
  const USER_HEAP_BASE: nat := 0x100_0000

  const PAGE_NOACCESS: nat := 0x01
  const PAGE_READONLY: nat := 0x02
  const PAGE_READWRITE: nat := 0x04
  const PAGE_EXECUTE: nat := 0x10
  const PAGE_EXECUTE_READ: nat := 0x20
  const PAGE_EXECUTE_READWRITE: nat := 0x40

  /** `prot & flag` for a single-bit flag. */
  predicate Has(prot: nat, flag: nat)
    requires flag > 0
  {
    prot / flag % 2 == 1
  }

  predicate WritableProt(prot: nat) {
    Has(prot, PAGE_READWRITE) || Has(prot, PAGE_EXECUTE_READWRITE)
  }

  predicate LegalProt(prot: nat) {
    && !Has(prot, PAGE_EXECUTE_READWRITE)
    && (Has(prot, PAGE_NOACCESS) || Has(prot, PAGE_READONLY) || Has(prot, PAGE_READWRITE)
        || Has(prot, PAGE_EXECUTE) || Has(prot, PAGE_EXECUTE_READ))
  }

  /** A protection made of some of the six flags. */
  function ProtOf(none: bool, r: bool, rw: bool, x: bool, rx: bool, rwx: bool): nat {
    (if none then 0x01 else 0) + (if r then 0x02 else 0) + (if rw then 0x04 else 0)
    + (if x then 0x10 else 0) + (if rx then 0x20 else 0) + (if rwx then 0x40 else 0)
  }

  /** A protection has exactly the flags it is made of. */
  lemma ProtFlags(none: bool, r: bool, rw: bool, x: bool, rx: bool, rwx: bool)
    ensures var p := ProtOf(none, r, rw, x, rx, rwx);
      && Has(p, PAGE_NOACCESS) == none && Has(p, PAGE_READONLY) == r && Has(p, PAGE_READWRITE) == rw
      && Has(p, PAGE_EXECUTE) == x && Has(p, PAGE_EXECUTE_READ) == rx && Has(p, PAGE_EXECUTE_READWRITE) == rwx
  {
  }

  /** Legal is what has some flag but not execute with read and write; a page can be written with either writing flag. */
  lemma LegalFlags(none: bool, r: bool, rw: bool, x: bool, rx: bool, rwx: bool)
    ensures LegalProt(ProtOf(none, r, rw, x, rx, rwx)) <==> !rwx && (none || r || rw || x || rx)
    ensures WritableProt(ProtOf(none, r, rw, x, rx, rwx)) <==> rw || rwx
  {
    hide Has, ProtOf;
    ProtFlags(none, r, rw, x, rx, rwx);
  }

  /** A page the kernel may read on the user's behalf. */
  ghost predicate Reachable(m: FlatMemory.Memory, p: int) {
    p in m && !Has(m[p].prot, PAGE_NOACCESS)
  }

  function AlignDown(a: nat): nat { a / PAGE * PAGE }

  /** PAGE_ALIGN_UP in 64-bit arithmetic: the sum may wrap. */
  function AlignUp(a: nat): nat { (a + PAGE - 1) % U64 / PAGE * PAGE }

  lemma AlignUpWhole(a: nat)
    ensures AlignUp(a) % PAGE == 0
  {
  }

  /** Where the rounded range ends. */
  function RangeEnd(base: nat, size: nat): nat { AlignDown(base) + AlignUp(size) }

  /** The protection that protect reports is the one page `p` had. */
  ghost predicate OldProt(m: FlatMemory.Memory, p: int, prot: Option<nat>) {
    p in m && prot == Some(m[p].prot)
  }

  /** Rounding yields the nearest multiple of a page below, and above as long as the sum does not wrap. */
  lemma Rounds(a: nat)
    requires a < U64
    ensures AlignDown(a) % PAGE == 0 && AlignDown(a) <= a < AlignDown(a) + PAGE
    ensures a + PAGE - 1 < U64 ==> AlignUp(a) % PAGE == 0 && a <= AlignUp(a) < a + PAGE
    ensures a + PAGE - 1 >= U64 ==> AlignUp(a) == 0
  {
  }

  /** The canonical-range test shared by alloc, free and protect, in 64-bit arithmetic. */
  predicate OutOfRange(base: nat, size: nat) {
    || base >= ADDRESS_END
    || (base + size) % U64 < base
    || (size != 0 && (base + size) % U64 - 1 >= ADDRESS_END)
  }

  lemma InRange(base: nat, size: nat)
    requires base < U64 && size < U64 && !OutOfRange(base, size)
    ensures size != 0 ==> base + size <= ADDRESS_END
    ensures size == 0 ==> base < ADDRESS_END
  {
  }

  /** Wrap-around included, the test refuses exactly what does not lie in the user half. */
  lemma OutOfRangeExactly(base: nat, size: nat)
    requires base < U64 && size < U64
    ensures OutOfRange(base, size) <==> base >= ADDRESS_END || base + size > ADDRESS_END
  {
  }

  /** The calls of a run, as the specification sees them. */
  class AddressSpace {
    var vads: seq<Vad>
    var shadows: seq<Shadow>
    var committedPages: nat
    var brk: nat
    /** The 4 KiB blocks of the kernel heap that this address space holds. */
    var heap: Heap
    var nextBlock: nat
    /** Whether the k-th heap request is granted; any pattern of failures is possible. */
    const grants: nat -> bool
    var calls: nat
    /** The page each block backs. */
    ghost var home: map<nat, int>
    /** The history of alloc, free, protect and write. */
    ghost var log: seq<FlatMemory.Event>

    ghost function Arrays(): Regions
      reads this
    {
      Regions(vads, shadows)
    }

    ghost predicate Sound()
      reads this
    {
      && Layout(Arrays())
      && |shadows| == |vads| <= MAX_VADS
      && committedPages == PagesOf(vads) <= COMMIT_PAGES
      && brk % PAGE == 0
      && Housed(CellsOf(Arrays()), heap, home, nextBlock)
    }

    ghost function View(): FlatMemory.Memory
      requires Sound()
      reads this
    {
      ViewOf(CellsOf(Arrays()), heap)
    }

    ghost predicate Valid()
      reads this
    {
      Sound() && FlatMemory.LegalLog(log) && View() == FlatMemory.Replay(log)
    }

    constructor (grants: nat -> bool)
      ensures Valid() && View() == map[] && log == [] && heap == map[] && this.grants == grants
    {
      vads, shadows, committedPages, brk := [], [], 0, USER_HEAP_BASE;
      heap, nextBlock, calls, home, log := map[], 0, 0, map[], [];
      this.grants := grants;
    }

    /** `kalloc_zero` of anything that is not a page. */
    method Kalloc() returns (ok: bool)
      modifies this`calls
      ensures calls == old(calls) + 1 && ok == grants(old(calls))
    {
      ok := grants(calls);
      calls := calls + 1;
    }

    ghost predicate NeverRefused(from: nat)
      reads this
    {
      forall k :: from <= k < calls ==> grants(k)
    }

    /* ---- lookups ---- */

    method VadLookup(page: nat) returns (idx: int)
      ensures -1 <= idx < |vads|
      ensures idx >= 0 ==> vads[idx].start <= page < vads[idx].end
      ensures idx < 0 ==> forall i :: 0 <= i < |vads| ==> !(vads[i].start <= page < vads[i].end)
    {
      for i := 0 to |vads|
        invariant forall k :: 0 <= k < i ==> !(vads[k].start <= page < vads[k].end)
      {
        if page >= vads[i].start && page < vads[i].end {
          return i;
        }
      }
      return -1;
    }

    method VadContainsRange(base: nat, end: nat) returns (idx: int)
      ensures -1 <= idx < |vads|
      ensures idx >= 0 ==> base < end && Contains(vads[idx], base, end)
      ensures idx < 0 ==> end <= base || !InOne(Arrays(), base, end)
    {
      if end <= base {
        return -1;
      }
      for i := 0 to |vads|
        invariant forall k :: 0 <= k < i ==> !Contains(vads[k], base, end)
      {
        if base >= vads[i].start && end <= vads[i].end {
          return i;
        }
      }
      return -1;
    }

    /* ---- coalesce ---- */

    /** The double loop that looks for an adjacent pair with equal attributes. */
    method FindPair() returns (keep: int, eat: int)
      ensures keep < 0 ==> Coalesced(vads)
      ensures keep >= 0 ==> keep < |vads| && 0 <= eat < |vads| && keep != eat && Mergeable(vads[keep], vads[eat])
    {
      for i := 0 to |vads|
        invariant forall a, b :: 0 <= a < i && 0 <= b < |vads| && a != b ==> !Mergeable(vads[a], vads[b])
      {
        for j := 0 to |vads|
          invariant forall b :: 0 <= b < j && i != b ==> !Mergeable(vads[i], vads[b])
        {
          if i != j && Mergeable(vads[i], vads[j]) {
            return i, j;
          }
        }
      }
      return -1, -1;
    }

    /** Copies `n` slots of `from`, starting at `at`; NULLs when there is no array. */
    static method CopySlots(from: Shadow, at: nat, n: nat) returns (copy: seq<Slot>)
      requires from.Slots? ==> at + n <= |from.slots|
      ensures copy == if from.NoArray? then seq(n, _ => Null) else from.slots[at..at + n]
    {
      copy := [];
      for p := 0 to n
        invariant copy == if from.NoArray? then seq(p, _ => Null) else from.slots[at..at + p]
      {
        copy := copy + [if from.Slots? then from.slots[at + p] else Null];
      }
    }

    method VadRemoveAt(i: nat)
      requires i < |vads| == |shadows|
      modifies this`vads, this`shadows
      ensures Arrays() == Remove(old(Arrays()), i)
    {
      shadows := shadows[i := shadows[|vads| - 1]][..|vads| - 1];
      vads := vads[i := vads[|vads| - 1]][..|vads| - 1];
    }

    /** The concatenated shadow array of an adjacent pair. */
    static method JoinShadows(hk: Shadow, nk: nat, he: Shadow, ne: nat) returns (comb: Shadow)
      requires (hk.Slots? ==> |hk.slots| == nk) && (he.Slots? ==> |he.slots| == ne)
      ensures comb == Join(hk, nk, he, ne)
    {
      if hk.NoArray? && he.NoArray? {
        return NoArray;
      }
      var front := CopySlots(hk, 0, nk);
      var back := CopySlots(he, 0, ne);
      comb := Slots(front + back);
    }

    /** Joins the shadows of the pair and drops the second region. */
    method JoinArrays(keep: nat, eat: nat)
      requires Layout(Arrays()) && keep < |vads| && eat < |vads| && keep != eat && Mergeable(vads[keep], vads[eat])
      modifies this`vads, this`shadows
      ensures Arrays() == Merge(old(Arrays()), keep, eat)
    {
      hide Layout, WellFormed, First, Limit, Join;
      var nk, ne := (vads[keep].end - vads[keep].start) / PAGE, (vads[eat].end - vads[eat].start) / PAGE;
      SlotCount(Arrays(), keep);
      SlotCount(Arrays(), eat);
      var comb := JoinShadows(shadows[keep], nk, shadows[eat], ne);
      vads, shadows := vads[keep := vads[keep].(end := vads[eat].end)], shadows[keep := comb];
      VadRemoveAt(eat);
    }

    method JoinPair(keep: nat, eat: nat)
      requires Valid() && keep < |vads| && eat < |vads| && keep != eat && Mergeable(vads[keep], vads[eat])
      modifies this`vads, this`shadows
      ensures Valid() && View() == old(View()) && |vads| == old(|vads|) - 1
      ensures KeepsOthers(old(Arrays()), Arrays(), 0, 0)
      ensures Starts(vads) <= old(Starts(vads)) && (old(Bare(Arrays())) ==> Bare(Arrays()))
    {
      MergeKeepsCells(Arrays(), keep, eat);
      MergePages(Arrays(), keep, eat);
      MergeKeepsOthers(Arrays(), keep, eat);
      MergeStarts(Arrays(), keep, eat);
      if Bare(Arrays()) {
        MergeBare(Arrays(), keep, eat);
      }
      JoinArrays(keep, eat);
    }

    /**
     Coalescing is invisible. It stops early only when the heap refuses the joined array; otherwise
     no adjacent pair with equal attributes is left.
     */
    method VadCoalesce()
      requires Valid()
      modifies this`vads, this`shadows, this`calls
      ensures Valid() && View() == old(View())
      ensures |vads| <= old(|vads|) && calls >= old(calls)
      ensures NeverRefused(old(calls)) ==> Coalesced(vads)
      ensures KeepsOthers(old(Arrays()), Arrays(), 0, 0)
      ensures Starts(vads) <= old(Starts(vads)) && (old(Bare(Arrays())) ==> Bare(Arrays()) && Coalesced(vads))
    {
      hide Layout, CellsOf, ViewOf, Housed, PagesOf, FlatMemory.Replay, FlatMemory.LegalLog, Starts;
      while true
        invariant Valid() && View() == old(View())
        invariant |vads| <= old(|vads|) && calls >= old(calls)
        invariant NeverRefused(old(calls))
        invariant KeepsOthers(old(Arrays()), Arrays(), 0, 0)
        invariant Starts(vads) <= old(Starts(vads)) && (old(Bare(Arrays())) ==> Bare(Arrays()))
        decreases |vads|
      {
        var keep, eat := FindPair();
        if keep < 0 {
          return;
        }
        if shadows[keep].Slots? || shadows[eat].Slots? {
          var ok := Kalloc();
          if !ok {
            assert !grants(calls - 1);
            return;
          }
        }
        JoinPair(keep, eat);
      }
    }

    /* ---- populate ---- */

    /** A kernel access to page `p` is allowed: mapped and not PAGE_NOACCESS (and writable, for a write). */
    ghost predicate Accessible(p: int, write: bool)
      requires Sound()
      reads this
    {
      && p in View()
      && !Has(View()[p].prot, PAGE_NOACCESS)
      && (write ==> WritableProt(View()[p].prot))
    }

    /** Gives region `idx` its slot array if it has none. */
    method EnsureArray(idx: nat) returns (ok: bool)
      requires Sound() && idx < |vads|
      modifies this`shadows, this`calls
      ensures Sound() && View() == old(View()) && calls >= old(calls)
      ensures NeverRefused(old(calls)) ==> ok
      ensures ok ==> shadows[idx].Slots?
    {
      hide CellsOf, ViewOf, Housed, PagesOf, FlatMemory.Replay, FlatMemory.LegalLog;
      if shadows[idx].NoArray? {
        ok := Kalloc();
        if ok {
          PageCount(vads[idx]);
          TouchKeepsCells(Arrays(), idx);
          assert vads[idx := vads[idx]] == vads;
          shadows := shadows[idx := Slots(Nulls((vads[idx].end - vads[idx].start) / PAGE))];
        }
      } else {
        ok := true;
      }
    }

    /** Puts a zeroed block behind page `p` of region `idx` if it has none. */
    method EnsureBlock(idx: nat, p: nat) returns (ok: bool)
      requires Sound() && idx < |vads| && Covers(vads[idx], p) && shadows[idx].Slots?
      modifies this`shadows, this`calls, this`heap, this`nextBlock, this`home
      ensures Sound() && View() == old(View()) && calls >= old(calls)
      ensures NeverRefused(old(calls)) ==> ok
      ensures ok ==> shadows[idx].Slots? && shadows[idx].slots[p - First(vads[idx])].Block?
    {
      hide CellsOf, ViewOf, Housed, PagesOf, FlatMemory.Replay, FlatMemory.LegalLog;
      var pi := p - First(vads[idx]);
      if shadows[idx].slots[pi].Null? {
        ok := Kalloc();
        if ok {
          FilledCells(Arrays(), idx, p, nextBlock);
          CellIs(Arrays(), idx, p);
          InCells(Arrays(), p);
          FillRefines(CellsOf(Arrays()), heap, home, nextBlock, p);
          assert vads[idx := vads[idx]] == vads;
          shadows := shadows[idx := Slots(shadows[idx].slots[pi := Block(nextBlock)])];
          heap := heap[nextBlock := FlatMemory.ZeroPage()];
          home := home[nextBlock := p];
          nextBlock := nextBlock + 1;
        }
      } else {
        ok := true;
      }
    }

    /** Page `p` has a block of its own. */
    ghost predicate Backed(p: int)
      requires Sound()
      reads this
    {
      p in CellsOf(Arrays()) && CellsOf(Arrays())[p].slot.Block?
    }

    /**
     Demand-zero fill of one page: refused exactly when the page is not mapped with access, and
     invisible to readers.
     */
    method PopulatePage(page: nat, write: bool) returns (st: Status)
      requires Sound() && page % PAGE == 0
      modifies this`shadows, this`calls, this`heap, this`nextBlock, this`home
      ensures Sound() && View() == old(View()) && calls >= old(calls)
      ensures st in {Success, AccessViolation, NoMemory}
      ensures st == AccessViolation <==> !Accessible(page / PAGE, write)
      ensures NeverRefused(old(calls)) ==> st != NoMemory
      ensures st == Success ==> Backed(page / PAGE)
    {
      hide CellsOf, ViewOf, Housed, PagesOf, FlatMemory.Replay, FlatMemory.LegalLog;
      var idx := VadLookup(page);
      PageLookup(Arrays(), heap, idx, page / PAGE);
      if idx < 0 {
        return AccessViolation;
      }
      var prot := vads[idx].prot;
      if Has(prot, PAGE_NOACCESS) {
        return AccessViolation;
      }
      if write && !WritableProt(prot) {
        return AccessViolation;
      }
      var ok := EnsureArray(idx);
      if !ok {
        return NoMemory;
      }
      ok := EnsureBlock(idx, page / PAGE);
      if !ok {
        return NoMemory;
      }
      PageLookup(Arrays(), heap, idx, page / PAGE);
      return Success;
    }

    /* ---- read and write ---- */

    /** `memcpy` into the block behind page `p`. */
    method Store(p: nat, va: nat, data: seq<byte>)
      requires Sound() && Backed(p)
      requires p * PAGE <= va && va + |data| <= p * PAGE + PAGE
      modifies this`heap
      ensures Sound() && View() == FlatMemory.Apply(old(View()), FlatMemory.Write(va, data))
    {
      hide CellsOf, ViewOf, PagesOf;
      var idx := VadLookup(p * PAGE);
      PageLookup(Arrays(), heap, idx, p);
      var id := shadows[idx].slots[p - First(vads[idx])].id;
      StoreRefines(CellsOf(Arrays()), heap, home, nextBlock, p, id, va, data);
      var off := va - p * PAGE;
      OverlayIsSplice(heap[id], p * PAGE, va, data);
      heap := heap[id := heap[id][..off] + data + heap[id][off + |data|..]];
    }

    /** The bytes of the block behind page `p`, from `va` on. */
    method Load(p: nat, va: nat, n: nat) returns (data: seq<byte>)
      requires Sound() && Backed(p)
      requires p * PAGE <= va && va + n <= p * PAGE + PAGE
      ensures |data| == n && forall k :: 0 <= k < n ==> FlatMemory.ByteAt(View(), va + k) == Some(data[k])
    {
      hide CellsOf, ViewOf, PagesOf;
      var idx := VadLookup(p * PAGE);
      PageLookup(Arrays(), heap, idx, p);
      var id := shadows[idx].slots[p - First(vads[idx])].id;
      var off := va - p * PAGE;
      data := heap[id][off..off + n];
      forall k | 0 <= k < n ensures FlatMemory.ByteAt(View(), va + k) == Some(data[k]) {
        assert (va + k) / PAGE == p && (va + k) % PAGE == off + k;
      }
    }

    /**
     Writes `src` at `va`, page by page. On failure the first `done` bytes are written and nothing
     else changed; the failing page is the one that holds byte `done`.
     */
    method WriteAspace(va: nat, src: seq<byte>) returns (st: Status, ghost done: nat)
      requires Valid()
      modifies this`shadows, this`calls, this`heap, this`nextBlock, this`home, this`log
      ensures Valid() && done <= |src| && calls >= old(calls)
      ensures View() == FlatMemory.Apply(old(View()), FlatMemory.Write(va, src[..done]))
      ensures log == old(log) + if done == 0 then [] else [FlatMemory.Write(va, src[..done])]
      ensures st == InvalidParameter <==> src == []
      ensures st == Success <==> src != [] && done == |src|
      ensures st == AccessViolation ==> done < |src| && !old(Accessible((va + done) / PAGE, false))
      ensures st in {Success, InvalidParameter, AccessViolation, NoMemory}
      ensures NeverRefused(old(calls)) ==> st != NoMemory
    {
      hide CellsOf, ViewOf, Housed, PagesOf, Layout, FlatMemory.Replay, FlatMemory.LegalLog;
      hide FlatMemory.Apply, FlatMemory.Legal, AddressSpace.Sound;
      done := 0;
      FlatMemory.EmptyWrite(View(), va);
      assert src[..0] == [];
      if src == [] {
        return InvalidParameter, 0;
      }
      ghost var m := View();
      st := Success;
      var i := 0;
      while i < |src| && st == Success
        invariant 0 <= i <= |src| && Sound() && calls >= old(calls) && done == i && log == old(log)
        invariant View() == FlatMemory.Apply(m, FlatMemory.Write(va, src[..i]))
        invariant i > 0 ==> FlatMemory.Legal(m, FlatMemory.Write(va, src[..i]))
        invariant st in {Success, AccessViolation, NoMemory}
        invariant NeverRefused(old(calls)) ==> st != NoMemory
        invariant st == AccessViolation ==> i < |src| && !Reachable(m, (va + i) / PAGE)
        invariant st != Success ==> i < |src|
        decreases |src| - i, if st == Success then 1 else 0
      {
        st, i := WriteChunk(va, src, i, m);
        done := i;
      }
      assert src[..|src|] == src;
      if i > 0 {
        Record(m, va, src[..i]);
      }
    }

    /** Adds a write to the history. */
    ghost method Record(m: FlatMemory.Memory, va: nat, data: seq<byte>)
      requires Sound() && FlatMemory.LegalLog(log) && FlatMemory.Replay(log) == m
      requires FlatMemory.Legal(m, FlatMemory.Write(va, data)) && View() == FlatMemory.Apply(m, FlatMemory.Write(va, data))
      modifies this`log
      ensures Valid() && View() == old(View()) && log == old(log) + [FlatMemory.Write(va, data)]
    {
      hide CellsOf, ViewOf, Housed, PagesOf, Layout, FlatMemory.Replay, FlatMemory.LegalLog;
      hide FlatMemory.Apply, FlatMemory.Legal;
      FlatMemory.ReplayAppend(log, FlatMemory.Write(va, data));
      log := log + [FlatMemory.Write(va, data)];
    }

    /** The part of a write that falls into one page. */
    method WriteChunk(va: nat, src: seq<byte>, i: nat, ghost m: FlatMemory.Memory) returns (st: Status, j: nat)
      requires Sound() && i < |src| && View() == FlatMemory.Apply(m, FlatMemory.Write(va, src[..i]))
      requires i > 0 ==> FlatMemory.Legal(m, FlatMemory.Write(va, src[..i]))
      modifies this`shadows, this`calls, this`heap, this`nextBlock, this`home
      ensures Sound() && calls >= old(calls) && i <= j <= |src|
      ensures View() == FlatMemory.Apply(m, FlatMemory.Write(va, src[..j]))
      ensures j > 0 ==> FlatMemory.Legal(m, FlatMemory.Write(va, src[..j]))
      ensures st in {Success, AccessViolation, NoMemory} && (st == Success <==> j > i)
      ensures NeverRefused(old(calls)) ==> st != NoMemory
      ensures st == AccessViolation ==> !Reachable(m, (va + i) / PAGE)
    {
      hide CellsOf, ViewOf, Housed, PagesOf, Layout, FlatMemory.Replay, FlatMemory.LegalLog;
      hide FlatMemory.Apply, FlatMemory.Legal;
      j := i;
      var page := AlignDown(va + i);
      WriteKeepsPages(m, va, src[..i], page / PAGE);
      st := PopulatePage(page, false);
      if st == Success {
        var off := va + i - page;
        var chunk := if |src| - i < PAGE - off then |src| - i else PAGE - off;
        Store(page / PAGE, va + i, src[i..i + chunk]);
        NextPiece(m, va, src, i, i + chunk, page / PAGE);
        j := i + chunk;
      }
    }

    /**
     Reads `n` bytes at `va`. Every byte delivered is the one the history of calls last put there,
     or zero; reading changes nothing that can be read.
     */
    method ReadAspace(va: nat, n: nat) returns (st: Status, data: seq<byte>)
      requires Valid()
      modifies this`shadows, this`calls, this`heap, this`nextBlock, this`home
      ensures Valid() && View() == old(View()) && calls >= old(calls)
      ensures st == InvalidParameter <==> n == 0
      ensures st == Success ==> |data| == n
      ensures |data| <= n && forall k :: 0 <= k < |data| ==> FlatMemory.LastByte(log, va + k) == Some(data[k])
      ensures st == AccessViolation ==> |data| < n && !old(Accessible((va + |data|) / PAGE, false))
      ensures st in {Success, InvalidParameter, AccessViolation, NoMemory}
      ensures NeverRefused(old(calls)) ==> st != NoMemory
    {
      hide CellsOf, ViewOf, Housed, PagesOf, Layout, FlatMemory.Replay, FlatMemory.LegalLog, FlatMemory.LastByte;
      data := [];
      if n == 0 {
        return InvalidParameter, [];
      }
      st := Success;
      while |data| < n && st == Success
        invariant |data| <= n && Valid() && View() == old(View()) && calls >= old(calls)
        invariant forall k :: 0 <= k < |data| ==> FlatMemory.LastByte(log, va + k) == Some(data[k])
        invariant st in {Success, AccessViolation, NoMemory}
        invariant NeverRefused(old(calls)) ==> st != NoMemory
        invariant st == AccessViolation ==> |data| < n && !Reachable(old(View()), (va + |data|) / PAGE)
        invariant st != Success ==> |data| < n
        decreases n - |data|, if st == Success then 1 else 0
      {
        var piece;
        st, piece := ReadChunk(va + |data|, n - |data|);
        forall k | |data| <= k < |data| + |piece| ensures FlatMemory.LastByte(log, va + k) == Some((data + piece)[k]) {
          assert va + k == va + |data| + (k - |data|);
        }
        data := data + piece;
      }
    }

    /** The part of a read that falls into one page. */
    method ReadChunk(va: nat, n: nat) returns (st: Status, piece: seq<byte>)
      requires Valid() && n > 0
      modifies this`shadows, this`calls, this`heap, this`nextBlock, this`home
      ensures Valid() && View() == old(View()) && calls >= old(calls)
      ensures st in {Success, AccessViolation, NoMemory} && |piece| <= n && (st == Success <==> |piece| > 0)
      ensures forall k: nat :: k < |piece| ==> FlatMemory.LastByte(log, va + k) == Some(piece[k])
      ensures NeverRefused(old(calls)) ==> st != NoMemory
      ensures st == AccessViolation ==> !Reachable(old(View()), va / PAGE)
    {
      hide CellsOf, ViewOf, Housed, PagesOf, Layout, FlatMemory.Replay, FlatMemory.LegalLog, FlatMemory.LastByte;
      piece := [];
      var page := AlignDown(va);
      st := PopulatePage(page, false);
      if st == Success {
        var off := va - page;
        var chunk := if n < PAGE - off then n else PAGE - off;
        piece := Load(page / PAGE, va, chunk);
        forall k: nat | k < |piece| ensures FlatMemory.LastByte(log, va + k) == Some(piece[k]) {
          FlatMemory.ReadsLastWrite(log, va + k);
        }
      }
    }

    /* ---- alloc ---- */

    /** Some region meets [va, va + size), as the source compares addresses. */
    ghost predicate Taken(va: nat, size: nat)
      reads this
    {
      exists i :: 0 <= i < |vads| && va < vads[i].end && va + size > vads[i].start
    }

    /** The outcome of an allocation, decided by the regions and the two caps. */
    ghost function AllocStatus(base: nat, size: nat): Status
      requires Sound()
      reads this
    {
      var at, bytes := if base == 0 then brk else base, AlignUp(size);
      if size == 0 then InvalidParameter
      else if bytes / PAGE > COMMIT_PAGES then InsufficientResources
      else if OutOfRange(at, bytes) then ConflictingAddresses
      else if |vads| >= MAX_VADS || |View()| + bytes / PAGE > COMMIT_PAGES then InsufficientResources
      else if Taken(at, bytes) then ConflictingAddresses
      else Success
    }

    method Overlaps(va: nat, size: nat) returns (hit: bool)
      ensures hit <==> Taken(va, size)
      ensures !hit ==> forall i :: 0 <= i < |vads| ==> vads[i].end <= va || va + size <= vads[i].start
    {
      for i := 0 to |vads|
        invariant forall k :: 0 <= k < i ==> vads[k].end <= va || va + size <= vads[k].start
      {
        if va < vads[i].end && va + size > vads[i].start {
          return true;
        }
      }
      return false;
    }

    /** Appends the new region and charges its pages. Only a rounded, non-empty region keeps the table in order. */
    method Commit(v: Vad)
      requires Valid() && v.start <= v.end && v.committed == 1 && VadEdits.Free(Arrays(), v)
      requires |vads| < MAX_VADS && committedPages + (v.end - v.start) / PAGE <= COMMIT_PAGES
      modifies this`vads, this`shadows, this`committedPages, this`log
      ensures vads == old(vads) + [v] && shadows == old(shadows) + [NoArray]
      ensures committedPages == old(committedPages) + (v.end - v.start) / PAGE
      ensures Valid() <==> WellFormed(v)
      ensures WellFormed(v) ==>
                && log == old(log) + [FlatMemory.Alloc(First(v), Limit(v), v.prot, v.kind)]
                && View() == FlatMemory.Apply(old(View()), FlatMemory.Alloc(First(v), Limit(v), v.prot, v.kind))
    {
      hide CellsOf, ViewOf, Housed, PagesOf, FlatMemory.Replay, FlatMemory.LegalLog, FlatMemory.Apply, FlatMemory.Legal;
      if WellFormed(v) {
        AppendIsExtend(Arrays(), v);
        AllocRefines(CellsOf(Arrays()), heap, home, nextBlock, First(v), Limit(v), v.prot, v.kind);
        PagesOfAppend(vads, v);
        PageCount(v);
        FlatMemory.ReplayAppend(log, FlatMemory.Alloc(First(v), Limit(v), v.prot, v.kind));
        log := log + [FlatMemory.Alloc(First(v), Limit(v), v.prot, v.kind)];
      }
      vads, shadows := vads + [v], shadows + [NoArray];
      committedPages := committedPages + (v.end - v.start) / PAGE;
      assert vads[|vads| - 1] == v;
    }

    /** The request is for whole pages: the base is not rounded by the call, and a size near 2^64 rounds to none. */
    predicate WholePages(base: nat, size: nat) {
      base % PAGE == 0 && AlignUp(size) > 0
    }

    /** The checks of an alloc, in the source's order. */
    method Admit(base: nat, size: nat) returns (st: Status)
      requires Valid() && base < U64 && size < U64
      ensures st == AllocStatus(base, size)
      ensures st == Success ==>
                var at, bytes := if base == 0 then brk else base, AlignUp(size);
                && at + bytes <= ADDRESS_END && |vads| < MAX_VADS && committedPages + bytes / PAGE <= COMMIT_PAGES
                && forall i :: 0 <= i < |vads| ==> vads[i].end <= at || at + bytes <= vads[i].start
    {
      hide CellsOf, ViewOf, Housed, PagesOf, FlatMemory.Replay, FlatMemory.LegalLog, FlatMemory.Apply, Layout, AddressSpace.Taken;
      if size == 0 {
        return InvalidParameter;
      }
      var bytes := AlignUp(size);
      if bytes / PAGE > COMMIT_PAGES {
        return InsufficientResources;
      }
      var at := if base == 0 then brk else base;
      if OutOfRange(at, bytes) {
        return ConflictingAddresses;
      }
      MappedCount(Arrays(), heap);
      if |vads| >= MAX_VADS {
        return InsufficientResources;
      }
      if committedPages + bytes / PAGE > COMMIT_PAGES {
        return InsufficientResources;
      }
      var hit := Overlaps(at, bytes);
      if hit {
        return ConflictingAddresses;
      }
      InRange(at, bytes);
      return Success;
    }

    /**
     Alloc maps exactly the pages of its range, or changes nothing. A request that is not for whole pages can be
     granted too; it, and nothing else, leaves a region that is empty or not aligned.
     */
    method AllocUser(base: nat, size: nat, prot: nat, kind: nat) returns (st: Status, va: nat)
      requires Valid() && base < U64 && size < U64
      modifies this`vads, this`shadows, this`committedPages, this`brk, this`log
      ensures st == old(AllocStatus(base, size))
      ensures st != Success ==> va == base && unchanged(this)
      ensures st == Success ==>
                && va == (if base == 0 then old(brk) else base)
                && vads == old(vads) + [Vad(va, va + AlignUp(size), prot, kind, 1)] && shadows == old(shadows) + [NoArray]
                && committedPages == old(committedPages) + AlignUp(size) / PAGE
                && brk == (if base == 0 then va + AlignUp(size) else old(brk))
      ensures Valid() <==> st != Success || WholePages(base, size)
      ensures st == Success && WholePages(base, size) ==>
                && va % PAGE == 0 && va + AlignUp(size) <= ADDRESS_END
                && log == old(log) + [FlatMemory.Alloc(va / PAGE, (va + AlignUp(size)) / PAGE, prot, kind)]
                && View() == FlatMemory.Apply(old(View()), FlatMemory.Alloc(va / PAGE, (va + AlignUp(size)) / PAGE, prot, kind))
    {
      hide CellsOf, ViewOf, Housed, PagesOf, FlatMemory.Replay, FlatMemory.LegalLog, FlatMemory.Apply, Layout;
      hide AddressSpace.Taken, AddressSpace.AllocStatus;
      va := base;
      st := Admit(base, size);
      if st == Success {
        var bytes := AlignUp(size);
        va := if base == 0 then brk else base;
        Commit(Vad(va, va + bytes, prot, kind, 1));
        if base == 0 {
          brk := va + bytes;
        }
      }
    }

    /* ---- free ---- */

    /** Returns the blocks in slots [from, to) to the heap; none of them was returned before. */
    method DropBlocks(slots: seq<Slot>, from: nat, to: nat, first: nat)
      requires from <= to <= |slots| && Matched(heap, home, slots, from, to, first)
      modifies this`heap
      ensures heap == Drop(old(heap), home, first + from, first + to)
    {
      for i := from to to
        invariant heap == Drop(old(heap), home, first + from, first + i)
      {
        if slots[i].Block? {
          assert slots[i].id in heap;
          heap := heap - {slots[i].id};
        }
      }
    }

    /** The slot arrays of the three parts of a region; none when the region was never touched. */
    static method CarveSlots(h: Shadow, left: nat, mid: nat, right: nat) returns (front: Shadow, middle: Shadow, back: Shadow)
      requires h.Slots? ==> |h.slots| == left + mid + right
      ensures front == Part(h, 0, left)
      ensures middle == Part(h, left, left + mid)
      ensures back == Part(h, left + mid, left + mid + right)
    {
      front, middle, back := NoArray, NoArray, NoArray;
      if h.Slots? {
        var copy := CopySlots(h, 0, left);
        front := Slots(copy);
        copy := CopySlots(h, left, mid);
        middle := Slots(copy);
        copy := CopySlots(h, left + mid, right);
        back := Slots(copy);
      }
    }

    method FindStart(base: nat) returns (idx: int)
      ensures -1 <= idx < |vads|
      ensures idx >= 0 ==> vads[idx].start == base
      ensures idx < 0 ==> forall i :: 0 <= i < |vads| ==> vads[i].start != base
    {
      for i := 0 to |vads|
        invariant forall k :: 0 <= k < i ==> vads[k].start != base
      {
        if vads[i].start == base {
          return i;
        }
      }
      return -1;
    }

    /** Cuts [base, end) out of region `idx`, carving the slot array as the region is carved. */
    method Carve(idx: nat, base: nat, end: nat)
      requires Layout(Arrays()) && Target(Arrays(), idx, base, end)
      modifies this`vads, this`shadows
      ensures Arrays() == Release(old(Arrays()), idx, base, end)
    {
      hide Release, Layout, First, Limit, Part;
      CutCounts(Arrays(), idx, base, end);
      var v, h := vads[idx], shadows[idx];
      ReleaseArrays(Arrays(), idx, base, end);
      var left, mid, right := (base - v.start) / PAGE, (end - base) / PAGE, (v.end - end) / PAGE;
      var front, _, back := CarveSlots(h, left, mid, right);
      if left > 0 && right > 0 {
        vads := vads[idx := v.(end := base)] + [v.(start := end)];
        shadows := shadows[idx := front] + [back];
      } else if left > 0 {
        vads, shadows := vads[idx := v.(end := base)], shadows[idx := front];
      } else if right > 0 {
        vads, shadows := vads[idx := v.(start := end)], shadows[idx := back];
      } else {
        VadRemoveAt(idx);
      }
    }

    /** Frees the blocks behind [base, end) of region `idx`. */
    method DropRange(idx: nat, base: nat, end: nat)
      requires Sound() && Target(Arrays(), idx, base, end)
      modifies this`heap
      ensures home.Keys == old(heap).Keys && heap == Drop(old(heap), home, base / PAGE, end / PAGE)
    {
      hide CellsOf, ViewOf, PagesOf, Housed, Layout;
      CutCounts(Arrays(), idx, base, end);
      var h, first := shadows[idx], vads[idx].start / PAGE;
      var left, mid := (base - vads[idx].start) / PAGE, (end - base) / PAGE;
      if h.Slots? {
        RegionMatched(Arrays(), heap, home, nextBlock, idx, left, left + mid);
        DropBlocks(h.slots, left, left + mid, first);
      } else {
        NothingToDrop(Arrays(), heap, home, nextBlock, idx, base / PAGE, end / PAGE);
      }
    }

    /** The edit of a free that is going to succeed. */
    method ReleaseRange(idx: nat, base: nat, end: nat)
      requires Valid() && Target(Arrays(), idx, base, end)
      requires vads[idx].start < base && end < vads[idx].end ==> |vads| < MAX_VADS
      modifies this`vads, this`shadows, this`committedPages, this`heap, this`home, this`log
      ensures Valid()
      ensures log == old(log) + [FlatMemory.Event.Free(base / PAGE, end / PAGE)]
      ensures View() == FlatMemory.Apply(old(View()), FlatMemory.Event.Free(base / PAGE, end / PAGE))
      ensures old(home.Keys) == old(heap.Keys) && heap == Drop(old(heap), old(home), base / PAGE, end / PAGE)
      ensures old(Bare(Arrays())) ==> Bare(Arrays())
    {
      hide CellsOf, ViewOf, PagesOf, FlatMemory.Replay, FlatMemory.LegalLog, FlatMemory.Apply, FlatMemory.Legal;
      hide Release, Layout, Housed, Drop, DropHome;
      ghost var r := Arrays();
      ReleaseIsUnmap(r, idx, base, end);
      ReleaseRefines(CellsOf(r), heap, home, nextBlock, base / PAGE, end / PAGE);
      ReleasePages(r, idx, base, end);
      if Bare(r) {
        ReleaseBare(r, idx, base, end);
      }
      FlatMemory.ReplayAppend(log, FlatMemory.Event.Free(base / PAGE, end / PAGE));
      DropRange(idx, base, end);
      Carve(idx, base, end);
      var mid := (end - base) / PAGE;
      if committedPages >= mid {
        committedPages := committedPages - mid;
      } else {
        assert false;  // the clamp to zero is never taken
      }
      home := DropHome(home, base / PAGE, end / PAGE);
      log := log + [FlatMemory.Event.Free(base / PAGE, end / PAGE)];
    }

    /** The heap requests for the carved slot arrays. */
    method KallocParts(left: bool, mid: bool, right: bool) returns (ok: bool)
      modifies this`calls
      ensures calls >= old(calls) && (NeverRefused(old(calls)) ==> ok)
      ensures !left && !mid && !right ==> ok
    {
      ok := true;
      if left {
        ok := Kalloc();
      }
      if ok && mid {
        ok := Kalloc();
      }
      if ok && right {
        ok := Kalloc();
      }
    }

    /** [base, end) as `vmm_free_user` rounds it; size 0 stands for the whole region that starts at base. */
    ghost predicate FreeTarget(base: nat, size: nat, idx: int, end: int)
      reads this
    {
      && 0 <= idx < |vads|
      && !OutOfRange(AlignDown(base), if size == 0 then 0 else AlignUp(size))
      && if size == 0 || AlignUp(size) == 0 then vads[idx].start == AlignDown(base) && end == vads[idx].end
         else Contains(vads[idx], AlignDown(base), end) && end == AlignDown(base) + AlignUp(size)
    }

    /** The range to free leaves a piece of its region on both sides, and the table has no room for a second entry. */
    ghost predicate FreeFull(base: nat, size: nat)
      reads this
    {
      |vads| == MAX_VADS && exists idx, end :: FreeTarget(base, size, idx, end) && Cuts(vads[idx], AlignDown(base), end) == 2
    }

    /** The range to free leaves a piece of a region that has a slot array: the piece needs an array of its own. */
    ghost predicate FreeCopies(base: nat, size: nat)
      reads this
    {
      exists idx, end :: FreeTarget(base, size, idx, end) && Cuts(vads[idx], AlignDown(base), end) > 0
                         && idx < |shadows| && shadows[idx].Slots?
    }

    /** The outcome of a free, as long as the heap grants the arrays of the pieces. */
    ghost function FreeStatus(base: nat, size: nat): Status
      reads this
    {
      var bytes := if size == 0 then 0 else AlignUp(size);
      if OutOfRange(AlignDown(base), bytes) then ConflictingAddresses
      else if !exists idx, end :: FreeTarget(base, size, idx, end) then
        if bytes == 0 then InvalidParameter else ConflictingAddresses
      else if FreeFull(base, size) then InsufficientResources
      else Success
    }

    /** The region that holds the range to free. */
    method FindTarget(base0: nat, size0: nat) returns (st: Status, idx: int, end: nat)
      requires Layout(Arrays()) && base0 < U64 && size0 < U64
      ensures st == Success ==>
                && FreeTarget(base0, size0, idx, end) && Target(Arrays(), idx, AlignDown(base0), end)
                && forall i, e :: FreeTarget(base0, size0, i, e) ==> i == idx && e == end
      ensures st != Success ==> st == FreeStatus(base0, size0)
      ensures st == Success ==> FreeStatus(base0, size0) == if FreeFull(base0, size0) then InsufficientResources else Success
    {
      hide Layout;
      var base := AlignDown(base0);
      var size := if size0 == 0 then 0 else AlignUp(size0);
      idx, end := -1, 0;
      if OutOfRange(base, size) {
        return ConflictingAddresses, idx, end;
      }
      InRange(base, size);
      if size == 0 {
        idx := FindStart(base);
        if idx < 0 {
          return InvalidParameter, idx, end;
        }
        RegionShape(Arrays(), idx);
        end := vads[idx].end;
      } else {
        end := base + size;
        idx := VadContainsRange(base, end);
        if idx < 0 {
          assert !InOne(Arrays(), base, end);
          return ConflictingAddresses, idx, end;
        }
      }
      forall i, e | FreeTarget(base0, size0, i, e) ensures i == idx && e == end {
        RegionShape(Arrays(), i);
        OnlyOneHolds(Arrays(), i, idx, base);
      }
      return Success, idx, end;
    }

    /** Free removes exactly the pages of its range, or changes nothing. */
    method FreeUser(base0: nat, size0: nat) returns (st: Status, end: int)
      requires Valid() && base0 < U64 && size0 < U64
      modifies this`vads, this`shadows, this`committedPages, this`heap, this`home, this`log, this`calls
      ensures Valid()
      ensures st == old(FreeStatus(base0, size0)) || (st == NoMemory && old(FreeStatus(base0, size0)) == Success)
      ensures st == NoMemory ==> old(FreeCopies(base0, size0)) && !NeverRefused(old(calls))
      ensures st == Success ==>
                && (exists idx :: old(FreeTarget(base0, size0, idx, end)))
                && log == old(log) + [FlatMemory.Event.Free(AlignDown(base0) / PAGE, end / PAGE)]
                && View() == FlatMemory.Apply(old(View()), FlatMemory.Event.Free(AlignDown(base0) / PAGE, end / PAGE))
      ensures st != Success ==>
                && vads == old(vads) && shadows == old(shadows) && committedPages == old(committedPages)
                && heap == old(heap) && log == old(log)
      ensures old(Bare(Arrays())) ==> Bare(Arrays()) && st != NoMemory
    {
      hide CellsOf, ViewOf, PagesOf, FlatMemory.Replay, FlatMemory.LegalLog, FlatMemory.Apply, Housed, Layout;
      hide AlignDown, AlignUp, OutOfRange, AddressSpace.FreeTarget;
      end := 0;
      var idx, to;
      st, idx, to := FindTarget(base0, size0);
      if st != Success {
        return;
      }
      var base := AlignDown(base0);
      var left, right := base > vads[idx].start, to < vads[idx].end;
      if left && right && |vads| + 1 > MAX_VADS {
        return InsufficientResources, end;
      }
      if shadows[idx].Slots? {
        var ok := KallocParts(left, false, right);
        if !ok {
          return NoMemory, end;
        }
      }
      ReleaseRange(idx, base, to);
      return Success, to;
    }

    /* ---- protect ---- */

    /** The rounded range is in the user half and every address of it is mapped. */
    ghost predicate ProtectRange(base: nat, size: nat)
      reads this
    {
      && !OutOfRange(AlignDown(base), AlignUp(size))
      && AlignUp(size) > 0
      && !HasHole(vads, AlignDown(base), RangeEnd(base, size))
    }

    /** Splits region `idx` into prefix, middle and suffix and retargets the middle. */
    method SplitInThree(idx: nat, base: nat, end: nat, prot: nat)
      requires Layout(Arrays()) && Target(Arrays(), idx, base, end)
      modifies this`vads, this`shadows
      ensures Arrays() == Protect(old(Arrays()), idx, base, end, prot)
    {
      hide Protect, Layout, First, Limit, Part;
      CutCounts(Arrays(), idx, base, end);
      ProtectVads(Arrays(), idx, base, end, prot);
      ProtectShadows(Arrays(), idx, base, end, prot);
      var v, h := vads[idx], shadows[idx];
      var left, mid, right := (base - v.start) / PAGE, (end - base) / PAGE, (v.end - end) / PAGE;
      var front, middle, back := CarveSlots(h, left, mid, right);
      vads := vads[idx := Vad(base, end, prot, v.kind, v.committed)];
      shadows := shadows[idx := middle];
      if left > 0 {
        vads, shadows := vads + [v.(end := base)], shadows + [front];
      }
      if right > 0 {
        vads, shadows := vads + [v.(start := end)], shadows + [back];
      }
    }

    method Retarget(idx: nat, base: nat, end: nat, prot: nat)
      requires Valid() && Target(Arrays(), idx, base, end)
      requires |vads| + Cuts(vads[idx], base, end) <= MAX_VADS
      modifies this`vads, this`shadows, this`log
      ensures Valid()
      ensures log == old(log) + [FlatMemory.Event.Protect(base / PAGE, end / PAGE, prot)]
      ensures View() == FlatMemory.Apply(old(View()), FlatMemory.Event.Protect(base / PAGE, end / PAGE, prot))
      ensures KeepsOthers(old(Arrays()), Arrays(), base, end)
      ensures Starts(vads) <= old(Seams(vads, base, end)) && (old(Bare(Arrays())) ==> Bare(Arrays()))
    {
      hide CellsOf, ViewOf, PagesOf, FlatMemory.Replay, FlatMemory.LegalLog, FlatMemory.Apply, FlatMemory.Legal;
      hide Protect, Layout, Housed, Reprotect, AllMapped, KeepsOthers, Starts, Seams, Bare;
      ghost var r := Arrays();
      ProtectIsReprotect(r, idx, base, end, prot);
      ProtectRefines(CellsOf(r), heap, home, nextBlock, base / PAGE, end / PAGE, prot);
      ProtectPages(r, idx, base, end, prot);
      ProtectKeepsOthers(r, idx, base, end, prot);
      ProtectStarts(r, idx, base, end, prot);
      if Bare(r) {
        ProtectBare(r, idx, base, end, prot);
      }
      CutCounts(r, idx, base, end);
      ProtectVads(r, idx, base, end, prot);
      ProtectShadows(r, idx, base, end, prot);
      FlatMemory.ReplayAppend(log, FlatMemory.Event.Protect(base / PAGE, end / PAGE, prot));
      SplitInThree(idx, base, end, prot);
      log := log + [FlatMemory.Event.Protect(base / PAGE, end / PAGE, prot)];
    }

    /** The contained path: one region holds the whole range. */
    method ProtectContained(idx: nat, base: nat, end: nat, prot: nat) returns (st: Status)
      requires Valid() && Target(Arrays(), idx, base, end)
      modifies this`vads, this`shadows, this`log, this`calls
      ensures Valid() && calls >= old(calls)
      ensures st in {Success, InsufficientResources, NoMemory}
      ensures View() == if st == Success
                        then FlatMemory.Apply(old(View()), FlatMemory.Event.Protect(base / PAGE, end / PAGE, prot))
                        else old(View())
      ensures st != Success ==> Arrays() == old(Arrays()) && log == old(log)
      ensures NeverRefused(old(calls)) || old(Bare(Arrays())) ==> st != NoMemory && (st == Success ==> Coalesced(vads))
      ensures st == InsufficientResources <==> old(|vads|) + Cuts(old(vads)[idx], base, end) > MAX_VADS
      ensures KeepsOthers(old(Arrays()), Arrays(), base, end)
      ensures Starts(vads) <= old(Seams(vads, base, end)) && (old(Bare(Arrays())) ==> Bare(Arrays()))
    {
      hide CellsOf, ViewOf, PagesOf, FlatMemory.Replay, FlatMemory.LegalLog, FlatMemory.Apply;
      hide Layout, Housed, Starts, Seams;
      StartsAreSeams(vads, base, end);
      var left, right := vads[idx].start < base, end < vads[idx].end;
      var extra := (if left then 1 else 0) + (if right then 1 else 0);
      if |vads| + extra > MAX_VADS {
        return InsufficientResources;
      }
      if extra > 0 && shadows[idx].Slots? {
        var ok := KallocParts(left, true, right);
        if !ok {
          return NoMemory;
        }
      }
      Retarget(idx, base, end, prot);
      VadCoalesce();
      return Success;
    }

    /**
     `vad_run_covers`: follows the run of regions from `base`. It stops at a hole and only there; the
     bound of MAX_VADS steps is never the reason.
     */
    method VadRunCovers(base: nat, end: nat) returns (first: int, n: nat)
      requires Layout(Arrays()) && |vads| <= MAX_VADS && base % PAGE == 0
      ensures -1 <= first < |vads|
      ensures first >= 0 <==> base < end && !HasHole(vads, base, end)
      ensures first >= 0 ==> vads[first].start <= base < vads[first].end
      ensures first >= 0 && n < 2 ==> InOne(Arrays(), base, end)
    {
      hide Layout;
      n := 0;
      if end <= base {
        return -1, n;
      }
      first := VadLookup(AlignDown(base));
      if first < 0 {
        assert !AddressMapped(vads, base);
        return -1, n;
      }
      var cur := base;
      ghost var seen: set<int> := {};
      while cur < end
        invariant base <= cur
        invariant forall a :: base <= a < cur ==> AddressMapped(vads, a)
        invariant |seen| == n
        invariant forall i :: i in seen ==> 0 <= i < |vads| && vads[i].end <= cur
        invariant n == 0 ==> cur == base
        invariant n == 1 ==> exists i :: 0 <= i < |vads| && Contains(vads[i], base, cur)
      {
        var idx := VadLookup(cur);
        if idx < 0 {
          assert !AddressMapped(vads, cur);
          return -1, n;
        }
        n := n + 1;
        seen := seen + {idx};
        assert Contains(vads[idx], cur, vads[idx].end);
        forall a | cur <= a < vads[idx].end ensures AddressMapped(vads, a) {
        }
        cur := vads[idx].end;
        IndexCount(seen, |vads|);
        if n > MAX_VADS {
          assert false;
        }
      }
    }

    /** Snapshots where the run crosses from one region to the next. */
    method SnapshotClips(base: nat, end: nat) returns (clips: seq<(nat, nat)>)
      requires Layout(Arrays()) && |vads| <= MAX_VADS && base % PAGE == 0 && end % PAGE == 0
      requires base < end && !HasHole(vads, base, end)
      ensures Clips(clips, base, end)
      ensures forall k :: 0 <= k < |clips| ==> InOne(Arrays(), clips[k].0, clips[k].1)
      ensures forall k :: 0 < k < |clips| ==> clips[k].0 in Starts(vads)
    {
      hide Layout, Clips, InOne;
      clips := [];
      var cur := base;
      ghost var seen: set<int> := {};
      while cur < end && |clips| < MAX_VADS
        invariant base <= cur <= end && cur % PAGE == 0
        invariant if clips == [] then cur == base else Clips(clips, base, cur)
        invariant forall k :: 0 <= k < |clips| ==> InOne(Arrays(), clips[k].0, clips[k].1)
        invariant |seen| == |clips|
        invariant forall i :: i in seen ==> 0 <= i < |vads| && (vads[i].end <= cur || cur == end)
        invariant clips != [] && cur < end ==> exists j :: 0 <= j < |vads| && vads[j].end == cur
        invariant forall k :: 0 < k < |clips| ==> clips[k].0 in Starts(vads)
        decreases end - cur
      {
        assert AddressMapped(vads, cur);
        var i := VadLookup(cur);
        var hi := if vads[i].end > end then end else vads[i].end;
        assert Contains(vads[i], cur, hi);
        NextClip(Arrays(), clips, base, cur, hi, i);
        if clips != [] {
          NextRegion(Arrays(), i, cur);
        }
        clips := clips + [(cur, hi)];
        seen := seen + {i};
        cur := hi;
      }
      if cur < end {
        assert AddressMapped(vads, cur);
        var i := VadLookup(cur);
        IndexCount(seen + {i}, |vads|);
        assert false;  // there are no more clips than regions
      }
    }

    /**
     Protect over any hole-free run. `done` is the page where it stopped: the pages of the range
     before it have the new protection, every other page is as it was. The table can be too full only
     when it has no room for the regions that the two ends of the range split; and exactly then, unless
     the range spans several regions and its far end splits one, because joins on the way can make room.

     The call for a clip finds the clip inside one region, so the recursion is never more than one
     level deep: that is the termination measure.
     */
    method ProtectUser(base0: nat, size0: nat, prot: nat) returns (st: Status, oldProt: Option<nat>, done: int)
      requires Valid() && base0 < U64 && size0 < U64
      modifies this`vads, this`shadows, this`log, this`calls
      ensures Valid() && calls >= old(calls)
      ensures st == InvalidParameter <==> size0 == 0
      ensures st == InvalidPageProtection <==> size0 != 0 && !LegalProt(prot)
      ensures st == ConflictingAddresses <==> size0 != 0 && LegalProt(prot) && !old(ProtectRange(base0, size0))
      ensures st in {Success, InvalidParameter, InvalidPageProtection, ConflictingAddresses, InsufficientResources, NoMemory}
      ensures st in {InvalidParameter, InvalidPageProtection, ConflictingAddresses} ==>
                unchanged(this) && oldProt == None && done == AlignDown(base0) / PAGE
      ensures old(ProtectRange(base0, size0)) ==> AlignDown(base0) / PAGE <= done <= RangeEnd(base0, size0) / PAGE
      ensures View() == FlatMemory.Apply(old(View()), FlatMemory.Event.Protect(AlignDown(base0) / PAGE, done, prot))
      ensures st == Success ==> done == RangeEnd(base0, size0) / PAGE
      ensures st == Success ==> OldProt(old(View()), AlignDown(base0) / PAGE, oldProt)
      ensures NeverRefused(old(calls)) || old(Bare(Arrays())) ==> st != NoMemory && (st == Success ==> Coalesced(vads))
      ensures LegalProt(prot) && old(ProtectRange(base0, size0)) ==>
                FullTable(old(Arrays()), AlignDown(base0), RangeEnd(base0, size0), st == InsufficientResources)
      ensures KeepsOthers(old(Arrays()), Arrays(), AlignDown(base0), RangeEnd(base0, size0))
      ensures Starts(vads) <= old(Seams(vads, AlignDown(base0), RangeEnd(base0, size0)))
      ensures old(Bare(Arrays())) ==> Bare(Arrays())
      decreases if InOne(Arrays(), AlignDown(base0), RangeEnd(base0, size0)) then 1 else 5
    {
      hide CellsOf, ViewOf, PagesOf, FlatMemory.Replay, FlatMemory.LegalLog, FlatMemory.Apply, Layout, Housed;
      hide Starts, Seams, Bare, KeepsOthers, InOne, HasHole, Coalesced, LegalProt, OldProt, FullTable;
      oldProt, done := None, AlignDown(base0) / PAGE;
      EmptyProtect(View(), done, prot);
      KeepsNothing(Arrays(), AlignDown(base0), RangeEnd(base0, size0));
      StartsAreSeams(vads, AlignDown(base0), RangeEnd(base0, size0));
      if size0 == 0 {
        return InvalidParameter, oldProt, done;
      }
      if !LegalProt(prot) {
        return InvalidPageProtection, oldProt, done;
      }
      var base, size := AlignDown(base0), AlignUp(size0);
      if OutOfRange(base, size) {
        return ConflictingAddresses, oldProt, done;
      }
      InRange(base, size);
      st, oldProt, done := ProtectRounded(base, base + size, prot);
    }

    /** Protect of a rounded range in the user half: inside one region, or along a run of regions. */
    method ProtectRounded(base: nat, end: nat, prot: nat) returns (st: Status, oldProt: Option<nat>, done: int)
      requires Valid() && base % PAGE == 0 && end % PAGE == 0 && base <= end <= ADDRESS_END && LegalProt(prot)
      modifies this`vads, this`shadows, this`log, this`calls
      ensures Valid() && calls >= old(calls)
      ensures st == ConflictingAddresses <==> end <= base || HasHole(old(vads), base, end)
      ensures st in {Success, ConflictingAddresses, InsufficientResources, NoMemory}
      ensures st == ConflictingAddresses ==> unchanged(this) && oldProt == None && done == base / PAGE
      ensures base / PAGE <= done <= end / PAGE && (st == Success ==> done == end / PAGE)
      ensures View() == FlatMemory.Apply(old(View()), FlatMemory.Event.Protect(base / PAGE, done, prot))
      ensures st == Success ==> OldProt(old(View()), base / PAGE, oldProt)
      ensures NeverRefused(old(calls)) || old(Bare(Arrays())) ==> st != NoMemory && (st == Success ==> Coalesced(vads))
      ensures st != ConflictingAddresses ==> FullTable(old(Arrays()), base, end, st == InsufficientResources)
      ensures KeepsOthers(old(Arrays()), Arrays(), base, end)
      ensures Starts(vads) <= old(Seams(vads, base, end)) && (old(Bare(Arrays())) ==> Bare(Arrays()))
      decreases if InOne(Arrays(), base, end) then 0 else 4
    {
      hide CellsOf, ViewOf, PagesOf, FlatMemory.Replay, FlatMemory.LegalLog, FlatMemory.Apply, Layout, Housed;
      hide Starts, Seams, Bare, KeepsOthers, HasHole, Coalesced, LegalProt;
      oldProt, done := None, base / PAGE;
      EmptyProtect(View(), done, prot);
      KeepsNothing(Arrays(), base, end);
      StartsAreSeams(vads, base, end);
      var idx := VadContainsRange(base, end);
      if idx >= 0 {
        CoveredByOne(vads, idx, base, end);
        PageLookup(Arrays(), heap, idx, base / PAGE);
        var was := vads[idx].prot;
        CutsCount(Arrays(), idx, base, end);
        st := ProtectContained(idx, base, end, prot);
        if st == Success {
          oldProt, done := Some(was), end / PAGE;
        }
        return;
      }
      var first, n := VadRunCovers(base, end);
      if first < 0 || n < 2 {
        return ConflictingAddresses, oldProt, done;
      }
      PageLookup(Arrays(), heap, first, base / PAGE);
      oldProt := Some(vads[first].prot);
      var clips := SnapshotClips(base, end);
      SeamsCount(Arrays(), base, end);
      FirstClip(clips, base, end);
      ClipsAtSeams(Arrays(), clips, base, end);
      FirstCut(Arrays(), clips, base, end);
      st, done := ProtectClips(clips, base, end, prot, Seams(vads, base, end));
    }

    /** One clip: already rounded and inside one region, so this is the contained path. */
    method ProtectClip(lo: nat, hi: nat, prot: nat) returns (st: Status, done: int)
      requires Valid() && lo < hi <= ADDRESS_END && LegalProt(prot) && InOne(Arrays(), lo, hi)
      requires AlignDown(lo) == lo && AlignUp(hi - lo) == hi - lo && !OutOfRange(lo, hi - lo) && !HasHole(vads, lo, hi)
      modifies this`vads, this`shadows, this`log, this`calls
      ensures Valid() && calls >= old(calls)
      ensures st in {Success, InsufficientResources, NoMemory}
      ensures lo / PAGE <= done <= hi / PAGE && (st == Success ==> done == hi / PAGE)
      ensures View() == FlatMemory.Apply(old(View()), FlatMemory.Event.Protect(lo / PAGE, done, prot))
      ensures NeverRefused(old(calls)) || old(Bare(Arrays())) ==> st != NoMemory && (st == Success ==> Coalesced(vads))
      ensures st == InsufficientResources <==> |old(Seams(vads, lo, hi))| > MAX_VADS
      ensures KeepsOthers(old(Arrays()), Arrays(), lo, hi)
      ensures Starts(vads) <= old(Seams(vads, lo, hi)) && (old(Bare(Arrays())) ==> Bare(Arrays()))
      decreases 2
    {
      hide CellsOf, ViewOf, PagesOf, FlatMemory.Replay, FlatMemory.LegalLog, FlatMemory.Apply, Layout, Housed;
      hide AlignUp, AlignDown, OutOfRange, HasHole, InOne, KeepsOthers, Coalesced, LegalProt, Starts, Seams, EndCuts, Bare;
      SeamsCount(Arrays(), lo, hi);
      var ign;
      st, ign, done := ProtectUser(lo, hi - lo, prot);
    }

    /**
     The loop over the snapshotted clips. Regions begin at the seams only, whatever is split and joined on
     the way, so the table never needs more entries than there are seams.
     */
    method ProtectClips(clips: seq<(nat, nat)>, base: nat, end: nat, prot: nat, ghost seams: set<int>) returns (st: Status, done: int)
      requires Valid() && Clips(clips, base, end) && base < end <= ADDRESS_END && LegalProt(prot)
      requires forall k :: 0 <= k < |clips| ==> InOne(Arrays(), clips[k].0, clips[k].1)
      requires Starts(vads) <= seams && (AddressMapped(vads, end) ==> end in seams) && forall k :: 0 <= k < |clips| ==> clips[k].0 in seams
      modifies this`vads, this`shadows, this`log, this`calls
      ensures Valid() && calls >= old(calls)
      ensures st in {Success, InsufficientResources, NoMemory}
      ensures base / PAGE <= done <= end / PAGE && (st == Success ==> done == end / PAGE)
      ensures View() == FlatMemory.Apply(old(View()), FlatMemory.Event.Protect(base / PAGE, done, prot))
      ensures NeverRefused(old(calls)) || old(Bare(Arrays())) ==> st != NoMemory && (st == Success ==> Coalesced(vads))
      ensures st == InsufficientResources ==> |seams| > MAX_VADS
      ensures |old(Seams(vads, clips[0].0, clips[0].1))| > MAX_VADS ==> st == InsufficientResources
      ensures KeepsOthers(old(Arrays()), Arrays(), base, end)
      ensures Starts(vads) <= seams && (old(Bare(Arrays())) ==> Bare(Arrays()))
      decreases 3
    {
      hide CellsOf, ViewOf, PagesOf, FlatMemory.Replay, FlatMemory.LegalLog, FlatMemory.Apply, Layout, Housed;
      hide AlignUp, AlignDown, OutOfRange, HasHole, InOne, KeepsOthers, Coalesced, Clips, LegalProt, Starts, Seams, AddressMapped, Bare;
      hide AddressSpace.Sound;
      SoundLayout(this);
      ghost var first, blocks := Arrays(), heap;
      st, done := Success, base / PAGE;
      EmptyProtect(View(), done, prot);
      KeepsNothing(Arrays(), base, end);
      FirstClip(clips, base, end);
      var k := 0;
      while k < |clips|
        invariant 0 <= k <= |clips| && Valid() && calls >= old(calls) && st == Success
        invariant done == if k == |clips| then end / PAGE else clips[k].0 / PAGE
        invariant View() == FlatMemory.Apply(old(View()), FlatMemory.Event.Protect(base / PAGE, done, prot))
        invariant forall j :: k <= j < |clips| ==> InOne(Arrays(), clips[j].0, clips[j].1)
        invariant KeepsOthers(old(Arrays()), Arrays(), base, end)
        invariant (NeverRefused(old(calls)) || old(Bare(Arrays()))) && k > 0 ==> Coalesced(vads)
        invariant Starts(vads) <= seams && (old(Bare(Arrays())) ==> Bare(Arrays()))
        invariant k == 0 ==> vads == old(vads)
        invariant |old(Seams(vads, clips[0].0, clips[0].1))| > MAX_VADS ==> k == 0
      {
        ClipRange(vads, clips, base, end, k);
        ClipAligned(Arrays(), clips, base, end, k);
        ghost var before := Arrays();
        var stopped;
        SoundLayout(this);
        StillUnmapped(first, blocks, Arrays(), heap, end, base / PAGE, done, prot);
        ClipSeams(vads, clips[k].0, clips[k].1, seams);
        st, stopped := ProtectClip(clips[k].0, clips[k].1, prot);
        ProtectInPieces(old(View()), base / PAGE, done, stopped, prot);
        LaterClips(before, Arrays(), clips, base, end, k);
        KeepsBoth(old(Arrays()), before, Arrays(), base, end, clips[k].0, clips[k].1);
        done := stopped;
        if st != Success {
          return;
        }
        k := k + 1;
      }
    }
  }

  lemma RegionShape(r: Regions, i: int)
    requires Layout(r) && 0 <= i < |r.vads|
    ensures WellFormed(r.vads[i])
  {
  }

  /** In a run of regions the next one starts where the last one ended. */
  lemma NextRegion(r: Regions, i: int, cur: int)
    requires Layout(r) && 0 <= i < |r.vads| && r.vads[i].start <= cur < r.vads[i].end
    requires exists j :: 0 <= j < |r.vads| && r.vads[j].end == cur
    ensures r.vads[i].start == cur && cur in Starts(r.vads)
  {
    var j :| 0 <= j < |r.vads| && r.vads[j].end == cur;
    assert WellFormed(r.vads[j]);
    assert i < j ==> Apart(r.vads[i], r.vads[j]);
    assert j < i ==> Apart(r.vads[j], r.vads[i]);
  }

  /**
   When a full table refuses a protect: only if the regions that its ends split do not fit, and surely if the near end's
   does not. The first is exact unless the range spans several regions and its far end splits one.
   */
  ghost predicate FullTable(r: Regions, base: int, end: int, refused: bool) {
    && (refused ==> |r.vads| + EndCuts(r.vads, base, end) > MAX_VADS)
    && (|r.vads| == MAX_VADS && Interior(r.vads, base) ==> refused)
    && (InOne(r, base, end) || !Interior(r.vads, end) ==> (refused <==> |r.vads| + EndCuts(r.vads, base, end) > MAX_VADS))
  }

  lemma SoundLayout(space: AddressSpace)
    requires space.Sound()
    ensures Layout(space.Arrays())
  {
  }

  lemma StartsAreSeams(vads: seq<Vad>, base: int, end: int)
    ensures Starts(vads) <= Seams(vads, base, end)
  {
  }

  /** The seams of a hole-free range hold the starts of its clips, and its end if that is mapped. */
  lemma ClipsAtSeams(r: Regions, clips: seq<(nat, nat)>, base: int, end: int)
    requires Clips(clips, base, end) && !HasHole(r.vads, base, end) && base < end
    requires forall k :: 0 < k < |clips| ==> clips[k].0 in Starts(r.vads)
    ensures forall k :: 0 <= k < |clips| ==> clips[k].0 in Seams(r.vads, base, end)
    ensures AddressMapped(r.vads, end) ==> end in Seams(r.vads, base, end)
  {
    assert AddressMapped(r.vads, base);
    MappedAtSeam(r.vads, base);
    if AddressMapped(r.vads, end) {
      MappedAtSeam(r.vads, end);
    }
  }

  lemma MappedAtSeam(vads: seq<Vad>, a: int)
    requires AddressMapped(vads, a)
    ensures a in Starts(vads) || Interior(vads, a)
  {
    var i :| 0 <= i < |vads| && vads[i].start <= a < vads[i].end;
    assert vads[i].start == a ==> a in Starts(vads);
  }

  /** A near end that splits a region splits it for the first clip too. */
  lemma FirstCut(r: Regions, clips: seq<(nat, nat)>, base: int, end: int)
    requires Layout(r) && Clips(clips, base, end)
    ensures Interior(r.vads, base) ==> |Seams(r.vads, clips[0].0, clips[0].1)| > |r.vads|
  {
    hide Layout, Seams;
    SeamsCount(r, clips[0].0, clips[0].1);
  }

  lemma ClipSeams(vads: seq<Vad>, lo: int, hi: int, seams: set<int>)
    requires Starts(vads) <= seams && lo in seams && (AddressMapped(vads, hi) ==> hi in seams)
    ensures Seams(vads, lo, hi) <= seams && |Seams(vads, lo, hi)| <= |seams|
  {
    if Interior(vads, hi) {
      var i :| 0 <= i < |vads| && vads[i].start < hi < vads[i].end;
      assert AddressMapped(vads, hi);
    }
    SubsetCount(Seams(vads, lo, hi), seams);
  }

  lemma AddressInView(r: Regions, heap: Heap, a: int)
    requires Layout(r) && a % PAGE == 0
    ensures AddressMapped(r.vads, a) <==> a / PAGE in ViewOf(CellsOf(r), heap)
  {
    hide CellsOf, ViewOf, Layout;
    if i :| 0 <= i < |r.vads| && r.vads[i].start <= a < r.vads[i].end {
      PageLookup(r, heap, i, a / PAGE);
    } else {
      PageLookup(r, heap, -1, a / PAGE);
    }
  }

  /** A protect maps nothing. */
  lemma StillUnmapped(r: Regions, h: Heap, r': Regions, h': Heap, a: int, lo: int, hi: int, prot: nat)
    requires Layout(r) && Layout(r') && a % PAGE == 0
    requires ViewOf(CellsOf(r'), h') == FlatMemory.Apply(ViewOf(CellsOf(r), h), FlatMemory.Event.Protect(lo, hi, prot))
    ensures AddressMapped(r'.vads, a) <==> AddressMapped(r.vads, a)
  {
    hide CellsOf, ViewOf, Layout, AddressMapped;
    AddressInView(r, h, a);
    AddressInView(r', h', a);
  }

  ghost predicate Spans(v: Vad, lo: int, hi: int) { v.start == lo && v.end == hi }

  /** To free a whole region nothing is cut, so nothing can be short. */
  lemma WholeRegionFrees(space: AddressSpace, idx: int)
    requires space.Sound() && 0 <= idx < |space.vads|
    ensures space.FreeStatus(space.vads[idx].start, space.vads[idx].end - space.vads[idx].start) == Success
  {
    hide CellsOf, Housed, PagesOf, Layout;
    var v := space.vads[idx];
    RegionShape(space.Arrays(), idx);
    AlignedSize(v.start, v.end);
    var bytes := v.end - v.start;
    assert space.FreeTarget(v.start, bytes, idx, v.end);
    forall i, end | space.FreeTarget(v.start, bytes, i, end) ensures i == idx && end == v.end {
      OnlyOneHolds(space.Arrays(), i, idx, v.start);
    }
  }

  lemma OnlyOneHolds(r: Regions, i: int, j: int, a: int)
    requires Layout(r) && 0 <= i < |r.vads| && 0 <= j < |r.vads|
    requires r.vads[i].start <= a < r.vads[i].end && r.vads[j].start <= a < r.vads[j].end
    ensures i == j
  {
    assert i < j ==> Apart(r.vads[i], r.vads[j]);
    assert j < i ==> Apart(r.vads[j], r.vads[i]);
  }

  lemma SlotCount(r: Regions, i: int)
    requires Layout(r) && 0 <= i < |r.vads|
    ensures |r.shadows| == |r.vads| && WellFormed(r.vads[i])
    ensures (r.vads[i].end - r.vads[i].start) / PAGE == Limit(r.vads[i]) - First(r.vads[i])
    ensures r.shadows[i].Slots? ==> |r.shadows[i].slots| == Limit(r.vads[i]) - First(r.vads[i])
  {
    PageCount(r.vads[i]);
    assert Fits(r.vads[i], r.shadows[i]);
  }

  lemma EmptyProtect(m: FlatMemory.Memory, lo: int, prot: nat)
    ensures FlatMemory.Apply(m, FlatMemory.Event.Protect(lo, lo, prot)) == m
  {
  }

  lemma ProtectInPieces(m: FlatMemory.Memory, a: int, b: int, c: int, prot: nat)
    requires a <= b <= c
    ensures FlatMemory.Apply(FlatMemory.Apply(m, FlatMemory.Event.Protect(a, b, prot)), FlatMemory.Event.Protect(b, c, prot))
            == FlatMemory.Apply(m, FlatMemory.Event.Protect(a, c, prot))
  {
  }

  lemma KeepsNothing(r: Regions, base: int, end: int)
    ensures KeepsOthers(r, r, base, end)
  {
  }

  lemma KeepsBoth(r: Regions, r1: Regions, r2: Regions, base: int, end: int, lo: int, hi: int)
    requires KeepsOthers(r, r1, base, end) && KeepsOthers(r1, r2, lo, hi) && base <= lo && hi <= end
    ensures KeepsOthers(r, r2, base, end)
  {
  }

  lemma {:induction false} ClipOrder(clips: seq<(nat, nat)>, base: int, end: int, j: int, k: int)
    requires Clips(clips, base, end) && 0 <= j < k < |clips|
    ensures clips[j].1 <= clips[k].0
    decreases k - j
  {
    if j + 1 < k {
      ClipOrder(clips, base, end, j + 1, k);
    }
  }

  lemma FirstClip(clips: seq<(nat, nat)>, base: int, end: int)
    requires Clips(clips, base, end)
    ensures |clips| > 0 && clips[0].0 == base && end % PAGE == 0
  {
  }

  lemma ClipRange(vads: seq<Vad>, clips: seq<(nat, nat)>, base: int, end: int, k: int)
    requires Clips(clips, base, end) && 0 <= k < |clips|
    ensures base <= clips[k].0 < clips[k].1 <= end
    ensures base / PAGE <= clips[k].0 / PAGE
    ensures k + 1 < |clips| ==> clips[k].1 == clips[k + 1].0
    ensures k + 1 == |clips| ==> clips[k].1 == end
    ensures clips[k].1 / PAGE <= end / PAGE
  {
    if k > 0 {
      ClipOrder(clips, base, end, 0, k);
    }
    if k < |clips| - 1 {
      ClipOrder(clips, base, end, k, |clips| - 1);
    }
  }

  /** A clip is already rounded and lies inside one region. */
  lemma ClipAligned(r: Regions, clips: seq<(nat, nat)>, base: int, end: int, k: int)
    requires Clips(clips, base, end) && 0 <= k < |clips| && InOne(r, clips[k].0, clips[k].1) && end <= ADDRESS_END
    ensures AlignDown(clips[k].0) == clips[k].0
    ensures 0 < clips[k].1 - clips[k].0 == AlignUp(clips[k].1 - clips[k].0)
    ensures !OutOfRange(clips[k].0, clips[k].1 - clips[k].0)
    ensures !HasHole(r.vads, clips[k].0, clips[k].1)
  {
    ClipRange(r.vads, clips, base, end, k);
    var i :| 0 <= i < |r.vads| && Contains(r.vads[i], clips[k].0, clips[k].1);
    CoveredByOne(r.vads, i, clips[k].0, clips[k].1);
    AlignedSize(clips[k].0, clips[k].1);
  }

  lemma AlignedSize(lo: nat, hi: nat)
    requires lo < hi <= ADDRESS_END && lo % PAGE == 0 && hi % PAGE == 0
    ensures AlignDown(lo) == lo && AlignUp(hi - lo) == hi - lo && !OutOfRange(lo, hi - lo)
  {
    assert (hi - lo) % PAGE == 0;
    assert (hi - lo + PAGE - 1) / PAGE == (hi - lo) / PAGE;
  }

  /** Protecting one clip, with its splits and joins, leaves every later clip inside one region. */
  lemma LaterClips(r: Regions, r': Regions, clips: seq<(nat, nat)>, base: int, end: int, k: int)
    requires Clips(clips, base, end) && 0 <= k < |clips|
    requires forall j :: k <= j < |clips| ==> InOne(r, clips[j].0, clips[j].1)
    requires KeepsOthers(r, r', clips[k].0, clips[k].1)
    ensures forall j :: k < j < |clips| ==> InOne(r', clips[j].0, clips[j].1)
  {
    forall j | k < j < |clips| ensures InOne(r', clips[j].0, clips[j].1) {
      ClipOrder(clips, base, end, k, j);
    }
  }

  lemma CoveredByOne(vads: seq<Vad>, i: int, base: int, end: int)
    requires 0 <= i < |vads| && Contains(vads[i], base, end)
    ensures !HasHole(vads, base, end)
  {
    forall a | base <= a < end ensures AddressMapped(vads, a) {
    }
  }

  ghost predicate AddressMapped(vads: seq<Vad>, a: int) {
    exists i :: 0 <= i < |vads| && vads[i].start <= a < vads[i].end
  }

  /** Some address of [base, end) is in no region. */
  ghost predicate HasHole(vads: seq<Vad>, base: int, end: int) {
    exists a :: base <= a < end && !AddressMapped(vads, a)
  }

  lemma {:induction false} IndexCount(s: set<int>, n: nat)
    requires forall i :: i in s ==> 0 <= i < n
    ensures |s| <= n
  {
    if n > 0 {
      IndexCount(s - {n - 1}, n - 1);
    } else {
      forall i ensures i !in s {
      }
      assert s == {};
    }
  }

  /** Consecutive non-empty aligned pieces of [base, end). */
  ghost predicate Clips(clips: seq<(nat, nat)>, base: int, end: int) {
    && |clips| > 0
    && clips[0].0 == base && clips[|clips| - 1].1 == end
    && (forall k :: 0 <= k < |clips| ==> clips[k].0 < clips[k].1 && clips[k].0 % PAGE == 0 && clips[k].1 % PAGE == 0)
    && (forall k :: 0 <= k < |clips| - 1 ==> clips[k].1 == clips[k + 1].0)
  }

  lemma NextClip(r: Regions, clips: seq<(nat, nat)>, base: nat, cur: nat, hi: nat, i: int)
    requires Layout(r) && 0 <= i < |r.vads| && Contains(r.vads[i], cur, hi) && cur < hi
    requires cur % PAGE == 0 && (hi == r.vads[i].end || hi % PAGE == 0)
    requires if clips == [] then cur == base else Clips(clips, base, cur)
    ensures hi % PAGE == 0 && Clips(clips + [(cur, hi)], base, hi) && InOne(r, cur, hi)
  {
    assert WellFormed(r.vads[i]);
  }

  /** Every slot of [from, to) and every heap block whose home is there name each other. */
  ghost predicate Matched(heap: Heap, home: map<nat, int>, slots: seq<Slot>, from: int, to: int, first: int)
    requires 0 <= from <= to <= |slots|
  {
    && home.Keys == heap.Keys
    && (forall k :: from <= k < to && slots[k].Block? ==> slots[k].id in heap && home[slots[k].id] == first + k)
    && (forall id :: id in heap && first + from <= home[id] < first + to ==> slots[home[id] - first] == Block(id))
  }

  lemma CellsMatched(c: Cells, heap: Heap, home: map<nat, int>, next: nat, slots: seq<Slot>, from: int, to: int, first: int)
    requires Housed(c, heap, home, next) && 0 <= from <= to <= |slots|
    requires forall p :: first + from <= p < first + to ==> p in c && c[p].slot == slots[p - first]
    ensures Matched(heap, home, slots, from, to, first)
  {
    forall k | from <= k < to && slots[k].Block? ensures slots[k].id in heap && home[slots[k].id] == first + k {
      assert first + k in c;
    }
  }

  lemma RegionMatched(r: Regions, heap: Heap, home: map<nat, int>, next: nat, i: int, from: int, to: int)
    requires Layout(r) && Housed(CellsOf(r), heap, home, next)
    requires 0 <= i < |r.vads| == |r.shadows| && r.shadows[i].Slots? && 0 <= from <= to <= |r.shadows[i].slots|
    ensures Matched(heap, home, r.shadows[i].slots, from, to, First(r.vads[i]))
  {
    hide CellsOf, Housed, CellAt;
    var first, slots := First(r.vads[i]), r.shadows[i].slots;
    forall p | first + from <= p < first + to ensures p in CellsOf(r) && CellsOf(r)[p].slot == slots[p - first] {
      assert WellFormed(r.vads[i]) && Fits(r.vads[i], r.shadows[i]);
      PageLookup(r, heap, i, p);
    }
    CellsMatched(CellsOf(r), heap, home, next, slots, from, to, first);
  }

  lemma NothingToDrop(r: Regions, heap: Heap, home: map<nat, int>, next: nat, i: int, lo: int, hi: int)
    requires Layout(r) && Housed(CellsOf(r), heap, home, next)
    requires 0 <= i < |r.vads| == |r.shadows| && r.shadows[i].NoArray? && First(r.vads[i]) <= lo && hi <= Limit(r.vads[i])
    ensures home.Keys == heap.Keys && heap == Drop(heap, home, lo, hi)
  {
    hide CellsOf, CellAt;
    forall id | id in heap ensures !(lo <= home[id] < hi) {
      if lo <= home[id] < hi {
        assert WellFormed(r.vads[i]);
        PageLookup(r, heap, i, home[id]);
        assert false;
      }
    }
  }

  /** The page counts of the three parts of a region cut at `base` and `end`. */
  lemma CutCounts(r: Regions, i: int, base: int, end: int)
    requires Layout(r) && Target(r, i, base, end)
    ensures |r.vads| == |r.shadows|
    ensures var v := r.vads[i];
            var left, mid, right := (base - v.start) / PAGE, (end - base) / PAGE, (v.end - end) / PAGE;
            && 0 <= left == base / PAGE - First(v)
            && left + mid == end / PAGE - First(v)
            && left + mid + right == Limit(v) - First(v)
            && (left > 0 <==> v.start < base) && mid > 0 && (right > 0 <==> end < v.end)
            && (r.shadows[i].Slots? ==> |r.shadows[i].slots| == left + mid + right)
  {
    assert WellFormed(r.vads[i]) && Fits(r.vads[i], r.shadows[i]);
  }

  /** What `vad_lookup` finds for the address of page `p`. */
  lemma PageLookup(r: Regions, heap: Heap, idx: int, p: int)
    requires Layout(r) && -1 <= idx < |r.vads|
    requires idx >= 0 ==> Covers(r.vads[idx], p)
    requires idx < 0 ==> forall i :: 0 <= i < |r.vads| ==> !Covers(r.vads[i], p)
    ensures idx < 0 <==> p !in CellsOf(r)
    ensures p in CellsOf(r) <==> p in ViewOf(CellsOf(r), heap)
    ensures idx >= 0 ==> CellsOf(r)[p] == CellOf(r.vads[idx], r.shadows[idx], p)
    ensures idx >= 0 ==> ViewOf(CellsOf(r), heap)[p] == PageOf(CellsOf(r)[p], heap)
  {
    InCells(r, p);
    if idx >= 0 {
      CellIs(r, idx, p);
    }
  }

  /** Requests that are not for whole pages and are granted: one byte at address 1, and a size that rounds to no page. */
  lemma NotWholeButGranted(space: AddressSpace)
    requires space.Sound() && space.vads == []
    ensures space.AllocStatus(1, 1) == Success && !space.WholePages(1, 1)
    ensures space.AllocStatus(PAGE, U64 - 1) == Success && !space.WholePages(PAGE, U64 - 1)
  {
    hide CellsOf, ViewOf, Housed;
    MappedCount(space.Arrays(), space.heap);
  }

  /** For whole pages, a region is in the way exactly when some page of the range is mapped. */
  lemma TakenIsMapped(r: Regions, heap: Heap, va: nat, size: nat)
    requires Layout(r) && va % PAGE == 0 && size % PAGE == 0 && size > 0
    ensures (exists i :: 0 <= i < |r.vads| && va < r.vads[i].end && va + size > r.vads[i].start)
            <==> exists p :: va / PAGE <= p < (va + size) / PAGE && p in ViewOf(CellsOf(r), heap)
  {
    hide CellsOf, ViewOf;
    var m := ViewOf(CellsOf(r), heap);
    forall i | 0 <= i < |r.vads| && va < r.vads[i].end && va + size > r.vads[i].start
      ensures exists p :: va / PAGE <= p < (va + size) / PAGE && p in m
    {
      assert WellFormed(r.vads[i]);
      var p := if va < r.vads[i].start then First(r.vads[i]) else va / PAGE;
      PageLookup(r, heap, i, p);
      assert va / PAGE <= p < (va + size) / PAGE && p in m;
    }
    if !exists i :: 0 <= i < |r.vads| && va < r.vads[i].end && va + size > r.vads[i].start {
      forall p | va / PAGE <= p < (va + size) / PAGE ensures p !in m {
        PageLookup(r, heap, -1, p);
      }
    }
  }

  lemma OverlayIsSplice(bytes: seq<byte>, at: int, va: int, data: seq<byte>)
    requires at <= va && va + |data| <= at + |bytes|
    ensures FlatMemory.Overlay(bytes, at, va, data) == bytes[..va - at] + data + bytes[va - at + |data|..]
  {
  }

  lemma WriteKeepsPages(m: FlatMemory.Memory, va: int, data: seq<byte>, p: int)
    ensures p in FlatMemory.Apply(m, FlatMemory.Write(va, data)) <==> p in m
    ensures p in m ==> FlatMemory.Apply(m, FlatMemory.Write(va, data))[p].prot == m[p].prot
  {
  }

  lemma NextPiece(m: FlatMemory.Memory, va: int, src: seq<byte>, i: nat, j: nat, page: int)
    requires i < j <= |src| && page in m
    requires page * PAGE <= va + i && va + j <= page * PAGE + PAGE
    requires i > 0 ==> FlatMemory.Legal(m, FlatMemory.Write(va, src[..i]))
    ensures FlatMemory.Legal(m, FlatMemory.Write(va, src[..j]))
    ensures FlatMemory.Apply(FlatMemory.Apply(m, FlatMemory.Write(va, src[..i])), FlatMemory.Write(va + i, src[i..j]))
            == FlatMemory.Apply(m, FlatMemory.Write(va, src[..j]))
  {
    FlatMemory.WriteInPieces(m, va, src[..j], i);
    assert src[..j][..i] == src[..i] && src[..j][i..] == src[i..j];
  }

  /** The committed-page count is the number of mapped pages. */
  lemma MappedCount(r: Regions, heap: Heap)
    requires Layout(r)
    ensures |ViewOf(CellsOf(r), heap)| == PagesOf(r.vads)
  {
    CellCount(r);
    assert ViewOf(CellsOf(r), heap).Keys == CellsOf(r).Keys;
  }

  lemma {:induction false} CellCount(r: Regions)
    requires Layout(r) && |r.shadows| == |r.vads|
    ensures |CellsOf(r)| == PagesOf(r.vads)
    decreases |r.vads|
  {
    hide CellAt, CellsOf, Layout, First, Limit;
    var n := |r.vads| - 1;
    if n < 0 {
      NoRegions(r);
    } else {
      var front := Regions(r.vads[..n], r.shadows[..n]);
      LastRegion(r, front, 0);
      CellCount(front);
      var last := Interval(First(r.vads[n]), Limit(r.vads[n]));
      IntervalSize(First(r.vads[n]), Limit(r.vads[n]));
      forall p ensures p in CellsOf(r).Keys <==> p in CellsOf(front).Keys + last ensures !(p in CellsOf(front).Keys && p in last) {
        LastRegion(r, front, p);
      }
      assert CellsOf(r).Keys == CellsOf(front).Keys + last;
    }
  }

  lemma NoRegions(r: Regions)
    requires Layout(r) && r.vads == []
    ensures CellsOf(r) == map[]
  {
  }

  lemma LastRegion(r: Regions, front: Regions, p: int)
    requires Layout(r) && r.vads != [] && |r.shadows| == |r.vads|
    requires front == Regions(r.vads[..|r.vads| - 1], r.shadows[..|r.vads| - 1])
    ensures Layout(front) && |front.vads| == |front.shadows|
    ensures var v := r.vads[|r.vads| - 1];
            && First(v) <= Limit(v)
            && (p in CellsOf(r) <==> p in CellsOf(front) || First(v) <= p < Limit(v))
            && !(p in CellsOf(front) && First(v) <= p < Limit(v))
  {
    hide CellAt;
    var n := |r.vads| - 1;
    AppendCells(front, r.vads[n], r.shadows[n], p);
    assert Append(front, r.vads[n], r.shadows[n]) == r;
    InCells(r, p);
    InCells(front, p);
  }
}
