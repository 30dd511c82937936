/**
 User address spaces on hardware: the same regions, with leaf page-table entries and physical frames in
 place of shadow pages. The page table is a map from page number to entry.
 */
module HardwareSpaces {
  import opened Common
  import opened Vads
  import opened VadOperations
  import opened AddressSpaces
  import opened Buddies
  import opened PhysicalMemory
  import opened MemoryRefinement
  import FlatMemory

  /** An entry: committed but never touched, a frame kept out of reach, or a frame the processor can reach. */
  datatype Pte = Proto | Parked(frame: nat) | Present(frame: nat, writable: bool, noExecute: bool)

  type Ptes = map<int, Pte>

  const UNMAP_BATCH: nat := 16

  predicate Framed(e: Pte) { !e.Proto? }

  predicate ExecutableProt(prot: nat) {
    Has(prot, PAGE_EXECUTE) || Has(prot, PAGE_EXECUTE_READ) || Has(prot, PAGE_EXECUTE_READWRITE)
  }

  /** `pte_flags_from_prot`. */
  function PresentAs(frame: nat, prot: nat): Pte {
    Present(frame, WritableProt(prot), !ExecutableProt(prot))
  }

  /** What the processor may do with a page of a protection made of some of the six flags. */
  lemma TableFlags(frame: nat, none: bool, r: bool, rw: bool, x: bool, rx: bool, rwx: bool)
    ensures var e := PresentAs(frame, ProtOf(none, r, rw, x, rx, rwx));
      e.Present? && e.frame == frame && e.writable == (rw || rwx) && e.noExecute == !(x || rx || rwx)
  {
    hide Has, ProtOf;
    ProtFlags(none, r, rw, x, rx, rwx);
  }

  /**
   A page that is read-only is never writable in the table, and one without an execute right is never executable. Under a
   legal protection a page is both exactly if the writing flag is combined with an execute flag.
   */
  lemma WriteOrExecute(frame: nat, none: bool, r: bool, rw: bool, x: bool, rx: bool, rwx: bool)
    requires LegalProt(ProtOf(none, r, rw, x, rx, rwx))
    ensures var e := PresentAs(frame, ProtOf(none, r, rw, x, rx, rwx));
      && e.Present? && (!rw ==> !e.writable) && (!x && !rx ==> e.noExecute)
      && (e.writable && !e.noExecute <==> rw && (x || rx))
  {
    hide Has, ProtOf, PresentAs;
    TableFlags(frame, none, r, rw, x, rx, rwx);
    LegalFlags(none, r, rw, x, rx, rwx);
  }

  /** The entry after its page is given another protection. */
  function Retag(e: Pte, prot: nat): Pte {
    if e.Proto? then e else if Has(prot, PAGE_NOACCESS) then Parked(e.frame) else PresentAs(e.frame, prot)
  }

  /* ---- agreement with the regions ---- */

  ghost predicate EntryOk(m: FlatMemory.Memory, p: int, e: Pte) {
    match e
    case Proto => p in m
    case Parked(_) => p in m && Has(m[p].prot, PAGE_NOACCESS)
    case Present(f, _, _) => p in m && !Has(m[p].prot, PAGE_NOACCESS) && e == PresentAs(f, m[p].prot)
  }

  /** Every entry that the processor can use grants exactly what its region grants. */
  ghost predicate Mirrors(m: FlatMemory.Memory, t: Ptes) {
    forall p :: p in t ==> EntryOk(m, p, t[p])
  }

  /** Every mapped page has an entry. */
  ghost predicate Complete(m: FlatMemory.Memory, t: Ptes) {
    forall p :: p in m ==> p in t
  }

  /** No frame is in two entries. */
  ghost predicate Distinct(t: Ptes) {
    forall p, q :: p in t && q in t && p != q && Framed(t[p]) && Framed(t[q]) ==> t[p].frame != t[q].frame
  }

  /** Every frame in an entry is a single frame handed out for user memory. */
  ghost predicate Owned(t: Ptes, fs: seq<Frame>) {
    forall p :: p in t && Framed(t[p]) ==> t[p].frame in Allocated(fs) && Allocated(fs)[t[p].frame] == (0, User)
  }

  ghost function Frames(t: Ptes): set<int> {
    set p | p in t && Framed(t[p]) :: t[p].frame
  }

  ghost function FramesIn(t: Ptes, lo: int, hi: int): set<int> {
    set p | p in t && lo <= p < hi && Framed(t[p]) :: t[p].frame
  }

  ghost function Emptied(t: Ptes, lo: int, hi: int): Ptes {
    map p | p in t && !(lo <= p < hi) :: t[p]
  }

  /** Untouched entries added for [lo, hi). */
  ghost function Added(t: Ptes, lo: int, hi: int): Ptes {
    map p | p in t.Keys + Interval(lo, hi) :: if p in t then t[p] else Proto
  }

  ghost function Retagged(t: Ptes, lo: int, hi: int, prot: nat): Ptes {
    map p | p in t :: if lo <= p < hi then Retag(t[p], prot) else t[p]
  }

  lemma ProtectMirrors(m: FlatMemory.Memory, t: Ptes, lo: int, hi: int, prot: nat)
    requires Mirrors(m, t)
    ensures Mirrors(FlatMemory.Apply(m, FlatMemory.Event.Protect(lo, hi, prot)), Retagged(t, lo, hi, prot))
    ensures Complete(m, t) ==> Complete(FlatMemory.Apply(m, FlatMemory.Event.Protect(lo, hi, prot)), Retagged(t, lo, hi, prot))
  {
    forall p | p in t ensures EntryOk(FlatMemory.Apply(m, FlatMemory.Event.Protect(lo, hi, prot)), p, Retagged(t, lo, hi, prot)[p]) {
      assert EntryOk(m, p, t[p]);
    }
  }

  lemma RetaggedFrames(t: Ptes, lo: int, hi: int, prot: nat, fs: seq<Frame>)
    requires Distinct(t) && Owned(t, fs)
    ensures var r := Retagged(t, lo, hi, prot); Distinct(r) && Owned(r, fs) && Frames(r) == Frames(t)
  {
    var r := Retagged(t, lo, hi, prot);
    forall p | p in t ensures p in r && Framed(r[p]) == Framed(t[p]) && (Framed(t[p]) ==> r[p].frame == t[p].frame) {
    }
    forall f ensures f in Frames(r) <==> f in Frames(t) {
      if f in Frames(t) {
        var p :| p in t && Framed(t[p]) && t[p].frame == f;
        assert p in r && Framed(r[p]);
      }
    }
  }

  lemma FreeMirrors(m: FlatMemory.Memory, t: Ptes, lo: int, hi: int)
    requires Mirrors(m, t)
    ensures Mirrors(FlatMemory.Apply(m, FlatMemory.Event.Free(lo, hi)), Emptied(t, lo, hi))
    ensures Complete(m, t) ==> Complete(FlatMemory.Apply(m, FlatMemory.Event.Free(lo, hi)), Emptied(t, lo, hi))
  {
    forall p | p in Emptied(t, lo, hi) ensures EntryOk(FlatMemory.Apply(m, FlatMemory.Event.Free(lo, hi)), p, t[p]) {
      assert EntryOk(m, p, t[p]);
    }
  }

  lemma AllocMirrors(m: FlatMemory.Memory, t: Ptes, lo: int, hi: int, prot: nat, kind: nat)
    requires Mirrors(m, t) && forall p :: lo <= p < hi ==> p !in m
    ensures Mirrors(FlatMemory.Apply(m, FlatMemory.Event.Alloc(lo, hi, prot, kind)), t)
  {
    forall p | p in t ensures EntryOk(FlatMemory.Apply(m, FlatMemory.Event.Alloc(lo, hi, prot, kind)), p, t[p]) {
      assert EntryOk(m, p, t[p]);
    }
  }

  /** A frame from the free set was not handed out before. */
  lemma FreeNotAllocated(fs: seq<Frame>, f: nat)
    requires Tiled(fs, 0, |fs|) && f in FreeSet(fs)
    ensures f !in Allocated(fs)
  {
    if f in Allocated(fs) {
      var h :| 0 <= h < |fs| && fs[h].state == Free && InBlock(fs, h, f);
      assert InBlock(fs, f, f);
      OneBlock(fs, h, f, f);
    }
  }

  lemma PutFrame(t: Ptes, p: int, e: Pte, fs: seq<Frame>, gs: seq<Frame>)
    requires Distinct(t) && Owned(t, fs) && Framed(e) && (p in t ==> !Framed(t[p]))
    requires e.frame !in Allocated(fs) && Allocated(gs) == Allocated(fs)[e.frame := (0, User)]
    ensures var r := t[p := e];
      Distinct(r) && Owned(r, gs) && Allocated(gs) - Frames(r) == Allocated(fs) - Frames(t)
  {
    hide Allocated;
    var r := t[p := e];
    assert Frames(r) == Frames(t) + {e.frame} by {
      forall f ensures f in Frames(r) <==> f in Frames(t) + {e.frame} {
        if f in Frames(t) {
          var q :| q in t && Framed(t[q]) && t[q].frame == f;
          assert q in r && Framed(r[q]) && r[q].frame == f;
        }
        assert p in r && Framed(r[p]);
      }
    }
  }

  /** The frames of a stretch of entries, in address order. */
  ghost function ListIn(t: Ptes, lo: int, hi: int): seq<nat>
    decreases hi - lo
  {
    if hi <= lo then []
    else (if lo in t && Framed(t[lo]) then [t[lo].frame] else []) + ListIn(t, lo + 1, hi)
  }

  lemma {:induction false} ListedFrames(t: Ptes, lo: int, hi: int, f: nat)
    ensures f in ListIn(t, lo, hi) <==> f in FramesIn(t, lo, hi)
    decreases hi - lo
  {
    if lo < hi {
      ListedFrames(t, lo + 1, hi, f);
      assert f in FramesIn(t, lo, hi) <==> (lo in t && Framed(t[lo]) && t[lo].frame == f) || f in FramesIn(t, lo + 1, hi) by {
        if f in FramesIn(t, lo, hi) {
          var p :| p in t && lo <= p < hi && Framed(t[p]) && t[p].frame == f;
          assert p == lo || lo + 1 <= p < hi;
        }
      }
    }
  }

  lemma {:induction false} ListedOnce(t: Ptes, lo: int, hi: int)
    requires Distinct(t)
    ensures NoDup(ListIn(t, lo, hi))
    decreases hi - lo
  {
    if lo < hi {
      ListedOnce(t, lo + 1, hi);
      if lo in t && Framed(t[lo]) {
        ListedFrames(t, lo + 1, hi, t[lo].frame);
        OnceMore(t[lo].frame, ListIn(t, lo + 1, hi));
      }
    }
  }

  lemma OnceMore(f: nat, l: seq<nat>)
    requires NoDup(l) && f !in l
    ensures NoDup([f] + l)
  {
  }

  lemma EmptiedFrames(t: Ptes, lo: int, hi: int, fs: seq<Frame>)
    requires Distinct(t) && Owned(t, fs)
    ensures var r := Emptied(t, lo, hi); Distinct(r) && Frames(r) == Frames(t) - FramesIn(t, lo, hi)
  {
    hide Allocated;
    var r := Emptied(t, lo, hi);
    forall f ensures f in Frames(r) <==> f in Frames(t) - FramesIn(t, lo, hi) {
      if f in Frames(t) {
        var p :| p in t && Framed(t[p]) && t[p].frame == f;
        assert p in r || f in FramesIn(t, lo, hi);
        if f in FramesIn(t, lo, hi) {
          var q :| q in t && lo <= q < hi && Framed(t[q]) && t[q].frame == f;
          assert p == q;
        }
      }
    }
  }

  class HardwareSpace {
    const space: AddressSpace
    const pmm: Pmm
    var ptes: Ptes

    ghost predicate Coherent()
      reads this, space, pmm, pmm.frames, pmm.next, pmm.heads
    {
      && space.Valid() && Bare(space.Arrays()) && pmm.Valid()
      && Mirrors(space.View(), ptes) && Distinct(ptes) && Owned(ptes, pmm.frames[..])
    }

    /** Between two calls, exactly the mapped pages have entries. */
    ghost predicate Valid()
      reads this, space, pmm, pmm.frames, pmm.next, pmm.heads
    {
      Coherent() && Complete(space.View(), ptes)
    }

    constructor (space: AddressSpace, pmm: Pmm)
      requires space.Valid() && space.vads == [] && pmm.Valid()
      ensures Valid() && this.space == space && this.pmm == pmm && ptes == map[]
    {
      this.space, this.pmm, ptes := space, pmm, map[];
      NoRegions(space.Arrays());
    }

    /** What the frame allocator has handed out to anybody else. No call changes it. */
    ghost function Others(): map<int, (nat, FrameState)>
      reads this, pmm, pmm.frames
    {
      Allocated(pmm.frames[..]) - Frames(ptes)
    }

    /** The protection of the region over a page. */
    method ProtOf(p: nat) returns (r: Option<nat>)
      requires space.Valid()
      ensures r == if p in space.View() then Some(space.View()[p].prot) else None
    {
      var idx := space.VadLookup(p * PAGE);
      PageLookup(space.Arrays(), space.heap, idx, p);
      r := if idx >= 0 then Some(space.vads[idx].prot) else None;
    }

    /** Takes a single frame from the allocator; refused exactly when none is free. */
    method TakeFrame() returns (r: Option<nat>)
      requires pmm.Valid()
      modifies pmm, pmm.frames, pmm.next, pmm.heads
      ensures pmm.Valid()
      ensures r == None <==> FreeSet(old(pmm.frames[..])) == {}
      ensures r == None ==> Allocated(pmm.frames[..]) == Allocated(old(pmm.frames[..]))
      ensures r.Some? ==> r.value !in Allocated(old(pmm.frames[..]))
      ensures r.Some? ==> Allocated(pmm.frames[..]) == Allocated(old(pmm.frames[..]))[r.value := (0, User)]
    {
      hide Tiled, FreeSet, Allocated, Merged, Span, FreeRun;
      ghost var fs := pmm.frames[..];
      SingleRun(fs);
      r := pmm.AllocBlock(0, User);
      if r.Some? {
        FreshFrame(fs, r.value);
      }
    }

    /** Gives a frame back to the allocator, which never finds anything wrong with it. */
    method GiveUp(f: nat)
      requires pmm.Valid() && f in Allocated(pmm.frames[..]) && Allocated(pmm.frames[..])[f] == (0, User)
      modifies pmm, pmm.frames, pmm.next, pmm.heads
      ensures pmm.Valid() && Allocated(pmm.frames[..]) == Allocated(old(pmm.frames[..])) - {f}
    {
      var panics := pmm.FreeBlock(f, 0);
      assert !panics;
    }

    /** The processor can reach page `p`. */
    ghost predicate Reached(p: int)
      reads this
    {
      p in ptes && ptes[p].Present?
    }

    /** Page `p` cannot get an entry with a frame: no table above it, or no frame left. */
    ghost predicate Short(p: int, leaf: bool)
      reads this, pmm, pmm.frames
    {
      (p !in ptes && !leaf) || FreeSet(pmm.frames[..]) == {}
    }

    /**
     Demand fill of one page. A frame is taken from the allocator; it ends up in exactly one entry or goes back.
     `leaf` is whether the tables above the entry can be allocated if they are missing.
     */
    method Populate(p: nat, write: bool, leaf: bool) returns (st: Status)
      requires Coherent()
      modifies this, pmm, pmm.frames, pmm.next, pmm.heads
      ensures Coherent() && (old(Valid()) ==> Valid()) && Others() == old(Others())
      ensures st in {Success, AccessViolation, NoMemory}
      ensures st == AccessViolation <==> !space.Accessible(p, write)
      ensures st == NoMemory <==> space.Accessible(p, write) && !old(Reached(p)) && old(Short(p, leaf))
      ensures st == Success ==> Reached(p) && ptes == old(ptes)[p := ptes[p]]
      ensures st != Success ==> ptes == old(ptes)
    {
      hide Mirrors, Distinct, Owned, Allocated, Frames, Pmm.Valid, Complete, Bare, FreeSet;
      hide Layout, Housed, CellsOf, ViewOf, PagesOf, FlatMemory.Replay, FlatMemory.LegalLog;
      var prot := ProtOf(p);
      if prot == None || Has(prot.value, PAGE_NOACCESS) {
        return AccessViolation;
      }
      if write && !WritableProt(prot.value) {
        return AccessViolation;
      }
      HasEntry(space.View(), ptes, p);
      if p in ptes && ptes[p].Present? {
        return Success;
      }
      st := Fill(p, prot.value, leaf);
    }

    /** The page has no frame yet: an entry that holds one is present, or its page is not accessible. */
    method Fill(p: nat, prot: nat, leaf: bool) returns (st: Status)
      requires Coherent() && p in space.View() && prot == space.View()[p].prot && !Has(prot, PAGE_NOACCESS)
      requires p in ptes ==> ptes[p].Proto?
      modifies this, pmm, pmm.frames, pmm.next, pmm.heads
      ensures Coherent() && (old(Valid()) ==> Valid()) && Others() == old(Others()) && st in {Success, NoMemory}
      ensures st == NoMemory <==> old(Short(p, leaf))
      ensures st == Success ==> Reached(p) && ptes == old(ptes)[p := ptes[p]]
      ensures st != Success ==> ptes == old(ptes)
    {
      hide Mirrors, Distinct, Owned, Allocated, Frames, Pmm.Valid, Complete, Bare, FreeSet;
      hide Layout, Housed, CellsOf, ViewOf, PagesOf, FlatMemory.Replay, FlatMemory.LegalLog;
      ghost var fs := pmm.frames[..];
      var r := TakeFrame();
      ghost var gs := pmm.frames[..];
      if r == None {
        OwnedSame(ptes, fs, gs);
        return NoMemory;
      }
      if p !in ptes && !leaf {
        GiveUp(r.value);
        GivenBack(fs, gs, pmm.frames[..], r.value);
        OwnedSame(ptes, fs, pmm.frames[..]);
        return NoMemory;
      }
      PutFrame(ptes, p, PresentAs(r.value, prot), fs, gs);
      PutMirrors(space.View(), ptes, p, r.value);
      ptes := ptes[p := PresentAs(r.value, prot)];
      return Success;
    }

    /** Clears up to `cap` entries from page lo on and lists the frames they held. */
    method CollectClear(lo: int, n: nat, cap: nat) returns (fr: seq<nat>, k: nat)
      modifies `ptes
      ensures k == (if n < cap then n else cap)
      ensures ptes == Emptied(old(ptes), lo, lo + k) && fr == ListIn(old(ptes), lo, lo + k)
    {
      hide Emptied, ListIn;
      k := if n < cap then n else cap;
      fr := [];
      var i: nat := 0;
      ghost var t := ptes;
      NothingCleared(t, lo);
      ListStep(t, lo + k, lo + k);
      while i < k
        invariant i <= k && ptes == Emptied(t, lo, lo + i)
        invariant fr + ListIn(t, lo + i, lo + k) == ListIn(t, lo, lo + k)
      {
        var p := lo + i;
        ClearNext(t, lo, p);
        ListStep(t, p, lo + k);
        if p in ptes {
          if Framed(ptes[p]) {
            fr := fr + [ptes[p].frame];
          }
          ptes := ptes - {p};
        }
        assert ptes == Emptied(t, lo, p + 1);
        i := i + 1;
      }
    }

    /** Hands every frame of the list back. */
    method FreeAll(l: seq<nat>)
      requires pmm.Valid() && NoDup(l)
      requires forall f :: f in l ==> f in Allocated(pmm.frames[..]) && Allocated(pmm.frames[..])[f] == (0, User)
      modifies pmm, pmm.frames, pmm.next, pmm.heads
      ensures pmm.Valid() && Allocated(pmm.frames[..]) == Allocated(old(pmm.frames[..])) - Elems(l)
    {
      hide Allocated, Pmm.Valid;
      ghost var a := Allocated(pmm.frames[..]);
      var i := 0;
      assert a == a - Elems(l[..0]);
      while i < |l|
        invariant i <= |l| && pmm.Valid() && Allocated(pmm.frames[..]) == a - Elems(l[..i])
      {
        assert l[i] in l && l[i] !in l[..i];
        GiveUp(l[i]);
        assert l[..i + 1] == l[..i] + [l[i]];
        assert Elems(l[..i + 1]) == Elems(l[..i]) + {l[i]};
        i := i + 1;
      }
      assert l[..i] == l;
    }

    /** Empties a stretch of the table, in one go or in batches when the heap refuses the list of frames. */
    method ClearRange(lo: int, n: nat, heap: bool)
      requires pmm.Valid() && Distinct(ptes) && Owned(ptes, pmm.frames[..])
      modifies this, pmm, pmm.frames, pmm.next, pmm.heads
      ensures pmm.Valid() && ptes == Emptied(old(ptes), lo, lo + n) && Distinct(ptes) && Owned(ptes, pmm.frames[..])
      ensures Others() == old(Others())
    {
      hide Allocated, Pmm.Valid, Distinct, Owned, Frames, Emptied;
      var cap := if heap && n > UNMAP_BATCH then n else UNMAP_BATCH;
      var done: nat := 0;
      NothingCleared(ptes, lo);
      while done < n
        invariant done <= n && pmm.Valid() && ptes == Emptied(old(ptes), lo, lo + done)
        invariant Distinct(ptes) && Owned(ptes, pmm.frames[..]) && Others() == old(Others())
      {
        ghost var t, fs := ptes, pmm.frames[..];
        var fr, k := CollectClear(lo + done, n - done, cap);
        ListedOnce(t, lo + done, lo + done + k);
        ListedOwned(t, lo + done, lo + done + k, fs);
        FreeAll(fr);
        ClearedOwned(t, lo + done, lo + done + k, fs, pmm.frames[..]);
        ClearedMore(old(ptes), lo, lo + done, lo + done + k);
        done := done + k;
      }
    }

    method ApplyProt(lo: int, hi: int, prot: nat)
      modifies `ptes
      ensures ptes == Retagged(old(ptes), lo, hi, prot)
    {
      var p := lo;
      ghost var t := ptes;
      assert ptes == Retagged(t, lo, lo, prot);
      while p < hi
        invariant lo <= p && (p <= hi || p == lo) && ptes == Retagged(t, lo, p, prot)
      {
        if p in ptes {
          ptes := ptes[p := Retag(ptes[p], prot)];
        }
        p := p + 1;
      }
      assert hi <= lo ==> Retagged(t, lo, lo, prot) == Retagged(t, lo, hi, prot);
    }

    /* ---- the calls ---- */

    /** Free clears exactly the entries of the pages it unmaps and hands their frames back, or changes nothing. */
    method FreeUser(base: nat, size: nat, heap: bool) returns (st: Status, end: int)
      requires Coherent() && base < U64 && size < U64
      modifies this, space, pmm, pmm.frames, pmm.next, pmm.heads
      ensures Coherent() && (old(Valid()) ==> Valid()) && Others() == old(Others())
      ensures st == old(space.FreeStatus(base, size))
      ensures st != Success ==> ptes == old(ptes) && space.View() == old(space.View())
      ensures st == Success ==>
        && (exists idx :: old(space.FreeTarget(base, size, idx, end)))
        && ptes == Emptied(old(ptes), AlignDown(base) / PAGE, end / PAGE)
        && space.View() == FlatMemory.Apply(old(space.View()), FlatMemory.Event.Free(AlignDown(base) / PAGE, end / PAGE))
    {
      hide Allocated, Pmm.Valid, Distinct, Owned, Frames, Emptied, Mirrors, Complete, Bare, AddressSpace.FreeStatus, AddressSpace.FreeTarget;
      hide Layout, Housed, CellsOf, ViewOf, PagesOf, FlatMemory.Replay, FlatMemory.LegalLog, FlatMemory.Apply;
      ghost var m, t := space.View(), ptes;
      st, end := space.FreeUser(base, size);
      if st != Success {
        assert space.View() == m;
        return;
      }
      var lo := AlignDown(base) / PAGE;
      var n := if end / PAGE > lo then end / PAGE - lo else 0;
      ClearRange(lo, n, heap);
      FreeMirrors(m, t, lo, end / PAGE);
      EmptiedSame(t, lo, lo + n, end / PAGE);
    }

    /** Protect changes the entries of exactly the pages whose protection it changes, up to where it stopped. */
    method ProtectUser(base: nat, size: nat, prot: nat) returns (st: Status, oldProt: Option<nat>, done: int)
      requires Valid() && base < U64 && size < U64
      modifies this, space
      ensures Valid() && Others() == old(Others())
      ensures st in {Success, InvalidParameter, InvalidPageProtection, ConflictingAddresses, InsufficientResources}
      ensures st == InvalidParameter <==> size == 0
      ensures st == InvalidPageProtection <==> size != 0 && !LegalProt(prot)
      ensures st == ConflictingAddresses <==> size != 0 && LegalProt(prot) && !old(space.ProtectRange(base, size))
      ensures LegalProt(prot) && old(space.ProtectRange(base, size)) ==>
                FullTable(old(space.Arrays()), AlignDown(base), RangeEnd(base, size), st == InsufficientResources)
      ensures st in {InvalidParameter, InvalidPageProtection, ConflictingAddresses} ==>
                ptes == old(ptes) && unchanged(space) && oldProt == None
      ensures old(space.ProtectRange(base, size)) ==> AlignDown(base) / PAGE <= done <= RangeEnd(base, size) / PAGE
      ensures ptes == Retagged(old(ptes), AlignDown(base) / PAGE, done, prot)
      ensures space.View() == FlatMemory.Apply(old(space.View()), FlatMemory.Event.Protect(AlignDown(base) / PAGE, done, prot))
      ensures st == Success ==> done == RangeEnd(base, size) / PAGE
      ensures st == Success ==> OldProt(old(space.View()), AlignDown(base) / PAGE, oldProt)
    {
      hide Allocated, Pmm.Valid, Distinct, Owned, Frames, Retagged, Mirrors, Complete, Bare, OldProt, LegalProt, FullTable, Seams;
      hide AddressSpace.ProtectRange, KeepsOthers, Coalesced, AlignUp;
      hide Layout, Housed, CellsOf, ViewOf, PagesOf, FlatMemory.Replay, FlatMemory.LegalLog, FlatMemory.Apply;
      ghost var m, t := space.View(), ptes;
      st, oldProt, done := space.ProtectUser(base, size, prot);
      var lo := AlignDown(base) / PAGE;
      ApplyProt(lo, done, prot);
      NothingRetagged(t, lo, prot);
      ProtectMirrors(m, t, lo, done, prot);
      RetaggedFrames(t, lo, done, prot, pmm.frames[..]);
    }

    /**
     Marks the entries of a new region as committed, up to the first page whose tables cannot be had.
     */
    method MarkCommitted(lo: nat, hi: nat, leaves: nat -> bool) returns (ok: bool, upto: nat)
      requires Coherent() && lo <= hi && forall p :: lo <= p < hi ==> p in space.View() && p !in ptes
      modifies `ptes
      ensures Coherent() && Others() == old(Others())
      ensures lo <= upto <= hi && ptes == Added(old(ptes), lo, upto)
      ensures ok <==> forall p: nat :: lo <= p < hi ==> leaves(p)
      ensures ok ==> upto == hi
    {
      hide Allocated, Pmm.Valid, Distinct, Owned, Frames, Mirrors, Bare, Added;
      hide Layout, Housed, CellsOf, ViewOf, PagesOf, FlatMemory.Replay, FlatMemory.LegalLog;
      upto := lo;
      NothingAdded(ptes, lo);
      while upto < hi
        invariant lo <= upto <= hi && Coherent() && Others() == old(Others())
        invariant ptes == Added(old(ptes), lo, upto)
        invariant forall p: nat :: lo <= p < upto ==> leaves(p)
      {
        if !leaves(upto) {
          return false, upto;
        }
        AddedStep(old(ptes), lo, upto);
        if upto !in ptes {
          ProtoKeeps(space.View(), ptes, upto, pmm.frames[..]);
          ptes := ptes[upto := Proto];
        }
        upto := upto + 1;
      }
      ok := true;
    }

    /** The outcome of an allocation: that of the regions, and then whether all tables can be had. */
    ghost function AllocStatus(base: nat, size: nat, leaves: nat -> bool): Status
      requires space.Sound()
      reads this, space
    {
      var at := if base == 0 then space.brk else base;
      if space.AllocStatus(base, size) != Success then space.AllocStatus(base, size)
      else if forall p: nat :: at / PAGE <= p < (at + AlignUp(size)) / PAGE ==> leaves(p) then Success
      else NoMemory
    }

    /** Alloc maps the region and marks exactly its entries, or changes nothing: when the tables run out it unmaps again. */
    method AllocUser(base: nat, size: nat, prot: nat, kind: nat, leaves: nat -> bool, heap: bool) returns (st: Status, va: nat)
      requires Valid() && base < U64 && size < U64
      requires space.AllocStatus(base, size) == Success ==> space.WholePages(base, size)
      modifies this, space, pmm, pmm.frames, pmm.next, pmm.heads
      ensures Valid() && Others() == old(Others())
      ensures st == old(AllocStatus(base, size, leaves))
      ensures st == Success ==>
        && va == (if base == 0 then old(space.brk) else base)
        && ptes == Added(old(ptes), va / PAGE, (va + AlignUp(size)) / PAGE)
        && MappedNew(old(space.View()), space.View(), va, AlignUp(size), prot, kind)
      ensures st != Success ==> va == base && ptes == old(ptes) && space.View() == old(space.View())
    {
      hide Allocated, Pmm.Valid, Distinct, Owned, Frames, Mirrors, Complete, Bare, Added, Emptied, AddressSpace.AllocStatus;
      hide Layout, Housed, CellsOf, ViewOf, PagesOf, FlatMemory.Replay, FlatMemory.LegalLog, FlatMemory.Apply, AlignUp;
      ghost var m, t := space.View(), ptes;
      st, va := space.AllocUser(base, size, prot, kind);
      if st != Success {
        assert space.View() == m;
        return;
      }
      BareMore(old(space.Arrays()), space.Arrays());
      AlignUpWhole(size);
      var lo, hi := va / PAGE, (va + AlignUp(size)) / PAGE;
      FreshRange(space, m, lo, hi, prot, kind);
      AllocMirrors(m, t, lo, hi, prot, kind);
      FreshEntries(m, t, lo, hi, prot, kind);
      var ok, upto := MarkCommitted(lo, hi, leaves);
      if ok {
        AddedComplete(m, t, lo, hi, prot, kind);
      } else {
        Unmap(m, t, va, AlignUp(size), upto, prot, kind, heap);
        return NoMemory, base;
      }
    }

    /** Takes the region that was just mapped away again. Nothing can refuse that. */
    method Unmap(ghost m: FlatMemory.Memory, ghost t: Ptes, va: nat, bytes: nat, ghost upto: nat, ghost prot: nat, ghost kind: nat, heap: bool)
      requires Coherent() && Mirrors(m, t) && Complete(m, t)
      requires va % PAGE == 0 && bytes % PAGE == 0 && bytes > 0 && va + bytes <= ADDRESS_END
      requires |space.vads| > 0 && Spans(space.vads[|space.vads| - 1], va, va + bytes)
      requires forall p :: va / PAGE <= p < (va + bytes) / PAGE ==> p !in m
      requires MappedNew(m, space.View(), va, bytes, prot, kind) && upto <= (va + bytes) / PAGE && ptes == Added(t, va / PAGE, upto)
      modifies this, space, pmm, pmm.frames, pmm.next, pmm.heads
      ensures Valid() && Others() == old(Others())
      ensures ptes == t && space.View() == m
    {
      hide Allocated, Pmm.Valid, Distinct, Owned, Frames, Mirrors, Complete, Bare, Added, Emptied, AddressSpace.FreeStatus;
      hide Layout, Housed, CellsOf, ViewOf, PagesOf, FlatMemory.Replay, FlatMemory.LegalLog, FlatMemory.Apply, AlignUp, OutOfRange;
      WholeRegionFrees(space, |space.vads| - 1);
      AlignedSize(va, va + bytes);
      var st, end := FreeUser(va, bytes, heap);
      UndoneMemory(m, va / PAGE, (va + bytes) / PAGE, prot, kind);
      UndoneEntries(m, t, va / PAGE, upto, (va + bytes) / PAGE);
    }
  }

  ghost predicate MappedNew(m: FlatMemory.Memory, m': FlatMemory.Memory, va: nat, bytes: nat, prot: nat, kind: nat) {
    m' == FlatMemory.Apply(m, FlatMemory.Event.Alloc(va / PAGE, (va + bytes) / PAGE, prot, kind))
  }

  lemma InAdded(t: Ptes, lo: int, hi: int, q: int)
    ensures q in Added(t, lo, hi) <==> q in t || lo <= q < hi
    ensures q in Added(t, lo, hi) ==> Added(t, lo, hi)[q] == if q in t then t[q] else Proto
  {
    hide Interval;
  }

  /** The processor can write to a present page exactly if the kernel may write to it on the user's behalf. */
  lemma TableGrants(hw: HardwareSpace, p: int)
    requires hw.Coherent() && p in hw.ptes && hw.ptes[p].Present?
    ensures hw.space.Accessible(p, false) && (hw.ptes[p].writable <==> hw.space.Accessible(p, true))
  {
    hide Layout, Housed, CellsOf, ViewOf, PagesOf, FlatMemory.Replay, FlatMemory.LegalLog, Pmm.Valid, Distinct, Owned;
    HasEntry(hw.space.View(), hw.ptes, p);
  }

  lemma AddedStep(t: Ptes, lo: int, p: int)
    requires lo <= p && p !in t
    ensures p !in Added(t, lo, p) && Added(t, lo, p)[p := Proto] == Added(t, lo, p + 1)
  {
    hide Added;
    var r := Added(t, lo, p)[p := Proto];
    forall q ensures q in r <==> q in Added(t, lo, p + 1)
      ensures q in r ==> r[q] == Added(t, lo, p + 1)[q]
    {
      InAdded(t, lo, p, q);
      InAdded(t, lo, p + 1, q);
    }
    InAdded(t, lo, p, p);
  }

  lemma NothingAdded(t: Ptes, lo: int)
    ensures Added(t, lo, lo) == t
  {
    hide Added;
    forall q ensures q in t <==> q in Added(t, lo, lo)
      ensures q in t ==> t[q] == Added(t, lo, lo)[q]
    {
      InAdded(t, lo, lo, q);
    }
  }

  lemma NothingRetagged(t: Ptes, lo: int, prot: nat)
    ensures Retagged(t, lo, lo, prot) == t
  {
  }

  /** A page without a region has no entry. */
  lemma FreshEntries(m: FlatMemory.Memory, t: Ptes, lo: int, hi: int, prot: nat, kind: nat)
    requires Mirrors(m, t) && forall p :: lo <= p < hi ==> p !in m
    ensures forall p :: lo <= p < hi ==> p !in t && p in FlatMemory.Apply(m, FlatMemory.Event.Alloc(lo, hi, prot, kind))
  {
    forall p | p in t ensures p in m {
      assert EntryOk(m, p, t[p]);
    }
  }

  lemma AddedComplete(m: FlatMemory.Memory, t: Ptes, lo: int, hi: int, prot: nat, kind: nat)
    requires Complete(m, t)
    ensures Complete(FlatMemory.Apply(m, FlatMemory.Event.Alloc(lo, hi, prot, kind)), Added(t, lo, hi))
  {
  }

  lemma BareMore(r: Regions, r': Regions)
    requires Bare(r) && r'.shadows == r.shadows + [NoArray]
    ensures Bare(r')
  {
  }

  lemma UndoneMemory(m: FlatMemory.Memory, lo: int, hi: int, prot: nat, kind: nat)
    requires forall p :: lo <= p < hi ==> p !in m
    ensures FlatMemory.Apply(FlatMemory.Apply(m, FlatMemory.Event.Alloc(lo, hi, prot, kind)), FlatMemory.Event.Free(lo, hi)) == m
  {
  }

  lemma UndoneEntries(m: FlatMemory.Memory, t: Ptes, lo: int, upto: int, hi: int)
    requires Mirrors(m, t) && upto <= hi && forall p :: lo <= p < hi ==> p !in m
    ensures Emptied(Added(t, lo, upto), lo, hi) == t
  {
    forall p | p in t ensures !(lo <= p < hi) {
      assert EntryOk(m, p, t[p]);
    }
  }

  lemma SingleRun(fs: seq<Frame>)
    ensures (exists a :: FreeRun(fs, a, 0)) <==> FreeSet(fs) != {}
  {
    if f :| f in FreeSet(fs) {
      assert FreeRun(fs, f, 0);
    }
    if a :| FreeRun(fs, a, 0) {
      assert FreeFrame(fs, a);
      assert a in FreeSet(fs);
    }
  }

  lemma NothingCleared(t: Ptes, lo: int)
    ensures Emptied(t, lo, lo) == t
  {
  }

  lemma ClearNext(t: Ptes, lo: int, p: int)
    requires lo <= p
    ensures p in Emptied(t, lo, p) <==> p in t
    ensures p in t ==> Emptied(t, lo, p)[p] == t[p]
    ensures Emptied(t, lo, p + 1) == Emptied(t, lo, p) - {p}
  {
  }

  lemma ListStep(t: Ptes, p: int, hi: int)
    ensures p >= hi ==> ListIn(t, p, hi) == []
    ensures p < hi ==> ListIn(t, p, hi) == (if p in t && Framed(t[p]) then [t[p].frame] else []) + ListIn(t, p + 1, hi)
  {
  }

  lemma ClearedMore(t: Ptes, lo: int, mid: int, hi: int)
    requires lo <= mid <= hi
    ensures Emptied(Emptied(t, lo, mid), mid, hi) == Emptied(t, lo, hi)
  {
  }

  lemma EmptiedSame(t: Ptes, lo: int, hi: int, end: int)
    requires hi == (if end > lo then end else lo)
    ensures Emptied(t, lo, hi) == Emptied(t, lo, end)
  {
  }

  lemma ListedOwned(t: Ptes, lo: int, hi: int, fs: seq<Frame>)
    requires Owned(t, fs)
    ensures forall f :: f in ListIn(t, lo, hi) ==> f in Allocated(fs) && Allocated(fs)[f] == (0, User)
  {
    hide Allocated;
    forall f | f in ListIn(t, lo, hi) ensures f in Allocated(fs) && Allocated(fs)[f] == (0, User) {
      ListedFrames(t, lo, hi, f);
      var p :| p in t && lo <= p < hi && Framed(t[p]) && t[p].frame == f;
    }
  }

  lemma ClearedOwned(t: Ptes, lo: int, hi: int, fs: seq<Frame>, gs: seq<Frame>)
    requires Distinct(t) && Owned(t, fs) && Allocated(gs) == Allocated(fs) - Elems(ListIn(t, lo, hi))
    ensures var r := Emptied(t, lo, hi);
      Distinct(r) && Owned(r, gs) && Allocated(gs) - Frames(r) == Allocated(fs) - Frames(t)
  {
    hide Allocated, ListIn;
    var r := Emptied(t, lo, hi);
    EmptiedFrames(t, lo, hi, fs);
    forall f: nat ensures f in ListIn(t, lo, hi) <==> f in FramesIn(t, lo, hi) {
      ListedFrames(t, lo, hi, f);
    }
    forall p | p in r && Framed(r[p]) ensures r[p].frame in Allocated(gs) && Allocated(gs)[r[p].frame] == (0, User) {
      assert r[p].frame in Frames(r);
    }
    assert FramesIn(t, lo, hi) <= Frames(t);
  }

  lemma ProtoKeeps(m: FlatMemory.Memory, t: Ptes, p: int, fs: seq<Frame>)
    requires Mirrors(m, t) && Distinct(t) && Owned(t, fs) && p in m && p !in t
    ensures var r := t[p := Proto]; Mirrors(m, r) && Distinct(r) && Owned(r, fs) && Frames(r) == Frames(t)
  {
    hide Allocated;
    var r := t[p := Proto];
    forall f ensures f in Frames(r) <==> f in Frames(t) {
      if f in Frames(t) {
        var q :| q in t && Framed(t[q]) && t[q].frame == f;
        assert q in r && Framed(r[q]);
      }
    }
  }

  lemma FreshRange(space: AddressSpace, m: FlatMemory.Memory, lo: int, hi: int, prot: nat, kind: nat)
    requires space.Valid() && |space.log| > 0 && space.log[|space.log| - 1] == FlatMemory.Event.Alloc(lo, hi, prot, kind)
    requires FlatMemory.Replay(space.log[..|space.log| - 1]) == m
    ensures forall p :: lo <= p < hi ==> p !in m
  {
    hide Layout, Housed, CellsOf, ViewOf, PagesOf, FlatMemory.Replay, FlatMemory.Apply;
    assert FlatMemory.Legal(FlatMemory.Replay(space.log[..|space.log| - 1]), space.log[|space.log| - 1]);
  }

  lemma HasEntry(m: FlatMemory.Memory, t: Ptes, p: int)
    requires Mirrors(m, t)
    ensures p in t ==> EntryOk(m, p, t[p])
  {
  }

  lemma FreshFrame(fs: seq<Frame>, f: nat)
    requires Tiled(fs, 0, |fs|) && Span(f, 0) <= FreeSet(fs)
    ensures f !in Allocated(fs)
  {
    assert f in Span(f, 0);
    FreeNotAllocated(fs, f);
  }

  lemma GivenBack(fs: seq<Frame>, gs: seq<Frame>, hs: seq<Frame>, f: nat)
    requires f !in Allocated(fs) && Allocated(gs) == Allocated(fs)[f := (0, User)] && Allocated(hs) == Allocated(gs) - {f}
    ensures Allocated(hs) == Allocated(fs)
  {
  }

  lemma OwnedSame(t: Ptes, fs: seq<Frame>, gs: seq<Frame>)
    requires Owned(t, fs) && Allocated(gs) == Allocated(fs)
    ensures Owned(t, gs)
  {
  }

  lemma PutMirrors(m: FlatMemory.Memory, t: Ptes, p: int, f: nat)
    requires Mirrors(m, t) && p in m && !Has(m[p].prot, PAGE_NOACCESS)
    ensures Mirrors(m, t[p := PresentAs(f, m[p].prot)])
    ensures Complete(m, t) ==> Complete(m, t[p := PresentAs(f, m[p].prot)])
  {
  }
}
