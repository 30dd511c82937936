/**
 The physical page allocator: the frame table, the per-order free lists threaded through it, and the
 allocation, release and start-up code that edits them in place.
 */
module PhysicalMemory {
  import opened Common
  import opened Buddies

  const ORDERS: nat := MAX_ORDER + 1

  /* ---- linked lists through the frame table ---- */

  /** The link out of the i-th element. */
  ghost function After(l: seq<nat>, i: nat): nat {
    if i + 1 < |l| then l[i + 1] else NIL
  }

  ghost predicate Link(nx: seq<nat>, l: seq<nat>, i: nat)
    requires i < |l|
  {
    l[i] < |nx| && nx[l[i]] == After(l, i)
  }

  ghost predicate Chain(nx: seq<nat>, start: nat, l: seq<nat>) {
    && start == (if |l| > 0 then l[0] else NIL)
    && forall i :: 0 <= i < |l| ==> Link(nx, l, i)
  }

  ghost predicate Linked(nx: seq<nat>, hs: seq<nat>, lists: seq<seq<nat>>) {
    && |hs| == |lists| == ORDERS
    && (forall o :: 0 <= o < ORDERS ==> Chain(nx, hs[o], lists[o]) && NoDup(lists[o]))
    && (forall o, o', p :: 0 <= o < ORDERS && 0 <= o' < ORDERS && p in lists[o] && p in lists[o'] ==> o == o')
  }

  ghost predicate Held(fs: seq<Frame>, out: int, o: nat, p: nat) {
    p < |fs| && fs[p] == Frame(o, Free) && p != out
  }

  /** Each list holds exactly the free heads of its order, save the one block in the allocator's hands. */
  ghost predicate Holds(fs: seq<Frame>, lists: seq<seq<nat>>, out: int)
    requires |lists| == ORDERS
  {
    forall o: nat, p: nat :: o < ORDERS ==> (p in lists[o] <==> Held(fs, out, o, p))
  }

  lemma {:induction false} UnlistedAt(l: seq<nat>, i: nat)
    requires i < |l| && l[i] !in l[..i]
    ensures Unlisted(l, l[i]) == l[..i] + l[i + 1..]
  {
    if i > 0 {
      assert l[0] == l[..i][0];
      assert forall y :: y in l[1..][..i - 1] ==> y in l[..i];
      UnlistedAt(l[1..], i - 1);
    }
  }

  lemma {:induction false} UnlistedAbsent(l: seq<nat>, x: nat)
    requires x !in l
    ensures Unlisted(l, x) == l
  {
    if l != [] {
      UnlistedAbsent(l[1..], x);
    }
  }

  ghost predicate Elsewhere(lists: seq<seq<nat>>, o: nat, p: nat)
    requires |lists| == ORDERS
  {
    exists o' :: 0 <= o' < ORDERS && o' != o && p in lists[o']
  }

  /** Editing one list and only the links of its own frames keeps the others. */
  lemma Relinked(nx: seq<nat>, hs: seq<nat>, lists: seq<seq<nat>>, o: nat, nx': seq<nat>, start: nat, l: seq<nat>)
    requires Linked(nx, hs, lists) && o < ORDERS && |nx'| == |nx|
    requires Chain(nx', start, l) && NoDup(l)
    requires forall p: nat :: p < |nx| && nx'[p] != nx[p] ==> !Elsewhere(lists, o, p)
    requires forall p :: p in l ==> !Elsewhere(lists, o, p)
    ensures Linked(nx', hs[o := start], lists[o := l])
  {
    forall o' | 0 <= o' < ORDERS && o' != o ensures Chain(nx', hs[o'], lists[o']) && NoDup(lists[o']) {
      assert Chain(nx, hs[o'], lists[o']);
      forall i | 0 <= i < |lists[o']| ensures Link(nx', lists[o'], i) {
        assert Link(nx, lists[o'], i) && lists[o'][i] in lists[o'];
        assert Elsewhere(lists, o, lists[o'][i]);
      }
    }
    var ls := lists[o := l];
    forall o1, o2, p | 0 <= o1 < ORDERS && 0 <= o2 < ORDERS && p in ls[o1] && p in ls[o2] ensures o1 == o2 {
      if o1 == o && o2 != o {
        assert Elsewhere(lists, o, p);
      } else if o2 == o && o1 != o {
        assert Elsewhere(lists, o, p);
      }
    }
  }

  lemma PushLinked(nx: seq<nat>, hs: seq<nat>, lists: seq<seq<nat>>, o: nat, p: nat)
    requires Linked(nx, hs, lists) && o < ORDERS && p < |nx| && forall o' :: 0 <= o' < ORDERS ==> p !in lists[o']
    ensures Linked(nx[p := hs[o]], hs[o := p], lists[o := [p] + lists[o]])
  {
    var l := lists[o];
    assert Chain(nx, hs[o], l);
    var nx', l' := nx[p := hs[o]], [p] + l;
    forall i | 0 <= i < |l'| ensures Link(nx', l', i) {
      if i > 0 {
        assert l'[i] == l[i - 1] && l[i - 1] in lists[o] && Link(nx, l, i - 1) && After(l', i) == After(l, i - 1);
      }
    }
    Relinked(nx, hs, lists, o, nx', p, l');
  }

  lemma PopLinked(nx: seq<nat>, hs: seq<nat>, lists: seq<seq<nat>>, o: nat, p: nat)
    requires Linked(nx, hs, lists) && o < ORDERS && lists[o] != [] && p == lists[o][0]
    ensures p < |nx| && Linked(nx[p := NIL], hs[o := nx[p]], lists[o := lists[o][1..]])
  {
    var l := lists[o];
    assert Chain(nx, hs[o], l) && NoDup(l) && p in l;
    assert Link(nx, l, 0);
    var nx', l' := nx[p := NIL], l[1..];
    forall i | 0 <= i < |l'| ensures Link(nx', l', i) {
      assert Link(nx, l, i + 1) && l'[i] == l[i + 1] != p && After(l', i) == After(l, i + 1);
    }
    Relinked(nx, hs, lists, o, nx', nx[p], l');
  }

  lemma CutChain(nx: seq<nat>, start: nat, l: seq<nat>, i: nat)
    requires Chain(nx, start, l) && NoDup(l) && 0 < i < |l|
    ensures l[i - 1] < |nx| && l[i] < |nx|
    ensures Chain(nx[l[i - 1] := nx[l[i]]][l[i] := NIL], start, l[..i] + l[i + 1..])
  {
    var p, l' := l[i], l[..i] + l[i + 1..];
    assert Link(nx, l, i) && Link(nx, l, i - 1);
    var nx' := nx[l[i - 1] := nx[p]][p := NIL];
    forall k | 0 <= k < |l'| ensures Link(nx', l', k) {
      var j := if k < i then k else k + 1;
      assert l'[k] == l[j] && Link(nx, l, j) && l[j] != p;
      assert j != i - 1 ==> l[j] != l[i - 1];
    }
  }

  lemma CutNoDup(l: seq<nat>, i: nat)
    requires NoDup(l) && i < |l|
    ensures NoDup(l[..i] + l[i + 1..]) && forall p :: p in l[..i] + l[i + 1..] ==> p in l
  {
  }

  /** Unlinking the i-th element by its predecessor. */
  lemma CutLinked(nx: seq<nat>, hs: seq<nat>, lists: seq<seq<nat>>, o: nat, i: nat)
    requires Linked(nx, hs, lists) && o < ORDERS && 0 < i < |lists[o]|
    ensures lists[o][i - 1] < |nx| && lists[o][i] < |nx|
    ensures var q, p := lists[o][i - 1], lists[o][i];
      Linked(nx[q := nx[p]][p := NIL], hs, lists[o := lists[o][..i] + lists[o][i + 1..]])
  {
    var l := lists[o];
    assert Chain(nx, hs[o], l) && NoDup(l) && l[i] in l && l[i - 1] in l;
    Together(nx, hs, lists, o);
    CutChain(nx, hs[o], l, i);
    CutNoDup(l, i);
    hide Linked, Chain, NoDup, Elsewhere;
    Relinked(nx, hs, lists, o, nx[l[i - 1] := nx[l[i]]][l[i] := NIL], hs[o], l[..i] + l[i + 1..]);
    assert hs[o := hs[o]] == hs;
  }

  lemma Together(nx: seq<nat>, hs: seq<nat>, lists: seq<seq<nat>>, o: nat)
    requires Linked(nx, hs, lists) && o < ORDERS
    ensures forall p :: p in lists[o] ==> !Elsewhere(lists, o, p)
  {
  }

  lemma HoldsPop(fs: seq<Frame>, lists: seq<seq<nat>>, o: nat, p: nat)
    requires |lists| == ORDERS && Holds(fs, lists, -1) && o < ORDERS && NoDup(lists[o]) && lists[o] != [] && p == lists[o][0]
    ensures p < |fs| && fs[p] == Frame(o, Free) && Holds(fs, lists[o := lists[o][1..]], p)
  {
    var l := lists[o];
    assert p in l && Held(fs, -1, o, p);
    assert l == [p] + l[1..];
    assert forall i :: 0 <= i < |l| - 1 ==> l[1..][i] == l[i + 1];
    forall o': nat, q: nat | o' < ORDERS ensures q in lists[o := l[1..]][o'] <==> Held(fs, p, o', q) {
      assert q in lists[o'] <==> Held(fs, -1, o', q);
    }
  }

  lemma HoldsPush(fs: seq<Frame>, lists: seq<seq<nat>>, o: nat, p: nat)
    requires |lists| == ORDERS && Holds(fs, lists, p) && o < ORDERS && p < |fs| && fs[p] == Frame(o, Free)
    ensures Holds(fs, lists[o := [p] + lists[o]], -1)
    ensures forall o' :: 0 <= o' < ORDERS ==> p !in lists[o']
  {
    forall o': nat, q: nat | o' < ORDERS ensures q in lists[o := [p] + lists[o]][o'] <==> Held(fs, -1, o', q) {
      assert q in lists[o'] <==> Held(fs, p, o', q);
    }
    forall o': nat | o' < ORDERS ensures p !in lists[o'] {
      assert p in lists[o'] <==> Held(fs, p, o', p);
    }
  }

  lemma HoldsMarked(fs: seq<Frame>, lists: seq<seq<nat>>, p: nat, st: FrameState, out: int)
    requires |lists| == ORDERS && Tiled(fs, 0, |fs|) && Holds(fs, lists, out) && p < |fs| && IsHead(fs[p])
    requires st != Tail && (out == p || (out == -1 && fs[p].state != Free))
    ensures Holds(Marked(fs, p, fs[p].order, st), lists, if st == Free then p else -1)
  {
    HeadBlock(fs, p);
    var gs, out' := Marked(fs, p, fs[p].order, st), if st == Free then p else -1;
    forall o: nat, q: nat | o < ORDERS ensures q in lists[o] <==> Held(gs, out', o, q) {
      assert q in lists[o] <==> Held(fs, out, o, q);
    }
  }

  lemma HoldsSplit(fs: seq<Frame>, lists: seq<seq<nat>>, p: nat, k: nat)
    requires |lists| == ORDERS && Tiled(fs, 0, |fs|) && Holds(fs, lists, p) && p < |fs| && fs[p] == Frame(k, Free) && k > 0
    ensures k <= MAX_ORDER && p + Pow2(k - 1) < |fs|
    ensures forall o :: 0 <= o < ORDERS ==> p + Pow2(k - 1) !in lists[o]
    ensures Holds(Split(fs, p, k), lists[k - 1 := [p + Pow2(k - 1)] + lists[k - 1]], p)
  {
    hide Tiled;
    HeadBlock(fs, p);
    var b := p + Pow2(k - 1);
    var gs, ls := Split(fs, p, k), lists[k - 1 := [b] + lists[k - 1]];
    forall o: nat | o < ORDERS ensures b !in lists[o] {
      assert b in lists[o] <==> Held(fs, p, o, b);
    }
    forall o: nat, q: nat | o < ORDERS ensures q in ls[o] <==> Held(gs, p, o, q) {
      assert q in lists[o] <==> Held(fs, p, o, q);
    }
  }

  lemma HoldsJoin(fs: seq<Frame>, lists: seq<seq<nat>>, q: nat, b: nat, low: nat, k: nat)
    requires |lists| == ORDERS && Tiled(fs, 0, |fs|) && Holds(fs, lists, q) && k < MAX_ORDER && NoDup(lists[k])
    requires (q == low && b == low + Pow2(k)) || (b == low && q == low + Pow2(k))
    requires low + Pow2(k) < |fs| && fs[low] == Frame(k, Free) && fs[low + Pow2(k)] == Frame(k, Free)
    ensures Holds(Marked(fs, low, k + 1, Free), lists[k := Unlisted(lists[k], b)], low)
  {
    hide Tiled, NoDup;
    HeadBlock(fs, low);
    HeadBlock(fs, low + Pow2(k));
    assert Pow2(k + 1) == 2 * Pow2(k);
    var gs, ls := Marked(fs, low, k + 1, Free), lists[k := Unlisted(lists[k], b)];
    forall o: nat, y: nat | o < ORDERS ensures y in ls[o] <==> Held(gs, low, o, y) {
      assert y in lists[o] <==> Held(fs, q, o, y);
      UnlistedMember(lists[k], b, y);
    }
  }

  lemma NoneHeld(fs: seq<Frame>, lists: seq<seq<nat>>, k: nat)
    requires |lists| == ORDERS && Tiled(fs, 0, |fs|) && Holds(fs, lists, -1) && k <= MAX_ORDER
    requires forall o :: k <= o < ORDERS ==> lists[o] == []
    ensures !exists h :: 0 <= h < |fs| && fs[h].state == Free && fs[h].order >= k
  {
    forall h: nat | h < |fs| ensures !(fs[h].state == Free && fs[h].order >= k) {
      if IsHead(fs[h]) {
        HeadBlock(fs, h);
        assert h in lists[fs[h].order] <==> Held(fs, -1, fs[h].order, h);
      }
    }
  }

  ghost predicate HoldsBelow(fs: seq<Frame>, lists: seq<seq<nat>>, p: nat)
    requires |lists| == ORDERS
  {
    forall o: nat, q: nat :: o < ORDERS ==> (q in lists[o] <==> q < p && Held(fs, -1, o, q))
  }

  ghost function FreeBelow(raw: seq<Frame>, p: nat): set<int> {
    set k: int | 0 <= k < p && k < |raw| && raw[k].state == Free
  }

  ghost function Indices(available: seq<bool>): set<int> {
    set k: int | 0 <= k < |available| && available[k]
  }

  lemma RawBelow(raw: seq<Frame>, available: seq<bool>)
    requires |raw| == |available|
    requires forall i :: 0 <= i < |raw| ==> raw[i] == Frame(0, if available[i] then Free else Reserved)
    ensures Raw(raw) && FreeBelow(raw, |raw|) == Indices(available)
  {
  }

  /** What the builder has done once it has passed the frames below p. */
  ghost predicate Built(raw: seq<Frame>, fs: seq<Frame>, lists: seq<seq<nat>>, p: nat)
    requires |lists| == ORDERS
  {
    && Raw(raw) && |raw| == |fs| && p <= |fs|
    && (forall j :: p <= j < |fs| ==> fs[j] == raw[j])
    && Tiled(fs, 0, |fs|) && SameBlocks(raw, fs)
    && LargestBelow(raw, fs, p) && HoldsBelow(fs, lists, p)
  }

  lemma BuiltSkip(raw: seq<Frame>, fs: seq<Frame>, lists: seq<seq<nat>>, p: nat)
    requires |lists| == ORDERS && Built(raw, fs, lists, p) && p < |fs| && fs[p].state != Free
    ensures Built(raw, fs, lists, p + 1) && FreeBelow(raw, p + 1) == FreeBelow(raw, p)
  {
    forall o: nat, q: nat | o < ORDERS ensures q in lists[o] <==> q < p + 1 && Held(fs, -1, o, q) {
      assert q in lists[o] <==> q < p && Held(fs, -1, o, q);
    }
  }

  lemma BuiltBlock(raw: seq<Frame>, fs: seq<Frame>, lists: seq<seq<nat>>, p: nat, k: nat)
    requires |lists| == ORDERS && Built(raw, fs, lists, p) && k <= MAX_ORDER && RawRun(fs, p, k) && Largest(fs, p, k)
    ensures p + Pow2(k) <= |fs| && forall o :: 0 <= o < ORDERS ==> p !in lists[o]
    ensures Built(raw, Marked(fs, p, k, Free), lists[k := [p] + lists[k]], p + Pow2(k))
  {
    hide Tiled, SameBlocks, HoldsBelow, LargestBelow;
    var gs := Marked(fs, p, k, Free);
    assert forall j :: p <= j < |fs| ==> fs[j] == raw[j];
    BuildKeeps(fs, p, k);
    SameBlocksTrans(raw, fs, gs);
    BuiltLargest(raw, fs, p, k);
    BuiltHolds(fs, lists, p, k);
  }

  lemma BuiltLargest(raw: seq<Frame>, fs: seq<Frame>, p: nat, k: nat)
    requires |raw| == |fs| && RawRun(fs, p, k) && Largest(fs, p, k) && LargestBelow(raw, fs, p)
    requires forall j :: p <= j < |fs| ==> fs[j] == raw[j]
    ensures LargestBelow(raw, Marked(fs, p, k, Free), p + Pow2(k))
  {
    hide RawRun, Largest;
    SameLargest(raw, fs, p, k);
    RunFits(fs, p, k);
  }

  lemma RunFits(fs: seq<Frame>, p: nat, k: nat)
    requires RawRun(fs, p, k)
    ensures p + Pow2(k) <= |fs|
  {
  }

  lemma BuiltHolds(fs: seq<Frame>, lists: seq<seq<nat>>, p: nat, k: nat)
    requires |lists| == ORDERS && k <= MAX_ORDER && p + Pow2(k) <= |fs| && HoldsBelow(fs, lists, p)
    ensures forall o :: 0 <= o < ORDERS ==> p !in lists[o]
    ensures HoldsBelow(Marked(fs, p, k, Free), lists[k := [p] + lists[k]], p + Pow2(k))
  {
    var gs, ls, e := Marked(fs, p, k, Free), lists[k := [p] + lists[k]], p + Pow2(k);
    forall o: nat | o < ORDERS ensures p !in lists[o] {
      assert p in lists[o] <==> p < p && Held(fs, -1, o, p);
    }
    forall o: nat, q: nat | o < ORDERS ensures q in ls[o] <==> q < e && Held(gs, -1, o, q) {
      assert q in lists[o] <==> q < p && Held(fs, -1, o, q);
    }
  }

  lemma BuiltCount(raw: seq<Frame>, fs: seq<Frame>, lists: seq<seq<nat>>, p: nat, k: nat)
    requires |lists| == ORDERS && Built(raw, fs, lists, p) && RawRun(fs, p, k)
    ensures |FreeBelow(raw, p + Pow2(k))| == |FreeBelow(raw, p)| + Pow2(k)
  {
    hide Tiled, SameBlocks, LargestBelow, HoldsBelow;
    IntervalSize(p, p + Pow2(k));
    assert FreeBelow(raw, p + Pow2(k)) == FreeBelow(raw, p) + Span(p, k) && FreeBelow(raw, p) !! Span(p, k);
  }

  lemma SameBlocksTrans(fs: seq<Frame>, gs: seq<Frame>, hs: seq<Frame>)
    requires SameBlocks(fs, gs) && SameBlocks(gs, hs)
    ensures SameBlocks(fs, hs)
  {
  }

  lemma SameLargest(raw: seq<Frame>, fs: seq<Frame>, p: nat, k: nat)
    requires |raw| == |fs| && (forall j :: p <= j < |fs| ==> fs[j] == raw[j]) && Largest(fs, p, k)
    ensures Largest(raw, p, k)
  {
  }

  lemma BuiltNone(raw: seq<Frame>, lists: seq<seq<nat>>)
    requires |lists| == ORDERS && Raw(raw) && forall o :: 0 <= o < ORDERS ==> lists[o] == []
    ensures Built(raw, raw, lists, 0) && FreeBelow(raw, 0) == {}
  {
    RawTiled(raw);
  }

  lemma NoneLinked(nx: seq<nat>, hs: seq<nat>, lists: seq<seq<nat>>)
    requires |hs| == |lists| == ORDERS && forall o :: 0 <= o < ORDERS ==> lists[o] == [] && hs[o] == NIL
    ensures Linked(nx, hs, lists)
  {
  }

  lemma BuiltAll(raw: seq<Frame>, fs: seq<Frame>, lists: seq<seq<nat>>)
    requires |lists| == ORDERS && Built(raw, fs, lists, |fs|)
    ensures Tiled(fs, 0, |fs|) && Merged(fs) && Holds(fs, lists, -1) && FreeSet(fs) == FreeBelow(raw, |fs|) && Allocated(fs) == map[]
  {
    hide Tiled, LargestBelow;
    GreedyMerged(raw, fs);
    RawTiled(raw);
    forall j: nat | j < |raw| ensures FreeFrame(raw, j) <==> raw[j].state == Free {
      RawFree(raw, j);
    }
    assert FreeSet(raw) == FreeBelow(raw, |fs|);
    forall o: nat, q: nat | o < ORDERS ensures q in lists[o] <==> Held(fs, -1, o, q) {
      assert q in lists[o] <==> q < |fs| && Held(fs, -1, o, q);
    }
  }

  class Pmm {
    const frames: array<Frame>
    const next: array<nat>
    const heads: array<nat>
    var freePages: nat
    ghost var lists: seq<seq<nat>>

    ghost predicate Shape()
      reads this
    {
      && frames.Length == next.Length && frames.Length + Pow2(MAX_ORDER) <= NIL
      && heads.Length == |lists| == ORDERS && next != heads
    }

    ghost predicate Threaded()
      reads this, next, heads
    {
      Shape() && Linked(next[..], heads[..], lists)
    }

    constructor (available: seq<bool>)
      requires |available| + Pow2(MAX_ORDER) <= NIL
      ensures Valid() && frames.Length == |available| && Allocated(frames[..]) == map[]
      ensures FreeSet(frames[..]) == Indices(available)
      ensures fresh(frames) && fresh(next) && fresh(heads)
    {
      hide Linked, Holds, Tiled, Merged, FreeSet, Allocated, Pow2, Pmm.Valid, Pmm.Threaded, Indices;
      frames := new Frame[|available|](_ => Frame(0, Reserved));
      next := new nat[|available|](_ => NIL);
      heads := new nat[ORDERS](_ => NIL);
      lists := seq(ORDERS, _ => []);
      freePages := 0;
      new;
      Start(available);
    }

    /** Every frame reserved, every list empty. */
    ghost predicate Blank()
      reads this, frames, heads
    {
      && Shape() && freePages == 0
      && (forall i :: 0 <= i < frames.Length ==> frames[i] == Frame(0, Reserved))
      && (forall o :: 0 <= o < ORDERS ==> lists[o] == [] && heads[o] == NIL)
    }

    /** Start-up on blank tables. */
    method Start(available: seq<bool>)
      requires Blank() && frames.Length == |available|
      modifies this, frames, next, heads
      ensures Valid() && Allocated(frames[..]) == map[]
      ensures FreeSet(frames[..]) == Indices(available)
    {
      hide Linked, Holds, Tiled, Merged, FreeSet, Allocated, Pow2, FreeBelow;
      MarkAvailable(available);
      RawBelow(frames[..], available);
      Build();
    }

    /** Every frame starts reserved; the available ones are then marked free. */
    method MarkAvailable(available: seq<bool>)
      requires frames.Length == |available| && forall i :: 0 <= i < frames.Length ==> frames[i] == Frame(0, Reserved)
      modifies frames
      ensures forall i :: 0 <= i < frames.Length ==> frames[i] == Frame(0, if available[i] then Free else Reserved)
    {
      var i := 0;
      while i < frames.Length
        invariant 0 <= i <= frames.Length
        invariant forall j :: 0 <= j < i ==> frames[j] == Frame(0, if available[j] then Free else Reserved)
        invariant forall j :: i <= j < frames.Length ==> frames[j] == Frame(0, Reserved)
      {
        if available[i] {
          frames[i] := Frame(0, Free);
        }
        i := i + 1;
      }
    }

    /** Builds the lists from runs of free frames, the largest block that fits first. */
    method Build()
      requires Shape() && Raw(frames[..]) && freePages == 0
      requires forall o :: 0 <= o < ORDERS ==> lists[o] == [] && heads[o] == NIL
      modifies this, frames, next, heads
      ensures Valid() && Allocated(frames[..]) == map[]
      ensures FreeSet(frames[..]) == FreeBelow(old(frames[..]), frames.Length)
    {
      hide Linked, Built, FreeBelow, Raw, FreeSet, Allocated, Tiled, Merged, Holds;
      ghost var raw := frames[..];
      var p: nat := 0;
      BuiltNone(raw, lists);
      NoneLinked(next[..], heads[..], lists);
      while p < frames.Length
        invariant p <= frames.Length && Threaded() && Built(raw, frames[..], lists, p)
        invariant freePages == |FreeBelow(raw, p)|
      {
        if frames[p].state != Free {
          BuiltSkip(raw, frames[..], lists, p);
          p := p + 1;
        } else {
          var order := BuildBlock(raw, p);
          p := p + Pow2(order);
        }
      }
      BuiltAll(raw, frames[..], lists);
    }

    method BuildBlock(ghost raw: seq<Frame>, p: nat) returns (order: nat)
      requires Threaded() && p < frames.Length && frames[p].state == Free
      requires Built(raw, frames[..], lists, p) && freePages == |FreeBelow(raw, p)|
      modifies this, frames, next, heads
      ensures Threaded() && p + Pow2(order) <= frames.Length && Built(raw, frames[..], lists, p + Pow2(order))
      ensures freePages == |FreeBelow(raw, p + Pow2(order))|
    {
      hide Linked, Built, FreeBelow, Marked, RawRun, Largest, Pow2;
      order := LargestOrder(p);
      BuiltBlock(raw, frames[..], lists, p, order);
      BuiltCount(raw, frames[..], lists, p, order);
      MarkBlock(p, order, Free);
      ListPush(order, p);
      freePages := freePages + Pow2(order);
    }

    method LargestOrder(p: nat) returns (order: nat)
      requires Shape() && p < frames.Length && frames[p].state == Free
      ensures order <= MAX_ORDER && RawRun(frames[..], p, order) && Largest(frames[..], p, order)
    {
      order := 0;
      while order < MAX_ORDER
        invariant order <= MAX_ORDER && RawRun(frames[..], p, order)
      {
        var n := Pow2(order + 1);
        if p % n != 0 || p + n > frames.Length {
          break;
        }
        var j := 0;
        while j < n && frames[p + j].state == Free
          invariant 0 <= j <= n && forall i :: p <= i < p + j ==> frames[i].state == Free
        {
          j := j + 1;
        }
        if j < n {
          break;
        }
        order := order + 1;
      }
    }

    method MarkBlock(pfn: nat, order: nat, st: FrameState)
      requires Shape() && pfn < frames.Length && order <= MAX_ORDER
      modifies frames
      ensures frames[..] == Marked(old(frames[..]), pfn, order, st)
    {
      var n := Pow2(order);
      frames[pfn] := Frame(order, st);
      var i := 1;
      while i < n && pfn + i < frames.Length
        invariant 1 <= i <= n
        invariant forall j :: 0 <= j < frames.Length ==>
          frames[j] == if j == pfn then Frame(order, st) else if pfn < j < pfn + i then Frame(order, Tail) else old(frames[j])
      {
        frames[pfn + i] := Frame(order, Tail);
        i := i + 1;
      }
    }

    method ListPush(order: nat, pfn: nat)
      requires Threaded() && order < ORDERS && pfn < next.Length
      requires forall o :: 0 <= o < ORDERS ==> pfn !in lists[o]
      modifies next, heads, `lists
      ensures Threaded() && lists == old(lists)[order := [pfn] + old(lists[order])]
    {
      PushLinked(next[..], heads[..], lists, order, pfn);
      next[pfn] := heads[order];
      heads[order] := pfn;
      lists := lists[order := [pfn] + lists[order]];
      assert next[..] == old(next[..])[pfn := old(heads[order])];
      assert heads[..] == old(heads[..])[order := pfn];
    }

    method ListPop(order: nat) returns (pfn: nat)
      requires Threaded() && order < ORDERS
      modifies next, heads, `lists
      ensures Threaded()
      ensures old(lists[order]) == [] ==> pfn == NIL && lists == old(lists)
      ensures old(lists[order]) != [] ==>
        pfn == old(lists[order][0]) && pfn < next.Length && lists == old(lists)[order := old(lists[order])[1..]]
    {
      assert Chain(next[..], heads[..][order], lists[order]);
      assert lists[order] != [] ==> Link(next[..], lists[order], 0);
      pfn := heads[order];
      if pfn == NIL {
        return;
      }
      PopLinked(next[..], heads[..], lists, order, pfn);
      heads[order] := next[pfn];
      next[pfn] := NIL;
      lists := lists[order := lists[order][1..]];
      assert next[..] == old(next[..])[pfn := NIL];
      assert heads[..] == old(heads[..])[order := old(next[pfn])];
    }
  
    /** The walk keeps a pointer to the link that leads to the current element. */
    method ListRemove(order: nat, pfn: nat)
      requires Threaded() && order < ORDERS
      modifies next, heads, `lists
      ensures Threaded() && lists == old(lists)[order := Unlisted(old(lists[order]), pfn)]
    {
      ghost var l := lists[order];
      ghost var i := 0;
      assert Chain(next[..], heads[..][order], l) && NoDup(l) && (l != [] ==> Link(next[..], l, 0));
      var prev: Option<nat> := None;
      var cur := heads[order];
      while cur != NIL
        invariant i <= |l| && cur == if i < |l| then l[i] else NIL
        invariant i < |l| ==> l[i] < next.Length
        invariant prev == if i == 0 then None else Some(l[i - 1])
        invariant pfn !in l[..i]
        invariant next[..] == old(next[..]) && heads[..] == old(heads[..]) && lists == old(lists)
        decreases |l| - i
      {
        if cur == pfn {
          UnlistedAt(l, i);
          Unlink(order, prev, pfn, i);
          return;
        }
        assert Link(next[..], l, i);
        prev := Some(cur);
        cur := next[cur];
        i := i + 1;
        assert i < |l| ==> Link(next[..], l, i);
      }
      UnlistedAbsent(l, pfn);
      assert lists == lists[order := l];
    }

    method Unlink(order: nat, prev: Option<nat>, pfn: nat, ghost i: nat)
      requires Threaded() && order < ORDERS && i < |lists[order]| && lists[order][i] == pfn
      requires prev == if i == 0 then None else Some(lists[order][i - 1])
      modifies next, heads, `lists
      ensures Threaded() && lists == old(lists)[order := old(lists[order])[..i] + old(lists[order])[i + 1..]]
    {
      ghost var l := lists[order];
      assert Chain(next[..], heads[..][order], l);
      if prev == None {
        PopLinked(next[..], heads[..], lists, order, pfn);
        heads[order] := next[pfn];
        assert heads[..] == old(heads[..])[order := old(next[pfn])];
        assert l[..0] + l[1..] == l[1..];
      } else {
        CutLinked(next[..], heads[..], lists, order, i);
        next[prev.value] := next[pfn];
      }
      next[pfn] := NIL;
      lists := lists[order := l[..i] + l[i + 1..]];
      assert next[..] == (if prev == None then old(next[..]) else old(next[..])[prev.value := old(next[pfn])])[pfn := NIL];
    }
  
    /** Every block is accounted for, except that the free block at pfn is on no list. */
    ghost predicate Loose(pfn: nat)
      reads this, frames, next, heads
    {
      && Threaded() && pfn < frames.Length && frames[pfn].state == Free
      && Tiled(frames[..], 0, frames.Length) && MergedBut(frames[..], pfn) && Holds(frames[..], lists, pfn)
    }

    /**
     Free, allocated and reserved blocks partition the frames; each list holds exactly the free blocks of its
     order, once; no two free buddies are left apart; the counter is the number of free frames.
     */
    ghost predicate Valid()
      reads this, frames, next, heads
    {
      && Threaded()
      && Tiled(frames[..], 0, frames.Length) && Merged(frames[..]) && Holds(frames[..], lists, -1)
      && freePages == |FreeSet(frames[..])|
    }

    method Halve(pfn: nat, order: nat)
      requires Loose(pfn) && frames[pfn].order == order + 1
      modifies frames, next, heads, `lists
      ensures Loose(pfn) && frames[pfn].order == order && SameBlocks(old(frames[..]), frames[..])
    {
      hide Tiled, MergedBut, Holds, Linked, Marked, SameBlocks, Pow2;
      ghost var fs := frames[..];
      HoldsSplit(fs, lists, pfn, order + 1);
      SplitKeeps(fs, pfn, order + 1);
      SplitMerged(fs, pfn, order + 1);
      var buddy := pfn + Pow2(order);
      MarkBlock(buddy, order, Free);
      ListPush(order, buddy);
      MarkBlock(pfn, order, Free);
      MarkedHead(Marked(fs, buddy, order, Free), pfn, order, Free);
    }

    /** The first list at or above the order that is not empty. */
    method FindList(order: nat) returns (o: nat)
      requires Valid() && order <= MAX_ORDER
      ensures order <= o <= ORDERS && (forall o' :: order <= o' < o ==> lists[o'] == [])
      ensures o < ORDERS ==> lists[o] != []
    {
      o := order;
      while o <= MAX_ORDER && heads[o] == NIL
        invariant order <= o <= ORDERS
        invariant forall o' :: order <= o' < o ==> lists[o'] == []
      {
        EmptyChain(next[..], heads[..][o], lists[o]);
        o := o + 1;
      }
      if o < ORDERS {
        assert Chain(next[..], heads[..][o], lists[o]);
      }
    }

    method AllocBlock(order: nat, st: FrameState) returns (r: Option<nat>)
      requires Valid() && st in {Kernel, User}
      modifies this, frames, next, heads
      ensures Valid()
      ensures r == None <==> order > MAX_ORDER || !exists a :: FreeRun(old(frames[..]), a, order)
      ensures r == None ==> frames[..] == old(frames[..]) && freePages == old(freePages) && lists == old(lists)
      ensures r != None ==>
        && Allocates(old(frames[..]), frames[..], r.value, order, st)
        && freePages == old(freePages) - Pow2(order)
    {
      if order > MAX_ORDER {
        return None;
      }
      RunIffBlock(frames[..], order);
      var o := FindList(order);
      if o > MAX_ORDER {
        NoneHeld(frames[..], lists, order);
        return None;
      }
      var pfn := TakeFirst(o);
      while o > order
        invariant order <= o <= MAX_ORDER && Loose(pfn) && frames[pfn].order == o
        invariant SameBlocks(old(frames[..]), frames[..]) && freePages == old(freePages)
      {
        o := o - 1;
        Halve(pfn, o);
      }
      HandOver(pfn, order, st);
      r := Some(pfn);
    }

    method TakeFirst(o: nat) returns (pfn: nat)
      requires Valid() && o < ORDERS && lists[o] != []
      modifies next, heads, `lists
      ensures Loose(pfn) && frames[pfn].order == o
    {
      hide Tiled, MergedBut, Merged, Holds;
      assert NoDup(lists[o]);
      HoldsPop(frames[..], lists, o, lists[o][0]);
      MergedWeaken(frames[..], lists[o][0]);
      pfn := ListPop(o);
    }

    method HandOver(pfn: nat, order: nat, st: FrameState)
      requires Loose(pfn) && frames[pfn].order == order && st in {Kernel, User} && freePages == |FreeSet(frames[..])|
      modifies `freePages, frames
      ensures Valid() && Allocates(old(frames[..]), frames[..], pfn, order, st)
      ensures freePages == old(freePages) - Pow2(order)
    {
      hide Tiled, MergedBut, Merged, Holds, Linked, Marked, FreeSet, Allocated, Allocates, Pow2;
      ghost var fs := frames[..];
      HeadBlock(fs, pfn);
      HandOutAllocates(fs, pfn, order, st);
      HoldsMarked(fs, lists, pfn, st, pfn);
      MarkBlock(pfn, order, st);
      freePages := freePages - Pow2(order);
    }

    /** Only an allocated head may be freed; its order must be the one it was allocated with. */
    method FreeBlock(pfn: nat, order: nat) returns (panics: bool)
      requires Valid()
      requires pfn < frames.Length && frames[pfn].state in {Kernel, User} && order <= MAX_ORDER ==> frames[pfn].order == order
      modifies this, frames, next, heads
      ensures Valid()
      ensures panics <==> order > MAX_ORDER || pfn >= frames.Length || old(frames[..])[pfn].state in {Free, Tail, Reserved}
      ensures panics ==> frames[..] == old(frames[..]) && freePages == old(freePages) && lists == old(lists)
      ensures !panics ==> Frees(old(frames[..]), frames[..], pfn, order) && freePages == old(freePages) + Pow2(order)
    {
      hide Tiled, MergedBut, Merged, Holds, Linked, FreeSet, Allocated, Xor, Aligned, Pow2, Buddy;
      if order > MAX_ORDER || pfn >= frames.Length || frames[pfn].state in {Free, Tail, Reserved} {
        return true;
      }
      assert frames[pfn].state == Kernel || frames[pfn].state == User;
      GiveBack(pfn, order);
      ghost var fs := frames[..];
      var p: nat, o: nat := pfn, order;
      while o < MAX_ORDER
        invariant o <= MAX_ORDER && Loose(p) && frames[p].order == o
        invariant SameBlocks(fs, frames[..]) && freePages == old(freePages) + Pow2(order)
      {
        HeadBlock(frames[..], p);
        XorIsBuddy(p, o);
        var buddy := Xor(p, Pow2(o));
        if buddy >= frames.Length || frames[buddy] != Frame(o, Free) {
          break;
        }
        Merge(p, buddy, o);
        p := if buddy < p then buddy else p;
        o := o + 1;
      }
      PutAway(p, o);
      return false;
    }

    method GiveBack(pfn: nat, order: nat)
      requires Valid() && pfn < frames.Length && frames[pfn].state in {Kernel, User} && frames[pfn].order == order
      modifies `freePages, frames
      ensures Loose(pfn) && frames[pfn].order == order && freePages == old(freePages) + Pow2(order)
      ensures Span(pfn, order) !! FreeSet(old(frames[..])) && FreeSet(frames[..]) == FreeSet(old(frames[..])) + Span(pfn, order)
      ensures Allocated(frames[..]) == Allocated(old(frames[..])) - {pfn} && freePages == |FreeSet(frames[..])|
    {
      hide Tiled, MergedBut, Merged, Holds, Linked, Marked, FreeSet, Allocated;
      ghost var fs := frames[..];
      HeadBlock(fs, pfn);
      TakeBack(fs, pfn, order);
      TakeBackMerged(fs, pfn, order);
      HoldsMarked(fs, lists, pfn, Free, -1);
      IntervalSize(pfn, pfn + Pow2(order));
      MarkBlock(pfn, order, Free);
      MarkedHead(fs, pfn, order, Free);
      freePages := freePages + Pow2(order);
    }

    /** Two free buddies become one block of the next order. */
    method Merge(pfn: nat, buddy: nat, order: nat)
      requires Loose(pfn) && frames[pfn].order == order < MAX_ORDER
      requires buddy == Buddy(pfn, order) && buddy < frames.Length && frames[buddy] == Frame(order, Free)
      modifies frames, next, heads, `lists
      ensures var low := if buddy < pfn then buddy else pfn; Loose(low) && frames[low].order == order + 1
      ensures SameBlocks(old(frames[..]), frames[..])
    {
      hide Tiled, MergedBut, Holds, Marked, SameBlocks, Aligned, Buddy, Linked, NoDup;
      ghost var fs := frames[..];
      var low := if buddy < pfn then buddy else pfn;
      PairHalves(fs, pfn, buddy, order);
      ListOnce(next[..], heads[..], lists, order);
      HoldsJoin(fs, lists, pfn, buddy, low, order);
      JoinKeeps(fs, low, order);
      JoinMerged(fs, low, order, pfn);
      ListRemove(order, buddy);
      MarkBlock(low, order + 1, Free);
      MarkedHead(fs, low, order + 1, Free);
    }

    method PutAway(pfn: nat, order: nat)
      requires Loose(pfn) && frames[pfn].order == order <= MAX_ORDER && !FreePair(frames[..], pfn)
      requires freePages == |FreeSet(frames[..])|
      modifies next, heads, `lists
      ensures Valid()
    {
      hide Tiled, MergedBut, Merged, Holds, Linked, FreePair;
      NoneLeft(frames[..], pfn);
      HoldsPush(frames[..], lists, order, pfn);
      ListPush(order, pfn);
    }
  }

  lemma HandOutAllocates(fs: seq<Frame>, p: nat, k: nat, st: FrameState)
    requires Tiled(fs, 0, |fs|) && MergedBut(fs, p) && p < |fs| && fs[p] == Frame(k, Free) && st in {Kernel, User}
    ensures var gs := Marked(fs, p, k, st);
      && Tiled(gs, 0, |fs|) && Merged(gs) && |gs| == |fs| && Allocates(fs, gs, p, k, st)
      && |FreeSet(gs)| == |FreeSet(fs)| - Pow2(k)
  {
    hide Tiled, MergedBut, Merged, FreeSet, Allocated;
    HeadBlock(fs, p);
    HandOut(fs, p, k, st);
    HandOutMerged(fs, p, k, st);
    IntervalSize(p, p + Pow2(k));
  }

  lemma PairHalves(fs: seq<Frame>, p: nat, b: nat, k: nat)
    requires Tiled(fs, 0, |fs|) && p < |fs| && fs[p] == Frame(k, Free) && k < MAX_ORDER && b == Buddy(p, k)
    ensures var low := if b < p then b else p;
      Aligned(low, k + 1) && ((p == low && b == low + Pow2(k)) || (b == low && p == low + Pow2(k)))
  {
    HeadBlock(fs, p);
    BuddyHalves(p, k);
  }

  lemma ListOnce(nx: seq<nat>, hs: seq<nat>, lists: seq<seq<nat>>, o: nat)
    requires Linked(nx, hs, lists) && o < ORDERS
    ensures NoDup(lists[o])
  {
  }

  lemma EmptyChain(nx: seq<nat>, start: nat, l: seq<nat>)
    requires Chain(nx, start, l) && start == NIL && |nx| <= NIL
    ensures l == []
  {
    assert l != [] ==> Link(nx, l, 0);
  }

  lemma MergedWeaken(fs: seq<Frame>, p: int)
    requires Merged(fs)
    ensures MergedBut(fs, p)
  {
  }

  lemma MarkedHead(fs: seq<Frame>, p: nat, k: nat, st: FrameState)
    requires p < |fs|
    ensures |Marked(fs, p, k, st)| == |fs| && Marked(fs, p, k, st)[p] == Frame(k, st)
  {
  }
}
