/**
 The frame table of the buddy allocator: blocks, their buddies, and why a table in which no two free
 buddies are left is determined by its set of free frames.
 */
module Buddies {
  import opened Common

  const MAX_ORDER: nat := 18
  const NIL: nat := 0xFFFF_FFFF

  datatype FrameState = Free | Tail | Kernel | User | Reserved

  datatype Frame = Frame(order: nat, state: FrameState)

  /* ---- powers of two ---- */

  predicate Aligned(p: int, k: nat) { p % Pow2(k) == 0 }

  lemma MulMono(a: int, b: int, m: int)
    requires m > 0 && a <= b
    ensures a * m <= b * m
  {
  }

  lemma MulMod(q: int, m: int)
    requires m > 0
    ensures (q * m) % m == 0
  {
    var x := q * m;
    var d := x / m;
    assert x == d * m + x % m;
    assert (d + 1) * m == d * m + m;
    if d < q {
      MulMono(d + 1, q, m);
    } else {
      MulMono(q, d, m);
    }
  }

  lemma ModMul(x: int, m: int)
    requires m > 0 && x % m == 0
    ensures x == (x / m) * m
  {
  }

  lemma AlignedShift(p: int, k: nat, j: int)
    requires Aligned(p, k)
    ensures Aligned(p + j * Pow2(k), k)
  {
    ModMul(p, Pow2(k));
    var q := p / Pow2(k);
    assert p + j * Pow2(k) == (q + j) * Pow2(k);
    MulMod(q + j, Pow2(k));
  }

  lemma AlignedDown(p: int, k: nat)
    requires k > 0 && Aligned(p, k)
    ensures Aligned(p, k - 1) && Aligned(p + Pow2(k - 1), k - 1)
  {
    ModMul(p, Pow2(k));
    var q := p / Pow2(k);
    assert p == (2 * q) * Pow2(k - 1);
    MulMod(2 * q, Pow2(k - 1));
    AlignedShift(p, k - 1, 1);
  }

  /** Distinct aligned starts are a whole block apart. */
  lemma AlignedApart(p: int, q: int, k: nat)
    requires Aligned(p, k) && Aligned(q, k) && p < q
    ensures p + Pow2(k) <= q
  {
    var m := Pow2(k);
    ModMul(p, m);
    ModMul(q, m);
    var a, b := p / m, q / m;
    if b <= a {
      MulMono(b, a, m);
    } else {
      MulMono(a + 1, b, m);
      assert (a + 1) * m == a * m + m;
    }
  }

  /** A smaller aligned block that starts inside a larger one lies inside it. */
  lemma {:induction false} Laminar(p: int, j: nat, q: int, k: nat)
    requires Aligned(p, j) && Aligned(q, k) && j <= k && q <= p < q + Pow2(k)
    ensures p + Pow2(j) <= q + Pow2(k)
    decreases k
  {
    if j == k {
      if q < p {
        AlignedApart(q, p, k);
      }
    } else {
      AlignedDown(q, k);
      if p < q + Pow2(k - 1) {
        Laminar(p, j, q, k - 1);
      } else {
        Laminar(p, j, q + Pow2(k - 1), k - 1);
      }
    }
  }

  /* ---- buddies ---- */

  /** The start of the other half of the block of order k + 1 that holds the block at p. */
  function Buddy(p: nat, k: nat): int {
    if Aligned(p, k + 1) then p + Pow2(k) else p - Pow2(k)
  }

  lemma BuddyHalves(p: nat, k: nat)
    requires Aligned(p, k)
    ensures 0 <= Buddy(p, k) && Aligned(Buddy(p, k), k)
    ensures var low := if Buddy(p, k) < p then Buddy(p, k) else p; Aligned(low, k + 1)
    ensures Buddy(Buddy(p, k), k) == p
  {
    var m := Pow2(k);
    ModMul(p, m);
    var q := p / m;
    assert (q + 1) * m == q * m + m;
    assert (q - 1) * m == q * m - m;
    if q % 2 == 0 {
      EvenAligned(p, k, q);
      MulMod(q + 1, m);
      NotAligned(p + m, k, q + 1);
    } else {
      NotAligned(p, k, q);
      EvenAligned(p - m, k, q - 1);
      MulMod(q - 1, m);
      MulMono(0, q - 1, m);
    }
  }

  lemma EvenAligned(p: int, k: nat, q: int)
    requires p == q * Pow2(k) && q % 2 == 0
    ensures Aligned(p, k + 1)
  {
    var m := Pow2(k);
    var h := q / 2;
    assert (2 * h) * m == h * (2 * m);
    MulMod(h, 2 * m);
  }

  lemma NotAligned(p: int, k: nat, q: int)
    requires p == q * Pow2(k) && q % 2 == 1
    ensures !Aligned(p, k + 1)
  {
    var m := Pow2(k);
    if Aligned(p, k + 1) {
      ModMul(p, 2 * m);
      OddIsNotEven(p / (2 * m), q, m);
    }
  }

  lemma OddIsNotEven(h: int, q: int, m: int)
    requires m > 0 && q % 2 == 1
    ensures h * (2 * m) != q * m
  {
    assert h * (2 * m) == (2 * h) * m;
    if 2 * h < q {
      MulMono(2 * h + 1, q, m);
      assert (2 * h + 1) * m == (2 * h) * m + m;
    } else {
      MulMono(q + 1, 2 * h, m);
      assert (q + 1) * m == q * m + m;
    }
  }

  /** Exclusive or, bit by bit. */
  function Xor(a: nat, b: nat): nat
    decreases a + b
  {
    if a == 0 && b == 0 then 0 else (if a % 2 == b % 2 then 0 else 1) + 2 * Xor(a / 2, b / 2)
  }

  lemma {:induction false} XorZero(a: nat)
    ensures Xor(a, 0) == a
  {
    if a > 0 {
      XorZero(a / 2);
    }
  }

  /** `pfn ^ (1 << order)` is the buddy. */
  lemma {:induction false} XorIsBuddy(p: nat, k: nat)
    requires Aligned(p, k)
    ensures Xor(p, Pow2(k)) == Buddy(p, k)
  {
    if k == 0 {
      XorZero(p / 2);
      assert Pow2(1) == 2 * Pow2(0) == 2;
    } else {
      AlignedDown(p, k);
      HalfAligned(p, k);
      HalfAligned(2 * (p / 2), k + 1);
      XorIsBuddy(p / 2, k - 1);
      assert Pow2(k) / 2 == Pow2(k - 1) && Pow2(k) % 2 == 0;
    }
  }

  lemma HalfAligned(p: nat, k: nat)
    requires k > 0
    ensures Aligned(p, k) <==> p % 2 == 0 && Aligned(p / 2, k - 1)
  {
    var m := Pow2(k - 1);
    if Aligned(p, k) {
      ModMul(p, 2 * m);
      var q := p / (2 * m);
      assert p == 2 * (q * m);
      assert p / 2 == q * m;
      MulMod(q, m);
    }
    if p % 2 == 0 && Aligned(p / 2, k - 1) {
      ModMul(p / 2, m);
      var q := (p / 2) / m;
      assert p == 2 * (p / 2) == q * (2 * m);
      MulMod(q, 2 * m);
    }
  }

  /* ---- the frame table ---- */

  predicate IsHead(f: Frame) { f.state in {Free, Kernel, User} }

  /** The frames [h, h + 2^order) form the block at h. */
  predicate InBlock(fs: seq<Frame>, h: int, k: int)
    requires 0 <= h < |fs|
  {
    h <= k < h + Pow2(fs[h].order)
  }

  ghost predicate BlockAt(fs: seq<Frame>, h: int, lo: int, hi: int)
    requires 0 <= h < |fs|
  {
    && fs[h].order <= MAX_ORDER
    && Aligned(h, fs[h].order)
    && lo <= h && h + Pow2(fs[h].order) <= hi
    && (forall k :: h < k < h + Pow2(fs[h].order) && k < |fs| ==> fs[k].state == Tail)
  }

  ghost predicate HasHead(fs: seq<Frame>, lo: int, k: int)
    requires 0 <= lo && k <= |fs|
  {
    exists h :: lo <= h < k && IsHead(fs[h]) && InBlock(fs, h, k)
  }

  /** The frames [lo, hi) are exactly covered by aligned blocks and reserved frames. */
  ghost predicate Tiled(fs: seq<Frame>, lo: int, hi: int)
    requires 0 <= lo <= hi <= |fs|
  {
    && (forall h :: lo <= h < hi && IsHead(fs[h]) ==> BlockAt(fs, h, lo, hi))
    && (forall k :: lo <= k < hi && fs[k].state == Tail ==> HasHead(fs, lo, k))
  }

  /** Blocks do not overlap: a frame is in at most one. */
  lemma OneBlock(fs: seq<Frame>, g: int, h: int, k: int)
    requires Tiled(fs, 0, |fs|) && 0 <= g < |fs| && 0 <= h < |fs| && 0 <= k < |fs|
    requires IsHead(fs[g]) && IsHead(fs[h]) && InBlock(fs, g, k) && InBlock(fs, h, k)
    ensures g == h
  {
    assert BlockAt(fs, g, 0, |fs|) && BlockAt(fs, h, 0, |fs|);
  }

  ghost predicate Owns(fs: seq<Frame>, h: int, k: int) {
    0 <= h < |fs| && IsHead(fs[h]) && InBlock(fs, h, k)
  }

  /** Each frame is reserved or belongs to exactly one block, free or handed out. */
  lemma Partition(fs: seq<Frame>, k: nat)
    requires Tiled(fs, 0, |fs|) && k < |fs|
    ensures fs[k].state == Reserved <==> !exists h :: Owns(fs, h, k)
    ensures forall g, h :: Owns(fs, g, k) && Owns(fs, h, k) ==> g == h
  {
    if fs[k].state == Tail {
      assert HasHead(fs, 0, k);
      var h :| 0 <= h < k && IsHead(fs[h]) && InBlock(fs, h, k);
      assert Owns(fs, h, k);
    } else if IsHead(fs[k]) {
      assert Owns(fs, k, k);
    }
    assert forall h :: Owns(fs, h, k) ==> BlockAt(fs, h, 0, |fs|);
    forall g, h | Owns(fs, g, k) && Owns(fs, h, k) ensures g == h {
      OneBlock(fs, g, h, k);
    }
  }

  lemma HeadBlock(fs: seq<Frame>, h: int)
    requires Tiled(fs, 0, |fs|) && 0 <= h < |fs| && IsHead(fs[h])
    ensures fs[h].order <= MAX_ORDER && Aligned(h, fs[h].order) && h + Pow2(fs[h].order) <= |fs|
    ensures forall k :: h < k < h + Pow2(fs[h].order) ==> fs[k].state == Tail
  {
    assert BlockAt(fs, h, 0, |fs|);
  }

  /** A frame that some free block holds. */
  ghost predicate FreeFrame(fs: seq<Frame>, k: int) {
    exists h :: 0 <= h < |fs| && fs[h].state == Free && InBlock(fs, h, k)
  }

  ghost function FreeSet(fs: seq<Frame>): set<int> {
    set k: int | 0 <= k < |fs| && FreeFrame(fs, k)
  }

  /** The heads of the free blocks, with their orders. */
  ghost function FreeBlocks(fs: seq<Frame>): map<int, nat> {
    map h: int | 0 <= h < |fs| && fs[h].state == Free :: fs[h].order
  }

  /** The blocks handed out, with order and owner kind. */
  ghost function Allocated(fs: seq<Frame>): map<int, (nat, FrameState)> {
    map h: int | 0 <= h < |fs| && fs[h].state in {Kernel, User} :: (fs[h].order, fs[h].state)
  }

  /** Two free blocks of equal order that are each other's buddy. */
  ghost predicate FreePair(fs: seq<Frame>, h: int)
    requires 0 <= h < |fs|
  {
    && fs[h].state == Free && fs[h].order < MAX_ORDER
    && 0 <= Buddy(h, fs[h].order) < |fs|
    && fs[Buddy(h, fs[h].order)].state == Free && fs[Buddy(h, fs[h].order)].order == fs[h].order
  }

  /** No two free buddies are left apart. */
  ghost predicate Merged(fs: seq<Frame>) {
    forall h :: 0 <= h < |fs| ==> !FreePair(fs, h)
  }

  lemma NoPair(fs: seq<Frame>, h: int)
    requires Merged(fs) && 0 <= h < |fs|
    ensures !FreePair(fs, h)
  {
  }

  ghost predicate AllFree(fs: seq<Frame>, a: int, k: nat) {
    forall j :: a <= j < a + Pow2(k) ==> FreeFrame(fs, j)
  }

  /** A naturally aligned run of 2^k free frames. */
  ghost predicate FreeRun(fs: seq<Frame>, a: int, k: nat) {
    0 <= a && Aligned(a, k) && a + Pow2(k) <= |fs| && AllFree(fs, a, k)
  }

  lemma {:induction false} RunInBlock(fs: seq<Frame>, a: int, k: nat) returns (h: int)
    requires Tiled(fs, 0, |fs|) && Merged(fs) && FreeRun(fs, a, k) && k <= MAX_ORDER
    ensures 0 <= h < |fs| && fs[h].state == Free && fs[h].order >= k
    ensures h <= a && a + Pow2(k) <= h + Pow2(fs[h].order)
    decreases k
  {
    hide Tiled, Merged;
    if k == 0 {
      assert FreeFrame(fs, a);
      h :| 0 <= h < |fs| && fs[h].state == Free && InBlock(fs, h, a);
    } else {
      AlignedDown(a, k);
      var half := Pow2(k - 1);
      assert AllFree(fs, a, k - 1) && AllFree(fs, a + half, k - 1);
      h := RunInBlock(fs, a, k - 1);
      var g := RunInBlock(fs, a + half, k - 1);
      HalvesMeet(fs, a, k, h, g);
    }
  }

  /** The free blocks of the two halves of an aligned run are one block, or a pair that would be merged. */
  lemma HalvesMeet(fs: seq<Frame>, a: int, k: nat, h: int, g: int)
    requires Tiled(fs, 0, |fs|) && Merged(fs) && 0 < k <= MAX_ORDER && 0 <= a && Aligned(a, k) && a + Pow2(k) <= |fs|
    requires 0 <= h < |fs| && fs[h].state == Free && fs[h].order >= k - 1
    requires h <= a && a + Pow2(k - 1) <= h + Pow2(fs[h].order)
    requires 0 <= g < |fs| && fs[g].state == Free && fs[g].order >= k - 1
    requires g <= a + Pow2(k - 1) && a + Pow2(k) <= g + Pow2(fs[g].order)
    ensures fs[h].order >= k && a + Pow2(k) <= h + Pow2(fs[h].order)
  {
    hide Tiled, Merged, Pow2, FreePair;
    Doubles(k);
    HeadBlock(fs, h);
    HeadBlock(fs, g);
    if fs[h].order >= k {
      Laminar(a, k, h, fs[h].order);
    } else if fs[g].order >= k {
      UpperBlock(fs, a, k, h, g);
    } else {
      NoPair(fs, h);
      TwoHalves(fs, a, k, h, g);
    }
  }

  lemma Doubles(k: nat)
    requires k > 0
    ensures Pow2(k) == 2 * Pow2(k - 1)
  {
  }

  /** A block of at least the run's order that reaches its end holds all of it. */
  lemma UpperBlock(fs: seq<Frame>, a: int, k: nat, h: int, g: int)
    requires Tiled(fs, 0, |fs|) && k > 0 && 0 <= a && Aligned(a, k) && a + Pow2(k) <= |fs|
    requires 0 <= h < |fs| && fs[h].state == Free && h <= a && a + Pow2(k - 1) <= h + Pow2(fs[h].order)
    requires 0 <= g < |fs| && fs[g].state == Free && fs[g].order >= k
    requires g <= a + Pow2(k - 1) && a + Pow2(k) <= g + Pow2(fs[g].order)
    ensures h == g
  {
    hide Tiled, Pow2, Aligned;
    Doubles(k);
    HeadBlock(fs, g);
    AlignedWeaken(g, k, fs[g].order);
    if a < g {
      AlignedApart(a, g, k);
    }
    OneBlock(fs, h, g, a);
  }

  /** Two blocks that are exactly the halves of an aligned run are buddies. */
  lemma TwoHalves(fs: seq<Frame>, a: int, k: nat, h: int, g: int)
    requires 0 < k <= MAX_ORDER && 0 <= a && Aligned(a, k)
    requires 0 <= h < |fs| && fs[h] == Frame(k - 1, Free) && Aligned(h, k - 1) && h <= a && a + Pow2(k - 1) <= h + Pow2(k - 1)
    requires 0 <= g < |fs| && fs[g] == Frame(k - 1, Free) && g <= a + Pow2(k - 1) && a + Pow2(k) <= g + Pow2(k - 1)
    ensures FreePair(fs, h)
  {
    hide Pow2, Aligned;
    Doubles(k);
  }

  lemma {:induction false} AlignedWeaken(p: int, j: nat, k: nat)
    requires j <= k && Aligned(p, k)
    ensures Aligned(p, j)
    decreases k
  {
    if j < k {
      AlignedDown(p, k);
      AlignedWeaken(p, j, k - 1);
    }
  }

  /** The set of free frames decides the free blocks: there is only one merged tiling of it. */
  lemma FreeBlocksDetermined(fs: seq<Frame>, gs: seq<Frame>)
    requires |fs| == |gs| && Tiled(fs, 0, |fs|) && Tiled(gs, 0, |gs|) && Merged(fs) && Merged(gs)
    requires FreeSet(fs) == FreeSet(gs)
    ensures FreeBlocks(fs) == FreeBlocks(gs)
  {
    forall h | 0 <= h < |fs| ensures fs[h].state == Free ==> gs[h].state == Free && gs[h].order == fs[h].order {
      if fs[h].state == Free {
        SameBlock(fs, gs, h);
      }
    }
    forall h | 0 <= h < |gs| ensures gs[h].state == Free ==> fs[h].state == Free && fs[h].order == gs[h].order {
      if gs[h].state == Free {
        SameBlock(gs, fs, h);
      }
    }
  }

  lemma BlockIsRun(fs: seq<Frame>, gs: seq<Frame>, h: int)
    requires |fs| == |gs| && Tiled(fs, 0, |fs|) && FreeSet(fs) == FreeSet(gs)
    requires 0 <= h < |fs| && fs[h].state == Free
    ensures fs[h].order <= MAX_ORDER && FreeRun(gs, h, fs[h].order)
  {
    assert BlockAt(fs, h, 0, |fs|);
    forall j | h <= j < h + Pow2(fs[h].order) ensures FreeFrame(gs, j) {
      assert InBlock(fs, h, j);
      assert j in FreeSet(fs);
    }
  }

  lemma SameBlock(fs: seq<Frame>, gs: seq<Frame>, h: int)
    requires |fs| == |gs| && Tiled(fs, 0, |fs|) && Tiled(gs, 0, |gs|) && Merged(fs) && Merged(gs)
    requires FreeSet(fs) == FreeSet(gs) && 0 <= h < |fs| && fs[h].state == Free
    ensures gs[h].state == Free && gs[h].order == fs[h].order
  {
    BlockIsRun(fs, gs, h);
    var g := RunInBlock(gs, h, fs[h].order);
    BlockIsRun(gs, fs, g);
    var h' := RunInBlock(fs, g, gs[g].order);
    OneBlock(fs, h, h', h);
    Pow2Order(fs[h].order, gs[g].order);
  }

  lemma {:induction false} Pow2Order(j: nat, k: nat)
    requires Pow2(j) <= Pow2(k)
    ensures j <= k
  {
    if j > 0 && k > 0 {
      Pow2Order(j - 1, k - 1);
    }
  }

  /* ---- marking blocks ---- */

  /** The table after the frames of one block are marked. */
  function Marked(fs: seq<Frame>, p: nat, k: nat, st: FrameState): seq<Frame> {
    seq(|fs|, j requires 0 <= j < |fs| =>
      if j == p then Frame(k, st) else if p < j < p + Pow2(k) then Frame(k, Tail) else fs[j])
  }

  ghost function Span(p: nat, k: nat): set<int> { Interval(p, p + Pow2(k)) }

  ghost predicate SameOutside(fs: seq<Frame>, gs: seq<Frame>, lo: int, hi: int)
    requires 0 <= lo <= hi <= |fs| == |gs|
  {
    forall j :: 0 <= j < |fs| && !(lo <= j < hi) ==> gs[j] == fs[j]
  }

  /** Every block that starts in [lo, hi) is free, or none is. */
  ghost predicate Kind(fs: seq<Frame>, lo: int, hi: int, free: bool)
    requires 0 <= lo <= hi <= |fs|
  {
    forall j :: lo <= j < hi ==> fs[j].state == Tail || (IsHead(fs[j]) && (fs[j].state == Free <==> free))
  }

  lemma MarkedTiled(fs: seq<Frame>, p: nat, k: nat, st: FrameState)
    requires k <= MAX_ORDER && Aligned(p, k) && p + Pow2(k) <= |fs| && st in {Free, Kernel, User}
    ensures Tiled(Marked(fs, p, k, st), p, p + Pow2(k))
    ensures Kind(Marked(fs, p, k, st), p, p + Pow2(k), st == Free)
  {
    var gs := Marked(fs, p, k, st);
    forall j | p <= j < p + Pow2(k) && gs[j].state == Tail ensures HasHead(gs, p, j) {
      assert InBlock(gs, p, j);
    }
  }

  lemma BlockTiled(fs: seq<Frame>, h: int)
    requires Tiled(fs, 0, |fs|) && 0 <= h < |fs| && IsHead(fs[h])
    ensures h + Pow2(fs[h].order) <= |fs| && Tiled(fs, h, h + Pow2(fs[h].order))
    ensures Kind(fs, h, h + Pow2(fs[h].order), fs[h].state == Free)
  {
    assert BlockAt(fs, h, 0, |fs|);
    forall j | h <= j < h + Pow2(fs[h].order) && fs[j].state == Tail ensures HasHead(fs, h, j) {
      assert InBlock(fs, h, j);
    }
  }

  lemma TiledJoin(fs: seq<Frame>, lo: int, mid: int, hi: int)
    requires 0 <= lo <= mid <= hi <= |fs| && Tiled(fs, lo, mid) && Tiled(fs, mid, hi)
    ensures Tiled(fs, lo, hi)
  {
    forall h | lo <= h < hi && IsHead(fs[h]) ensures BlockAt(fs, h, lo, hi) {
      assert BlockAt(fs, h, lo, mid) || BlockAt(fs, h, mid, hi);
    }
    forall k | lo <= k < hi && fs[k].state == Tail ensures HasHead(fs, lo, k) {
      assert HasHead(fs, lo, k) || HasHead(fs, mid, k);
    }
  }

  lemma KindJoin(fs: seq<Frame>, lo: int, mid: int, hi: int, free: bool)
    requires 0 <= lo <= mid <= hi <= |fs| && Kind(fs, lo, mid, free) && Kind(fs, mid, hi, free)
    ensures Kind(fs, lo, hi, free)
  {
  }

  /** No block crosses the border of a stretch that is tiled on its own. */
  lemma NoCrossing(fs: seq<Frame>, lo: int, hi: int, h: int)
    requires Tiled(fs, 0, |fs|) && 0 <= lo <= hi <= |fs| && Tiled(fs, lo, hi)
    requires 0 <= h < |fs| && IsHead(fs[h])
    ensures h + Pow2(fs[h].order) <= lo || hi <= h || (lo <= h && h + Pow2(fs[h].order) <= hi) || lo == hi
  {
    assert BlockAt(fs, h, 0, |fs|);
    if lo <= h < hi {
      assert BlockAt(fs, h, lo, hi);
    }
    assert lo < hi && fs[lo].state == Tail ==> HasHead(fs, lo, lo);
  }

  /** Retiling a stretch leaves the whole table tiled. */
  lemma Retile(fs: seq<Frame>, gs: seq<Frame>, lo: int, hi: int)
    requires 0 <= lo < hi <= |fs| == |gs| && SameOutside(fs, gs, lo, hi)
    requires Tiled(fs, 0, |fs|) && Tiled(fs, lo, hi) && Tiled(gs, lo, hi)
    ensures Tiled(gs, 0, |gs|)
    ensures forall j :: 0 <= j < |fs| && !(lo <= j < hi) ==> (FreeFrame(fs, j) <==> FreeFrame(gs, j))
  {
    forall h | 0 <= h < |gs| && IsHead(gs[h]) ensures BlockAt(gs, h, 0, |gs|) {
      if lo <= h < hi {
        assert BlockAt(gs, h, lo, hi);
      } else {
        assert BlockAt(fs, h, 0, |fs|);
        NoCrossing(fs, lo, hi, h);
      }
    }
    forall k | 0 <= k < |gs| && gs[k].state == Tail ensures HasHead(gs, 0, k) {
      if lo <= k < hi {
        var h :| lo <= h < k && IsHead(gs[h]) && InBlock(gs, h, k);
      } else {
        assert HasHead(fs, 0, k);
        var h :| 0 <= h < k && IsHead(fs[h]) && InBlock(fs, h, k);
        NoCrossing(fs, lo, hi, h);
        assert InBlock(gs, h, k);
      }
    }
    FreeOutside(fs, gs, lo, hi);
  }

  lemma StaysInside(fs: seq<Frame>, lo: int, hi: int, h: int)
    requires 0 <= lo <= hi <= |fs| && Tiled(fs, lo, hi) && 0 <= h < |fs| && IsHead(fs[h])
    ensures lo <= h < hi ==> h + Pow2(fs[h].order) <= hi
  {
    if lo <= h < hi {
      assert BlockAt(fs, h, lo, hi);
    }
  }

  lemma FreeOutside(fs: seq<Frame>, gs: seq<Frame>, lo: int, hi: int)
    requires 0 <= lo < hi <= |fs| == |gs| && SameOutside(fs, gs, lo, hi)
    requires Tiled(fs, 0, |fs|) && Tiled(fs, lo, hi) && Tiled(gs, lo, hi)
    ensures forall j :: 0 <= j < |fs| && !(lo <= j < hi) ==> (FreeFrame(fs, j) <==> FreeFrame(gs, j))
  {
    forall j | 0 <= j < |fs| && !(lo <= j < hi) ensures FreeFrame(fs, j) <==> FreeFrame(gs, j) {
      if FreeFrame(fs, j) {
        var h :| 0 <= h < |fs| && fs[h].state == Free && InBlock(fs, h, j);
        NoCrossing(fs, lo, hi, h);
        assert InBlock(gs, h, j);
      }
      if FreeFrame(gs, j) {
        var h :| 0 <= h < |gs| && gs[h].state == Free && InBlock(gs, h, j);
        StaysInside(gs, lo, hi, h);
        assert InBlock(fs, h, j);
      }
    }
  }

  lemma KindFree(fs: seq<Frame>, lo: int, hi: int, free: bool)
    requires Tiled(fs, 0, |fs|) && 0 <= lo < hi <= |fs| && Tiled(fs, lo, hi) && Kind(fs, lo, hi, free)
    ensures forall j :: lo <= j < hi ==> (FreeFrame(fs, j) <==> free)
  {
    forall j | lo <= j < hi ensures FreeFrame(fs, j) <==> free {
      var h := j;
      if fs[j].state == Tail {
        assert HasHead(fs, lo, j);
        h :| lo <= h < j && IsHead(fs[h]) && InBlock(fs, h, j);
      } else {
        assert InBlock(fs, j, j);
      }
      if FreeFrame(fs, j) {
        var g :| 0 <= g < |fs| && fs[g].state == Free && InBlock(fs, g, j);
        OneBlock(fs, g, h, j);
      }
    }
  }

  /* ---- the four edits of the allocator ---- */

  /** Only the block at p may still have a free buddy. */
  ghost predicate MergedBut(fs: seq<Frame>, p: int) {
    forall h :: 0 <= h < |fs| && FreePair(fs, h) ==> h == p || Buddy(h, fs[h].order) == p
  }

  ghost predicate SameBlocks(fs: seq<Frame>, gs: seq<Frame>) {
    |fs| == |gs| && FreeSet(fs) == FreeSet(gs) && Allocated(fs) == Allocated(gs)
  }

  function Split(fs: seq<Frame>, p: nat, k: nat): seq<Frame>
    requires k > 0
  {
    Marked(Marked(fs, p + Pow2(k - 1), k - 1, Free), p, k - 1, Free)
  }

  /** Splitting a free block hands nothing out and takes nothing back. */
  lemma SplitKeeps(fs: seq<Frame>, p: nat, k: nat)
    requires Tiled(fs, 0, |fs|) && p < |fs| && fs[p] == Frame(k, Free) && k > 0
    ensures var gs := Split(fs, p, k); Tiled(gs, 0, |gs|) && SameBlocks(fs, gs)
  {
    hide Tiled, HasHead, BlockAt, Kind, Aligned, SameBlocks;
    var mid, hi := p + Pow2(k - 1), p + Pow2(k);
    var hs := Marked(fs, mid, k - 1, Free);
    var gs := Marked(hs, p, k - 1, Free);
    HeadBlock(fs, p);
    BlockTiled(fs, p);
    AlignedDown(p, k);
    MarkedTiled(fs, mid, k - 1, Free);
    MarkedTiled(hs, p, k - 1, Free);
    SameStretch(hs, gs, mid, hi, true);
    TiledJoin(gs, p, mid, hi);
    KindJoin(gs, p, mid, hi, true);
    SameFree(fs, gs, p, hi);
  }

  lemma SameStretch(fs: seq<Frame>, gs: seq<Frame>, lo: int, hi: int, free: bool)
    requires 0 <= lo <= hi <= |fs| == |gs| && fs[lo..hi] == gs[lo..hi] && Tiled(fs, lo, hi) && Kind(fs, lo, hi, free)
    ensures Tiled(gs, lo, hi) && Kind(gs, lo, hi, free)
  {
    assert forall j :: lo <= j < hi ==> fs[j] == fs[lo..hi][j - lo] == gs[j];
    forall h | lo <= h < hi && IsHead(gs[h]) ensures BlockAt(gs, h, lo, hi) {
      assert BlockAt(fs, h, lo, hi);
    }
    forall k | lo <= k < hi && gs[k].state == Tail ensures HasHead(gs, lo, k) {
      assert HasHead(fs, lo, k);
      var h :| lo <= h < k && IsHead(fs[h]) && InBlock(fs, h, k);
      assert InBlock(gs, h, k);
    }
  }

  lemma SameFree(fs: seq<Frame>, gs: seq<Frame>, lo: int, hi: int)
    requires 0 <= lo < hi <= |fs| == |gs| && SameOutside(fs, gs, lo, hi) && Tiled(fs, 0, |fs|)
    requires Tiled(fs, lo, hi) && Tiled(gs, lo, hi) && Kind(fs, lo, hi, true) && Kind(gs, lo, hi, true)
    ensures Tiled(gs, 0, |gs|) && SameBlocks(fs, gs)
  {
    hide Tiled, HasHead, InBlock, FreeFrame;
    Retile(fs, gs, lo, hi);
    KindFree(fs, lo, hi, true);
    KindFree(gs, lo, hi, true);
  }

  lemma SplitMerged(fs: seq<Frame>, p: nat, k: nat)
    requires Tiled(fs, 0, |fs|) && p < |fs| && fs[p] == Frame(k, Free) && k > 0 && MergedBut(fs, p)
    ensures MergedBut(Split(fs, p, k), p)
  {
    hide Tiled, Aligned, Split, Buddy, FreePair;
    var gs := Split(fs, p, k);
    SplitLength(fs, p, k);
    forall h | 0 <= h < |gs| && FreePair(gs, h) ensures h == p || Buddy(h, gs[h].order) == p {
      if h == p + Pow2(k - 1) {
        UpperHalf(fs, p, k);
      } else {
        SplitPair(fs, p, k, h);
      }
    }
  }

  lemma SplitLength(fs: seq<Frame>, p: nat, k: nat)
    requires Tiled(fs, 0, |fs|) && p < |fs| && fs[p] == Frame(k, Free) && k > 0
    ensures |Split(fs, p, k)| == |fs| && p + Pow2(k) <= |fs|
  {
    hide Tiled;
    HeadBlock(fs, p);
  }

  /** The buddy of the upper half is the lower half. */
  lemma UpperHalf(fs: seq<Frame>, p: nat, k: nat)
    requires Tiled(fs, 0, |fs|) && p < |fs| && fs[p] == Frame(k, Free) && k > 0
    ensures var b, gs := p + Pow2(k - 1), Split(fs, p, k); b < |gs| && Buddy(b, gs[b].order) == p
  {
    hide Tiled;
    HeadBlock(fs, p);
    AlignedDown(p, k);
    BuddyHalves(p, k - 1);
  }

  lemma SplitPair(fs: seq<Frame>, p: nat, k: nat, h: nat)
    requires Tiled(fs, 0, |fs|) && p < |fs| && fs[p] == Frame(k, Free) && k > 0 && MergedBut(fs, p)
    requires h < |fs| && FreePair(Split(fs, p, k), h) && h != p + Pow2(k - 1)
    ensures h == p || Buddy(h, Split(fs, p, k)[h].order) == p
  {
    hide Tiled, SameBlocks, MergedBut, Aligned;
    var gs := Split(fs, p, k);
    var o := gs[h].order;
    BlockTiled(fs, p);
    HeadBlock(fs, p);
    AlignedDown(p, k);
    BuddyHalves(p, k - 1);
    SplitKeeps(fs, p, k);
    HeadBlock(gs, h);
    BuddyHalves(h, o);
    OnlyPair(fs, p, h);
  }

  lemma OnlyPair(fs: seq<Frame>, p: int, h: int)
    requires MergedBut(fs, p) && 0 <= h < |fs|
    ensures FreePair(fs, h) ==> h == p || Buddy(h, fs[h].order) == p
  {
  }

  /** Merging two free buddies hands nothing out and takes nothing back. */
  lemma JoinKeeps(fs: seq<Frame>, p: nat, k: nat)
    requires Tiled(fs, 0, |fs|) && k < MAX_ORDER && Aligned(p, k + 1) && p + Pow2(k) < |fs|
    requires fs[p] == Frame(k, Free) && fs[p + Pow2(k)] == Frame(k, Free)
    ensures p + Pow2(k + 1) <= |fs|
    ensures var gs := Marked(fs, p, k + 1, Free); Tiled(gs, 0, |gs|) && SameBlocks(fs, gs)
  {
    hide Tiled, HasHead, BlockAt, Kind, Aligned, SameBlocks;
    var mid, hi := p + Pow2(k), p + Pow2(k + 1);
    var gs := Marked(fs, p, k + 1, Free);
    BlockTiled(fs, p);
    BlockTiled(fs, mid);
    TiledJoin(fs, p, mid, hi);
    KindJoin(fs, p, mid, hi, true);
    MarkedTiled(fs, p, k + 1, Free);
    SameFree(fs, gs, p, hi);
  }

  lemma JoinMerged(fs: seq<Frame>, p: nat, k: nat, q: nat)
    requires k < MAX_ORDER && p + Pow2(k + 1) <= |fs| && q in {p, p + Pow2(k)} && MergedBut(fs, q)
    ensures MergedBut(Marked(fs, p, k + 1, Free), p)
  {
    var gs := Marked(fs, p, k + 1, Free);
    forall h | 0 <= h < |gs| && FreePair(gs, h) ensures h == p || Buddy(h, gs[h].order) == p {
      if h != p && Buddy(h, gs[h].order) != p {
        assert gs[h] == fs[h] && gs[Buddy(h, gs[h].order)] == fs[Buddy(h, gs[h].order)];
        assert FreePair(fs, h);
      }
    }
  }

  /** Handing out a free block takes exactly its frames from the free set. */
  lemma HandOut(fs: seq<Frame>, p: nat, k: nat, st: FrameState)
    requires Tiled(fs, 0, |fs|) && p < |fs| && fs[p] == Frame(k, Free) && st in {Kernel, User}
    ensures var gs := Marked(fs, p, k, st);
      Tiled(gs, 0, |gs|) && FreeSet(gs) == FreeSet(fs) - Span(p, k) && Allocated(gs) == Allocated(fs)[p := (k, st)]
    ensures Span(p, k) <= FreeSet(fs)
  {
    hide Tiled, HasHead, BlockAt, InBlock, FreeFrame, Aligned, MergedBut;
    var gs := Marked(fs, p, k, st);
    BlockTiled(fs, p);
    HeadBlock(fs, p);
    MarkedTiled(fs, p, k, st);
    Retile(fs, gs, p, p + Pow2(k));
    KindFree(fs, p, p + Pow2(k), true);
    KindFree(gs, p, p + Pow2(k), false);
  }

  lemma HandOutMerged(fs: seq<Frame>, p: nat, k: nat, st: FrameState)
    requires p < |fs| && fs[p] == Frame(k, Free) && st in {Kernel, User} && MergedBut(fs, p)
    ensures Merged(Marked(fs, p, k, st))
  {
    var gs := Marked(fs, p, k, st);
    forall h | 0 <= h < |gs| ensures !FreePair(gs, h) {
      assert FreePair(fs, h) ==> h == p || Buddy(h, fs[h].order) == p;
    }
  }

  /** Taking a block back returns exactly its frames to the free set. */
  lemma TakeBack(fs: seq<Frame>, p: nat, k: nat)
    requires Tiled(fs, 0, |fs|) && p < |fs| && fs[p].order == k && fs[p].state in {Kernel, User}
    ensures var gs := Marked(fs, p, k, Free);
      Tiled(gs, 0, |gs|) && FreeSet(gs) == FreeSet(fs) + Span(p, k) && Allocated(gs) == Allocated(fs) - {p}
    ensures Span(p, k) !! FreeSet(fs)
  {
    hide Tiled, HasHead, BlockAt, InBlock, FreeFrame, Aligned, MergedBut;
    var gs := Marked(fs, p, k, Free);
    BlockTiled(fs, p);
    HeadBlock(fs, p);
    MarkedTiled(fs, p, k, Free);
    Retile(fs, gs, p, p + Pow2(k));
    KindFree(fs, p, p + Pow2(k), false);
    KindFree(gs, p, p + Pow2(k), true);
  }

  lemma TakeBackMerged(fs: seq<Frame>, p: nat, k: nat)
    requires p < |fs| && Merged(fs)
    ensures MergedBut(Marked(fs, p, k, Free), p)
  {
    var gs := Marked(fs, p, k, Free);
    forall h | 0 <= h < |gs| && FreePair(gs, h) ensures h == p || Buddy(h, gs[h].order) == p {
      if h != p && Buddy(h, gs[h].order) != p {
        assert gs[h] == fs[h] && gs[Buddy(h, gs[h].order)] == fs[Buddy(h, gs[h].order)];
        assert FreePair(fs, h);
      }
    }
  }

  lemma NoneLeft(fs: seq<Frame>, p: nat)
    requires Tiled(fs, 0, |fs|) && MergedBut(fs, p) && p < |fs| && fs[p].state == Free && !FreePair(fs, p)
    ensures Merged(fs)
  {
    forall h | 0 <= h < |fs| ensures !FreePair(fs, h) {
      if FreePair(fs, h) {
        HeadBlock(fs, h);
        BuddyHalves(h, fs[h].order);
      }
    }
  }

  /* ---- what alloc and free promise ---- */

  ghost predicate Allocates(fs: seq<Frame>, gs: seq<Frame>, p: nat, k: nat, st: FrameState) {
    && |gs| == |fs| && Tiled(gs, 0, |gs|) && Merged(gs)
    && Aligned(p, k) && p + Pow2(k) <= |fs| && Span(p, k) <= FreeSet(fs)
    && FreeSet(gs) == FreeSet(fs) - Span(p, k)
    && Allocated(gs) == Allocated(fs)[p := (k, st)]
  }

  ghost predicate Frees(fs: seq<Frame>, gs: seq<Frame>, p: nat, k: nat) {
    && |gs| == |fs| && Tiled(gs, 0, |gs|) && Merged(gs)
    && Span(p, k) !! FreeSet(fs)
    && FreeSet(gs) == FreeSet(fs) + Span(p, k)
    && Allocated(gs) == Allocated(fs) - {p}
  }

  /** Allocating a block and freeing it brings back the same free blocks. */
  lemma AllocThenFree(fs: seq<Frame>, gs: seq<Frame>, hs: seq<Frame>, p: nat, k: nat, st: FrameState)
    requires Tiled(fs, 0, |fs|) && Merged(fs) && Allocates(fs, gs, p, k, st) && Frees(gs, hs, p, k)
    ensures FreeBlocks(hs) == FreeBlocks(fs)
  {
    assert FreeSet(hs) == FreeSet(fs);
    FreeBlocksDetermined(fs, hs);
  }

  /** A block of some order at least k is free exactly when an aligned run of 2^k free frames is. */
  lemma RunIffBlock(fs: seq<Frame>, k: nat)
    requires Tiled(fs, 0, |fs|) && Merged(fs) && k <= MAX_ORDER
    ensures (exists h :: 0 <= h < |fs| && fs[h].state == Free && fs[h].order >= k) <==> (exists a :: FreeRun(fs, a, k))
  {
    if a :| FreeRun(fs, a, k) {
      var h := RunInBlock(fs, a, k);
    }
    if h :| 0 <= h < |fs| && fs[h].state == Free && fs[h].order >= k {
      HeadBlock(fs, h);
      AlignedWeaken(h, k, fs[h].order);
      Pow2Mono(k, fs[h].order);
      forall j | h <= j < h + Pow2(k) ensures FreeFrame(fs, j) {
        assert InBlock(fs, h, j);
      }
      assert FreeRun(fs, h, k);
    }
  }

  lemma {:induction false} Pow2Mono(j: nat, k: nat)
    requires j <= k
    ensures Pow2(j) <= Pow2(k)
    decreases k
  {
    if j < k {
      Pow2Mono(j, k - 1);
    }
  }

  /* ---- start-up: building blocks out of single frames ---- */

  /** Before any block is built: single free frames and reserved ones. */
  ghost predicate Raw(fs: seq<Frame>) {
    forall j :: 0 <= j < |fs| ==> fs[j].order == 0 && fs[j].state in {Free, Reserved}
  }

  ghost predicate RawRun(fs: seq<Frame>, a: nat, k: nat) {
    && Aligned(a, k) && a + Pow2(k) <= |fs|
    && forall j :: a <= j < a + Pow2(k) ==> fs[j].state == Free
  }

  /** The block could not have been built larger. */
  ghost predicate Largest(fs: seq<Frame>, h: nat, k: nat) {
    k == MAX_ORDER || !RawRun(fs, h, k + 1)
  }

  ghost predicate LargestBelow(raw: seq<Frame>, fs: seq<Frame>, p: nat)
    requires |raw| == |fs| && p <= |fs|
  {
    forall h :: 0 <= h < p && fs[h].state == Free ==> Largest(raw, h, fs[h].order)
  }

  lemma RawTiled(fs: seq<Frame>)
    requires Raw(fs)
    ensures Tiled(fs, 0, |fs|) && Allocated(fs) == map[]
  {
  }

  lemma RawFree(fs: seq<Frame>, j: nat)
    requires Raw(fs) && j < |fs|
    ensures FreeFrame(fs, j) <==> fs[j].state == Free
  {
    if fs[j].state == Free {
      assert InBlock(fs, j, j);
    }
    if FreeFrame(fs, j) {
      var h :| 0 <= h < |fs| && fs[h].state == Free && InBlock(fs, h, j);
      assert h == j;
    }
  }

  /** Turning a run of single free frames into one block keeps the free set. */
  lemma BuildKeeps(fs: seq<Frame>, p: nat, k: nat)
    requires Tiled(fs, 0, |fs|) && k <= MAX_ORDER && RawRun(fs, p, k)
    requires forall j :: p <= j < p + Pow2(k) ==> fs[j].order == 0
    ensures var gs := Marked(fs, p, k, Free); Tiled(gs, 0, |gs|) && SameBlocks(fs, gs)
  {
    var gs := Marked(fs, p, k, Free);
    MarkedTiled(fs, p, k, Free);
    var hi := p + Pow2(k);
    assert forall h :: p <= h < hi ==> BlockAt(fs, h, p, hi);
    assert Tiled(fs, p, hi);
    hide Tiled;
    SameFree(fs, gs, p, hi);
  }

  /** Greedy building leaves no two free buddies. */
  lemma GreedyMerged(raw: seq<Frame>, fs: seq<Frame>)
    requires Raw(raw) && |raw| == |fs| && Tiled(fs, 0, |fs|) && FreeSet(raw) == FreeSet(fs)
    requires LargestBelow(raw, fs, |fs|)
    ensures Merged(fs)
  {
    forall h | 0 <= h < |fs| ensures !FreePair(fs, h) {
      if FreePair(fs, h) {
        PairIsRun(raw, fs, h);
      }
    }
  }

  lemma PairIsRun(raw: seq<Frame>, fs: seq<Frame>, h: nat)
    requires Raw(raw) && |raw| == |fs| && Tiled(fs, 0, |fs|) && FreeSet(raw) == FreeSet(fs)
    requires h < |fs| && FreePair(fs, h)
    ensures exists low: nat :: low < |fs| && fs[low].state == Free && !Largest(raw, low, fs[low].order)
  {
    var k := fs[h].order;
    var b := Buddy(h, k);
    var low := if b < h then b else h;
    HeadBlock(fs, h);
    HeadBlock(fs, b);
    BuddyHalves(h, k);
    forall j | low <= j < low + Pow2(k + 1) ensures raw[j].state == Free {
      RawFree(raw, j);
      assert InBlock(fs, h, j) || InBlock(fs, b, j);
      assert FreeFrame(fs, j) && j in FreeSet(fs);
    }
    assert RawRun(raw, low, k + 1);
  }
}
