/**
 The first stack of a process: the kernel writes argc, argv and envp downwards through the address space,
 and the C start-up code reads them back upwards.
 */
module InitialStack {
  import opened Common
  import opened Vads
  import opened AddressSpaces
  import FlatMemory

  const STACK_TOP: nat := 0x7FFF_FFF0_0000
  const STACK_LOW: nat := STACK_TOP - 128 * 1024 + PAGE
  const ARGS_MAX: nat := 16
  const ARG_LEN: nat := 128

  type Log = seq<FlatMemory.Event>

  /* ---- words ---- */

  /** The k low bytes of a number, least significant first. */
  function Bytes(v: nat, k: nat): (s: seq<byte>)
    ensures |s| == k
  {
    if k == 0 then [] else [Low(v)] + Bytes(v / 256, k - 1)
  }

  function Low(v: nat): byte { (v % 256) as byte }

  lemma LowValue(v: nat)
    ensures Low(v) as nat == v % 256
  {
    SmallByte(v % 256);
  }

  lemma SmallByte(v: nat)
    requires v < 256
    ensures (v as byte) as nat == v
  {
  }

  function Number(s: seq<byte>): nat {
    if s == [] then 0 else s[0] as nat + 256 * Number(s[1..])
  }

  function Pow256(k: nat): nat {
    if k == 0 then 1 else 256 * Pow256(k - 1)
  }

  lemma {:induction false} NumberOfBytes(v: nat, k: nat)
    requires v < Pow256(k)
    ensures Number(Bytes(v, k)) == v
  {
    hide Low;
    if k > 0 {
      LowValue(v);
      NumberOfBytes(v / 256, k - 1);
      assert Bytes(v, k)[1..] == Bytes(v / 256, k - 1);
    }
  }

  lemma WordLimit()
    ensures Pow256(8) == 0x1_0000_0000_0000_0000
  {
    assert Pow256(4) == 0x1_0000_0000;
  }

  /* ---- what the start-up code reads ---- */

  ghost predicate Holds(log: Log, a: int, s: seq<byte>) {
    forall k :: 0 <= k < |s| ==> FlatMemory.LastByte(log, a + k) == Some(s[k])
  }

  ghost predicate WordAt(log: Log, a: int, v: nat) {
    exists s: seq<byte> :: |s| == 8 && Holds(log, a, s) && Number(s) == v
  }

  predicate Text(s: seq<byte>) { forall k :: 0 <= k < |s| ==> s[k] != 0 }

  /** A zero-terminated string. */
  ghost predicate StringAt(log: Log, a: int, s: seq<byte>) {
    Text(s) && Holds(log, a, s + [0])
  }

  ghost predicate PointerAt(log: Log, a: int, s: seq<byte>) {
    exists p: nat :: p != 0 && WordAt(log, a, p) && StringAt(log, p, s)
  }

  /** Pointers to the strings, one word each, from address a up. */
  ghost predicate VectorAt(log: Log, a: int, ss: seq<seq<byte>>) {
    forall i :: 0 <= i < |ss| ==> PointerAt(log, a + 8 * i, ss[i])
  }

  /** argc at sp, argv above it, envp one word past the end of argv, each vector ended by a null word. */
  ghost predicate Decodes(log: Log, sp: int, argv: seq<seq<byte>>, envp: seq<seq<byte>>) {
    && WordAt(log, sp, |argv|)
    && VectorAt(log, sp + 8, argv) && WordAt(log, sp + 8 + 8 * |argv|, 0)
    && VectorAt(log, sp + 8 + 8 * |argv| + 8, envp) && WordAt(log, sp + 8 + 8 * |argv| + 8 + 8 * |envp|, 0)
  }

  lemma WordUnique(log: Log, a: int, v: nat, w: nat)
    requires WordAt(log, a, v) && WordAt(log, a, w)
    ensures v == w
  {
    var s :| |s| == 8 && Holds(log, a, s) && Number(s) == v;
    var t :| |t| == 8 && Holds(log, a, t) && Number(t) == w;
    assert forall k :: 0 <= k < 8 ==> Some(s[k]) == FlatMemory.LastByte(log, a + k) == Some(t[k]);
    assert s == t;
  }

  lemma StringUnique(log: Log, a: int, s: seq<byte>, t: seq<byte>)
    requires StringAt(log, a, s) && StringAt(log, a, t)
    ensures s == t
  {
    StringBytes(log, a, s);
    StringBytes(log, a, t);
    assert |s| <= |t| ==> FlatMemory.LastByte(log, a + |s|) == Some(Char(t, |s|));
    assert |t| <= |s| ==> FlatMemory.LastByte(log, a + |t|) == Some(Char(s, |t|));
    assert FlatMemory.LastByte(log, a + |s|) == Some(Char(s, |s|)) && FlatMemory.LastByte(log, a + |t|) == Some(Char(t, |t|));
    assert |s| == |t|;
    forall k | 0 <= k < |s| ensures s[k] == t[k] {
      assert FlatMemory.LastByte(log, a + k) == Some(Char(s, k)) == Some(Char(t, k));
    }
  }

  function Char(s: seq<byte>, k: nat): byte { if k < |s| then s[k] else 0 }

  lemma StringBytes(log: Log, a: int, s: seq<byte>)
    requires StringAt(log, a, s)
    ensures forall k: nat :: k <= |s| ==> FlatMemory.LastByte(log, a + k) == Some(Char(s, k))
    ensures forall k: nat :: k < |s| ==> Char(s, k) != 0
  {
    forall k: nat | k <= |s| ensures FlatMemory.LastByte(log, a + k) == Some(Char(s, k)) {
      assert (s + [0])[k] == Char(s, k);
    }
  }

  /** What is read back is unique: the vectors are exactly those that were written. */
  lemma DecodeUnique(log: Log, sp: int, argv: seq<seq<byte>>, envp: seq<seq<byte>>, argv': seq<seq<byte>>, envp': seq<seq<byte>>)
    requires Decodes(log, sp, argv, envp) && Decodes(log, sp, argv', envp')
    ensures argv == argv' && envp == envp'
  {
    hide WordAt, VectorAt;
    WordUnique(log, sp, |argv|, |argv'|);
    VectorUnique(log, sp + 8, argv, argv');
    var e := sp + 8 + 8 * |argv| + 8;
    if |envp| < |envp'| {
      NotNull(log, e, envp', |envp|);
    }
    if |envp'| < |envp| {
      NotNull(log, e, envp, |envp'|);
    }
    VectorUnique(log, e, envp, envp');
  }

  lemma VectorUnique(log: Log, a: int, ss: seq<seq<byte>>, ts: seq<seq<byte>>)
    requires VectorAt(log, a, ss) && VectorAt(log, a, ts) && |ss| == |ts|
    ensures ss == ts
  {
    hide WordAt, StringAt;
    forall i | 0 <= i < |ss| ensures ss[i] == ts[i] {
      assert PointerAt(log, a + 8 * i, ss[i]) && PointerAt(log, a + 8 * i, ts[i]);
      var p: nat :| p != 0 && WordAt(log, a + 8 * i, p) && StringAt(log, p, ss[i]);
      var q: nat :| q != 0 && WordAt(log, a + 8 * i, q) && StringAt(log, q, ts[i]);
      WordUnique(log, a + 8 * i, p, q);
      StringUnique(log, p, ss[i], ts[i]);
    }
  }

  /** An entry of a vector is not the null word that ends one. */
  lemma NotNull(log: Log, a: int, ss: seq<seq<byte>>, i: nat)
    requires VectorAt(log, a, ss) && i < |ss|
    ensures !WordAt(log, a + 8 * i, 0)
  {
    hide WordAt, StringAt;
    assert PointerAt(log, a + 8 * i, ss[i]);
    var p: nat :| p != 0 && WordAt(log, a + 8 * i, p) && StringAt(log, p, ss[i]);
    if WordAt(log, a + 8 * i, 0) {
      WordUnique(log, a + 8 * i, p, 0);
    }
  }

  /* ---- writing downwards ---- */

  /** Nothing at or above `lo` differs. */
  ghost predicate SameAbove(log: Log, log': Log, lo: int) {
    forall a :: a >= lo ==> FlatMemory.LastByte(log', a) == FlatMemory.LastByte(log, a)
  }

  lemma Wrote(log: Log, va: int, data: seq<byte>)
    ensures var log' := log + [FlatMemory.Write(va, data)];
      SameAbove(log, log', va + |data|) && Holds(log', va, data)
  {
    var log' := log + [FlatMemory.Write(va, data)];
    assert log'[..|log|] == log;
  }

  lemma HoldsAbove(log: Log, log': Log, lo: int, a: int, s: seq<byte>)
    requires SameAbove(log, log', lo) && Holds(log, a, s) && a >= lo
    ensures Holds(log', a, s)
  {
  }

  lemma WordAbove(log: Log, log': Log, lo: int, a: int, v: nat)
    requires SameAbove(log, log', lo) && WordAt(log, a, v) && a >= lo
    ensures WordAt(log', a, v)
  {
    var s :| |s| == 8 && Holds(log, a, s) && Number(s) == v;
    HoldsAbove(log, log', lo, a, s);
  }

  /** The strings are in place and their addresses are known. */
  ghost predicate Placed(log: Log, ss: seq<seq<byte>>, ps: seq<nat>, lo: nat) {
    |ss| == |ps| && forall i :: 0 <= i < |ps| ==> lo <= ps[i] < STACK_TOP && StringAt(log, ps[i], ss[i])
  }

  lemma PlacedAbove(log: Log, log': Log, lo: nat, lo': nat, ss: seq<seq<byte>>, ps: seq<nat>)
    requires SameAbove(log, log', lo) && Placed(log, ss, ps, lo) && lo' <= lo
    ensures Placed(log', ss, ps, lo')
  {
    hide Holds;
    forall i | 0 <= i < |ps| ensures StringAt(log', ps[i], ss[i]) {
      HoldsAbove(log, log', lo, ps[i], ss[i] + [0]);
    }
  }

  /** Every page of the stack region can be written by the kernel. */
  ghost predicate Usable(space: AddressSpace)
    requires space.Valid()
    reads space
  {
    forall p :: STACK_LOW / PAGE <= p < STACK_TOP / PAGE ==> space.Accessible(p, false)
  }

  lemma WriteKeepsAccess(m: FlatMemory.Memory, va: int, data: seq<byte>, p: int)
    ensures var m' := FlatMemory.Apply(m, FlatMemory.Write(va, data));
      (p in m <==> p in m') && (p in m ==> m'[p].prot == m[p].prot)
  {
  }

  /** One write to the stack region. It fails only when a page is not accessible or the kernel heap refuses. */
  method Push(space: AddressSpace, va: nat, data: seq<byte>) returns (ok: bool)
    requires space.Valid() && data != [] && STACK_LOW <= va && va + |data| <= STACK_TOP
    modifies space
    ensures space.Valid() && space.calls >= old(space.calls)
    ensures ok ==> space.log == old(space.log) + [FlatMemory.Write(va, data)]
    ensures old(Usable(space)) ==> Usable(space)
    ensures !ok && old(Usable(space)) ==> !space.NeverRefused(old(space.calls))
  {
    hide FlatMemory.Apply, FlatMemory.Replay, FlatMemory.LegalLog;
    ghost var m := space.View();
    var st;
    ghost var done;
    st, done := space.WriteAspace(va, data);
    ok := st == Success;
    assert data[..|data|] == data;
    if old(Usable(space)) {
      forall p | STACK_LOW / PAGE <= p < STACK_TOP / PAGE ensures space.Accessible(p, false) {
        assert old(space.Accessible(p, false));
        WriteKeepsAccess(m, va, data[..done], p);
      }
    }
    assert old(Usable(space)) && done < |data| ==> old(space.Accessible((va + done) / PAGE, false));
  }

  function Rounded(n: nat): nat { (n + 7) / 8 * 8 }

  predicate Stored(ss: seq<seq<byte>>) {
    |ss| <= ARGS_MAX && forall i :: 0 <= i < |ss| ==> |ss[i]| < ARG_LEN && Text(ss[i])
  }

  /** Writes the strings one below the other, each rounded up to whole words. */
  method WriteStrings(space: AddressSpace, top: nat, ss: seq<seq<byte>>) returns (ok: bool, sp: nat, ps: seq<nat>)
    requires space.Valid() && Stored(ss) && top % 8 == 0 && STACK_LOW + ARG_LEN * |ss| <= top <= STACK_TOP
    modifies space
    ensures space.Valid() && space.calls >= old(space.calls)
    ensures old(Usable(space)) ==> Usable(space)
    ensures !ok && old(Usable(space)) ==> !space.NeverRefused(old(space.calls))
    ensures ok ==> sp % 8 == 0 && top - ARG_LEN * |ss| <= sp <= top
    ensures ok ==> SameAbove(old(space.log), space.log, top) && Placed(space.log, ss, ps, sp)
  {
    hide SameAbove, Placed, Usable;
    sp, ps := top, [];
    ghost var log0 := space.log;
    NothingPlaced(log0, top);
    var i := 0;
    while i < |ss|
      invariant i <= |ss| && space.Valid() && space.calls >= old(space.calls)
      invariant sp % 8 == 0 && top - ARG_LEN * i <= sp <= top
      invariant old(Usable(space)) ==> Usable(space)
      invariant SameAbove(log0, space.log, top) && Placed(space.log, ss[..i], ps, sp)
    {
      var len := |ss[i]| + 1;
      ghost var log := space.log;
      var low := sp - Rounded(len);
      ok := Push(space, low, ss[i] + [0]);
      if !ok {
        return;
      }
      PlaceNext(log, low, sp, ss[i], ss[..i], ps);
      AboveTrans(log0, log, space.log, top, sp);
      assert ss[..i + 1] == ss[..i] + [ss[i]];
      sp, ps := low, ps + [low];
      i := i + 1;
    }
    assert ss[..i] == ss;
    ok := true;
  }

  lemma NothingPlaced(log: Log, top: nat)
    ensures SameAbove(log, log, top) && Placed(log, [], [], top)
  {
  }

  lemma AboveTrans(a: Log, b: Log, c: Log, hi: int, lo: int)
    requires SameAbove(a, b, hi) && SameAbove(b, c, lo) && lo <= hi
    ensures SameAbove(a, c, hi)
  {
    hide FlatMemory.LastByte;
    forall x | x >= hi ensures FlatMemory.LastByte(c, x) == FlatMemory.LastByte(a, x) {
      assert FlatMemory.LastByte(b, x) == FlatMemory.LastByte(a, x);
    }
  }

  lemma PlaceNext(log: Log, low: nat, sp: nat, s: seq<byte>, ss: seq<seq<byte>>, ps: seq<nat>)
    requires Text(s) && low + |s| + 1 <= sp <= STACK_TOP && Placed(log, ss, ps, sp)
    ensures var log' := log + [FlatMemory.Write(low, s + [0])];
      Placed(log', ss + [s], ps + [low], low) && SameAbove(log, log', sp)
  {
    hide FlatMemory.LastByte;
    var log' := log + [FlatMemory.Write(low, s + [0])];
    Wrote(log, low, s + [0]);
    assert SameAbove(log, log', sp);
    PlacedAbove(log, log', sp, low, ss, ps);
  }

  /** Writes a null word and below it the words, the first of them lowest. */
  method WriteVector(space: AddressSpace, top: nat, ps: seq<nat>) returns (ok: bool, sp: nat)
    requires space.Valid() && |ps| <= ARGS_MAX && STACK_LOW + 8 * (|ps| + 1) <= top <= STACK_TOP
    requires forall i :: 0 <= i < |ps| ==> ps[i] < Pow256(8)
    modifies space
    ensures space.Valid() && space.calls >= old(space.calls)
    ensures old(Usable(space)) ==> Usable(space)
    ensures !ok && old(Usable(space)) ==> !space.NeverRefused(old(space.calls))
    ensures ok ==> sp == top - 8 * (|ps| + 1) && SameAbove(old(space.log), space.log, top)
    ensures ok ==> WordsAt(space.log, sp, ps) && WordAt(space.log, sp + 8 * |ps|, 0)
  {
    hide SameAbove, WordAt, WordsAt, FlatMemory.LastByte, Usable, Pow256, AddressSpace.Valid;
    ghost var log0 := space.log;
    WordLimit();
    sp := top - 8;
    ok := PushWord(space, sp, 0);
    if !ok {
      return;
    }
    NoWords(space.log, sp);
    var i := |ps|;
    assert ps[i..] == [];
    while i > 0
      invariant 0 <= i <= |ps| && space.Valid() && space.calls >= old(space.calls)
      invariant sp == top - 8 * (|ps| - i + 1) && ok
      invariant old(Usable(space)) ==> Usable(space)
      invariant SameAbove(log0, space.log, top)
      invariant WordsAt(space.log, sp, ps[i..]) && WordAt(space.log, top - 8, 0)
    {
      i := i - 1;
      sp := sp - 8;
      ghost var log := space.log;
      ok := PushWord(space, sp, ps[i]);
      if !ok {
        return;
      }
      WordAbove(log, space.log, sp + 8, top - 8, 0);
      AboveTrans(log0, log, space.log, top, sp + 8);
      WordsNext(log, space.log, sp, ps[i], ps[i + 1..]);
      assert ps[i..] == [ps[i]] + ps[i + 1..];
    }
    assert ps[0..] == ps;
  }

  method PushWord(space: AddressSpace, sp: nat, v: nat) returns (ok: bool)
    requires space.Valid() && STACK_LOW <= sp && sp + 8 <= STACK_TOP && v < Pow256(8)
    modifies space
    ensures space.Valid() && space.calls >= old(space.calls)
    ensures old(Usable(space)) ==> Usable(space)
    ensures !ok && old(Usable(space)) ==> !space.NeverRefused(old(space.calls))
    ensures ok ==> WordAt(space.log, sp, v) && SameAbove(old(space.log), space.log, sp + 8)
  {
    hide SameAbove, WordAt, Usable, Bytes, Pow256, AddressSpace.Valid;
    ghost var log := space.log;
    ok := Push(space, sp, Bytes(v, 8));
    if ok {
      WordWritten(log, sp, v);
    }
  }

  /** Consecutive words from address a up. */
  ghost predicate WordsAt(log: Log, a: int, ps: seq<nat>) {
    forall i :: 0 <= i < |ps| ==> WordAt(log, a + 8 * i, ps[i])
  }

  lemma NoWords(log: Log, a: int)
    ensures WordsAt(log, a, [])
  {
  }

  lemma WordWritten(log: Log, a: int, v: nat)
    requires v < Pow256(8)
    ensures var log' := log + [FlatMemory.Write(a, Bytes(v, 8))]; WordAt(log', a, v) && SameAbove(log, log', a + 8)
  {
    NumberOfBytes(v, 8);
    Wrote(log, a, Bytes(v, 8));
  }

  lemma WordsNext(log: Log, log': Log, a: int, p: nat, ps: seq<nat>)
    requires SameAbove(log, log', a + 8) && WordsAt(log, a + 8, ps) && WordAt(log', a, p)
    ensures WordsAt(log', a, [p] + ps)
  {
    hide WordAt, SameAbove;
    forall i | 0 <= i < |ps| + 1 ensures WordAt(log', a + 8 * i, ([p] + ps)[i]) {
      if i > 0 {
        assert a + 8 * i == a + 8 + 8 * (i - 1);
        assert WordAt(log, a + 8 + 8 * (i - 1), ps[i - 1]);
        WordAbove(log, log', a + 8, a + 8 * i, ps[i - 1]);
      }
    }
  }

  /** A string cut to what an argument slot can hold. */
  function Cut(s: seq<byte>): seq<byte> { if |s| < ARG_LEN then s else s[..ARG_LEN - 1] }

  /** What the kernel uses when a process has no arguments: its image name. */
  function Arguments(argv: seq<seq<byte>>, image: seq<byte>): seq<seq<byte>> {
    if argv == [] then [Cut(image)] else argv
  }

  /** The bytes of "unknown". */
  const UNKNOWN: seq<byte> := [117, 110, 107, 110, 111, 119, 110]

  /** Copies the arguments of a process; without any, its image name stands in. */
  method CopyArguments(given: seq<Option<seq<byte>>>, image: seq<byte>) returns (st: Status, stored: seq<seq<byte>>)
    requires Text(image) && forall i :: 0 <= i < |given| && given[i].Some? ==> Text(given[i].value)
    ensures st == InvalidParameter <==> |given| > ARGS_MAX
    ensures st == InvalidParameter || (st == Success && Stored(stored) && stored != [])
    ensures given == [] ==> stored == [Cut(if image == [] then UNKNOWN else image)]
    ensures st == Success && given != [] ==> |stored| == |given|
    ensures st == Success && given != [] ==> forall i :: 0 <= i < |given| ==> stored[i] == if given[i].Some? then Cut(given[i].value) else []
  {
    if given == [] {
      return Success, [Cut(if image == [] then UNKNOWN else image)];
    }
    st, stored := CopyVector(given);
  }

  /** Copies a vector of strings, some possibly missing, into a process; what it stores can always be written to a stack. */
  method CopyVector(given: seq<Option<seq<byte>>>) returns (st: Status, stored: seq<seq<byte>>)
    requires forall i :: 0 <= i < |given| && given[i].Some? ==> Text(given[i].value)
    ensures st == InvalidParameter <==> |given| > ARGS_MAX
    ensures st == InvalidParameter || (st == Success && Stored(stored) && |stored| == |given|)
    ensures st == Success ==> forall i :: 0 <= i < |given| ==> stored[i] == if given[i].Some? then Cut(given[i].value) else []
  {
    stored := [];
    if |given| > ARGS_MAX {
      return InvalidParameter, [];
    }
    while |stored| < |given|
      invariant |stored| <= |given| && Stored(stored)
      invariant forall i :: 0 <= i < |stored| ==> stored[i] == if given[i].Some? then Cut(given[i].value) else []
    {
      var s := given[|stored|];
      stored := stored + [if s.Some? then Cut(s.value) else []];
    }
    st := Success;
  }

  /**
   Writes the initial stack. A non-zero result is a stack pointer from which the start-up code reads back exactly
   the stored arguments and environment; zero means that a page was missing or the kernel heap refused.
   */
  method WriteInitialStack(space: AddressSpace, argv: seq<seq<byte>>, envp: seq<seq<byte>>, image: seq<byte>) returns (sp: nat)
    requires space.Valid() && Stored(argv) && Stored(envp) && Text(image)
    modifies space
    ensures space.Valid() && space.calls >= old(space.calls)
    ensures sp != 0 ==> STACK_LOW <= sp < STACK_TOP - 16 && sp % 8 == 0
    ensures sp != 0 ==> Decodes(space.log, sp, Arguments(argv, image), envp)
    ensures sp != 0 ==> SameAbove(old(space.log), space.log, STACK_TOP - 16)
    ensures sp == 0 && old(Usable(space)) ==> !space.NeverRefused(old(space.calls))
    ensures old(Usable(space)) ==> Usable(space)
  {
    hide SameAbove, WordAt, WordsAt, FlatMemory.LastByte, Usable, Pow256, AddressSpace.Valid, Placed, Decodes;
    var args := Arguments(argv, image);
    var ok, ps, es;
    WordLimit();
    ghost var log0 := space.log;
    ok, sp, ps := WriteStrings(space, STACK_TOP - 16, args);
    if !ok {
      return 0;
    }
    ghost var log1, sp1 := space.log, sp;
    ok, sp, es := WriteStrings(space, sp, envp);
    if !ok {
      return 0;
    }
    ghost var log2, sp2 := space.log, sp;
    PlacedLimit(log1, args, ps, sp1);
    PlacedLimit(log2, envp, es, sp2);
    ok, sp := WriteVector(space, sp, es);
    if !ok {
      return 0;
    }
    ghost var log3, sp3 := space.log, sp;
    ok, sp := WriteVector(space, sp, ps);
    if !ok {
      return 0;
    }
    ghost var log4, sp4 := space.log, sp;
    sp := sp - 8;
    ok := PushWord(space, sp, |args|);
    if !ok {
      return 0;
    }
    Below(log0, log1, log2, log3, STACK_TOP - 16, sp1, sp2);
    Below(log0, log3, log4, space.log, STACK_TOP - 16, sp3, sp4);
    WordsAbove(log3, log4, sp3, sp3, es, 0);
    WordsAbove(log4, space.log, sp4, sp4, ps, 0);
    WordsAbove(log4, space.log, sp4, sp3, es, 0);
    PlacedAbove(log1, log2, sp1, sp2, args, ps);
    PlacedAbove(log2, log3, sp2, sp3, args, ps);
    PlacedAbove(log2, log3, sp2, sp3, envp, es);
    PlacedAbove(log3, log4, sp3, sp4, args, ps);
    PlacedAbove(log3, log4, sp3, sp4, envp, es);
    PlacedAbove(log4, space.log, sp4, sp, args, ps);
    PlacedAbove(log4, space.log, sp4, sp, envp, es);
    Assembled(space.log, sp, args, ps, envp, es);
  }

  const MEM_COMMIT: nat := 0x1000
  const STACK_BYTES: nat := STACK_TOP - STACK_LOW

  /** A fresh stack region can be written everywhere. */
  lemma FreshStackUsable(m: FlatMemory.Memory, p: int)
    requires STACK_LOW / PAGE <= p < STACK_TOP / PAGE
    ensures Reachable(FlatMemory.Apply(m, FlatMemory.Alloc(STACK_LOW / PAGE, STACK_TOP / PAGE, PAGE_READWRITE, MEM_COMMIT)), p)
  {
  }

  lemma StackPages()
    ensures STACK_LOW % PAGE == 0 && AlignUp(STACK_BYTES) == STACK_BYTES > 0 && STACK_LOW > 0
  {
  }

  /**
   Maps the stack and fills it. The region has just been mapped for reading and writing, so the writes can fail only
   when the kernel heap refuses; otherwise the start-up code reads the arguments back.
   */
  method StartStack(space: AddressSpace, argv: seq<seq<byte>>, envp: seq<seq<byte>>, image: seq<byte>) returns (st: Status, sp: nat)
    requires space.Valid() && Stored(argv) && Stored(envp) && Text(image)
    modifies space
    ensures space.Valid() && space.calls >= old(space.calls)
    ensures st == old(space.AllocStatus(STACK_LOW, STACK_BYTES))
            || (st == NoMemory && old(space.AllocStatus(STACK_LOW, STACK_BYTES)) == Success && !space.NeverRefused(old(space.calls)))
    ensures st == Success ==> STACK_LOW <= sp < STACK_TOP - 16 && sp % 8 == 0 && Decodes(space.log, sp, Arguments(argv, image), envp)
    ensures st == Success ==> Usable(space)
  {
    hide FlatMemory.Apply, FlatMemory.Replay, FlatMemory.LegalLog, Decodes, SameAbove, AlignUp, AddressSpace.AllocStatus;
    hide Layout, PagesOf, AddressSpace.Sound;
    sp := 0;
    StackPages();
    var va;
    ghost var m := space.View();
    st, va := space.AllocUser(STACK_LOW, STACK_BYTES, PAGE_READWRITE, MEM_COMMIT);
    if st != Success {
      return;
    }
    forall p | STACK_LOW / PAGE <= p < STACK_TOP / PAGE ensures space.Accessible(p, false) {
      FreshStackUsable(m, p);
    }
    sp := WriteInitialStack(space, argv, envp, image);
    if sp == 0 {
      return NoMemory, 0;
    }
  }

  lemma Below(a: Log, b: Log, c: Log, d: Log, top: int, lo: int, lower: int)
    requires SameAbove(a, b, top) && SameAbove(b, c, lo) && SameAbove(c, d, lower) && lower <= lo <= top
    ensures SameAbove(a, d, top)
  {
    hide SameAbove;
    AboveTrans(a, b, c, top, lo);
    AboveTrans(a, c, d, top, lower);
  }

  /** Words and the null word after them stay when only lower addresses are written. */
  lemma WordsAbove(log: Log, log': Log, lo: int, a: int, ps: seq<nat>, v: nat)
    requires SameAbove(log, log', lo) && WordsAt(log, a, ps) && WordAt(log, a + 8 * |ps|, v) && a >= lo
    ensures WordsAt(log', a, ps) && WordAt(log', a + 8 * |ps|, v)
  {
    hide WordAt, SameAbove;
    forall i | 0 <= i < |ps| ensures WordAt(log', a + 8 * i, ps[i]) {
      WordAbove(log, log', lo, a + 8 * i, ps[i]);
    }
    WordAbove(log, log', lo, a + 8 * |ps|, v);
  }

  lemma Assembled(log: Log, sp: nat, argv: seq<seq<byte>>, ps: seq<nat>, envp: seq<seq<byte>>, es: seq<nat>)
    requires sp > 0 && Placed(log, argv, ps, sp) && Placed(log, envp, es, sp) && WordAt(log, sp, |argv|)
    requires WordsAt(log, sp + 8, ps) && WordAt(log, sp + 8 + 8 * |ps|, 0)
    requires var e := sp + 8 + 8 * |ps| + 8; WordsAt(log, e, es) && WordAt(log, e + 8 * |es|, 0)
    ensures Decodes(log, sp, argv, envp)
  {
    hide WordAt;
    Pointers(log, sp + 8, argv, ps, sp);
    Pointers(log, sp + 8 + 8 * |ps| + 8, envp, es, sp);
  }

  lemma Pointers(log: Log, a: int, ss: seq<seq<byte>>, ps: seq<nat>, lo: nat)
    requires lo > 0 && Placed(log, ss, ps, lo) && WordsAt(log, a, ps)
    ensures VectorAt(log, a, ss)
  {
    hide WordAt, StringAt;
    forall i | 0 <= i < |ss| ensures PointerAt(log, a + 8 * i, ss[i]) {
      assert ps[i] != 0 && WordAt(log, a + 8 * i, ps[i]) && StringAt(log, ps[i], ss[i]);
    }
  }

  lemma PlacedLimit(log: Log, ss: seq<seq<byte>>, ps: seq<nat>, lo: nat)
    requires Placed(log, ss, ps, lo)
    ensures |ps| == |ss| && forall i :: 0 <= i < |ps| ==> ps[i] < STACK_TOP
  {
  }
}
