/**
 The specification of user memory: a partial map from page number to attributes and bytes, and the
 history of calls that built it. Nothing here knows about VADs, shadow arrays or the heap.
 */
module FlatMemory {
  import opened Common

  datatype PageView = PageView(prot: nat, kind: nat, committed: nat, bytes: seq<byte>)

  type Memory = map<int, PageView>

  function ZeroPage(): seq<byte> {
    seq(PAGE, _ => 0)
  }

  datatype Event =
    | Alloc(lo: int, hi: int, prot: nat, kind: nat)
    | Free(lo: int, hi: int)
    | Protect(lo: int, hi: int, prot: nat)
    | Write(va: int, data: seq<byte>)

  function Overlay(bytes: seq<byte>, at: int, va: int, data: seq<byte>): (r: seq<byte>)
    ensures |r| == |bytes|
  {
    seq(|bytes|, k requires 0 <= k < |bytes| => if va <= at + k < va + |data| then data[at + k - va] else bytes[k])
  }

  ghost function Apply(m: Memory, e: Event): Memory {
    match e
    case Alloc(lo, hi, prot, kind) =>
      m + map p: int | lo <= p < hi && Within(p, lo, hi) :: PageView(prot, kind, 1, ZeroPage())
    case Free(lo, hi) =>
      map p | p in m && !(lo <= p < hi) :: m[p]
    case Protect(lo, hi, prot) =>
      map p | p in m :: if lo <= p < hi then m[p].(prot := prot) else m[p]
    case Write(va, data) =>
      map p | p in m :: m[p].(bytes := Overlay(m[p].bytes, p * PAGE, va, data))
  }

  ghost predicate Legal(m: Memory, e: Event) {
    match e
    case Alloc(lo, hi, _, _) => forall p :: lo <= p < hi ==> p !in m
    case Free(lo, hi) => forall p :: lo <= p < hi ==> p in m
    case Protect(lo, hi, _) => forall p :: lo <= p < hi ==> p in m
    case Write(va, data) => forall p :: va - PAGE < p * PAGE < va + |data| ==> p in m
  }

  ghost function Replay(log: seq<Event>): Memory {
    if log == [] then map[] else Apply(Replay(log[..|log| - 1]), log[|log| - 1])
  }

  ghost predicate LegalLog(log: seq<Event>) {
    forall k :: 0 <= k < |log| ==> Legal(Replay(log[..k]), log[k])
  }

  lemma ReplayAppend(log: seq<Event>, e: Event)
    requires LegalLog(log) && Legal(Replay(log), e)
    ensures LegalLog(log + [e])
    ensures Replay(log + [e]) == Apply(Replay(log), e)
  {
    var longer := log + [e];
    assert longer[..|log|] == log;
    forall k | 0 <= k < |longer| ensures Legal(Replay(longer[..k]), longer[k]) {
      if k < |log| {
        assert longer[..k] == log[..k];
      }
    }
  }

  ghost predicate PageSized(m: Memory) {
    forall p :: p in m ==> |m[p].bytes| == PAGE
  }

  lemma {:induction false} ReplayPageSized(log: seq<Event>)
    ensures PageSized(Replay(log))
  {
    if log != [] {
      ReplayPageSized(log[..|log| - 1]);
    }
  }

  /** The byte a read of address `a` delivers. */
  ghost function ByteAt(m: Memory, a: int): Option<byte> {
    if a / PAGE in m && |m[a / PAGE].bytes| == PAGE then Some(m[a / PAGE].bytes[a % PAGE]) else None
  }

  /**
   What the history alone says about address `a`: the byte of the latest write over it, zero if its
   page was allocated after that, and nothing if the page was freed since.
   */
  ghost function LastByte(log: seq<Event>, a: int): Option<byte> {
    if log == [] then None
    else
      match log[|log| - 1]
      case Alloc(lo, hi, _, _) => if lo <= a / PAGE < hi then Some(0) else LastByte(log[..|log| - 1], a)
      case Free(lo, hi) => if lo <= a / PAGE < hi then None else LastByte(log[..|log| - 1], a)
      case Protect(_, _, _) => LastByte(log[..|log| - 1], a)
      case Write(va, data) => if va <= a < va + |data| then Some(data[a - va]) else LastByte(log[..|log| - 1], a)
  }

  /** The protection of page `p` is that of the latest alloc or protect over it. */
  ghost function LastProt(log: seq<Event>, p: int): Option<nat> {
    if log == [] then None
    else
      match log[|log| - 1]
      case Alloc(lo, hi, prot, _) => if lo <= p < hi then Some(prot) else LastProt(log[..|log| - 1], p)
      case Free(lo, hi) => if lo <= p < hi then None else LastProt(log[..|log| - 1], p)
      case Protect(lo, hi, prot) => if lo <= p < hi then Some(prot) else LastProt(log[..|log| - 1], p)
      case Write(_, _) => LastProt(log[..|log| - 1], p)
  }

  lemma ApplyWriteByte(m: Memory, va: int, data: seq<byte>, a: int)
    requires PageSized(m) && (va <= a < va + |data| ==> a / PAGE in m)
    ensures ByteAt(Apply(m, Write(va, data)), a)
            == if va <= a < va + |data| then Some(data[a - va]) else ByteAt(m, a)
  {
    var p := a / PAGE;
    assert p * PAGE + a % PAGE == a;
    if p in m {
      var o := Overlay(m[p].bytes, p * PAGE, va, data);
      assert o[a % PAGE] == if va <= a < va + |data| then data[a - va] else m[p].bytes[a % PAGE];
    }
  }

  lemma ApplyOtherByte(m: Memory, e: Event, a: int)
    requires PageSized(m) && !e.Write?
    ensures ByteAt(Apply(m, e), a) ==
            if e.Alloc? && e.lo <= a / PAGE < e.hi then Some(0)
            else if e.Free? && e.lo <= a / PAGE < e.hi then None
            else ByteAt(m, a)
  {
  }

  lemma ApplyProt(m: Memory, e: Event, p: int)
    requires Legal(m, e)
    ensures p in Apply(m, e) <==> (e.Alloc? && e.lo <= p < e.hi) || (p in m && !(e.Free? && e.lo <= p < e.hi))
    ensures p in Apply(m, e) ==> Apply(m, e)[p].prot
                                 == if (e.Alloc? || e.Protect?) && e.lo <= p < e.hi then e.prot else m[p].prot
  {
  }

  /**
   Demand-zero memory, over every history: the bytes kept page by page are exactly what the history
   of calls says, however the pages were split, joined, protected and reused in between.
   */
  lemma {:induction false} ReadsLastWrite(log: seq<Event>, a: int)
    requires LegalLog(log)
    ensures ByteAt(Replay(log), a) == LastByte(log, a)
    ensures (if a / PAGE in Replay(log) then Some(Replay(log)[a / PAGE].prot) else None) == LastProt(log, a / PAGE)
  {
    if log != [] {
      var before, e := log[..|log| - 1], log[|log| - 1];
      forall k | 0 <= k < |before| ensures Legal(Replay(before[..k]), before[k]) {
        assert before[..k] == log[..k];
      }
      ReadsLastWrite(before, a);
      ReplayPageSized(before);
      assert Legal(Replay(before), e);
      ApplyProt(Replay(before), e, a / PAGE);
      if e.Write? {
        ApplyWriteByte(Replay(before), e.va, e.data, a);
      } else {
        ApplyOtherByte(Replay(before), e, a);
      }
    }
  }

  /** A write done in two pieces is the write of both. */
  lemma WriteInPieces(m: Memory, va: int, data: seq<byte>, c: int)
    requires 0 <= c <= |data|
    ensures Apply(Apply(m, Write(va, data[..c])), Write(va + c, data[c..])) == Apply(m, Write(va, data))
  {
    var once, twice := Apply(m, Write(va, data)), Apply(Apply(m, Write(va, data[..c])), Write(va + c, data[c..]));
    forall p | p in m ensures once[p] == twice[p] {
      assert once[p].bytes == twice[p].bytes;
    }
  }

  lemma EmptyWrite(m: Memory, va: int)
    ensures Apply(m, Write(va, [])) == m
  {
    forall p | p in m ensures Apply(m, Write(va, []))[p] == m[p] {
      assert Overlay(m[p].bytes, p * PAGE, va, []) == m[p].bytes;
    }
  }
}
