/**
 A pipe over whole runs: any number of reads and writes, started at any time, taking their rounds in any order, while
 handles are opened, duplicated, inherited and closed in any table.
 */
module PipeRuns {
  import opened Common
  import opened HandleSpace
  import opened HandleOperations
  import opened Pipes

  /** `accepted` and `delivered` remember every byte with the write it came from and the read it went to. */
  datatype System = System(
    space: Space, contents: seq<byte>, readers: seq<Reader>, writers: seq<Writer>,
    accepted: seq<(nat, byte)>, delivered: seq<(nat, byte)>)

  datatype Event =
    | Handles(op: Op)
    | StartRead(n: nat)
    | ReadMore(j: nat)
    | StartWrite(data: seq<byte>)
    | WriteMore(i: nat)

  function Tagged(i: nat, s: seq<byte>): seq<(nat, byte)> {
    if s == [] then [] else [(i, s[0])] + Tagged(i, s[1..])
  }

  function Bytes(h: seq<(nat, byte)>): seq<byte> {
    if h == [] then [] else [h[0].1] + Bytes(h[1..])
  }

  /** The bytes of one request, in order. */
  function Of(h: seq<(nat, byte)>, i: nat): seq<byte> {
    if h == [] then [] else First(h, i) + Of(h[1..], i)
  }

  function First(h: seq<(nat, byte)>, i: nat): seq<byte>
    requires h != []
  {
    if h[0].0 == i then [h[0].1] else []
  }

  /** The pipe behind object o is there. */
  predicate PipeLive(sys: System, o: nat) {
    o in sys.space.objs && sys.space.objs[o].ends.Some?
  }

  ghost predicate Enabled(sys: System, o: nat, e: Event) {
    match e
    case Handles(op) => HandleOperations.Enabled(sys.space, op)
    case StartRead(_) => true
    case StartWrite(_) => true
    case ReadMore(j) => j < |sys.readers| && sys.readers[j].done == None && PipeLive(sys, o)
    case WriteMore(i) => i < |sys.writers| && !sys.writers[i].done && PipeLive(sys, o)
  }

  function ReadStep(sys: System, j: nat, eof: bool): System
    requires j < |sys.readers| && |sys.readers[j].got| <= sys.readers[j].n
  {
    var rd := sys.readers[j];
    var (c, rd', sleeps) := ReadTurn(sys.contents, rd, eof);
    sys.(contents := c, readers := sys.readers[j := rd'], delivered := sys.delivered + Tagged(j, rd'.got[|rd.got|..]))
  }

  function WriteStep(sys: System, i: nat): System
    requires i < |sys.writers| && sys.writers[i].put <= |sys.writers[i].data| && |sys.contents| <= CAP
  {
    var wr := sys.writers[i];
    var (c, wr', sleeps) := WriteTurn(sys.contents, wr);
    sys.(contents := c, writers := sys.writers[i := wr'], accepted := sys.accepted + Tagged(i, wr.data[wr.put..wr'.put]))
  }

  /** A write has put in a prefix of its data, all of it once done. */
  ghost predicate WriterOk(sys: System, i: nat)
    requires i < |sys.writers|
  {
    var wr := sys.writers[i];
    && wr.put <= |wr.data| && Of(sys.accepted, i) == wr.data[..wr.put]
    && (wr.done ==> wr.put == |wr.data|)
  }

  /** A read has exactly the bytes that were delivered to it, and says at its end whether there were any. */
  ghost predicate ReaderOk(sys: System, j: nat)
    requires j < |sys.readers|
  {
    var rd := sys.readers[j];
    && |rd.got| <= rd.n && Of(sys.delivered, j) == rd.got
    && (rd.done.Some? ==> rd.done == Some(if rd.got == [] then EndOfFile else Success))
  }

  /**
   Bytes leave in the order in which they came, none is lost or made up, and each request's own bytes are in order.
   */
  ghost predicate InOrder(sys: System) {
    && HandleSpace.Valid(sys.space) && |sys.contents| <= CAP
    && Bytes(sys.accepted) == Bytes(sys.delivered) + sys.contents
    && (forall i: nat :: i < |sys.writers| ==> WriterOk(sys, i))
    && (forall j: nat :: j < |sys.readers| ==> ReaderOk(sys, j))
    && (forall i: nat :: i >= |sys.writers| ==> Of(sys.accepted, i) == [])
    && (forall j: nat :: j >= |sys.readers| ==> Of(sys.delivered, j) == [])
  }

  ghost function Step(sys: System, o: nat, e: Event): System
    requires InOrder(sys) && Enabled(sys, o, e)
  {
    match e
    case Handles(op) => sys.(space := HandleOperations.Step(sys.space, op))
    case StartRead(n) => sys.(readers := sys.readers + [Reader(n, [], None)])
    case StartWrite(data) => sys.(writers := sys.writers + [Writer(data, 0, false)])
    case ReadMore(j) =>
      assert ReaderOk(sys, j);
      ReadStep(sys, j, sys.space.objs[o].ends.value.closed)
    case WriteMore(i) =>
      assert WriterOk(sys, i);
      WriteStep(sys, i)
  }

  /* ---- histories ---- */

  lemma OfFirst(h: seq<(nat, byte)>, i: nat)
    requires h != []
    ensures Of(h, i) == First(h, i) + Of(h[1..], i)
  {
  }

  lemma Regroup(a: seq<byte>, b: seq<byte>, c: seq<byte>)
    ensures a + (b + c) == (a + b) + c
  {
  }

  lemma {:induction false} OfAppend(h: seq<(nat, byte)>, g: seq<(nat, byte)>, i: nat)
    ensures Of(h + g, i) == Of(h, i) + Of(g, i)
  {
    if h == [] {
      assert h + g == g;
    } else {
      assert (h + g)[1..] == h[1..] + g;
      OfAppend(h[1..], g, i);
      OfFirst(h, i);
      OfFirst(h + g, i);
      Regroup(First(h, i), Of(h[1..], i), Of(g, i));
    }
  }

  lemma {:induction false} BytesAppend(h: seq<(nat, byte)>, g: seq<(nat, byte)>)
    ensures Bytes(h + g) == Bytes(h) + Bytes(g)
  {
    if h == [] {
      assert h + g == g;
    } else {
      assert (h + g)[1..] == h[1..] + g;
      BytesAppend(h[1..], g);
    }
  }

  lemma {:induction false} OfTagged(i: nat, s: seq<byte>, j: nat)
    ensures Of(Tagged(i, s), j) == if i == j then s else []
    ensures Bytes(Tagged(i, s)) == s
  {
    if s != [] {
      OfTagged(i, s[1..], j);
      assert Tagged(i, s)[1..] == Tagged(i, s[1..]);
    }
  }

  lemma Recorded(h: seq<(nat, byte)>, i: nat, s: seq<byte>, j: nat)
    ensures Of(h + Tagged(i, s), j) == if i == j then Of(h, j) + s else Of(h, j)
    ensures Bytes(h + Tagged(i, s)) == Bytes(h) + s
  {
    OfAppend(h, Tagged(i, s), j);
    BytesAppend(h, Tagged(i, s));
    OfTagged(i, s, j);
  }

  /* ---- steps ---- */

  lemma ReadInOrder(sys: System, j: nat, eof: bool)
    requires InOrder(sys) && j < |sys.readers| && sys.readers[j].done == None
    ensures ReaderOk(sys, j) && InOrder(ReadStep(sys, j, eof))
  {
    hide Of, Bytes, Tagged, HandleSpace.Valid, ReadTurn;
    assert ReaderOk(sys, j);
    var rd := sys.readers[j];
    ReadTurnShape(sys.contents, rd, eof);
    var (c, rd', sleeps) := ReadTurn(sys.contents, rd, eof);
    var r := ReadStep(sys, j, eof);
    var g := rd'.got[|rd.got|..];
    Recorded(sys.delivered, j, g, j);
    Conserved(Bytes(sys.delivered), g, c);
    forall k: nat | k < |r.readers| ensures ReaderOk(r, k) {
      assert ReaderOk(sys, k);
      Recorded(sys.delivered, j, g, k);
    }
    forall k: nat | k >= |r.readers| ensures Of(r.delivered, k) == [] {
      Recorded(sys.delivered, j, g, k);
    }
    forall i: nat | i < |r.writers| ensures WriterOk(r, i) {
      assert WriterOk(sys, i);
    }
  }

  /** What a round takes from the front of the pipe goes to the end of what the read has. */
  lemma ReadTurnShape(c: seq<byte>, rd: Reader, eof: bool)
    requires |rd.got| <= rd.n && rd.done == None
    ensures var (c', rd', sleeps) := ReadTurn(c, rd, eof);
      && |rd.got| <= |rd'.got| <= rd'.n && rd'.got == rd.got + rd'.got[|rd.got|..] && c == rd'.got[|rd.got|..] + c'
      && (rd'.done.Some? ==> rd'.done == Some(if rd'.got == [] then EndOfFile else Success))
  {
  }

  lemma Conserved(d: seq<byte>, g: seq<byte>, c: seq<byte>)
    ensures d + (g + c) == (d + g) + c
  {
  }

  lemma WriteTurnShape(c: seq<byte>, wr: Writer)
    requires |c| <= CAP && wr.put <= |wr.data| && !wr.done
    ensures var (c', wr', sleeps) := WriteTurn(c, wr);
      && wr'.data == wr.data && wr.put <= wr'.put <= |wr.data| && |c'| <= CAP && c' == c + wr.data[wr.put..wr'.put]
      && wr.data[..wr'.put] == wr.data[..wr.put] + wr.data[wr.put..wr'.put] && (wr'.done ==> wr'.put == |wr.data|)
  {
  }

  lemma WriteInOrder(sys: System, i: nat)
    requires InOrder(sys) && i < |sys.writers| && !sys.writers[i].done
    ensures WriterOk(sys, i) && InOrder(WriteStep(sys, i))
  {
    hide Of, Bytes, Tagged, HandleSpace.Valid, WriteTurn;
    assert WriterOk(sys, i);
    var wr := sys.writers[i];
    WriteTurnShape(sys.contents, wr);
    var (c, wr', sleeps) := WriteTurn(sys.contents, wr);
    var r := WriteStep(sys, i);
    var g := wr.data[wr.put..wr'.put];
    Recorded(sys.accepted, i, g, i);
    Conserved(Bytes(sys.delivered), sys.contents, g);
    forall k: nat | k < |r.writers| ensures WriterOk(r, k) {
      assert WriterOk(sys, k);
      Recorded(sys.accepted, i, g, k);
    }
    forall k: nat | k >= |r.writers| ensures Of(r.accepted, k) == [] {
      Recorded(sys.accepted, i, g, k);
    }
    forall j: nat | j < |r.readers| ensures ReaderOk(r, j) {
      assert ReaderOk(sys, j);
    }
  }

  lemma StepInOrder(sys: System, o: nat, e: Event)
    requires InOrder(sys) && Enabled(sys, o, e)
    ensures InOrder(Step(sys, o, e))
  {
    match e
    case Handles(op) => SpaceStep(sys, op);
    case StartRead(n) => NewReader(sys, n);
    case StartWrite(data) => NewWriter(sys, data);
    case ReadMore(j) => ReadInOrder(sys, j, sys.space.objs[o].ends.value.closed);
    case WriteMore(i) => WriteInOrder(sys, i);
  }

  lemma SpaceStep(sys: System, op: Op)
    requires InOrder(sys) && HandleOperations.Enabled(sys.space, op)
    ensures InOrder(sys.(space := HandleOperations.Step(sys.space, op)))
  {
    hide Of, Bytes, HandleSpace.Valid, HandleOperations.Step;
    var r := sys.(space := HandleOperations.Step(sys.space, op));
    forall i: nat | i < |r.writers| ensures WriterOk(r, i) {
      assert WriterOk(sys, i);
    }
    forall j: nat | j < |r.readers| ensures ReaderOk(r, j) {
      assert ReaderOk(sys, j);
    }
  }

  lemma NewReader(sys: System, n: nat)
    requires InOrder(sys)
    ensures InOrder(sys.(readers := sys.readers + [Reader(n, [], None)]))
  {
    hide Of, Bytes, HandleSpace.Valid;
    var r := sys.(readers := sys.readers + [Reader(n, [], None)]);
    forall i: nat | i < |r.writers| ensures WriterOk(r, i) {
      assert WriterOk(sys, i);
    }
    forall j: nat | j < |r.readers| ensures ReaderOk(r, j) {
      assert j < |sys.readers| ==> ReaderOk(sys, j);
    }
  }

  lemma NewWriter(sys: System, data: seq<byte>)
    requires InOrder(sys)
    ensures InOrder(sys.(writers := sys.writers + [Writer(data, 0, false)]))
  {
    hide Of, Bytes, HandleSpace.Valid;
    var r := sys.(writers := sys.writers + [Writer(data, 0, false)]);
    forall i: nat | i < |r.writers| ensures WriterOk(r, i) {
      assert i < |sys.writers| ==> WriterOk(sys, i);
    }
    forall j: nat | j < |r.readers| ensures ReaderOk(r, j) {
      assert ReaderOk(sys, j);
    }
  }

  /* ---- runs ---- */

  ghost predicate Legal(sys: System, o: nat, es: seq<Event>)
    requires InOrder(sys)
    decreases |es|
  {
    es == [] ||
    (Enabled(sys, o, es[0]) &&
     (StepInOrder(sys, o, es[0]); Legal(Step(sys, o, es[0]), o, es[1..])))
  }

  ghost function Run(sys: System, o: nat, es: seq<Event>): (r: System)
    requires InOrder(sys) && Legal(sys, o, es)
    ensures InOrder(r)
    decreases |es|
  {
    if es == [] then sys
    else
      StepInOrder(sys, o, es[0]);
      Run(Step(sys, o, es[0]), o, es[1..])
  }

  /** A new pipe that nobody reads or writes yet. */
  ghost function Start(space: Space): (sys: System)
    requires HandleSpace.Valid(space)
    ensures InOrder(sys)
  {
    System(space, [], [], [], [], [])
  }

  /** Over every run: first in, first out, with each write's and each read's own bytes in order. */
  lemma EveryRun(space: Space, o: nat, es: seq<Event>)
    requires HandleSpace.Valid(space) && Legal(Start(space), o, es)
    ensures var sys := Run(Start(space), o, es);
      && Bytes(sys.delivered) <= Bytes(sys.accepted) && |Bytes(sys.accepted)| - |Bytes(sys.delivered)| <= CAP
      && (forall i: nat :: i < |sys.writers| ==>
        sys.writers[i].put <= |sys.writers[i].data| && Of(sys.accepted, i) == sys.writers[i].data[..sys.writers[i].put])
      && (forall j: nat :: j < |sys.readers| ==> Of(sys.delivered, j) == sys.readers[j].got)
  {
    hide Of, Bytes, HandleSpace.Valid, Legal;
    var sys := Run(Start(space), o, es);
    forall i: nat | i < |sys.writers|
      ensures sys.writers[i].put <= |sys.writers[i].data| && Of(sys.accepted, i) == sys.writers[i].data[..sys.writers[i].put]
    {
      assert WriterOk(sys, i);
    }
    forall j: nat | j < |sys.readers| ensures Of(sys.delivered, j) == sys.readers[j].got {
      assert ReaderOk(sys, j);
    }
  }

  /**
   A round that ends a read for at least one byte with end of file finds no handle in any table that can write to the
   pipe, and every byte accepted so far delivered.
   */
  lemma EndOfFileMeansDrained(sys: System, o: nat, j: nat)
    requires InOrder(sys) && Enabled(sys, o, ReadMore(j)) && sys.readers[j].n > 0
    requires Step(sys, o, ReadMore(j)).readers[j].done == Some(EndOfFile)
    ensures Naming(sys.space.tables, o, With(FILE_WRITE_DATA)) == {} && Bytes(sys.accepted) == Bytes(sys.delivered)
  {
    hide Of, Bytes, Naming, Tagged, HandleSpace.Valid;
    assert ReaderOk(sys, j);
    ClosedMeansNoWriter(sys.space, o);
  }
}
