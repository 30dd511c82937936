/**
 Byte pipes: a 4096-byte ring shared by any number of readers and writers, each of which works through its
 request in rounds and may sleep between them.
 */
module Pipes {
  import opened Common
  import opened HandleSpace
  import opened HandleOperations
  import opened HandleTables

  const CAP: nat := 4096

  /** A read in progress: what it asked for, what it has, and how it ended. */
  datatype Reader = Reader(n: nat, got: seq<byte>, done: Option<Status>)

  /** A write in progress. */
  datatype Writer = Writer(data: seq<byte>, put: nat, done: bool)

  function Min(a: nat, b: nat): nat { if a <= b then a else b }

  /* ---- one round, on the bytes in the pipe ---- */

  /** One round of a read. `eof` is whether the write side is closed; the reader sleeps when nothing can be done. */
  function ReadTurn(c: seq<byte>, rd: Reader, eof: bool): (seq<byte>, Reader, bool)
    requires |rd.got| <= rd.n
  {
    if |rd.got| == rd.n || (c == [] && (rd.got != [] || eof)) then
      (c, rd.(done := Some(if rd.got == [] then EndOfFile else Success)), false)
    else if c == [] then (c, rd, true)
    else
      var take := Min(rd.n - |rd.got|, |c|);
      (c[take..], rd.(got := rd.got + c[..take]), false)
  }

  /** One round of a write. The writer sleeps when the pipe is full. */
  function WriteTurn(c: seq<byte>, wr: Writer): (seq<byte>, Writer, bool)
    requires |c| <= CAP && wr.put <= |wr.data|
  {
    if wr.put == |wr.data| then (c, wr.(done := true), false)
    else if |c| == CAP then (c, wr, true)
    else
      var take := Min(|wr.data| - wr.put, CAP - |c|);
      (c + wr.data[wr.put..wr.put + take], wr.(put := wr.put + take), false)
  }

  /* ---- the ring ---- */

  /** The place of the i-th byte of a ring that starts at r. */
  function At(r: nat, i: nat): nat { (r + i) % CAP }

  ghost function Ring(buf: seq<byte>, r: nat, used: nat): (c: seq<byte>)
    requires |buf| == CAP
    ensures |c| == used
  {
    seq(used, i requires 0 <= i < used => buf[At(r, i)])
  }

  lemma RingPop(buf: seq<byte>, r: nat, used: nat)
    requires |buf| == CAP && r < CAP && 0 < used <= CAP
    ensures Ring(buf, r, used) == [buf[r]] + Ring(buf, (r + 1) % CAP, used - 1)
  {
    var rest := Ring(buf, (r + 1) % CAP, used - 1);
    forall i | 0 <= i < used - 1 ensures rest[i] == Ring(buf, r, used)[i + 1] {
      assert At(r, i + 1) == At((r + 1) % CAP, i);
    }
  }

  lemma RingPush(buf: seq<byte>, r: nat, used: nat, b: byte)
    requires |buf| == CAP && r < CAP && used < CAP
    ensures Ring(buf[(r + used) % CAP := b], r, used + 1) == Ring(buf, r, used) + [b]
  {
    forall i: nat | i < used ensures At(r, i) != At(r, used) {
      Apart(r, i, used);
    }
  }

  lemma Apart(r: nat, i: nat, j: nat)
    requires i < j < CAP && r < CAP
    ensures At(r, i) != At(r, j)
  {
  }

  class Pipe {
    const buf: array<byte>
    var r: nat
    var w: nat
    var used: nat
    ghost var accepted: seq<byte>
    ghost var delivered: seq<byte>

    ghost function Contents(): seq<byte>
      requires buf.Length == CAP
      reads this, buf
    {
      Ring(buf[..], r, used)
    }

    /** What writers put in is what readers took out, followed by what is in the ring. */
    ghost predicate Valid()
      reads this, buf
    {
      && buf.Length == CAP && r < CAP && used <= CAP && w == (r + used) % CAP
      && accepted == delivered + Contents()
    }

    constructor ()
      ensures Valid() && fresh(buf) && accepted == [] && delivered == []
    {
      buf := new byte[CAP];
      r, w, used := 0, 0, 0;
      accepted, delivered := [], [];
    }

    method TakeByte() returns (b: byte)
      requires Valid() && used > 0
      modifies `r, `used, `delivered
      ensures Valid() && used == old(used) - 1 && delivered == old(delivered) + [b]
    {
      RingPop(buf[..], r, used);
      b := buf[r];
      r := (r + 1) % CAP;
      used := used - 1;
      delivered := delivered + [b];
      assert (r + used) % CAP == w;
      assert accepted == old(delivered) + ([b] + Contents());
    }

    method PutByte(b: byte)
      requires Valid() && used < CAP
      modifies buf, `w, `used, `accepted
      ensures Valid() && used == old(used) + 1 && accepted == old(accepted) + [b]
    {
      RingPush(buf[..], r, used, b);
      ghost var was := buf[..];
      buf[w] := b;
      assert buf[..] == was[w := b];
      w := (w + 1) % CAP;
      used := used + 1;
      accepted := accepted + [b];
    }

    /** One round of a read. `eof` is whether the write side is closed; the reader sleeps when nothing can be done. */
    method ReadRound(rd: Reader, eof: bool) returns (rd': Reader, sleeps: bool)
      requires Valid() && rd.done == None && |rd.got| <= rd.n
      modifies `r, `used, `delivered
      ensures Valid() && rd'.n == rd.n && |rd'.got| <= rd.n
      ensures rd.got <= rd'.got && delivered == old(delivered) + rd'.got[|rd.got|..]
      ensures rd'.done == Some(EndOfFile) <==> rd'.done.Some? && rd'.got == []
      ensures rd'.done.Some? ==> rd'.done in {Some(Success), Some(EndOfFile)} && rd' == rd.(done := rd'.done) && used == old(used)
      ensures rd'.done == Some(EndOfFile) ==> rd.n == 0 || (eof && used == 0 && accepted == delivered)
      ensures sleeps <==> rd.got == [] && rd.n > 0 && old(used) == 0 && !eof
      ensures sleeps ==> rd' == rd
      ensures !sleeps && rd'.done == None ==> |rd'.got| == |rd.got| + Min(rd.n - |rd.got|, old(used)) > |rd.got|
      ensures (Contents(), rd', sleeps) == ReadTurn(old(Contents()), rd, eof)
    {
      sleeps := false;
      rd' := rd;
      if |rd.got| == rd.n || (used == 0 && (rd.got != [] || eof)) {
        rd' := rd.(done := Some(if rd.got == [] then EndOfFile else Success));
        return;
      }
      if used == 0 {
        sleeps := true;
        return;
      }
      var take := Min(rd.n - |rd.got|, used);
      var i := 0;
      while i < take
        invariant i <= take && Valid() && used == old(used) - i
        invariant rd' == rd.(got := rd'.got) && |rd'.got| == |rd.got| + i && rd.got <= rd'.got
        invariant delivered == old(delivered) + rd'.got[|rd.got|..]
      {
        var b := TakeByte();
        assert (rd'.got + [b])[|rd.got|..] == rd'.got[|rd.got|..] + [b];
        rd' := rd'.(got := rd'.got + [b]);
        i := i + 1;
      }
      TakenFrom(old(delivered), old(Contents()), rd'.got[|rd.got|..], Contents());
      assert rd'.got == rd.got + rd'.got[|rd.got|..];
    }

    /** One round of a write. The writer sleeps when the ring is full. */
    method WriteRound(wr: Writer) returns (wr': Writer, sleeps: bool)
      requires Valid() && !wr.done && wr.put <= |wr.data|
      modifies buf, `w, `used, `accepted
      ensures Valid() && wr'.data == wr.data && wr.put <= wr'.put <= |wr.data|
      ensures accepted == old(accepted) + wr.data[wr.put..wr'.put]
      ensures wr'.done ==> wr' == wr.(done := true) && wr.put == |wr.data|
      ensures sleeps <==> wr.put < |wr.data| && old(used) == CAP
      ensures sleeps ==> wr' == wr
      ensures !sleeps && !wr'.done ==> wr'.put == wr.put + Min(|wr.data| - wr.put, CAP - old(used)) > wr.put
      ensures (Contents(), wr', sleeps) == WriteTurn(old(Contents()), wr)
    {
      sleeps := false;
      wr' := wr;
      if wr.put == |wr.data| {
        wr' := wr.(done := true);
        return;
      }
      if used == CAP {
        sleeps := true;
        return;
      }
      var take := Min(|wr.data| - wr.put, CAP - used);
      var i := 0;
      while i < take
        invariant i <= take && Valid() && used == old(used) + i
        invariant wr' == wr.(put := wr.put + i)
        invariant accepted == old(accepted) + wr.data[wr.put..wr.put + i]
      {
        PutByte(wr.data[wr'.put]);
        assert wr.data[wr.put..wr.put + i + 1] == wr.data[wr.put..wr.put + i] + [wr.data[wr.put + i]];
        wr' := wr'.(put := wr'.put + 1);
        i := i + 1;
      }
      AddedTo(delivered, old(Contents()), wr.data[wr.put..wr.put + take], Contents());
    }
  }

  lemma TakenFrom(d: seq<byte>, c: seq<byte>, g: seq<byte>, c': seq<byte>)
    requires d + c == (d + g) + c'
    ensures |g| <= |c| && g == c[..|g|] && c' == c[|g|..]
  {
    assert c == (d + c)[|d|..] && g + c' == ((d + g) + c')[|d|..];
  }

  lemma AddedTo(d: seq<byte>, c: seq<byte>, b: seq<byte>, c': seq<byte>)
    requires (d + c) + b == d + c'
    ensures c' == c + b
  {
    assert c' == (d + c')[|d|..] && c + b == ((d + c) + b)[|d|..];
  }

  /**
   A round of a read on the pipe behind an object. End of file is reported to a request for at least one byte
   only when no handle in any table can write to the pipe and every byte that was written has been delivered.
   */
  method ReadPipe(m: ObjectManager, o: nat, p: Pipe, rd: Reader) returns (rd': Reader, sleeps: bool)
    requires HandleSpace.Valid(m.St()) && o in m.objs && m.objs[o].ends.Some? && p.Valid()
    requires rd.done == None && |rd.got| <= rd.n
    modifies p`r, p`used, p`delivered
    ensures p.Valid() && rd'.n == rd.n && rd.got <= rd'.got && |rd'.got| <= rd.n
    ensures p.delivered == old(p.delivered) + rd'.got[|rd.got|..]
    ensures rd'.done == Some(EndOfFile) && rd.n > 0 ==>
      Naming(m.tables, o, With(FILE_WRITE_DATA)) == {} && p.accepted == p.delivered
  {
    hide HandleSpace.Valid, Naming;
    ClosedMeansNoWriter(m.St(), o);
    rd', sleeps := p.ReadRound(rd, m.objs[o].ends.value.closed);
  }
}
