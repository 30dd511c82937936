/**
 The object manager as it runs: tables scanned and edited slot by slot.
 */
module HandleTables {
  import opened Common
  import opened HandleSpace
  import opened HandleOperations

  class ObjectManager {
    var tables: seq<Table>
    var objs: map<nat, Object>
    var next: nat
    ghost var refs: map<nat, nat>

    ghost function St(): Space
      reads this
    {
      Space(tables, objs, refs, next)
    }

    constructor ()
      ensures St() == Empty()
    {
      tables, objs, next, refs := [], map[], 0, map[];
    }

    method ObReference(o: nat)
      requires o in objs
      modifies `objs, `refs
      ensures St() == Reference(old(St()), o)
    {
      objs := objs[o := objs[o].(pointers := objs[o].pointers + 1)];
      refs := refs[o := Refs(St(), o) + 1];
    }

    method ObDereference(o: nat)
      requires o in objs && Refs(St(), o) > 0
      modifies `objs, `refs
      ensures St() == Dereference(old(St()), o)
    {
      refs := refs[o := Refs(St(), o) - 1];
      Release(o);
    }

    /** Deletes the object with its last reference. */
    method Release(o: nat)
      requires o in objs
      modifies `objs
      ensures St() == DropPointer(old(St()), o)
    {
      var was := objs[o].pointers;
      objs := objs[o := objs[o].(pointers := if was > 0 then was - 1 else 0)];
      if was == 1 && objs[o].handles == 0 && !objs[o].permanent {
        objs := objs - {o};
        assert objs == old(objs) - {o};
      }
    }

    method SetSlot(t: nat, i: nat, sl: Slot)
      requires t < |tables| && i < SLOTS
      modifies `tables
      ensures St() == PutSlot(old(St()), t, i, sl)
    {
      tables := tables[t := tables[t][i := sl]];
    }

    method FindEmpty(t: nat) returns (r: Option<nat>)
      requires t < |tables|
      ensures r == FirstEmpty(tables[t], 1)
    {
      var i := 1;
      while i < SLOTS && tables[t][i].target.Some?
        invariant 1 <= i <= SLOTS && FirstEmpty(tables[t], 1) == FirstEmpty(tables[t], i)
      {
        i := i + 1;
      }
      r := if i == SLOTS then None else Some(i);
    }

    method InsertEx(t: nat, o: nat, access: bv32, inherit: bool, protect: bool) returns (out: Option<nat>)
      requires Valid(St()) && t < |tables| && o in objs
      modifies `tables, `objs
      ensures (St(), out) == Insert(old(St()), t, o, access, inherit, protect)
    {
      hide Valid, MapGeneric, Bump, Later, OpenEnd, FirstEmpty, Value;
      var a := MapGeneric(objs[o].generic, access);
      var free := FindEmpty(t);
      if free == None {
        return None;
      }
      var i := free.value;
      var x := objs[o];
      objs := objs[o := x.(pointers := x.pointers + 1, handles := x.handles + 1)];
      var sl := Filled(tables[t][i], o, a, inherit, protect);
      out := Some(Value(i, sl.generation));
      SetSlot(t, i, sl);
      if objs[o].ends.Some? {
        objs := objs[o := objs[o].(ends := Some(OpenEnd(objs[o].ends.value, a)))];
      }
      assert objs == old(objs)[o := objs[o]];
    }

    method Find(t: nat, h: nat) returns (r: Option<nat>)
      requires t < |tables|
      ensures r == Resolve(tables[t], h)
    {
      hide Gen;
      if h == 0 || h % 4 != 0 {
        return None;
      }
      var i := Index(h);
      if i == 0 || i >= SLOTS {
        return None;
      }
      r := if tables[t][i].target == None || tables[t][i].generation != Gen(h) then None else Some(i);
    }

    method LookupEx(t: nat, h: nat, required: bv32, kind: Option<nat>) returns (r: Found)
      requires Valid(St()) && t < |tables|
      modifies `objs, `refs
      ensures (St(), r) == Lookup(old(St()), t, h, required, kind)
    {
      hide Valid, Allows, Resolve;
      var found := Find(t, h);
      if found == None {
        return Failed(InvalidHandle);
      }
      var i := found.value;
      HasSlot(St(), t, i);
      var sl := tables[t][i];
      if !Allows(sl.access, required) {
        return Failed(AccessDenied);
      }
      if kind.Some? && objs[sl.target.value].kind != kind.value {
        return Failed(ObjectTypeMismatch);
      }
      ObReference(sl.target.value);
      r := Found(sl.target.value, sl.access);
    }

    method ClearSlot(t: nat, i: nat)
      requires t < |tables| && i < SLOTS && tables[t][i].target.Some? && tables[t][i].target.value in objs
      modifies `tables, `objs
      ensures St() == Clear(old(St()), t, i)
    {
      hide CloseEnd, Bump, DropPointer;
      var sl := tables[t][i];
      var o := sl.target.value;
      SetSlot(t, i, Cleared(sl));
      if objs[o].ends.Some? {
        objs := objs[o := objs[o].(ends := Some(CloseEnd(objs[o].ends.value, sl.access)))];
      }
      objs := objs[o := objs[o].(handles := if objs[o].handles > 0 then objs[o].handles - 1 else 0)];
      assert objs == old(objs)[o := objs[o]];
      Release(o);
    }

    method CloseHandle(t: nat, h: nat) returns (st: Status)
      requires Valid(St()) && t < |tables|
      modifies `tables, `objs
      ensures (St(), st) == Close(old(St()), t, h)
    {
      hide Index, Gen, Clear, Later;
      var i := Index(h);
      if i == 0 || i >= SLOTS || h % 4 != 0 {
        return InvalidHandle;
      }
      if tables[t][i].target == None || tables[t][i].generation != Gen(h) {
        return InvalidHandle;
      }
      if tables[t][i].protect {
        return AccessDenied;
      }
      ClearValid(St(), t, i);
      ClearSlot(t, i);
      st := Success;
    }

    method DuplicateHandle(src: nat, h: nat, dst: nat, access: bv32) returns (out: Option<nat>, st: Status)
      requires Valid(St()) && src < |tables| && dst < |tables|
      modifies `tables, `objs, `refs
      ensures (St(), out, st) == Duplicate(old(St()), src, h, dst, access)
    {
      hide Valid, Check, Insert, Dereference, Later;
      var r := LookupEx(src, h, 0, None);
      if r.Failed? {
        return None, r.st;
      }
      ghost var s := old(St());
      CheckLive(s, src, h, 0, None);
      ReferenceValid(s, r.o);
      out := InsertEx(dst, r.o, if access == 0 then r.access else access, false, false);
      ObDereference(r.o);
      st := if out.Some? then Success else InsufficientResources;
    }

    /** The objects to pass on, each with a reference taken for it. */
    method Collect(src: nat) returns (l: seq<(nat, bv32)>)
      requires Valid(St()) && src < |tables|
      modifies `objs, `refs
      ensures l == Inheritable(old(tables)[src], 1) && (forall e :: e in l ==> e.0 in old(objs))
      ensures St() == ReferenceAll(old(St()), l)
    {
      hide Valid, ReferenceAll, Reference, SlotOk;
      ghost var s := St();
      l := [];
      var i := 1;
      NoReferences(s);
      while i < SLOTS
        invariant 1 <= i <= SLOTS && tables == old(tables) && objs.Keys == old(objs).Keys
        invariant l + Inheritable(tables[src], i) == Inheritable(tables[src], 1)
        invariant (forall e :: e in l ==> e.0 in s.objs) && St() == ReferenceAll(s, l)
      {
        var sl := tables[src][i];
        if sl.target.Some? && sl.inherit {
          SlotLive(s, src, i);
          ReferenceLast(s, l, (sl.target.value, sl.access));
          l := l + [(sl.target.value, sl.access)];
          ObReference(sl.target.value);
        }
        i := i + 1;
      }
    }

    method InheritTable(src: nat, dst: nat) returns (st: Status)
      requires Valid(St()) && src < |tables| && dst < |tables|
      modifies `tables, `objs, `refs
      ensures (St(), st) == Inherit(old(St()), src, dst)
    {
      hide Valid, ReferenceAll, InsertAll, Inheritable, Later;
      var l := Collect(src);
      ghost var s := St();
      st := Success;
      var i := 0;
      assert l[0..] == l;
      while i < |l|
        invariant i <= |l| && Valid(St()) && |tables| == |old(tables)| && forall o :: Refs(St(), o) >= Count(l[i..], o)
        invariant var (r, rest) := InsertAll(St(), dst, l[i..]);
          (r, if st == Success then rest else st) == InsertAll(s, dst, l) && (st == Success || st == InsufficientResources)
      {
        assert l[i..][0] == l[i] && l[i..][1..] == l[i + 1..];
        InsertNext(St(), dst, l[i..]);
        HeldLive(St(), l[i].0);
        var out := InsertOne(dst, l[i].0, l[i].1);
        if out == None && st == Success {
          st := InsufficientResources;
        }
        i := i + 1;
      }
      InsertNone(St(), dst, l[i..]);
    }

    method InsertOne(dst: nat, o: nat, access: bv32) returns (out: Option<nat>)
      requires Valid(St()) && dst < |tables| && Refs(St(), o) > 0
      modifies `tables, `objs, `refs
      ensures (St(), out) == InsertHeld(old(St()), dst, o, access, true)
    {
      HeldLive(St(), o);
      hide Valid, Insert, Dereference, Later;
      out := InsertEx(dst, o, access, true, false);
      ObDereference(o);
    }

    method DestroyTable(t: nat)
      requires Valid(St()) && t < |tables|
      modifies `tables, `objs
      ensures St() == ClearFrom(old(St()), t, 1)
    {
      hide Valid, Clear, Later, ClearFrom;
      ghost var lo := 1;
      while true
        invariant Valid(St()) && |tables| == |old(tables)| && 1 <= lo <= SLOTS
        invariant forall k :: 1 <= k < lo ==> tables[t][k].target == None
        invariant ClearFrom(St(), t, 1) == ClearFrom(old(St()), t, 1)
        decreases SLOTS - lo
      {
        var i := 1;
        while i < SLOTS && tables[t][i].target == None
          invariant 1 <= i <= SLOTS && forall k :: 1 <= k < i ==> tables[t][k].target == None
        {
          i := i + 1;
        }
        SkipEmpty(St(), t, 1, i);
        if i == SLOTS {
          AllEmpty(St(), t);
          break;
        }
        ghost var s := St();
        HasSlot(s, t, i);
        ClearValid(s, t, i);
        ClearKeeps(s, t, i);
        ClearNext(s, t, i);
        ClearSlot(t, i);
        SkipEmpty(St(), t, 1, i + 1);
        lo := i + 1;
      }
    }
  }

  lemma NoReferences(s: Space)
    requires Valid(s)
    ensures ReferenceAll(s, []) == s
  {
  }

  lemma SlotLive(s: Space, t: nat, i: nat)
    requires Valid(s) && t < |s.tables| && i < SLOTS && s.tables[t][i].target.Some?
    ensures s.tables[t][i].target.value in s.objs
  {
    assert SlotOk(s, t, i);
  }

  lemma InsertNext(s: Space, dst: nat, l: seq<(nat, bv32)>)
    requires Valid(s) && dst < |s.tables| && l != [] && forall o :: Refs(s, o) >= Count(l, o)
    ensures Refs(s, l[0].0) > 0
    ensures var (s1, out) := InsertHeld(s, dst, l[0].0, l[0].1, true);
      && (forall o :: Refs(s1, o) >= Count(l[1..], o))
      && InsertAll(s, dst, l) == (var (r, st) := InsertAll(s1, dst, l[1..]); (r, if out == None then InsufficientResources else st))
  {
    hide Valid, InsertHeld, Later;
    assert Count(l, l[0].0) > 0;
    assert forall o :: Count(l[1..], o) == Count(l, o) - if o == l[0].0 then 1 else 0;
  }

  lemma InsertNone(s: Space, dst: nat, l: seq<(nat, bv32)>)
    requires Valid(s) && dst < |s.tables| && l == []
    ensures InsertAll(s, dst, l) == (s, Success)
  {
  }

  lemma AllEmpty(s: Space, t: nat)
    requires Valid(s) && t < |s.tables|
    ensures ClearFrom(s, t, SLOTS) == s
  {
  }

  lemma ClearNext(s: Space, t: nat, i: nat)
    requires Valid(s) && t < |s.tables| && i < SLOTS && s.tables[t][i].target.Some?
    ensures s.tables[t][i].target.value in s.objs && Valid(Clear(s, t, i)) && |Clear(s, t, i).tables| == |s.tables|
    ensures ClearFrom(s, t, i) == ClearFrom(Clear(s, t, i), t, i + 1)
  {
    hide Valid, Clear, Later;
    ClearValid(s, t, i);
    ClearKeeps(s, t, i);
  }
}
