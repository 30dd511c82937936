/**
 What duplicated and inherited handles mean: which object each new slot names, with which access, and which
 requests a full table refuses.
 */
module HandleCopies {
  import opened Common
  import opened HandleSpace
  import opened HandleOperations

  /** The slots of a table that an insertion can take; slot 0 is never handed out. */
  ghost function Empties(tab: Table): set<nat> {
    set i: nat | 0 < i < SLOTS && tab[i].target == None
  }

  /** Objects keep the access mapping of their type for as long as they live. */
  ghost predicate SameTypes(s: Space, r: Space) {
    forall o :: o in r.objs ==> o in s.objs && r.objs[o].generic == s.objs[o].generic
  }

  /** The slot names the object with the access that was asked for, mapped to its type. */
  predicate Copies(sl: Slot, o: nat, g: Generic, access: bv32, inherit: bool) {
    sl.target == Some(o) && sl.access == MapGeneric(g, access) && sl.inherit == inherit && !sl.protect
  }

  /** Nothing changed in any table except in the given slots of one. */
  ghost predicate OnlySlots(s: Space, r: Space, dst: nat, js: set<nat>) {
    && dst < |s.tables| == |r.tables|
    && (forall t: nat :: t < |s.tables| && t != dst ==> r.tables[t] == s.tables[t])
    && (forall i: nat :: i < SLOTS && i !in js ==> r.tables[dst][i] == s.tables[dst][i])
  }

  /** An empty slot that starts naming an object. */
  lemma FilledSlot(tab: Table, i: nat, sl: Slot)
    requires i in Empties(tab) && i < SLOTS && sl.target.Some?
    ensures Empties(tab[i := sl]) == Empties(tab) - {i}
  {
  }

  lemma FirstIsEmpty(tab: Table)
    ensures FirstEmpty(tab, 1) == None <==> Empties(tab) == {}
    ensures FirstEmpty(tab, 1).Some? ==> FirstEmpty(tab, 1).value in Empties(tab)
  {
    var e := FirstEmpty(tab, 1);
    if e.Some? {
      assert e.value in Empties(tab);
    } else {
      forall i: nat ensures i !in Empties(tab) {
      }
    }
  }

  lemma DropTypes(s: Space, o: nat)
    requires o in s.objs && Refs(s, o) > 0
    ensures Dereference(s, o).tables == s.tables && SameTypes(s, Dereference(s, o))
  {
  }

  lemma FillTypes(s: Space, t: nat, i: nat, o: nat, access: bv32, inherit: bool)
    requires t < |s.tables| && i < SLOTS && o in s.objs && s.tables[t][i].target == None
    ensures var r := Fill(s, t, i, o, access, inherit, false);
      && SameTypes(s, r) && OnlySlots(s, r, t, {i})
      && r.tables[t] == s.tables[t][i := Filled(s.tables[t][i], o, access, inherit, false)]
  {
    hide OpenEnd;
  }

  /** An insertion is refused exactly by a full table; otherwise an empty slot names the object. */
  lemma InsertPlaces(s: Space, dst: nat, o: nat, access: bv32, inherit: bool)
    requires Valid(s) && dst < |s.tables| && o in s.objs
    ensures var (r, out) := Insert(s, dst, o, access, inherit, false);
      && SameTypes(s, r)
      && (out == None <==> Empties(s.tables[dst]) == {})
      && (out == None ==> r.tables == s.tables)
      && (out.Some? ==> OnlySlots(s, r, dst, {Index(out.value)})
                        && Placed(s.tables[dst], r.tables[dst], out.value, o, s.objs[o].generic, access, inherit))
  {
    hide Valid, Value, Index, Gen, MapGeneric, GenAfter, Bump, Fill, SameTypes, OnlySlots, Empties;
    FirstIsEmpty(s.tables[dst]);
    var e := FirstEmpty(s.tables[dst], 1);
    if e.Some? {
      var i, a := e.value, MapGeneric(s.objs[o].generic, access);
      FillTypes(s, dst, i, o, a, inherit);
      FilledSlot(s.tables[dst], i, Filled(s.tables[dst][i], o, a, inherit, false));
      HasSlot(s, dst, i);
      BumpIs(s.tables[dst][i].bumps);
      Encoded(i, Bump(s.tables[dst][i].generation));
    } else {
      SameSpace(s);
    }
  }

  lemma SameSpace(s: Space)
    ensures SameTypes(s, s)
  {
  }

  /** The handle resolves, in a slot that was empty, to the object. */
  ghost predicate Placed(tab: Table, tab': Table, h: nat, o: nat, g: Generic, access: bv32, inherit: bool) {
    var i := Index(h);
    && i < SLOTS && i in Empties(tab) && Empties(tab') == Empties(tab) - {i}
    && Resolve(tab', h) == Some(i) && Copies(tab'[i], o, g, access, inherit)
  }

  lemma HeldPlaces(s: Space, dst: nat, o: nat, access: bv32, inherit: bool)
    requires Valid(s) && dst < |s.tables| && Refs(s, o) > 0
    ensures o in s.objs
    ensures var (r, out) := InsertHeld(s, dst, o, access, inherit);
      && SameTypes(s, r)
      && (out == None <==> Empties(s.tables[dst]) == {})
      && (out == None ==> r.tables == s.tables)
      && (out.Some? ==> OnlySlots(s, r, dst, {Index(out.value)})
                        && Placed(s.tables[dst], r.tables[dst], out.value, o, s.objs[o].generic, access, inherit))
  {
    HeldLive(s, o);
    hide Valid, Insert, Placed, Empties, Dereference, SameTypes, OnlySlots, Later, Index;
    InsertPlaces(s, dst, o, access, inherit);
    var s1 := Insert(s, dst, o, access, inherit, false).0;
    DropTypes(s1, o);
    var out := Insert(s, dst, o, access, inherit, false).1;
    if out.Some? {
      SameAfter(s, s1, Dereference(s1, o), dst, {Index(out.value)});
    } else {
      TypesAfter(s, s1, Dereference(s1, o));
    }
  }

  lemma TypesAfter(s: Space, s1: Space, r: Space)
    requires SameTypes(s, s1) && SameTypes(s1, r)
    ensures SameTypes(s, r)
  {
  }

  lemma SameAfter(s: Space, s1: Space, r: Space, dst: nat, js: set<nat>)
    requires SameTypes(s, s1) && OnlySlots(s, s1, dst, js) && SameTypes(s1, r) && r.tables == s1.tables
    ensures SameTypes(s, r) && OnlySlots(s, r, dst, js)
  {
  }

  /* ---- duplicate ---- */

  /**
   A duplicate is refused exactly for a handle that does not resolve or a target table that is full. Otherwise the
   new handle resolves in the target table to the same object, with the old access or the one asked for, mapped; and
   no other slot changes.
   */
  lemma DuplicateResolves(s: Space, src: nat, h: nat, dst: nat, access: bv32)
    requires Valid(s) && src < |s.tables| && dst < |s.tables|
    ensures var (r, out, st) := Duplicate(s, src, h, dst, access);
      && (st == InvalidHandle <==> Resolve(s.tables[src], h) == None)
      && (st == InsufficientResources <==> Resolve(s.tables[src], h).Some? && Empties(s.tables[dst]) == {})
      && (st == Success <==> out.Some?) && st in {Success, InvalidHandle, InsufficientResources}
      && (st != Success ==> r.tables == s.tables)
      && (st == Success ==>
        var was := s.tables[src][Index(h)];
        && was.target.Some? && was.target.value in s.objs && OnlySlots(s, r, dst, {Index(out.value)})
        && Placed(s.tables[dst], r.tables[dst], out.value, was.target.value, s.objs[was.target.value].generic,
                  if access == 0 then was.access else access, false))
  {
    hide Valid, InsertHeld, Index, Gen, MapGeneric, Placed, Empties, OnlySlots;
    var c := Check(s, src, h, 0, None);
    if c.Found? {
      CheckLive(s, src, h, 0, None);
      ReferenceValid(s, c.o);
      HeldPlaces(Reference(s, c.o), dst, c.o, if access == 0 then c.access else access, false);
      var (r, out, st) := Duplicate(s, src, h, dst, access);
      if out.Some? {
        SameBefore(s, Reference(s, c.o), r, dst, {Index(out.value)});
      }
    }
  }

  lemma SameBefore(s: Space, s1: Space, r: Space, dst: nat, js: set<nat>)
    requires s1.tables == s.tables && OnlySlots(s1, r, dst, js)
    ensures OnlySlots(s, r, dst, js)
  {
  }

  /* ---- inherit ---- */

  /** The slots that a child gets, in order. */
  ghost function InheritedSlots(tab: Table, i: nat): seq<nat>
    requires i <= SLOTS
    decreases SLOTS - i
  {
    if i == SLOTS then []
    else (if tab[i].target.Some? && tab[i].inherit then [i] else []) + InheritedSlots(tab, i + 1)
  }

  predicate Inherits(tab: Table, j: nat) { 0 < j < SLOTS && tab[j].target.Some? && tab[j].inherit }

  /** `Inheritable` lists what these slots hold. */
  lemma {:induction false} SlotsListed(tab: Table, i: nat)
    requires 0 < i <= SLOTS
    ensures var js, l := InheritedSlots(tab, i), Inheritable(tab, i);
      |js| == |l| && forall k :: 0 <= k < |js| ==> i <= js[k] && Inherits(tab, js[k]) && l[k] == (tab[js[k]].target.value, tab[js[k]].access)
    decreases SLOTS - i
  {
    if i < SLOTS {
      SlotsListed(tab, i + 1);
      var js, l := InheritedSlots(tab, i), Inheritable(tab, i);
      var rest, more := InheritedSlots(tab, i + 1), Inheritable(tab, i + 1);
      if Inherits(tab, i) {
        hide InheritedSlots, Inheritable;
        forall k | 0 < k < |js| ensures js[k] == rest[k - 1] && l[k] == more[k - 1] {
        }
      }
    }
  }

  /** They are all the inheritable ones, each once. */
  lemma {:induction false} SlotsOrdered(tab: Table, i: nat)
    requires 0 < i <= SLOTS
    ensures var js := InheritedSlots(tab, i);
      && (forall j, k :: 0 <= j < k < |js| ==> js[j] < js[k])
      && (forall j: nat :: i <= j && Inherits(tab, j) ==> j in js)
    decreases SLOTS - i
  {
    if i < SLOTS {
      SlotsOrdered(tab, i + 1);
      SlotsListed(tab, i + 1);
      var rest, js := InheritedSlots(tab, i + 1), InheritedSlots(tab, i);
      forall j: nat | i <= j && Inherits(tab, j) ensures j in js {
        if j > i {
          assert j in rest;
        }
      }
    }
  }

  /** The slots that a list of insertions went into. */
  ghost predicate PutInto(s: Space, r: Space, dst: nat, l: seq<(nat, bv32)>, to: seq<nat>)
    requires dst < |s.tables| == |r.tables|
  {
    && |to| <= |l| && NoDup(to)
    && (forall k :: 0 <= k < |to| ==>
        && to[k] in Empties(s.tables[dst]) && to[k] < SLOTS && l[k].0 in s.objs
        && Copies(r.tables[dst][to[k]], l[k].0, s.objs[l[k].0].generic, l[k].1, true))
  }

  /** As many elements as there are empty slots, in order, get a slot each; success means that was all of them. */
  lemma {:induction false} InsertAllPlaces(s: Space, dst: nat, l: seq<(nat, bv32)>) returns (to: seq<nat>)
    requires Valid(s) && dst < |s.tables| && forall o :: Refs(s, o) >= Count(l, o)
    ensures var (r, st) := InsertAll(s, dst, l);
      && st == (if |l| <= |Empties(s.tables[dst])| then Success else InsufficientResources)
      && |to| == (if |l| <= |Empties(s.tables[dst])| then |l| else |Empties(s.tables[dst])|)
      && OnlySlots(s, r, dst, Elems(to)) && PutInto(s, r, dst, l, to)
    decreases |l|
  {
    hide Valid, InsertHeld, Empties, Copies, Index, Resolve, OnlySlots, PutInto, Elems;
    to := [];
    if l == [] {
      NothingPut(s, dst);
    } else {
      var o := l[0].0;
      assert Count(l, o) > 0;
      HeldPlaces(s, dst, o, l[0].1, true);
      var (s1, out) := InsertHeld(s, dst, o, l[0].1, true);
      assert forall p :: Count(l[1..], p) == Count(l, p) - if p == o then 1 else 0;
      var rest := InsertAllPlaces(s1, dst, l[1..]);
      var r := InsertAll(s1, dst, l[1..]).0;
      if out.Some? {
        FewerEmpty(s.tables[dst], s1.tables[dst], Index(out.value));
        to := [Index(out.value)] + rest;
        OneMore(s, s1, r, dst, l, Index(out.value), rest);
      } else {
        StillFull(s, s1, r, dst, l);
      }
    }
  }

  lemma NothingPut(s: Space, dst: nat)
    requires dst < |s.tables|
    ensures OnlySlots(s, s, dst, Elems([])) && PutInto(s, s, dst, [], [])
  {
  }

  lemma StillFull(s: Space, s1: Space, r: Space, dst: nat, l: seq<(nat, bv32)>)
    requires s1.tables == s.tables && OnlySlots(s1, r, dst, Elems([]))
    ensures OnlySlots(s, r, dst, Elems([])) && PutInto(s, r, dst, l, [])
  {
  }

  lemma FewerEmpty(tab: Table, tab': Table, i: nat)
    requires i in Empties(tab) && Empties(tab') == Empties(tab) - {i}
    ensures |Empties(tab')| == |Empties(tab)| - 1
  {
  }

  lemma OneMore(s: Space, s1: Space, r: Space, dst: nat, l: seq<(nat, bv32)>, i: nat, rest: seq<nat>)
    requires l != [] && l[0].0 in s.objs && dst < |s.tables| && SameTypes(s, s1)
    requires OnlySlots(s, s1, dst, {i}) && OnlySlots(s1, r, dst, Elems(rest))
    requires i < SLOTS && i in Empties(s.tables[dst]) && Empties(s1.tables[dst]) == Empties(s.tables[dst]) - {i}
    requires Copies(s1.tables[dst][i], l[0].0, s.objs[l[0].0].generic, l[0].1, true)
    requires PutInto(s1, r, dst, l[1..], rest)
    ensures OnlySlots(s, r, dst, Elems([i] + rest)) && PutInto(s, r, dst, l, [i] + rest)
  {
    hide MapGeneric;
    var to := [i] + rest;
    assert i !in rest by {
      forall k | 0 <= k < |rest| ensures rest[k] != i {
        assert rest[k] in Empties(s1.tables[dst]);
      }
    }
    forall k | 0 <= k < |to|
      ensures && to[k] in Empties(s.tables[dst]) && to[k] < SLOTS && l[k].0 in s.objs
              && Copies(r.tables[dst][to[k]], l[k].0, s.objs[l[k].0].generic, l[k].1, true)
    {
      if k > 0 {
        assert to[k] == rest[k - 1] && l[k] == l[1..][k - 1];
      }
    }
    assert Elems(to) == {i} + Elems(rest);
  }

  lemma {:induction false} ReferencedTypes(s: Space, l: seq<(nat, bv32)>)
    requires Valid(s) && forall e :: e in l ==> e.0 in s.objs
    ensures SameTypes(s, ReferenceAll(s, l))
    decreases |l|
  {
    hide Valid;
    if l != [] {
      ReferenceValid(s, l[0].0);
      ReferencedTypes(Reference(s, l[0].0), l[1..]);
    }
  }

  /**
   Inheriting gives as many of the inheritable slots as the child's table has room for, lowest first, a slot of their own
   there that names the same object with the mapped access. It succeeds exactly when that is all of them, and no other
   slot of any table changes.
   */
  lemma InheritGives(s: Space, src: nat, dst: nat) returns (from: seq<nat>, to: seq<nat>)
    requires Valid(s) && src < |s.tables| && dst < |s.tables|
    ensures forall j :: j in from <==> Inherits(s.tables[src], j)
    ensures forall j, k :: 0 <= j < k < |from| ==> from[j] < from[k]
    ensures var (r, st) := Inherit(s, src, dst);
      && st == (if |from| <= |Empties(s.tables[dst])| then Success else InsufficientResources)
      && |to| == (if |from| <= |Empties(s.tables[dst])| then |from| else |Empties(s.tables[dst])|)
      && NoDup(to) && OnlySlots(s, r, dst, Elems(to))
      && forall k :: 0 <= k < |to| ==> Counterpart(s, r, src, from[k], dst, to[k])
  {
    hide Valid, Inheritable, InsertAll, Copies, Empties, InheritedSlots, OnlySlots, Elems;
    var l := Inheritable(s.tables[src], 1);
    from := InheritedSlots(s.tables[src], 1);
    SlotsListed(s.tables[src], 1);
    SlotsOrdered(s.tables[src], 1);
    InheritableLive(s, src, 1);
    ReferencedTypes(s, l);
    to := InsertAllPlaces(ReferenceAll(s, l), dst, l);
    SameBefore(s, ReferenceAll(s, l), Inherit(s, src, dst).0, dst, Elems(to));
  }

  /** An empty slot of the child's table came to name what the parent's slot names. */
  ghost predicate Counterpart(s: Space, r: Space, src: nat, i: nat, dst: nat, j: nat) {
    && src < |s.tables| && dst < |s.tables| == |r.tables| && i < SLOTS && j < SLOTS && s.tables[src][i].target.Some?
    && var o := s.tables[src][i].target.value;
    && o in s.objs && j in Empties(s.tables[dst])
    && Copies(r.tables[dst][j], o, s.objs[o].generic, s.tables[src][i].access, true)
  }
}
