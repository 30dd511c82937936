/**
 Opening, resolving, duplicating, inheriting and closing handles, and what any sequence of these keeps.
 */
module HandleOperations {
  import opened Common
  import opened HandleSpace

  /* ---- resolving ---- */

  /** The slot a handle stands for, if it still does. */
  function Resolve(tab: Table, h: nat): (r: Option<nat>)
    ensures r.Some? ==> 0 < r.value < SLOTS && tab[r.value].target.Some? && r.value == Index(h)
  {
    var i := Index(h);
    if h % 4 != 0 || i == 0 || i >= SLOTS || tab[i].target == None || tab[i].generation != Gen(h) then None else Some(i)
  }

  predicate Allows(access: bv32, required: bv32) { required == 0 || access & required == required }

  datatype Found = Found(o: nat, access: bv32) | Failed(st: Status)

  function Check(s: Space, t: nat, h: nat, required: bv32, kind: Option<nat>): Found
    requires t < |s.tables| && Valid(s)
  {
    match Resolve(s.tables[t], h)
    case None => Failed(InvalidHandle)
    case Some(i) =>
      var sl := s.tables[t][i];
      assert SlotOk(s, t, i);
      if !Allows(sl.access, required) then Failed(AccessDenied)
      else if kind.Some? && s.objs[sl.target.value].kind != kind.value then Failed(ObjectTypeMismatch)
      else Found(sl.target.value, sl.access)
  }

  function Lookup(s: Space, t: nat, h: nat, required: bv32, kind: Option<nat>): (Space, Found)
    requires t < |s.tables| && Valid(s)
  {
    match Check(s, t, h, required, kind)
    case Failed(st) => (s, Failed(st))
    case Found(o, access) => (Referenced(s, o), Found(o, access))
  }

  function Referenced(s: Space, o: nat): Space {
    if o in s.objs then Reference(s, o) else s
  }

  /* ---- opening and closing ---- */

  function FirstEmpty(tab: Table, i: nat): (r: Option<nat>)
    requires i <= SLOTS
    ensures r.Some? ==> i <= r.value < SLOTS && tab[r.value].target == None && forall k :: i <= k < r.value ==> tab[k].target.Some?
    ensures r == None ==> forall k :: i <= k < SLOTS ==> tab[k].target.Some?
    decreases SLOTS - i
  {
    if i == SLOTS then None else if tab[i].target == None then Some(i) else FirstEmpty(tab, i + 1)
  }

  function Insert(s: Space, t: nat, o: nat, access: bv32, inherit: bool, protect: bool): (r: (Space, Option<nat>))
    requires Valid(s) && t < |s.tables| && o in s.objs
    ensures Valid(r.0) && Later(s, r.0) && r.0.refs == s.refs && s.objs.Keys == r.0.objs.Keys && |r.0.tables| == |s.tables|
  {
    match FirstEmpty(s.tables[t], 1)
    case None => (s, None)
    case Some(i) =>
      var a := MapGeneric(s.objs[o].generic, access);
      FillValid(s, t, i, o, a, inherit, protect);
      (Fill(s, t, i, o, a, inherit, protect), Some(Value(i, Bump(s.tables[t][i].generation))))
  }

  function Close(s: Space, t: nat, h: nat): (r: (Space, Status))
    requires Valid(s) && t < |s.tables|
    ensures Valid(r.0) && Later(s, r.0) && r.0.refs == s.refs
  {
    match Resolve(s.tables[t], h)
    case None => (s, InvalidHandle)
    case Some(i) =>
      if s.tables[t][i].protect then (s, AccessDenied)
      else
        ClearValid(s, t, i);
        (Clear(s, t, i), Success)
  }

  /** No slot's history is shortened. */
  ghost predicate Later(s: Space, r: Space) {
    && |s.tables| <= |r.tables|
    && forall t: nat, i: nat :: t < |s.tables| && i < SLOTS ==> s.tables[t][i].bumps <= r.tables[t][i].bumps
  }

  function Duplicate(s: Space, src: nat, h: nat, dst: nat, access: bv32): (r: (Space, Option<nat>, Status))
    requires Valid(s) && src < |s.tables| && dst < |s.tables|
    ensures Valid(r.0) && Later(s, r.0) && forall o :: Refs(r.0, o) == Refs(s, o)
  {
    hide Valid, Check, InsertHeld;
    match Check(s, src, h, 0, None)
    case Failed(st) => (s, None, st)
    case Found(o, granted) =>
      CheckLive(s, src, h, 0, None);
      ReferenceValid(s, o);
      var (s2, out) := InsertHeld(Reference(s, o), dst, o, if access == 0 then granted else access, false);
      (s2, out, if out.Some? then Success else InsufficientResources)
  }

  /** Inserts an object the caller holds a reference to, and gives that reference up. */
  function InsertHeld(s: Space, dst: nat, o: nat, access: bv32, inherit: bool): (r: (Space, Option<nat>))
    requires Valid(s) && dst < |s.tables| && Refs(s, o) > 0
    ensures Valid(r.0) && Later(s, r.0) && |r.0.tables| == |s.tables| && forall p :: Refs(r.0, p) == Refs(s, p) - if p == o then 1 else 0
  {
    HeldLive(s, o);
    hide Valid, Insert, Dereference;
    var (s1, out) := Insert(s, dst, o, access, inherit, false);
    DereferenceValid(s1, o);
    Dereferenced(s1, o);
    (Dereference(s1, o), out)
  }

  lemma HeldLive(s: Space, o: nat)
    requires Valid(s) && Refs(s, o) > 0
    ensures o in s.objs
  {
  }

  lemma CheckLive(s: Space, t: nat, h: nat, required: bv32, kind: Option<nat>)
    requires t < |s.tables| && Valid(s) && Check(s, t, h, required, kind).Found?
    ensures Check(s, t, h, required, kind).o in s.objs
  {
    assert SlotOk(s, t, Index(h));
  }

  /* ---- inheriting ---- */

  function Inheritable(tab: Table, i: nat): seq<(nat, bv32)>
    requires i <= SLOTS
    decreases SLOTS - i
  {
    if i == SLOTS then []
    else if tab[i].target.Some? && tab[i].inherit then [(tab[i].target.value, tab[i].access)] + Inheritable(tab, i + 1)
    else Inheritable(tab, i + 1)
  }

  function Count(l: seq<(nat, bv32)>, o: nat): nat {
    if l == [] then 0 else (if l[0].0 == o then 1 else 0) + Count(l[1..], o)
  }

  function ReferenceAll(s: Space, l: seq<(nat, bv32)>): (r: Space)
    requires Valid(s) && forall e :: e in l ==> e.0 in s.objs
    ensures Valid(r) && r.tables == s.tables && r.objs.Keys == s.objs.Keys
    ensures forall o :: Refs(r, o) == Refs(s, o) + Count(l, o)
    decreases |l|
  {
    if l == [] then s
    else
      ReferenceValid(s, l[0].0);
      ReferenceAll(Reference(s, l[0].0), l[1..])
  }

  lemma {:induction false} ReferenceLast(s: Space, l: seq<(nat, bv32)>, e: (nat, bv32))
    requires Valid(s) && (forall x :: x in l ==> x.0 in s.objs) && e.0 in s.objs
    ensures (forall x :: x in l + [e] ==> x.0 in s.objs) && ReferenceAll(s, l + [e]) == Reference(ReferenceAll(s, l), e.0)
    decreases |l|
  {
    hide Valid;
    if l == [] {
      assert l + [e] == [e];
      ReferenceValid(s, e.0);
    } else {
      ReferenceValid(s, l[0].0);
      ReferenceLast(Reference(s, l[0].0), l[1..], e);
      assert (l + [e])[1..] == l[1..] + [e];
    }
  }

  function InsertAll(s: Space, dst: nat, l: seq<(nat, bv32)>): (r: (Space, Status))
    requires Valid(s) && dst < |s.tables| && forall o :: Refs(s, o) >= Count(l, o)
    ensures Valid(r.0) && Later(s, r.0) && forall o :: Refs(r.0, o) == Refs(s, o) - Count(l, o)
    decreases |l|
  {
    if l == [] then (s, Success)
    else
      hide Valid, InsertHeld;
      assert Count(l, l[0].0) > 0;
      var (s1, out) := InsertHeld(s, dst, l[0].0, l[0].1, true);
      assert forall o :: Count(l[1..], o) == Count(l, o) - if o == l[0].0 then 1 else 0;
      var (s2, st) := InsertAll(s1, dst, l[1..]);
      (s2, if out == None then InsufficientResources else st)
  }

  lemma Dereferenced(s: Space, o: nat)
    requires o in s.objs && Refs(s, o) > 0
    ensures var r := Dereference(s, o);
      r.tables == s.tables && Later(s, r) && forall p :: Refs(r, p) == Refs(s, p) - if p == o then 1 else 0
  {
  }

  function Inherit(s: Space, src: nat, dst: nat): (r: (Space, Status))
    requires Valid(s) && src < |s.tables| && dst < |s.tables|
    ensures Valid(r.0) && Later(s, r.0) && forall o :: Refs(r.0, o) == Refs(s, o)
  {
    hide Valid, Inheritable, ReferenceAll, InsertAll;
    var l := Inheritable(s.tables[src], 1);
    InheritableLive(s, src, 1);
    InsertAll(ReferenceAll(s, l), dst, l)
  }

  lemma {:induction false} InheritableLive(s: Space, t: nat, i: nat)
    requires Valid(s) && t < |s.tables| && i <= SLOTS
    ensures forall e :: e in Inheritable(s.tables[t], i) ==> e.0 in s.objs
    decreases SLOTS - i
  {
    if i < SLOTS {
      assert SlotOk(s, t, i);
      InheritableLive(s, t, i + 1);
    }
  }

  /* ---- emptying a table ---- */

  function ClearFrom(s: Space, t: nat, i: nat): (r: Space)
    requires Valid(s) && t < |s.tables| && i <= SLOTS
    ensures Valid(r) && Later(s, r) && r.refs == s.refs && |r.tables| == |s.tables|
    ensures forall k :: i <= k < SLOTS ==> r.tables[t][k].target == None
    ensures forall k :: 0 <= k < i ==> r.tables[t][k] == s.tables[t][k]
    decreases SLOTS - i
  {
    hide Valid, DropPointer;
    if i == SLOTS then s
    else if s.tables[t][i].target == None then ClearFrom(s, t, i + 1)
    else
      ClearValid(s, t, i);
      ClearKeeps(s, t, i);
      ClearFrom(Clear(s, t, i), t, i + 1)
  }

  lemma {:induction false} SkipEmpty(s: Space, t: nat, i: nat, k: nat)
    requires Valid(s) && t < |s.tables| && i <= k <= SLOTS && forall j :: i <= j < k ==> s.tables[t][j].target == None
    ensures ClearFrom(s, t, i) == ClearFrom(s, t, k)
    decreases k - i
  {
    if i < k {
      SkipEmpty(s, t, i + 1, k);
    }
  }

  lemma ClearKeeps(s: Space, t: nat, i: nat)
    requires t < |s.tables| && i < SLOTS && s.tables[t][i].target.Some? && s.tables[t][i].target.value in s.objs
    ensures var r := Clear(s, t, i);
      && r.tables == s.tables[t := s.tables[t][i := Cleared(s.tables[t][i])]] && r.refs == s.refs && r.next == s.next && Later(s, r)
  {
  }

  /* ---- what handles mean ---- */

  /** The handle that an insertion returns resolves to the inserted object. */
  lemma InsertResolves(s: Space, t: nat, o: nat, access: bv32, inherit: bool, protect: bool)
    requires Valid(s) && t < |s.tables| && o in s.objs && Insert(s, t, o, access, inherit, protect).1.Some?
    ensures var (r, out) := Insert(s, t, o, access, inherit, protect);
      && Resolve(r.tables[t], out.value).Some?
      && r.tables[t][Index(out.value)].target == Some(o) && s.tables[t][Index(out.value)].target == None
      && r.tables[t][Index(out.value)].access == MapGeneric(s.objs[o].generic, access)
      && r.tables[t][Index(out.value)].inherit == inherit && r.tables[t][Index(out.value)].protect == protect
  {
    hide Valid, Value, Index, Gen, MapGeneric;
    var i := FirstEmpty(s.tables[t], 1).value;
    HasSlot(s, t, i);
    BumpIs(s.tables[t][i].bumps);
    Encoded(i, Bump(s.tables[t][i].generation));
  }

  /** No requested right is missing. */
  predicate Covered(access: bv32, required: bv32) { required & !access == 0 }

  lemma AllowsCovered(access: bv32, required: bv32)
    ensures Allows(access, required) <==> Covered(access, required)
  {
    if Covered(access, required) {
      NoneMissing(access, required);
    } else if access & required == required {
      AllPresent(access, required);
    }
  }

  lemma NoneMissing(a: bv32, r: bv32)
    requires r & !a == 0
    ensures a & r == r
  {
  }

  lemma AllPresent(a: bv32, r: bv32)
    requires a & r == r
    ensures r & !a == 0
  {
  }

  /**
   A lookup is refused exactly, and in this order, for a handle that does not resolve, a right that its slot lacks, and
   an object of another kind. Otherwise it yields the object the slot names, with one reference more on that object and
   no other change; a refusal changes nothing.
   */
  lemma LookupExactly(s: Space, t: nat, h: nat, required: bv32, kind: Option<nat>)
    requires Valid(s) && t < |s.tables|
    ensures var (r, found) := Lookup(s, t, h, required, kind);
      var slot := Resolve(s.tables[t], h);
      && (found == Failed(InvalidHandle) <==> slot == None)
      && (slot.Some? ==>
        var sl := s.tables[t][slot.value];
        var o := sl.target.value;
        && sl.target.Some? && o in s.objs
        && (found == Failed(AccessDenied) <==> !Covered(sl.access, required))
        && (found == Failed(ObjectTypeMismatch) <==> Covered(sl.access, required) && kind.Some? && s.objs[o].kind != kind.value)
        && (found.Found? <==> Covered(sl.access, required) && (kind.Some? ==> s.objs[o].kind == kind.value))
        && (found.Found? ==> found == Found(o, sl.access) && Referred(s, r, o)))
      && (found.Failed? ==> r == s)
  {
    hide Valid, Index, Gen, Allows, Covered;
    var slot := Resolve(s.tables[t], h);
    if slot.Some? {
      HasSlot(s, t, slot.value);
      AllowsCovered(s.tables[t][slot.value].access, required);
    }
  }

  /** One reference more on one object, and no other change. */
  ghost predicate Referred(s: Space, r: Space, o: nat) {
    && r.tables == s.tables && r.objs.Keys == s.objs.Keys && o in s.objs
    && (forall p :: p in s.objs ==> r.objs[p] == if p == o then s.objs[p].(pointers := s.objs[p].pointers + 1) else s.objs[p])
    && (forall p :: Refs(r, p) == Refs(s, p) + if p == o then 1 else 0)
  }

  /** A handle never grants more than the mapped access it was opened with. */
  lemma NeverMoreThanGranted(s: Space, t: nat, o: nat, access: bv32, inherit: bool, protect: bool, required: bv32, kind: Option<nat>)
    requires Valid(s) && t < |s.tables| && o in s.objs && Insert(s, t, o, access, inherit, protect).1.Some?
    ensures var (r, out) := Insert(s, t, o, access, inherit, protect);
      var (_, found) := Lookup(r, t, out.value, required, kind);
      && (found.Found? ==> found == Found(o, MapGeneric(s.objs[o].generic, access)))
      && (found.Found? <==> Covered(MapGeneric(s.objs[o].generic, access), required) && (kind.Some? ==> s.objs[o].kind == kind.value))
  {
    hide Valid, Index, Gen, Covered, MapGeneric, Insert, Lookup;
    InsertResolves(s, t, o, access, inherit, protect);
    var (r, out) := Insert(s, t, o, access, inherit, protect);
    LookupExactly(r, t, out.value, required, kind);
    InsertKinds(s, t, o, access, inherit, protect);
  }

  lemma InsertKinds(s: Space, t: nat, o: nat, access: bv32, inherit: bool, protect: bool)
    requires Valid(s) && t < |s.tables| && o in s.objs
    ensures var r := Insert(s, t, o, access, inherit, protect).0;
      forall p :: p in s.objs ==> p in r.objs && r.objs[p].kind == s.objs[p].kind && r.objs[p].generic == s.objs[p].generic
  {
    hide Valid, MapGeneric, OpenEnd, Bump;
  }

  /** An insertion disturbs no handle that resolved before. */
  lemma InsertKeeps(s: Space, t: nat, o: nat, access: bv32, inherit: bool, protect: bool, u: nat, h: nat)
    requires Valid(s) && t < |s.tables| && o in s.objs && u < |s.tables| && Resolve(s.tables[u], h).Some?
    ensures var r := Insert(s, t, o, access, inherit, protect).0;
      Resolve(r.tables[u], h) == Resolve(s.tables[u], h) && r.tables[u][Index(h)] == s.tables[u][Index(h)]
  {
    hide Valid, Value, Index, Gen, MapGeneric;
  }

  lemma HasSlot(s: Space, t: nat, i: nat)
    requires Valid(s) && t < |s.tables| && i < SLOTS
    ensures SlotOk(s, t, i)
  {
  }

  /** A successful close ends the handle and no other. */
  lemma CloseEnds(s: Space, t: nat, h: nat)
    requires Valid(s) && t < |s.tables| && Close(s, t, h).1 == Success
    ensures var r := Close(s, t, h).0;
      && Resolve(r.tables[t], h) == None
      && forall u: nat, k :: u < |s.tables| && Resolve(s.tables[u], k).Some? && !(u == t && Index(k) == Index(h)) ==>
        Resolve(r.tables[u], k) == Resolve(s.tables[u], k) && r.tables[u][Index(k)] == s.tables[u][Index(k)]
  {
    hide Valid, Index, Gen, DropPointer;
    HasSlot(s, t, Index(h));
    ClearKeeps(s, t, Index(h));
  }

  /**
   A close is refused exactly for a handle that does not resolve or is protected, and then changes nothing. Otherwise the
   object has one handle less, and is gone exactly if that was its last handle, nobody holds a reference and it is not
   permanent; every other object is as it was.
   */
  lemma CloseExactly(s: Space, t: nat, h: nat)
    requires Valid(s) && t < |s.tables|
    ensures var (r, st) := Close(s, t, h);
      var slot := Resolve(s.tables[t], h);
      && (st == InvalidHandle <==> slot == None)
      && (st == AccessDenied <==> slot.Some? && s.tables[t][slot.value].protect)
      && st in {Success, InvalidHandle, AccessDenied} && (st != Success ==> r == s)
      && (st == Success ==>
        var o := s.tables[t][slot.value].target.value;
        && s.tables[t][slot.value].target.Some? && o in s.objs
        && (o !in r.objs <==> s.objs[o].handles == 1 && Refs(s, o) == 0 && !s.objs[o].permanent)
        && (o in r.objs ==> r.objs[o].handles == s.objs[o].handles - 1)
        && (forall p :: p != o ==> (p in r.objs <==> p in s.objs) && (p in s.objs ==> r.objs[p] == s.objs[p])))
  {
    hide Valid, Index, Gen, CloseEnd, Bump, Naming, EndsOk;
    var slot := Resolve(s.tables[t], h);
    if slot.Some? {
      HasSlot(s, t, slot.value);
      HasCounts(s, t, slot.value);
    }
  }

  /** An object that a slot names counts that slot. */
  lemma HasCounts(s: Space, t: nat, i: nat)
    requires Valid(s) && t < |s.tables| && i < SLOTS && s.tables[t][i].target.Some?
    ensures var o := s.tables[t][i].target.value;
      o in s.objs && s.objs[o].handles > 0 && s.objs[o].pointers == s.objs[o].handles + Refs(s, o)
  {
    var o := s.tables[t][i].target.value;
    HasSlot(s, t, i);
    assert ObjectOk(s, o);
    NamingHas(s.tables, t, i, o, Any);
  }

  /** A handle counts as issued by its slot at some point of the slot's history. */
  ghost predicate IssuedAt(h: nat, b: nat) {
    h % 4 == 0 && 0 < Index(h) < SLOTS && b % 2 == 1 && Gen(h) == GenAfter(b)
  }

  /** A handle resolves exactly while its slot has not moved on, or has moved on by whole double cycles. */
  lemma StaleHandle(s: Space, t: nat, h: nat, b: nat)
    requires Valid(s) && t < |s.tables| && IssuedAt(h, b) && b <= s.tables[t][Index(h)].bumps
    ensures var now := s.tables[t][Index(h)].bumps;
      Resolve(s.tables[t], h).Some? <==> (now - b) % (2 * CYCLE) == 0
  {
    hide Valid, Index, Gen, GenAfter;
    var now := s.tables[t][Index(h)].bumps;
    HasSlot(s, t, Index(h));
    SameGeneration(b, now);
    WholeDoubleCycles(b, now);
  }

  lemma WholeDoubleCycles(b: nat, now: nat)
    requires b <= now && b % 2 == 1
    ensures (now - b) % (2 * CYCLE) == 0 <==> now % 2 == 1 && (now - b) % CYCLE == 0
  {
    var d := now - b;
    if d % CYCLE == 0 {
      var q := d / CYCLE;
      assert d == q * CYCLE;
      assert d % 2 == q % 2;
    }
  }

  /** A pipe counts as closed exactly when it has had a writer and no slot of any table can write to it any more. */
  lemma ClosedMeansNoWriter(s: Space, o: nat)
    requires Valid(s) && o in s.objs && s.objs[o].ends.Some?
    ensures s.objs[o].ends.value.closed <==> s.objs[o].ends.value.had && Naming(s.tables, o, With(FILE_WRITE_DATA)) == {}
    ensures s.objs[o].ends.value.writers == |Naming(s.tables, o, With(FILE_WRITE_DATA))|
  {
    hide Naming, SlotOk;
    assert ObjectOk(s, o);
  }

  /* ---- runs ---- */

  datatype Op =
    | NewTable
    | NewObject(kind: nat, generic: Generic, permanent: bool, pipe: bool)
    | Ref(o: nat)
    | Deref(o: nat)
    | Open(t: nat, o: nat, access: bv32, inherit: bool, protect: bool)
    | CloseHandle(t: nat, h: nat)
    | DuplicateHandle(src: nat, h: nat, dst: nat, access: bv32)
    | InheritTable(src: nat, dst: nat)
    | DestroyTable(t: nat)

  ghost predicate Enabled(s: Space, op: Op) {
    match op
    case NewTable => true
    case NewObject(_, _, _, _) => true
    case Ref(o) => o in s.objs
    case Deref(o) => Refs(s, o) > 0
    case Open(t, o, _, _, _) => t < |s.tables| && o in s.objs
    case CloseHandle(t, _) => t < |s.tables|
    case DuplicateHandle(src, _, dst, _) => src < |s.tables| && dst < |s.tables|
    case InheritTable(src, dst) => src < |s.tables| && dst < |s.tables|
    case DestroyTable(t) => t < |s.tables|
  }

  function FreshTable(): Table { seq(SLOTS, _ => EmptySlot) }

  function AddTable(s: Space): (r: Space)
    requires Valid(s)
    ensures Valid(r) && Later(s, r)
  {
    var r := s.(tables := s.tables + [FreshTable()]);
    AddTableValid(s, r);
    r
  }

  lemma AddTableValid(s: Space, r: Space)
    requires Valid(s) && r == s.(tables := s.tables + [FreshTable()])
    ensures Valid(r) && Later(s, r)
  {
    hide EndsOk;
    forall o, w: Which ensures Naming(r.tables, o, w) == Naming(s.tables, o, w) {
    }
    forall t: nat, i: nat | t < |r.tables| && i < SLOTS ensures SlotOk(r, t, i) {
      if t < |s.tables| {
        HasSlot(s, t, i);
        assert r.tables[t] == s.tables[t];
      }
    }
    forall o | o in r.objs ensures ObjectOk(r, o) {
      assert ObjectOk(s, o);
      assert Naming(r.tables, o, Any) == Naming(s.tables, o, Any);
      if s.objs[o].ends.Some? {
        SameEnds(s.tables, r.tables, o, s.objs[o].ends.value);
      }
    }
  }

  lemma SameEnds(ts: seq<Table>, us: seq<Table>, o: nat, e: Ends)
    requires EndsOk(ts, o, e) && forall w: Which :: Naming(us, o, w) == Naming(ts, o, w)
    ensures EndsOk(us, o, e)
  {
    hide Naming;
    assert Naming(us, o, With(FILE_WRITE_DATA)) == Naming(ts, o, With(FILE_WRITE_DATA));
    assert Naming(us, o, With(FILE_READ_DATA)) == Naming(ts, o, With(FILE_READ_DATA));
  }

  /** A new object starts with one reference, its creator's. */
  function AddObject(s: Space, kind: nat, generic: Generic, permanent: bool, pipe: bool): Space {
    var x := Object(kind, 1, 0, permanent, generic, if pipe then Some(Ends(0, 0, false, false)) else None);
    s.(objs := s.objs[s.next := x], refs := s.refs[s.next := 1], next := s.next + 1)
  }

  lemma AddObjectValid(s: Space, kind: nat, generic: Generic, permanent: bool, pipe: bool)
    requires Valid(s)
    ensures Valid(AddObject(s, kind, generic, permanent, pipe))
  {
    hide GenAfter;
    var r := AddObject(s, kind, generic, permanent, pipe);
    forall o | o in s.objs ensures o < s.next {
      assert ObjectOk(s, o);
    }
    forall t: nat, i: nat | t < |r.tables| && i < SLOTS ensures SlotOk(r, t, i) {
      HasSlot(s, t, i);
    }
    forall w: Which ensures Naming(s.tables, s.next, w) == {} {
      forall t: nat, i: nat | t < |s.tables| && i < SLOTS ensures !Matches(s.tables[t][i], s.next, w) {
        HasSlot(s, t, i);
      }
    }
    forall o | o in r.objs ensures ObjectOk(r, o) {
      assert o != s.next ==> ObjectOk(s, o);
    }
  }

  ghost function Step(s: Space, op: Op): (r: Space)
    requires Valid(s) && Enabled(s, op)
    ensures Valid(r) && Later(s, r)
  {
    hide Valid, Later, Insert, Close, Duplicate, Inherit, ClearFrom, Dereference;
    match op
    case NewTable => AddTable(s)
    case NewObject(kind, generic, permanent, pipe) =>
      AddObjectValid(s, kind, generic, permanent, pipe);
      SameTables(s, AddObject(s, kind, generic, permanent, pipe));
      AddObject(s, kind, generic, permanent, pipe)
    case Ref(o) =>
      ReferenceValid(s, o);
      SameTables(s, Reference(s, o));
      Reference(s, o)
    case Deref(o) =>
      HeldLive(s, o);
      DereferenceValid(s, o);
      Dereferenced(s, o);
      Dereference(s, o)
    case Open(t, o, access, inherit, protect) => Insert(s, t, o, access, inherit, protect).0
    case CloseHandle(t, h) => Close(s, t, h).0
    case DuplicateHandle(src, h, dst, access) => Duplicate(s, src, h, dst, access).0
    case InheritTable(src, dst) => Inherit(s, src, dst).0
    case DestroyTable(t) => ClearFrom(s, t, 1)
  }

  lemma SameTables(s: Space, r: Space)
    requires r.tables == s.tables
    ensures Later(s, r)
  {
  }

  ghost predicate Legal(s: Space, ops: seq<Op>)
    requires Valid(s)
    decreases |ops|
  {
    ops == [] || (Enabled(s, ops[0]) && Legal(Step(s, ops[0]), ops[1..]))
  }

  ghost function Run(s: Space, ops: seq<Op>): (r: Space)
    requires Valid(s) && Legal(s, ops)
    ensures Valid(r) && Later(s, r)
    decreases |ops|
  {
    if ops == [] then s else Run(Step(s, ops[0]), ops[1..])
  }

  /**
   After a handle is closed, no run makes it resolve again while its slot has been reused fewer than
   2^32 - 1 times.
   */
  lemma ClosedStaysClosed(s: Space, t: nat, h: nat, ops: seq<Op>)
    requires Valid(s) && t < |s.tables| && Close(s, t, h).1 == Success && Legal(Close(s, t, h).0, ops)
    ensures var b, now := s.tables[t][Index(h)].bumps, Run(Close(s, t, h).0, ops).tables[t][Index(h)].bumps;
      now - b < 2 * CYCLE ==> Resolve(Run(Close(s, t, h).0, ops).tables[t], h) == None
  {
    hide Valid, Index, Gen, GenAfter, Run, Legal, DropPointer;
    var i := Index(h);
    var s1 := Close(s, t, h).0;
    var r := Run(s1, ops);
    HasSlot(s, t, i);
    ClearKeeps(s, t, i);
    var b := s.tables[t][i].bumps;
    assert s1.tables[t][i].bumps == b + 1 <= r.tables[t][i].bumps;
    StaleHandle(r, t, h, b);
  }

  ghost function Empty(): (s: Space)
    ensures Valid(s)
  {
    Space([], map[], map[], 0)
  }

  /** In every run from an empty space, each object is counted by exactly the slots and references that name it. */
  lemma EveryRun(ops: seq<Op>)
    requires Legal(Empty(), ops)
    ensures var s := Run(Empty(), ops);
      && (forall o :: o in s.objs ==>
        s.objs[o].handles == |Naming(s.tables, o, Any)| && s.objs[o].pointers == s.objs[o].handles + Refs(s, o))
      && (forall t: nat, i: nat :: t < |s.tables| && i < SLOTS && s.tables[t][i].target.Some? ==> s.tables[t][i].target.value in s.objs)
  {
    hide Naming, EndsOk, GenAfter, Legal;
    var s := Run(Empty(), ops);
    forall o | o in s.objs ensures ObjectOk(s, o) {
    }
    forall t: nat, i: nat | t < |s.tables| && i < SLOTS && s.tables[t][i].target.Some?
      ensures s.tables[t][i].target.value in s.objs
    {
      assert SlotOk(s, t, i);
    }
  }
}
