/**
 Handle tables and object references as values: generation-tagged slots, the two counts of every object,
 and the reader and writer counts that open and close hooks keep for pipes.
 */
module HandleSpace {
  import opened Common

  const SLOTS: nat := 1024
  const CYCLE: nat := 0xFFFF_FFFF          // the generations 1 .. 2^32 - 1
  const FILE_READ_DATA: bv32 := 0x1
  const FILE_WRITE_DATA: bv32 := 0x2
  const GENERIC_READ: bv32 := 0x8000_0000
  const GENERIC_WRITE: bv32 := 0x4000_0000
  const GENERIC_EXECUTE: bv32 := 0x2000_0000
  const GENERIC_ALL: bv32 := 0x1000_0000

  /* ---- encoding ---- */

  function Value(i: nat, g: nat): (h: nat) { i * 4 + g * 0x1_0000 }
  function Index(h: nat): (i: nat) { (h / 4) % 0x4000 }
  function Gen(h: nat): (g: nat) { (h / 0x1_0000) % 0x1_0000_0000 }

  lemma Encoded(i: nat, g: nat)
    requires i < 0x4000 && g < 0x1_0000_0000
    ensures Index(Value(i, g)) == i && Gen(Value(i, g)) == g && Value(i, g) % 4 == 0
    ensures Value(i, g) < 0x1_0000_0000_0000_0000
  {
  }

  /* ---- generations ---- */

  /** The generation counter skips zero when it wraps. */
  function Bump(g: nat): nat {
    if g + 1 >= 0x1_0000_0000 then 1 else g + 1
  }

  /** The generation after so many bumps of a slot that started at zero. */
  function GenAfter(bumps: nat): (g: nat)
    ensures g < 0x1_0000_0000
  {
    if bumps == 0 then 0 else (bumps - 1) % CYCLE + 1
  }

  lemma BumpIs(bumps: nat)
    ensures Bump(GenAfter(bumps)) == GenAfter(bumps + 1)
  {
    if bumps > 0 {
      var q, r := (bumps - 1) / CYCLE, (bumps - 1) % CYCLE;
      assert bumps == q * CYCLE + r + 1;
      if r == CYCLE - 1 {
        assert bumps == (q + 1) * CYCLE;
      }
    }
  }

  /** Equal generations are a whole number of cycles apart. */
  lemma SameGeneration(a: nat, b: nat)
    requires 0 < a <= b
    ensures GenAfter(a) == GenAfter(b) <==> (b - a) % CYCLE == 0
  {
    var q, r := (a - 1) / CYCLE, (a - 1) % CYCLE;
    var q', r' := (b - 1) / CYCLE, (b - 1) % CYCLE;
    assert b - a == (q' - q) * CYCLE + (r' - r);
    if r == r' {
      Multiple(q' - q);
    } else if (b - a) % CYCLE == 0 {
      var k := (b - a) / CYCLE;
      assert (k - (q' - q)) * CYCLE == r' - r;
      NotMultiple(k - (q' - q), r' - r);
    }
  }

  lemma Multiple(k: int)
    ensures (k * CYCLE) % CYCLE == 0
  {
  }

  lemma NotMultiple(k: int, d: int)
    requires k * CYCLE == d && 0 - CYCLE < d < CYCLE
    ensures d == 0
  {
  }

  /* ---- objects and slots ---- */

  datatype Generic = Generic(read: bv32, write: bv32, execute: bv32, all: bv32)

  /** One generic right is replaced by its mask. */
  function MapOne(a: bv32, right: bv32, mask: bv32): bv32 {
    if a & right != 0 then (a | mask) & !right else a
  }

  function MapGeneric(g: Generic, access: bv32): bv32 {
    var a1 := MapOne(access, GENERIC_READ, g.read);
    var a2 := MapOne(a1, GENERIC_WRITE, g.write);
    var a3 := MapOne(a2, GENERIC_EXECUTE, g.execute);
    MapOne(a3, GENERIC_ALL, g.all)
  }

  /** The specific rights of an access, and its generic ones. */
  function Low(a: bv32): bv32 { a & 0x0FFF_FFFF }
  function High(a: bv32): bv32 { a & 0xF000_0000 }
  function Less(a: bv32, right: bv32): bv32 { a & !right }
  function Plus(a: bv32, mask: bv32): bv32 { a | mask }

  /** The masks of a type name specific rights only. */
  predicate Specific(g: Generic) {
    High(g.read) == 0 && High(g.write) == 0 && High(g.execute) == 0 && High(g.all) == 0
  }

  /** The mask of a right that is asked for. */
  function Asked(access: bv32, right: bv32, mask: bv32): bv32 { if access & right == 0 then 0 else mask }

  lemma MappedOne(a: bv32, right: bv32, mask: bv32)
    requires High(mask) == 0 && Low(right) == 0
    ensures Low(MapOne(a, right, mask)) == Plus(Low(a), Asked(a, right, mask))
    ensures High(MapOne(a, right, mask)) == Less(High(a), right)
  {
    if a & right != 0 {
      MaskLow(a, right, mask);
      MaskHigh(a, right, mask);
    } else {
      NothingAsked(a, right);
    }
  }

  lemma MaskLow(a: bv32, right: bv32, mask: bv32)
    requires High(mask) == 0 && Low(right) == 0
    ensures Low((a | mask) & !right) == Plus(Low(a), mask)
  {
  }

  lemma MaskHigh(a: bv32, right: bv32, mask: bv32)
    requires High(mask) == 0
    ensures High((a | mask) & !right) == Less(High(a), right)
  {
  }

  lemma NothingAsked(a: bv32, right: bv32)
    requires a & right == 0
    ensures Low(a) == Plus(Low(a), 0) && High(a) == Less(High(a), right)
  {
  }

  /** A right is asked for as long as no step before took it away. */
  lemma StillAsked(a: bv32, b: bv32, gone: bv32, right: bv32, mask: bv32)
    requires High(b) == Less(High(a), gone) && gone & right == 0 && Low(right) == 0
    ensures Asked(b, right, mask) == Asked(a, right, mask)
  {
    assert b & right == a & right;
  }

  /** What is granted for an access: its specific rights and the masks of its generic ones. */
  function Grants(g: Generic, access: bv32): bv32 {
    Plus(Plus(Plus(Plus(Low(access), Asked(access, 0x8000_0000, g.read)), Asked(access, 0x4000_0000, g.write)),
              Asked(access, 0x2000_0000, g.execute)), Asked(access, 0x1000_0000, g.all))
  }

  /**
   Each generic right asked for becomes its mask, the specific rights asked for stay, and nothing else is granted; no
   generic right is left.
   */
  lemma MappedBits(g: Generic, access: bv32)
    requires Specific(g)
    ensures High(MapGeneric(g, access)) == 0 && MapGeneric(g, access) == Grants(g, access)
  {
    RightsHigh();
    hide MapOne, Asked, High, Low, Less, Plus;
    var a1 := MapOne(access, GENERIC_READ, g.read);
    var a2 := MapOne(a1, GENERIC_WRITE, g.write);
    var a3 := MapOne(a2, GENERIC_EXECUTE, g.execute);
    var a4 := MapOne(a3, GENERIC_ALL, g.all);
    MappedOne(access, GENERIC_READ, g.read);
    MappedOne(a1, GENERIC_WRITE, g.write);
    MappedOne(a2, GENERIC_EXECUTE, g.execute);
    MappedOne(a3, GENERIC_ALL, g.all);
    TakenAway(access);
    StillAsked(access, a1, 0x8000_0000, GENERIC_WRITE, g.write);
    StillAsked(access, a2, 0xC000_0000, GENERIC_EXECUTE, g.execute);
    StillAsked(access, a3, 0xE000_0000, GENERIC_ALL, g.all);
    OnlySpecific(a4);
  }

  lemma RightsHigh()
    ensures Low(GENERIC_READ) == 0 && Low(GENERIC_WRITE) == 0 && Low(GENERIC_EXECUTE) == 0 && Low(GENERIC_ALL) == 0
  {
  }

  lemma TakenAway(a: bv32)
    ensures Less(Less(High(a), 0x8000_0000), 0x4000_0000) == Less(High(a), 0xC000_0000)
    ensures Less(Less(High(a), 0xC000_0000), 0x2000_0000) == Less(High(a), 0xE000_0000)
    ensures Less(Less(High(a), 0xE000_0000), 0x1000_0000) == 0
  {
  }

  lemma OnlySpecific(a: bv32)
    requires High(a) == 0
    ensures Low(a) == a
  {
  }

  /** Without generic rights an access is granted as it is. */
  lemma MappedAsIs(g: Generic, access: bv32)
    requires High(access) == 0
    ensures MapGeneric(g, access) == access
  {
  }

  /** `had` says whether a write handle was ever opened. */
  datatype Ends = Ends(readers: nat, writers: nat, closed: bool, had: bool)

  function OpenEnd(e: Ends, access: bv32): Ends {
    var e1 := if access & FILE_WRITE_DATA != 0 then e.(writers := e.writers + 1, closed := false, had := true) else e;
    if access & FILE_READ_DATA != 0 then e1.(readers := e1.readers + 1) else e1
  }

  function CloseEnd(e: Ends, access: bv32): Ends {
    var e1 :=
      if access & FILE_WRITE_DATA != 0 then
        var n := if e.writers > 0 then e.writers - 1 else 0;
        e.(writers := n, closed := e.closed || n == 0)
      else e;
    if access & FILE_READ_DATA != 0 then e1.(readers := if e1.readers > 0 then e1.readers - 1 else 0) else e1
  }

  /** `bumps` counts how often the generation has moved. */
  datatype Slot = Slot(target: Option<nat>, access: bv32, inherit: bool, protect: bool, generation: nat, bumps: nat)

  const EmptySlot: Slot := Slot(None, 0, false, false, 0, 0)

  type Table = t: seq<Slot> | |t| == SLOTS witness seq(SLOTS, _ => EmptySlot)

  datatype Object = Object(kind: nat, pointers: nat, handles: nat, permanent: bool, generic: Generic, ends: Option<Ends>)

  /** `refs` counts, for each object, the references held outside the tables. */
  datatype Space = Space(tables: seq<Table>, objs: map<nat, Object>, refs: map<nat, nat>, next: nat)

  function Refs(s: Space, o: nat): nat { if o in s.refs then s.refs[o] else 0 }

  datatype Which = Any | With(mask: bv32)

  predicate Matches(sl: Slot, o: nat, w: Which) {
    sl.target == Some(o) && (w.With? ==> sl.access & w.mask != 0)
  }

  /** The slots, over all tables, that name an object. */
  ghost function Naming(ts: seq<Table>, o: nat, w: Which): set<(nat, nat)> {
    set t: nat, i: nat | t < |ts| && i < SLOTS && Matches(ts[t][i], o, w) :: (t, i)
  }

  ghost predicate SlotOk(s: Space, t: nat, i: nat)
    requires t < |s.tables| && i < SLOTS
  {
    var sl := s.tables[t][i];
    && sl.generation == GenAfter(sl.bumps)
    && (sl.target.Some? <==> sl.bumps % 2 == 1)
    && (sl.target.Some? ==> i > 0 && sl.target.value in s.objs)
  }

  ghost predicate EndsOk(ts: seq<Table>, o: nat, e: Ends) {
    && e.writers == |Naming(ts, o, With(FILE_WRITE_DATA))| && e.readers == |Naming(ts, o, With(FILE_READ_DATA))|
    && (e.closed <==> e.had && e.writers == 0) && (e.writers > 0 ==> e.had)
  }

  ghost predicate ObjectOk(s: Space, o: nat)
    requires o in s.objs
  {
    var x := s.objs[o];
    && o < s.next
    && x.handles == |Naming(s.tables, o, Any)| && x.pointers == x.handles + Refs(s, o)
    && (x.pointers > 0 || x.permanent)
    && (x.ends.Some? ==> EndsOk(s.tables, o, x.ends.value))
  }

  /**
   Every slot names a live object and carries a generation that follows from its history; every object is
   counted by exactly the slots and references that name it.
   */
  ghost predicate Valid(s: Space) {
    && (forall t: nat, i: nat :: t < |s.tables| && i < SLOTS ==> SlotOk(s, t, i))
    && (forall o :: o in s.objs ==> ObjectOk(s, o))
    && (forall o :: o in s.refs && s.refs[o] > 0 ==> o in s.objs)
  }

  /* ---- editing one slot ---- */

  function PutSlot(s: Space, t: nat, i: nat, sl: Slot): Space
    requires t < |s.tables| && i < SLOTS
  {
    s.(tables := s.tables[t := s.tables[t][i := sl]])
  }

  lemma NamingPut(ts: seq<Table>, t: nat, i: nat, sl: Slot, o: nat, w: Which)
    requires t < |ts| && i < SLOTS
    ensures var us := ts[t := ts[t][i := sl]];
      Naming(us, o, w) == if Matches(sl, o, w) then Naming(ts, o, w) + {(t, i)} else Naming(ts, o, w) - {(t, i)}
  {
  }

  lemma NamingHas(ts: seq<Table>, t: nat, i: nat, o: nat, w: Which)
    requires t < |ts| && i < SLOTS
    ensures (t, i) in Naming(ts, o, w) <==> Matches(ts[t][i], o, w)
  {
  }

  /** A slot that starts naming an object adds one to the counts that match, one that stops takes it away. */
  lemma NamingCount(ts: seq<Table>, t: nat, i: nat, sl: Slot, o: nat, w: Which)
    requires t < |ts| && i < SLOTS
    ensures var us := ts[t := ts[t][i := sl]];
      |Naming(us, o, w)| == |Naming(ts, o, w)| + (if Matches(sl, o, w) then 1 else 0) - (if Matches(ts[t][i], o, w) then 1 else 0)
  {
    NamingPut(ts, t, i, sl, o, w);
    NamingHas(ts, t, i, o, w);
  }

  /** A reference goes; the object goes with the last one unless it is permanent. */
  function DropPointer(s: Space, o: nat): Space
    requires o in s.objs
  {
    var x := s.objs[o];
    var n := if x.pointers > 0 then x.pointers - 1 else 0;
    if x.pointers == 1 && x.handles == 0 && !x.permanent then s.(objs := s.objs - {o})
    else s.(objs := s.objs[o := x.(pointers := n)])
  }

  function Reference(s: Space, o: nat): Space
    requires o in s.objs
  {
    s.(objs := s.objs[o := s.objs[o].(pointers := s.objs[o].pointers + 1)], refs := s.refs[o := Refs(s, o) + 1])
  }

  function Dereference(s: Space, o: nat): Space
    requires o in s.objs && Refs(s, o) > 0
  {
    DropPointer(s.(refs := s.refs[o := Refs(s, o) - 1]), o)
  }

  function Filled(sl: Slot, o: nat, access: bv32, inherit: bool, protect: bool): Slot {
    Slot(Some(o), access, inherit, protect, Bump(sl.generation), sl.bumps + 1)
  }

  function Cleared(sl: Slot): Slot {
    sl.(target := None, access := 0, generation := Bump(sl.generation), bumps := sl.bumps + 1)
  }

  /** An empty slot starts to name an object. */
  function Fill(s: Space, t: nat, i: nat, o: nat, access: bv32, inherit: bool, protect: bool): Space
    requires t < |s.tables| && i < SLOTS && o in s.objs
  {
    var x := s.objs[o];
    var y := x.(pointers := x.pointers + 1, handles := x.handles + 1,
      ends := if x.ends.Some? then Some(OpenEnd(x.ends.value, access)) else None);
    PutSlot(s.(objs := s.objs[o := y]), t, i, Filled(s.tables[t][i], o, access, inherit, protect))
  }

  /** A slot stops naming its object. */
  function Clear(s: Space, t: nat, i: nat): Space
    requires t < |s.tables| && i < SLOTS && s.tables[t][i].target.Some? && s.tables[t][i].target.value in s.objs
  {
    var sl := s.tables[t][i];
    var o := sl.target.value;
    DropPointer(PutSlot(s.(objs := s.objs[o := Unhandled(s.objs[o], sl.access)]), t, i, Cleared(sl)), o)
  }

  /** The object after its close hook has run and one handle less is counted. */
  function Unhandled(x: Object, access: bv32): Object {
    x.(handles := if x.handles > 0 then x.handles - 1 else 0,
      ends := if x.ends.Some? then Some(CloseEnd(x.ends.value, access)) else None)
  }

  lemma ReferenceValid(s: Space, o: nat)
    requires Valid(s) && o in s.objs
    ensures Valid(Reference(s, o))
  {
    hide Naming, EndsOk, GenAfter;
    var r := Reference(s, o);
    forall p | p in r.objs ensures ObjectOk(r, p) {
      assert ObjectOk(s, p);
    }
    forall t: nat, i: nat | t < |r.tables| && i < SLOTS ensures SlotOk(r, t, i) {
      assert SlotOk(s, t, i);
    }
  }

  /** All of `Valid` except that one object has a pointer too many. */
  ghost predicate Surplus(s: Space, o: nat) {
    && (forall t: nat, i: nat :: t < |s.tables| && i < SLOTS ==> SlotOk(s, t, i))
    && o in s.objs && s.objs[o].pointers > 0
    && (forall p :: p in s.objs && p != o ==> ObjectOk(s, p))
    && ObjectOk(s.(objs := s.objs[o := s.objs[o].(pointers := s.objs[o].pointers - 1, permanent := true)]), o)
    && (forall p :: p in s.refs && s.refs[p] > 0 ==> p in s.objs)
  }

  lemma DropValid(s: Space, o: nat)
    requires Surplus(s, o)
    ensures Valid(DropPointer(s, o))
  {
    hide EndsOk, GenAfter;
    var r, x := DropPointer(s, o), s.objs[o];
    forall t: nat, i: nat | t < |r.tables| && i < SLOTS ensures SlotOk(r, t, i) {
      assert SlotOk(s, t, i);
      NamingHas(s.tables, t, i, o, Any);
    }
    forall p | p in r.objs ensures ObjectOk(r, p) {
      assert p != o ==> ObjectOk(s, p);
    }
  }

  lemma DereferenceValid(s: Space, o: nat)
    requires Valid(s) && o in s.objs && Refs(s, o) > 0
    ensures Valid(Dereference(s, o))
  {
    hide Naming, EndsOk, GenAfter;
    var m := s.(refs := s.refs[o := Refs(s, o) - 1]);
    assert ObjectOk(s, o);
    forall t: nat, i: nat | t < |m.tables| && i < SLOTS ensures SlotOk(m, t, i) {
      assert SlotOk(s, t, i);
    }
    forall p | p in m.objs && p != o ensures ObjectOk(m, p) {
      assert ObjectOk(s, p);
    }
    DropValid(m, o);
  }

  lemma OpenEndOk(ts: seq<Table>, t: nat, i: nat, sl: Slot, o: nat, e: Ends)
    requires t < |ts| && i < SLOTS && ts[t][i].target == None && sl.target == Some(o) && EndsOk(ts, o, e)
    ensures EndsOk(ts[t := ts[t][i := sl]], o, OpenEnd(e, sl.access))
  {
    hide Naming;
    NamingCount(ts, t, i, sl, o, With(FILE_WRITE_DATA));
    NamingCount(ts, t, i, sl, o, With(FILE_READ_DATA));
  }

  lemma CloseEndOk(ts: seq<Table>, t: nat, i: nat, sl: Slot, o: nat, e: Ends)
    requires t < |ts| && i < SLOTS && ts[t][i].target == Some(o) && sl.target == None && EndsOk(ts, o, e)
    ensures EndsOk(ts[t := ts[t][i := sl]], o, CloseEnd(e, ts[t][i].access))
  {
    hide Naming;
    NamingCount(ts, t, i, sl, o, With(FILE_WRITE_DATA));
    NamingCount(ts, t, i, sl, o, With(FILE_READ_DATA));
  }

  lemma OtherEndsOk(ts: seq<Table>, t: nat, i: nat, sl: Slot, o: nat, e: Ends)
    requires t < |ts| && i < SLOTS && ts[t][i].target != Some(o) && sl.target != Some(o) && EndsOk(ts, o, e)
    ensures EndsOk(ts[t := ts[t][i := sl]], o, e)
  {
    hide Naming;
    NamingCount(ts, t, i, sl, o, With(FILE_WRITE_DATA));
    NamingCount(ts, t, i, sl, o, With(FILE_READ_DATA));
  }

  lemma FillValid(s: Space, t: nat, i: nat, o: nat, access: bv32, inherit: bool, protect: bool)
    requires Valid(s) && t < |s.tables| && 0 < i < SLOTS && s.tables[t][i].target == None && o in s.objs
    ensures Valid(Fill(s, t, i, o, access, inherit, protect))
  {
    hide Naming, EndsOk, GenAfter, Bump;
    var r := Fill(s, t, i, o, access, inherit, protect);
    var sl := Filled(s.tables[t][i], o, access, inherit, protect);
    assert SlotOk(s, t, i);
    BumpIs(s.tables[t][i].bumps);
    forall u: nat, k: nat | u < |r.tables| && k < SLOTS ensures SlotOk(r, u, k) {
      assert SlotOk(s, u, k);
    }
    forall p | p in r.objs ensures ObjectOk(r, p) {
      assert ObjectOk(s, p);
      NamingCount(s.tables, t, i, sl, p, Any);
      if s.objs[p].ends.Some? {
        if p == o {
          OpenEndOk(s.tables, t, i, sl, o, s.objs[o].ends.value);
        } else {
          OtherEndsOk(s.tables, t, i, sl, p, s.objs[p].ends.value);
        }
      }
    }
  }

  lemma ClearValid(s: Space, t: nat, i: nat)
    requires Valid(s) && t < |s.tables| && i < SLOTS && s.tables[t][i].target.Some?
    ensures s.tables[t][i].target.value in s.objs && Valid(Clear(s, t, i))
  {
    hide Naming, EndsOk, GenAfter, Bump;
    assert SlotOk(s, t, i);
    var sl, sl' := s.tables[t][i], Cleared(s.tables[t][i]);
    var o := sl.target.value;
    var x := s.objs[o];
    assert ObjectOk(s, o);
    NamingCount(s.tables, t, i, sl', o, Any);
    if x.ends.Some? {
      CloseEndOk(s.tables, t, i, sl', o, x.ends.value);
    }
    var m := PutSlot(s.(objs := s.objs[o := Unhandled(x, sl.access)]), t, i, sl');
    BumpIs(sl.bumps);
    forall u: nat, k: nat | u < |m.tables| && k < SLOTS ensures SlotOk(m, u, k) {
      assert SlotOk(s, u, k);
    }
    forall p | p in m.objs && p != o ensures ObjectOk(m, p) {
      assert ObjectOk(s, p);
      NamingCount(s.tables, t, i, sl', p, Any);
      if s.objs[p].ends.Some? {
        OtherEndsOk(s.tables, t, i, sl', p, s.objs[p].ends.value);
      }
    }
    DropValid(m, o);
  }
}
