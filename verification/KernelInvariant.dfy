/**
 What every state of the dispatcher and scheduler satisfies, and the edits that keep it.
 */
module KernelInvariant {
  import opened Common
  import opened KernelState

  /** The queue of one priority: its own threads, once each, and a mask bit that says whether there are any. */
  ghost predicate QueueOk(s: State, p: Prio) {
    && NoDup(s.ready[p]) && (s.mask[p] <==> s.ready[p] != [])
    && forall t :: t in s.ready[p] ==> Th(s, t).mode == Ready && Th(s, t).priority == p
  }

  /** An unboosted thread has its base priority; a boosted one remembers it and owns a mutex. */
  ghost predicate Donated(th: Thread) {
    && (!th.boost ==> th.priority == th.base)
    && (th.boost ==> th.saved == th.base && th.owned != [])
  }

  /** A finished wait on a mutex left the thread as its owner. */
  ghost predicate Granted(s: State, t: Tid, d: Id) {
    Ob(s, d).kind == Mutant ==> Ob(s, d).owner == Some(t)
  }

  ghost predicate WaitOk(s: State, t: Tid) {
    var th := Th(s, t);
    && (th.mode == Waiting ==>
        && th.waitOn.Some? && t in Ob(s, th.waitOn.value).waiters
        && th.pending == th.waitOn && th.wake == Timeout)
    && (th.pending.Some? && th.mode in {Ready, Running} && !th.kill && th.wake in {Success, Abandoned} ==>
        Granted(s, t, th.pending.value))
    && (th.mode == Unused ==> th.pending == None)
    && (th.pending.Some? ==> th.pending.value in s.objs)
  }

  ghost predicate OwnsOk(s: State, t: Tid) {
    var th := Th(s, t);
    && NoDup(th.owned)
    && (forall m :: m in th.owned ==> Ob(s, m).kind == Mutant && Ob(s, m).owner == Some(t))
    && (th.mode == Terminated ==> th.owned == [])
  }

  /** `x` is a thread that is about to lose its boost. */
  ghost predicate ThreadOk(s: State, t: Tid, x: Option<Tid>) {
    var th := Th(s, t);
    && (th.mode == Ready && t != s.idle ==> t in s.ready[th.priority])
    && (th.mode == Running ==> s.current == Some(t))
    && th.priority >= th.base
    && (th.mode != Terminated && x != Some(t) ==> Donated(th))
    && (th.boost ==> th.saved == th.base)
    && WaitOk(s, t) && OwnsOk(s, t)
  }

  ghost predicate MutexOk(s: State, d: Id) {
    var o := Ob(s, d);
    match o.owner
    case None => o.signal == 1 && o.recursion == 0
    case Some(t) => o.signal == 0 && o.recursion >= 1 && d in Th(s, t).owned
  }

  /** `y` is an object that is being signalled or handed over. */
  ghost predicate ObjOk(s: State, d: Id, y: Option<Id>) {
    var o := Ob(s, d);
    && NoDup(o.waiters) && (d.Plain? || o.kind != Mutant)
    && (forall w :: w in o.waiters ==> Th(s, w).mode == Waiting && Th(s, w).waitOn == Some(d))
    && (y != Some(d) ==> (o.signal > 0 ==> o.waiters == []) && (o.kind == Mutant ==> MutexOk(s, d)))
  }

  ghost predicate IdleOk(s: State) {
    var th := Th(s, s.idle);
    th.mode in {Ready, Running} && !th.kill && th.pending == None && th.owned == []
  }

  ghost predicate Inv(s: State, x: Option<Tid>, y: Option<Id>) {
    && (forall p: Prio :: QueueOk(s, p))
    && (forall t: Tid :: ThreadOk(s, t, x))
    && (forall d: Id :: ObjOk(s, d, y))
    && IdleOk(s)
  }

  /* ---- lists ---- */

  lemma {:induction false} WithoutMember<T>(l: seq<T>, x: T, y: T)
    ensures y in Without(l, x) <==> y in l && y != x
  {
    if l != [] {
      WithoutMember(l[1..], x, y);
      assert l == [l[0]] + l[1..];
    }
  }

  lemma {:induction false} WithoutNoDup<T>(l: seq<T>, x: T)
    requires NoDup(l)
    ensures NoDup(Without(l, x))
  {
    if l != [] {
      var t := l[1..];
      assert forall i :: 0 <= i < |t| ==> t[i] == l[i + 1];
      WithoutNoDup(t, x);
      WithoutMember(t, x, l[0]);
    }
  }

  lemma WithoutAll<T(!new)>(l: seq<T>, x: T)
    requires NoDup(l)
    ensures NoDup(Without(l, x)) && forall y :: y in Without(l, x) <==> y in l && y != x
  {
    WithoutNoDup(l, x);
    forall y ensures y in Without(l, x) <==> y in l && y != x {
      WithoutMember(l, x, y);
    }
  }

  lemma {:induction false} WithoutFirst<T>(l: seq<T>)
    requires l != [] && NoDup(l)
    ensures Without(l, l[0]) == l[1..]
  {
    var t := l[1..];
    assert forall i :: 0 <= i < |t| ==> t[i] == l[i + 1];
    WithoutAbsent(t, l[0]);
  }

  lemma {:induction false} WithoutAbsent<T>(l: seq<T>, x: T)
    requires x !in l
    ensures Without(l, x) == l
  {
    if l != [] {
      WithoutAbsent(l[1..], x);
    }
  }

  lemma AppendNoDup<T>(l: seq<T>, x: T)
    requires NoDup(l) && x !in l
    ensures NoDup(l + [x])
  {
  }

  /* ---- changing one thread and one object ---- */

  /** The queues hold the same threads, apart from t. */
  ghost predicate SameQueues(s: State, r: State, t: Tid) {
    forall p: Prio, u: Tid :: u != t ==> (u in r.ready[p] <==> u in s.ready[p])
  }

  ghost predicate OnlyThread(s: State, r: State, t: Tid) {
    r.idle == s.idle && (forall u: Tid :: u != t ==> Th(r, u) == Th(s, u))
  }

  ghost predicate OnlyObject(s: State, r: State, d: Id) {
    s.objs.Keys <= r.objs.Keys && forall e: Id :: e != d ==> Ob(r, e) == Ob(s, e)
  }

  /** What other threads rely on in the object d. */
  ghost predicate Relied(s: State, r: State, t: Tid, d: Id) {
    var o, o' := Ob(s, d), Ob(r, d);
    && o'.kind == o.kind
    && (forall u :: u != t && u in o.waiters ==> u in o'.waiters)
    && (forall u :: u != t && o.owner == Some(u) ==> o'.owner == o.owner)
  }

  lemma OtherThread(s: State, r: State, t: Tid, d: Id, u: Tid, x: Option<Tid>)
    requires ThreadOk(s, u, x) && u != t && r.current == s.current
    requires SameQueues(s, r, t) && OnlyThread(s, r, t) && OnlyObject(s, r, d) && Relied(s, r, t, d)
    ensures ThreadOk(r, u, x)
  {
    assert forall m :: m in Th(s, u).owned ==> Ob(r, m).kind == Mutant && Ob(r, m).owner == Some(u);
  }

  lemma OtherObject(s: State, r: State, t: Tid, d: Id, e: Id, y: Option<Id>)
    requires ObjOk(s, e, y) && e != d && OnlyThread(s, r, t) && OnlyObject(s, r, d)
    requires t in Ob(s, e).waiters ==> Th(r, t).mode == Waiting && Th(r, t).waitOn == Some(e)
    requires e in Th(s, t).owned ==> e in Th(r, t).owned
    ensures ObjOk(r, e, y)
  {
  }

  ghost predicate InNoQueue(s: State, t: Tid) {
    forall p: Prio :: t !in s.ready[p]
  }

  lemma NotQueued(s: State, t: Tid)
    requires (forall p: Prio :: QueueOk(s, p)) && Th(s, t).mode != Ready
    ensures InNoQueue(s, t)
  {
    forall p: Prio ensures t !in s.ready[p] {
      assert QueueOk(s, p);
    }
  }

  /** Queueing a thread that is in no queue. */
  lemma Enqueued(s: State, m: State, t: Tid)
    requires (forall p: Prio :: QueueOk(s, p)) && InNoQueue(s, t)
    requires m.ready == s.ready && m.mask == s.mask && OnlyThread(s, m, t) && Th(m, t).mode == Ready
    ensures var r := ReadyInsert(m, t);
      (forall p: Prio :: QueueOk(r, p)) && SameQueues(s, r, t) && t in r.ready[Th(m, t).priority]
  {
    var r := ReadyInsert(m, t);
    var k := Th(m, t).priority;
    forall p: Prio ensures QueueOk(r, p) {
      assert QueueOk(s, p) && t !in s.ready[p];
      AppendNoDup(s.ready[p], t);
      if p != k {
        assert r.ready[p] == s.ready[p] && r.mask[p] == s.mask[p];
      }
    }
  }

  /** A waiter leaves its object's list, with whatever status and possessions, and becomes ready. */
  ghost predicate Wakes(s: State, w: Tid, d: Id, th: Thread, o: Obj) {
    var th0, o0 := Th(s, w), Ob(s, d);
    && w in o0.waiters && th.mode == Waiting
    && th.priority == th0.priority && th.base == th0.base && th.saved == th0.saved && th.boost == th0.boost
    && o.kind == o0.kind && NoDup(o.waiters) && (forall u :: u in o.waiters <==> u in o0.waiters && u != w)
    && (forall u :: u != w && o0.owner == Some(u) ==> o.owner == o0.owner)
    && NoDup(th.owned) && (forall m :: m in th0.owned ==> m in th.owned)
  }

  function Woken(s: State, w: Tid, d: Id, th: Thread, o: Obj): State {
    SchedReady(PutTh(PutOb(s, d, o), w, th), w)
  }

  lemma WokenShape(s: State, w: Tid, d: Id, th: Thread, o: Obj)
    requires (forall p: Prio :: QueueOk(s, p)) && Th(s, w).mode == Waiting && th.mode == Waiting
    ensures var r := Woken(s, w, d, th, o);
      && (forall p: Prio :: QueueOk(r, p)) && SameQueues(s, r, w) && w in r.ready[th.priority]
      && OnlyThread(s, r, w) && OnlyObject(s, r, d) && Th(r, w) == th.(mode := Ready) && Ob(r, d) == o
      && SameRest(s, r)
  {
    NotQueued(s, w);
    var m := PutTh(PutTh(PutOb(s, d, o), w, th), w, th.(mode := Ready));
    Enqueued(s, m, w);
    var r, q := Woken(s, w, d, th, o), ReadyInsert(m, w);
    assert r.ready == q.ready && r.mask == q.mask && r.threads == q.threads && r.objs == q.objs;
    forall p: Prio ensures QueueOk(r, p) {
      assert QueueOk(q, p);
    }
  }

  lemma WokenInv(s: State, w: Tid, d: Id, th: Thread, o: Obj, x: Option<Tid>, y: Option<Id>, y': Option<Id>)
    requires Inv(s, x, y) && Wakes(s, w, d, th, o) && (y == y' || y == Some(d))
    requires th.pending.Some? && !th.kill && th.wake in {Success, Abandoned} ==>
      th.pending == Some(d) && (o.kind == Mutant ==> o.owner == Some(w))
    requires th.pending.Some? ==> th.pending.value in s.objs
    requires forall m :: m in th.owned ==> m in Th(s, w).owned || (m == d && o.kind == Mutant && o.owner == Some(w))
    requires d in Th(s, w).owned ==> o.owner == Ob(s, d).owner
    requires y' != Some(d) ==> (o.signal > 0 ==> o.waiters == [])
    requires y' != Some(d) && o.kind == Mutant ==>
      o.owner.Some? && o.signal == 0 && o.recursion >= 1 && d in (if o.owner == Some(w) then th.owned else Th(s, o.owner.value).owned)
    ensures Inv(Woken(s, w, d, th, o), x, y')
  {
    hide SameQueues, OnlyObject, QueueOk, Woken, NoDup;
    var r := Woken(s, w, d, th, o);
    assert ObjOk(s, d, y) && ThreadOk(s, w, x);
    WokenShape(s, w, d, th, o);
    WokenSelf(s, r, w, d, th, x);
    forall u: Tid ensures ThreadOk(r, u, x) {
      assert ThreadOk(s, u, x);
      if u != w {
        OtherThread(s, r, w, d, u, x);
      }
    }
    forall e: Id ensures ObjOk(r, e, y') {
      assert ObjOk(s, e, y);
      if e != d {
        OtherObject(s, r, w, d, e, y');
      }
    }
  }

  lemma WokenSelf(s: State, r: State, w: Tid, d: Id, th: Thread, x: Option<Tid>)
    requires ThreadOk(s, w, x) && Wakes(s, w, d, th, Ob(r, d)) && Th(s, w).mode == Waiting
    requires w in r.ready[th.priority] && OnlyThread(s, r, w) && OnlyObject(s, r, d) && Th(r, w) == th.(mode := Ready)
    requires th.pending.Some? && !th.kill && th.wake in {Success, Abandoned} ==>
      th.pending == Some(d) && (Ob(r, d).kind == Mutant ==> Ob(r, d).owner == Some(w))
    requires forall m :: m in th.owned ==> m in Th(s, w).owned || (m == d && Ob(r, d).kind == Mutant && Ob(r, d).owner == Some(w))
    requires d in Th(s, w).owned ==> Ob(r, d).owner == Ob(s, d).owner
    requires th.pending.Some? ==> th.pending.value in r.objs
    ensures ThreadOk(r, w, x)
  {
    hide NoDup, OnlyThread, OnlyObject;
    OwnsGrow(s, r, w, d, th.owned);
    assert Th(s, w).owned != [] ==> Th(s, w).owned[0] in th.owned;
  }

  lemma OwnsGrow(s: State, r: State, w: Tid, d: Id, owned: seq<Id>)
    requires OwnsOk(s, w) && OnlyObject(s, r, d) && Ob(r, d).kind == Ob(s, d).kind
    requires forall m :: m in owned ==> m in Th(s, w).owned || (m == d && Ob(r, d).kind == Mutant && Ob(r, d).owner == Some(w))
    requires d in Th(s, w).owned ==> Ob(r, d).owner == Ob(s, d).owner
    ensures forall m :: m in owned ==> Ob(r, m).kind == Mutant && Ob(r, m).owner == Some(w)
  {
    forall m | m in owned ensures Ob(r, m).kind == Mutant && Ob(r, m).owner == Some(w) {
      assert m == d || Ob(r, m) == Ob(s, m);
    }
  }

  /* ---- waking through an object ---- */

  lemma WakeOneIsWoken(s: State, d: Id, st: Status)
    requires Ob(s, d).waiters != [] && Th(s, Ob(s, d).waiters[0]).mode == Waiting && Ob(s, d).kind != Mutant
    ensures var w, o := Ob(s, d).waiters[0], Ob(s, d);
      WakeOne(s, d, st) == Woken(s, w, d, Th(s, w).(wake := st), o.(waiters := o.waiters[1..]))
  {
  }

  lemma HandOverIsWoken(s: State, d: Id, st: Status)
    requires Ob(s, d).waiters != [] && Th(s, Ob(s, d).waiters[0]).mode == Waiting && Ob(s, d).kind == Mutant
    requires d !in Th(s, Ob(s, d).waiters[0]).owned
    ensures var w, o := Ob(s, d).waiters[0], Ob(s, d);
      WakeOne(s, d, st) == Woken(s, w, d, Th(s, w).(wake := st, owned := Th(s, w).owned + [d]),
        o.(waiters := o.waiters[1..], owner := Some(w), recursion := 1, abandoned := st == Abandoned, signal := 0))
  {
    hide SchedReady;
    var w, o := Ob(s, d).waiters[0], Ob(s, d);
    WithoutAbsent(Th(s, w).owned, d);
    var o1 := o.(waiters := o.waiters[1..]);
    var s1 := PutOb(s, d, o1);
    var s2 := PutTh(s1, w, Th(s1, w).(wake := st));
    var o2 := o1.(owner := Some(w), recursion := 1, abandoned := st == Abandoned, signal := 0);
    Overwrite(s.objs, d, o1, o2);
    Overwrite(s.threads, w, Th(s, w).(wake := st), Th(s, w).(wake := st, owned := Th(s, w).owned + [d]));
    assert GiveTo(s2, d, w, st) == PutTh(PutOb(s, d, o2), w, Th(s, w).(wake := st, owned := Th(s, w).owned + [d]));
  }

  lemma Overwrite<K, V>(m: map<K, V>, k: K, a: V, b: V)
    ensures m[k := a][k := b] == m[k := b]
  {
  }

  lemma FirstWaiter(s: State, d: Id, x: Option<Tid>, y: Option<Id>)
    requires Inv(s, x, y) && Ob(s, d).waiters != []
    ensures var w, l := Ob(s, d).waiters[0], Ob(s, d).waiters;
      && Th(s, w).mode == Waiting && Th(s, w).pending == Some(d) && d in s.objs
      && NoDup(l[1..]) && (forall u :: u in l[1..] <==> u in l && u != w)
  {
    var w, l := Ob(s, d).waiters[0], Ob(s, d).waiters;
    assert ObjOk(s, d, y) && ThreadOk(s, w, x) && w in l;
    WithoutFirst(l);
    WithoutAll(l, w);
  }

  /** Waking the first waiter of anything but a mutex. */
  lemma WakeOneInv(s: State, d: Id, x: Option<Tid>)
    requires Inv(s, x, Some(d)) && Ob(s, d).waiters != [] && Ob(s, d).kind != Mutant
    ensures Inv(WakeOne(s, d, Success), x, Some(d))
  {
    hide Inv, Woken, WakeOne;
    var w, o := Ob(s, d).waiters[0], Ob(s, d);
    FirstWaiter(s, d, x, Some(d));
    WakeOneIsWoken(s, d, Success);
    HasThread(s, w, x, Some(d));
    WokenInv(s, w, d, Th(s, w).(wake := Success), o.(waiters := o.waiters[1..]), x, Some(d), Some(d));
  }

  lemma HasThread(s: State, t: Tid, x: Option<Tid>, y: Option<Id>)
    requires Inv(s, x, y)
    ensures ThreadOk(s, t, x)
  {
  }

  lemma HasObject(s: State, d: Id, x: Option<Tid>, y: Option<Id>)
    requires Inv(s, x, y)
    ensures ObjOk(s, d, y)
  {
  }

  /** Handing an ownerless mutex to its first waiter. */
  lemma HandOverInv(s: State, d: Id, st: Status, x: Option<Tid>)
    requires Inv(s, x, Some(d)) && Ob(s, d).waiters != [] && Ob(s, d).kind == Mutant && Ob(s, d).owner == None
    requires st in {Success, Abandoned}
    ensures Inv(WakeOne(s, d, st), x, None)
  {
    hide Inv, Woken, WakeOne;
    var w, o := Ob(s, d).waiters[0], Ob(s, d);
    FirstWaiter(s, d, x, Some(d));
    HasThread(s, w, x, Some(d));
    assert d !in Th(s, w).owned;
    HandOverIsWoken(s, d, st);
    AppendNoDup(Th(s, w).owned, d);
    WokenInv(s, w, d, Th(s, w).(wake := st, owned := Th(s, w).owned + [d]),
      o.(waiters := o.waiters[1..], owner := Some(w), recursion := 1, abandoned := st == Abandoned, signal := 0),
      x, Some(d), None);
  }

  /* ---- plain edits ---- */

  /** Changing only the signal, the recursion count or the abandoned flag. */
  lemma ObjectEdit(s: State, d: Id, o: Obj, x: Option<Tid>, y: Option<Id>, y': Option<Id>)
    requires Inv(s, x, y) && (y == y' || y == Some(d) || (y' == Some(d) && y == None))
    requires o.kind == Ob(s, d).kind && o.waiters == Ob(s, d).waiters && o.owner == Ob(s, d).owner
    requires y' != Some(d) ==> (o.signal > 0 ==> o.waiters == []) && (o.kind == Mutant ==> MutexOk(PutOb(s, d, o), d))
    ensures Inv(PutOb(s, d, o), x, y')
  {
    hide MutexOk;
    var r := PutOb(s, d, o);
    var t := s.idle;
    forall p: Prio ensures QueueOk(r, p) {
      assert QueueOk(s, p);
    }
    forall u: Tid ensures ThreadOk(r, u, x) {
      assert ThreadOk(s, u, x);
      OtherThread(s, r, u + 1, d, u, x);
    }
    forall e: Id ensures ObjOk(r, e, y') {
      assert ObjOk(s, e, y);
      if e != d {
        OtherObject(s, r, t, d, e, y');
      }
    }
  }

  /** Changing one thread but not where it is queued, what it waits for or what it owns. */
  lemma ThreadEdit(s: State, t: Tid, th: Thread, x: Option<Tid>, x': Option<Tid>, y: Option<Id>)
    requires Inv(s, x, y) && (x == x' || x == Some(t) || (x' == Some(t) && x == None))
    requires var th0 := Th(s, t);
      && th.mode == th0.mode && th.priority == th0.priority && th.owned == th0.owned
      && (th.waitOn == th0.waitOn || th.mode != Waiting)
    requires ThreadOk(PutTh(s, t, th), t, x')
    requires t == s.idle ==> !th.kill && th.pending == None
    ensures Inv(PutTh(s, t, th), x', y)
  {
    hide WaitOk, OwnsOk, Donated;
    var r := PutTh(s, t, th);
    forall p: Prio ensures QueueOk(r, p) {
      assert QueueOk(s, p);
    }
    forall u: Tid ensures ThreadOk(r, u, x') {
      assert ThreadOk(s, u, x);
      if u != t {
        OtherThread(s, r, t, OfThread(0), u, x');
      }
    }
    forall e: Id ensures ObjOk(r, e, y) {
      assert ObjOk(s, e, y);
      OtherObject(s, r, t, OfThread(if e == OfThread(0) then 1 else 0), e, y);
    }
  }

  /** An object whose obligations are met again. */
  lemma Close(s: State, d: Id, x: Option<Tid>)
    requires Inv(s, x, Some(d)) && (Ob(s, d).signal > 0 ==> Ob(s, d).waiters == []) && Ob(s, d).kind != Mutant
    ensures Inv(s, x, None)
  {
    forall e: Id ensures ObjOk(s, e, None) {
      assert ObjOk(s, e, Some(d));
    }
  }

  /* ---- signalling ---- */

  lemma {:induction false} WakeAllInv(s: State, d: Id, x: Option<Tid>)
    requires Inv(s, x, Some(d)) && Ob(s, d).kind != Mutant
    ensures Inv(WakeAll(s, d, Success), x, None)
    decreases |Ob(s, d).waiters|
  {
    hide Inv, WakeOne;
    if Ob(s, d).waiters == [] {
      Close(s, d, x);
    } else {
      WakeOneInv(s, d, x);
      WakeAllInv(WakeOne(s, d, Success), d, x);
    }
  }

  lemma {:induction false} WakeWhileInv(s: State, d: Id, x: Option<Tid>)
    requires Inv(s, x, Some(d)) && Ob(s, d).kind != Mutant
    ensures Inv(WakeWhile(s, d), x, None)
    decreases |Ob(s, d).waiters|
  {
    hide Inv, WakeOne;
    if Ob(s, d).signal <= 0 || Ob(s, d).waiters == [] {
      Close(s, d, x);
    } else {
      WakeOneInv(s, d, x);
      var s1 := WakeOne(s, d, Success);
      var o := Ob(s1, d);
      if o.kind in {Synchronization, Mutant} {
        ObjectEdit(s1, d, o.(signal := o.signal - 1), x, Some(d), Some(d));
        WakeWhileInv(PutOb(s1, d, o.(signal := o.signal - 1)), d, x);
      } else {
        WakeWhileInv(s1, d, x);
      }
    }
  }

  lemma SignalInv(s: State, d: Id, x: Option<Tid>)
    requires Inv(s, x, None) && Ob(s, d).kind != Mutant
    ensures Inv(Signal(s, d), x, None)
  {
    hide Inv, WakeOne;
    var o := Ob(s, d).(signal := Ob(s, d).signal + 1);
    ObjectEdit(s, d, o, x, None, Some(d));
    if o.kind == Notification {
      WakeAllInv(PutOb(s, d, o), d, x);
    } else {
      WakeWhileInv(PutOb(s, d, o), d, x);
    }
  }

  /* ---- priorities ---- */

  lemma BoostQueues(s: State, t: Tid, p: Prio)
    requires (forall q: Prio :: QueueOk(s, q)) && Th(s, t).mode == Ready && t != s.idle
    ensures var r := Requeue(s, t, p);
      && (forall q: Prio :: QueueOk(r, q)) && SameQueues(s, r, t) && t in r.ready[p]
      && OnlyThread(s, r, t) && Th(r, t) == Th(s, t).(priority := p) && r.objs == s.objs && SameRest(s, r)
  {
    hide QueueOk, SameQueues, InNoQueue;
    var th := Th(s, t);
    Dequeued(s, t);
    var s1 := Dequeue(s, t);
    Enqueued(s1, PutTh(s1, t, th.(priority := p)), t);
    SameQueuesTrans(s, s1, Requeue(s, t, p), t);
  }

  function Dequeue(s: State, t: Tid): State {
    var k := Th(s, t).priority;
    var q := Without(s.ready[k], t);
    s.(ready := s.ready[k := q], mask := if q == [] then s.mask[k := false] else s.mask)
  }

  lemma Dequeued(s: State, t: Tid)
    requires forall q: Prio :: QueueOk(s, q)
    ensures var r := Dequeue(s, t); (forall q: Prio :: QueueOk(r, q)) && InNoQueue(r, t) && SameQueues(s, r, t)
  {
    var k, r := Th(s, t).priority, Dequeue(s, t);
    assert QueueOk(s, k);
    WithoutAll(s.ready[k], t);
    forall j: Prio ensures QueueOk(r, j) && t !in r.ready[j] {
      assert QueueOk(s, j);
      assert j == k && r.ready[k] != [] ==> r.ready[k][0] in s.ready[k];
    }
  }

  lemma SameQueuesTrans(s: State, m: State, r: State, t: Tid)
    requires SameQueues(s, m, t) && SameQueues(m, r, t)
    ensures SameQueues(s, r, t)
  {
    forall p: Prio, u: Tid | u != t ensures u in r.ready[p] <==> u in s.ready[p] {
      assert u in m.ready[p] <==> u in s.ready[p];
    }
  }

  lemma BoostShape(s: State, t: Tid, p: Prio)
    requires (forall q: Prio :: QueueOk(s, q)) && t != s.idle
    ensures var r := SchedBoost(s, t, p);
      && (forall q: Prio :: QueueOk(r, q)) && SameQueues(s, r, t) && OnlyThread(s, r, t)
      && Th(r, t) == Th(s, t).(priority := p)
      && (Th(s, t).mode == Ready && t in s.ready[Th(s, t).priority] ==> t in r.ready[p])
  {
    hide SameQueues;
    var th, r := Th(s, t), SchedBoost(s, t, p);
    if th.priority == p {
      assert SameQueues(s, r, t) by { SameQueuesRefl(s, t); }
    } else if th.mode == Ready {
      BoostQueues(s, t, p);
      var m := Requeue(s, t, p);
      assert r.ready == m.ready && r.mask == m.mask && r.threads == m.threads;
      forall q: Prio ensures QueueOk(r, q) {
        assert QueueOk(m, q);
      }
      SameReady(s, m, r, t);
    } else {
      NotQueued(s, t);
      forall q: Prio ensures QueueOk(r, q) {
        assert QueueOk(s, q) && t !in s.ready[q];
      }
      SameQueuesRefl(s, t);
      SameReady(s, s, r, t);
    }
  }

  lemma SameQueuesRefl(s: State, t: Tid)
    ensures SameQueues(s, s, t)
  {
  }

  lemma SameReady(s: State, m: State, r: State, t: Tid)
    requires SameQueues(s, m, t) && r.ready == m.ready
    ensures SameQueues(s, r, t)
  {
    forall p: Prio, u: Tid | u != t ensures u in r.ready[p] <==> u in s.ready[p] {
      assert u in m.ready[p] <==> u in s.ready[p];
    }
  }

  /** A change of priority, in whatever state the thread is, to one its boost record allows. */
  lemma BoostInv(s: State, t: Tid, p: Prio, x: Option<Tid>, y: Option<Id>)
    requires Inv(s, x, y) && t != s.idle && x in {None, Some(t)}
    requires p >= Th(s, t).base && Donated(Th(s, t).(priority := p))
    ensures Inv(SchedBoost(s, t, p), None, y)
  {
    hide QueueOk, SameQueues, OnlyObject, SchedBoost, NoDup;
    var r := SchedBoost(s, t, p);
    BoostShape(s, t, p);
    SameObjects(s, r);
    forall u: Tid ensures ThreadOk(r, u, None) {
      assert ThreadOk(s, u, x);
      if u != t {
        OtherThread(s, r, t, OfThread(0), u, None);
      }
    }
    forall e: Id ensures ObjOk(r, e, y) {
      assert ObjOk(s, e, y) && ThreadOk(s, t, x);
      OtherObject(s, r, t, OfThread(if e == OfThread(0) then 1 else 0), e, y);
    }
  }

  lemma SameObjects(s: State, r: State)
    requires r.objs == s.objs
    ensures forall d :: OnlyObject(s, r, d)
  {
  }

  /* ---- mutex steps ---- */

  lemma DonateInv(s: State, m: Id, t: Tid)
    requires Inv(s, None, None) && Ob(s, m).kind == Mutant
    ensures Inv(Donate(s, m, t), None, None)
  {
    hide Inv, SchedBoost, WaitOk;
    HasObject(s, m, None, None);
    if Ob(s, m).owner.Some? && Ob(s, m).owner != Some(t) && Th(s, t).priority > Th(s, Ob(s, m).owner.value).priority {
      var o := Ob(s, m).owner.value;
      HasThread(s, o, None, None);
      HasThread(s, t, None, None);
      IdleOwnsNothing(s, None, None);
      var th := Th(s, o).(saved := if Th(s, o).boost then Th(s, o).saved else Th(s, o).priority, boost := true);
      SameWait(s, o, th);
      ThreadEdit(s, o, th, None, None, None);
      BoostInv(PutTh(s, o, th), o, Th(s, t).priority, None, None);
    }
  }

  lemma IdleOwnsNothing(s: State, x: Option<Tid>, y: Option<Id>)
    requires Inv(s, x, y)
    ensures IdleOk(s)
  {
  }

  lemma UndonateInv(s: State, t: Tid)
    requires Inv(s, Some(t), None) && t != s.idle && (!Th(s, t).boost ==> Th(s, t).priority == Th(s, t).base)
    ensures Inv(Undonate(s, t), None, None)
  {
    hide Inv, SchedBoost, WaitOk, OwnsOk;
    var th := Th(s, t);
    HasThread(s, t, Some(t), None);
    if th.owned == [] && th.boost {
      SameWait(s, t, th.(boost := false));
      ThreadEdit(s, t, th.(boost := false), Some(t), Some(t), None);
      BoostInv(PutTh(s, t, th.(boost := false)), t, th.saved, Some(t), None);
    } else {
      Donor(s, t);
    }
  }

  lemma Donor(s: State, t: Tid)
    requires Inv(s, Some(t), None) && Donated(Th(s, t))
    ensures Inv(s, None, None)
  {
    hide WaitOk, OwnsOk, Donated;
    forall u: Tid ensures ThreadOk(s, u, None) {
      assert ThreadOk(s, u, Some(t));
    }
  }

  /** What a thread waits for and owns does not depend on its priority record. */
  lemma SameWait(s: State, t: Tid, th: Thread)
    requires WaitOk(s, t) && OwnsOk(s, t)
    requires var th0 := Th(s, t);
      && th.mode == th0.mode && th.waitOn == th0.waitOn && th.wake == th0.wake && th.pending == th0.pending
      && th.owned == th0.owned && th.kill == th0.kill
    ensures WaitOk(PutTh(s, t, th), t) && OwnsOk(PutTh(s, t, th), t)
  {
  }

  /** The owner lets go of a mutex. */
  function Dropped(s: State, m: Id, t: Tid, o: Obj): State {
    PutTh(PutOb(s, m, o), t, Th(s, t).(owned := Without(Th(s, t).owned, m)))
  }

  lemma DroppedInv(s: State, m: Id, t: Tid, o: Obj, x: Option<Tid>, y: Option<Id>)
    requires Inv(s, x, None) && x in {None, Some(t)} && Ob(s, m).kind == Mutant && Ob(s, m).owner == Some(t)
    requires o.kind == Mutant && o.waiters == Ob(s, m).waiters && o.owner == None
    requires y in {None, Some(m)} && (y == None ==> o.waiters == [] && o.signal == 1 && o.recursion == 0)
    requires Th(s, t).pending == None || Th(s, t).kill
    requires Th(s, t).mode != Waiting
    ensures Inv(Dropped(s, m, t, o), Some(t), y)
  {
    hide NoDup, QueueOk, Without, SameQueues;
    var r, th := Dropped(s, m, t, o), Th(s, t);
    HasThread(s, t, x, None);
    WithoutAll(th.owned, m);
    SameQueueStates(s, r, t);
    HasObject(s, m, x, None);
    DroppedSelf(s, m, t, o, x);
    forall u: Tid ensures ThreadOk(r, u, Some(t)) {
      assert ThreadOk(s, u, x);
      if u != t {
        OtherThread(s, r, t, m, u, Some(t));
      }
    }
    forall e: Id ensures ObjOk(r, e, y) {
      assert ObjOk(s, e, None);
      if e != m {
        OtherObject(s, r, t, m, e, y);
      }
    }
  }

  lemma DroppedSelf(s: State, m: Id, t: Tid, o: Obj, x: Option<Tid>)
    requires ThreadOk(s, t, x) && Th(s, t).mode != Waiting && (Th(s, t).pending == None || Th(s, t).kill)
    ensures ThreadOk(Dropped(s, m, t, o), t, Some(t))
  {
    hide NoDup, Without, WaitOk, OwnsOk, Donated;
    DroppedWait(s, m, t, o);
    DroppedOwns(s, m, t, o);
  }

  lemma DroppedWait(s: State, m: Id, t: Tid, o: Obj)
    requires WaitOk(s, t) && Th(s, t).mode != Waiting && (Th(s, t).pending == None || Th(s, t).kill)
    ensures WaitOk(Dropped(s, m, t, o), t)
  {
    hide Without;
  }

  lemma DroppedOwns(s: State, m: Id, t: Tid, o: Obj)
    requires OwnsOk(s, t)
    ensures OwnsOk(Dropped(s, m, t, o), t)
  {
    hide NoDup;
    var l, r := Th(s, t).owned, Dropped(s, m, t, o);
    WithoutAll(l, m);
    forall k | k in Without(l, m) ensures Ob(r, k).kind == Mutant && Ob(r, k).owner == Some(t) {
      assert k in l && Ob(r, k) == Ob(s, k);
    }
  }

  lemma SameQueueStates(s: State, r: State, t: Tid)
    requires (forall p: Prio :: QueueOk(s, p)) && r.ready == s.ready && r.mask == s.mask && OnlyThread(s, r, t)
    requires Th(r, t).mode == Th(s, t).mode && Th(r, t).priority == Th(s, t).priority
    ensures (forall p: Prio :: QueueOk(r, p)) && SameQueues(s, r, t)
  {
    forall p: Prio ensures QueueOk(r, p) {
      assert QueueOk(s, p);
    }
  }

  lemma AbandonInv(s: State, m: Id, t: Tid, x: Option<Tid>)
    requires Inv(s, x, None) && x in {None, Some(t)} && Ob(s, m).kind == Mutant && Ob(s, m).owner == Some(t)
    requires (Th(s, t).pending == None || Th(s, t).kill) && Th(s, t).mode != Waiting
    ensures Inv(Abandon(s, m, t), Some(t), None)
    ensures var th := Th(s, t); Th(Abandon(s, m, t), t) == th.(owned := Without(th.owned, m))
  {
    hide Inv, WakeOne;
    var o := Ob(s, m).(owner := None, recursion := 0, abandoned := true);
    if o.waiters != [] {
      var r := Dropped(s, m, t, o.(signal := 0));
      DroppedInv(s, m, t, o.(signal := 0), x, Some(m));
      FirstWaiter(r, m, Some(t), Some(m));
      HandOverInv(r, m, Abandoned, Some(t));
      WakeOneThread(r, m, Abandoned, t);
    } else {
      DroppedInv(s, m, t, o.(signal := 1), x, None);
    }
  }

  lemma WakeOneThread(s: State, d: Id, st: Status, t: Tid)
    requires Ob(s, d).waiters != [] ==> Ob(s, d).waiters[0] != t
    ensures Th(WakeOne(s, d, st), t) == Th(s, t)
  {
    hide SchedReady, Without;
    if Ob(s, d).waiters != [] {
      var w := Ob(s, d).waiters[0];
      var s1 := PutOb(s, d, Ob(s, d).(waiters := Ob(s, d).waiters[1..]));
      var s2 := PutTh(s1, w, Th(s1, w).(wake := st));
      var s3 := if Ob(s, d).kind == Mutant then GiveTo(s2, d, w, st) else s2;
      SchedReadyThread(s3, w, t);
    }
  }

  lemma SchedReadyThread(s: State, w: Tid, t: Tid)
    requires t != w
    ensures Th(SchedReady(s, w), t) == Th(s, t)
  {
  }

  lemma {:induction false} AbandonAllInv(s: State, ms: seq<Id>, t: Tid, x: Option<Tid>)
    requires Inv(s, x, None) && x in {None, Some(t)} && ms == Th(s, t).owned
    requires (Th(s, t).pending == None || Th(s, t).kill) && Th(s, t).mode != Waiting
    ensures var r := AbandonAll(s, ms, t); Inv(r, Some(t), None) && Th(r, t) == Th(s, t).(owned := [])
    decreases |ms|
  {
    hide Inv, Abandon;
    HasThread(s, t, x, None);
    if ms == [] {
      Exempt(s, t, x);
      assert Th(s, t) == Th(s, t).(owned := []);
    } else {
      assert ms[0] in Th(s, t).owned;
      AbandonInv(s, ms[0], t, x);
      WithoutFirst(ms);
      AbandonAllInv(Abandon(s, ms[0], t), ms[1..], t, Some(t));
    }
  }

  lemma Exempt(s: State, t: Tid, x: Option<Tid>)
    requires Inv(s, x, None) && x in {None, Some(t)}
    ensures Inv(s, Some(t), None)
  {
    hide WaitOk, OwnsOk, Donated;
    forall u: Tid ensures ThreadOk(s, u, Some(t)) {
      assert ThreadOk(s, u, x);
    }
  }

  lemma ReleaseInv(s: State, m: Id)
    requires Inv(s, None, None) && Ob(s, m).kind == Mutant && s.current.Some? && s.current.value != s.idle
    requires Th(s, s.current.value).mode == Running && Th(s, s.current.value).pending == None
    ensures Inv(Release(s, m).0, None, None)
  {
    hide Inv, Undonate, ThreadOk;
    var o, t := Ob(s, m), s.current.value;
    HasObject(s, m, None, None);
    if o.owner == Some(t) && o.recursion > 1 {
      ObjectEdit(s, m, o.(recursion := o.recursion - 1), None, None, None);
    } else if o.owner == Some(t) && o.recursion == 1 {
      hide Release;
      if o.waiters == [] {
        ReleasedFree(s, m);
        LastRelease(s, m, t, o.(owner := None, recursion := 0, signal := 1));
      } else {
        ReleasedOver(s, m);
        LastRelease(s, m, t, o.(owner := None, recursion := 0));
      }
    }
  }

  lemma LastRelease(s: State, m: Id, t: Tid, o: Obj)
    requires Inv(s, None, None) && Ob(s, m).kind == Mutant && Ob(s, m).owner == Some(t) && t != s.idle
    requires Th(s, t).mode == Running && Th(s, t).pending == None
    requires o.kind == Mutant && o.waiters == Ob(s, m).waiters && o.owner == None && o.recursion == 0
    requires o.waiters == [] ==> o.signal == 1
    ensures var r := Dropped(s, m, t, o);
      Inv(Undonate(if o.waiters == [] then r else WakeOne(r, m, Success), t), None, None)
  {
    hide Inv, Undonate, WakeOne, Without;
    HasThread(s, t, None, None);
    var r := Dropped(s, m, t, o);
    if o.waiters == [] {
      DroppedInv(s, m, t, o, None, None);
      UndonateInv(r, t);
    } else {
      DroppedInv(s, m, t, o, None, Some(m));
      FirstWaiter(r, m, Some(t), Some(m));
      HandOverInv(r, m, Success, Some(t));
      WakeOneThread(r, m, Success, t);
      UndonateInv(WakeOne(r, m, Success), t);
    }
  }

  lemma ReleasedOver(s: State, m: Id)
    requires s.current.Some? && Ob(s, m).owner == s.current && Ob(s, m).recursion == 1 && Ob(s, m).waiters != []
    ensures var t := s.current.value;
      Release(s, m).0 == Undonate(WakeOne(Dropped(s, m, t, Ob(s, m).(owner := None, recursion := 0)), m, Success), t)
  {
    hide Undonate, WakeOne, Without;
  }

  lemma ReleasedFree(s: State, m: Id)
    requires s.current.Some? && Ob(s, m).owner == s.current && Ob(s, m).recursion == 1 && Ob(s, m).waiters == []
    ensures var t := s.current.value;
      Release(s, m).0 == Undonate(Dropped(s, m, t, Ob(s, m).(owner := None, recursion := 0, signal := 1)), t)
  {
    hide Undonate;
    var o, t := Ob(s, m), s.current.value;
    var s1 := Disown(PutOb(s, m, o.(owner := None, recursion := 0)), m, t);
    assert PutOb(s1, m, Ob(s1, m).(signal := 1)).objs == s.objs[m := o.(owner := None, recursion := 0, signal := 1)];
  }
}
