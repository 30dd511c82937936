/**
 What the dispatcher and the scheduler promise, stated of the state alone and proved of every run.
 */
module KernelSafety {
  import opened Common
  import opened KernelState
  import opened KernelInvariant
  import opened KernelSteps
  import opened KernelRuns
  import opened KernelOperations

  /** The thread is where its mode says and nowhere else. */
  ghost predicate OnePlace(s: State, t: Tid) {
    var th := Th(s, t);
    && (s.current == Some(t) <==> th.mode == Running)
    && (forall p: Prio :: t in s.ready[p] <==> th.mode == Ready && p == th.priority)
    && (forall d: Id :: t in Ob(s, d).waiters <==> th.mode == Waiting && th.waitOn == Some(d))
  }

  ghost predicate Places(s: State) {
    && (forall t: Tid :: t != s.idle ==> OnePlace(s, t))
    && (forall p: Prio :: NoDup(s.ready[p]) && (s.mask[p] <==> s.ready[p] != []))
    && (forall d: Id :: NoDup(Ob(s, d).waiters))
  }

  ghost predicate FreeMutex(s: State, m: Id) {
    var o := Ob(s, m);
    o.owner == None && o.signal == 1 && o.recursion == 0 && forall t: Tid :: m !in Th(s, t).owned
  }

  ghost predicate HeldMutex(s: State, m: Id, t: Tid) {
    var o := Ob(s, m);
    && o.owner == Some(t) && o.signal == 0 && o.recursion >= 1 && Th(s, t).mode != Terminated
    && NoDup(Th(s, t).owned) && forall u: Tid :: m in Th(s, u).owned <==> u == t
  }

  /** A mutex is free, or held by exactly one thread that has not ended. */
  ghost predicate Mutexes(s: State) {
    forall m: Id :: Ob(s, m).kind == Mutant ==> FreeMutex(s, m) || exists t: Tid :: HeldMutex(s, m, t)
  }

  ghost predicate NoLostWakeup(s: State) {
    forall d: Id :: Ob(s, d).signal > 0 ==> Ob(s, d).waiters == []
  }

  ghost predicate Unwound(th: Thread) {
    && th.priority >= th.base
    && (th.boost ==> th.saved == th.base)
    && (th.mode != Terminated && th.owned == [] ==> th.priority == th.base)
  }

  ghost predicate Safe(s: State) {
    && Places(s) && Mutexes(s) && NoLostWakeup(s)
    && (forall t: Tid :: Unwound(Th(s, t)))
    && (s.current.Some? ==> !Th(s, s.current.value).kill)
  }

  lemma PlaceOf(s: State, t: Tid)
    requires Inv(s, None, None) && Settled(s) && t != s.idle
    ensures OnePlace(s, t)
  {
    hide NoDup, OwnsOk, Donated;
    assert ThreadOk(s, t, None);
    forall p: Prio ensures t in s.ready[p] <==> Th(s, t).mode == Ready && p == Th(s, t).priority {
      assert QueueOk(s, p);
    }
    forall d: Id ensures t in Ob(s, d).waiters <==> Th(s, t).mode == Waiting && Th(s, t).waitOn == Some(d) {
      assert ObjOk(s, d, None);
    }
  }

  lemma MutexOf(s: State, m: Id)
    requires Inv(s, None, None) && Ob(s, m).kind == Mutant
    ensures FreeMutex(s, m) || exists t: Tid :: HeldMutex(s, m, t)
  {
    hide NoDup, WaitOk;
    assert ObjOk(s, m, None);
    forall t: Tid ensures m in Th(s, t).owned ==> Ob(s, m).owner == Some(t) {
      assert ThreadOk(s, t, None);
    }
    if Ob(s, m).owner.Some? {
      assert ThreadOk(s, Ob(s, m).owner.value, None);
      assert HeldMutex(s, m, Ob(s, m).owner.value);
    }
  }

  lemma GoodIsSafe(s: State)
    requires Good(s) && !s.panicked
    ensures Safe(s)
  {
    hide NoDup, WaitOk, OnePlace, FreeMutex, HeldMutex;
    forall t: Tid | t != s.idle ensures OnePlace(s, t) {
      PlaceOf(s, t);
    }
    forall p: Prio ensures NoDup(s.ready[p]) && (s.mask[p] <==> s.ready[p] != []) {
      assert QueueOk(s, p);
    }
    forall d: Id ensures NoDup(Ob(s, d).waiters) && (Ob(s, d).signal > 0 ==> Ob(s, d).waiters == []) {
      assert ObjOk(s, d, None);
    }
    forall t: Tid ensures Unwound(Th(s, t)) {
      assert ThreadOk(s, t, None);
    }
    forall m: Id | Ob(s, m).kind == Mutant ensures FreeMutex(s, m) || exists t: Tid :: HeldMutex(s, m, t) {
      MutexOf(s, m);
    }
  }

  /** Every run from start-up that has not panicked is in a safe state. */
  lemma EveryRun(idle: Tid, ops: seq<Op>)
    requires Legal(Boot(idle), ops)
    ensures var s := Run(Boot(idle), ops); !s.panicked ==> Safe(s)
  {
    var s := Run(Boot(idle), ops);
    if !s.panicked {
      GoodIsSafe(s);
    }
  }

  /* ---- what a wait returns ---- */

  /**
   A wait on a mutex that comes back with success or abandonment, at once or after blocking, comes back to the owner.
   */
  lemma AcquireMakesOwner(s: State, m: Id, t: Tid, timeout: Option<nat>)
    requires Good(s) && !s.panicked && s.current == Some(t) && Ob(s, m).kind == Mutant
    ensures Attempt(s, m, t, timeout).1 in {Some(Success), Some(Abandoned)} ==> Ob(Attempt(s, m, t, timeout).0, m).owner == s.current
    ensures Th(s, t).pending == Some(m) && Th(s, t).wake in {Success, Abandoned} ==> Ob(ReturnStep(s), m).owner == s.current
  {
    hide NoDup, OwnsOk, Donate, Without;
    HasThread(s, t, None, None);
  }

  /* ---- signalling ---- */

  /** Setting an unsignalled auto-reset event releases exactly the waiter that came first. */
  lemma AutoResetReleasesOne(s: State, d: Id)
    requires Inv(s, None, None) && Ob(s, d).kind == Synchronization && Ob(s, d).signal == 0 && Ob(s, d).waiters != []
    ensures var r, w := Signal(s, d), Ob(s, d).waiters[0];
      && Ob(r, d).waiters == Ob(s, d).waiters[1..] && Ob(r, d).signal == 0
      && Th(r, w).mode == Ready && Th(r, w).wake == Success
      && forall u: Tid :: u != w ==> Th(r, u) == Th(s, u)
  {
    hide WakeOne, Inv;
    var o, w := Ob(s, d), Ob(s, d).waiters[0];
    var s1 := PutOb(s, d, o.(signal := 1));
    FirstWaiter(s, d, None, None);
    var s2 := WakeOne(s1, d, Success);
    Released(s1, d);
    var s3 := PutOb(s2, d, Ob(s2, d).(signal := 0));
    assert WakeWhile(s1, d) == WakeWhile(s3, d) == s3;
    forall u: Tid | u != w ensures Th(s3, u) == Th(s, u) {
      WakeOneThread(s1, d, Success, u);
    }
  }

  lemma Released(s: State, d: Id)
    requires Ob(s, d).waiters != [] && Th(s, Ob(s, d).waiters[0]).mode == Waiting && Ob(s, d).kind != Mutant
    ensures var r, w := WakeOne(s, d, Success), Ob(s, d).waiters[0];
      Th(r, w).mode == Ready && Th(r, w).wake == Success && Ob(r, d) == Ob(s, d).(waiters := Ob(s, d).waiters[1..])
  {
  }

  /** Setting anything but an auto-reset event or a mutex leaves nobody waiting. */
  lemma SignalReleasesAll(s: State, d: Id)
    requires Good(s) && Ob(s, d).kind in {Notification, Timer, ThreadEnd, ProcessEnd} && Ob(s, d).signal >= 0
    ensures Ob(Signal(s, d), d).waiters == [] && Ob(Signal(s, d), d).signal == Ob(s, d).signal + 1
    ensures forall w :: w in Ob(s, d).waiters ==> Th(Signal(s, d), w).mode == Ready && Th(Signal(s, d), w).wake == Success
  {
    hide Inv, WakeOne;
    var s1 := PutOb(s, d, Ob(s, d).(signal := Ob(s, d).signal + 1));
    ObjectEdit(s, d, Ob(s1, d), None, None, Some(d));
    WakesEveryone(s1, d);
    if Ob(s, d).kind != Notification {
      WhileIsAll(s1, d);
    }
  }

  lemma {:induction false} WhileIsAll(s: State, d: Id)
    requires Ob(s, d).signal > 0 && Ob(s, d).kind in {Timer, ThreadEnd, ProcessEnd} && Inv(s, None, Some(d))
    ensures WakeWhile(s, d) == WakeAll(s, d, Success)
    decreases |Ob(s, d).waiters|
  {
    hide Inv, WakeOne;
    if Ob(s, d).waiters != [] {
      FirstWaiter(s, d, None, Some(d));
      Released(s, d);
      WakeOneInv(s, d, None);
      WhileIsAll(WakeOne(s, d, Success), d);
    }
  }

  lemma {:induction false} WakesEveryone(s: State, d: Id)
    requires Inv(s, None, Some(d)) && Ob(s, d).kind != Mutant
    ensures var r := WakeAll(s, d, Success);
      && Ob(r, d).waiters == [] && Ob(r, d).signal == Ob(s, d).signal
      && (forall w :: w in Ob(s, d).waiters ==> Th(r, w).mode == Ready && Th(r, w).wake == Success)
      && (forall u: Tid :: u !in Ob(s, d).waiters ==> Th(r, u) == Th(s, u))
    decreases |Ob(s, d).waiters|
  {
    hide Inv, WakeOne;
    if Ob(s, d).waiters != [] {
      var l, s1 := Ob(s, d).waiters, WakeOne(s, d, Success);
      FirstWaiter(s, d, None, Some(d));
      Released(s, d);
      WakeOneInv(s, d, None);
      WakesEveryone(s1, d);
      forall u: Tid | u != l[0] ensures Th(s1, u) == Th(s, u) {
        WakeOneThread(s, d, Success, u);
      }
      assert forall w :: w in l ==> w == l[0] || w in l[1..];
    }
  }

  /* ---- timeouts ---- */

  lemma ExpireOne(s: State, t: Tid)
    ensures !Overdue(Expire(s, t), t) && Expire(s, t).ticks == s.ticks
  {
    hide SchedReady, Without;
    if Overdue(s, t) {
      var s1 := match Th(s, t).waitOn
        case None => s
        case Some(d) =>
          PutTh(PutOb(s, d, Ob(s, d).(waiters := Without(Ob(s, d).waiters, t))), t, Th(s, t).(wake := Timeout, timed := false));
      MadeReady(s1, t);
    }
  }

  lemma MadeReady(s: State, t: Tid)
    requires Th(s, t).mode == Waiting
    ensures Th(SchedReady(s, t), t).mode == Ready
  {
  }

  lemma ExpireOther(s: State, t: Tid, u: Tid)
    requires u != t
    ensures Th(Expire(s, t), u) == Th(s, u)
  {
    hide SchedReady, Without;
    if Overdue(s, t) {
      var s1 := match Th(s, t).waitOn
        case None => s
        case Some(d) =>
          PutTh(PutOb(s, d, Ob(s, d).(waiters := Without(Ob(s, d).waiters, t))), t, Th(s, t).(wake := Timeout, timed := false));
      SchedReadyThread(s1, t, u);
    }
  }

  lemma ExpireKeeps(s: State, t: Tid, u: Tid)
    requires !Overdue(s, u)
    ensures !Overdue(Expire(s, t), u)
  {
    hide Expire;
    if u == t {
      ExpireOne(s, t);
    } else {
      ExpireOther(s, t, u);
      ExpireOne(s, t);
    }
  }

  /** The scan leaves no listed thread waiting past its time. */
  lemma {:induction false} TimeoutsFire(s: State, ts: seq<Tid>, u: Tid)
    requires u in ts || !Overdue(s, u)
    ensures !Overdue(ExpireAll(s, ts), u)
    decreases |ts|
  {
    hide Expire, Overdue;
    if ts != [] {
      if u == ts[0] {
        ExpireOne(s, u);
      } else if u !in ts[1..] {
        assert u !in ts;
        ExpireKeeps(s, ts[0], u);
      }
      TimeoutsFire(Expire(s, ts[0]), ts[1..], u);
    }
  }

  lemma {:induction false} ExpireAllKeeps(s: State, ts: seq<Tid>)
    ensures ExpireAll(s, ts).procs == s.procs
    decreases |ts|
  {
    hide Expire;
    if ts != [] {
      ExpireLive(s, ts[0]);
      ExpireAllKeeps(Expire(s, ts[0]), ts[1..]);
    }
  }

  /** After the scan of a tick, no thread of a listed process that still has threads waits past its time. */
  lemma {:induction false} TableTimeoutsFire(s: State, ps: seq<Pid>, p: Pid, u: Tid)
    requires (p in ps && Pr(s, p).count > 0 && u in Pr(s, p).members) || !Overdue(s, u)
    ensures !Overdue(ExpireTable(s, ps), u)
    decreases |ps|
  {
    hide ExpireAll, Overdue;
    if ps != [] {
      var s1 := if Pr(s, ps[0]).count == 0 then s else ExpireAll(s, Pr(s, ps[0]).members);
      ExpireAllKeeps(s, Pr(s, ps[0]).members);
      if !Overdue(s, u) || p == ps[0] {
        TimeoutsFire(s, Pr(s, ps[0]).members, u);
      }
      TableTimeoutsFire(s1, ps[1..], p, u);
    }
  }

  /* ---- handing a mutex on ---- */

  lemma HandedTo(s: State, m: Id, st: Status)
    requires Inv(s, None, Some(m)) || exists t: Tid :: Inv(s, Some(t), Some(m))
    requires Ob(s, m).waiters != [] && Ob(s, m).kind == Mutant && Ob(s, m).owner == None
    ensures var r, w := WakeOne(s, m, st), Ob(s, m).waiters[0];
      && Ob(r, m).owner == Some(w) && Ob(r, m).recursion == 1 && Ob(r, m).waiters == Ob(s, m).waiters[1..]
      && (Ob(r, m).abandoned <==> st == Abandoned)
      && Th(r, w).mode == Ready && Th(r, w).wake == st && m in Th(r, w).owned
  {
    hide SchedReady, Inv, Without;
    var w := Ob(s, m).waiters[0];
    var x: Option<Tid> :| Inv(s, x, Some(m));
    FirstWaiter(s, m, x, Some(m));
    HasThread(s, w, x, Some(m));
    HandOverIsWoken(s, m, st);
    HandedShape(s, w, m, Th(s, w).(wake := st, owned := Th(s, w).owned + [m]), Ob(WakeOne(s, m, st), m), x);
  }

  lemma HandedShape(s: State, w: Tid, m: Id, th: Thread, o: Obj, x: Option<Tid>)
    requires Inv(s, x, Some(m)) && Th(s, w).mode == Waiting && th.mode == Waiting
    ensures Th(Woken(s, w, m, th, o), w) == th.(mode := Ready) && Ob(Woken(s, w, m, th, o), m) == o
  {
    hide Woken, ThreadOk, ObjOk;
    WokenShape(s, w, m, th, o);
  }

  /** The last release of a mutex with waiters makes the first of them its owner, with success. */
  lemma ReleaseHandsOver(s: State, m: Id)
    requires Good(s) && !s.panicked && s.current.Some? && Acting(s, s.current.value)
    requires Ob(s, m).kind == Mutant && Ob(s, m).owner == s.current && Ob(s, m).recursion == 1 && Ob(s, m).waiters != []
    ensures var r, w := ReleaseStep(s, m), Ob(s, m).waiters[0];
      && Ob(r, m).owner == Some(w) && Ob(r, m).recursion == 1 && Ob(r, m).waiters == Ob(s, m).waiters[1..]
      && !Ob(r, m).abandoned && Th(r, w).mode == Ready && Th(r, w).wake == Success
  {
    hide Inv, WakeOne, Undonate, Release, Without;
    var t, w, o := s.current.value, Ob(s, m).waiters[0], Ob(s, m).(owner := None, recursion := 0);
    var d := Dropped(s, m, t, o);
    FirstWaiter(s, m, None, None);
    DroppedInv(s, m, t, o, None, Some(m));
    HandedTo(d, m, Success);
    ReleasedOver(s, m);
    UndonateOther(WakeOne(d, m, Success), t, w);
  }

  lemma UndonateOther(s: State, t: Tid, u: Tid)
    requires t != u
    ensures Undonate(s, t).objs == s.objs && Th(Undonate(s, t), u) == Th(s, u)
  {
    hide SchedBoost;
    var th := Th(s, t);
    SchedBoostThread(PutTh(s, t, th.(boost := false)), t, th.saved, u);
  }

  /** When the owner dies, the first waiter owns the mutex and learns that it was abandoned; without one it is free. */
  lemma AbandonHandsOver(s: State, m: Id, t: Tid)
    requires Inv(s, None, None) && Ob(s, m).kind == Mutant && Ob(s, m).owner == Some(t)
    requires (Th(s, t).pending == None || Th(s, t).kill) && Th(s, t).mode != Waiting
    ensures var r, l := Abandon(s, m, t), Ob(s, m).waiters;
      && (l == [] ==> Ob(r, m).owner == None && Ob(r, m).signal == 1 && Ob(r, m).abandoned)
      && (l != [] ==> Ob(r, m).owner == Some(l[0]) && Ob(r, m).waiters == l[1..] && Th(r, l[0]).wake == Abandoned && Ob(r, m).abandoned)
  {
    hide Inv, WakeOne, Without;
    var o := Ob(s, m).(owner := None, recursion := 0, abandoned := true, signal := 0);
    if o.waiters != [] {
      DroppedInv(s, m, t, o, None, Some(m));
      HandedTo(Dropped(s, m, t, o), m, Abandoned);
    }
  }
}
