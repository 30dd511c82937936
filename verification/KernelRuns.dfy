/**
 Whole runs: every operation from creation to exit, in any order, and what holds after each.
 */
module KernelRuns {
  import opened Common
  import opened KernelState
  import opened KernelInvariant
  import opened KernelSteps

  /* ---- threads that can still run ---- */

  predicate Active(th: Thread) { th.mode in {Ready, Running, Waiting} }

  function Live(s: State): set<Tid> {
    set t | t in s.threads && Active(Th(s, t))
  }

  /** Neither ended nor begun, still running if it ran, as far along in its wait, in the same process, with the same exit status. */
  ghost predicate Kept(a: Thread, b: Thread) {
    && (Active(b) <==> Active(a)) && (a.mode == Running ==> b.mode == Running)
    && b.kill == a.kill && b.pending == a.pending
    && b.proc == a.proc && b.exit == a.exit && (b.mode == Terminated <==> a.mode == Terminated)
  }

  ghost predicate SameLive(s: State, r: State) {
    forall t: Tid :: Kept(Th(s, t), Th(r, t))
  }

  lemma SameLiveTrans(s: State, m: State, r: State)
    requires SameLive(s, m) && SameLive(m, r)
    ensures SameLive(s, r)
  {
    forall t: Tid ensures Kept(Th(s, t), Th(r, t)) {
      assert Kept(Th(s, t), Th(m, t)) && Kept(Th(m, t), Th(r, t));
    }
  }

  lemma LiveIs(s: State, t: Tid)
    ensures t in Live(s) <==> Active(Th(s, t))
  {
  }

  lemma SameLiveSet(s: State, r: State)
    requires SameLive(s, r)
    ensures Live(r) == Live(s)
  {
    forall t: Tid ensures t in Live(r) <==> t in Live(s) {
      assert Kept(Th(s, t), Th(r, t));
      LiveIs(s, t);
      LiveIs(r, t);
    }
  }

  lemma SchedReadyLive(s: State, t: Tid)
    requires Active(Th(s, t))
    ensures SameLive(s, SchedReady(s, t))
  {
  }

  lemma SchedBoostLive(s: State, t: Tid, p: Prio)
    ensures SameLive(s, SchedBoost(s, t, p))
  {
    hide SchedBoost;
    SchedBoostSelf(s, t, p);
    forall u: Tid ensures Kept(Th(s, u), Th(SchedBoost(s, t, p), u)) {
      if u != t {
        SchedBoostThread(s, t, p, u);
      }
    }
  }

  lemma SchedBoostSelf(s: State, t: Tid, p: Prio)
    ensures Kept(Th(s, t), Th(SchedBoost(s, t, p), t))
  {
    hide Requeue;
    RequeueSelf(s, t, p);
  }

  lemma RequeueSelf(s: State, t: Tid, p: Prio)
    ensures Th(Requeue(s, t, p), t) == Th(s, t).(priority := p)
  {
    hide Without;
  }

  lemma WakeOneLive(s: State, d: Id, st: Status)
    ensures SameLive(s, WakeOne(s, d, st))
  {
    if Ob(s, d).waiters != [] {
      hide WakeOne;
      var w := Ob(s, d).waiters[0];
      WakeOneSelf(s, d, st);
      forall t: Tid ensures Kept(Th(s, t), Th(WakeOne(s, d, st), t)) {
        if t != w {
          WakeOneThread(s, d, st, t);
        }
      }
    }
  }

  lemma WakeOneSelf(s: State, d: Id, st: Status)
    requires Ob(s, d).waiters != []
    ensures var w := Ob(s, d).waiters[0]; Kept(Th(s, w), Th(WakeOne(s, d, st), w))
  {
    hide SchedReady, GiveTo, SameLive;
    var w := Ob(s, d).waiters[0];
    var s1 := PutOb(s, d, Ob(s, d).(waiters := Ob(s, d).waiters[1..]));
    var s2 := PutTh(s1, w, Th(s1, w).(wake := st));
    var s3 := if Ob(s, d).kind == Mutant then GiveTo(s2, d, w, st) else s2;
    GivenSelf(s2, d, w, st);
    assert Kept(Th(s, w), Th(s3, w));
    if Th(s3, w).mode == Waiting {
      SchedReadyLive(s3, w);
      LiveAt(s3, SchedReady(s3, w), w);
    }
  }

  lemma GivenSelf(s: State, m: Id, t: Tid, st: Status)
    ensures Kept(Th(s, t), Th(GiveTo(s, m, t, st), t))
  {
    hide Without;
  }

  lemma LiveAt(s: State, r: State, t: Tid)
    requires SameLive(s, r)
    ensures Kept(Th(s, t), Th(r, t))
  {
  }

  lemma {:induction false} WakeAllLive(s: State, d: Id, st: Status)
    ensures SameLive(s, WakeAll(s, d, st))
    decreases |Ob(s, d).waiters|
  {
    hide WakeOne;
    if Ob(s, d).waiters != [] {
      WakeOneLive(s, d, st);
      WakeAllLive(WakeOne(s, d, st), d, st);
      SameLiveTrans(s, WakeOne(s, d, st), WakeAll(s, d, st));
    }
  }

  lemma {:induction false} WakeWhileLive(s: State, d: Id)
    ensures SameLive(s, WakeWhile(s, d))
    decreases |Ob(s, d).waiters|
  {
    hide WakeOne;
    if Ob(s, d).signal > 0 && Ob(s, d).waiters != [] {
      WakeOneLive(s, d, Success);
      var s1 := WakeOne(s, d, Success);
      var o := Ob(s1, d);
      var s2 := if o.kind in {Synchronization, Mutant} then PutOb(s1, d, o.(signal := o.signal - 1)) else s1;
      SameThreads(s, s1, s2);
      WakeWhileLive(s2, d);
      SameLiveTrans(s, s2, WakeWhile(s, d));
    }
  }

  lemma SameThreads(s: State, m: State, r: State)
    requires SameLive(s, m) && r.threads == m.threads
    ensures SameLive(s, r)
  {
    forall t: Tid ensures Kept(Th(s, t), Th(r, t)) {
      assert Kept(Th(s, t), Th(m, t));
    }
  }

  lemma SignalLive(s: State, d: Id)
    ensures SameLive(s, Signal(s, d))
  {
    hide WakeAll, WakeWhile;
    var s1 := PutOb(s, d, Ob(s, d).(signal := Ob(s, d).signal + 1));
    WakeAllLive(s1, d, Success);
    WakeWhileLive(s1, d);
    SameLiveTrans(s, s1, Signal(s, d));
  }

  lemma AbandonLive(s: State, m: Id, t: Tid)
    ensures SameLive(s, Abandon(s, m, t))
  {
    hide WakeOne, Without;
    var s1 := Disown(s, m, t);
    var o := Ob(s1, m).(owner := None, recursion := 0, abandoned := true);
    var s2 := PutOb(s1, m, o.(signal := 0));
    WakeOneLive(s2, m, Abandoned);
    SameLiveTrans(s, s2, WakeOne(s2, m, Abandoned));
  }

  lemma {:induction false} AbandonAllLive(s: State, ms: seq<Id>, t: Tid)
    ensures SameLive(s, AbandonAll(s, ms, t))
    decreases |ms|
  {
    hide Abandon;
    if ms != [] {
      AbandonLive(s, ms[0], t);
      AbandonAllLive(Abandon(s, ms[0], t), ms[1..], t);
      SameLiveTrans(s, Abandon(s, ms[0], t), AbandonAll(s, ms, t));
    }
  }

  lemma DepartLive(s: State, p: Pid, st: Status)
    ensures SameLive(s, Depart(s, p, st))
  {
    hide Signal, RemoveFromTable;
    var pr := Pr(s, p);
    var n := if pr.count > 0 then pr.count - 1 else 0xFFFF_FFFF;
    var s1 := PutPr(s, p, Down(pr, n, st));
    SignalLive(s1, OfProcess(p));
    SameThreads(s, s, s1);
    SameLiveTrans(s, s1, Signal(s1, OfProcess(p)));
    SameThreads(s, if n > 0 || p == 1 then s1 else Signal(s1, OfProcess(p)), Depart(s, p, st));
  }

  /** Leaving takes exactly the one thread out. */
  lemma LeaveLive(s: State, t: Tid, st: Status)
    ensures Live(Leave(s, t, st)) == Live(s) - {t}
  {
    hide AbandonAll, Signal, Depart, Without;
    var s1 := Unlink(s, t);
    var s2 := AbandonAll(s1, Th(s1, t).owned, t);
    AbandonAllLive(s1, Th(s1, t).owned, t);
    var s3 := PutTh(s2, t, Th(s2, t).(exit := st, mode := Terminated));
    var s4 := Signal(s3, OfThread(t));
    SignalLive(s3, OfThread(t));
    DepartLive(s4, Th(s4, t).proc, st);
    forall u: Tid ensures u in Live(Leave(s, t, st)) <==> u in Live(s) - {t} {
      LiveIs(s, u);
      LiveIs(Leave(s, t, st), u);
      assert Kept(Th(s4, u), Th(Depart(s4, Th(s4, t).proc, st), u));
      assert Kept(Th(s3, u), Th(s4, u)) && Kept(Th(s1, u), Th(s2, u));
    }
  }

  lemma PickLive(s: State)
    requires Inv(s, None, None)
    ensures Live(PickNext(s)) == Live(s)
  {
    hide Park, Install, PopHighest, QueueOk, ThreadOk, ObjOk;
    var s0 := s.(needResched := false);
    Unobserved(s, s0);
    PopShape(s0);
    var (s1, n) := PopHighest(s0);
    var next := if n.Some? then n.value else s.idle;
    IdleOwnsNothing(s, None, None);
    forall u: Tid ensures u in Live(PickNext(s)) <==> u in Live(s) {
      LiveIs(s, u);
      LiveIs(PickNext(s), u);
      ParkedActive(s1, u);
      InstalledActive(Park(s1), next, u);
    }
  }

  lemma ParkedActive(s: State, u: Tid)
    ensures Active(Th(Park(s), u)) <==> Active(Th(s, u))
  {
  }

  lemma InstalledActive(s: State, t: Tid, u: Tid)
    requires Active(Th(s, t)) || u != t
    ensures Active(Th(Install(s, t), u)) <==> Active(Th(s, u))
  {
  }

  /* ---- giving up the processor ---- */

  lemma LeaveCurrent(s: State, t: Tid, st: Status)
    ensures Leave(s, t, st).current == s.current && Leave(s, t, st).idle == s.idle
  {
    hide AbandonAll, Signal, Without, RemoveFromTable;
    var s1 := Unlink(s, t);
    UnlinkIdle(s, t);
    AbandonIdle(s1, Th(s1, t).owned, t);
    var s2 := AbandonAll(s1, Th(s1, t).owned, t);
    var s3 := PutTh(s2, t, Th(s2, t).(exit := st, mode := Terminated));
    SignalRest(s3, OfThread(t));
    var s4 := Signal(s3, OfThread(t));
    var p := Th(s4, t).proc;
    var pr := Pr(s4, p);
    var n := if pr.count > 0 then pr.count - 1 else 0xFFFF_FFFF;
    SignalRest(PutPr(s4, p, Down(pr, n, st)), OfProcess(p));
  }

  lemma {:induction false} AbandonAllRest(s: State, ms: seq<Id>, t: Tid)
    ensures SameRest(s, AbandonAll(s, ms, t))
    decreases |ms|
  {
    hide WakeOne, Without;
    if ms != [] {
      AbandonAllRest(Abandon(s, ms[0], t), ms[1..], t);
    }
  }

  lemma WakeKeepsSignal(s: State, d: Id)
    requires Ob(s, d).kind != Mutant
    ensures Ob(WakeOne(s, d, Success), d).signal == Ob(s, d).signal && Ob(WakeOne(s, d, Success), d).kind == Ob(s, d).kind
  {
    hide SchedReady;
  }

  lemma SignalRest(s: State, d: Id)
    ensures SameRest(s, Signal(s, d))
  {
    hide WakeAll, WakeWhile;
    var s1 := PutOb(s, d, Ob(s, d).(signal := Ob(s, d).signal + 1));
    WakeAllRest(s1, d);
    WakeWhileRest(s1, d);
  }

  lemma {:induction false} WakeAllRest(s: State, d: Id)
    ensures SameRest(s, WakeAll(s, d, Success))
    decreases |Ob(s, d).waiters|
  {
    hide WakeOne;
    if Ob(s, d).waiters != [] {
      WakeAllRest(WakeOne(s, d, Success), d);
    }
  }

  lemma {:induction false} WakeWhileRest(s: State, d: Id)
    ensures SameRest(s, WakeWhile(s, d))
    decreases |Ob(s, d).waiters|
  {
    hide WakeOne;
    if Ob(s, d).signal > 0 && Ob(s, d).waiters != [] {
      var s1 := WakeOne(s, d, Success);
      var o := Ob(s1, d);
      WakeWhileRest(if o.kind in {Synchronization, Mutant} then PutOb(s1, d, o.(signal := o.signal - 1)) else s1, d);
    }
  }

  lemma VacateInv(s: State, c: Tid)
    requires Inv(s, None, None) && s.current == Some(c) && Th(s, c).mode != Running
    ensures Inv(s.(current := None), None, None)
  {
    hide WaitOk, OwnsOk, NoDup, Donated;
    var r := s.(current := None);
    forall p: Prio ensures QueueOk(r, p) {
      assert QueueOk(s, p);
    }
    forall t: Tid ensures ThreadOk(r, t, None) {
      assert ThreadOk(s, t, None);
      SameView(s, r, t);
    }
    forall d: Id ensures ObjOk(r, d, None) {
      assert ObjOk(s, d, None);
    }
  }

  lemma SameView(s: State, r: State, t: Tid)
    requires r.threads == s.threads && r.objs == s.objs && WaitOk(s, t) && OwnsOk(s, t)
    ensures WaitOk(r, t) && OwnsOk(r, t)
  {
    hide NoDup;
  }

  /** The exit of a running thread, up to the choice of the next one. */
  lemma ExitInv(s: State, t: Tid, st: Status)
    requires Inv(s, None, None) && s.current == Some(t) && Th(s, t).mode == Running && t != s.idle
    requires Th(s, t).pending == None || Th(s, t).kill
    ensures var r := Leave(s, t, st).(current := None);
      Inv(r, None, None) && Live(r) == Live(s) - {t} && t in Live(s) && Inv(Leave(s, t, st), None, None)
  {
    hide Inv, Leave;
    LeaveInv(s, t, st);
    LeaveLive(s, t, st);
    LeaveCurrent(s, t, st);
    LiveIs(s, t);
    LiveIs(Leave(s, t, st), t);
    VacateInv(Leave(s, t, st), t);
    SameLiveSet(Leave(s, t, st), Leave(s, t, st).(current := None));
  }

  /** `sched_reschedule`, with the threads that exit as soon as they are switched to. */
  function Dispatch(s: State): (r: State)
    requires Inv(s, None, None) && Busy(s)
    ensures Inv(r, None, None) && (r.panicked || (r.current.Some? && Settled(r)))
    decreases |Live(s)|
  {
    PickInv(s);
    PickLive(s);
    var s1 := PickNext(s);
    var c := s1.current.value;
    if !Th(s1, c).kill then s1
    else
      IdleOwnsNothing(s1, None, None);
      ExitInv(s1, c, Th(s1, c).exit);
      var s2 := Leave(s1, c, Th(s1, c).exit);
      if s2.panicked then s2 else Dispatch(s2.(current := None))
  }

  /** `sched_exit_thread` of the current thread. */
  function Exit(s: State, st: Status): (r: State)
    requires Inv(s, None, None) && s.current.Some? && Acting(s, s.current.value)
    ensures Inv(r, None, None) && (r.panicked || (r.current.Some? && Settled(r)))
  {
    var t := s.current.value;
    ExitInv(s, t, st);
    var s1 := Leave(s, t, st);
    if s1.panicked then s1 else Dispatch(s1.(current := None))
  }

  /* ---- creation ---- */

  lemma FreshObjectInv(s: State, d: Id, o: Obj)
    requires Inv(s, None, None) && d !in s.objs && o.waiters == [] && o.owner == None
    requires o.kind == Mutant ==> d.Plain? && o.signal == 1 && o.recursion == 0
    ensures Inv(PutOb(s, d, o), None, None)
  {
    hide NoDup;
    var r := PutOb(s, d, o);
    forall p: Prio ensures QueueOk(r, p) {
      assert QueueOk(s, p);
    }
    forall t: Tid ensures ThreadOk(r, t, None) {
      assert ThreadOk(s, t, None);
      FreshView(s, r, t, d);
    }
    forall e: Id ensures ObjOk(r, e, None) {
      assert ObjOk(s, e, None);
      EmptyNoDup<Tid>();
    }
  }

  lemma FreshView(s: State, r: State, t: Tid, d: Id)
    requires WaitOk(s, t) && OwnsOk(s, t) && d !in s.objs && r.threads == s.threads
    requires OnlyObject(s, r, d)
    ensures WaitOk(r, t) && OwnsOk(r, t)
  {
    hide NoDup;
    forall m | m in Th(s, t).owned ensures Ob(r, m) == Ob(s, m) {
      assert Ob(s, m).kind == Mutant;
    }
  }

  lemma NewMutexInv(s: State, m: Id, owned: bool)
    requires Inv(s, None, None) && m.Plain? && m !in s.objs
    requires owned ==> s.current.Some? && Acting(s, s.current.value)
    ensures Inv(NewMutex(s, m, owned), None, None)
  {
    hide Inv, Without;
    FreshObjectInv(s, m, Obj(Mutant, 1, [], None, 0, false));
    if owned {
      var s1 := PutOb(s, m, Obj(Mutant, 1, [], None, 0, false));
      TakeInv(s1, m, s.current.value);
      assert s1.objs[m := Obj(Mutant, 0, [], s.current, 1, false)] == s.objs[m := Obj(Mutant, 0, [], s.current, 1, false)];
    }
  }

  lemma FreshThreadInv(s: State, t: Tid, th: Thread)
    requires Inv(s, None, None) && Th(s, t) == NoThread && th.mode == Unused && th.owned == [] && th.pending == None
    requires !th.boost && th.priority == th.base
    ensures Inv(PutTh(s, t, th), None, None)
  {
    hide NoDup, QueueOk, SameQueues;
    var r := PutTh(s, t, th);
    BlockQueues(s, r, t);
    SameObjects(s, r);
    assert NoDup<Id>([]) by { EmptyNoDup<Id>(); }
    forall u: Tid ensures ThreadOk(r, u, None) {
      assert ThreadOk(s, u, None);
      if u != t {
        OtherThread(s, r, t, OfThread(0), u, None);
      }
    }
    forall e: Id ensures ObjOk(r, e, None) {
      assert ObjOk(s, e, None);
      OtherObject(s, r, t, OfThread(if e == OfThread(0) then 1 else 0), e, None);
    }
  }

  lemma EmptyNoDup<T>()
    ensures NoDup<T>([])
  {
  }

  /** A thread that has not run yet becomes ready. */
  lemma StartInv(s: State, t: Tid)
    requires Inv(s, None, None) && Th(s, t).mode == Unused
    ensures Inv(SchedReady(s, t), None, None)
  {
    hide NoDup, QueueOk, SameQueues, InNoQueue;
    var r, th := SchedReady(s, t), Th(s, t).(mode := Ready);
    NotQueued(s, t);
    Enqueued(s, PutTh(s, t, th), t);
    var q := ReadyInsert(PutTh(s, t, th), t);
    StartQueues(s, q, r, t);
    SameObjects(s, r);
    forall u: Tid ensures ThreadOk(r, u, None) {
      assert ThreadOk(s, u, None);
      if u != t {
        OtherThread(s, r, t, OfThread(0), u, None);
      }
    }
    forall e: Id ensures ObjOk(r, e, None) {
      assert ObjOk(s, e, None);
      OtherObject(s, r, t, OfThread(if e == OfThread(0) then 1 else 0), e, None);
    }
  }

  lemma StartQueues(s: State, q: State, r: State, t: Tid)
    requires (forall p: Prio :: QueueOk(q, p)) && SameQueues(s, q, t)
    requires r.ready == q.ready && r.mask == q.mask && r.threads == q.threads
    ensures (forall p: Prio :: QueueOk(r, p)) && SameQueues(s, r, t)
  {
    SameReady(s, q, r, t);
    forall p: Prio ensures QueueOk(r, p) {
      assert QueueOk(q, p);
    }
  }

  lemma NewThreadInv(s: State, t: Tid, prio: Prio, p: Pid, suspended: bool)
    requires Inv(s, None, None) && t !in s.threads && OfThread(t) !in s.objs
    ensures Inv(NewThread(s, t, prio, p, suspended), None, None)
  {
    hide Inv, SchedReady;
    var th := NoThread.(priority := prio, saved := prio, base := prio, quantum := QUANTUM, proc := p);
    var s0 := NewObject(s, OfThread(t), ThreadEnd, 0);
    FreshObjectInv(s, OfThread(t), Obj(ThreadEnd, 0, [], None, 0, false));
    FreshThreadInv(s0, t, th);
    var s1 := PutTh(s0, t, th);
    var s2 := PutPr(s1, p, Pr(s1, p).(members := Pr(s1, p).members + [t], count := Pr(s1, p).count + 1));
    Unobserved(s1, s2);
    StartInv(s2, t);
  }

  lemma NewProcessInv(s: State, p: Pid)
    requires Inv(s, None, None) && OfProcess(p) !in s.objs
    ensures Inv(NewProcess(s, p), None, None)
  {
    hide Inv;
    FreshObjectInv(s, OfProcess(p), Obj(ProcessEnd, 0, [], None, 0, false));
    Unobserved(NewObject(s, OfProcess(p), ProcessEnd, 0), NewProcess(s, p));
  }

  /* ---- the clock ---- */

  lemma {:induction false} SignalAllInv(s: State, ds: seq<Id>)
    requires Inv(s, None, None) && forall d :: d in ds ==> Ob(s, d).kind != Mutant
    ensures Inv(SignalAll(s, ds), None, None)
    decreases |ds|
  {
    hide Inv, Signal;
    if ds != [] {
      SignalInv(s, ds[0], None);
      forall d | d in ds[1..] ensures Ob(Signal(s, ds[0]), d).kind != Mutant {
        SignalKind(s, ds[0], d);
        assert d in ds;
      }
      SignalAllInv(Signal(s, ds[0]), ds[1..]);
    }
  }

  lemma SignalKind(s: State, d: Id, e: Id)
    ensures Ob(Signal(s, d), e).kind == Ob(s, e).kind
  {
    hide WakeAll, WakeWhile;
    var s1 := PutOb(s, d, Ob(s, d).(signal := Ob(s, d).signal + 1));
    WakeAllKind(s1, d, e);
    WakeWhileKind(s1, d, e);
  }

  lemma WakeOneKind(s: State, d: Id, st: Status, e: Id)
    ensures Ob(WakeOne(s, d, st), e).kind == Ob(s, e).kind
  {
    if Ob(s, d).waiters != [] {
      hide WakeOne;
      assert e == d || Ob(WakeOne(s, d, st), e) == Ob(s, e);
    }
  }

  lemma {:induction false} WakeAllKind(s: State, d: Id, e: Id)
    ensures Ob(WakeAll(s, d, Success), e).kind == Ob(s, e).kind
    decreases |Ob(s, d).waiters|
  {
    hide WakeOne;
    if Ob(s, d).waiters != [] {
      WakeOneKind(s, d, Success, e);
      WakeAllKind(WakeOne(s, d, Success), d, e);
    }
  }

  lemma {:induction false} WakeWhileKind(s: State, d: Id, e: Id)
    ensures Ob(WakeWhile(s, d), e).kind == Ob(s, e).kind
    decreases |Ob(s, d).waiters|
  {
    hide WakeOne;
    if Ob(s, d).signal > 0 && Ob(s, d).waiters != [] {
      WakeOneKind(s, d, Success, e);
      var s1 := WakeOne(s, d, Success);
      var o := Ob(s1, d);
      WakeWhileKind(if o.kind in {Synchronization, Mutant} then PutOb(s1, d, o.(signal := o.signal - 1)) else s1, d, e);
    }
  }

  lemma SpendInv(s: State)
    requires Inv(s, None, None)
    ensures Inv(SpendQuantum(s), None, None)
  {
    hide Inv, WaitOk, OwnsOk;
    if s.current.Some? {
      var t, th := s.current.value, Th(s, s.current.value);
      if th.quantum > 0 && th.priority < REALTIME {
        var th' := th.(quantum := th.quantum - 1);
        HasThread(s, t, None, None);
        IdleOwnsNothing(s, None, None);
        SameWait(s, t, th');
        ThreadEdit(s, t, th', None, None, None);
        Unobserved(PutTh(s, t, th'), SpendQuantum(s));
      }
    }
  }

  lemma TickedInv(s: State, due: seq<Id>)
    requires Inv(s, None, None) && forall d :: d in due ==> Ob(s, d).kind != Mutant
    ensures Inv(Ticked(s, due), None, None)
  {
    hide Inv, SignalAll, ExpireTable, SpendQuantum;
    var s0 := s.(ticks := s.ticks + 1);
    Unobserved(s, s0);
    SignalAllInv(s0, due);
    var s1 := SignalAll(s0, due);
    ExpireTableInv(s1, s1.table);
    SpendInv(ExpireTable(s1, s1.table));
  }
}
