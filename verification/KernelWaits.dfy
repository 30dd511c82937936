/**
 What a wait, a release, a kill, an exit and a tick do, stated of the states before and after.
 */
module KernelWaits {
  import opened Common
  import opened KernelState
  import opened KernelInvariant
  import opened KernelSteps
  import opened KernelRuns
  import opened KernelOperations

  /** Nothing changed except perhaps one object. */
  ghost predicate OnlyOb(s: State, r: State, d: Id) {
    r == s.(objs := r.objs) && forall e: Id :: e != d ==> Ob(r, e) == Ob(s, e)
  }

  /* ---- waiting ---- */

  /** The wait need not block: the object is signalled, or is a mutex the thread already owns. */
  predicate Satisfied(s: State, d: Id, t: Tid) {
    (Ob(s, d).kind == Mutant && Ob(s, d).owner == Some(t)) || Ob(s, d).signal > 0
  }

  /**
   A wait returns at once exactly if it is satisfied or has a zero timeout; the latter, if not satisfied, is the only way to
   get a timeout at once.
   */
  lemma WaitOutcome(s: State, d: Id, t: Tid, timeout: Option<nat>)
    ensures var st := Attempt(s, d, t, timeout).1;
      && (st == Some(Timeout) <==> !Satisfied(s, d, t) && timeout == Some(0))
      && (st == None <==> !Satisfied(s, d, t) && timeout != Some(0))
      && (st == Some(Abandoned) <==> Ob(s, d).kind == Mutant && Ob(s, d).owner != Some(t) && Ob(s, d).signal > 0 && Ob(s, d).abandoned)
      && (st == Some(Success) <==> Satisfied(s, d, t) && st != Some(Abandoned))
  {
    hide Donate, Take, Block;
  }

  /**
   A wait that a signalled object other than a mutex satisfies changes no thread and no other object. An auto-reset event
   and a timer are cleared; any other event, a thread and a process stay as they are.
   */
  lemma WaitConsumes(s: State, d: Id, t: Tid, timeout: Option<nat>)
    requires Ob(s, d).kind != Mutant && Ob(s, d).signal > 0
    ensures var (r, st) := Attempt(s, d, t, timeout);
      && st == Some(Success) && OnlyOb(s, r, d)
      && (Ob(s, d).kind == Synchronization ==> Ob(r, d) == Ob(s, d).(signal := 0))
      && (Ob(s, d).kind == Timer ==> Ob(r, d) == Ob(s, d).(signal := 0))
      && (Ob(s, d).kind == Notification ==> Ob(r, d) == Ob(s, d))
      && (Ob(s, d).kind == ThreadEnd ==> Ob(r, d) == Ob(s, d))
      && (Ob(s, d).kind == ProcessEnd ==> Ob(r, d) == Ob(s, d))
  {
  }

  /** A mutex that the caller owns is owned once more; a free one is taken, and forgets that it was abandoned. */
  lemma WaitTakesMutex(s: State, m: Id, t: Tid, timeout: Option<nat>)
    requires Inv(s, None, None) && Ob(s, m).kind == Mutant && Satisfied(s, m, t)
    ensures var (r, st) := Attempt(s, m, t, timeout);
      && (forall e: Id :: e != m ==> Ob(r, e) == Ob(s, e)) && SameRest(s, r) && r.ready == s.ready
      && (forall u: Tid :: u != t ==> Th(r, u) == Th(s, u))
      && (Ob(s, m).owner == Some(t) ==> Ob(r, m) == Ob(s, m).(recursion := Ob(s, m).recursion + 1) && Th(r, t) == Th(s, t))
      && (Ob(s, m).owner == None ==>
        && Ob(r, m) == Ob(s, m).(signal := 0, owner := Some(t), recursion := 1, abandoned := false)
        && m in Th(r, t).owned && Th(r, t) == Th(s, t).(owned := Th(r, t).owned)
        && forall k: Id :: k != m ==> (k in Th(r, t).owned <==> k in Th(s, t).owned))
  {
    hide Inv, Without;
    HasObject(s, m, None, None);
    forall k: Id ensures k in Without(Th(s, t).owned, m) <==> k in Th(s, t).owned && k != m {
      WithoutMember(Th(s, t).owned, m, k);
    }
  }

  /** A wait that blocks puts the caller last in the object's list, with the deadline it asked for. */
  lemma WaitBlocks(s: State, d: Id, t: Tid, timeout: Option<nat>)
    requires Acting(s, t) && !Satisfied(s, d, t) && timeout != Some(0)
    ensures var r := Attempt(s, d, t, timeout).0;
      && Ob(r, d) == Ob(s, d).(waiters := Ob(s, d).waiters + [t]) && (forall e: Id :: e != d ==> Ob(r, e) == Ob(s, e))
      && Th(r, t).mode == Waiting && Th(r, t).waitOn == Some(d) && Th(r, t).wake == Timeout
      && (timeout == None ==> !Th(r, t).timed)
      && (timeout.Some? ==> Th(r, t).timed && Th(r, t).deadline == s.ticks + timeout.value)
  {
    hide Donate, Block;
    DonateKeeps(s, d, t);
    DonateRest(s, d, t);
    Blocked(s, d, t, timeout);
    Blocked(Donate(s, d, t), d, t, timeout);
  }

  lemma Blocked(s: State, d: Id, t: Tid, timeout: Option<nat>)
    ensures var r := Block(s, d, t, timeout);
      && Ob(r, d) == Ob(s, d).(waiters := Ob(s, d).waiters + [t]) && (forall e: Id :: e != d ==> Ob(r, e) == Ob(s, e))
      && Th(r, t).mode == Waiting && Th(r, t).waitOn == Some(d) && Th(r, t).wake == Timeout
      && Th(r, t).timed == timeout.Some? && (timeout.Some? ==> Th(r, t).deadline == s.ticks + timeout.value)
  {
  }

  /* ---- donation ---- */

  function Higher(a: Prio, b: Prio): Prio { if a >= b then a else b }

  /**
   A wait on a mutex that another thread holds, granted or not in the end, lifts the holder to the caller's priority if that
   is higher. A holder that is lifted remembers its base priority, and if it is ready it is in the queue of its new one; no
   other thread's priority changes.
   */
  lemma WaitDonates(s: State, m: Id, t: Tid, timeout: Option<nat>, o: Tid)
    requires Inv(s, None, None) && Acting(s, t) && Ob(s, m).kind == Mutant && Ob(s, m).owner == Some(o) && o != t
    ensures var r := Attempt(s, m, t, timeout).0;
      && Th(r, o).priority == Higher(Th(s, o).priority, Th(s, t).priority)
      && (Th(r, o).priority > Th(s, o).priority ==> Th(r, o).boost && Th(r, o).saved == Th(s, o).base)
      && (Th(r, o).mode == Ready ==> o in r.ready[Th(r, o).priority])
      && (forall u: Tid :: u != o ==> Th(r, u).priority == Th(s, u).priority)
  {
    hide Inv, Donate;
    HasObject(s, m, None, None);
    DonateLifts(s, m, t, o);
    var d := Donate(s, m, t);
    DonateInv(s, m, t);
    HasThread(d, o, None, None);
    IdleOwnsNothing(s, None, None);
    OwnsIt(s, m, o);
  }

  lemma OwnsIt(s: State, m: Id, o: Tid)
    requires Inv(s, None, None) && Ob(s, m).kind == Mutant && Ob(s, m).owner == Some(o)
    ensures o != s.idle && Donated(Th(s, o))
  {
    hide Inv, NoDup, WaitOk;
    HasObject(s, m, None, None);
    HasThread(s, o, None, None);
    IdleOwnsNothing(s, None, None);
  }

  lemma DonateLifts(s: State, m: Id, t: Tid, o: Tid)
    requires Inv(s, None, None) && Ob(s, m).kind == Mutant && Ob(s, m).owner == Some(o) && o != t
    ensures var r := Donate(s, m, t);
      && r.idle == s.idle && r.objs == s.objs
      && Th(r, o).priority == Higher(Th(s, o).priority, Th(s, t).priority)
      && (Th(r, o).priority > Th(s, o).priority ==> Th(r, o).boost && Th(r, o).saved == Th(s, o).base)
      && (forall u: Tid :: u != o ==> Th(r, u) == Th(s, u))
  {
    hide Inv, SchedBoost;
    OwnsIt(s, m, o);
    if Th(s, t).priority > Th(s, o).priority {
      var th := Th(s, o).(saved := if Th(s, o).boost then Th(s, o).saved else Th(s, o).priority, boost := true);
      var s1 := PutTh(s, o, th);
      BoostSets(s1, o, Th(s, t).priority);
      forall u: Tid | u != o ensures Th(Donate(s, m, t), u) == Th(s, u) {
        SchedBoostThread(s1, o, Th(s, t).priority, u);
      }
    }
  }

  lemma BoostSets(s: State, t: Tid, p: Prio)
    requires t != s.idle
    ensures Th(SchedBoost(s, t, p), t) == Th(s, t).(priority := p) && SchedBoost(s, t, p).idle == s.idle
  {
    hide Requeue;
    RequeueSelf(s, t, p);
  }

  /* ---- releasing ---- */

  /** A release is refused exactly to a thread that is not the owner, and then changes nothing. */
  lemma ReleaseRefuses(s: State, m: Id)
    requires Inv(s, None, None) && Ob(s, m).kind == Mutant
    ensures var (r, st) := Release(s, m);
      && (st == MutantNotOwned <==> s.current == None || Ob(s, m).owner != s.current)
      && st in {Success, MutantNotOwned} && (st != Success ==> r == s)
  {
    hide Inv, WakeOne, Undonate, Without;
    HasObject(s, m, None, None);
  }

  /** A mutex owned more than once is owned once less, and nothing else changes. */
  lemma ReleaseCountsDown(s: State, m: Id)
    requires s.current.Some? && Ob(s, m).owner == s.current && Ob(s, m).recursion > 1
    ensures var r := Release(s, m).0;
      OnlyOb(s, r, m) && Ob(r, m) == Ob(s, m).(recursion := Ob(s, m).recursion - 1)
  {
    hide WakeOne, Undonate, Without;
  }

  /** The last release without waiters leaves the mutex free; the caller owns the rest of what it owned. */
  lemma ReleaseFrees(s: State, m: Id)
    requires s.current.Some? && Ob(s, m).owner == s.current && Ob(s, m).recursion == 1 && Ob(s, m).waiters == []
    ensures var (r, st) := Release(s, m);
      && Ob(r, m) == Ob(s, m).(owner := None, recursion := 0, signal := 1) && (forall e: Id :: e != m ==> Ob(r, e) == Ob(s, e))
      && (forall k: Id :: k in Th(r, s.current.value).owned <==> k in Th(s, s.current.value).owned && k != m)
      && (forall u: Tid :: u != s.current.value ==> Th(r, u) == Th(s, u))
  {
    hide SchedBoost, Without;
    var t := s.current.value;
    var s1 := Disown(PutOb(s, m, Ob(s, m).(owner := None, recursion := 0)), m, t);
    var s2 := PutOb(s1, m, Ob(s1, m).(signal := 1));
    var th := Th(s2, t);
    var s3 := PutTh(s2, t, th.(boost := false));
    forall k: Id ensures k in Th(s2, t).owned <==> k in Th(s, t).owned && k != m {
      WithoutMember(Th(s, t).owned, m, k);
    }
    BoostKeeps(s3, t, th.saved);
    forall u: Tid | u != t ensures Th(Release(s, m).0, u) == Th(s, u) {
      SchedBoostThread(s3, t, th.saved, u);
    }
  }

  lemma BoostKeeps(s: State, t: Tid, p: Prio)
    ensures Th(SchedBoost(s, t, p), t).owned == Th(s, t).owned
  {
    hide Requeue;
    RequeueSelf(s, t, p);
  }

  /* ---- killing ---- */

  /** A kill marks the thread with its exit status; a waiting one leaves its list and becomes ready. No other thread changes. */
  lemma KillMarks(s: State, t: Tid, st: Status)
    requires Inv(s, None, None)
    ensures var r := Kill(s, t, st);
      && Th(r, t).kill && Th(r, t).exit == st && (forall u: Tid :: u != t ==> Th(r, u) == Th(s, u))
      && Th(r, t).mode == (if Th(s, t).mode == Waiting then Ready else Th(s, t).mode)
      && (Th(s, t).mode == Waiting ==> forall d: Id :: t !in Ob(r, d).waiters)
  {
    hide Inv, SchedReady, Without;
    var s1 := PutTh(s, t, Th(s, t).(kill := true, exit := st));
    var s2 := Unlink(s1, t);
    HasThread(s, t, None, None);
    if Th(s, t).mode == Waiting {
      ReadiesWaiter(s2, t);
      forall u: Tid | u != t ensures Th(SchedReady(s2, t), u) == Th(s, u) {
        SchedReadyThread(s2, t, u);
      }
      forall d: Id ensures t !in Ob(Kill(s, t, st), d).waiters {
        HasObject(s, d, None, None);
        WithoutMember(Ob(s, d).waiters, t, t);
        assert Ob(Kill(s, t, st), d) == Ob(s2, d);
      }
    }
  }

  lemma ReadiesWaiter(s: State, t: Tid)
    requires Th(s, t).mode == Waiting
    ensures Th(SchedReady(s, t), t) == Th(s, t).(mode := Ready)
  {
  }

  /** Threads keep their exit status, and a kill stays pending. */
  ghost predicate Sentenced(a: Thread, b: Thread) {
    b.exit == a.exit && (a.kill ==> b.kill) && (a.mode == Terminated ==> b.mode == Terminated)
  }

  lemma {:induction false} DispatchSentenced(s: State, t: Tid)
    requires Inv(s, None, None) && Busy(s)
    ensures Sentenced(Th(s, t), Th(Dispatch(s), t))
    decreases |Live(s)|
  {
    hide Inv, Leave, PickNext;
    PickInv(s);
    PickLive(s);
    PickSentenced(s, t);
    var s1 := PickNext(s);
    var c := s1.current.value;
    if Th(s1, c).kill {
      IdleOwnsNothing(s1, None, None);
      ExitInv(s1, c, Th(s1, c).exit);
      LeaveSentenced(s1, c, Th(s1, c).exit, t);
      var s2 := Leave(s1, c, Th(s1, c).exit);
      if !s2.panicked {
        DispatchSentenced(s2.(current := None), t);
      }
    }
  }

  lemma PickSentenced(s: State, t: Tid)
    requires Inv(s, None, None)
    ensures Sentenced(Th(s, t), Th(PickNext(s), t))
  {
    hide Inv, Park, Install, PopHighest;
    var s0 := s.(needResched := false);
    PopThreads(s0);
    var (s1, n) := PopHighest(s0);
    var next := if n.Some? then n.value else s.idle;
    ParkSentenced(s1, t);
    PickedAlive(s, next);
    ParkSentenced(s1, next);
    InstallSentenced(Park(s1), next, t);
  }

  lemma PickedAlive(s: State, next: Tid)
    requires Inv(s, None, None)
    requires next == (if PopHighest(s.(needResched := false)).1.Some? then PopHighest(s.(needResched := false)).1.value else s.idle)
    ensures Th(s, next).mode != Terminated
  {
    hide PopHighest, QueueOk, ThreadOk, ObjOk;
    var s0 := s.(needResched := false);
    Unobserved(s, s0);
    PopShape(s0);
  }

  lemma PopThreads(s: State)
    ensures PopHighest(s).0.threads == s.threads
  {
  }

  lemma ParkSentenced(s: State, t: Tid)
    ensures Sentenced(Th(s, t), Th(Park(s), t)) && (Th(Park(s), t).mode == Terminated <==> Th(s, t).mode == Terminated)
  {
  }

  lemma InstallSentenced(s: State, next: Tid, t: Tid)
    requires Th(s, next).mode != Terminated
    ensures Sentenced(Th(s, t), Th(Install(s, next), t))
  {
  }

  /** An exit gives the thread its status; every other thread keeps its own. */
  lemma LeaveSentenced(s: State, c: Tid, st: Status, t: Tid)
    ensures t != c ==> Sentenced(Th(s, t), Th(Leave(s, c, st), t))
    ensures Th(Leave(s, c, st), c).mode == Terminated && Th(Leave(s, c, st), c).exit == st
    ensures Th(s, c).kill ==> Th(Leave(s, c, st), c).kill
  {
    hide AbandonAll, Signal, Depart, Without, SameLive;
    var s1 := Unlink(s, c);
    var s2 := AbandonAll(s1, Th(s1, c).owned, c);
    AbandonAllLive(s1, Th(s1, c).owned, c);
    var s3 := PutTh(s2, c, Th(s2, c).(exit := st, mode := Terminated));
    var s4 := Signal(s3, OfThread(c));
    SignalLive(s3, OfThread(c));
    DepartLive(s4, Th(s4, c).proc, st);
    forall u: Tid ensures Kept(Th(s1, u), Th(s2, u)) && Kept(Th(s3, u), Th(s4, u)) && Kept(Th(s4, u), Th(Leave(s, c, st), u)) {
      LiveAt(s1, s2, u);
      LiveAt(s3, s4, u);
      LiveAt(s4, Leave(s, c, st), u);
    }
  }

  /** A killed thread that is picked ends there, with the status of its kill. */
  lemma PickedEnds(s: State)
    requires Inv(s, None, None) && Busy(s)
    ensures var c := PickNext(s).current;
      c.Some? && (Th(s, c.value).kill ==>
        Th(Dispatch(s), c.value).mode == Terminated && Th(Dispatch(s), c.value).exit == Th(s, c.value).exit)
  {
    hide Inv, Leave, PickNext;
    PickInv(s);
    PickLive(s);
    var s1 := PickNext(s);
    var c := s1.current.value;
    PickSentenced(s, c);
    if Th(s1, c).kill {
      IdleOwnsNothing(s1, None, None);
      ExitInv(s1, c, Th(s1, c).exit);
      LeaveSentenced(s1, c, Th(s1, c).exit, c);
      var s2 := Leave(s1, c, Th(s1, c).exit);
      if !s2.panicked {
        DispatchSentenced(s2.(current := None), c);
      }
    }
  }

  /* ---- no operation lifts a kill ---- */

  lemma KeptSentenced(s: State, r: State, t: Tid)
    requires SameLive(s, r)
    ensures Sentenced(Th(s, t), Th(r, t))
  {
    assert Kept(Th(s, t), Th(r, t));
  }

  lemma AttemptSentenced(s: State, d: Id, c: Tid, timeout: Option<nat>, t: Tid)
    requires t != c
    ensures Sentenced(Th(s, t), Th(Attempt(s, d, c, timeout).0, t))
  {
    hide Donate, Take, Block;
    DonateSentenced(s, d, c, t);
    OnlyCaller(s, d, c, timeout, t);
    OnlyCaller(Donate(s, d, c), d, c, timeout, t);
  }

  lemma OnlyCaller(s: State, d: Id, c: Tid, timeout: Option<nat>, t: Tid)
    requires t != c
    ensures Th(Take(s, d, c), t) == Th(s, t) && Th(Block(s, d, c, timeout), t) == Th(s, t)
  {
    hide Without;
  }

  lemma DonateSentenced(s: State, m: Id, c: Tid, t: Tid)
    ensures Sentenced(Th(s, t), Th(Donate(s, m, c), t))
  {
    hide SchedBoost, SameLive;
    if Ob(s, m).owner.Some? {
      var o := Ob(s, m).owner.value;
      var s1 := PutTh(s, o, Th(s, o).(saved := if Th(s, o).boost then Th(s, o).saved else Th(s, o).priority, boost := true));
      SchedBoostLive(s1, o, Th(s, c).priority);
      KeptSentenced(s1, SchedBoost(s1, o, Th(s, c).priority), t);
    }
  }

  /** A step on the way, and perhaps a dispatch after it. */
  lemma ThenSentenced(s: State, m: State, r: State, t: Tid)
    requires Sentenced(Th(s, t), Th(m, t)) && (r == m || (Inv(m, None, None) && Busy(m) && r == Dispatch(m)))
    ensures Sentenced(Th(s, t), Th(r, t))
  {
    hide Inv, Dispatch;
    if r != m {
      DispatchSentenced(m, t);
    }
  }

  lemma WaitSentenced(s: State, d: Id, timeout: Option<nat>, t: Tid)
    requires Good(s) && !s.panicked && s.current.Some? && Acting(s, s.current.value) && d in s.objs && s.current != Some(t)
    ensures Sentenced(Th(s, t), Th(WaitStep(s, d, timeout), t))
  {
    hide Inv, Dispatch, Attempt, Sentenced;
    var c := s.current.value;
    AttemptInv(s, d, c, timeout);
    AttemptKeeps(s, d, c, timeout);
    AttemptSentenced(s, d, c, timeout, t);
    ThenSentenced(s, Attempt(s, d, c, timeout).0, WaitStep(s, d, timeout), t);
  }

  lemma TickSentenced(s: State, due: seq<Id>, t: Tid)
    requires Good(s) && !s.panicked && forall d :: d in due ==> Ob(s, d).kind != Mutant
    ensures Sentenced(Th(s, t), Th(TickStep(s, due), t))
  {
    hide Inv, Dispatch, Ticked, Sentenced, SameLive;
    TickedInv(s, due);
    TickedLive(s, due);
    StillGood(s, Ticked(s, due));
    KeptSentenced(s, Ticked(s, due), t);
    ThenSentenced(s, Ticked(s, due), TickStep(s, due), t);
  }

  lemma ExitSentenced(s: State, st: Status, t: Tid)
    requires Inv(s, None, None) && s.current.Some? && Acting(s, s.current.value) && s.current != Some(t)
    ensures Sentenced(Th(s, t), Th(Exit(s, st), t))
  {
    hide Inv, Leave, Dispatch;
    var c := s.current.value;
    ExitInv(s, c, st);
    LeaveSentenced(s, c, st, t);
    var s1 := Leave(s, c, st);
    if !s1.panicked {
      DispatchSentenced(s1.(current := None), t);
    }
  }

  lemma KillSentenced(s: State, u: Tid, st: Status, t: Tid)
    requires Good(s) && !s.panicked && s.current.Some? && Acting(s, s.current.value) && s.current != Some(t) && u != t
    ensures Sentenced(Th(s, t), Th(KillStep(s, u, st), t))
  {
    hide Inv, Kill, Exit;
    if u != s.idle && Th(s, u).mode != Terminated {
      if s.current == Some(u) {
        ExitSentenced(s, st, t);
      } else {
        KillMarks(s, u, st);
      }
    }
  }

  lemma ReadySentenced(s: State, u: Tid, t: Tid)
    requires Th(s, u).mode == Unused
    ensures Sentenced(Th(s, t), Th(SchedReady(s, u), t))
  {
    if t != u {
      SchedReadyThread(s, u, t);
    }
  }

  lemma NewMutexSentenced(s: State, m: Id, owned: bool, t: Tid)
    ensures Sentenced(Th(s, t), Th(NewMutex(s, m, owned), t))
  {
    hide Without;
  }

  lemma StepSentenced(s: State, op: Op, t: Tid)
    requires Good(s) && !s.panicked && Enabled(s, op) && Th(s, t).kill && (op.KillThread? ==> op.t != t)
    ensures Sentenced(Th(s, t), Th(Step(s, op), t))
  {
    hide Inv, SameLive, FreshThread, Sentenced;
    hide WaitStep, ReleaseStep, SetStep, KillStep, ExitStep, YieldStep, TickStep;
    SameSentenced(Th(s, t));
    match op
    case Wait(d, timeout) => WaitSentenced(s, d, timeout, t);
    case Return => ReturnSentenced(s, t);
    case ReleaseMutex(m) => ReleaseSentenced(s, m, t);
    case SetEvent(d) => SetSentenced(s, d, t);
    case ResetEvent(d) =>
    case KillThread(u, st) => KillSentenced(s, u, st, t);
    case ExitThread(st) => ExitStepSentenced(s, st, t);
    case Yield => YieldSentenced(s, t);
    case Tick(due) => TickSentenced(s, due, t);
    case CreateObject(d, kind, signal) =>
    case CreateMutex(m, owned) => NewMutexSentenced(s, m, owned, t);
    case CreateThread(u, prio, p, suspended) => NewSentenced(s, u, prio, p, suspended, t);
    case Resume(u) => ReadySentenced(s, u, t);
    case CreateProcess(p) =>
  }

  lemma SameSentenced(a: Thread)
    ensures Sentenced(a, a)
  {
  }

  lemma ReturnSentenced(s: State, t: Tid)
    requires Good(s) && !s.panicked && s.current.Some?
    ensures Sentenced(Th(s, t), Th(ReturnStep(s), t))
  {
    hide Inv;
  }

  lemma ReleaseSentenced(s: State, m: Id, t: Tid)
    requires Good(s) && !s.panicked && s.current.Some? && Acting(s, s.current.value) && Ob(s, m).kind == Mutant
    ensures Sentenced(Th(s, t), Th(ReleaseStep(s, m), t))
  {
    hide Inv, SameLive, Release, Sentenced;
    ReleaseLive(s, m);
    KeptSentenced(s, Release(s, m).0, t);
  }

  lemma SetSentenced(s: State, d: Id, t: Tid)
    requires Good(s) && !s.panicked && Ob(s, d).kind != Mutant
    ensures Sentenced(Th(s, t), Th(SetStep(s, d), t))
  {
    hide Inv, SameLive, Signal, Sentenced;
    SignalLive(s, d);
    KeptSentenced(s, Signal(s, d), t);
  }

  lemma ExitStepSentenced(s: State, st: Status, t: Tid)
    requires Good(s) && !s.panicked && s.current.Some? && Acting(s, s.current.value) && s.current != Some(t)
    ensures Sentenced(Th(s, t), Th(ExitStep(s, st), t))
  {
    hide Inv, Exit, Sentenced;
    ExitSentenced(s, st, t);
  }

  lemma YieldSentenced(s: State, t: Tid)
    requires Good(s) && !s.panicked
    ensures Sentenced(Th(s, t), Th(YieldStep(s), t))
  {
    hide Inv, Dispatch, Sentenced;
    DispatchSentenced(s, t);
  }

  lemma NewSentenced(s: State, u: Tid, prio: Prio, p: Pid, suspended: bool, t: Tid)
    requires Th(s, t).kill && FreshThread(s, u)
    ensures Sentenced(Th(s, t), Th(NewThread(s, u, prio, p, suspended), t))
  {
    hide NewThread;
    NewThreadKeeps(s, u, prio, p, suspended);
  }

  /**
   A killed thread never runs again, and ends, if it does, with the status of its last kill: over every run without another
   kill of it.
   */
  lemma {:induction false} KilledForGood(s: State, ops: seq<Op>, t: Tid)
    requires Good(s) && Legal(s, ops) && Th(s, t).kill && forall op :: op in ops && op.KillThread? ==> op.t != t
    ensures var r := Run(s, ops);
      Th(r, t).kill && Th(r, t).exit == Th(s, t).exit && (r.panicked || r.current != Some(t))
    decreases |ops|
  {
    hide Inv, Enabled, Step;
    if ops != [] {
      StepSentenced(s, ops[0], t);
      KilledForGood(Step(s, ops[0]), ops[1..], t);
    }
  }

  /* ---- the end of a thread ---- */

  lemma SignalTells(s: State, d: Id)
    requires Ob(s, d).kind in {ThreadEnd, ProcessEnd}
    ensures Ob(s, d).signal >= 0 ==> Ob(Signal(s, d), d).signal == Ob(s, d).signal + 1 && Ob(Signal(s, d), d).waiters == []
  {
    hide WakeWhile;
    var s1 := PutOb(s, d, Ob(s, d).(signal := Ob(s, d).signal + 1));
    if Ob(s1, d).signal > 0 {
      WakesOut(s1, d);
    }
  }

  lemma SignalOnly(s: State, d: Id, e: Id)
    requires e != d
    ensures Ob(Signal(s, d), e) == Ob(s, e)
  {
    hide WakeWhile, WakeAll;
    var s1 := PutOb(s, d, Ob(s, d).(signal := Ob(s, d).signal + 1));
    WakesOnly(s1, d, e);
    WakesAllOnly(s1, d, e);
  }

  lemma {:induction false} WakesAllOnly(s: State, d: Id, e: Id)
    requires e != d
    ensures Ob(WakeAll(s, d, Success), e) == Ob(s, e)
    decreases |Ob(s, d).waiters|
  {
    hide WakeOne;
    if Ob(s, d).waiters != [] {
      WakesAllOnly(WakeOne(s, d, Success), d, e);
    }
  }

  lemma {:induction false} WakesOnly(s: State, d: Id, e: Id)
    requires e != d
    ensures Ob(WakeWhile(s, d), e) == Ob(s, e)
    decreases |Ob(s, d).waiters|
  {
    hide WakeOne;
    if Ob(s, d).signal > 0 && Ob(s, d).waiters != [] {
      var s1 := WakeOne(s, d, Success);
      WakesOnly(if Ob(s1, d).kind in {Synchronization, Mutant} then PutOb(s1, d, Ob(s1, d).(signal := Ob(s1, d).signal - 1)) else s1, d, e);
    }
  }

  lemma {:induction false} AbandonOnly(s: State, ms: seq<Id>, t: Tid, e: Id)
    requires e !in ms
    ensures Ob(AbandonAll(s, ms, t), e) == Ob(s, e)
    decreases |ms|
  {
    hide WakeOne, Without;
    if ms != [] {
      AbandonOnly(Abandon(s, ms[0], t), ms[1..], t, e);
    }
  }

  /**
   An exit signals the thread and, with the last thread of a process other than the first, the process: nobody is left
   waiting for either. The process ends with the status of its last thread.
   */
  lemma LeaveTells(s: State, t: Tid, st: Status)
    requires Inv(s, None, None) && Ob(s, OfThread(t)).kind == ThreadEnd && Ob(s, OfThread(t)).signal >= 0
    ensures var r, p := Leave(s, t, st), Th(s, t).proc;
      && Ob(r, OfThread(t)).signal == Ob(s, OfThread(t)).signal + 1 && Ob(r, OfThread(t)).waiters == []
      && (Pr(s, p).count == 1 && p != 1 && Ob(s, OfProcess(p)).kind == ProcessEnd && Ob(s, OfProcess(p)).signal >= 0 ==>
        Ob(r, OfProcess(p)).signal == Ob(s, OfProcess(p)).signal + 1 && Ob(r, OfProcess(p)).waiters == [])
      && (r.panicked <==> s.panicked || (Pr(s, p).count == 1 && p == 1))
      && (Pr(s, p).count == 1 ==> Pr(r, p).exit == st && Pr(r, p).terminating) && (Pr(s, p).count > 1 ==> Pr(r, p).exit == Pr(s, p).exit)
  {
    hide Inv, Leave, Depart;
    var m := ThreadTold(s, t, st);
    DepartTells(m, Th(s, t).proc, st);
  }

  /** Up to the moment its process is told. */
  lemma ThreadTold(s: State, t: Tid, st: Status) returns (m: State)
    requires Inv(s, None, None) && Ob(s, OfThread(t)).kind == ThreadEnd && Ob(s, OfThread(t)).signal >= 0
    ensures Leave(s, t, st) == Depart(m, Th(s, t).proc, st) && m.procs == s.procs && m.panicked == s.panicked
    ensures Ob(m, OfThread(t)).signal == Ob(s, OfThread(t)).signal + 1 && Ob(m, OfThread(t)).waiters == []
    ensures forall p: Pid :: Ob(m, OfProcess(p)).kind == Ob(s, OfProcess(p)).kind && Ob(m, OfProcess(p)).signal == Ob(s, OfProcess(p)).signal
  {
    hide Inv, AbandonAll, Signal, Depart, Unlink, SameLive;
    var s1 := Unlink(s, t);
    var s2 := AbandonAll(s1, Th(s1, t).owned, t);
    Unburdened(s, t, OfThread(t));
    var s3 := PutTh(s2, t, Th(s2, t).(exit := st, mode := Terminated));
    m := Signal(s3, OfThread(t));
    SignalTells(s3, OfThread(t));
    SignalLive(s3, OfThread(t));
    LiveAt(s3, m, t);
    SignalRest(s3, OfThread(t));
    forall p: Pid ensures Ob(m, OfProcess(p)).kind == Ob(s, OfProcess(p)).kind && Ob(m, OfProcess(p)).signal == Ob(s, OfProcess(p)).signal {
      Unburdened(s, t, OfProcess(p));
      SignalOnly(s3, OfThread(t), OfProcess(p));
    }
  }

  /** Leaving its wait and its mutexes, a thread touches no thread's or process's own object. */
  lemma Unburdened(s: State, t: Tid, d: Id)
    requires Inv(s, None, None) && !d.Plain?
    ensures var s1 := Unlink(s, t);
      var s2 := AbandonAll(s1, Th(s1, t).owned, t);
      && Ob(s2, d).kind == Ob(s, d).kind && Ob(s2, d).signal == Ob(s, d).signal
      && s2.procs == s.procs && s2.panicked == s.panicked && Th(s2, t).proc == Th(s, t).proc
  {
    hide Inv, AbandonAll, Without, SameLive;
    var s1 := Unlink(s, t);
    var ms := Th(s1, t).owned;
    NotOwned(s, t, d);
    AbandonOnly(s1, ms, t, d);
    AbandonAllRest(s1, ms, t);
    AbandonAllLive(s1, ms, t);
    LiveAt(s1, AbandonAll(s1, ms, t), t);
  }

  lemma NotOwned(s: State, t: Tid, d: Id)
    requires Inv(s, None, None) && !d.Plain?
    ensures d !in Th(s, t).owned && Unlink(s, t).procs == s.procs && Unlink(s, t).panicked == s.panicked
  {
    hide Inv, NoDup, WaitOk, Without;
    HasThread(s, t, None, None);
    HasObject(s, d, None, None);
  }

  lemma DepartTells(s: State, p: Pid, st: Status)
    ensures var r := Depart(s, p, st);
      && (forall d: Id :: d != OfProcess(p) ==> Ob(r, d) == Ob(s, d))
      && (r.panicked <==> s.panicked || (Pr(s, p).count == 1 && p == 1))
      && (Pr(s, p).count == 1 ==> Pr(r, p).exit == st && Pr(r, p).terminating) && (Pr(s, p).count > 1 ==> Pr(r, p).exit == Pr(s, p).exit)
      && (Pr(s, p).count == 1 && p != 1 && Ob(s, OfProcess(p)).kind == ProcessEnd && Ob(s, OfProcess(p)).signal >= 0 ==>
        Ob(r, OfProcess(p)).signal == Ob(s, OfProcess(p)).signal + 1 && Ob(r, OfProcess(p)).waiters == [])
  {
    hide Signal, RemoveFromTable;
    var pr := Pr(s, p);
    var n := if pr.count > 0 then pr.count - 1 else 0xFFFF_FFFF;
    var s1 := PutPr(s, p, Down(pr, n, st));
    SignalRest(s1, OfProcess(p));
    if Ob(s, OfProcess(p)).kind == ProcessEnd {
      SignalTells(s1, OfProcess(p));
    }
    forall d: Id | d != OfProcess(p) ensures Ob(Depart(s, p, st), d) == Ob(s, d) {
      SignalOnly(s1, OfProcess(p), d);
    }
  }

  /** The loop of a signal that does not wear off empties the list. */
  lemma {:induction false} WakesOut(s: State, d: Id)
    requires Ob(s, d).signal > 0 && Ob(s, d).kind !in {Synchronization, Mutant}
    ensures Ob(WakeWhile(s, d), d).waiters == [] && Ob(WakeWhile(s, d), d).signal == Ob(s, d).signal
    decreases |Ob(s, d).waiters|
  {
    hide WakeOne;
    if Ob(s, d).waiters != [] {
      WakeKeepsSignal(s, d);
      WakesOut(WakeOne(s, d, Success), d);
    }
  }

  /* ---- becoming ready ---- */

  /** A thread that becomes ready goes to the end of its queue; a reschedule is asked for if it outranks the current thread. */
  lemma ReadyAtTail(s: State, t: Tid)
    requires Th(s, t).mode in {Unused, Waiting} && s.current != Some(t)
    ensures var r, p := SchedReady(s, t), Th(s, t).priority;
      && Th(r, t) == Th(s, t).(mode := Ready) && r.ready == s.ready[p := s.ready[p] + [t]]
      && (r.needResched <==> s.needResched || (s.current.Some? && p > Th(s, s.current.value).priority))
      && (forall u: Tid :: u != t ==> Th(r, u) == Th(s, u))
  {
  }

  /** A reschedule is asked for when a change of priority puts another thread above the current one or lowers that one. */
  lemma BoostAsks(s: State, t: Tid, p: Prio)
    requires t != s.idle && Th(s, t).priority != p && s.current.Some?
    ensures SchedBoost(s, t, p).needResched <==>
      || s.needResched
      || (t != s.current.value && p > Th(s, s.current.value).priority)
      || (t == s.current.value && p < Th(s, t).priority)
  {
    hide Requeue;
    if t != s.current.value {
      RequeueOther(s, t, p, s.current.value);
    }
  }

  lemma RequeueOther(s: State, t: Tid, p: Prio, u: Tid)
    requires u != t
    ensures Th(Requeue(s, t, p), u) == Th(s, u)
  {
    hide Without;
  }

  /** A tick takes one from the quantum of a thread below the real-time priorities, and asks for a reschedule with the last. */
  lemma TickSpends(s: State, t: Tid)
    requires s.current == Some(t)
    ensures var r := SpendQuantum(s);
      && (Th(s, t).priority < REALTIME && Th(s, t).quantum > 0 ==> Th(r, t) == Th(s, t).(quantum := Th(s, t).quantum - 1))
      && (Th(s, t).priority >= REALTIME || Th(s, t).quantum == 0 ==> r == s)
      && (r.needResched <==> s.needResched || (Th(s, t).priority < REALTIME && Th(s, t).quantum == 1))
      && (forall u: Tid :: u != t ==> Th(r, u) == Th(s, u))
  {
  }

  /** A wait whose deadline has come ends with a timeout: off the list, ready, and a reschedule is asked for. */
  lemma ExpiryTells(s: State, t: Tid)
    requires Overdue(s, t) && Th(s, t).waitOn.Some?
    ensures var d, r := Th(s, t).waitOn.value, Expire(s, t);
      && Th(r, t).mode == Ready && Th(r, t).wake == Timeout && !Th(r, t).timed
      && t !in Ob(r, d).waiters && r.needResched
      && t in r.ready[Th(s, t).priority]
  {
    hide Without;
    WithoutMember(Ob(s, Th(s, t).waitOn.value).waiters, t, t);
  }

  /** A thread that takes over the processor runs with a whole quantum, the longest one at real-time priority. */
  lemma PickedStarts(s: State)
    ensures var r := PickNext(s);
      && !r.needResched
      && (r.current == s.current || (r.current.Some? && var th := Th(r, r.current.value);
        th.mode == Running && th.quantum == if th.priority >= REALTIME then 0xFFFF else QUANTUM))
  {
    hide Park;
    var s1 := PopHighest(s.(needResched := false)).0;
    ParkResched(s1);
  }

  lemma ParkResched(s: State)
    ensures Park(s).needResched == s.needResched
  {
  }

  /** A new thread has the priority and process asked for and a full quantum, and is ready unless suspended. */
  lemma NewThreadIs(s: State, t: Tid, prio: Prio, p: Pid, suspended: bool)
    requires t !in s.threads && s.current != Some(t)
    ensures var th := Th(NewThread(s, t, prio, p, suspended), t);
      && th.priority == prio && th.base == prio && th.proc == p && th.quantum == QUANTUM && !th.kill && th.owned == []
      && th.mode == if suspended then Unused else Ready
  {
    hide SchedReady;
    var th := NoThread.(priority := prio, saved := prio, base := prio, quantum := QUANTUM, proc := p);
    var s1 := PutTh(NewObject(s, OfThread(t), ThreadEnd, 0), t, th);
    var s2 := PutPr(s1, p, Pr(s1, p).(members := Pr(s1, p).members + [t], count := Pr(s1, p).count + 1));
    ReadyAtTail(s2, t);
  }

  /** A new mutex belongs to its creator, once, or is free. */
  lemma NewMutexIs(s: State, m: Id, owned: bool)
    requires s.current.Some?
    ensures var r := NewMutex(s, m, owned);
      && Ob(r, m).kind == Mutant && Ob(r, m).waiters == [] && !Ob(r, m).abandoned
      && (owned ==> Ob(r, m).owner == s.current && Ob(r, m).recursion == 1 && Ob(r, m).signal == 0 && m in Th(r, s.current.value).owned)
      && (!owned ==> Ob(r, m).owner == None && Ob(r, m).recursion == 0 && Ob(r, m).signal == 1 && r.threads == s.threads)
  {
    hide Without;
  }
}
