/**
 The dispatcher's and scheduler's operations, each of which keeps the invariant.
 */
module KernelSteps {
  import opened Common
  import opened KernelState
  import opened KernelInvariant

  /** The thread that runs is the current one, and no kill is pending on it. */
  ghost predicate Settled(s: State) {
    s.current.Some? ==> Th(s, s.current.value).mode == Running && !Th(s, s.current.value).kill
  }

  /** The current thread can start an operation: it is not idle and not inside a wait. */
  ghost predicate Acting(s: State, t: Tid) {
    s.current == Some(t) && t != s.idle && Th(s, t).mode == Running && Th(s, t).pending == None && !Th(s, t).kill
  }

  /* ---- waiting ---- */

  lemma TakeInv(s: State, m: Id, t: Tid)
    requires Inv(s, None, None) && Acting(s, t) && Ob(s, m).kind == Mutant && Ob(s, m).signal > 0
    ensures Inv(Take(s, m, t), None, None) && Ob(Take(s, m, t), m).owner == Some(t)
  {
    hide NoDup, QueueOk, SameQueues, Without;
    var o, r := Ob(s, m), Take(s, m, t);
    HasObject(s, m, None, None);
    HasThread(s, t, None, None);
    WithoutAbsent(Th(s, t).owned, m);
    AppendNoDup(Th(s, t).owned, m);
    SameQueueStates(s, r, t);
    forall u: Tid ensures ThreadOk(r, u, None) {
      assert ThreadOk(s, u, None);
      if u != t {
        OtherThread(s, r, t, m, u, None);
      }
    }
    forall e: Id ensures ObjOk(r, e, None) {
      assert ObjOk(s, e, None);
      if e != m {
        OtherObject(s, r, t, m, e, None);
      }
    }
  }

  lemma BlockInv(s: State, d: Id, t: Tid, timeout: Option<nat>)
    requires Inv(s, None, None) && Acting(s, t) && d in s.objs && Ob(s, d).signal <= 0
    ensures Inv(Block(s, d, t, timeout), None, None)
  {
    hide NoDup, QueueOk, SameQueues;
    var r := Block(s, d, t, timeout);
    HasObject(s, d, None, None);
    HasThread(s, t, None, None);
    AppendNoDup(Ob(s, d).waiters, t);
    BlockQueues(s, r, t);
    forall u: Tid ensures ThreadOk(r, u, None) {
      assert ThreadOk(s, u, None);
      if u != t {
        OtherThread(s, r, t, d, u, None);
      }
    }
    forall e: Id ensures ObjOk(r, e, None) {
      assert ObjOk(s, e, None);
      if e != d {
        OtherObject(s, r, t, d, e, None);
      }
    }
  }

  lemma BlockQueues(s: State, r: State, t: Tid)
    requires (forall p: Prio :: QueueOk(s, p)) && r.ready == s.ready && r.mask == s.mask && OnlyThread(s, r, t)
    requires Th(s, t).mode != Ready
    ensures (forall p: Prio :: QueueOk(r, p)) && SameQueues(s, r, t)
  {
    NotQueued(s, t);
    forall p: Prio ensures QueueOk(r, p) {
      assert QueueOk(s, p) && t !in s.ready[p];
    }
  }

  lemma DonateKeeps(s: State, m: Id, t: Tid)
    requires Acting(s, t)
    ensures Acting(Donate(s, m, t), t) && Donate(s, m, t).objs == s.objs
  {
    hide SchedBoost;
    if Ob(s, m).owner.Some? && Ob(s, m).owner != Some(t) && Th(s, t).priority > Th(s, Ob(s, m).owner.value).priority {
      var o := Ob(s, m).owner.value;
      var th := Th(s, o).(saved := if Th(s, o).boost then Th(s, o).saved else Th(s, o).priority, boost := true);
      SchedBoostThread(PutTh(s, o, th), o, Th(s, t).priority, t);
    }
  }

  lemma SchedBoostThread(s: State, o: Tid, p: Prio, t: Tid)
    requires t != o
    ensures Th(SchedBoost(s, o, p), t) == Th(s, t)
  {
  }

  lemma AttemptInv(s: State, d: Id, t: Tid, timeout: Option<nat>)
    requires Inv(s, None, None) && Acting(s, t) && d in s.objs
    ensures Inv(Attempt(s, d, t, timeout).0, None, None)
  {
    hide Inv, Donate, Take, Block, ThreadOk;
    var o := Ob(s, d);
    HasObject(s, d, None, None);
    if o.kind == Mutant {
      if o.owner == Some(t) {
        ObjectEdit(s, d, o.(recursion := o.recursion + 1), None, None, None);
      } else if o.signal > 0 {
        TakeInv(s, d, t);
      } else {
        DonateInv(s, d, t);
        DonateKeeps(s, d, t);
        BlockInv(Donate(s, d, t), d, t, timeout);
      }
    } else if o.signal > 0 {
      ObjectEdit(s, d, o.(signal := 0), None, None, None);
    } else {
      BlockInv(s, d, t, timeout);
    }
  }

  /* ---- kill and timeout ---- */

  lemma KillInv(s: State, t: Tid, st: Status)
    requires Inv(s, None, None) && t != s.idle && Th(s, t).mode != Terminated
    ensures Inv(Kill(s, t, st), None, None)
  {
    hide Inv, Woken, SchedReady, NoDup, Without;
    var th := Th(s, t);
    HasThread(s, t, None, None);
    if th.mode == Waiting {
      var d := th.waitOn.value;
      var o := Ob(s, d).(waiters := Without(Ob(s, d).waiters, t));
      var th' := th.(kill := true, exit := st, waitOn := None);
      HasObject(s, d, None, None);
      WithoutAll(Ob(s, d).waiters, t);
      KillIsWoken(s, t, st);
      Emptied(Ob(s, d).waiters, t);
      WokenInv(s, t, d, th', o, None, None, None);
    } else {
      SameButKill(s, t, th.(kill := true, exit := st));
      ThreadEdit(s, t, th.(kill := true, exit := st), None, None, None);
    }
  }

  lemma Emptied(l: seq<Tid>, t: Tid)
    ensures l == [] ==> Without(l, t) == []
  {
  }

  lemma KillIsWoken(s: State, t: Tid, st: Status)
    requires Th(s, t).mode == Waiting && Th(s, t).waitOn.Some?
    ensures var d, th := Th(s, t).waitOn.value, Th(s, t);
      Kill(s, t, st) == Woken(s, t, d, th.(kill := true, exit := st, waitOn := None), Ob(s, d).(waiters := Without(Ob(s, d).waiters, t)))
  {
    hide SchedReady, Without;
    var d, th := Th(s, t).waitOn.value, Th(s, t);
    var s1 := PutTh(s, t, th.(kill := true, exit := st));
    assert Unlink(s1, t).threads == s.threads[t := th.(kill := true, exit := st, waitOn := None)];
  }

  lemma SameButKill(s: State, t: Tid, th: Thread)
    requires ThreadOk(s, t, None) && th == Th(s, t).(kill := true, exit := th.exit) && Th(s, t).mode != Waiting
    ensures ThreadOk(PutTh(s, t, th), t, None)
  {
    hide NoDup;
  }

  lemma ExpireInv(s: State, t: Tid)
    requires Inv(s, None, None)
    ensures Inv(Expire(s, t), None, None)
  {
    hide Inv, Woken, SchedReady, NoDup, Without;
    var th := Th(s, t);
    if Overdue(s, t) {
      HasThread(s, t, None, None);
      var d := th.waitOn.value;
      var o := Ob(s, d).(waiters := Without(Ob(s, d).waiters, t));
      HasObject(s, d, None, None);
      WithoutAll(Ob(s, d).waiters, t);
      Emptied(Ob(s, d).waiters, t);
      WokenInv(s, t, d, th.(wake := Timeout, timed := false), o, None, None, None);
      var r := Woken(s, t, d, th.(wake := Timeout, timed := false), o);
      assert r == SchedReady(PutTh(PutOb(s, d, o), t, th.(wake := Timeout, timed := false)), t) by { WokenDef(s, t, d, th.(wake := Timeout, timed := false), o); }
      AskReschedule(r);
    }
  }

  lemma WokenDef(s: State, w: Tid, d: Id, th: Thread, o: Obj)
    ensures Woken(s, w, d, th, o) == SchedReady(PutTh(PutOb(s, d, o), w, th), w)
  {
    hide SchedReady;
  }

  lemma AskReschedule(s: State)
    requires Inv(s, None, None)
    ensures Inv(s.(needResched := true), None, None)
  {
    Unobserved(s, s.(needResched := true));
  }

  /** The invariant does not look at the clock, the process table, the panic flag or the reschedule request. */
  lemma Unobserved(s: State, r: State)
    requires Inv(s, None, None)
    requires r.threads == s.threads && r.objs == s.objs && r.ready == s.ready && r.mask == s.mask
    requires r.current == s.current && r.idle == s.idle
    ensures Inv(r, None, None)
  {
    hide NoDup;
    forall p: Prio ensures QueueOk(r, p) {
      assert QueueOk(s, p);
    }
    forall t: Tid ensures ThreadOk(r, t, None) {
      assert ThreadOk(s, t, None);
    }
    forall d: Id ensures ObjOk(r, d, None) {
      assert ObjOk(s, d, None);
    }
  }

  lemma {:induction false} ExpireAllInv(s: State, ts: seq<Tid>)
    requires Inv(s, None, None)
    ensures Inv(ExpireAll(s, ts), None, None)
    decreases |ts|
  {
    hide Inv, Expire;
    if ts != [] {
      ExpireInv(s, ts[0]);
      ExpireAllInv(Expire(s, ts[0]), ts[1..]);
    }
  }

  lemma {:induction false} ExpireTableInv(s: State, ps: seq<Pid>)
    requires Inv(s, None, None)
    ensures Inv(ExpireTable(s, ps), None, None)
    decreases |ps|
  {
    hide Inv, ExpireAll;
    if ps != [] {
      if Pr(s, ps[0]).count == 0 {
        ExpireTableInv(s, ps[1..]);
      } else {
        ExpireAllInv(s, Pr(s, ps[0]).members);
        ExpireTableInv(ExpireAll(s, Pr(s, ps[0]).members), ps[1..]);
      }
    }
  }

  /* ---- ending a thread ---- */

  lemma UnlinkInv(s: State, t: Tid)
    requires Inv(s, None, None) && Th(s, t).mode == Running
    ensures Inv(Unlink(s, t), None, None) && Th(Unlink(s, t), t) == Th(s, t).(waitOn := None)
  {
    hide Inv, NoDup, Without, ThreadOk, ObjOk, Unlink;
    UnlinkIs(s, t);
    if Th(s, t).waitOn.Some? {
      var d := Th(s, t).waitOn.value;
      NotListed(s, d, t);
      RefreshInv(s, d);
      ForgetInv(PutOb(s, d, Ob(s, d)), t);
    } else {
      assert Th(s, t) == Th(s, t).(waitOn := None);
    }
  }

  lemma NotListed(s: State, d: Id, t: Tid)
    requires Inv(s, None, None) && Th(s, t).mode == Running
    ensures Without(Ob(s, d).waiters, t) == Ob(s, d).waiters
  {
    hide Inv, NoDup, Without;
    HasObject(s, d, None, None);
    WithoutAbsent(Ob(s, d).waiters, t);
  }

  lemma RefreshInv(s: State, d: Id)
    requires Inv(s, None, None)
    ensures Inv(PutOb(s, d, Ob(s, d)), None, None)
  {
    hide Inv, NoDup;
    HasObject(s, d, None, None);
    ObjectEdit(s, d, Ob(s, d), None, None, None);
  }

  lemma ForgetInv(s: State, t: Tid)
    requires Inv(s, None, None) && Th(s, t).mode == Running
    ensures Inv(PutTh(s, t, Th(s, t).(waitOn := None)), None, None)
  {
    hide Inv, ThreadOk;
    IdleOwnsNothing(s, None, None);
    HasThread(s, t, None, None);
    NotWaiting(s, t);
    ThreadEdit(s, t, Th(s, t).(waitOn := None), None, None, None);
  }

  lemma UnlinkIs(s: State, t: Tid)
    ensures Th(s, t).waitOn == None ==> Unlink(s, t) == s
    ensures Th(s, t).waitOn.Some? ==>
      var d := Th(s, t).waitOn.value;
      Unlink(s, t) == PutTh(PutOb(s, d, Ob(s, d).(waiters := Without(Ob(s, d).waiters, t))), t, Th(s, t).(waitOn := None))
  {
    hide Without;
  }

  lemma NotWaiting(s: State, t: Tid)
    requires ThreadOk(s, t, None) && Th(s, t).mode == Running
    ensures ThreadOk(PutTh(s, t, Th(s, t).(waitOn := None)), t, None)
  {
    hide NoDup;
  }

  lemma TerminateInv(s: State, t: Tid, st: Status)
    requires Inv(s, Some(t), None) && Th(s, t).mode == Running && Th(s, t).owned == [] && t != s.idle
    ensures Inv(PutTh(s, t, Th(s, t).(exit := st, mode := Terminated)), None, None)
  {
    hide NoDup, QueueOk, SameQueues;
    var r := PutTh(s, t, Th(s, t).(exit := st, mode := Terminated));
    HasThread(s, t, Some(t), None);
    BlockQueues(s, r, t);
    SameObjects(s, r);
    forall u: Tid ensures ThreadOk(r, u, None) {
      assert ThreadOk(s, u, Some(t));
      if u != t {
        OtherThread(s, r, t, OfThread(0), u, None);
      }
    }
    forall e: Id ensures ObjOk(r, e, None) {
      assert ObjOk(s, e, None);
      OtherObject(s, r, t, OfThread(if e == OfThread(0) then 1 else 0), e, None);
    }
  }

  lemma DepartInv(s: State, p: Pid, st: Status)
    requires Inv(s, None, None)
    ensures Inv(Depart(s, p, st), None, None)
  {
    hide Inv, Signal, RemoveFromTable;
    var pr := Pr(s, p);
    var n := if pr.count > 0 then pr.count - 1 else 0xFFFF_FFFF;
    var s1 := PutPr(s, p, Down(pr, n, st));
    Unobserved(s, s1);
    Unobserved(s1, s1.(panicked := true));
    HasObject(s1, OfProcess(p), None, None);
    SignalInv(s1, OfProcess(p), None);
    var s2 := Signal(s1, OfProcess(p));
    Unobserved(s2, s2.(table := RemoveFromTable(s2.table, p)));
  }

  lemma LeaveInv(s: State, t: Tid, st: Status)
    requires Inv(s, None, None) && Th(s, t).mode == Running && t != s.idle
    requires Th(s, t).pending == None || Th(s, t).kill
    ensures Inv(Leave(s, t, st), None, None)
  {
    hide Inv, Unlink, AbandonAll, Signal, Depart;
    var s1 := Unlink(s, t);
    UnlinkInv(s, t);
    UnlinkIdle(s, t);
    AbandonAllInv(s1, Th(s1, t).owned, t, None);
    var s2 := AbandonAll(s1, Th(s1, t).owned, t);
    AbandonIdle(s1, Th(s1, t).owned, t);
    TerminateInv(s2, t, st);
    var s3 := PutTh(s2, t, Th(s2, t).(exit := st, mode := Terminated));
    HasObject(s3, OfThread(t), None, None);
    SignalInv(s3, OfThread(t), None);
    var s4 := Signal(s3, OfThread(t));
    DepartInv(s4, Th(s4, t).proc, st);
  }

  lemma UnlinkIdle(s: State, t: Tid)
    ensures SameRest(s, Unlink(s, t))
  {
  }

  lemma {:induction false} AbandonIdle(s: State, ms: seq<Id>, t: Tid)
    ensures SameRest(s, AbandonAll(s, ms, t))
    decreases |ms|
  {
    hide WakeOne;
    if ms != [] {
      AbandonIdle(Abandon(s, ms[0], t), ms[1..], t);
    }
  }

  /* ---- dispatching ---- */

  lemma {:induction false} HighestIs(m: Mask, n: nat)
    requires n <= LEVELS
    ensures HighestBit(m, n) == None ==> forall p :: 0 <= p < n ==> !m[p]
    ensures HighestBit(m, n).Some? ==>
      var p := HighestBit(m, n).value; p < n && m[p] && forall q :: p < q < n ==> !m[q]
  {
    if n > 0 {
      HighestIs(m, n - 1);
    }
  }

  /** The queue the dispatcher takes from: the highest one that is not empty. */
  ghost predicate Top(s: State, p: Prio) {
    s.ready[p] != [] && forall q: Prio :: q > p ==> s.ready[q] == []
  }

  lemma PopShape(s: State)
    requires forall p: Prio :: QueueOk(s, p)
    ensures var (r, n) := PopHighest(s);
      && (n == None ==> r == s && forall p: Prio :: s.ready[p] == [])
      && (n.Some? ==> exists p: Prio :: Top(s, p) && n.value == s.ready[p][0] && r == s.(ready := r.ready, mask := r.mask))
      && (n.Some? ==> InNoQueue(r, n.value) && SameQueues(s, r, n.value) && Th(s, n.value).mode == Ready)
      && (forall p: Prio :: QueueOk(r, p))
  {
    HighestIs(s.mask, LEVELS);
    forall p: Prio ensures s.mask[p] <==> s.ready[p] != [] {
      assert QueueOk(s, p);
    }
    if HighestBit(s.mask, LEVELS).Some? {
      var p: Prio := HighestBit(s.mask, LEVELS).value;
      var q := s.ready[p];
      assert Top(s, p) && QueueOk(s, p) && q[0] in q;
      WithoutFirst(q);
      WithoutAll(q, q[0]);
      PopQueues(s, p);
    }
  }

  lemma PopQueues(s: State, p: Prio)
    requires (forall q: Prio :: QueueOk(s, q)) && s.ready[p] != []
    ensures var q := s.ready[p];
      var r := s.(ready := s.ready[p := q[1..]], mask := s.mask[p := |q| > 1]);
      (forall k: Prio :: QueueOk(r, k)) && InNoQueue(r, q[0]) && SameQueues(s, r, q[0])
  {
    var l := s.ready[p];
    var r := s.(ready := s.ready[p := l[1..]], mask := s.mask[p := |l| > 1]);
    assert QueueOk(s, p) && l[0] in l;
    WithoutFirst(l);
    WithoutAll(l, l[0]);
    forall k: Prio ensures QueueOk(r, k) && l[0] !in r.ready[k] {
      assert QueueOk(s, k);
    }
  }

  /** Threads only traded the processor: nothing else about them changed. */
  ghost predicate Moved(s: State, r: State) {
    && r.objs == s.objs && r.idle == s.idle
    && forall t: Tid :: Traded(Th(s, t), Th(r, t))
  }

  ghost predicate Traded(a: Thread, b: Thread) {
    && b == a.(mode := b.mode, quantum := b.quantum)
    && (b.mode == a.mode || (b.mode in {Ready, Running} && a.mode in {Ready, Running}))
  }

  lemma MovedInv(s: State, r: State)
    requires Inv(s, None, None) && Moved(s, r) && (forall p: Prio :: QueueOk(r, p))
    requires forall t: Tid :: Th(r, t).mode == Ready && t != s.idle ==> t in r.ready[Th(r, t).priority]
    requires forall t: Tid :: Th(r, t).mode == Running ==> r.current == Some(t)
    ensures Inv(r, None, None)
  {
    hide QueueOk, NoDup;
    forall t: Tid ensures ThreadOk(r, t, None) {
      assert ThreadOk(s, t, None) && Traded(Th(s, t), Th(r, t));
    }
    forall d: Id ensures ObjOk(r, d, None) {
      assert ObjOk(s, d, None);
      forall w | w in Ob(r, d).waiters ensures Th(r, w).mode == Waiting && Th(r, w).waitOn == Some(d) {
        assert Traded(Th(s, w), Th(r, w));
      }
      if Ob(s, d).owner.Some? {
        assert Traded(Th(s, Ob(s, d).owner.value), Th(r, Ob(s, d).owner.value));
      }
    }
    assert Traded(Th(s, s.idle), Th(r, s.idle));
  }

  lemma ParkShape(s: State)
    requires forall p: Prio :: QueueOk(s, p)
    requires s.current.Some? && Th(s, s.current.value).mode == Running
    ensures var r, c := Park(s), s.current.value;
      && (forall p: Prio :: QueueOk(r, p)) && SameQueues(s, r, c) && OnlyThread(s, r, c) && r.objs == s.objs
      && Th(r, c) == Th(s, c).(mode := Ready) && (c != s.idle ==> c in r.ready[Th(s, c).priority])
      && (c == s.idle ==> r.ready == s.ready)
  {
    var c := s.current.value;
    var s1 := PutTh(s, c, Th(s, c).(mode := Ready));
    NotQueued(s, c);
    if c == s.idle {
      forall p: Prio ensures QueueOk(s1, p) {
        assert QueueOk(s, p) && c !in s.ready[p];
      }
    } else {
      Enqueued(s, s1, c);
    }
  }

  lemma InstallShape(s: State, t: Tid)
    requires (forall p: Prio :: QueueOk(s, p)) && InNoQueue(s, t)
    ensures var r := Install(s, t);
      && (forall p: Prio :: QueueOk(r, p)) && r.ready == s.ready && OnlyThread(s, r, t) && r.objs == s.objs
      && Th(r, t).mode == Running && Th(r, t) == Th(s, t).(mode := Running, quantum := Th(r, t).quantum) && r.current == Some(t)
  {
    var r := Install(s, t);
    forall p: Prio ensures QueueOk(r, p) {
      assert QueueOk(s, p) && t !in s.ready[p];
    }
  }

  /** Switching from what was current to a ready thread that was just taken off its queue. */
  lemma SwitchInv(s: State, s1: State, next: Tid)
    requires Inv(s, None, None) && s1 == s.(ready := s1.ready, mask := s1.mask, needResched := false)
    requires (forall p: Prio :: QueueOk(s1, p)) && InNoQueue(s1, next) && SameQueues(s, s1, next)
    requires Th(s, next).mode == Ready && s.current != Some(next)
    ensures Inv(Install(Park(s1), next), None, None) && Install(Park(s1), next).current == Some(next)
    ensures Th(Install(Park(s1), next), next).mode == Running
  {
    hide QueueOk, NoDup, Park, Install, WaitOk, OwnsOk, Donated;
    var s2 := Park(s1);
    var r := Install(s2, next);
    var running := s.current.Some? && Th(s, s.current.value).mode == Running;
    if running {
      ParkShape(s1);
      StillInNoQueue(s1, s2, s.current.value, next);
    } else {
      NoPark(s1);
    }
    InstallShape(s2, next);
    forall t: Tid ensures Traded(Th(s, t), Th(r, t)) && (Th(r, t).mode == Running ==> t == next)
      && (Th(r, t).mode == Ready && t != s.idle ==> t in r.ready[Th(r, t).priority])
    {
      assert ThreadOk(s, t, None);
      if Th(s, t).mode == Ready && t != s.idle && t != next {
        assert t in s1.ready[Th(s, t).priority];
      }
    }
    MovedInv(s, r);
  }

  lemma NoPark(s: State)
    requires !(s.current.Some? && Th(s, s.current.value).mode == Running)
    ensures Park(s) == s
  {
  }

  lemma StillInNoQueue(s: State, r: State, c: Tid, t: Tid)
    requires InNoQueue(s, t) && SameQueues(s, r, c) && t != c
    ensures InNoQueue(r, t)
  {
  }

  /** The current thread is not in a queue. */
  ghost predicate Busy(s: State) {
    s.current.Some? ==> Th(s, s.current.value).mode != Ready
  }

  /** Dispatch takes the head of the highest queue that is not empty, or idle when all are empty. */
  lemma PickInv(s: State)
    requires Inv(s, None, None) && Busy(s)
    ensures var r := PickNext(s);
      && Inv(r, None, None) && r.current.Some? && Th(r, r.current.value).mode == Running
      && (forall p: Prio :: Top(s, p) ==> r.current == Some(s.ready[p][0]))
      && ((forall p: Prio :: s.ready[p] == []) ==> r.current == Some(s.idle))
  {
    hide QueueOk, NoDup, Park, Install, PopHighest, ThreadOk, ObjOk, IdleOk;
    var s0 := s.(needResched := false);
    Unobserved(s, s0);
    PopShape(s0);
    var (s1, n) := PopHighest(s0);
    assert forall p: Prio, q: Prio :: Top(s, p) && Top(s0, q) ==> p == q;
    IdleOwnsNothing(s, None, None);
    var next := if n.Some? then n.value else s.idle;
    if n.Some? {
      HasThread(s, next, None, None);
      SwitchInv(s, s1, next);
    } else {
      PickIdle(s, s1);
    }
  }

  lemma PickIdle(s: State, s1: State)
    requires Inv(s, None, None) && s1 == s.(needResched := false) && (forall p: Prio :: s.ready[p] == []) && Busy(s)
    ensures var r := if s.current == Some(s.idle) then s1 else Install(Park(s1), s.idle);
      Inv(r, None, None) && r.current == Some(s.idle) && Th(r, s.idle).mode == Running
  {
    hide QueueOk, ThreadOk, ObjOk, Park, Install;
    Unobserved(s, s1);
    HasThread(s, s.idle, None, None);
    if s.current != Some(s.idle) {
      IdleReady(s);
      SwitchInv(s, s1, s.idle);
    }
  }

  lemma IdleReady(s: State)
    requires IdleOk(s) && ThreadOk(s, s.idle, None) && s.current != Some(s.idle)
    ensures Th(s, s.idle).mode == Ready
  {
  }
}
