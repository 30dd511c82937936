/**
 Which process a thread belongs to, which processes the kernel lists, and which timed waits therefore end in time.
 */
module KernelRoster {
  import opened Common
  import opened KernelState
  import opened KernelInvariant
  import opened KernelSteps
  import opened KernelRuns
  import opened KernelOperations
  import opened KernelSafety

  /* ---- the roster ---- */

  /** How many threads of a list have not ended. */
  function Alive(s: State, l: seq<Tid>): nat {
    if l == [] then 0 else (if Th(s, l[0]).mode == Terminated then 0 else 1) + Alive(s, l[1..])
  }

  /** A process's list holds its own threads, once each, and its count is of those that have not ended. */
  ghost predicate ProcOk(s: State, p: Pid) {
    var pr := Pr(s, p);
    && NoDup(pr.members) && pr.count == Alive(s, pr.members)
    && forall t :: t in pr.members ==> Th(s, t).proc == p
  }

  /** The table lists processes that exist, once each; all but the first two leave it with their last thread. */
  ghost predicate TableOk(s: State) {
    && NoDup(s.table)
    && forall p :: p in s.table ==> p in s.procs && (p in {0, 1} || Pr(s, p).count > 0 || Pr(s, p).members == [])
  }

  /** Every thread that runs, is ready or waits is on its process's list. */
  ghost predicate Rostered(s: State) {
    && (forall p: Pid :: ProcOk(s, p))
    && (forall t: Tid :: Active(Th(s, t)) ==> t in Pr(s, Th(s, t).proc).members)
    && TableOk(s)
  }

  /* ---- steps that leave processes alone ---- */

  ghost predicate SameHome(a: Thread, b: Thread) {
    b.proc == a.proc && (Active(b) <==> Active(a)) && (b.mode == Terminated <==> a.mode == Terminated)
  }

  ghost predicate Still(s: State, r: State) {
    r.procs == s.procs && r.table == s.table && forall t: Tid :: SameHome(Th(s, t), Th(r, t))
  }

  lemma LiveStill(s: State, r: State)
    requires SameLive(s, r) && r.procs == s.procs && r.table == s.table
    ensures Still(s, r)
  {
    forall t: Tid ensures SameHome(Th(s, t), Th(r, t)) {
      assert Kept(Th(s, t), Th(r, t));
    }
  }

  lemma StillTrans(s: State, m: State, r: State)
    requires Still(s, m) && Still(m, r)
    ensures Still(s, r)
  {
    forall t: Tid ensures SameHome(Th(s, t), Th(r, t)) {
      assert SameHome(Th(s, t), Th(m, t)) && SameHome(Th(m, t), Th(r, t));
    }
  }

  lemma {:induction false} AliveSame(s: State, r: State, l: seq<Tid>)
    requires forall t :: t in l ==> (Th(r, t).mode == Terminated <==> Th(s, t).mode == Terminated)
    ensures Alive(r, l) == Alive(s, l)
  {
    if l != [] {
      AliveSame(s, r, l[1..]);
    }
  }

  lemma StillRostered(s: State, r: State)
    requires Rostered(s) && Still(s, r)
    ensures Rostered(r)
  {
    hide Alive;
    forall p: Pid ensures ProcOk(r, p) {
      assert ProcOk(s, p);
      forall t | t in Pr(s, p).members ensures Th(r, t).mode == Terminated <==> Th(s, t).mode == Terminated {
        assert SameHome(Th(s, t), Th(r, t));
      }
      AliveSame(s, r, Pr(s, p).members);
      forall t | t in Pr(r, p).members ensures Th(r, t).proc == p {
        assert SameHome(Th(s, t), Th(r, t));
      }
    }
    forall t: Tid | Active(Th(r, t)) ensures t in Pr(r, Th(r, t).proc).members {
      assert SameHome(Th(s, t), Th(r, t));
    }
  }

  lemma PickStill(s: State)
    requires Inv(s, None, None)
    ensures Still(s, PickNext(s))
  {
    hide Park, Install, PopHighest, QueueOk, ThreadOk, ObjOk;
    var s0 := s.(needResched := false);
    Unobserved(s, s0);
    PopShape(s0);
    var (s1, n) := PopHighest(s0);
    var next := if n.Some? then n.value else s.idle;
    IdleOwnsNothing(s, None, None);
    ParkRest(s1);
    PopRest(s0);
    forall u: Tid ensures SameHome(Th(s, u), Th(PickNext(s), u)) {
      ParkedHome(s1, u);
      InstalledHome(Park(s1), next, u);
      ParkedActive(s1, next);
    }
  }

  lemma PopRest(s: State)
    ensures var r := PopHighest(s).0; r.procs == s.procs && r.table == s.table
  {
  }

  lemma ParkRest(s: State)
    ensures Park(s).procs == s.procs && Park(s).table == s.table
    ensures forall t: Tid :: Install(Park(s), t).procs == s.procs && Install(Park(s), t).table == s.table
  {
  }

  lemma ParkedHome(s: State, u: Tid)
    ensures SameHome(Th(s, u), Th(Park(s), u))
  {
  }

  lemma InstalledHome(s: State, t: Tid, u: Tid)
    requires Active(Th(s, t)) || u != t
    ensures SameHome(Th(s, u), Th(Install(s, t), u))
  {
  }

  lemma DonateStill(s: State, m: Id, t: Tid)
    ensures Still(s, Donate(s, m, t))
  {
    hide SchedBoost;
    DonateRest(s, m, t);
    if Ob(s, m).owner.Some? {
      var o := Ob(s, m).owner.value;
      var th := Th(s, o);
      var s1 := PutTh(s, o, th.(saved := if th.boost then th.saved else th.priority, boost := true));
      SchedBoostLive(s1, o, Th(s, t).priority);
      if Donate(s, m, t) != s {
        LiveStill(s1, Donate(s, m, t));
        StillTrans(s, s1, Donate(s, m, t));
      }
    }
  }

  lemma BlockStill(s: State, d: Id, t: Tid, timeout: Option<nat>)
    requires Active(Th(s, t))
    ensures Still(s, Block(s, d, t, timeout))
  {
  }

  lemma TakeStill(s: State, m: Id, t: Tid)
    ensures Still(s, Take(s, m, t))
  {
    hide Without;
  }

  lemma AttemptStill(s: State, d: Id, t: Tid, timeout: Option<nat>)
    requires Active(Th(s, t))
    ensures Still(s, Attempt(s, d, t, timeout).0)
  {
    hide Donate, Take, Block, Still;
    DonateStill(s, d, t);
    TakeStill(s, d, t);
    BlockStill(s, d, t, timeout);
    var s1 := Donate(s, d, t);
    StillHome(s, s1, t);
    BlockStill(s1, d, t, timeout);
    ObjectStill(s, d, Ob(s, d).(recursion := Ob(s, d).recursion + 1));
    ObjectStill(s, d, Ob(s, d).(signal := 0));
    StillTrans(s, s1, Block(s1, d, t, timeout));
  }

  lemma StillHome(s: State, r: State, t: Tid)
    requires Still(s, r)
    ensures SameHome(Th(s, t), Th(r, t))
  {
  }

  lemma ObjectStill(s: State, d: Id, o: Obj)
    ensures Still(s, PutOb(s, d, o)) && Still(s, s)
  {
  }

  lemma UnlinkStill(s: State, t: Tid)
    ensures Still(s, Unlink(s, t))
  {
    hide Without;
  }

  lemma KillStill(s: State, t: Tid, st: Status)
    ensures Still(s, Kill(s, t, st))
  {
    hide SchedReady, Unlink;
    var s1 := PutTh(s, t, Th(s, t).(kill := true, exit := st));
    var s2 := Unlink(s1, t);
    UnlinkStill(s1, t);
    StillTrans(s, s1, s2);
    if Th(s, t).mode == Waiting {
      assert SameHome(Th(s, t), Th(s2, t));
      SchedReadyLive(s2, t);
      LiveStill(s2, SchedReady(s2, t));
      StillTrans(s, s2, SchedReady(s2, t));
    }
  }

  lemma TickedStill(s: State, due: seq<Id>)
    ensures Still(s, Ticked(s, due))
  {
    hide SignalAll, ExpireTable, SpendQuantum, SameLive;
    TickedLive(s, due);
    var s1 := SignalAll(s.(ticks := s.ticks + 1), due);
    SignalAllLive(s.(ticks := s.ticks + 1), due);
    ExpireTableLive(s1, s1.table);
    SpendLive(ExpireTable(s1, s1.table));
    LiveStill(s, Ticked(s, due));
  }

  /* ---- the end of a thread ---- */

  lemma {:induction false} AliveLess(s: State, r: State, l: seq<Tid>, t: Tid)
    requires NoDup(l) && t in l && Th(s, t).mode != Terminated && Th(r, t).mode == Terminated
    requires forall u :: u in l && u != t ==> (Th(r, u).mode == Terminated <==> Th(s, u).mode == Terminated)
    ensures Alive(s, l) > 0 && Alive(r, l) == Alive(s, l) - 1
  {
    var rest := l[1..];
    assert forall i :: 0 <= i < |rest| ==> rest[i] == l[i + 1];
    if l[0] == t {
      AliveSame(s, r, rest);
    } else {
      AliveLess(s, r, rest, t);
    }
  }

  /** Up to the moment its process is told, an exit changes nothing but the thread itself. */
  lemma BeforeDepart(s: State, t: Tid, st: Status) returns (m: State)
    ensures m.procs == s.procs && m.table == s.table && Leave(s, t, st) == Depart(m, Th(s, t).proc, st)
    ensures Th(m, t).proc == Th(s, t).proc && Th(m, t).mode == Terminated
    ensures forall u: Tid :: u != t ==> SameHome(Th(s, u), Th(m, u))
  {
    hide AbandonAll, Signal, Depart, Unlink;
    var s1 := Unlink(s, t);
    UnlinkStill(s, t);
    var s2 := AbandonAll(s1, Th(s1, t).owned, t);
    AbandonAllLive(s1, Th(s1, t).owned, t);
    AbandonAllRest(s1, Th(s1, t).owned, t);
    LiveStill(s1, s2);
    StillTrans(s, s1, s2);
    var s3 := PutTh(s2, t, Th(s2, t).(exit := st, mode := Terminated));
    m := Signal(s3, OfThread(t));
    SignalLive(s3, OfThread(t));
    SignalRest(s3, OfThread(t));
    LiveStill(s3, m);
    assert SameHome(Th(s3, t), Th(m, t)) && SameHome(Th(s, t), Th(s2, t));
    forall u: Tid | u != t ensures SameHome(Th(s, u), Th(m, u)) {
      assert SameHome(Th(s, u), Th(s2, u)) && SameHome(Th(s3, u), Th(m, u));
    }
  }

  lemma TableWithout(table: seq<Pid>, p: Pid, q: Pid)
    ensures q in RemoveFromTable(table, p) ==> q in table
    ensures q in table && q != p ==> q in RemoveFromTable(table, p)
  {
    if p in table {
      var i, n := IndexOf(table, p), |table| - 1;
      var l := table[i := table[n]][..n];
      if q in table && q != p {
        var k :| 0 <= k < |table| && table[k] == q;
        assert l[if k == n then i else k] == q;
      }
    }
  }

  lemma TakenOut(table: seq<Pid>, p: Pid)
    requires NoDup(table)
    ensures NoDup(RemoveFromTable(table, p)) && p !in RemoveFromTable(table, p)
  {
  }

  /** What the end of threads does to the table: a process goes only when it has none left, and none comes. */
  ghost predicate Shrunk(s: State, r: State) {
    && s.procs.Keys <= r.procs.Keys
    && forall q: Pid :: Gone(s, r, q)
  }

  ghost predicate Gone(s: State, r: State, q: Pid) {
    && (q in r.table ==> q in s.table)
    && (q in s.table ==> q in r.table || Pr(r, q).count == 0)
    && (Pr(s, q).count == 0 ==> Pr(r, q).count == 0)
  }

  lemma StillShrunk(s: State, r: State)
    requires Still(s, r)
    ensures Shrunk(s, r)
  {
  }

  lemma ShrunkTrans(s: State, m: State, r: State)
    requires Shrunk(s, m) && Shrunk(m, r)
    ensures Shrunk(s, r)
  {
    forall q: Pid ensures Gone(s, r, q) {
      assert Gone(s, m, q) && Gone(m, r, q);
    }
  }

  lemma DepartShape(s: State, p: Pid, st: Status)
    requires Pr(s, p).count > 0
    ensures var r := Depart(s, p, st);
      && Still(s.(procs := r.procs, table := r.table), r)
      && (forall q: Pid :: q != p ==> Pr(r, q) == Pr(s, q))
      && Pr(r, p).members == Pr(s, p).members && Pr(r, p).count == Pr(s, p).count - 1
      && r.procs.Keys == s.procs.Keys + {p}
      && r.table == (if Pr(s, p).count == 1 && p !in {0, 1} then RemoveFromTable(s.table, p) else s.table)
  {
    hide Signal, RemoveFromTable;
    var pr := Pr(s, p);
    var n := pr.count - 1;
    var s1 := PutPr(s, p, Down(pr, n, st));
    SignalLive(s1, OfProcess(p));
    SignalRest(s1, OfProcess(p));
    LiveStill(s1, Signal(s1, OfProcess(p)));
    var r := Depart(s, p, st);
    forall u: Tid ensures SameHome(Th(s, u), Th(r, u)) {
      assert SameHome(Th(s1, u), Th(Signal(s1, OfProcess(p)), u));
    }
  }

  lemma LeaveRoster(s: State, t: Tid, st: Status)
    requires Rostered(s) && Active(Th(s, t))
    ensures Rostered(Leave(s, t, st)) && Shrunk(s, Leave(s, t, st))
  {
    hide Leave, Depart, Alive, RemoveFromTable;
    var p := Th(s, t).proc;
    var m := BeforeDepart(s, t, st);
    var r := Leave(s, t, st);
    assert ProcOk(s, p);
    MembersFell(s, m, t, p);
    DepartShape(m, p, st);
    forall u: Tid ensures Th(r, u).proc == Th(m, u).proc && (Active(Th(r, u)) <==> Active(Th(m, u))) && (Th(r, u).mode == Terminated <==> Th(m, u).mode == Terminated) {
      assert SameHome(Th(m.(procs := r.procs, table := r.table), u), Th(r, u));
    }
    forall q: Pid ensures ProcOk(r, q) {
      assert ProcOk(s, q);
      forall u | u in Pr(r, q).members ensures Th(r, u).proc == q {
        assert u != t ==> SameHome(Th(s, u), Th(m, u));
      }
      AliveSame(m, r, Pr(s, q).members);
      if q != p {
        assert t !in Pr(s, q).members;
        forall u | u in Pr(s, q).members ensures Th(m, u).mode == Terminated <==> Th(s, u).mode == Terminated {
          assert SameHome(Th(s, u), Th(m, u));
        }
        AliveSame(s, m, Pr(s, q).members);
      }
    }
    forall u: Tid | Active(Th(r, u)) ensures u in Pr(r, Th(r, u).proc).members {
      assert u != t;
      assert SameHome(Th(s, u), Th(m, u));
    }
    forall q: Pid ensures Gone(s, r, q) {
      TableWithout(s.table, p, q);
    }
    forall q | q in r.table ensures q in r.procs && (q in {0, 1} || Pr(r, q).count > 0 || Pr(r, q).members == []) {
      assert Gone(s, r, q);
      TakenOut(s.table, p);
    }
    TakenOut(s.table, p);
  }

  /** A process other than the first two leaves the table with its last thread, and no other leaves then. */
  lemma LastThreadUnlists(s: State, t: Tid, st: Status)
    requires Rostered(s) && Active(Th(s, t))
    ensures var r, p := Leave(s, t, st), Th(s, t).proc;
      forall q :: q in r.table <==> q in s.table && !(q == p && Pr(s, p).count == 1 && p !in {0, 1})
  {
    hide Leave, Depart, Alive, RemoveFromTable;
    var p := Th(s, t).proc;
    var m := BeforeDepart(s, t, st);
    assert ProcOk(s, p);
    MembersFell(s, m, t, p);
    DepartShape(m, p, st);
    TakenOut(s.table, p);
    forall q ensures q in Leave(s, t, st).table <==> q in s.table && !(q == p && Pr(s, p).count == 1 && p !in {0, 1}) {
      TableWithout(s.table, p, q);
    }
  }

  lemma MembersFell(s: State, m: State, t: Tid, p: Pid)
    requires ProcOk(s, p) && t in Pr(s, p).members && Th(s, t).mode != Terminated && Th(m, t).mode == Terminated
    requires forall u: Tid :: u != t ==> SameHome(Th(s, u), Th(m, u))
    ensures Pr(s, p).count > 0 && Alive(m, Pr(s, p).members) == Pr(s, p).count - 1
  {
    hide Alive;
    forall u | u in Pr(s, p).members && u != t ensures Th(m, u).mode == Terminated <==> Th(s, u).mode == Terminated {
      assert SameHome(Th(s, u), Th(m, u));
    }
    AliveLess(s, m, Pr(s, p).members, t);
  }

  /* ---- every operation ---- */

  lemma {:induction false} DispatchRoster(s: State)
    requires Inv(s, None, None) && Busy(s) && Rostered(s)
    ensures Rostered(Dispatch(s)) && Shrunk(s, Dispatch(s))
    decreases |Live(s)|
  {
    hide Inv, Rostered, Shrunk, Leave, Still, PickNext;
    PickInv(s);
    PickLive(s);
    PickStill(s);
    var s1 := PickNext(s);
    StillRostered(s, s1);
    StillShrunk(s, s1);
    var c := s1.current.value;
    if Th(s1, c).kill {
      IdleOwnsNothing(s1, None, None);
      ExitInv(s1, c, Th(s1, c).exit);
      var s2 := Leave(s1, c, Th(s1, c).exit);
      LeaveRoster(s1, c, Th(s1, c).exit);
      ShrunkTrans(s, s1, s2);
      if !s2.panicked {
        var s3 := s2.(current := None);
        VacantStill(s2);
        StillRostered(s2, s3);
        StillShrunk(s2, s3);
        ShrunkTrans(s, s2, s3);
        DispatchRoster(s3);
        ShrunkTrans(s, s3, Dispatch(s3));
      }
    }
  }

  lemma VacantStill(s: State)
    ensures Still(s, s.(current := None))
  {
  }

  lemma ExitRoster(s: State, st: Status)
    requires Inv(s, None, None) && s.current.Some? && Acting(s, s.current.value) && Rostered(s)
    ensures Rostered(Exit(s, st)) && Shrunk(s, Exit(s, st))
  {
    hide Inv, Rostered, Shrunk, Leave, Still, Dispatch;
    var t := s.current.value;
    ExitInv(s, t, st);
    LeaveRoster(s, t, st);
    var s1 := Leave(s, t, st);
    if !s1.panicked {
      var s2 := s1.(current := None);
      VacantStill(s1);
      StillRostered(s1, s2);
      StillShrunk(s1, s2);
      ShrunkTrans(s, s1, s2);
      DispatchRoster(s2);
      ShrunkTrans(s, s2, Dispatch(s2));
    }
  }

  /** A step that leaves processes alone, and perhaps a dispatch after it. */
  lemma ThenDispatch(s: State, m: State, r: State)
    requires Rostered(s) && Still(s, m)
    requires r == m || (Inv(m, None, None) && Busy(m) && r == Dispatch(m))
    ensures Rostered(r) && Shrunk(s, r)
  {
    hide Inv, Rostered, Shrunk, Still, Dispatch;
    StillRostered(s, m);
    StillShrunk(s, m);
    if r != m {
      DispatchRoster(m);
      ShrunkTrans(s, m, r);
    }
  }

  lemma WaitRoster(s: State, d: Id, timeout: Option<nat>)
    requires Good(s) && !s.panicked && s.current.Some? && Acting(s, s.current.value) && d in s.objs && Rostered(s)
    ensures Rostered(WaitStep(s, d, timeout)) && Shrunk(s, WaitStep(s, d, timeout))
  {
    hide Inv, Rostered, Shrunk, Still, Dispatch, Attempt;
    var t := s.current.value;
    AttemptInv(s, d, t, timeout);
    AttemptKeeps(s, d, t, timeout);
    AttemptStill(s, d, t, timeout);
    ThenDispatch(s, Attempt(s, d, t, timeout).0, WaitStep(s, d, timeout));
  }

  lemma TickRoster(s: State, due: seq<Id>)
    requires Good(s) && !s.panicked && (forall d :: d in due ==> Ob(s, d).kind != Mutant) && Rostered(s)
    ensures Rostered(TickStep(s, due)) && Shrunk(s, TickStep(s, due))
  {
    hide Inv, Rostered, Shrunk, Still, Dispatch, Ticked;
    TickedInv(s, due);
    TickedLive(s, due);
    StillGood(s, Ticked(s, due));
    TickedStill(s, due);
    ThenDispatch(s, Ticked(s, due), TickStep(s, due));
  }

  lemma KillRoster(s: State, t: Tid, st: Status)
    requires Good(s) && !s.panicked && s.current.Some? && Acting(s, s.current.value) && Rostered(s)
    ensures Rostered(KillStep(s, t, st)) && Shrunk(s, KillStep(s, t, st))
  {
    hide Inv, Rostered, Shrunk, Still, Kill, Exit;
    if t == s.idle || Th(s, t).mode == Terminated {
      SameStill(s);
      StillShrunk(s, s);
    } else if s.current == Some(t) {
      ExitRoster(s, st);
    } else {
      KillStill(s, t, st);
      StillRostered(s, Kill(s, t, st));
      StillShrunk(s, Kill(s, t, st));
    }
  }

  lemma SameStill(s: State)
    ensures Still(s, s)
  {
  }

  lemma NewMutexStill(s: State, m: Id, owned: bool)
    ensures Still(s, NewMutex(s, m, owned))
  {
    hide Without;
  }

  lemma ReturnStill(s: State)
    requires Good(s) && !s.panicked && s.current.Some?
    ensures Still(s, ReturnStep(s))
  {
    hide Inv;
  }

  /** A new thread joins its process. */
  lemma NewThreadRoster(s: State, t: Tid, prio: Prio, p: Pid, suspended: bool)
    requires Rostered(s) && p in s.procs && FreshThread(s, t)
    ensures Rostered(NewThread(s, t, prio, p, suspended))
  {
    hide SchedReady, Alive, Rostered;
    var th := NoThread.(priority := prio, saved := prio, base := prio, quantum := QUANTUM, proc := p);
    var s1 := PutTh(NewObject(s, OfThread(t), ThreadEnd, 0), t, th);
    var s2 := PutPr(s1, p, Pr(s1, p).(members := Pr(s1, p).members + [t], count := Pr(s1, p).count + 1));
    Joined(s, t, th, p, s2);
    if !suspended {
      Started(s2, t, p, SchedReady(s2, t));
    }
  }

  lemma Joined(s: State, t: Tid, th: Thread, p: Pid, r: State)
    requires Rostered(s) && p in s.procs && FreshThread(s, t) && th.mode == Unused && th.proc == p
    requires r.threads == s.threads[t := th] && r.table == s.table
    requires r.procs == s.procs[p := Pr(s, p).(members := Pr(s, p).members + [t], count := Pr(s, p).count + 1)]
    ensures Rostered(r) && t in Pr(r, p).members
  {
    hide Alive;
    forall q: Pid ensures ProcOk(r, q) {
      assert ProcOk(s, q);
      assert t !in Pr(s, q).members;
      AliveSame(s, r, Pr(s, q).members);
      if q == p {
        AliveMore(r, Pr(s, p).members, t);
      }
    }
    assert Pr(r, p).members[|Pr(s, p).members|] == t;
    forall u: Tid | Active(Th(r, u)) ensures u in Pr(r, Th(r, u).proc).members {
      assert u in Pr(s, Th(s, u).proc).members;
    }
  }

  lemma {:induction false} AliveMore(s: State, l: seq<Tid>, t: Tid)
    requires Th(s, t).mode != Terminated
    ensures Alive(s, l + [t]) == Alive(s, l) + 1
  {
    if l == [] {
      assert l + [t] == [t];
    } else {
      assert (l + [t])[1..] == l[1..] + [t];
      AliveMore(s, l[1..], t);
    }
  }

  /** A thread of a process becomes ready for the first time. */
  lemma Started(s: State, t: Tid, p: Pid, r: State)
    requires Rostered(s) && r == SchedReady(s, t) && Th(s, t).mode == Unused && Th(s, t).proc == p && t in Pr(s, p).members
    ensures Rostered(r)
  {
    hide SchedReady, Alive;
    forall u: Tid ensures Th(r, u).proc == Th(s, u).proc && (Th(r, u).mode == Terminated <==> Th(s, u).mode == Terminated)
      ensures u != t ==> Th(r, u) == Th(s, u)
    {
      if u != t {
        SchedReadyThread(s, t, u);
      } else {
        ReadySelf(s, t);
      }
    }
    forall q: Pid ensures ProcOk(r, q) {
      assert ProcOk(s, q);
      AliveSame(s, r, Pr(s, q).members);
    }
  }

  lemma ReadySelf(s: State, t: Tid)
    requires Th(s, t).mode == Unused
    ensures Th(SchedReady(s, t), t) == Th(s, t).(mode := Ready)
  {
  }

  lemma NewProcessRoster(s: State, p: Pid)
    requires Rostered(s) && p !in s.procs
    ensures Rostered(NewProcess(s, p))
    ensures p in NewProcess(s, p).table <==> |s.table| < MAX_PROCESSES
  {
    Added(s, p, NewProcess(s, p));
  }

  lemma Added(s: State, p: Pid, r: State)
    requires Rostered(s) && p !in s.procs && r.threads == s.threads && r.procs == s.procs[p := NoProc]
    requires r.table == s.table || r.table == s.table + [p]
    ensures Rostered(r)
  {
    hide Alive;
    assert Pr(r, p) == NoProc == Pr(s, p);
    forall q: Pid ensures ProcOk(r, q) && Pr(r, q) == Pr(s, q) {
      assert ProcOk(s, q);
      AliveSame(s, r, Pr(s, q).members);
    }
    forall t: Tid | Active(Th(r, t)) ensures t in Pr(r, Th(r, t).proc).members {
      assert Pr(r, Th(s, t).proc) == Pr(s, Th(s, t).proc);
    }
  }

  /** The table after an operation: it gains only a new process that finds room, and loses only one without threads. */
  ghost predicate TableStep(s: State, op: Op, r: State) {
    && s.procs.Keys <= r.procs.Keys
    && (forall q :: q in r.table ==> q in s.table || (op == CreateProcess(q) && |s.table| < MAX_PROCESSES))
    && (forall q :: q in s.table ==> q in r.table || Pr(r, q).count == 0)
    && (op.CreateProcess? && |s.table| < MAX_PROCESSES ==> op.p in r.table)
  }

  lemma ShrunkTable(s: State, op: Op, r: State)
    requires Shrunk(s, r) && !op.CreateProcess?
    ensures TableStep(s, op, r)
  {
    forall q | q in r.table ensures q in s.table {
      assert Gone(s, r, q);
    }
    forall q | q in s.table ensures q in r.table || Pr(r, q).count == 0 {
      assert Gone(s, r, q);
    }
  }

  lemma StepRoster(s: State, op: Op)
    requires Good(s) && !s.panicked && Enabled(s, op) && Rostered(s)
    ensures Rostered(Step(s, op)) && TableStep(s, op, Step(s, op))
  {
    hide Inv, Rostered, Shrunk, Still, TableStep, SameLive, FreshThread;
    hide WaitStep, ReturnStep, ReleaseStep, SetStep, ResetStep, KillStep, ExitStep, YieldStep, TickStep;
    var r := Step(s, op);
    match op
    case Wait(d, timeout) =>
      WaitRoster(s, d, timeout);
      ShrunkTable(s, op, r);
    case Return =>
      ReturnStill(s);
      QuietStep(s, op, r);
    case ReleaseMutex(m) =>
      ReleaseStill(s, m);
      QuietStep(s, op, r);
    case SetEvent(d) =>
      SetStill(s, d);
      QuietStep(s, op, r);
    case ResetEvent(d) =>
      ResetStill(s, d);
      QuietStep(s, op, r);
    case KillThread(t, st) =>
      KillRoster(s, t, st);
      ShrunkTable(s, op, r);
    case ExitThread(st) =>
      EndRoster(s, st);
      ShrunkTable(s, op, r);
    case Yield =>
      YieldRoster(s);
      ShrunkTable(s, op, r);
    case Tick(due) =>
      TickRoster(s, due);
      ShrunkTable(s, op, r);
    case CreateObject(d, kind, signal) =>
      ObjectStill(s, d, Obj(kind, signal, [], None, 0, false));
      QuietStep(s, op, r);
    case CreateMutex(m, owned) =>
      NewMutexStill(s, m, owned);
      QuietStep(s, op, r);
    case CreateThread(t, prio, p, suspended) =>
      NewThreadRoster(s, t, prio, p, suspended);
      NewThreadTable(s, op, t, prio, p, suspended);
    case Resume(t) =>
      Started(s, t, Th(s, t).proc, SchedReady(s, t));
      ResumeTable(s, op, t);
    case CreateProcess(p) =>
      NewProcessRoster(s, p);
      NewProcessTable(s, op, p);
  }

  lemma QuietStep(s: State, op: Op, r: State)
    requires Rostered(s) && Still(s, r) && !op.CreateProcess?
    ensures Rostered(r) && TableStep(s, op, r)
  {
    hide Rostered, Shrunk, Still, TableStep;
    StillRostered(s, r);
    StillShrunk(s, r);
    ShrunkTable(s, op, r);
  }

  lemma ReleaseStill(s: State, m: Id)
    requires Good(s) && !s.panicked && s.current.Some? && Acting(s, s.current.value) && Ob(s, m).kind == Mutant
    ensures Still(s, ReleaseStep(s, m))
  {
    hide Inv, Still, SameLive, Release;
    ReleaseLive(s, m);
    LiveStill(s, Release(s, m).0);
  }

  lemma SetStill(s: State, d: Id)
    requires Good(s) && !s.panicked && Ob(s, d).kind != Mutant
    ensures Still(s, SetStep(s, d))
  {
    hide Inv, Still, SameLive, Signal;
    SignalLive(s, d);
    SignalRest(s, d);
    LiveStill(s, Signal(s, d));
  }

  lemma ResetStill(s: State, d: Id)
    requires Good(s) && !s.panicked && Ob(s, d).kind != Mutant
    ensures Still(s, ResetStep(s, d))
  {
    hide Inv, Still;
    ObjectStill(s, d, Ob(s, d).(signal := 0));
  }

  lemma EndRoster(s: State, st: Status)
    requires Good(s) && !s.panicked && s.current.Some? && Acting(s, s.current.value) && Rostered(s)
    ensures Rostered(ExitStep(s, st)) && Shrunk(s, ExitStep(s, st))
  {
    hide Inv, Rostered, Shrunk, Exit;
    ExitRoster(s, st);
  }

  lemma YieldRoster(s: State)
    requires Good(s) && !s.panicked && Rostered(s)
    ensures Rostered(YieldStep(s)) && Shrunk(s, YieldStep(s))
  {
    hide Inv, Rostered, Shrunk, Dispatch;
    DispatchRoster(s);
  }

  lemma NewThreadTable(s: State, op: Op, t: Tid, prio: Prio, p: Pid, suspended: bool)
    requires op == CreateThread(t, prio, p, suspended)
    ensures TableStep(s, op, NewThread(s, t, prio, p, suspended))
  {
    hide SchedReady;
  }

  lemma ResumeTable(s: State, op: Op, t: Tid)
    requires op == Resume(t)
    ensures TableStep(s, op, SchedReady(s, t))
  {
    hide SchedReady;
  }

  lemma NewProcessTable(s: State, op: Op, p: Pid)
    requires op == CreateProcess(p) && p !in s.procs
    ensures TableStep(s, op, NewProcess(s, p))
  {
  }

  /* ---- runs ---- */

  lemma BootRostered(idle: Tid)
    ensures Rostered(Boot(idle))
  {
    var s := Boot(idle);
    forall p: Pid ensures ProcOk(s, p) {
    }
  }

  /** In every state that the kernel reaches, a listed process other than the first two has a thread left or none so far. */
  lemma ListedLives(idle: Tid, ops: seq<Op>, p: Pid)
    requires Legal(Boot(idle), ops) && p in Run(Boot(idle), ops).table && p !in {0, 1}
    ensures var s := Run(Boot(idle), ops);
      Pr(s, p).members == [] || exists t :: t in Pr(s, p).members && Th(s, t).mode != Terminated
  {
    hide Legal, Run, Boot;
    BootRostered(idle);
    RunRostered(Boot(idle), ops);
    var s := Run(Boot(idle), ops);
    assert ProcOk(s, p);
    if Pr(s, p).count > 0 {
      SomeAlive(s, Pr(s, p).members);
    }
  }

  lemma {:induction false} SomeAlive(s: State, l: seq<Tid>)
    requires Alive(s, l) > 0
    ensures exists t :: t in l && Th(s, t).mode != Terminated
  {
    if Th(s, l[0]).mode == Terminated {
      SomeAlive(s, l[1..]);
    }
  }

  lemma {:induction false} RunRostered(s: State, ops: seq<Op>)
    requires Good(s) && Legal(s, ops) && Rostered(s)
    ensures Rostered(Run(s, ops))
    decreases |ops|
  {
    hide Good, Rostered, Enabled, TableStep;
    if ops != [] {
      StepRoster(s, ops[0]);
      RunRostered(Step(s, ops[0]), ops[1..]);
    }
  }

  /** A process that is not listed is not listed later either. */
  lemma {:induction false} UnlistedForever(s: State, ops: seq<Op>, p: Pid)
    requires Good(s) && Legal(s, ops) && Rostered(s) && p in s.procs && p !in s.table
    ensures p !in Run(s, ops).table
    decreases |ops|
  {
    hide Good, Rostered, Step;
    if ops != [] {
      StepRoster(s, ops[0]);
      assert ops[0] != CreateProcess(p);
      UnlistedForever(Step(s, ops[0]), ops[1..], p);
    }
  }

  /** A process that finds the table full when it is created is never listed, whatever happens afterwards. */
  lemma NeverListed(s: State, p: Pid, ops: seq<Op>)
    requires Good(s) && !s.panicked && Rostered(s) && Enabled(s, CreateProcess(p)) && |s.table| >= MAX_PROCESSES
    requires Legal(Step(s, CreateProcess(p)), ops)
    ensures p !in Run(Step(s, CreateProcess(p)), ops).table
  {
    hide Good, Rostered, Legal, Run;
    StepRoster(s, CreateProcess(p));
    NewProcessRoster(s, p);
    UnlistedForever(Step(s, CreateProcess(p)), ops, p);
  }

  /* ---- timed waits ---- */

  lemma {:induction false} ExpireAllOther(s: State, ts: seq<Tid>, u: Tid)
    requires u !in ts
    ensures Th(ExpireAll(s, ts), u) == Th(s, u) && ExpireAll(s, ts).ticks == s.ticks
    decreases |ts|
  {
    hide Expire;
    if ts != [] {
      ExpireOther(s, ts[0], u);
      ExpireLive(s, ts[0]);
      ExpireAllOther(Expire(s, ts[0]), ts[1..], u);
    }
  }

  /** The scan does not reach a thread whose process is not in the table. */
  lemma {:induction false} ExpireTableOther(s: State, ps: seq<Pid>, u: Tid)
    requires forall p :: p in ps ==> u !in Pr(s, p).members
    ensures Th(ExpireTable(s, ps), u) == Th(s, u) && ExpireTable(s, ps).ticks == s.ticks
    decreases |ps|
  {
    hide ExpireAll;
    if ps != [] {
      assert ps[0] in ps;
      var s1 := if Pr(s, ps[0]).count == 0 then s else ExpireAll(s, Pr(s, ps[0]).members);
      ExpireAllOther(s, Pr(s, ps[0]).members, u);
      ExpireAllKeeps(s, Pr(s, ps[0]).members);
      assert forall p :: p in ps[1..] ==> p in ps;
      ExpireTableOther(s1, ps[1..], u);
    }
  }

  lemma SpendKeeps(s: State, u: Tid)
    ensures Overdue(SpendQuantum(s), u) <==> Overdue(s, u)
  {
  }

  lemma {:induction false} AliveMember(s: State, l: seq<Tid>, u: Tid)
    requires u in l && Th(s, u).mode != Terminated
    ensures Alive(s, l) > 0
  {
    if l[0] != u {
      AliveMember(s, l[1..], u);
    }
  }

  /**
   A tick ends a timed wait that is past its time exactly when the waiter's process is in the table: after the timers
   have fired and the scan is done, the threads that still wait past their time are those of processes not listed.
   */
  lemma TickExpires(s: State, due: seq<Id>, u: Tid)
    requires Rostered(s)
    ensures var fired := SignalAll(s.(ticks := s.ticks + 1), due);
      Overdue(Ticked(s, due), u) <==> Overdue(fired, u) && Th(fired, u).proc !in s.table
  {
    hide SignalAll, ExpireTable, SpendQuantum, Alive, SameLive, Still, Rostered;
    var s0 := s.(ticks := s.ticks + 1);
    var s1 := SignalAll(s0, due);
    SignalAllLive(s0, due);
    LiveStill(s0, s1);
    ClockStill(s);
    StillTrans(s, s0, s1);
    StillRostered(s, s1);
    SpendKeeps(ExpireTable(s1, s1.table), u);
    var p := Th(s1, u).proc;
    if Overdue(s1, u) && p !in s1.table {
      NotMember(s1, u);
      ExpireTableOther(s1, s1.table, u);
    } else {
      if Overdue(s1, u) {
        Member(s1, u);
      }
      TableTimeoutsFire(s1, s1.table, p, u);
    }
  }

  lemma ClockStill(s: State)
    ensures Still(s, s.(ticks := s.ticks + 1))
  {
  }

  lemma NotMember(s: State, u: Tid)
    requires Rostered(s) && Th(s, u).proc !in s.table
    ensures forall p :: p in s.table ==> u !in Pr(s, p).members
  {
    forall p | p in s.table ensures u !in Pr(s, p).members {
      assert ProcOk(s, p);
    }
  }

  lemma Member(s: State, u: Tid)
    requires Rostered(s) && Active(Th(s, u))
    ensures var p := Th(s, u).proc; u in Pr(s, p).members && Pr(s, p).count > 0
  {
    hide Alive;
    var p := Th(s, u).proc;
    assert ProcOk(s, p);
    AliveMember(s, Pr(s, p).members, u);
  }

  /** That is so at every tick of every run from start-up. */
  lemma EveryTick(idle: Tid, ops: seq<Op>, due: seq<Id>, u: Tid)
    requires Legal(Boot(idle), ops)
    ensures var s := Run(Boot(idle), ops);
      var fired := SignalAll(s.(ticks := s.ticks + 1), due);
      Overdue(Ticked(s, due), u) <==> Overdue(fired, u) && Th(fired, u).proc !in s.table
  {
    hide Ticked, SignalAll, Rostered, Boot;
    BootRostered(idle);
    RunRostered(Boot(idle), ops);
    TickExpires(Run(Boot(idle), ops), due, u);
  }
}
