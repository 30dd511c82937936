/**
 Runs of the kernel: any sequence of operations by whichever thread holds the processor, and the
 properties that hold after every one.
 */
module KernelOperations {
  import opened Common
  import opened KernelState
  import opened KernelInvariant
  import opened KernelSteps
  import opened KernelRuns

  ghost predicate Good(s: State) {
    Inv(s, None, None) && (s.panicked || Settled(s))
  }

  lemma StillGood(s: State, r: State)
    requires Good(s) && !s.panicked && Inv(r, None, None) && SameLive(s, r) && r.current == s.current
    ensures Good(r)
  {
    hide Inv;
    if s.current.Some? {
      assert Kept(Th(s, s.current.value), Th(r, s.current.value));
    }
  }

  /* ---- waiting ---- */

  lemma AttemptKeeps(s: State, d: Id, t: Tid, timeout: Option<nat>)
    requires Acting(s, t)
    ensures var (r, st) := Attempt(s, d, t, timeout);
      r.current == s.current && r.idle == s.idle && r.panicked == s.panicked
      && (st.Some? ==> Acting(r, t)) && (st == None ==> Th(r, t).mode == Waiting && Th(r, t).pending == Some(d))
  {
    hide Donate, Take, Block, Acting;
    DonateKeeps(s, d, t);
    DonateRest(s, d, t);
    TakeKeeps(s, d, t);
    ActingKept(s, PutOb(s, d, Ob(s, d).(recursion := Ob(s, d).recursion + 1)), t);
    ActingKept(s, PutOb(s, d, Ob(s, d).(signal := 0)), t);
    BlockKeeps(s, d, t, timeout);
    BlockKeeps(Donate(s, d, t), d, t, timeout);
  }

  lemma TakeKeeps(s: State, m: Id, t: Tid)
    requires Acting(s, t)
    ensures Acting(Take(s, m, t), t) && SameRest(s, Take(s, m, t))
  {
    hide Without;
  }

  lemma ActingKept(s: State, r: State, t: Tid)
    requires Acting(s, t) && r.threads == s.threads && SameRest(s, r)
    ensures Acting(r, t)
  {
  }

  lemma BlockKeeps(s: State, d: Id, t: Tid, timeout: Option<nat>)
    ensures var r := Block(s, d, t, timeout); SameRest(s, r) && Th(r, t).mode == Waiting && Th(r, t).pending == Some(d)
  {
  }

  lemma DonateRest(s: State, m: Id, t: Tid)
    ensures SameRest(s, Donate(s, m, t))
  {
    hide SchedBoost;
  }

  /** `ke_wait_object`, to the point where the caller returns or some other thread runs. */
  function WaitStep(s: State, d: Id, timeout: Option<nat>): (r: State)
    requires Good(s) && !s.panicked && s.current.Some? && Acting(s, s.current.value) && d in s.objs
    ensures Good(r)
  {
    var t := s.current.value;
    AttemptInv(s, d, t, timeout);
    AttemptKeeps(s, d, t, timeout);
    var (s1, st) := Attempt(s, d, t, timeout);
    if st.Some? then s1 else Dispatch(s1)
  }

  /** The current thread comes back from the wait it was in. */
  function ReturnStep(s: State): (r: State)
    requires Good(s) && !s.panicked && s.current.Some?
    ensures Good(r)
  {
    var t := s.current.value;
    ReturnInv(s, t);
    PutTh(s, t, Th(s, t).(pending := None))
  }

  lemma ReturnInv(s: State, t: Tid)
    requires Inv(s, None, None) && Th(s, t).mode == Running
    ensures Inv(PutTh(s, t, Th(s, t).(pending := None)), None, None)
  {
    hide Inv, ThreadOk;
    HasThread(s, t, None, None);
    IdleOwnsNothing(s, None, None);
    ReturnSelf(s, t);
    ThreadEdit(s, t, Th(s, t).(pending := None), None, None, None);
  }

  lemma ReturnSelf(s: State, t: Tid)
    requires ThreadOk(s, t, None) && Th(s, t).mode == Running
    ensures ThreadOk(PutTh(s, t, Th(s, t).(pending := None)), t, None)
  {
    hide NoDup;
  }

  /* ---- releasing ---- */

  function ReleaseStep(s: State, m: Id): (r: State)
    requires Good(s) && !s.panicked && s.current.Some? && Acting(s, s.current.value) && Ob(s, m).kind == Mutant
    ensures Good(r)
  {
    ReleaseInv(s, m);
    ReleaseLive(s, m);
    StillGood(s, Release(s, m).0);
    Release(s, m).0
  }

  lemma ReleaseLive(s: State, m: Id)
    ensures SameLive(s, Release(s, m).0) && SameRest(s, Release(s, m).0)
  {
    hide WakeOne, Undonate, Without, SameLive;
    var o := Ob(s, m);
    if s.current.Some? && o.owner == s.current && o.recursion == 1 {
      var t := s.current.value;
      var s1 := Disown(PutOb(s, m, o.(owner := None, recursion := 0)), m, t);
      DisownLive(s, m, t, o.(owner := None, recursion := 0));
      WakeOneLive(s1, m, Success);
      ClockLive(s1, PutOb(s1, m, Ob(s1, m).(signal := 1)));
      var s2 := if o.waiters == [] then PutOb(s1, m, Ob(s1, m).(signal := 1)) else WakeOne(s1, m, Success);
      SameLiveTrans(s, s1, s2);
      UndonateLive(s2, t);
      SameLiveTrans(s, s2, Undonate(s2, t));
    } else {
      ClockLive(s, Release(s, m).0);
    }
  }

  lemma DisownLive(s: State, m: Id, t: Tid, o: Obj)
    ensures SameLive(s, Disown(PutOb(s, m, o), m, t))
  {
    hide Without;
  }

  lemma UndonateLive(s: State, t: Tid)
    ensures SameLive(s, Undonate(s, t)) && SameRest(s, Undonate(s, t))
  {
    hide SchedBoost;
    var th := Th(s, t);
    var s1 := PutTh(s, t, th.(boost := false));
    SchedBoostLive(s1, t, th.saved);
    SameLiveTrans(s, s1, SchedBoost(s1, t, th.saved));
  }

  /* ---- events ---- */

  function SetStep(s: State, d: Id): (r: State)
    requires Good(s) && !s.panicked && Ob(s, d).kind != Mutant
    ensures Good(r)
  {
    SignalInv(s, d, None);
    SignalLive(s, d);
    SignalRest(s, d);
    StillGood(s, Signal(s, d));
    Signal(s, d)
  }

  function ResetStep(s: State, d: Id): (r: State)
    requires Good(s) && !s.panicked && Ob(s, d).kind != Mutant
    ensures Good(r)
  {
    ObjectEdit(s, d, Ob(s, d).(signal := 0), None, None, None);
    PutOb(s, d, Ob(s, d).(signal := 0))
  }

  /* ---- ending threads ---- */

  function KillStep(s: State, t: Tid, st: Status): (r: State)
    requires Good(s) && !s.panicked && s.current.Some? && Acting(s, s.current.value)
    ensures Good(r)
  {
    if t == s.idle || Th(s, t).mode == Terminated then s
    else if s.current == Some(t) then Exit(s, st)
    else
      KillInv(s, t, st);
      KillKeeps(s, t, st);
      Kill(s, t, st)
  }

  lemma KillKeeps(s: State, t: Tid, st: Status)
    requires s.current != Some(t)
    ensures var r := Kill(s, t, st);
      r.current == s.current && r.panicked == s.panicked && (s.current.Some? ==> Th(r, s.current.value) == Th(s, s.current.value))
  {
    hide SchedReady, Without;
    var s1 := PutTh(s, t, Th(s, t).(kill := true, exit := st));
    if s.current.Some? {
      SchedReadyThread(Unlink(s1, t), t, s.current.value);
    }
  }

  function ExitStep(s: State, st: Status): (r: State)
    requires Good(s) && !s.panicked && s.current.Some? && Acting(s, s.current.value)
    ensures Good(r)
  {
    Exit(s, st)
  }

  function YieldStep(s: State): (r: State)
    requires Good(s) && !s.panicked
    ensures Good(r)
  {
    Dispatch(s)
  }

  /* ---- the clock ---- */

  lemma ExpireLive(s: State, t: Tid)
    ensures SameLive(s, Expire(s, t)) && SameRest(s, Expire(s, t))
  {
    hide SchedReady, Without;
    if Overdue(s, t) {
      var s1 := match Th(s, t).waitOn
        case None => s
        case Some(d) =>
          PutTh(PutOb(s, d, Ob(s, d).(waiters := Without(Ob(s, d).waiters, t))), t, Th(s, t).(wake := Timeout, timed := false));
      SchedReadyLive(s1, t);
      SameLiveTrans(s, s1, SchedReady(s1, t));
      SameThreads(s, SchedReady(s1, t), Expire(s, t));
    }
  }

  lemma {:induction false} ExpireAllLive(s: State, ts: seq<Tid>)
    ensures SameLive(s, ExpireAll(s, ts)) && SameRest(s, ExpireAll(s, ts))
    decreases |ts|
  {
    hide Expire;
    if ts != [] {
      ExpireLive(s, ts[0]);
      ExpireAllLive(Expire(s, ts[0]), ts[1..]);
      SameLiveTrans(s, Expire(s, ts[0]), ExpireAll(s, ts));
    }
  }

  lemma {:induction false} ExpireTableLive(s: State, ps: seq<Pid>)
    ensures SameLive(s, ExpireTable(s, ps)) && SameRest(s, ExpireTable(s, ps))
    decreases |ps|
  {
    hide ExpireAll;
    if ps != [] {
      ExpireAllLive(s, Pr(s, ps[0]).members);
      var s1 := if Pr(s, ps[0]).count == 0 then s else ExpireAll(s, Pr(s, ps[0]).members);
      ExpireTableLive(s1, ps[1..]);
      SameLiveTrans(s, s1, ExpireTable(s, ps));
    }
  }

  lemma {:induction false} SignalAllLive(s: State, ds: seq<Id>)
    ensures SameLive(s, SignalAll(s, ds)) && SameRest(s, SignalAll(s, ds))
    decreases |ds|
  {
    hide Signal;
    if ds != [] {
      SignalLive(s, ds[0]);
      SignalRest(s, ds[0]);
      SignalAllLive(Signal(s, ds[0]), ds[1..]);
      SameLiveTrans(s, Signal(s, ds[0]), SignalAll(s, ds));
    }
  }

  lemma ClockLive(s: State, r: State)
    requires r.threads == s.threads
    ensures SameLive(s, r)
  {
  }

  lemma TickedLive(s: State, due: seq<Id>)
    ensures var r := Ticked(s, due); SameLive(s, r) && r.current == s.current && r.idle == s.idle && r.panicked == s.panicked
  {
    hide SignalAll, ExpireTable, SpendQuantum, SameLive;
    var s0 := s.(ticks := s.ticks + 1);
    ClockLive(s, s0);
    SignalAllLive(s0, due);
    var s1 := SignalAll(s0, due);
    SameLiveTrans(s, s0, s1);
    ExpireTableLive(s1, s1.table);
    var s2 := ExpireTable(s1, s1.table);
    SameLiveTrans(s, s1, s2);
    SpendLive(s2);
    SameLiveTrans(s, s2, SpendQuantum(s2));
  }

  lemma SpendLive(s: State)
    ensures SameLive(s, SpendQuantum(s)) && SameRest(s, SpendQuantum(s))
  {
  }

  function TickStep(s: State, due: seq<Id>): (r: State)
    requires Good(s) && !s.panicked && forall d :: d in due ==> Ob(s, d).kind != Mutant
    ensures Good(r)
  {
    TickedInv(s, due);
    TickedLive(s, due);
    var s1 := Ticked(s, due);
    StillGood(s, s1);
    if s1.current.Some? && s1.needResched then Dispatch(s1) else s1
  }

  /* ---- creation ---- */

  function NewObjectStep(s: State, d: Id, kind: Kind, signal: nat): (r: State)
    requires Good(s) && !s.panicked && d !in s.objs && kind != Mutant
    ensures Good(r)
  {
    FreshObjectInv(s, d, Obj(kind, signal, [], None, 0, false));
    NewObject(s, d, kind, signal)
  }

  function NewMutexStep(s: State, m: Id, owned: bool): (r: State)
    requires Good(s) && !s.panicked && m.Plain? && m !in s.objs
    requires owned ==> s.current.Some? && Acting(s, s.current.value)
    ensures Good(r)
  {
    NewMutexInv(s, m, owned);
    NewMutex(s, m, owned)
  }

  function NewThreadStep(s: State, t: Tid, prio: Prio, p: Pid, suspended: bool): (r: State)
    requires Good(s) && !s.panicked && t !in s.threads && OfThread(t) !in s.objs
    ensures Good(r)
  {
    NewThreadInv(s, t, prio, p, suspended);
    NewThreadKeeps(s, t, prio, p, suspended);
    NewThread(s, t, prio, p, suspended)
  }

  lemma NewThreadKeeps(s: State, t: Tid, prio: Prio, p: Pid, suspended: bool)
    requires t !in s.threads
    ensures var r := NewThread(s, t, prio, p, suspended);
      r.current == s.current && forall u: Tid :: u != t ==> Th(r, u) == Th(s, u)
  {
    hide SchedReady;
    var th := NoThread.(priority := prio, saved := prio, base := prio, quantum := QUANTUM, proc := p);
    var s1 := PutTh(NewObject(s, OfThread(t), ThreadEnd, 0), t, th);
    var s2 := PutPr(s1, p, Pr(s1, p).(members := Pr(s1, p).members + [t], count := Pr(s1, p).count + 1));
    forall u: Tid | u != t ensures Th(NewThread(s, t, prio, p, suspended), u) == Th(s, u) {
      SchedReadyThread(s2, t, u);
    }
  }

  function ResumeStep(s: State, t: Tid): (r: State)
    requires Good(s) && !s.panicked && Th(s, t).mode == Unused
    ensures Good(r)
  {
    StartInv(s, t);
    ResumeKeeps(s, t);
    SchedReady(s, t)
  }

  lemma ResumeKeeps(s: State, t: Tid)
    ensures forall u: Tid :: u != t ==> Th(SchedReady(s, t), u) == Th(s, u)
  {
    hide SchedReady;
    forall u: Tid | u != t ensures Th(SchedReady(s, t), u) == Th(s, u) {
      SchedReadyThread(s, t, u);
    }
  }

  function NewProcessStep(s: State, p: Pid): (r: State)
    requires Good(s) && !s.panicked && OfProcess(p) !in s.objs
    ensures Good(r)
  {
    NewProcessInv(s, p);
    NewProcess(s, p)
  }

  /* ---- runs ---- */

  datatype Op =
    | Wait(d: Id, timeout: Option<nat>)
    | Return
    | ReleaseMutex(d: Id)
    | SetEvent(d: Id)
    | ResetEvent(d: Id)
    | KillThread(t: Tid, st: Status)
    | ExitThread(st: Status)
    | Yield
    | Tick(due: seq<Id>)
    | CreateObject(d: Id, kind: Kind, signal: nat)
    | CreateMutex(d: Id, owned: bool)
    | CreateThread(t: Tid, prio: Prio, p: Pid, suspended: bool)
    | Resume(t: Tid)
    | CreateProcess(p: Pid)

  /** Thread identifiers are not used again. */
  ghost predicate FreshThread(s: State, t: Tid) {
    t !in s.threads && OfThread(t) !in s.objs && forall p :: p in s.procs ==> t !in s.procs[p].members
  }

  /** Operations of a thread need one that runs, is not idle and is not inside a wait. */
  ghost predicate Enabled(s: State, op: Op) {
    var acting := s.current.Some? && Acting(s, s.current.value);
    var returned := s.current.Some? ==> Th(s, s.current.value).pending == None;
    match op
    case Wait(d, _) => acting && d in s.objs
    case Return => s.current.Some? && Th(s, s.current.value).pending.Some?
    case ReleaseMutex(m) => acting && Ob(s, m).kind == Mutant
    case SetEvent(d) => acting && Ob(s, d).kind in {Notification, Synchronization, Timer}
    case ResetEvent(d) => acting && Ob(s, d).kind in {Notification, Synchronization, Timer}
    case KillThread(t, _) => acting && t in s.threads
    case ExitThread(_) => acting
    case Yield => returned
    case Tick(due) => returned && forall d :: d in due ==> Ob(s, d).kind in {Notification, Synchronization, Timer}
    case CreateObject(d, kind, _) => returned && d.Plain? && d !in s.objs && kind in {Notification, Synchronization, Timer}
    case CreateMutex(m, owned) => returned && m.Plain? && m !in s.objs && (owned ==> acting)
    case CreateThread(t, _, p, _) => returned && p in s.procs && FreshThread(s, t)
    case Resume(t) => returned && Th(s, t).mode == Unused && t in Pr(s, Th(s, t).proc).members
    case CreateProcess(p) => returned && OfProcess(p) !in s.objs && p !in s.procs
  }

  ghost function Step(s: State, op: Op): (r: State)
    requires Good(s) && !s.panicked && Enabled(s, op)
    ensures Good(r)
  {
    match op
    case Wait(d, timeout) => WaitStep(s, d, timeout)
    case Return => ReturnStep(s)
    case ReleaseMutex(m) => ReleaseStep(s, m)
    case SetEvent(d) => SetStep(s, d)
    case ResetEvent(d) => ResetStep(s, d)
    case KillThread(t, st) => KillStep(s, t, st)
    case ExitThread(st) => ExitStep(s, st)
    case Yield => YieldStep(s)
    case Tick(due) => TickStep(s, due)
    case CreateObject(d, kind, signal) => NewObjectStep(s, d, kind, signal)
    case CreateMutex(m, owned) => NewMutexStep(s, m, owned)
    case CreateThread(t, prio, p, suspended) => NewThreadStep(s, t, prio, p, suspended)
    case Resume(t) => ResumeStep(s, t)
    case CreateProcess(p) => NewProcessStep(s, p)
  }

  ghost predicate Legal(s: State, ops: seq<Op>)
    requires Good(s)
    decreases |ops|
  {
    ops == [] || (!s.panicked && Enabled(s, ops[0]) && Legal(Step(s, ops[0]), ops[1..]))
  }

  ghost function Run(s: State, ops: seq<Op>): (r: State)
    requires Good(s) && Legal(s, ops)
    ensures Good(r)
    decreases |ops|
  {
    if ops == [] then s else Run(Step(s, ops[0]), ops[1..])
  }

  /** After start-up: the idle thread is queued, nothing runs. */
  function BootState(idle: Tid): State {
    State(map[idle := NoThread.(mode := Ready, quantum := QUANTUM)], map[OfThread(idle) := NoObj.(kind := ThreadEnd), OfProcess(0) := NoObj.(kind := ProcessEnd)],
      map[0 := Proc([idle], 1, false, Success)], [0], seq(LEVELS, p => if p == 0 then [idle] else []), seq(LEVELS, p => p == 0),
      None, idle, false, 0, false)
  }

  lemma BootGood(idle: Tid)
    ensures Good(BootState(idle))
  {
    var s := BootState(idle);
    forall t: Tid ensures ThreadOk(s, t, None) {
    }
    forall d: Id ensures ObjOk(s, d, None) {
    }
  }

  ghost function Boot(idle: Tid): (s: State)
    ensures Good(s) && !s.panicked && s.current == None && s.idle == idle
  {
    BootGood(idle);
    BootState(idle)
  }
}
