/**
 Threads, dispatcher objects and ready queues as values, and the steps the dispatcher and the scheduler
 take on them.
 */
module KernelState {
  import opened Common

  const LEVELS: nat := 32
  const REALTIME: nat := 24
  const QUANTUM: nat := 3

  type Tid = nat
  type Pid = nat

  type Prio = p: nat | p < LEVELS witness 0
  type Queues = q: seq<seq<Tid>> | |q| == LEVELS witness seq(LEVELS, _ => [])
  type Mask = m: seq<bool> | |m| == LEVELS witness seq(LEVELS, _ => false)

  /** A dispatcher object: one of its own, or the one inside a thread or a process. */
  datatype Id = Plain(n: nat) | OfThread(t: Tid) | OfProcess(p: Pid)

  datatype Kind = Notification | Synchronization | Timer | Mutant | ThreadEnd | ProcessEnd

  datatype Obj = Obj(kind: Kind, signal: int, waiters: seq<Tid>, owner: Option<Tid>, recursion: nat, abandoned: bool)

  datatype Mode = Unused | Ready | Running | Waiting | Terminated

  /** `base` is the priority the thread was created with; `pending` the wait it has not returned from. */
  datatype Thread = Thread(
    mode: Mode, priority: Prio, saved: Prio, boost: bool, base: Prio, quantum: nat,
    waitOn: Option<Id>, wake: Status, timed: bool, deadline: nat, pending: Option<Id>,
    owned: seq<Id>, kill: bool, exit: Status, proc: Pid)

  datatype Proc = Proc(members: seq<Tid>, count: nat, terminating: bool, exit: Status)

  datatype State = State(
    threads: map<Tid, Thread>, objs: map<Id, Obj>, procs: map<Pid, Proc>, table: seq<Pid>,
    ready: Queues, mask: Mask, current: Option<Tid>, idle: Tid, needResched: bool, ticks: nat, panicked: bool)

  const NoThread: Thread :=
    Thread(Unused, 0, 0, false, 0, 0, None, Success, false, 0, None, [], false, Success, 0)
  const NoObj: Obj := Obj(Notification, 0, [], None, 0, false)
  const NoProc: Proc := Proc([], 0, false, Success)

  function Th(s: State, t: Tid): Thread { if t in s.threads then s.threads[t] else NoThread }
  function Ob(s: State, d: Id): Obj { if d in s.objs then s.objs[d] else NoObj }
  function Pr(s: State, p: Pid): Proc { if p in s.procs then s.procs[p] else NoProc }

  function PutTh(s: State, t: Tid, th: Thread): State { s.(threads := s.threads[t := th]) }
  function PutOb(s: State, d: Id, o: Obj): State { s.(objs := s.objs[d := o]) }
  function PutPr(s: State, p: Pid, pr: Proc): State { s.(procs := s.procs[p := pr]) }

  /** The list with one element unlinked. */
  function Without<T(==)>(l: seq<T>, x: T): seq<T> {
    if l == [] then [] else if l[0] == x then Without(l[1..], x) else [l[0]] + Without(l[1..], x)
  }

  /** Everything but threads, objects, queues and the reschedule request is as before. */
  ghost predicate SameRest(s: State, r: State) {
    && r.procs == s.procs && r.table == s.table && r.current == s.current && r.idle == s.idle
    && r.ticks == s.ticks && r.panicked == s.panicked
  }

  /* ---- ready queues ---- */

  function ReadyInsert(s: State, t: Tid): State {
    var p := Th(s, t).priority;
    s.(ready := s.ready[p := s.ready[p] + [t]], mask := s.mask[p := true])
  }

  /** The highest set bit below n, as count-leading-zeros finds it. */
  function HighestBit(m: Mask, n: nat): Option<Prio>
    requires n <= LEVELS
  {
    if n == 0 then None else if m[n - 1] then Some(n - 1) else HighestBit(m, n - 1)
  }

  function PopHighest(s: State): (State, Option<Tid>) {
    match HighestBit(s.mask, LEVELS)
    case None => (s, None)
    case Some(p) =>
      var q := s.ready[p];
      if q == [] then (s.(mask := s.mask[p := false]), None)
      else (s.(ready := s.ready[p := q[1..]], mask := s.mask[p := |q| > 1]), Some(q[0]))
  }

  function SchedReady(s: State, t: Tid): (r: State)
    ensures r.objs == s.objs && SameRest(s, r)
  {
    var th := Th(s, t);
    if th.mode in {Terminated, Ready, Running} then s
    else
      var s1 := ReadyInsert(PutTh(s, t, th.(mode := Ready)), t);
      s1.(needResched := s.needResched || (s.current.Some? && th.priority > Th(s1, s.current.value).priority))
  }

  function Requeue(s: State, t: Tid, p: Prio): State {
    var th := Th(s, t);
    var q := Without(s.ready[th.priority], t);
    var s1 := s.(ready := s.ready[th.priority := q], mask := if q == [] then s.mask[th.priority := false] else s.mask);
    ReadyInsert(PutTh(s1, t, th.(priority := p)), t)
  }

  function SchedBoost(s: State, t: Tid, p: Prio): (r: State)
    ensures r.objs == s.objs && SameRest(s, r)
  {
    var th := Th(s, t);
    if t == s.idle || th.priority == p then s
    else
      var s1 := if th.mode == Ready then Requeue(s, t, p) else PutTh(s, t, th.(priority := p));
      s1.(needResched := s.needResched
        || (s.current.Some? && t != s.current.value && p > Th(s1, s.current.value).priority)
        || (s.current == Some(t) && p < th.priority))
  }

  /** The outgoing thread, if it still runs, is queued again; idle never is. */
  function Park(s: State): State {
    if s.current.Some? && Th(s, s.current.value).mode == Running then
      var c := s.current.value;
      var s1 := PutTh(s, c, Th(s, c).(mode := Ready));
      if c == s.idle then s1 else ReadyInsert(s1, c)
    else s
  }

  function Install(s: State, t: Tid): State {
    var th := Th(s, t);
    PutTh(s, t, th.(mode := Running, quantum := if th.priority >= REALTIME then 0xFFFF else QUANTUM)).(current := Some(t))
  }

  /** Picks the next thread to run; the outgoing one is queued only after that. */
  function PickNext(s: State): State {
    var (s1, n) := PopHighest(s.(needResched := false));
    var next := if n.Some? then n.value else s.idle;
    if s.current == Some(next) then s1 else Install(Park(s1), next)
  }

  /* ---- waking ---- */

  /** The first waiter leaves the list; on a mutex it becomes the owner. */
  function WakeOne(s: State, d: Id, st: Status): (r: State)
    ensures SameRest(s, r)
    ensures Ob(s, d).waiters != [] ==> Ob(r, d).waiters == Ob(s, d).waiters[1..] && Ob(r, d).kind == Ob(s, d).kind
    ensures forall e: Id :: e != d ==> Ob(r, e) == Ob(s, e)
  {
    var o := Ob(s, d);
    if o.waiters == [] then s
    else
      var w := o.waiters[0];
      var s1 := PutOb(s, d, o.(waiters := o.waiters[1..]));
      var s2 := PutTh(s1, w, Th(s1, w).(wake := st));
      var s3 := if o.kind == Mutant then GiveTo(s2, d, w, st) else s2;
      if Th(s3, w).mode == Waiting then SchedReady(s3, w) else s3
  }

  function GiveTo(s: State, m: Id, t: Tid, st: Status): State {
    Own(PutOb(s, m, Ob(s, m).(owner := Some(t), recursion := 1, abandoned := st == Abandoned, signal := 0)), m, t)
  }

  /** The mutex moves to the end of the thread's list of owned mutexes. */
  function Own(s: State, m: Id, t: Tid): State {
    PutTh(s, t, Th(s, t).(owned := Without(Th(s, t).owned, m) + [m]))
  }

  function Disown(s: State, m: Id, t: Tid): State {
    PutTh(s, t, Th(s, t).(owned := Without(Th(s, t).owned, m)))
  }

  function WakeAll(s: State, d: Id, st: Status): State
    decreases |Ob(s, d).waiters|
  {
    if Ob(s, d).waiters == [] then s
    else
      WakeAll(WakeOne(s, d, st), d, st)
  }

  /** Wakes while the object is signalled; an auto-reset event gives up one signal for each. */
  function WakeWhile(s: State, d: Id): State
    decreases |Ob(s, d).waiters|
  {
    if Ob(s, d).signal <= 0 || Ob(s, d).waiters == [] then s
    else
      var s1 := WakeOne(s, d, Success);
      var o := Ob(s1, d);
      WakeWhile(if o.kind in {Synchronization, Mutant} then PutOb(s1, d, o.(signal := o.signal - 1)) else s1, d)
  }

  function Signal(s: State, d: Id): State {
    var s1 := PutOb(s, d, Ob(s, d).(signal := Ob(s, d).signal + 1));
    if Ob(s, d).kind == Notification then WakeAll(s1, d, Success) else WakeWhile(s1, d)
  }

  /* ---- mutexes ---- */

  function Donate(s: State, m: Id, waiter: Tid): State {
    match Ob(s, m).owner
    case None => s
    case Some(o) =>
      var th := Th(s, o);
      if o == waiter || Th(s, waiter).priority <= th.priority then s
      else SchedBoost(PutTh(s, o, th.(saved := if th.boost then th.saved else th.priority, boost := true)), o, Th(s, waiter).priority)
  }

  function Abandon(s: State, m: Id, t: Tid): State {
    var s1 := Disown(s, m, t);
    var o := Ob(s1, m).(owner := None, recursion := 0, abandoned := true);
    if o.waiters != [] then WakeOne(PutOb(s1, m, o.(signal := 0)), m, Abandoned)
    else PutOb(s1, m, o.(signal := 1))
  }

  function AbandonAll(s: State, ms: seq<Id>, t: Tid): State
    decreases |ms|
  {
    if ms == [] then s else AbandonAll(Abandon(s, ms[0], t), ms[1..], t)
  }

  function Release(s: State, m: Id): (State, Status) {
    var o := Ob(s, m);
    if s.current == None || o.owner != s.current || o.recursion == 0 then (s, MutantNotOwned)
    else if o.recursion > 1 then (PutOb(s, m, o.(recursion := o.recursion - 1)), Success)
    else
      var t := s.current.value;
      var s1 := Disown(PutOb(s, m, o.(owner := None, recursion := 0)), m, t);
      var s2 := if o.waiters == [] then PutOb(s1, m, Ob(s1, m).(signal := 1)) else WakeOne(s1, m, Success);
      (Undonate(s2, t), Success)
  }

  function Undonate(s: State, t: Tid): State {
    var th := Th(s, t);
    if th.owned == [] && th.boost then SchedBoost(PutTh(s, t, th.(boost := false)), t, th.saved) else s
  }

  /* ---- leaving a wait, ending a thread ---- */

  function Unlink(s: State, t: Tid): State {
    match Th(s, t).waitOn
    case None => s
    case Some(d) =>
      PutTh(PutOb(s, d, Ob(s, d).(waiters := Without(Ob(s, d).waiters, t))), t, Th(s, t).(waitOn := None))
  }

  function RemoveFromTable(table: seq<Pid>, p: Pid): seq<Pid> {
    if p !in table then table
    else var i := IndexOf(table, p); table[i := table[|table| - 1]][..|table| - 1]
  }

  function IndexOf(l: seq<nat>, x: nat): (i: nat)
    requires x in l
    ensures i < |l| && l[i] == x && x !in l[..i]
  {
    if l[0] == x then 0 else 1 + IndexOf(l[1..], x)
  }

  /** A process with n threads left; without any it is terminating, with the status of the last. */
  function Down(pr: Proc, n: nat, st: Status): Proc {
    pr.(count := n, terminating := pr.terminating || n == 0, exit := if n == 0 then st else pr.exit)
  }

  /** One thread fewer in the process; the last one signals it and leaves it its status. */
  function Depart(s: State, p: Pid, st: Status): State {
    var pr := Pr(s, p);
    var n := if pr.count > 0 then pr.count - 1 else 0xFFFF_FFFF;
    var s1 := PutPr(s, p, Down(pr, n, st));
    if n > 0 then s1
    else if p == 1 then s1.(panicked := true)
    else EndProcess(s1, p)
  }

  /** The process is signalled and, unless it is the system process, leaves the table. */
  function EndProcess(s: State, p: Pid): State {
    var s1 := Signal(s, OfProcess(p));
    if p == 0 then s1 else s1.(table := RemoveFromTable(s1.table, p))
  }

  /** What `sched_exit_thread` does before it gives up the processor. */
  function Leave(s: State, t: Tid, st: Status): State {
    var s1 := Unlink(s, t);
    var s2 := AbandonAll(s1, Th(s1, t).owned, t);
    var s3 := Signal(PutTh(s2, t, Th(s2, t).(exit := st, mode := Terminated)), OfThread(t));
    Depart(s3, Th(s3, t).proc, st)
  }

  /* ---- waiting ---- */

  /** Taking a free mutex. */
  function Take(s: State, m: Id, t: Tid): State {
    var o := Ob(s, m);
    Own(PutOb(s, m, o.(signal := o.signal - 1, owner := Some(t), recursion := 1, abandoned := false)), m, t)
  }

  /** The thread goes to the end of the object's wait list. A wait without a time limit has no timeout. */
  function Block(s: State, d: Id, t: Tid, timeout: Option<nat>): State {
    var s1 := PutOb(s, d, Ob(s, d).(waiters := Ob(s, d).waiters + [t]));
    PutTh(s1, t, Th(s1, t).(waitOn := Some(d), wake := Timeout, mode := Waiting, pending := Some(d),
      timed := timeout.Some?, deadline := s.ticks + if timeout.Some? then timeout.value else 0))
  }

  function Refuse(s: State, d: Id, t: Tid, timeout: Option<nat>): (State, Option<Status>) {
    if timeout == Some(0) then (s, Some(Timeout)) else (Block(s, d, t, timeout), None)
  }

  /** A wait up to the point where it returns or gives up the processor. */
  function Attempt(s: State, d: Id, t: Tid, timeout: Option<nat>): (State, Option<Status>) {
    var o := Ob(s, d);
    if o.kind == Mutant then
      if o.owner == Some(t) then (PutOb(s, d, o.(recursion := o.recursion + 1)), Some(Success))
      else if o.signal > 0 then (Take(s, d, t), Some(if o.abandoned then Abandoned else Success))
      else Refuse(Donate(s, d, t), d, t, timeout)
    else if o.signal > 0 then
      (if o.kind in {Synchronization, Timer} then PutOb(s, d, o.(signal := 0)) else s, Some(Success))
    else Refuse(s, d, t, timeout)
  }

  /* ---- kill and timeout ---- */

  function Kill(s: State, t: Tid, st: Status): State {
    var s1 := PutTh(s, t, Th(s, t).(kill := true, exit := st));
    if Th(s, t).mode == Waiting then SchedReady(Unlink(s1, t), t) else s1
  }

  predicate Overdue(s: State, t: Tid) {
    Th(s, t).mode == Waiting && Th(s, t).timed && s.ticks >= Th(s, t).deadline
  }

  function Expire(s: State, t: Tid): State {
    if !Overdue(s, t) then s
    else
      var s1 := match Th(s, t).waitOn
        case None => s
        case Some(d) =>
          PutTh(PutOb(s, d, Ob(s, d).(waiters := Without(Ob(s, d).waiters, t))), t, Th(s, t).(wake := Timeout, timed := false));
      SchedReady(s1, t).(needResched := true)
  }

  function ExpireAll(s: State, ts: seq<Tid>): State
    decreases |ts|
  {
    if ts == [] then s else ExpireAll(Expire(s, ts[0]), ts[1..])
  }

  function ExpireTable(s: State, ps: seq<Pid>): State
    decreases |ps|
  {
    if ps == [] then s
    else ExpireTable(if Pr(s, ps[0]).count == 0 then s else ExpireAll(s, Pr(s, ps[0]).members), ps[1..])
  }

  /* ---- the clock ---- */

  function SignalAll(s: State, ds: seq<Id>): State
    decreases |ds|
  {
    if ds == [] then s else SignalAll(Signal(s, ds[0]), ds[1..])
  }

  function SpendQuantum(s: State): State {
    if s.current == None then s
    else
      var t, th := s.current.value, Th(s, s.current.value);
      if th.quantum == 0 || th.priority >= REALTIME then s
      else PutTh(s, t, th.(quantum := th.quantum - 1)).(needResched := s.needResched || th.quantum == 1)
  }

  /** One tick, up to the reschedule it may ask for; `due` are the timers that fire. */
  function Ticked(s: State, due: seq<Id>): State {
    var s1 := SignalAll(s.(ticks := s.ticks + 1), due);
    SpendQuantum(ExpireTable(s1, s1.table))
  }

  /* ---- creation ---- */

  const MAX_PROCESSES: nat := 64

  function NewObject(s: State, d: Id, kind: Kind, signal: nat): State {
    PutOb(s, d, Obj(kind, signal, [], None, 0, false))
  }

  function NewMutex(s: State, m: Id, owned: bool): State {
    if owned && s.current.Some? then
      Own(PutOb(s, m, Obj(Mutant, 0, [], s.current, 1, false)), m, s.current.value)
    else PutOb(s, m, Obj(Mutant, if owned then 0 else 1, [], None, if owned then 1 else 0, false))
  }

  function NewThread(s: State, t: Tid, prio: Prio, p: Pid, suspended: bool): State {
    var th := NoThread.(priority := prio, saved := prio, base := prio, quantum := QUANTUM, proc := p);
    var s1 := PutTh(NewObject(s, OfThread(t), ThreadEnd, 0), t, th);
    var s2 := PutPr(s1, p, Pr(s1, p).(members := Pr(s1, p).members + [t], count := Pr(s1, p).count + 1));
    if suspended then s2 else SchedReady(s2, t)
  }

  function NewProcess(s: State, p: Pid): State {
    var s1 := PutPr(NewObject(s, OfProcess(p), ProcessEnd, 0), p, NoProc);
    if |s.table| < MAX_PROCESSES then s1.(table := s.table + [p]) else s1
  }
}
