/**
 The dispatcher and scheduler as they run: one object whose fields are edited in place. Every method is
 proved to take the step that the value model describes.
 */
module Dispatcher {
  import opened Common
  import opened KernelInvariant
  import opened KernelSteps
  import opened KernelRuns
  import opened KernelOperations
  import opened KernelState
  import opened ReadyMask

  class Kernel {
    var threads: map<Tid, Thread>
    var objs: map<Id, Obj>
    var procs: map<Pid, Proc>
    var table: seq<Pid>
    var ready: Queues
    /** A bit for each priority that has a ready thread. */
    var mask: Word
    var current: Option<Tid>
    const idle: Tid
    var needResched: bool
    var ticks: nat
    var panicked: bool

    ghost function St(): State
      reads this
    {
      State(threads, objs, procs, table, ready, Bits(mask), current, idle, needResched, ticks, panicked)
    }

    function GetTh(t: Tid): (th: Thread)
      reads this
      ensures th == Th(St(), t)
    {
      if t in threads then threads[t] else NoThread
    }

    function GetOb(d: Id): (o: Obj)
      reads this
      ensures o == Ob(St(), d)
    {
      if d in objs then objs[d] else NoObj
    }

    method SetTh(t: Tid, th: Thread)
      modifies `threads
      ensures St() == PutTh(old(St()), t, th)
    {
      hide Bits;
      threads := threads[t := th];
    }

    method SetOb(d: Id, o: Obj)
      modifies `objs
      ensures St() == PutOb(old(St()), d, o)
    {
      hide Bits;
      objs := objs[d := o];
    }

    /* ---- ready queues ---- */

    method InsertReady(t: Tid)
      modifies `ready, `mask
      ensures St() == ReadyInsert(old(St()), t)
    {
      hide Bits, WithBit, WithoutBit, Pow2;
      var p := GetTh(t).priority;
      EditBit(mask, p);
      ready := ready[p := ready[p] + [t]];
      mask := WithBit(mask, p);
    }

    method PopReady() returns (n: Option<Tid>)
      modifies `ready, `mask
      ensures (St(), n) == PopHighest(old(St()))
    {
      hide Bits, Highest, HighestBit, WithBit, WithoutBit, Pow2;
      TopIsHighest(mask);
      if mask == 0 {
        return None;
      }
      var p := Highest(mask);
      EditBit(mask, p);
      HighestSet(Bits(mask), LEVELS);
      var q := ready[p];
      if q == [] {
        mask := WithoutBit(mask, p);
        return None;
      }
      ready := ready[p := q[1..]];
      if q[1..] == [] {
        mask := WithoutBit(mask, p);
      }
      assert Bits(old(mask))[p := |q| > 1] == Bits(mask);
      n := Some(q[0]);
    }

    method MakeReady(t: Tid)
      modifies `threads, `ready, `mask, `needResched
      ensures St() == SchedReady(old(St()), t)
    {
      hide Bits;
      var th := GetTh(t);
      if th.mode in {Terminated, Ready, Running} {
        return;
      }
      SetTh(t, th.(mode := Ready));
      InsertReady(t);
      if current.Some? && th.priority > GetTh(current.value).priority {
        needResched := true;
      }
    }

    /** Takes a ready thread from its queue to the end of another. */
    method MoveReady(t: Tid, p: Prio)
      modifies `threads, `ready, `mask
      ensures St() == Requeue(old(St()), t, p)
    {
      hide Bits, Without, WithBit, WithoutBit, Pow2;
      var th := GetTh(t);
      var q := Without(ready[th.priority], t);
      ready := ready[th.priority := q];
      EditBit(mask, th.priority);
      if q == [] {
        mask := WithoutBit(mask, th.priority);
      }
      SetTh(t, th.(priority := p));
      InsertReady(t);
    }

    method Boost(t: Tid, p: Prio)
      modifies `threads, `ready, `mask, `needResched
      ensures St() == SchedBoost(old(St()), t, p)
    {
      hide Bits, Requeue;
      var th := GetTh(t);
      if t == idle || th.priority == p {
        return;
      }
      if th.mode == Ready {
        MoveReady(t, p);
      } else {
        SetTh(t, th.(priority := p));
      }
      if current.Some? && t != current.value && p > GetTh(current.value).priority {
        needResched := true;
      }
      if current == Some(t) && p < th.priority {
        needResched := true;
      }
    }

    /* ---- waking ---- */

    method MutexOwn(m: Id, t: Tid)
      modifies `threads
      ensures St() == Own(old(St()), m, t)
    {
      hide Bits;
      SetTh(t, GetTh(t).(owned := Without(GetTh(t).owned, m) + [m]));
    }

    method MutexDisown(m: Id, t: Tid)
      modifies `threads
      ensures St() == Disown(old(St()), m, t)
    {
      hide Bits;
      SetTh(t, GetTh(t).(owned := Without(GetTh(t).owned, m)));
    }

    method DispWakeOne(d: Id, st: Status)
      modifies `threads, `objs, `ready, `mask, `needResched
      ensures St() == WakeOne(old(St()), d, st)
    {
      hide Bits, SchedReady, Own;
      var o := GetOb(d);
      if o.waiters == [] {
        return;
      }
      var w := o.waiters[0];
      SetOb(d, o.(waiters := o.waiters[1..]));
      SetTh(w, GetTh(w).(wake := st));
      if o.kind == Mutant {
        SetOb(d, GetOb(d).(owner := Some(w), recursion := 1, abandoned := st == Abandoned, signal := 0));
        MutexOwn(d, w);
      }
      if GetTh(w).mode == Waiting {
        MakeReady(w);
      }
    }

    method DispWakeAll(d: Id, st: Status)
      modifies `threads, `objs, `ready, `mask, `needResched
      ensures St() == WakeAll(old(St()), d, st)
    {
      hide Bits, WakeOne;
      while GetOb(d).waiters != []
        invariant WakeAll(St(), d, st) == WakeAll(old(St()), d, st)
        decreases |GetOb(d).waiters|
      {
        DispWakeOne(d, st);
      }
    }

    method DispSignal(d: Id)
      modifies `threads, `objs, `ready, `mask, `needResched
      ensures St() == Signal(old(St()), d)
    {
      hide Bits, WakeAll, WakeWhile;
      var o := GetOb(d);
      SetOb(d, o.(signal := o.signal + 1));
      if o.kind == Notification {
        DispWakeAll(d, Success);
      } else {
        DispWakeWhile(d);
      }
    }

    method DispWakeWhile(d: Id)
      modifies `threads, `objs, `ready, `mask, `needResched
      ensures St() == WakeWhile(old(St()), d)
    {
      hide Bits, WakeOne;
      while GetOb(d).signal > 0 && GetOb(d).waiters != []
        invariant WakeWhile(St(), d) == WakeWhile(old(St()), d)
        decreases |GetOb(d).waiters|
      {
        DispWakeOne(d, Success);
        if GetOb(d).kind in {Synchronization, Mutant} {
          SetOb(d, GetOb(d).(signal := GetOb(d).signal - 1));
        }
      }
    }

    /* ---- mutexes ---- */

    method MutexDonate(m: Id, waiter: Tid)
      modifies `threads, `ready, `mask, `needResched
      ensures St() == Donate(old(St()), m, waiter)
    {
      hide Bits, SchedBoost;
      if GetOb(m).owner == None {
        return;
      }
      var o := GetOb(m).owner.value;
      if o == waiter || GetTh(waiter).priority <= GetTh(o).priority {
        return;
      }
      var p := GetTh(waiter).priority;
      if !GetTh(o).boost {
        SetTh(o, GetTh(o).(saved := GetTh(o).priority));
      }
      SetTh(o, GetTh(o).(boost := true));
      assert St() == PutTh(old(St()), o, GetTh(o));
      Boost(o, p);
    }

    method ReleaseMutex(m: Id) returns (st: Status)
      modifies `threads, `objs, `ready, `mask, `needResched
      ensures (St(), st) == Release(old(St()), m)
    {
      hide Bits, WakeOne, SchedBoost;
      var o := GetOb(m);
      if current == None || o.owner != current || o.recursion == 0 {
        return MutantNotOwned;
      }
      var t := current.value;
      SetOb(m, o.(recursion := o.recursion - 1));
      if o.recursion > 1 {
        return Success;
      }
      SetOb(m, GetOb(m).(owner := None));
      assert St() == PutOb(old(St()), m, o.(owner := None, recursion := 0));
      MutexDisown(m, t);
      if GetOb(m).waiters == [] {
        SetOb(m, GetOb(m).(signal := 1));
      } else {
        DispWakeOne(m, Success);
      }
      if GetTh(t).owned == [] && GetTh(t).boost {
        var p := GetTh(t).saved;
        SetTh(t, GetTh(t).(boost := false));
        Boost(t, p);
      }
      st := Success;
    }

    /** The owned list empties: nobody hands a mutex back to the thread that is leaving. */
    method AbandonOwned(t: Tid)
      requires Inv(St(), None, None) && (GetTh(t).pending == None || GetTh(t).kill) && GetTh(t).mode != Waiting
      modifies `threads, `objs, `ready, `mask, `needResched
      ensures St() == AbandonAll(old(St()), old(GetTh(t).owned), t)
    {
      hide Bits, Inv, WakeOne, Without, Abandon, AbandonAll;
      ghost var x: Option<Tid> := None;
      while GetTh(t).owned != []
        invariant Inv(St(), x, None) && x in {None, Some(t)}
        invariant GetTh(t) == old(GetTh(t)).(owned := GetTh(t).owned)
        invariant AbandonAll(St(), GetTh(t).owned, t) == AbandonAll(old(St()), old(GetTh(t).owned), t)
        decreases |GetTh(t).owned|
      {
        var m := GetTh(t).owned[0];
        ghost var s := St();
        AbandonFirst(s, t, x);
        AbandonOne(m, t);
        x := Some(t);
      }
      AbandonNone(St(), t);
    }

    method AbandonOne(m: Id, t: Tid)
      modifies `threads, `objs, `ready, `mask, `needResched
      ensures St() == Abandon(old(St()), m, t)
    {
      hide Bits, WakeOne, Without;
      MutexDisown(m, t);
      SetOb(m, GetOb(m).(owner := None, recursion := 0, abandoned := true));
      if GetOb(m).waiters != [] {
        SetOb(m, GetOb(m).(signal := 0));
        assert St().objs == old(objs)[m := GetOb(m)];
        DispWakeOne(m, Abandoned);
      } else {
        SetOb(m, GetOb(m).(signal := 1));
        assert St().objs == old(objs)[m := GetOb(m)];
      }
    }

    /* ---- ending threads ---- */

    method UnlinkWaits(t: Tid)
      modifies `threads, `objs
      ensures St() == Unlink(old(St()), t)
    {
      hide Bits, Without;
      if GetTh(t).waitOn.Some? {
        var d := GetTh(t).waitOn.value;
        SetOb(d, GetOb(d).(waiters := Without(GetOb(d).waiters, t)));
        SetTh(t, GetTh(t).(waitOn := None));
      }
    }

    method DropProcess(p: Pid)
      modifies `table
      ensures table == RemoveFromTable(old(table), p)
    {
      hide Bits;
      var i := 0;
      while i < |table| && table[i] != p
        invariant i <= |table| && p !in table[..i]
      {
        i := i + 1;
      }
      if i < |table| {
        FirstIndex(table, p, i);
        table := table[i := table[|table| - 1]][..|table| - 1];
      }
    }

    method FinishProcess(p: Pid)
      modifies this
      ensures St() == EndProcess(old(St()), p)
    {
      hide Bits, Signal, RemoveFromTable;
      DispSignal(OfProcess(p));
      if p != 0 {
        DropProcess(p);
      }
    }

    method CountDown(p: Pid, st: Status) returns (n: nat)
      modifies `procs
      ensures n == if Pr(old(St()), p).count > 0 then Pr(old(St()), p).count - 1 else 0xFFFF_FFFF
      ensures St() == PutPr(old(St()), p, Down(Pr(old(St()), p), n, st))
    {
      hide Bits;
      var pr := if p in procs then procs[p] else NoProc;
      n := if pr.count > 0 then pr.count - 1 else 0xFFFF_FFFF;
      pr := pr.(count := n);
      if n == 0 {
        pr := pr.(exit := st, terminating := true);
      }
      procs := procs[p := pr];
    }

    method LeaveProcess(p: Pid, st: Status)
      modifies this
      ensures St() == Depart(old(St()), p, st)
    {
      hide Bits, EndProcess, Down;
      var n := CountDown(p, st);
      if n == 0 && p == 1 {
        panicked := true;
      } else if n == 0 {
        FinishProcess(p);
      }
    }

    method LeaveThread(t: Tid, st: Status)
      requires Inv(St(), None, None) && GetTh(t).mode == Running && (GetTh(t).pending == None || GetTh(t).kill)
      modifies this
      ensures St() == Leave(old(St()), t, st)
    {
      hide Bits, Inv, Unlink, AbandonAll, Signal, Depart;
      UnlinkInv(St(), t);
      UnlinkWaits(t);
      AbandonOwned(t);
      SetTh(t, GetTh(t).(exit := st, mode := Terminated));
      DispSignal(OfThread(t));
      LeaveProcess(GetTh(t).proc, st);
    }

    method ParkCurrent()
      modifies `threads, `ready, `mask
      ensures St() == Park(old(St()))
    {
      hide Bits;
      if current.Some? && GetTh(current.value).mode == Running {
        var c := current.value;
        SetTh(c, GetTh(c).(mode := Ready));
        if c != idle {
          InsertReady(c);
        }
      }
    }

    method Switch()
      modifies this
      ensures St() == PickNext(old(St()))
    {
      hide Bits, PopHighest, Park;
      needResched := false;
      var n := PopReady();
      var next := if n.Some? then n.value else idle;
      if current == Some(next) {
        return;
      }
      ParkCurrent();
      var th := GetTh(next);
      SetTh(next, th.(mode := Running, quantum := if th.priority >= REALTIME then 0xFFFF else QUANTUM));
      current := Some(next);
    }

    /** A thread that was killed while it was off the processor exits as soon as it is switched to. */
    method Reschedule()
      requires Inv(St(), None, None) && Busy(St())
      modifies this
      ensures St() == Dispatch(old(St()))
      decreases |Live(St())|, 1
    {
      hide Bits, Inv, PickNext, Leave;
      PickInv(St());
      PickLive(St());
      Switch();
      var self := current.value;
      if GetTh(self).kill {
        IdleOwnsNothing(St(), None, None);
        ExitCurrent(self, GetTh(self).exit);
      }
    }

    method ExitCurrent(t: Tid, st: Status)
      requires Inv(St(), None, None) && current == Some(t) && GetTh(t).mode == Running && t != idle
      requires GetTh(t).pending == None || GetTh(t).kill
      modifies this
      ensures St() == Exited(old(St()), t, st)
      decreases |Live(St())|, 0
    {
      hide Bits, Inv, Leave, Dispatch;
      ExitInv(St(), t, st);
      LeaveThread(t, st);
      if panicked {
        return;
      }
      current := None;
      Reschedule();
    }

    method KillThread(t: Tid, st: Status)
      requires Good(St()) && !panicked && current.Some? && Acting(St(), current.value)
      modifies this
      ensures St() == KillStep(old(St()), t, st)
    {
      hide Bits, Inv, Leave, Dispatch, Unlink, SchedReady;
      if t == idle || GetTh(t).mode == Terminated {
        return;
      }
      if Some(t) == current {
        ExitCurrent(t, st);
        return;
      }
      var waiting := GetTh(t).mode == Waiting;
      SetTh(t, GetTh(t).(kill := true, exit := st));
      if waiting {
        UnlinkWaits(t);
        MakeReady(t);
      }
    }

    /* ---- waiting ---- */

    /** No status means that the caller sleeps and another thread runs. */
    method WaitObject(d: Id, timeout: Option<nat>) returns (st: Option<Status>)
      requires Good(St()) && !panicked && current.Some? && Acting(St(), current.value) && d in objs
      modifies this
      ensures St() == WaitStep(old(St()), d, timeout) && st == Attempt(old(St()), d, old(current).value, timeout).1
    {
      hide Bits, Inv, Dispatch;
      var t := current.value;
      AttemptInv(St(), d, t, timeout);
      AttemptKeeps(St(), d, t, timeout);
      st := TryWait(d, t, timeout);
      if st == None {
        Reschedule();
      }
    }

    method TryWait(d: Id, t: Tid, timeout: Option<nat>) returns (st: Option<Status>)
      modifies `threads, `objs, `ready, `mask, `needResched
      ensures (St(), st) == Attempt(old(St()), d, t, timeout)
    {
      hide Bits, Donate, Own;
      var o := GetOb(d);
      if o.kind == Mutant {
        if o.owner == Some(t) {
          SetOb(d, o.(recursion := o.recursion + 1));
          return Some(Success);
        }
        if o.signal > 0 {
          SetOb(d, o.(signal := o.signal - 1, owner := Some(t), recursion := 1, abandoned := false));
          MutexOwn(d, t);
          return Some(if o.abandoned then Abandoned else Success);
        }
        MutexDonate(d, t);
      } else if o.signal > 0 {
        if o.kind in {Synchronization, Timer} {
          SetOb(d, o.(signal := 0));
        }
        return Some(Success);
      }
      if timeout == Some(0) {
        return Some(Timeout);
      }
      SetOb(d, GetOb(d).(waiters := GetOb(d).waiters + [t]));
      SetTh(t, GetTh(t).(waitOn := Some(d), wake := Timeout, mode := Waiting, pending := Some(d),
        timed := timeout.Some?, deadline := ticks + if timeout.Some? then timeout.value else 0));
      st := None;
    }

    /* ---- the clock ---- */

    method ExpireThread(t: Tid)
      modifies `threads, `objs, `ready, `mask, `needResched
      ensures St() == Expire(old(St()), t)
    {
      hide Bits, SchedReady, Without;
      var th := GetTh(t);
      if th.mode != Waiting || !th.timed || ticks < th.deadline {
        return;
      }
      if th.waitOn.Some? {
        var d := th.waitOn.value;
        SetOb(d, GetOb(d).(waiters := Without(GetOb(d).waiters, t)));
        SetTh(t, th.(wake := Timeout, timed := false));
      }
      MakeReady(t);
      needResched := true;
    }

    method ExpireMembers(ts: seq<Tid>)
      modifies `threads, `objs, `ready, `mask, `needResched
      ensures St() == ExpireAll(old(St()), ts)
    {
      hide Bits, Expire;
      var i := 0;
      while i < |ts|
        invariant 0 <= i <= |ts| && ExpireAll(St(), ts[i..]) == ExpireAll(old(St()), ts)
      {
        assert ts[i..][0] == ts[i] && ts[i..][1..] == ts[i + 1..];
        ExpireThread(ts[i]);
        i := i + 1;
      }
      assert ts[i..] == [];
    }

    method ExpireProcesses()
      modifies `threads, `objs, `ready, `mask, `needResched
      ensures St() == ExpireTable(old(St()), old(table))
    {
      hide Bits, ExpireAll;
      var i := 0;
      while i < |table|
        invariant 0 <= i <= |table| && ExpireTable(St(), table[i..]) == ExpireTable(old(St()), old(table))
      {
        assert table[i..][0] == table[i] && table[i..][1..] == table[i + 1..];
        var pr := if table[i] in procs then procs[table[i]] else NoProc;
        if pr.count != 0 {
          ExpireMembers(pr.members);
        }
        i := i + 1;
      }
      assert table[i..] == [];
    }

    method FireTimers(due: seq<Id>)
      modifies `threads, `objs, `ready, `mask, `needResched
      ensures St() == SignalAll(old(St()), due)
    {
      hide Bits, Signal;
      var i := 0;
      while i < |due|
        invariant 0 <= i <= |due| && SignalAll(St(), due[i..]) == SignalAll(old(St()), due)
      {
        assert due[i..][0] == due[i] && due[i..][1..] == due[i + 1..];
        DispSignal(due[i]);
        i := i + 1;
      }
      assert due[i..] == [];
    }

    method OnTick(due: seq<Id>)
      requires Good(St()) && !panicked && forall d :: d in due ==> Ob(St(), d).kind != Mutant
      modifies this
      ensures St() == TickStep(old(St()), due)
    {
      hide Bits, Inv, Dispatch, SignalAll, ExpireTable;
      TickedInv(St(), due);
      TickedLive(St(), due);
      StillGood(St(), Ticked(St(), due));
      ticks := ticks + 1;
      FireTimers(due);
      ExpireProcesses();
      if current.Some? {
        var th := GetTh(current.value);
        if th.quantum != 0 && th.priority < REALTIME {
          SetTh(current.value, th.(quantum := th.quantum - 1));
          if th.quantum == 1 {
            needResched := true;
          }
        }
        assert St() == Ticked(old(St()), due);
        if needResched {
          Reschedule();
        }
      }
    }
  }

  /** What is left after the current thread has gone and the next one runs. */
  ghost function Exited(s: State, t: Tid, st: Status): State
    requires Inv(s, None, None) && s.current == Some(t) && Th(s, t).mode == Running && t != s.idle
    requires Th(s, t).pending == None || Th(s, t).kill
  {
    ExitInv(s, t, st);
    var r := Leave(s, t, st);
    if r.panicked then r else Dispatch(r.(current := None))
  }

  lemma {:induction false} FirstIndex(l: seq<nat>, x: nat, i: nat)
    requires i < |l| && l[i] == x && x !in l[..i]
    ensures x in l && IndexOf(l, x) == i
  {
    if i > 0 {
      assert l[0] == l[..i][0];
      assert forall y :: y in l[1..][..i - 1] ==> y in l[..i];
      FirstIndex(l[1..], x, i - 1);
    }
  }

  lemma AbandonFirst(s: State, t: Tid, x: Option<Tid>)
    requires Inv(s, x, None) && x in {None, Some(t)} && Th(s, t).owned != []
    requires (Th(s, t).pending == None || Th(s, t).kill) && Th(s, t).mode != Waiting
    ensures var l := Th(s, t).owned; var r := Abandon(s, l[0], t);
      && Inv(r, Some(t), None) && Th(r, t) == Th(s, t).(owned := l[1..])
      && AbandonAll(s, l, t) == AbandonAll(r, l[1..], t)
  {
    hide Inv, Abandon;
    var l := Th(s, t).owned;
    HasThread(s, t, x, None);
    assert l[0] in l;
    AbandonInv(s, l[0], t, x);
    WithoutFirst(l);
  }

  lemma AbandonNone(s: State, t: Tid)
    ensures AbandonAll(s, [], t) == s
  {
  }
}
