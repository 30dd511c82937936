/**
 The account of an auto-reset event over whole runs: every set ends as exactly one wait that succeeds, one wait that will
 succeed once its thread runs, a signal that is still there, or a signal that was cleared.
 */
module KernelEvents {
  import opened Common
  import opened KernelState
  import opened KernelInvariant
  import opened KernelSteps
  import opened KernelRuns
  import opened KernelOperations
  import opened KernelSafety

  /* ---- the account ---- */

  /** The thread's wait on d was granted and has not returned. */
  predicate Earned(th: Thread, d: Id) { th.pending == Some(d) && th.wake == Success }

  function Earners(s: State, d: Id): set<Tid> {
    set t | t in s.threads && Earned(Th(s, t), d)
  }

  /** What the event still has to give: signals that are there and grants that have not returned. */
  function Due(s: State, d: Id): int { Ob(s, d).signal + |Earners(s, d)| }

  /** A wait on d that succeeds in this operation, at once or by coming back. */
  function Successes(s: State, op: Op, d: Id): nat {
    match op
    case Wait(e, timeout) =>
      if e == d && s.current.Some? && Attempt(s, d, s.current.value, timeout).1 == Some(Success) then 1 else 0
    case Return => if s.current.Some? && Earned(Th(s, s.current.value), d) then 1 else 0
    case _ => 0
  }

  function Occurrences(ds: seq<Id>, d: Id): nat {
    if ds == [] then 0 else (if ds[0] == d then 1 else 0) + Occurrences(ds[1..], d)
  }

  function Sets(op: Op, d: Id): nat {
    match op
    case SetEvent(e) => if e == d then 1 else 0
    case Tick(due) => Occurrences(due, d)
    case _ => 0
  }

  /** Signals that are cleared without a wait for each. */
  function Cleared(s: State, op: Op, d: Id): int {
    match op
    case Wait(e, _) => if e == d && Ob(s, d).signal > 0 then Ob(s, d).signal - 1 else 0
    case ResetEvent(e) => if e == d then Ob(s, d).signal else 0
    case _ => 0
  }

  /* ---- steps that leave the event alone ---- */

  ghost predicate SameClaim(a: Thread, b: Thread, d: Id) {
    && b.pending == a.pending && (Earned(b, d) <==> Earned(a, d))
    && (b.mode == Waiting ==> a.mode == Waiting && b.wake == a.wake)
  }

  /** Who is on a list waits for that object; who waits has not been granted anything. */
  ghost predicate Listed(s: State) {
    && (forall e: Id, w: Tid :: w in Ob(s, e).waiters ==> Th(s, w).pending == Some(e))
    && (forall t: Tid :: Th(s, t).mode == Waiting ==> Th(s, t).wake != Success)
  }

  ghost predicate Quiet(s: State, r: State, d: Id) {
    && (forall e: Id, w: Tid :: w in Ob(r, e).waiters ==> w in Ob(s, e).waiters)
    && (forall t: Tid :: SameClaim(Th(s, t), Th(r, t), d))
    && Ob(r, d).signal == Ob(s, d).signal && Ob(r, d).kind == Ob(s, d).kind
  }

  lemma QuietListed(s: State, r: State, d: Id)
    requires Listed(s) && Quiet(s, r, d)
    ensures Listed(r)
  {
    forall e: Id, w: Tid | w in Ob(r, e).waiters ensures Th(r, w).pending == Some(e) {
      assert SameClaim(Th(s, w), Th(r, w), d) && w in Ob(s, e).waiters;
    }
    forall t: Tid | Th(r, t).mode == Waiting ensures Th(r, t).wake != Success {
      assert SameClaim(Th(s, t), Th(r, t), d);
    }
  }

  lemma QuietTrans(s: State, m: State, r: State, d: Id)
    requires Quiet(s, m, d) && Quiet(m, r, d)
    ensures Quiet(s, r, d)
  {
    forall e: Id, w: Tid | w in Ob(r, e).waiters ensures w in Ob(s, e).waiters {
      assert w in Ob(m, e).waiters;
    }
    forall t: Tid ensures SameClaim(Th(s, t), Th(r, t), d) {
      assert SameClaim(Th(s, t), Th(m, t), d) && SameClaim(Th(m, t), Th(r, t), d);
    }
  }

  lemma QuietDue(s: State, r: State, d: Id)
    requires Quiet(s, r, d)
    ensures Due(r, d) == Due(s, d)
  {
    forall t: Tid ensures t in Earners(r, d) <==> t in Earners(s, d) {
      assert SameClaim(Th(s, t), Th(r, t), d);
      EarnerIs(s, t, d);
      EarnerIs(r, t, d);
    }
    assert Earners(r, d) == Earners(s, d);
  }

  lemma EarnerIs(s: State, t: Tid, d: Id)
    ensures t in Earners(s, d) <==> Earned(Th(s, t), d)
  {
  }

  lemma InvListed(s: State, x: Option<Tid>, y: Option<Id>)
    requires Inv(s, x, y)
    ensures Listed(s)
  {
    hide Inv, NoDup, OwnsOk, Donated;
    forall e: Id, w: Tid | w in Ob(s, e).waiters ensures Th(s, w).pending == Some(e) {
      HasObject(s, e, x, y);
      HasThread(s, w, x, y);
    }
    forall t: Tid | Th(s, t).mode == Waiting ensures Th(s, t).wake != Success {
      HasThread(s, t, x, y);
    }
  }

  /** A thread edited in what the account does not look at. */
  lemma ThreadQuiet(s: State, t: Tid, th: Thread, d: Id)
    requires SameClaim(Th(s, t), th, d)
    ensures Quiet(s, PutTh(s, t, th), d)
  {
  }

  lemma ObjectQuiet(s: State, e: Id, o: Obj, d: Id)
    requires (forall w :: w in o.waiters ==> w in Ob(s, e).waiters) && (e == d ==> o.signal == Ob(s, e).signal && o.kind == Ob(s, e).kind)
    ensures Quiet(s, PutOb(s, e, o), d)
  {
  }

  /** The rest of the state does not matter. */
  lemma RestQuiet(s: State, r: State, d: Id)
    requires r.threads == s.threads && r.objs == s.objs
    ensures Quiet(s, r, d)
  {
  }

  lemma ReadyQuiet(s: State, t: Tid, d: Id)
    ensures Quiet(s, SchedReady(s, t), d)
  {
    hide SchedReady;
    forall u: Tid ensures SameClaim(Th(s, u), Th(SchedReady(s, t), u), d) {
      if u != t {
        SchedReadyThread(s, t, u);
      } else {
        ReadyOwn(s, t);
      }
    }
  }

  lemma ReadyOwn(s: State, t: Tid)
    ensures var r := SchedReady(s, t); Th(r, t) == Th(s, t) || Th(r, t) == Th(s, t).(mode := Ready)
  {
  }

  lemma BoostQuiet(s: State, t: Tid, p: Prio, d: Id)
    ensures Quiet(s, SchedBoost(s, t, p), d)
  {
    hide SchedBoost;
    forall u: Tid ensures SameClaim(Th(s, u), Th(SchedBoost(s, t, p), u), d) {
      if u != t {
        SchedBoostThread(s, t, p, u);
      } else {
        BoostOwn(s, t, p);
      }
    }
  }

  lemma BoostOwn(s: State, t: Tid, p: Prio)
    ensures var r := SchedBoost(s, t, p); Th(r, t) == Th(s, t) || Th(r, t) == Th(s, t).(priority := p)
  {
    hide Requeue;
    RequeueSelf(s, t, p);
  }

  /* ---- waking others ---- */

  lemma WakeQuiet(s: State, e: Id, st: Status, d: Id)
    requires Listed(s) && e != d
    ensures Quiet(s, WakeOne(s, e, st), d)
  {
    hide WakeOne;
    if Ob(s, e).waiters == [] {
      WakeNobody(s, e, st);
      RestQuiet(s, s, d);
    } else {
      var w, r := Ob(s, e).waiters[0], WakeOne(s, e, st);
      assert w in Ob(s, e).waiters;
      forall t: Tid ensures SameClaim(Th(s, t), Th(r, t), d) {
        if t != w {
          WakeOneThread(s, e, st, t);
        } else {
          WokenOwn(s, e, st);
        }
      }
    }
  }

  lemma WakeNobody(s: State, e: Id, st: Status)
    requires Ob(s, e).waiters == []
    ensures WakeOne(s, e, st) == s
  {
  }

  lemma WokenOwn(s: State, e: Id, st: Status)
    requires Ob(s, e).waiters != []
    ensures var w := Ob(s, e).waiters[0];
      var th := Th(WakeOne(s, e, st), w);
      th.pending == Th(s, w).pending && th.wake == st && th.mode != Waiting
  {
    hide SchedReady, GiveTo;
    var w := Ob(s, e).waiters[0];
    var s1 := PutOb(s, e, Ob(s, e).(waiters := Ob(s, e).waiters[1..]));
    var s2 := PutTh(s1, w, Th(s1, w).(wake := st));
    var s3 := if Ob(s, e).kind == Mutant then GiveTo(s2, e, w, st) else s2;
    GivenOwn(s2, e, w, st);
    ReadyWaiter(s3, w);
  }

  lemma GivenOwn(s: State, m: Id, t: Tid, st: Status)
    ensures var th := Th(GiveTo(s, m, t, st), t); th == Th(s, t).(owned := th.owned)
  {
    hide Without;
  }

  lemma ReadyWaiter(s: State, t: Tid)
    ensures Th(s, t).mode == Waiting ==> Th(SchedReady(s, t), t) == Th(s, t).(mode := Ready)
  {
  }

  lemma {:induction false} WakeAllQuiet(s: State, e: Id, d: Id)
    requires Listed(s) && e != d
    ensures Quiet(s, WakeAll(s, e, Success), d)
    decreases |Ob(s, e).waiters|
  {
    hide WakeOne, Listed, Quiet;
    if Ob(s, e).waiters == [] {
      RestQuiet(s, s, d);
    } else {
      var s1 := WakeOne(s, e, Success);
      WakeQuiet(s, e, Success, d);
      QuietListed(s, s1, d);
      WakeAllQuiet(s1, e, d);
      QuietTrans(s, s1, WakeAll(s1, e, Success), d);
    }
  }

  lemma {:induction false} WakeWhileQuiet(s: State, e: Id, d: Id)
    requires Listed(s) && e != d
    ensures Quiet(s, WakeWhile(s, e), d)
    decreases |Ob(s, e).waiters|
  {
    hide WakeOne, Listed, Quiet;
    if Ob(s, e).signal <= 0 || Ob(s, e).waiters == [] {
      RestQuiet(s, s, d);
    } else {
      var s1 := WakeOne(s, e, Success);
      WakeQuiet(s, e, Success, d);
      var o := Ob(s1, e);
      var s2 := if o.kind in {Synchronization, Mutant} then PutOb(s1, e, o.(signal := o.signal - 1)) else s1;
      ObjectQuiet(s1, e, o.(signal := o.signal - 1), d);
      RestQuiet(s1, s1, d);
      QuietTrans(s, s1, s2, d);
      QuietListed(s, s2, d);
      WakeWhileQuiet(s2, e, d);
      QuietTrans(s, s2, WakeWhile(s2, e), d);
    }
  }

  lemma SignalQuiet(s: State, e: Id, d: Id)
    requires Listed(s) && e != d
    ensures Quiet(s, Signal(s, e), d)
  {
    hide WakeAll, WakeWhile, Listed, Quiet;
    var s1 := PutOb(s, e, Ob(s, e).(signal := Ob(s, e).signal + 1));
    ObjectQuiet(s, e, Ob(s, e).(signal := Ob(s, e).signal + 1), d);
    QuietListed(s, s1, d);
    WakeAllQuiet(s1, e, d);
    WakeWhileQuiet(s1, e, d);
    QuietTrans(s, s1, Signal(s, e), d);
  }

  /* ---- the event itself ---- */

  /** Each waiter that a set releases costs one signal. */
  lemma {:induction false} WakeWhileDue(s: State, d: Id)
    requires Inv(s, None, Some(d)) && Ob(s, d).kind == Synchronization && Ob(s, d).signal >= 0
    ensures var r := WakeWhile(s, d); Due(r, d) == Due(s, d) && Ob(r, d).kind == Synchronization && Ob(r, d).signal >= 0
    decreases |Ob(s, d).waiters|
  {
    hide Inv, WakeOne, Due;
    if Ob(s, d).signal > 0 && Ob(s, d).waiters != [] {
      var s1 := WakeOne(s, d, Success);
      WakeOneInv(s, d, None);
      WakeOneDue(s, d);
      var o := Ob(s1, d);
      var s2 := PutOb(s1, d, o.(signal := o.signal - 1));
      ObjectEdit(s1, d, o.(signal := o.signal - 1), None, Some(d), Some(d));
      SpentDue(s1, d);
      WakeWhileDue(s2, d);
    }
  }

  lemma SpentDue(s: State, d: Id)
    ensures Due(PutOb(s, d, Ob(s, d).(signal := Ob(s, d).signal - 1)), d) == Due(s, d) - 1
    ensures Due(PutOb(s, d, Ob(s, d).(signal := Ob(s, d).signal + 1)), d) == Due(s, d) + 1
    ensures Due(PutOb(s, d, Ob(s, d).(signal := 0)), d) == Due(s, d) - Ob(s, d).signal
  {
    assert Earners(PutOb(s, d, Ob(s, d).(signal := Ob(s, d).signal - 1)), d) == Earners(s, d);
    assert Earners(PutOb(s, d, Ob(s, d).(signal := Ob(s, d).signal + 1)), d) == Earners(s, d);
    assert Earners(PutOb(s, d, Ob(s, d).(signal := 0)), d) == Earners(s, d);
  }

  lemma WakeOneDue(s: State, d: Id)
    requires Inv(s, None, Some(d)) && Ob(s, d).kind == Synchronization && Ob(s, d).waiters != []
    ensures var r := WakeOne(s, d, Success);
      Due(r, d) == Due(s, d) + 1 && Ob(r, d).signal == Ob(s, d).signal && Ob(r, d).kind == Synchronization
  {
    hide Inv, WakeOne, OwnsOk, NoDup;
    var w, r := Ob(s, d).waiters[0], WakeOne(s, d, Success);
    FirstWaiter(s, d, None, Some(d));
    HasThread(s, w, None, Some(d));
    WokenOwn(s, d, Success);
    forall t: Tid ensures t in Earners(r, d) <==> t in Earners(s, d) + {w} {
      EarnerIs(s, t, d);
      EarnerIs(r, t, d);
      if t != w {
        WakeOneThread(s, d, Success, t);
      }
    }
    EarnerIs(s, w, d);
    assert Earners(r, d) == Earners(s, d) + {w};
    WakeKeepsSignal(s, d);
  }

  /** A set adds exactly one to what the event has to give. */
  lemma SetDue(s: State, d: Id)
    requires Inv(s, None, None) && Ob(s, d).kind == Synchronization && Ob(s, d).signal >= 0
    ensures var r := Signal(s, d); Due(r, d) == Due(s, d) + 1 && Ob(r, d).kind == Synchronization && Ob(r, d).signal >= 0
  {
    hide Inv, WakeWhile, Due;
    var o := Ob(s, d).(signal := Ob(s, d).signal + 1);
    ObjectEdit(s, d, o, None, None, Some(d));
    SpentDue(s, d);
    WakeWhileDue(PutOb(s, d, o), d);
  }

  /* ---- compound steps ---- */

  lemma DonateQuiet(s: State, m: Id, t: Tid, d: Id)
    ensures Quiet(s, Donate(s, m, t), d)
  {
    hide SchedBoost, Quiet;
    RestQuiet(s, s, d);
    if Ob(s, m).owner.Some? {
      var o := Ob(s, m).owner.value;
      var th := Th(s, o).(saved := if Th(s, o).boost then Th(s, o).saved else Th(s, o).priority, boost := true);
      ThreadQuiet(s, o, th, d);
      BoostQuiet(PutTh(s, o, th), o, Th(s, t).priority, d);
      QuietTrans(s, PutTh(s, o, th), SchedBoost(PutTh(s, o, th), o, Th(s, t).priority), d);
    }
  }

  lemma DisownQuiet(s: State, m: Id, t: Tid, d: Id)
    ensures Quiet(s, Disown(s, m, t), d) && Quiet(s, Own(s, m, t), d) && Disown(s, m, t).objs == s.objs
  {
    hide Quiet, Without;
    ThreadQuiet(s, t, Th(s, t).(owned := Without(Th(s, t).owned, m)), d);
    ThreadQuiet(s, t, Th(s, t).(owned := Without(Th(s, t).owned, m) + [m]), d);
  }

  lemma AbandonQuiet(s: State, m: Id, t: Tid, d: Id)
    requires Listed(s) && m != d
    ensures Quiet(s, Abandon(s, m, t), d)
  {
    hide Quiet, Listed, WakeOne, Disown;
    var s1 := Disown(s, m, t);
    DisownQuiet(s, m, t, d);
    var o := Ob(s1, m).(owner := None, recursion := 0, abandoned := true);
    var s2 := PutOb(s1, m, o.(signal := 0));
    ObjectQuiet(s1, m, o.(signal := 0), d);
    ObjectQuiet(s1, m, o.(signal := 1), d);
    QuietTrans(s, s1, s2, d);
    QuietTrans(s, s1, PutOb(s1, m, o.(signal := 1)), d);
    QuietListed(s, s2, d);
    WakeQuiet(s2, m, Abandoned, d);
    QuietTrans(s, s2, WakeOne(s2, m, Abandoned), d);
  }

  lemma {:induction false} AbandonAllQuiet(s: State, ms: seq<Id>, t: Tid, d: Id)
    requires Listed(s) && d !in ms
    ensures Quiet(s, AbandonAll(s, ms, t), d)
    decreases |ms|
  {
    hide Quiet, Listed, Abandon;
    if ms == [] {
      RestQuiet(s, s, d);
    } else {
      var s1 := Abandon(s, ms[0], t);
      AbandonQuiet(s, ms[0], t, d);
      QuietListed(s, s1, d);
      AbandonAllQuiet(s1, ms[1..], t, d);
      QuietTrans(s, s1, AbandonAll(s1, ms[1..], t), d);
    }
  }

  lemma UndonateQuiet(s: State, t: Tid, d: Id)
    ensures Quiet(s, Undonate(s, t), d)
  {
    hide Quiet, SchedBoost;
    RestQuiet(s, s, d);
    var th := Th(s, t);
    ThreadQuiet(s, t, th.(boost := false), d);
    BoostQuiet(PutTh(s, t, th.(boost := false)), t, th.saved, d);
    QuietTrans(s, PutTh(s, t, th.(boost := false)), SchedBoost(PutTh(s, t, th.(boost := false)), t, th.saved), d);
  }

  lemma ReleaseQuiet(s: State, m: Id, d: Id)
    requires Listed(s) && m != d
    ensures Quiet(s, Release(s, m).0, d)
  {
    hide Quiet, Listed, WakeOne, Undonate, Disown;
    var o := Ob(s, m);
    RestQuiet(s, s, d);
    ObjectQuiet(s, m, o.(recursion := if o.recursion > 1 then o.recursion - 1 else 0), d);
    if s.current.Some? && o.owner == s.current && o.recursion == 1 {
      var t := s.current.value;
      var s0 := PutOb(s, m, o.(owner := None, recursion := 0));
      ObjectQuiet(s, m, o.(owner := None, recursion := 0), d);
      var s1 := Disown(s0, m, t);
      DisownQuiet(s0, m, t, d);
      QuietTrans(s, s0, s1, d);
      QuietListed(s, s1, d);
      ObjectQuiet(s1, m, Ob(s1, m).(signal := 1), d);
      WakeQuiet(s1, m, Success, d);
      var s2 := if o.waiters == [] then PutOb(s1, m, Ob(s1, m).(signal := 1)) else WakeOne(s1, m, Success);
      QuietTrans(s, s1, s2, d);
      UndonateQuiet(s2, t, d);
      QuietTrans(s, s2, Undonate(s2, t), d);
    }
  }

  lemma UnlinkQuiet(s: State, t: Tid, d: Id)
    ensures Quiet(s, Unlink(s, t), d)
  {
    hide Without;
    forall e: Id, w: Tid | w in Ob(Unlink(s, t), e).waiters ensures w in Ob(s, e).waiters {
      WithoutMember(Ob(s, e).waiters, t, w);
    }
  }

  lemma DepartQuiet(s: State, p: Pid, st: Status, d: Id)
    requires Listed(s) && d.Plain?
    ensures Quiet(s, Depart(s, p, st), d)
  {
    hide Quiet, Listed, Signal, RemoveFromTable;
    var pr := Pr(s, p);
    var n := if pr.count > 0 then pr.count - 1 else 0xFFFF_FFFF;
    var s1 := PutPr(s, p, Down(pr, n, st));
    RestQuiet(s, s1, d);
    QuietListed(s, s1, d);
    SignalQuiet(s1, OfProcess(p), d);
    var s2 := Signal(s1, OfProcess(p));
    QuietTrans(s, s1, s2, d);
    RestQuiet(s2, s2.(table := RemoveFromTable(s2.table, p)), d);
    QuietTrans(s, s2, s2.(table := RemoveFromTable(s2.table, p)), d);
    RestQuiet(s, s1.(panicked := true), d);
  }

  lemma LeaveQuiet(s: State, t: Tid, st: Status, d: Id)
    requires Listed(s) && d.Plain? && d !in Th(s, t).owned
    ensures Quiet(s, Leave(s, t, st), d)
  {
    hide Quiet, Listed, Signal, Depart, AbandonAll, Unlink;
    var s1 := Unlink(s, t);
    UnlinkQuiet(s, t, d);
    QuietListed(s, s1, d);
    UnlinkOwned(s, t);
    var s2 := AbandonAll(s1, Th(s1, t).owned, t);
    AbandonAllQuiet(s1, Th(s1, t).owned, t, d);
    QuietTrans(s, s1, s2, d);
    var th := Th(s2, t).(exit := st, mode := Terminated);
    var s3 := PutTh(s2, t, th);
    ThreadQuiet(s2, t, th, d);
    QuietTrans(s, s2, s3, d);
    QuietListed(s, s3, d);
    var s4 := Signal(s3, OfThread(t));
    SignalQuiet(s3, OfThread(t), d);
    QuietTrans(s, s3, s4, d);
    QuietListed(s, s4, d);
    DepartQuiet(s4, Th(s4, t).proc, st, d);
    QuietTrans(s, s4, Depart(s4, Th(s4, t).proc, st), d);
  }

  lemma UnlinkOwned(s: State, t: Tid)
    ensures Th(Unlink(s, t), t).owned == Th(s, t).owned
  {
    hide Without;
  }

  lemma PickQuiet(s: State, d: Id)
    requires Inv(s, None, None)
    ensures Quiet(s, PickNext(s), d)
  {
    hide Inv, Quiet, Park, Install, PopHighest;
    var s0 := s.(needResched := false);
    PopRestQuiet(s0);
    var (s1, n) := PopHighest(s0);
    RestQuiet(s, s1, d);
    var next := if n.Some? then n.value else s.idle;
    ParkQuiet(s1, d);
    QuietTrans(s, s1, Park(s1), d);
    InstallQuiet(Park(s1), next, d);
    QuietTrans(s, Park(s1), Install(Park(s1), next), d);
  }

  lemma PopRestQuiet(s: State)
    ensures var r := PopHighest(s).0; r.threads == s.threads && r.objs == s.objs
  {
  }

  lemma ParkQuiet(s: State, d: Id)
    ensures Quiet(s, Park(s), d)
  {
    hide Quiet;
    RestQuiet(s, s, d);
    if s.current.Some? {
      var c := s.current.value;
      var s1 := PutTh(s, c, Th(s, c).(mode := Ready));
      ThreadQuiet(s, c, Th(s, c).(mode := Ready), d);
      RestQuiet(s1, ReadyInsert(s1, c), d);
      QuietTrans(s, s1, ReadyInsert(s1, c), d);
    }
  }

  lemma InstallQuiet(s: State, t: Tid, d: Id)
    ensures Quiet(s, Install(s, t), d)
  {
    hide Quiet;
    var th := Th(s, t);
    var run := th.(mode := Running, quantum := if th.priority >= REALTIME then 0xFFFF else QUANTUM);
    ThreadQuiet(s, t, run, d);
    RestQuiet(PutTh(s, t, run), Install(s, t), d);
    QuietTrans(s, PutTh(s, t, run), Install(s, t), d);
  }

  lemma NotOwnedEvent(s: State, t: Tid, d: Id)
    requires Inv(s, None, None) && Ob(s, d).kind != Mutant
    ensures d !in Th(s, t).owned
  {
    hide Inv, NoDup, WaitOk;
    HasThread(s, t, None, None);
  }

  lemma {:induction false} DispatchQuiet(s: State, d: Id)
    requires Inv(s, None, None) && Busy(s) && d.Plain? && Ob(s, d).kind != Mutant
    ensures Quiet(s, Dispatch(s), d)
    decreases |Live(s)|
  {
    hide Inv, Quiet, Leave, PickNext, Listed;
    PickInv(s);
    PickLive(s);
    PickQuiet(s, d);
    var s1 := PickNext(s);
    var c := s1.current.value;
    QuietKind(s, s1, d);
    if Th(s1, c).kill {
      IdleOwnsNothing(s1, None, None);
      var st := Th(s1, c).exit;
      ExitInv(s1, c, st);
      InvListed(s1, None, None);
      NotOwnedEvent(s1, c, d);
      LeaveQuiet(s1, c, st, d);
      var s2 := Leave(s1, c, st);
      QuietTrans(s, s1, s2, d);
      if !s2.panicked {
        var s3 := s2.(current := None);
        RestQuiet(s2, s3, d);
        QuietTrans(s, s2, s3, d);
        QuietKind(s, s3, d);
        DispatchQuiet(s3, d);
        QuietTrans(s, s3, Dispatch(s3), d);
      }
    }
  }

  lemma QuietKind(s: State, r: State, d: Id)
    requires Quiet(s, r, d)
    ensures Ob(r, d).kind == Ob(s, d).kind && Ob(r, d).signal == Ob(s, d).signal
  {
  }

  lemma ExitQuiet(s: State, st: Status, d: Id)
    requires Inv(s, None, None) && s.current.Some? && Acting(s, s.current.value) && d.Plain? && Ob(s, d).kind != Mutant
    ensures Quiet(s, Exit(s, st), d)
  {
    hide Inv, Quiet, Leave, Dispatch, Listed;
    var t := s.current.value;
    ExitInv(s, t, st);
    InvListed(s, None, None);
    NotOwnedEvent(s, t, d);
    LeaveQuiet(s, t, st, d);
    var s1 := Leave(s, t, st);
    if !s1.panicked {
      var s2 := s1.(current := None);
      RestQuiet(s1, s2, d);
      QuietTrans(s, s1, s2, d);
      QuietKind(s, s2, d);
      DispatchQuiet(s2, d);
      QuietTrans(s, s2, Dispatch(s2), d);
    }
  }

  lemma KillQuiet(s: State, t: Tid, st: Status, d: Id)
    ensures Quiet(s, Kill(s, t, st), d)
  {
    hide Quiet, Unlink, SchedReady;
    var th := Th(s, t).(kill := true, exit := st);
    var s1 := PutTh(s, t, th);
    ThreadQuiet(s, t, th, d);
    UnlinkQuiet(s1, t, d);
    QuietTrans(s, s1, Unlink(s1, t), d);
    ReadyQuiet(Unlink(s1, t), t, d);
    QuietTrans(s, Unlink(s1, t), SchedReady(Unlink(s1, t), t), d);
  }

  lemma ExpireQuiet(s: State, t: Tid, d: Id)
    requires Listed(s)
    ensures Quiet(s, Expire(s, t), d)
  {
    hide Expire;
    ExpiredOwn(s, t);
    forall u: Tid ensures SameClaim(Th(s, u), Th(Expire(s, t), u), d) {
      if u != t {
        ExpireOther(s, t, u);
      }
    }
    forall e: Id, w: Tid | w in Ob(Expire(s, t), e).waiters ensures w in Ob(s, e).waiters {
      ExpiredObject(s, t, e, w);
    }
    ExpiredObject(s, t, d, t);
  }

  lemma ExpiredOwn(s: State, t: Tid)
    ensures var th := Th(Expire(s, t), t);
      if Overdue(s, t) then th.pending == Th(s, t).pending && th.mode == Ready && th.wake in {Timeout, Th(s, t).wake}
      else th == Th(s, t)
  {
    hide SchedReady, Without;
    if Overdue(s, t) {
      var s1 := match Th(s, t).waitOn
        case None => s
        case Some(e) => PutTh(PutOb(s, e, Ob(s, e).(waiters := Without(Ob(s, e).waiters, t))), t, Th(s, t).(wake := Timeout, timed := false));
      ReadyWaiter(s1, t);
    }
  }

  lemma ExpiredObject(s: State, t: Tid, e: Id, w: Tid)
    ensures var o := Ob(Expire(s, t), e);
      (w in o.waiters ==> w in Ob(s, e).waiters) && o.signal == Ob(s, e).signal && o.kind == Ob(s, e).kind
  {
    hide SchedReady, Without;
    WithoutMember(Ob(s, e).waiters, t, w);
  }

  lemma {:induction false} ExpireAllQuiet(s: State, ts: seq<Tid>, d: Id)
    requires Listed(s)
    ensures Quiet(s, ExpireAll(s, ts), d)
    decreases |ts|
  {
    hide Quiet, Listed, Expire;
    RestQuiet(s, s, d);
    if ts != [] {
      var s1 := Expire(s, ts[0]);
      ExpireQuiet(s, ts[0], d);
      QuietListed(s, s1, d);
      ExpireAllQuiet(s1, ts[1..], d);
      QuietTrans(s, s1, ExpireAll(s1, ts[1..]), d);
    }
  }

  lemma {:induction false} ExpireTableQuiet(s: State, ps: seq<Pid>, d: Id)
    requires Listed(s)
    ensures Quiet(s, ExpireTable(s, ps), d)
    decreases |ps|
  {
    hide Quiet, Listed, ExpireAll;
    RestQuiet(s, s, d);
    if ps != [] {
      var s1 := if Pr(s, ps[0]).count == 0 then s else ExpireAll(s, Pr(s, ps[0]).members);
      ExpireAllQuiet(s, Pr(s, ps[0]).members, d);
      QuietListed(s, s1, d);
      ExpireTableQuiet(s1, ps[1..], d);
      QuietTrans(s, s1, ExpireTable(s1, ps[1..]), d);
    }
  }

  lemma SpendQuiet(s: State, d: Id)
    ensures Quiet(s, SpendQuantum(s), d)
  {
    hide Quiet;
    RestQuiet(s, s, d);
    if s.current.Some? && Th(s, s.current.value).quantum > 0 {
      var t, th := s.current.value, Th(s, s.current.value);
      var s1 := PutTh(s, t, th.(quantum := th.quantum - 1));
      ThreadQuiet(s, t, th.(quantum := th.quantum - 1), d);
      if SpendQuantum(s) != s {
        RestQuiet(s1, SpendQuantum(s), d);
        QuietTrans(s, s1, SpendQuantum(s), d);
      }
    }
  }

  lemma TakeQuiet(s: State, m: Id, t: Tid, d: Id)
    requires m != d
    ensures Quiet(s, Take(s, m, t), d)
  {
    hide Quiet, Own;
    var o := Ob(s, m);
    var p := o.(signal := o.signal - 1, owner := Some(t), recursion := 1, abandoned := false);
    ObjectQuiet(s, m, p, d);
    DisownQuiet(PutOb(s, m, p), m, t, d);
    QuietTrans(s, PutOb(s, m, p), Own(PutOb(s, m, p), m, t), d);
  }

  /* ---- every operation keeps the account ---- */

  /** The event is there, and the books balance between two states. */
  ghost predicate Balanced(s: State, op: Op, r: State, d: Id) {
    && Ob(r, d).kind == Synchronization && Ob(r, d).signal >= 0
    && Due(r, d) + Successes(s, op, d) + Cleared(s, op, d) == Due(s, d) + Sets(op, d)
  }

  ghost predicate IsEvent(s: State, d: Id) {
    d.Plain? && Ob(s, d).kind == Synchronization && Ob(s, d).signal >= 0
  }

  lemma QuietBalanced(s: State, op: Op, r: State, d: Id)
    requires IsEvent(s, d) && Quiet(s, r, d) && Successes(s, op, d) == 0 && Cleared(s, op, d) == 0 && Sets(op, d) == 0
    ensures Balanced(s, op, r, d)
  {
    hide Due, Quiet;
    QuietDue(s, r, d);
    QuietKind(s, r, d);
  }

  /** A wait that blocks makes no claim yet. */
  lemma BlockDue(s: State, e: Id, t: Tid, timeout: Option<nat>, d: Id)
    requires Th(s, t).pending == None
    ensures var r := Block(s, e, t, timeout);
      Due(r, d) == Due(s, d) && Ob(r, d).kind == Ob(s, d).kind && Ob(r, d).signal == Ob(s, d).signal
  {
    var r := Block(s, e, t, timeout);
    forall u: Tid ensures u in Earners(r, d) <==> u in Earners(s, d) {
      EarnerIs(s, u, d);
      EarnerIs(r, u, d);
    }
    assert Earners(r, d) == Earners(s, d);
  }

  /** What a wait does to the account before any dispatch. */
  lemma AttemptDue(s: State, e: Id, t: Tid, timeout: Option<nat>, d: Id)
    requires Inv(s, None, None) && Acting(s, t) && IsEvent(s, d)
    ensures var r := Attempt(s, e, t, timeout).0; Balanced(s, Wait(e, timeout), r, d)
  {
    hide Inv, Quiet, Donate, Take, Block, Due;
    RestQuiet(s, s, d);
    QuietDue(s, s, d);
    if e == d {
      SpentDue(s, d);
      BlockDue(s, d, t, timeout, d);
    } else if Ob(s, e).kind == Mutant {
      ObjectQuiet(s, e, Ob(s, e).(recursion := Ob(s, e).recursion + 1), d);
      QuietDue(s, PutOb(s, e, Ob(s, e).(recursion := Ob(s, e).recursion + 1)), d);
      TakeQuiet(s, e, t, d);
      QuietDue(s, Take(s, e, t), d);
      QuietKind(s, Take(s, e, t), d);
      DonateQuiet(s, e, t, d);
      QuietDue(s, Donate(s, e, t), d);
      QuietKind(s, Donate(s, e, t), d);
      DonateKeeps(s, e, t);
      BlockDue(Donate(s, e, t), e, t, timeout, d);
    } else {
      ObjectQuiet(s, e, Ob(s, e).(signal := 0), d);
      QuietDue(s, PutOb(s, e, Ob(s, e).(signal := 0)), d);
      BlockDue(s, e, t, timeout, d);
    }
  }

  /** A step that balances, and perhaps a dispatch after it. */
  lemma ThenDispatch(s: State, op: Op, m: State, r: State, d: Id)
    requires d.Plain? && Balanced(s, op, m, d) && (r == m || (Inv(m, None, None) && Busy(m) && r == Dispatch(m)))
    ensures Balanced(s, op, r, d)
  {
    hide Inv, Dispatch, Due, Quiet;
    if r != m {
      DispatchQuiet(m, d);
      QuietDue(m, r, d);
      QuietKind(m, r, d);
    }
  }

  lemma WaitBalanced(s: State, e: Id, timeout: Option<nat>, d: Id)
    requires Good(s) && !s.panicked && s.current.Some? && Acting(s, s.current.value) && e in s.objs && IsEvent(s, d)
    ensures Balanced(s, Wait(e, timeout), WaitStep(s, e, timeout), d)
  {
    hide Inv, Dispatch, Attempt, Balanced;
    var t := s.current.value;
    AttemptInv(s, e, t, timeout);
    AttemptKeeps(s, e, t, timeout);
    AttemptDue(s, e, t, timeout, d);
    ThenDispatch(s, Wait(e, timeout), Attempt(s, e, t, timeout).0, WaitStep(s, e, timeout), d);
  }

  /** A wait that comes back with success uses up its grant. */
  lemma ReturnBalanced(s: State, d: Id)
    requires Good(s) && !s.panicked && s.current.Some? && IsEvent(s, d)
    ensures Balanced(s, Return, ReturnStep(s), d)
  {
    hide Inv;
    var t, r := s.current.value, ReturnStep(s);
    forall u: Tid ensures u in Earners(r, d) <==> u in Earners(s, d) - {t} {
      EarnerIs(s, u, d);
      EarnerIs(r, u, d);
    }
    assert Earners(r, d) == Earners(s, d) - {t};
    EarnerIs(s, t, d);
  }

  lemma SetBalanced(s: State, e: Id, d: Id)
    requires Good(s) && !s.panicked && Ob(s, e).kind != Mutant && IsEvent(s, d)
    ensures Balanced(s, SetEvent(e), SetStep(s, e), d)
  {
    hide Inv, Signal, Due, Quiet, Listed;
    if e == d {
      SetDue(s, d);
    } else {
      InvListed(s, None, None);
      SignalQuiet(s, e, d);
      QuietDue(s, Signal(s, e), d);
      QuietKind(s, Signal(s, e), d);
    }
  }

  lemma ResetBalanced(s: State, e: Id, d: Id)
    requires Good(s) && !s.panicked && Ob(s, e).kind != Mutant && IsEvent(s, d)
    ensures Balanced(s, ResetEvent(e), ResetStep(s, e), d)
  {
    hide Inv, Due, Quiet;
    SpentDue(s, d);
    if e != d {
      ObjectQuiet(s, e, Ob(s, e).(signal := 0), d);
      QuietDue(s, PutOb(s, e, Ob(s, e).(signal := 0)), d);
    }
  }

  lemma KillBalanced(s: State, t: Tid, st: Status, d: Id)
    requires Good(s) && !s.panicked && s.current.Some? && Acting(s, s.current.value) && IsEvent(s, d)
    ensures Quiet(s, KillStep(s, t, st), d)
  {
    hide Inv, Quiet, Kill, Exit;
    RestQuiet(s, s, d);
    if t != s.idle && Th(s, t).mode != Terminated {
      if s.current == Some(t) {
        ExitQuiet(s, st, d);
      } else {
        KillQuiet(s, t, st, d);
      }
    }
  }

  /** The timers of a tick, one after the other. */
  lemma {:induction false} SignalAllDue(s: State, ds: seq<Id>, d: Id)
    requires Inv(s, None, None) && IsEvent(s, d) && forall e :: e in ds ==> Ob(s, e).kind != Mutant
    ensures var r := SignalAll(s, ds); Due(r, d) == Due(s, d) + Occurrences(ds, d) && IsEvent(r, d)
    decreases |ds|
  {
    hide Inv, Signal, Due, Quiet, Listed;
    if ds != [] {
      var e := ds[0];
      var s1 := Signal(s, e);
      SignalInv(s, e, None);
      if e == d {
        SetDue(s, d);
      } else {
        InvListed(s, None, None);
        SignalQuiet(s, e, d);
        QuietDue(s, s1, d);
        QuietKind(s, s1, d);
      }
      forall x | x in ds[1..] ensures Ob(s1, x).kind != Mutant {
        SignalKind(s, e, x);
        assert x in ds;
      }
      SignalAllDue(s1, ds[1..], d);
    }
  }

  lemma TickBalanced(s: State, due: seq<Id>, d: Id)
    requires Good(s) && !s.panicked && IsEvent(s, d) && forall e :: e in due ==> Ob(s, e).kind != Mutant
    ensures Balanced(s, Tick(due), TickStep(s, due), d)
  {
    hide Inv, Dispatch, Ticked, Balanced, SameLive;
    TickedInv(s, due);
    TickedLive(s, due);
    StillGood(s, Ticked(s, due));
    TickedBalanced(s, due, d);
    ThenDispatch(s, Tick(due), Ticked(s, due), TickStep(s, due), d);
  }

  lemma TickedBalanced(s: State, due: seq<Id>, d: Id)
    requires Inv(s, None, None) && IsEvent(s, d) && forall e :: e in due ==> Ob(s, e).kind != Mutant
    ensures Balanced(s, Tick(due), Ticked(s, due), d)
  {
    hide Inv, Due, Quiet, Listed, SignalAll, ExpireTable, SpendQuantum;
    var s0 := s.(ticks := s.ticks + 1);
    Unobserved(s, s0);
    RestQuiet(s, s0, d);
    QuietDue(s, s0, d);
    SignalAllDue(s0, due, d);
    SignalAllInv(s0, due);
    var s1 := SignalAll(s0, due);
    InvListed(s1, None, None);
    ExpireTableQuiet(s1, s1.table, d);
    var s2 := ExpireTable(s1, s1.table);
    SpendQuiet(s2, d);
    QuietTrans(s1, s2, SpendQuantum(s2), d);
    QuietDue(s1, SpendQuantum(s2), d);
    QuietKind(s1, SpendQuantum(s2), d);
  }

  lemma NewThreadQuiet(s: State, t: Tid, prio: Prio, p: Pid, suspended: bool, d: Id)
    requires t !in s.threads && OfThread(t) !in s.objs && d.Plain?
    ensures Quiet(s, NewThread(s, t, prio, p, suspended), d)
  {
    hide Quiet, SchedReady;
    var th := NoThread.(priority := prio, saved := prio, base := prio, quantum := QUANTUM, proc := p);
    var s0 := NewObject(s, OfThread(t), ThreadEnd, 0);
    ObjectQuiet(s, OfThread(t), Obj(ThreadEnd, 0, [], None, 0, false), d);
    var s1 := PutTh(s0, t, th);
    ThreadQuiet(s0, t, th, d);
    QuietTrans(s, s0, s1, d);
    var s2 := PutPr(s1, p, Pr(s1, p).(members := Pr(s1, p).members + [t], count := Pr(s1, p).count + 1));
    RestQuiet(s1, s2, d);
    QuietTrans(s, s1, s2, d);
    ReadyQuiet(s2, t, d);
    QuietTrans(s, s2, SchedReady(s2, t), d);
  }

  lemma NewMutexQuiet(s: State, m: Id, owned: bool, d: Id)
    requires m != d
    ensures Quiet(s, NewMutex(s, m, owned), d)
  {
    hide Quiet, Own;
    var o := Obj(Mutant, 0, [], s.current, 1, false);
    ObjectQuiet(s, m, o, d);
    ObjectQuiet(s, m, Obj(Mutant, if owned then 0 else 1, [], None, if owned then 1 else 0, false), d);
    if owned && s.current.Some? {
      DisownQuiet(PutOb(s, m, o), m, s.current.value, d);
      QuietTrans(s, PutOb(s, m, o), Own(PutOb(s, m, o), m, s.current.value), d);
    }
  }

  lemma NewProcessQuiet(s: State, p: Pid, d: Id)
    requires d.Plain?
    ensures Quiet(s, NewProcess(s, p), d)
  {
    hide Quiet;
    var s0 := NewObject(s, OfProcess(p), ProcessEnd, 0);
    ObjectQuiet(s, OfProcess(p), Obj(ProcessEnd, 0, [], None, 0, false), d);
    RestQuiet(s0, NewProcess(s, p), d);
    QuietTrans(s, s0, NewProcess(s, p), d);
  }

  lemma StepBalanced(s: State, op: Op, d: Id)
    requires Good(s) && !s.panicked && Enabled(s, op) && IsEvent(s, d)
    ensures Balanced(s, op, Step(s, op), d)
  {
    hide Inv, Quiet, Balanced, SameLive, FreshThread, Listed;
    hide WaitStep, ReturnStep, ReleaseStep, SetStep, ResetStep, KillStep, ExitStep, YieldStep, TickStep;
    var r := Step(s, op);
    match op
    case Wait(e, timeout) => WaitBalanced(s, e, timeout, d);
    case Return => ReturnBalanced(s, d);
    case SetEvent(e) => SetBalanced(s, e, d);
    case ResetEvent(e) => ResetBalanced(s, e, d);
    case Tick(due) => TickBalanced(s, due, d);
    case _ =>
      OtherQuiet(s, op, d);
      QuietBalanced(s, op, r, d);
  }

  lemma OtherQuiet(s: State, op: Op, d: Id)
    requires Good(s) && !s.panicked && Enabled(s, op) && IsEvent(s, d)
    requires !op.Wait? && !op.Return? && !op.SetEvent? && !op.ResetEvent? && !op.Tick?
    ensures Quiet(s, Step(s, op), d)
  {
    hide Inv, Quiet, SameLive, Listed;
    hide KillStep, ReleaseStep, ExitStep, YieldStep;
    match op
    case ReleaseMutex(m) => ReleaseStepQuiet(s, m, d);
    case KillThread(t, st) => KillBalanced(s, t, st, d);
    case ExitThread(st) => ExitStepQuiet(s, st, d);
    case Yield => YieldQuiet(s, d);
    case CreateObject(e, kind, signal) => ObjectQuiet(s, e, Obj(kind, signal, [], None, 0, false), d);
    case CreateMutex(m, owned) => NewMutexQuiet(s, m, owned, d);
    case CreateThread(t, prio, p, suspended) => NewThreadQuiet(s, t, prio, p, suspended, d);
    case Resume(t) => ReadyQuiet(s, t, d);
    case CreateProcess(p) => NewProcessQuiet(s, p, d);
  }

  lemma ReleaseStepQuiet(s: State, m: Id, d: Id)
    requires Good(s) && !s.panicked && s.current.Some? && Acting(s, s.current.value) && Ob(s, m).kind == Mutant && m != d
    ensures Quiet(s, ReleaseStep(s, m), d)
  {
    hide Inv, Quiet, Release, Listed;
    InvListed(s, None, None);
    ReleaseQuiet(s, m, d);
  }

  lemma ExitStepQuiet(s: State, st: Status, d: Id)
    requires Good(s) && !s.panicked && s.current.Some? && Acting(s, s.current.value) && IsEvent(s, d)
    ensures Quiet(s, ExitStep(s, st), d)
  {
    hide Inv, Quiet, Exit;
    ExitQuiet(s, st, d);
  }

  lemma YieldQuiet(s: State, d: Id)
    requires Good(s) && !s.panicked && IsEvent(s, d)
    ensures Quiet(s, YieldStep(s), d)
  {
    hide Inv, Quiet, Dispatch;
    DispatchQuiet(s, d);
  }

  /* ---- runs ---- */

  ghost function AllSuccesses(s: State, ops: seq<Op>, d: Id): nat
    requires Good(s) && Legal(s, ops)
    decreases |ops|
  {
    if ops == [] then 0 else Successes(s, ops[0], d) + AllSuccesses(Step(s, ops[0]), ops[1..], d)
  }

  ghost function AllCleared(s: State, ops: seq<Op>, d: Id): int
    requires Good(s) && Legal(s, ops)
    decreases |ops|
  {
    if ops == [] then 0 else Cleared(s, ops[0], d) + AllCleared(Step(s, ops[0]), ops[1..], d)
  }

  function AllSets(ops: seq<Op>, d: Id): nat {
    if ops == [] then 0 else Sets(ops[0], d) + AllSets(ops[1..], d)
  }

  /**
   Over every run, what an auto-reset event had to give and every set of it, by a call or by a timer, are accounted for: as a
   wait that succeeded, a wait that was granted and has not returned, a signal that is still there, or one that was cleared.
   */
  lemma {:induction false} EventAccount(s: State, ops: seq<Op>, d: Id)
    requires Good(s) && Legal(s, ops) && IsEvent(s, d)
    ensures IsEvent(Run(s, ops), d) && AllCleared(s, ops, d) >= 0
    ensures AllSuccesses(s, ops, d) + AllCleared(s, ops, d) + Due(Run(s, ops), d) == Due(s, d) + AllSets(ops, d)
    decreases |ops|
  {
    hide Inv, Due, Enabled, Step;
    if ops != [] {
      StepBalanced(s, ops[0], d);
      EventAccount(Step(s, ops[0]), ops[1..], d);
    }
  }

  /** A new event has just its signal to give. */
  lemma NewEventDue(s: State, d: Id, signal: nat)
    requires Good(s) && !s.panicked && Enabled(s, CreateObject(d, Synchronization, signal))
    ensures var r := Step(s, CreateObject(d, Synchronization, signal)); IsEvent(r, d) && Due(r, d) == signal
  {
    hide Inv, NoDup, OwnsOk, Donated;
    var r := Step(s, CreateObject(d, Synchronization, signal));
    forall t: Tid ensures t !in Earners(r, d) {
      HasThread(s, t, None, None);
      EarnerIs(r, t, d);
    }
    assert Earners(r, d) == {};
  }

  /** From its creation on, at most as many waits on an auto-reset event succeed as it had signals and was set. */
  lemma SuccessesBounded(s: State, d: Id, signal: nat, ops: seq<Op>)
    requires Good(s) && !s.panicked && Enabled(s, CreateObject(d, Synchronization, signal))
    requires Legal(Step(s, CreateObject(d, Synchronization, signal)), ops)
    ensures AllSuccesses(Step(s, CreateObject(d, Synchronization, signal)), ops, d) <= signal + AllSets(ops, d)
  {
    hide Good, Enabled, Step, Legal;
    var r := Step(s, CreateObject(d, Synchronization, signal));
    NewEventDue(s, d, signal);
    EventAccount(r, ops, d);
  }
}
