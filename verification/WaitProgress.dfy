/** No process in fork, exit or wait is stuck by itself, and what each of the three does on the way is
    open to it whenever its turn comes. */
module WaitProgress {
  import opened Basics
  import opened ProcTable
  import opened WaitExit
  import opened WaitSafety
  import opened ProcProgress
  import ProcSafety

  /** The next event of a process in a call, with choice k where there is one. */
  function NextEvent(w: World, p: nat, k: nat): Event
    requires Sized(w) && p < |w.prog|
  {
    match NextStep(w.t.procs[p].pc, p, |w.prog|)
    case None => Do(p, k)
    case Some(s) => if s.WakeReturn? || w.prog[p].ExitRelease? then Do(p, k) else Kernel(s)
  }

  // The lock of entry i is held.
  predicate Taken(w: World, i: nat) {
    i < |w.t.procs| && w.t.procs[i].lock.Some?
  }

  /** It waits for wait_lock, for the lock of the entry it looks at next, for another lock, for a
      wakeup or for the scheduler. */
  predicate Held(w: World, p: nat)
    requires Sized(w) && p < |w.prog|
  {
    || Waits(w.t, p)
    || (w.t.procs[p].pc.Run?
        && match w.prog[p]
           case WaitScan(i, _) => Taken(w, i)
           case ExitLock => Taken(w, p)
           case ForkLink(_) => WAIT in w.t.held
           case ForkStart(i) => Taken(w, i)
           case _ => false)
  }

  lemma WaiterGoes(w: World, p: nat, k: nat)
    requires Sized(w) && p < |w.prog| && ProgFits(w, p) && Fits(w.t, p) && !Held(w, p)
    requires InWait(w.prog[p]) && !w.prog[p].User? && NextEvent(w, p, k).Do?
    ensures ProgMove(w, p, k).Some?
    ensures ProgMove(w, p, k).value.op.Some? ==> Ready(w.t, ProgMove(w, p, k).value.op.value)
  {
    hide Next;
  }

  lemma ExiterGoes(w: World, p: nat, k: nat)
    requires Sized(w) && p < |w.prog| && ProgFits(w, p) && Fits(w.t, p) && !Held(w, p)
    requires InExit(w.prog[p]) && NextEvent(w, p, k).Do?
    ensures ProgMove(w, p, k).Some?
    ensures ProgMove(w, p, k).value.op.Some? ==> Ready(w.t, ProgMove(w, p, k).value.op.value)
  {
    hide Next;
  }

  lemma ForkerGoes(w: World, p: nat, k: nat)
    requires Sized(w) && p < |w.prog| && ProgFits(w, p) && Fits(w.t, p) && !Held(w, p)
    requires !InWait(w.prog[p]) && !InExit(w.prog[p]) && NextEvent(w, p, k).Do?
    ensures ProgMove(w, p, k).Some?
    ensures ProgMove(w, p, k).value.op.Some? ==> Ready(w.t, ProgMove(w, p, k).value.op.value)
  {
    hide Next;
  }

  lemma KernelGoes(w: World, p: nat, k: nat)
    requires Sized(w) && p < |w.prog| && !w.prog[p].User? && ProgFits(w, p) && NextEvent(w, p, k).Kernel?
    ensures KernelMove(w, NextEvent(w, p, k).s).Some? && NextEvent(w, p, k).s.p == p
    ensures KernelMove(w, NextEvent(w, p, k).s).value.op == Some(NextEvent(w, p, k).s)
    ensures !w.t.procs[p].pc.Run?
  {
  }

  /** A process in fork, exit or wait always has a next step, whatever is chosen for it, unless it waits
      for a lock that is held, for a wakeup or for the scheduler. */
  lemma GoesOn(w: World, p: nat, k: nat)
    requires WorldInv(w) && p < |w.prog| && Sized(w) && !w.prog[p].User? && !Held(w, p)
    ensures Actor(NextEvent(w, p, k)) == p && WorldStep(w, NextEvent(w, p, k)).Some?
  {
    hide WorldInv, Inv, Next, KernelMove, ProgMove, ProgFits, Waits, Fits, Scanned, Disowned, NewProgs, Ready;
    Known(w, p);
    if NextEvent(w, p, k).Kernel? {
      KernelGoes(w, p, k);
      ProcProgress.GoesOn(w.t, p);
    } else if InWait(w.prog[p]) {
      WaiterGoes(w, p, k);
    } else if InExit(w.prog[p]) {
      ExiterGoes(w, p, k);
    } else {
      ForkerGoes(w, p, k);
    }
    var e := NextEvent(w, p, k);
    if e.Do? && ProgMove(w, p, k).value.op.Some? { ReadyGoes(w.t, ProgMove(w, p, k).value.op.value); }
  }

  /** An idle process may call wait or, unless it is init, exit while wait_lock is free, and fork with
      any entry whose lock is free. */
  lemma MayCall(w: World, p: nat, i: nat)
    requires Sized(w) && p < |w.prog| && w.prog[p].User? && w.t.procs[p].pc.Run?
    ensures WAIT !in w.t.held ==> WorldStep(w, Do(p, 0)).Some?
    ensures WAIT !in w.t.held && p != w.init ==> WorldStep(w, Do(p, 1)).Some?
    ensures i < |w.prog| && !Taken(w, i) ==> WorldStep(w, Do(p, i + 2)).Some?
  {
  }

  // A step that has nothing to do with wait_lock or the entries of the table.
  predicate Elsewhere(s: Step) {
    && (InSleep(s) || InWake(s) || s.Acquire? || s.Release? || s.CallSleep? || s.Kill? || s.Yield?)
    && (s.Acquire? ==> s.l != WAIT) && (s.Release? ==> s.l != WAIT) && (s.CallSleep? ==> s.l != WAIT)
  }

  lemma ElsewhereMove(w: World, s: Step)
    requires Sized(w) && s.p < |w.prog| && w.prog[s.p].User? && Elsewhere(s)
    ensures KernelMove(w, s) == Some(Move(Some(s), User, w.parent)) && !s.Reap?
  {
  }

  /** Who is in no call does what it likes elsewhere, and no parent changes. */
  lemma ElsewhereFree(w: World, s: Step)
    requires Sized(w) && s.p < |w.prog| && w.prog[s.p].User? && Elsewhere(s) && Next(w.t, s).Some?
    ensures WorldStep(w, Kernel(s)) == Some(w.(t := Next(w.t, s).value))
  {
    hide Next, ProgMove, KernelMove;
    ElsewhereMove(w, s);
    assert w.prog[s.p := w.prog[s.p]] == w.prog;
  }

  // ---- every pass ends ----

  /** Steps left, at most, until a pass of the call is over. */
  function Left(g: Prog, n: nat): nat {
    match g
    case WaitScan(i, _) => if i <= n then 3 * (n - i) + 3 else 3
    case WaitTest(i, _) => if i < n then 3 * (n - i) + 2 else 4
    case WaitSleep => 2
    case WaitFreed(_) => 2
    case WaitLeave => 1
    case ExitScan(i) => if i <= n then 2 * (n - i) + 8 else 8
    case ExitTellInit(i) => if i < n then 2 * (n - i) + 7 else 7
    case ExitTell => 7
    case ExitLock => 6
    case ExitMark => 5
    case ExitRelease => 4
    case ExitDone => 3
    case ForkLocked(_) => 9
    case ForkMade(_) => 8
    case ForkLink(_) => 7
    case ForkSet(_) => 6
    case ForkLinked(_) => 5
    case ForkStart(_) => 4
    case ForkGo(_) => 3
    case ForkEnd(_) => 2
    case ForkFailed(_) => 1
    case User => 0
  }

  lemma WaiterLess(w: World, p: nat, k: nat)
    requires Sized(w) && p < |w.prog| && ProgMove(w, p, k).Some? && ProgFits(w, p)
    requires InWait(w.prog[p]) && !w.prog[p].User?
    ensures Left(ProgMove(w, p, k).value.next, |w.prog|) < Left(w.prog[p], |w.prog|)
  {
    hide ProcSafety.HoldsLock;
  }

  lemma ExiterLess(w: World, p: nat, k: nat)
    requires Sized(w) && p < |w.prog| && ProgMove(w, p, k).Some? && ProgFits(w, p) && InExit(w.prog[p])
    ensures Left(ProgMove(w, p, k).value.next, |w.prog|) < Left(w.prog[p], |w.prog|)
  {
    hide ProcSafety.HoldsLock;
  }

  lemma ForkerLess(w: World, p: nat, k: nat)
    requires Sized(w) && p < |w.prog| && ProgMove(w, p, k).Some? && ProgFits(w, p)
    requires !InWait(w.prog[p]) && !InExit(w.prog[p])
    ensures Left(ProgMove(w, p, k).value.next, |w.prog|) < Left(w.prog[p], |w.prog|)
  {
    hide ProcSafety.HoldsLock;
  }

  lemma PlanLess(w: World, e: Event)
    requires Sized(w) && Actor(e) < |w.prog| && Plan(w, e).Some? && ProgFits(w, Actor(e)) && e.Do?
    requires !w.prog[Actor(e)].User?
    ensures Left(Plan(w, e).value.next, |w.prog|) < Left(w.prog[Actor(e)], |w.prog|)
  {
    hide ProgMove, ProgFits, Left;
    var p := Actor(e);
    if InWait(w.prog[p]) { WaiterLess(w, p, e.k); }
    else if InExit(w.prog[p]) { ExiterLess(w, p, e.k); }
    else { ForkerLess(w, p, e.k); }
  }

  lemma KernelSame(w: World, s: Step)
    requires Sized(w) && s.p < |w.prog| && KernelMove(w, s).Some? && !w.prog[s.p].User?
    ensures (s.SleepReturn? && w.prog[s.p].WaitSleep?) || KernelMove(w, s).value.next == w.prog[s.p]
    ensures s.Yield? || InSleep(s) || s.WakeLock? || s.WakeTest?
  {
  }

  /** No call runs for ever: every step of a process in fork, exit or wait leaves it less to do, except
      that a waiter that has been woken scans again, and that the timer may take the processor from it. */
  lemma Advances(w: World, e: Event, v: World)
    requires Moves(w, e, v) && Actor(e) < |w.prog| && !w.prog[Actor(e)].User?
    ensures Sized(w) && Sized(v) && |v.prog| == |w.prog|
    ensures var p, n := Actor(e), |w.prog|;
            || (e.Kernel? && (e.s.SleepReturn? || e.s.Yield?))
            || Left(v.prog[p], n) < Left(w.prog[p], n)
            || (v.prog[p] == w.prog[p] && PcLeft(v.t.procs[p].pc, n) < PcLeft(w.t.procs[p].pc, n))
  {
    hide WorldInv, Inv, Moves, WorldStep, Next, Plan, KernelMove, ProgMove, ProgFits, Fits, Left, PcLeft, Scanned;
    hide Disowned, NewProgs;
    Op(w, e, v);
    Known(w, Actor(e));
    OwnProg(w, Actor(e), Plan(w, e).value);
    if e.Do? {
      PlanLess(w, e);
    } else {
      KernelPlan(w, e.s);
      KernelSame(w, e.s);
      if !e.s.Yield? && !e.s.SleepReturn? { LeavesLess(w.t, e.s); }
    }
  }

  lemma OwnProg(w: World, p: nat, m: Move)
    requires Sized(w) && p < |w.prog|
    ensures NewProgs(w, p, m)[p] == m.next
  {
  }

  lemma KernelPlan(w: World, s: Step)
    requires Sized(w) && s.p < |w.prog| && Plan(w, Kernel(s)).Some?
    ensures KernelMove(w, s).Some? && Plan(w, Kernel(s)) == KernelMove(w, s) && KernelMove(w, s).value.op == Some(s)
  {
  }
}
