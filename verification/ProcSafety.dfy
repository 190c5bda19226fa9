/** What every interleaving of the process table keeps, and no lost wakeup. */
module ProcSafety {
  import opened Basics
  import opened ProcTable

  lemma StepKeepsFits(t: Table, s: Step)
    requires Inv(t) && Next(t, s).Some?
    ensures var u := Next(t, s).value;
            && |u.procs| == |t.procs|
            && (forall j :: 0 <= j < |u.procs| ==> Fits(u, j))
            && (forall l :: l in u.held ==> u.held[l] < |u.procs|)
  {
    HoldersThere(t, s);
    hide Next, Inv, Fits;
    var u := Next(t, s).value;
    forall j | 0 <= j < |u.procs| ensures Fits(u, j) {
      FitsStep(t, s, j);
    }
  }

  lemma HoldersThere(t: Table, s: Step)
    requires Inv(t) && Next(t, s).Some?
    ensures var u := Next(t, s).value; |u.procs| == |t.procs| && forall l :: l in u.held ==> u.held[l] < |u.procs|
  {
    hide Fits, Asleep;
  }

  lemma FitsStep(t: Table, s: Step, j: nat)
    requires Inv(t) && Next(t, s).Some? && j < |t.procs|
    ensures Fits(Next(t, s).value, j)
  {
    hide Next, Inv, Fits;
    if j != s.p { FitsOther(t, s, j); } else if InSleep(s) { FitsSleeper(t, s); } else { FitsActor(t, s); }
  }

  lemma FitsSleeper(t: Table, s: Step)
    requires Inv(t) && Next(t, s).Some? && InSleep(s)
    ensures Fits(Next(t, s).value, s.p)
  {
    assert Fits(t, s.p);
    hide Inv;
  }

  lemma FitsActor(t: Table, s: Step)
    requires Inv(t) && Next(t, s).Some? && !InSleep(s)
    ensures Fits(Next(t, s).value, s.p)
  {
    assert Fits(t, s.p);
    hide Inv;
  }

  /** What step s may do to the entry of a process i other than its own: locks of others stay, the
      place stays, and the status changes only when proc[i] is woken, killed, started, spawned or
      reaped. */
  ghost predicate Changes(s: Step, i: nat, x: Proc, y: Proc) {
    && (forall k: nat :: k != s.p ==> (x.lock == Some(k) <==> y.lock == Some(k)))
    && (|| (y.pc == x.pc && y.chan == x.chan
            && (y.status == x.status
                || (y.status.RUNNABLE? && x.status.SLEEPING? && (x.lock.None? || x.lock == Some(s.p)))
                || (y.status.RUNNABLE? && x.status.USED? && s == Start(s.p, i) && x.lock == Some(s.p))))
        || (y.pc.Embryo? && y.status.USED? && x.status.UNUSED? && s == Spawn(s.p, i))
        || (y.pc.Gone? && y.status.UNUSED? && (x.status.ZOMBIE? || x.status.USED?) && s == Reap(s.p, i)))
  }

  lemma ChangedByWake(t: Table, s: Step, j: nat)
    requires Inv(t) && Next(t, s).Some? && j < |t.procs| && j != s.p && InWake(s)
    ensures Changes(s, j, t.procs[j], Next(t, s).value.procs[j])
  {
    assert Fits(t, s.p);
    hide Inv, SleepNext, EntryNext, LockNext;
  }

  lemma ChangedByEntry(t: Table, s: Step, j: nat)
    requires Next(t, s).Some? && j < |t.procs| && j != s.p && OnEntry(s)
    ensures Changes(s, j, t.procs[j], Next(t, s).value.procs[j])
  {
    hide SleepNext, WakeNext, LockNext;
  }

  lemma Unchanged(t: Table, s: Step, j: nat)
    requires Next(t, s).Some? && j < |t.procs| && j != s.p && !InWake(s) && !OnEntry(s)
    ensures Next(t, s).value.procs[j] == t.procs[j]
  {
    hide WakeNext, EntryNext;
  }

  lemma Changed(t: Table, s: Step, j: nat)
    requires Inv(t) && Next(t, s).Some? && j < |t.procs| && j != s.p
    ensures Changes(s, j, t.procs[j], Next(t, s).value.procs[j])
  {
    hide Next, Inv;
    if InWake(s) { ChangedByWake(t, s, j); }
    else if OnEntry(s) { ChangedByEntry(t, s, j); }
    else { Unchanged(t, s, j); }
  }

  // Steps of sleep and of the spinlocks take and give back the process's own locks only.
  lemma LocksBySleep(t: Table, s: Step, j: nat)
    requires Inv(t) && Next(t, s).Some? && j != s.p && InSleep(s)
    ensures Holds(Next(t, s).value, j) == Holds(t, j)
  {
    assert Fits(t, s.p);
    hide Inv, WakeNext, EntryNext, LockNext;
  }

  lemma LocksByOthers(t: Table, s: Step, j: nat)
    requires Next(t, s).Some? && j != s.p && !InSleep(s)
    ensures Holds(Next(t, s).value, j) == Holds(t, j)
  {
    hide SleepNext;
  }

  lemma LocksKept(t: Table, s: Step, j: nat)
    requires Inv(t) && Next(t, s).Some? && j != s.p
    ensures Holds(Next(t, s).value, j) == Holds(t, j)
    ensures forall l :: l in t.held && t.held[l] == j ==> l in Next(t, s).value.held && Next(t, s).value.held[l] == j
  {
    hide Next, Inv;
    if InSleep(s) { LocksBySleep(t, s, j); } else { LocksByOthers(t, s, j); }
    assert forall l :: l in t.held && t.held[l] == j ==> l in Holds(t, j);
  }

  /** What a step does to another process: its own lock stays its own, its locks stay held,
      and its status changes only from SLEEPING or USED to RUNNABLE, or by being spawned or
      reaped. */
  lemma OtherChange(t: Table, s: Step, j: nat)
    requires Inv(t) && Next(t, s).Some? && j < |t.procs| && j != s.p
    ensures var u := Next(t, s).value;
            && Changes(s, j, t.procs[j], u.procs[j])
            && (forall l :: l in t.held && t.held[l] == j ==> l in u.held && u.held[l] == j)
  {
    hide Next, Inv, Changes;
    Changed(t, s, j);
    LocksKept(t, s, j);
  }

  // Changes of this kind keep a process fitting, with its locks and the lock it tests.
  lemma ChangedFits(t: Table, s: Step, u: Table, j: nat)
    requires j < |t.procs| == |u.procs| && j != s.p && Fits(t, j) && Changes(s, j, t.procs[j], u.procs[j])
    requires forall l :: l in t.held && t.held[l] == j ==> l in u.held && u.held[l] == j
    requires u.procs[j].pc.Testing? && u.procs[j].pc.i < |u.procs| ==> u.procs[u.procs[j].pc.i].lock == Some(j)
    ensures Fits(u, j)
  {
  }

  lemma FitsOther(t: Table, s: Step, j: nat)
    requires Inv(t) && Next(t, s).Some? && j < |t.procs| && j != s.p
    ensures Fits(Next(t, s).value, j)
  {
    assert Fits(t, j);
    hide Next, Inv, Fits;
    OtherChange(t, s, j);
    OtherTests(t, s, j);
    ChangedFits(t, s, Next(t, s).value, j);
  }

  // Who is testing a process has its lock, whatever the others do.
  lemma OtherTests(t: Table, s: Step, j: nat)
    requires Inv(t) && Next(t, s).Some? && j < |t.procs| && j != s.p
    ensures var u := Next(t, s).value;
            u.procs[j].pc.Testing? ==>
              && u.procs[j].pc == t.procs[j].pc && u.procs[j].pc.i < |t.procs| && u.procs[j].pc.i != j
              && u.procs[u.procs[j].pc.i].lock == Some(j)
  {
    hide Next;
    assert Fits(t, j);
    Changed(t, s, j);
    if Next(t, s).value.procs[j].pc.Testing? {
      KeepsProcLock(t, s, j, t.procs[j].pc.i);
    }
  }

  // A process does not take its own lock away from a waker that holds it.
  lemma SelfLock(t: Table, s: Step)
    requires Inv(t) && Next(t, s).Some? && t.procs[s.p].lock.Some? && t.procs[s.p].lock != Some(s.p)
    ensures Next(t, s).value.procs[s.p].lock == t.procs[s.p].lock
  {
    assert Fits(t, s.p);
    hide Inv;
  }

  lemma KeepsProcLock(t: Table, s: Step, j: nat, i: nat)
    requires Inv(t) && Next(t, s).Some? && j < |t.procs| && j != s.p && i < |t.procs|
    requires t.procs[i].lock == Some(j)
    ensures Next(t, s).value.procs[i].lock == Some(j)
  {
    hide Next, Inv;
    if i == s.p { SelfLock(t, s); } else { Changed(t, s, i); }
  }

  lemma PutsSelfToSleep(t: Table, s: Step, c: Chan, l: LockId)
    requires Inv(t) && Next(t, s).Some?
    requires !Asleep(t, s.p, c, l) && Asleep(Next(t, s).value, s.p, c, l)
    ensures s.SleepRelease? && t.procs[s.p].pc == Locked(c, l) && l in Holds(t, s.p)
  {
    assert Fits(t, s.p);
    hide Inv;
  }

  /** A step puts nobody to sleep on (c, l) except a holder of l, who thereby gives l up. */
  lemma StepPutsToSleep(t: Table, s: Step, j: nat, c: Chan, l: LockId)
    requires Inv(t) && Next(t, s).Some? && j < |t.procs|
    requires !Asleep(t, j, c, l) && Asleep(Next(t, s).value, j, c, l)
    ensures s == SleepRelease(j) && t.procs[j].pc == Locked(c, l) && l in Holds(t, j)
  {
    hide Next, Inv;
    if j == s.p { PutsSelfToSleep(t, s, c, l); } else { Changed(t, s, j); }
  }

  predicate HoldsLock(t: Table, l: LockId, p: nat) {
    l in t.held && t.held[l] == p
  }

  /** Step s as its own process sees it, looking at lock l alone: whether it has l, and its place,
      before and after. */
  predicate Turn(l: LockId, s: Step, had: bool, was: Pc, has: bool, is_: Pc) {
    match s
    case Acquire(_, m) => was.Run? && is_.Run? && (if m == l then !had && has else has == had)
    case Release(_, m) => (was.Run? || was.Exiting?) && is_ == was && (if m == l then had && !has else has == had)
    case CallSleep(_, c, m) => was.Run? && is_ == Enter(c, m) && has == had && (m == l ==> had)
    case SleepLock(_) => was.Enter? && is_ == Locked(was.c, was.l) && has == had
    case SleepRelease(_) => was.Locked? && is_ == Released(was.c, was.l) && has == (had && was.l != l)
    case SleepMark(_) => was.Released? && is_ == Marked(was.c, was.l) && has == had
    case SchedDrop(_) =>
      has == had && if was.Marked? then is_ == Parked(was.c, was.l) else was.Exiting? && is_.Gone?
    case Schedule(_) =>
      has == had && if was.Parked? then is_ == Woken(was.l) else (was.Yielded? || was.Embryo?) && is_.Run?
    case SleepTidy(_) => was.Woken? && is_ == Reacquire(was.l) && has == had
    case SleepReturn(_) => was.Reacquire? && is_.Run? && has == (had || was.l == l)
    case CallWakeup(_, c) => was.Run? && is_ == Waking(c, 0) && has == had
    case WakeLock(_) => was.Waking? && InWakeup(is_, was.c) && has == had
    case WakeTest(_) => was.Testing? && InWakeup(is_, was.c) && has == had
    case WakeReturn(_) => was.Waking? && is_.Run? && has == had
    case Yield(_) => was.Run? && is_.Yielded? && !had && !has
    case MarkZombie(_) => was.Run? && is_.Exiting? && has == had
    case _ => was.Run? && is_.Run? && has == had
  }

  // The same of an event that may have no kernel step.
  predicate Turned(l: LockId, op: Option<Step>, had: bool, was: Pc, has: bool, is_: Pc) {
    match op case None => is_ == was && has == had case Some(s) => Turn(l, s, had, was, has, is_)
  }

  lemma SleepTurn(t: Table, s: Step, l: LockId)
    requires Next(t, s).Some? && InSleep(s) && Fits(t, s.p)
    ensures var u := Next(t, s).value;
            Turn(l, s, HoldsLock(t, l, s.p), t.procs[s.p].pc, HoldsLock(u, l, s.p), u.procs[s.p].pc)
  {
    hide WakeNext, EntryNext, LockNext;
  }

  lemma WakeTurn(t: Table, s: Step, l: LockId)
    requires Next(t, s).Some? && InWake(s)
    ensures var u := Next(t, s).value;
            Turn(l, s, HoldsLock(t, l, s.p), t.procs[s.p].pc, HoldsLock(u, l, s.p), u.procs[s.p].pc)
  {
    hide SleepNext, EntryNext, LockNext;
  }

  lemma OtherTurn(t: Table, s: Step, l: LockId)
    requires Next(t, s).Some? && !InSleep(s) && !InWake(s) && Fits(t, s.p)
    ensures var u := Next(t, s).value;
            Turn(l, s, HoldsLock(t, l, s.p), t.procs[s.p].pc, HoldsLock(u, l, s.p), u.procs[s.p].pc)
  {
    hide SleepNext, WakeNext;
    assert HoldsLock(t, l, s.p) ==> l in Holds(t, s.p);
  }

  lemma Turns(t: Table, s: Step, l: LockId)
    requires Inv(t) && Next(t, s).Some?
    ensures var u := Next(t, s).value;
            Turn(l, s, HoldsLock(t, l, s.p), t.procs[s.p].pc, HoldsLock(u, l, s.p), u.procs[s.p].pc)
  {
    assert Fits(t, s.p);
    hide Next, Inv, Turn, HoldsLock, Fits;
    if InSleep(s) { SleepTurn(t, s, l); } else if InWake(s) { WakeTurn(t, s, l); } else { OtherTurn(t, s, l); }
  }

  // What a wakeup that returns has done for each lock its caller holds.
  lemma WakeupDone(t: Table, s: Step, l: LockId)
    requires Next(t, s).Some? && s.WakeReturn? && HoldsLock(t, l, s.p)
    ensures t.procs[s.p].pc.Waking? && (s.p, t.procs[s.p].pc.c, l) in Next(t, s).value.done
  {
    hide SleepNext, EntryNext, LockNext;
    assert l in Holds(t, s.p);
  }

  lemma SpinlockOnly(t: Table, s: Step)
    requires Next(t, s).Some? && (s.Acquire? || s.Release?)
    ensures Next(t, s).value.procs == t.procs
  {
  }

  lemma DoneGrows(t: Table, s: Step)
    requires Next(t, s).Some? && !s.Release? && !s.SleepRelease?
    ensures Next(t, s).value.done >= t.done
  {
  }

  /** What a step on an entry finds there and leaves. */
  predicate Touched(s: Step, x: Proc, y: Proc)
    requires OnEntry(s)
  {
    match s
    case LockProc(p, _) => x.lock.None? && y.lock == Some(p) && y.status == x.status
    case UnlockProc(p, _) => x.lock == Some(p) && y.lock.None? && y.status == x.status
    case Spawn(p, _) => x.lock == y.lock == Some(p) && x.status.UNUSED? && y.status.USED?
    case Start(p, _) => x.lock == y.lock == Some(p) && x.status.USED? && y.status.RUNNABLE?
    case Reap(p, _) =>
      x.lock == y.lock == Some(p) && (x.status.ZOMBIE? || x.status.USED?) && y.status.UNUSED? && y.pc.Gone?
    case MarkZombie(p) => x.lock == y.lock == Some(p) && y.status.ZOMBIE?
    case Kill(_, _) => x.lock.None? && y.lock.None?
  }

  function Entry(s: Step): nat
    requires OnEntry(s)
  {
    if s.MarkZombie? then s.p else s.i
  }

  lemma Touches(t: Table, s: Step)
    requires Next(t, s).Some? && OnEntry(s)
    ensures Entry(s) < |t.procs| && Touched(s, t.procs[Entry(s)], Next(t, s).value.procs[Entry(s)])
  {
    hide SleepNext, WakeNext, LockNext;
  }

  lemma DoneKept(t: Table, s: Step, j: nat)
    requires Next(t, s).Some? && j != s.p
    ensures forall d :: d in t.done && d.0 == j ==> d in Next(t, s).value.done
  {
  }

  /** What a step does not take from a process other than its own: its locks, its proc locks,
      its place, and what it has done. */
  lemma Bystander(t: Table, s: Step, j: nat)
    requires Inv(t) && Next(t, s).Some? && j < |t.procs| && j != s.p
    ensures var u := Next(t, s).value;
            && Holds(u, j) == Holds(t, j)
            && (forall d :: d in t.done && d.0 == j ==> d in u.done)
            && (if t.procs[j].pc.Embryo? || t.procs[j].pc.Gone? then u.procs[j].pc.Embryo? || u.procs[j].pc.Gone?
                else u.procs[j].pc == t.procs[j].pc)
  {
    assert Fits(t, j);
    hide Next, Inv;
    Changed(t, s, j);
    LocksKept(t, s, j);
    DoneKept(t, s, j);
  }

  predicate StatusMoves(s: Step, i: nat, x: Status, y: Status) {
    || y == x
    || (x.SLEEPING? && y.RUNNABLE?)
    || (x.RUNNABLE? && y.RUNNING? && s == Schedule(i))
    || (x.RUNNING? && y.RUNNABLE? && s == Yield(i))
    || (x.RUNNING? && y.SLEEPING? && s == SleepMark(i))
    || (x.RUNNING? && y.ZOMBIE? && s == MarkZombie(i))
    || (x.UNUSED? && y.USED? && s == Spawn(s.p, i))
    || (x.USED? && y.RUNNABLE? && s == Start(s.p, i))
    || ((x.ZOMBIE? || x.USED?) && y.UNUSED? && s == Reap(s.p, i))
  }

  lemma OwnStatus(t: Table, s: Step)
    requires Inv(t) && Next(t, s).Some?
    ensures StatusMoves(s, s.p, t.procs[s.p].status, Next(t, s).value.procs[s.p].status)
  {
    assert Fits(t, s.p);
    hide Inv;
  }

  /** The only ways a status changes. */
  lemma StatusStep(t: Table, s: Step, i: nat)
    requires Inv(t) && Next(t, s).Some? && i < |t.procs|
    ensures StatusMoves(s, i, t.procs[i].status, Next(t, s).value.procs[i].status)
  {
    hide Next, Inv;
    if i == s.p { OwnStatus(t, s); } else { Changed(t, s, i); }
  }

  lemma StepKeepsScan(t: Table, s: Step)
    requires Inv(t) && Next(t, s).Some?
    ensures var u := Next(t, s).value;
            forall p, l ::
              0 <= p < |u.procs| && (u.procs[p].pc.Waking? || u.procs[p].pc.Testing?) && l in Holds(u, p)
              ==> NoneAsleep(u, u.procs[p].pc.c, l, u.procs[p].pc.i)
  {
    hide Next, Inv, Asleep;
    var u := Next(t, s).value;
    forall p, l, j | 0 <= p < |u.procs| && (u.procs[p].pc.Waking? || u.procs[p].pc.Testing?) && l in Holds(u, p)
                     && 0 <= j < u.procs[p].pc.i && j < |u.procs|
      ensures !Asleep(u, j, u.procs[p].pc.c, l)
    {
      ScanStep(t, s, p, l, j);
    }
  }

  // What p's scan has passed, when another process moves.
  lemma ScanOther(t: Table, s: Step, p: nat, l: LockId, j: nat)
    requires Inv(t) && Next(t, s).Some? && p < |t.procs| && j < |t.procs| && p != s.p
    requires var u := Next(t, s).value;
             p < |u.procs| && (u.procs[p].pc.Waking? || u.procs[p].pc.Testing?) && l in Holds(u, p)
                 && j < u.procs[p].pc.i
    ensures var u := Next(t, s).value; j < |u.procs| && !Asleep(u, j, u.procs[p].pc.c, l)
  {

    Bystander(t, s, p);
    hide Next, Fits;
    var c := t.procs[p].pc.c;
    assert NoneAsleep(t, c, l, t.procs[p].pc.i);
    hide Inv;
    if Asleep(Next(t, s).value, j, c, l) { StepPutsToSleep(t, s, j, c, l); }
  }

  // The same, when it is p that moves on in its scan: it has met proc[j] now, or before.
  lemma ScanSelf(t: Table, s: Step, l: LockId, j: nat)
    requires Inv(t) && Next(t, s).Some? && j < |t.procs|
    requires var u := Next(t, s).value;
             s.p < |u.procs| && (u.procs[s.p].pc.Waking? || u.procs[s.p].pc.Testing?) && l in Holds(u, s.p)
                 && j < u.procs[s.p].pc.i
    ensures var u := Next(t, s).value; j < |u.procs| && !Asleep(u, j, u.procs[s.p].pc.c, l)
  {
    hide Fits, Asleep;
    var x := t.procs[s.p].pc;
    ScanMoves(t, s);
    if j < x.i { assert !Asleep(t, j, x.c, l) by { assert NoneAsleep(t, x.c, l, x.i); } }
    hide Next, Inv;
    if s.WakeLock? { LockWakes(t, s, j, x.c, l); } else { TestWakes(t, s, j, x.c, l); }
  }

  lemma ScanMoves(t: Table, s: Step)
    requires Next(t, s).Some?
    requires var u := Next(t, s).value; s.p < |u.procs| && (u.procs[s.p].pc.Waking? || u.procs[s.p].pc.Testing?)
    ensures var u := Next(t, s).value;
            && s.p < |t.procs| == |u.procs|
            && (s.CallWakeup? || s.WakeLock? || s.WakeTest?)
  {
  }

  // Taking proc[i]'s lock puts nobody to sleep, and the waker itself is not asleep.
  lemma LockWakes(t: Table, s: Step, j: nat, c: Chan, l: LockId)
    requires s.WakeLock? && Next(t, s).Some? && j < |t.procs|
    requires j < t.procs[s.p].pc.i ==> !Asleep(t, j, c, l)
    requires j < Next(t, s).value.procs[s.p].pc.i
    ensures j < |Next(t, s).value.procs| && !Asleep(Next(t, s).value, j, c, l)
  {
  }

  // Testing proc[i] wakes it when it sleeps on c.
  lemma TestWakes(t: Table, s: Step, j: nat, c: Chan, l: LockId)
    requires s.WakeTest? && Inv(t) && Next(t, s).Some? && j < |t.procs| && t.procs[s.p].pc.c == c
    requires j < t.procs[s.p].pc.i ==> !Asleep(t, j, c, l)
    requires j <= t.procs[s.p].pc.i
    ensures j < |Next(t, s).value.procs| && !Asleep(Next(t, s).value, j, c, l)
  {
    assert Fits(t, s.p) && Fits(t, j);
    hide Inv;
  }

  lemma ScanStep(t: Table, s: Step, p: nat, l: LockId, j: nat)
    requires Inv(t) && Next(t, s).Some? && p < |t.procs| && j < |t.procs|
    requires var u := Next(t, s).value;
             p < |u.procs| && (u.procs[p].pc.Waking? || u.procs[p].pc.Testing?) && l in Holds(u, p)
                 && j < u.procs[p].pc.i
    ensures var u := Next(t, s).value; j < |u.procs| && !Asleep(u, j, u.procs[p].pc.c, l)
  {
    hide Next, Inv, Fits, Asleep;
    if p == s.p { ScanSelf(t, s, l, j); } else { ScanOther(t, s, p, l, j); }
  }

  lemma StepKeepsDone(t: Table, s: Step)
    requires Inv(t) && Next(t, s).Some?
    ensures var u := Next(t, s).value;
            forall d :: d in u.done ==> d.2 in u.held && u.held[d.2] == d.0 && NoneAsleep(u, d.1, d.2, |u.procs|)
  {

    hide Next, Inv, Asleep;
    var u := Next(t, s).value;
    forall d | d in u.done ensures d.2 in u.held && u.held[d.2] == d.0 {
      DoneHeld(t, s, d);
    }
    forall d, j | d in u.done && 0 <= j < |u.procs| ensures !Asleep(u, j, d.1, d.2) {
      DoneStep(t, s, d, j);
    }
  }

  // What has been done since taking a lock goes with the lock.
  lemma DoneHeld(t: Table, s: Step, d: (nat, Chan, LockId))
    requires Inv(t) && Next(t, s).Some? && d in Next(t, s).value.done
    ensures d.2 in Next(t, s).value.held && Next(t, s).value.held[d.2] == d.0
  {
    assert Fits(t, s.p);
    assert d in t.done ==> d.2 in t.held && t.held[d.2] == d.0;
    hide Inv;
  }

  lemma DoneStep(t: Table, s: Step, d: (nat, Chan, LockId), j: nat)
    requires Inv(t) && Next(t, s).Some? && d in Next(t, s).value.done && j < |t.procs|
    ensures !Asleep(Next(t, s).value, j, d.1, d.2)
  {
    var u := Next(t, s).value;
    if d in t.done {
      assert NoneAsleep(t, d.1, d.2, |t.procs|);
    } else {
      assert s.WakeReturn? && d.0 == s.p && d.2 in Holds(t, s.p) && d.1 == t.procs[s.p].pc.c;
      assert NoneAsleep(t, d.1, d.2, t.procs[s.p].pc.i);
    }
    if Asleep(u, j, d.1, d.2) && !Asleep(t, j, d.1, d.2) {
      StepPutsToSleep(t, s, j, d.1, d.2);
    }
  }

  // What is done leaves nobody asleep there.
  lemma DoneMeans(t: Table, p: nat, c: Chan, l: LockId, j: nat)
    requires Inv(t) && (p, c, l) in t.done && j < |t.procs|
    ensures !Asleep(t, j, c, l)
  {
    hide Fits, Asleep;
    var d := (p, c, l);
    assert NoneAsleep(t, d.1, d.2, |t.procs|);
  }

  lemma StepKeeps(t: Table, s: Step)
    requires Inv(t) && Next(t, s).Some?
    ensures Inv(Next(t, s).value)
  {
    StepKeepsFits(t, s);
    StepKeepsScan(t, s);
    StepKeepsDone(t, s);
  }

  // ---- whole runs ----

  function Stepped(t: Table, s: Step): (o: Option<Table>)
    requires Inv(t)
    ensures o == Next(t, s) && (o.Some? ==> Inv(o.value) && |o.value.procs| == |t.procs|)
  {
    hide Next, Inv;
    assert Next(t, s).Some? ==> Inv(Next(t, s).value) && |Next(t, s).value.procs| == |t.procs| by {
      if Next(t, s).Some? { StepKeeps(t, s); }
    }
    Next(t, s)
  }

  function Exec(t: Table, ss: seq<Step>): (o: Option<Table>)
    requires Inv(t)
    ensures o.Some? ==> Inv(o.value) && |o.value.procs| == |t.procs|
  {
    if ss == [] then Some(t) else
    match Exec(t, ss[..|ss| - 1])
    case None => None
    case Some(m) =>
      Stepped(m, ss[|ss| - 1])
  }

  /** No lost wakeup.  In every run, when wakeup(c) returns to a caller p that holds l, no
      process that released l inside sleep(c, l) is still asleep; and this stays so, whatever
      the others do, until p releases l. */
  lemma NoLostWakeup(t: Table, before: seq<Step>, p: nat, after: seq<Step>, c: Chan, l: LockId)
    requires Inv(t) && p < |t.procs|
    requires Exec(t, before).Some? && Exec(t, before).value.procs[p].pc == Waking(c, |t.procs|)
    requires l in Holds(Exec(t, before).value, p)
    requires Exec(t, before + [WakeReturn(p)] + after).Some?
    requires forall s :: s in after ==> s != Release(p, l) && !(s == SleepRelease(p))
    ensures var u := Exec(t, before + [WakeReturn(p)] + after).value;
            l in Holds(u, p) && NoneAsleep(u, c, l, |t.procs|)
    decreases |after|
  {
    hide Inv, NoneAsleep;
    var b := before + [WakeReturn(p)];
    assert b[..|b| - 1] == before;
    assert Exec(t, b).Some? by { PrefixRuns(t, b, after); }
    assert (p, c, l) in Exec(t, b).value.done;
    DoneStays(t, b, after, p, c, l);
    DoneHolds(Exec(t, b + after).value, p, c, l);
  }

  lemma {:induction false} PrefixRuns(t: Table, a: seq<Step>, b: seq<Step>)
    requires Inv(t) && Exec(t, a + b).Some?
    ensures Exec(t, a).Some?
  {
    hide Inv, Next;
    if b == [] {
      assert a + b == a;
    } else {
      assert (a + b)[..|a + b| - 1] == a + b[..|b| - 1];
      PrefixRuns(t, a, b[..|b| - 1]);
    }
  }

  lemma DoneHolds(t: Table, p: nat, c: Chan, l: LockId)
    requires Inv(t) && (p, c, l) in t.done
    ensures l in Holds(t, p) && NoneAsleep(t, c, l, |t.procs|)
  {
    hide Fits, NoneAsleep;
    var d := (p, c, l);
    assert d.2 in t.held;
  }

  // What p has done under l stays done until p releases l.
  lemma DoneSurvives(t: Table, s: Step, d: (nat, Chan, LockId))
    requires Inv(t) && Next(t, s).Some? && d in t.done
    requires s != Release(d.0, d.2) && s != SleepRelease(d.0)
    ensures d in Next(t, s).value.done
  {
    assert d.2 in t.held && t.held[d.2] == d.0;
    if s.SleepRelease? { assert Fits(t, s.p); }
  }

  lemma {:induction false} DoneStays(t: Table, b: seq<Step>, after: seq<Step>, p: nat, c: Chan, l: LockId)
    requires Inv(t) && p < |t.procs| && Exec(t, b).Some? && (p, c, l) in Exec(t, b).value.done
    requires Exec(t, b + after).Some?
    requires forall s :: s in after ==> s != Release(p, l) && !(s == SleepRelease(p))
    ensures (p, c, l) in Exec(t, b + after).value.done
  {
    hide Next, Inv;
    if after == [] {
      assert b + after == b;
    } else {
      var n := |after| - 1;
      assert (b + after)[..|b + after| - 1] == b + after[..n];
      assert Exec(t, b + after[..n]).Some?;
      assert forall s :: s in after[..n] ==> s in after;
      DoneStays(t, b, after[..n], p, c, l);
      assert after[n] in after;
      DoneSurvives(Exec(t, b + after[..n]).value, after[n], (p, c, l));
    }
  }
}
