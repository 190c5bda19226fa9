/** No process inside sleep, wakeup, yield or exit is stuck by itself: it can take its next step unless
    it waits for a lock that is held, for a wakeup, or for somebody to make it runnable. */
module ProcProgress {
  import opened Basics
  import opened ProcTable

  /** What keeps process p where it is: its own lock or the one its wakeup loop takes next is held, the
      lock sleep gives back is held, or the scheduler may not choose it. */
  predicate Waits(t: Table, p: nat)
    requires p < |t.procs|
  {
    var x := t.procs[p];
    match x.pc
    case Enter(_, _) => x.lock.Some?
    case Parked(_, _) => x.status.SLEEPING? || x.lock.Some?
    case Yielded => x.lock.Some?
    case Embryo => !x.status.RUNNABLE? || x.lock.Some?
    case Reacquire(l) => l in t.held
    case Waking(_, i) => i < |t.procs| && i != p && t.procs[i].lock.Some?
    case Gone => true
    case _ => false
  }

  /** The step of proc.c that comes next at pc; none for a process outside. */
  function NextStep(pc: Pc, p: nat, n: nat): Option<Step> {
    match pc
    case Run => None
    case Enter(_, _) => Some(SleepLock(p))
    case Locked(_, _) => Some(SleepRelease(p))
    case Released(_, _) => Some(SleepMark(p))
    case Marked(_, _) => Some(SchedDrop(p))
    case Parked(_, _) => Some(Schedule(p))
    case Woken(_) => Some(SleepTidy(p))
    case Reacquire(_) => Some(SleepReturn(p))
    case Waking(_, i) => Some(if i < n then WakeLock(p) else WakeReturn(p))
    case Testing(_, _) => Some(WakeTest(p))
    case Yielded => Some(Schedule(p))
    case Embryo => Some(Schedule(p))
    case Exiting => Some(SchedDrop(p))
    case Gone => None
  }

  /** Where that step leads. */
  predicate Leads(a: Pc, b: Pc, p: nat) {
    match a
    case Run => false
    case Enter(c, l) => b == Locked(c, l)
    case Locked(c, l) => b == Released(c, l)
    case Released(c, l) => b == Marked(c, l)
    case Marked(c, l) => b == Parked(c, l)
    case Parked(_, l) => b == Woken(l)
    case Woken(l) => b == Reacquire(l)
    case Reacquire(_) => b.Run?
    case Waking(c, i) => b == Testing(c, i) || (i == p && b == Waking(c, i + 1)) || b.Run?
    case Testing(c, i) => b == Waking(c, i + 1)
    case Yielded => b.Run?
    case Embryo => b.Run?
    case Exiting => b.Gone?
    case Gone => false
  }

  lemma WakerGoes(t: Table, p: nat)
    requires p < |t.procs| && Fits(t, p) && !Waits(t, p) && (t.procs[p].pc.Waking? || t.procs[p].pc.Testing?)
    ensures var o := Next(t, NextStep(t.procs[p].pc, p, |t.procs|).value);
            o.Some? && p < |o.value.procs| && Leads(t.procs[p].pc, o.value.procs[p].pc, p)
  {
  }

  lemma SleeperGoes(t: Table, p: nat)
    requires p < |t.procs| && Fits(t, p) && !Waits(t, p)
    requires !t.procs[p].pc.Run? && !t.procs[p].pc.Waking? && !t.procs[p].pc.Testing?
    ensures var o := Next(t, NextStep(t.procs[p].pc, p, |t.procs|).value);
            o.Some? && p < |o.value.procs| && Leads(t.procs[p].pc, o.value.procs[p].pc, p)
  {
  }

  /** A process that does not wait goes on, one place further in the function it is in. */
  lemma GoesOn(t: Table, p: nat)
    requires Inv(t) && p < |t.procs| && !Waits(t, p) && !t.procs[p].pc.Run?
    ensures NextStep(t.procs[p].pc, p, |t.procs|).Some?
    ensures var o := Next(t, NextStep(t.procs[p].pc, p, |t.procs|).value);
            o.Some? && p < |o.value.procs| && Leads(t.procs[p].pc, o.value.procs[p].pc, p)
  {
    assert Fits(t, p);
    hide Inv, Fits, Next, Leads;
    if t.procs[p].pc.Waking? || t.procs[p].pc.Testing? { WakerGoes(t, p); } else { SleeperGoes(t, p); }
  }

  /** What the steps that a process takes outside these functions need. */
  predicate Ready(t: Table, s: Step) {
    && s.p < |t.procs|
    && var pc := t.procs[s.p].pc;
       match s
       case Acquire(_, l) => pc.Run? && l !in t.held
       case Release(p, l) => (pc.Run? || pc.Exiting?) && l in t.held && t.held[l] == p
       case CallSleep(p, _, l) => pc.Run? && l in t.held && t.held[l] == p
       case CallWakeup(_, _) => pc.Run?
       case WakeReturn(_) => pc.Waking? && pc.i == |t.procs|
       case LockProc(_, i) => pc.Run? && i < |t.procs| && t.procs[i].lock.None?
       case UnlockProc(p, i) => pc.Run? && i < |t.procs| && t.procs[i].lock == Some(p)
       case Spawn(p, i) => pc.Run? && i < |t.procs| && t.procs[i].lock == Some(p) && t.procs[i].status.UNUSED?
       case Start(p, i) => pc.Run? && i < |t.procs| && t.procs[i].lock == Some(p) && t.procs[i].status.USED?
       case MarkZombie(p) => pc.Run? && t.procs[p].lock == Some(p)
       case Reap(p, i) =>
         && pc.Run? && i < |t.procs| && t.procs[i].lock == Some(p)
         && (t.procs[i].status.ZOMBIE? || t.procs[i].status.USED?)
       case _ => false
  }

  lemma ReadyGoes(t: Table, s: Step)
    requires Ready(t, s)
    ensures Next(t, s).Some?
  {
  }

  /** kill(i): the target is marked, and does not stay asleep. */
  lemma KillWakes(t: Table, p: nat, i: nat)
    requires p < |t.procs| && t.procs[p].pc.Run? && i < |t.procs| && t.procs[i].lock.None?
    ensures var o := Next(t, Kill(p, i));
            && o.Some? && i < |o.value.procs| && o.value.procs[i].killed && !o.value.procs[i].status.SLEEPING?
            && o.value.procs[i].pc == t.procs[i].pc
  {
  }

  /** wakeup's test of one entry: exactly a sleeper on the channel becomes runnable. */
  lemma TestWakes(t: Table, p: nat)
    requires p < |t.procs| && t.procs[p].pc.Testing? && t.procs[p].pc.i < |t.procs| && t.procs[p].pc.i != p
    ensures var i, o := t.procs[p].pc.i, Next(t, WakeTest(p));
            && o.Some? && i < |o.value.procs|
            && o.value.procs[i].status ==
               if t.procs[i].status.SLEEPING? && t.procs[i].chan == t.procs[p].pc.c then RUNNABLE else t.procs[i].status
  {
  }

  predicate Clean(x: Proc) {
    x.status.UNUSED? ==> !x.killed && x.chan == 0
  }

  /** A free entry is clean: who gets it next has not been killed before it starts. */
  lemma CleanKept(t: Table, s: Step, i: nat)
    requires Inv(t) && Next(t, s).Some? && i < |t.procs| && Clean(t.procs[i]) && !(s.Kill? && s.i == i)
    ensures i < |Next(t, s).value.procs| && Clean(Next(t, s).value.procs[i])
  {
  }

  // ---- how much is left ----

  /** Steps left, at most, in the function of proc.c that a process is in. */
  function PcLeft(pc: Pc, n: nat): nat {
    match pc
    case Gone => 0
    case Exiting => 1
    case Reacquire(_) => 2
    case Woken(_) => 3
    case Parked(_, _) => 4
    case Marked(_, _) => 5
    case Released(_, _) => 6
    case Locked(_, _) => 7
    case Enter(_, _) => 8
    case Waking(_, i) => if i <= n then 2 * (n - i) else 0
    case Testing(_, i) => if i < n then 2 * (n - i) - 1 else 0
    case Run => 2 * n + 9
    case Yielded => 2 * n + 10
    case Embryo => 2 * n + 10
  }

  /** Each step inside such a function, and each call of one, leaves less. */
  lemma LeavesLess(t: Table, s: Step)
    requires Inv(t) && Next(t, s).Some? && s.p < |t.procs|
    requires InSleep(s) || s.WakeLock? || s.WakeTest? || s.CallWakeup? || s.CallSleep?
    ensures var u, n := Next(t, s).value, |t.procs|;
            s.p < |u.procs| && (s.SleepReturn? || PcLeft(u.procs[s.p].pc, n) < PcLeft(t.procs[s.p].pc, n))
  {
    assert Fits(t, s.p);
  }

  // ---- what is left behind ----

  /** A process that has come out of sleep or exit, or is off the processor, does not hold its own lock;
      and only one that is asleep or just waking has a channel. */
  predicate LeftTidy(t: Table, p: nat)
    requires p < |t.procs|
  {
    var x := t.procs[p];
    && (x.pc.Parked? || x.pc.Reacquire? || x.pc.Yielded? || x.pc.Embryo? || x.pc.Gone? ==> x.lock != Some(p))
    && (x.chan == 0 || x.pc.Marked? || x.pc.Parked? || x.pc.Woken?)
  }

  lemma TidyAsleep(t: Table, s: Step, p: nat)
    requires s.p < |t.procs| && Next(t, s).Some? && p < |t.procs| && LeftTidy(t, p) && Fits(t, p) && Fits(t, s.p)
    requires InSleep(s)
    ensures p < |Next(t, s).value.procs| && LeftTidy(Next(t, s).value, p)
  {
    hide WakeNext, EntryNext, LockNext;
  }

  lemma TidyAwake(t: Table, s: Step, p: nat)
    requires s.p < |t.procs| && Next(t, s).Some? && p < |t.procs| && LeftTidy(t, p) && Fits(t, p) && Fits(t, s.p)
    requires InWake(s)
    ensures p < |Next(t, s).value.procs| && LeftTidy(Next(t, s).value, p)
  {
    hide SleepNext, EntryNext, LockNext;
  }

  lemma TidyEntry(t: Table, s: Step, p: nat)
    requires s.p < |t.procs| && Next(t, s).Some? && p < |t.procs| && LeftTidy(t, p) && Fits(t, p) && Fits(t, s.p)
    requires OnEntry(s)
    ensures p < |Next(t, s).value.procs| && LeftTidy(Next(t, s).value, p)
  {
    hide SleepNext, WakeNext, LockNext;
  }

  lemma TidyLock(t: Table, s: Step, p: nat)
    requires s.p < |t.procs| && Next(t, s).Some? && p < |t.procs| && LeftTidy(t, p) && Fits(t, p) && Fits(t, s.p)
    requires !InSleep(s) && !InWake(s) && !OnEntry(s)
    ensures p < |Next(t, s).value.procs| && LeftTidy(Next(t, s).value, p)
  {
    hide SleepNext, WakeNext, EntryNext;
  }

  lemma TidyKept(t: Table, s: Step, p: nat)
    requires Inv(t) && Next(t, s).Some? && p < |t.procs| && s.p < |t.procs| && LeftTidy(t, p)
    ensures p < |Next(t, s).value.procs| && LeftTidy(Next(t, s).value, p)
  {
    assert Fits(t, p) && Fits(t, s.p);
    hide Inv, Fits, Next, LeftTidy;
    if InSleep(s) { TidyAsleep(t, s, p); }
    else if InWake(s) { TidyAwake(t, s, p); }
    else if OnEntry(s) { TidyEntry(t, s, p); }
    else { TidyLock(t, s, p); }
  }
}
