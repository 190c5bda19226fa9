/** proc.c's process table as an interleaved machine: sleep, wakeup, sched, the scheduler,
    yield, kill, and the status changes of fork, exit and wait, one lock operation or one
    locked update per step. */
module ProcTable {
  import opened Basics

  datatype Status = UNUSED | USED | SLEEPING | RUNNABLE | RUNNING | ZOMBIE

  type Chan = nat          // an address; 0 is none
  type LockId = nat        // a spinlock other than the p->lock ones

  /** Where a process is inside the functions of proc.c; c and l are sleep's arguments. */
  datatype Pc =
    | Run                              // in none of them
    | Enter(c: Chan, l: LockId)        // sleep: about to acquire p->lock, lk held
    | Locked(c: Chan, l: LockId)       // p->lock and lk held
    | Released(c: Chan, l: LockId)     // lk released, chan and state not set yet
    | Marked(c: Chan, l: LockId)       // SLEEPING, still holding p->lock, in sched
    | Parked(c: Chan, l: LockId)       // the scheduler has released p->lock
    | Woken(l: LockId)                 // scheduled again, with p->lock held
    | Reacquire(l: LockId)             // p->lock released, about to acquire lk
    | Waking(c: Chan, i: nat)          // wakeup: the loop is at proc[i]
    | Testing(c: Chan, i: nat)         // wakeup: proc[i].lock held
    | Yielded                          // yield: RUNNABLE and off the CPU
    | Embryo                           // made by fork, not yet scheduled
    | Exiting                          // exit: ZOMBIE, still holding p->lock, in sched
    | Gone                             // no thread of control

  datatype Proc = Proc(status: Status, chan: Chan, killed: bool, lock: Option<nat>, pc: Pc)

  /** held maps each held spinlock to its holder.  done is history: (p, c, l) is in it when p
      has completed wakeup(c) since it acquired l. */
  datatype Table = Table(procs: seq<Proc>, held: map<LockId, nat>, done: set<(nat, Chan, LockId)>)

  datatype Step =
    | Acquire(p: nat, l: LockId)
    | Release(p: nat, l: LockId)
    | CallSleep(p: nat, c: Chan, l: LockId)
    | SleepLock(p: nat)                // takes its own p->lock
    | SleepRelease(p: nat)             // release(lk)
    | SleepMark(p: nat)                // sets channel and state
    | SchedDrop(p: nat)                // the scheduler releases p->lock
    | Schedule(p: nat)                 // the scheduler finds p RUNNABLE and switches to it
    | SleepTidy(p: nat)                // clears the channel and lets its p->lock go
    | SleepReturn(p: nat)              // acquire(lk)
    | CallWakeup(p: nat, c: Chan)
    | WakeLock(p: nat)                 // takes the lock of proc[i], or skips itself
    | WakeTest(p: nat)                 // tests proc[i] and lets its lock go
    | WakeReturn(p: nat)
    | Yield(p: nat)
    | Kill(p: nat, i: nat)             // the locked part of kill, for target i
    | LockProc(p: nat, i: nat)         // takes the lock of proc[i]
    | UnlockProc(p: nat, i: nat)
    | Spawn(p: nat, i: nat)            // allocproc: UNUSED to USED
    | Start(p: nat, i: nat)            // fork: USED to RUNNABLE
    | MarkZombie(p: nat)               // exit: becomes a zombie
    | Reap(p: nat, i: nat)             // freeproc of a zombie, or of an embryo

  function Holds(t: Table, p: nat): set<LockId> {
    set l | l in t.held && t.held[l] == p
  }

  function Put(t: Table, i: nat, x: Proc): Table
    requires i < |t.procs|
  {
    t.(procs := t.procs[i := x])
  }

  function SetPc(t: Table, p: nat, pc: Pc): Table
    requires p < |t.procs|
  {
    Put(t, p, t.procs[p].(pc := pc))
  }

  // Releasing l ends what p has done since acquiring it.
  function DropLock(t: Table, p: nat, l: LockId): Table {
    t.(held := t.held - {l}, done := set d | d in t.done && !(d.0 == p && d.2 == l))
  }

  // The steps of sleep and of the scheduler.
  predicate InSleep(s: Step) {
    s.SleepLock? || s.SleepRelease? || s.SleepMark? || s.SchedDrop? || s.Schedule? || s.SleepTidy? || s.SleepReturn?
  }

  predicate InWake(s: Step) {
    s.CallWakeup? || s.WakeLock? || s.WakeTest? || s.WakeReturn?
  }

  // The steps that look at or change another entry of the table.
  predicate OnEntry(s: Step) {
    s.Kill? || s.LockProc? || s.UnlockProc? || s.Spawn? || s.Start? || s.MarkZombie? || s.Reap?
  }

  function SleepNext(t: Table, s: Step): (o: Option<Table>)
    requires s.p < |t.procs| && InSleep(s)
    ensures o.Some? ==> |o.value.procs| == |t.procs|
  {
    var p := s.p;
    var x := t.procs[p];
    match s
    case SleepLock(_) =>
      if x.pc.Enter? && x.lock.None?
      then Some(Put(t, p, x.(lock := Some(p), pc := Locked(x.pc.c, x.pc.l)))) else None
    case SleepRelease(_) =>
      if x.pc.Locked? then Some(SetPc(DropLock(t, p, x.pc.l), p, Released(x.pc.c, x.pc.l))) else None
    case SleepMark(_) =>
      if x.pc.Released?
      then Some(Put(t, p, x.(chan := x.pc.c, status := SLEEPING, pc := Marked(x.pc.c, x.pc.l)))) else None
    case SchedDrop(_) =>
      if x.pc.Marked? then Some(Put(t, p, x.(lock := None, pc := Parked(x.pc.c, x.pc.l))))
      else if x.pc.Exiting? then Some(Put(t, p, x.(lock := None, pc := Gone)))
      else None
    case Schedule(_) =>
      if x.status.RUNNABLE? && x.lock.None? then
        (match x.pc
         case Parked(c, l) => Some(Put(t, p, x.(status := RUNNING, lock := Some(p), pc := Woken(l))))
         case Yielded => Some(Put(t, p, x.(status := RUNNING, pc := Run)))
         case Embryo => Some(Put(t, p, x.(status := RUNNING, pc := Run)))
         case _ => None)
      else None
    case SleepTidy(_) =>
      if x.pc.Woken? then Some(Put(t, p, x.(chan := 0, lock := None, pc := Reacquire(x.pc.l)))) else None
    case SleepReturn(_) =>
      if x.pc.Reacquire? && x.pc.l !in t.held
      then Some(SetPc(t.(held := t.held[x.pc.l := p]), p, Run)) else None
  }

  function WakeNext(t: Table, s: Step): (o: Option<Table>)
    requires s.p < |t.procs| && InWake(s)
    ensures o.Some? ==> |o.value.procs| == |t.procs|
  {
    var p := s.p;
    var x := t.procs[p];
    match s
    case CallWakeup(_, c) =>
      if x.pc.Run? then Some(SetPc(t, p, Waking(c, 0))) else None
    case WakeLock(_) =>
      if x.pc.Waking? && x.pc.i < |t.procs| then
        if x.pc.i == p then Some(SetPc(t, p, Waking(x.pc.c, x.pc.i + 1)))
        else if t.procs[x.pc.i].lock.None?
        then Some(SetPc(Put(t, x.pc.i, t.procs[x.pc.i].(lock := Some(p))), p, Testing(x.pc.c, x.pc.i)))
        else None
      else None
    case WakeTest(_) =>
      if x.pc.Testing? && x.pc.i < |t.procs| then
        var y := t.procs[x.pc.i];
        var woken := if y.status.SLEEPING? && y.chan == x.pc.c then y.(status := RUNNABLE) else y;
        Some(SetPc(Put(t, x.pc.i, woken.(lock := None)), p, Waking(x.pc.c, x.pc.i + 1)))
      else None
    case WakeReturn(_) =>
      if x.pc.Waking? && x.pc.i == |t.procs|
      then Some(SetPc(t.(done := t.done + set l | l in Holds(t, p) :: (p, x.pc.c, l)), p, Run)) else None
  }

  function EntryNext(t: Table, s: Step): (o: Option<Table>)
    requires s.p < |t.procs| && OnEntry(s)
    ensures o.Some? ==> |o.value.procs| == |t.procs|
  {
    var p := s.p;
    var x := t.procs[p];
    match s
    case Kill(_, i) =>
      if x.pc.Run? && i < |t.procs| && t.procs[i].lock.None? then
        var y := t.procs[i];
        Some(Put(t, i, y.(killed := true, status := if y.status.SLEEPING? then RUNNABLE else y.status)))
      else None
    case LockProc(_, i) =>
      if x.pc.Run? && i < |t.procs| && t.procs[i].lock.None?
      then Some(Put(t, i, t.procs[i].(lock := Some(p)))) else None
    case UnlockProc(_, i) =>
      if x.pc.Run? && i < |t.procs| && t.procs[i].lock == Some(p)
      then Some(Put(t, i, t.procs[i].(lock := None))) else None
    case Spawn(_, i) =>
      if x.pc.Run? && i < |t.procs| && t.procs[i].lock == Some(p) && t.procs[i].status.UNUSED?
      then Some(Put(t, i, t.procs[i].(status := USED, pc := Embryo))) else None
    case Start(_, i) =>
      if x.pc.Run? && i < |t.procs| && t.procs[i].lock == Some(p) && t.procs[i].status.USED?
      then Some(Put(t, i, t.procs[i].(status := RUNNABLE))) else None
    case MarkZombie(_) =>
      if x.pc.Run? && x.lock == Some(p) then Some(Put(t, p, x.(status := ZOMBIE, pc := Exiting))) else None
    case Reap(_, i) =>
      if x.pc.Run? && i < |t.procs| && t.procs[i].lock == Some(p)
        && (t.procs[i].status.ZOMBIE? || t.procs[i].status.USED?)
      then Some(Put(t, i, t.procs[i].(status := UNUSED, chan := 0, killed := false, pc := Gone))) else None
  }

  function LockNext(t: Table, s: Step): (o: Option<Table>)
    requires s.p < |t.procs| && !InSleep(s) && !InWake(s) && !OnEntry(s)
    ensures o.Some? ==> |o.value.procs| == |t.procs|
  {
    var p := s.p;
    var x := t.procs[p];
    match s
    case Acquire(_, l) =>
      if x.pc.Run? && l !in t.held then Some(t.(held := t.held[l := p])) else None
    case Release(_, l) =>
      if (x.pc.Run? || x.pc.Exiting?) && l in t.held && t.held[l] == p then Some(DropLock(t, p, l)) else None
    case CallSleep(_, c, l) =>
      if x.pc.Run? && l in t.held && t.held[l] == p then Some(SetPc(t, p, Enter(c, l))) else None
    case Yield(_) =>
      if x.pc.Run? && x.lock.None? && Holds(t, p) == {}
      then Some(Put(t, p, x.(status := RUNNABLE, pc := Yielded))) else None
  }

  /** One step of process p (or of the scheduler on its behalf); None if it is not enabled. */
  function Next(t: Table, s: Step): (o: Option<Table>)
    ensures o.Some? ==> |o.value.procs| == |t.procs|
  {
    if s.p >= |t.procs| then None
    else if InSleep(s) then SleepNext(t, s)
    else if InWake(s) then WakeNext(t, s)
    else if OnEntry(s) then EntryNext(t, s)
    else LockNext(t, s)
  }

  /** j has released l inside sleep(c, l) and nobody has woken it. */
  predicate Asleep(t: Table, j: nat, c: Chan, l: LockId)
    requires j < |t.procs|
  {
    var y := t.procs[j];
    y.pc == Released(c, l) || y.pc == Marked(c, l) || (y.pc == Parked(c, l) && y.status.SLEEPING?)
  }

  predicate NoneAsleep(t: Table, c: Chan, l: LockId, n: nat) {
    forall j :: 0 <= j < n && j < |t.procs| ==> !Asleep(t, j, c, l)
  }

  // One process: its status, chan and lock fit where it is.
  predicate Fits(t: Table, j: nat)
    requires j < |t.procs|
  {
    var y := t.procs[j];
    match y.pc
    case Run => y.status.RUNNING?
    case Enter(c, l) => y.status.RUNNING? && l in t.held && t.held[l] == j
    case Locked(c, l) => y.status.RUNNING? && y.lock == Some(j) && l in t.held && t.held[l] == j
    case Released(c, l) => y.status.RUNNING? && y.lock == Some(j)
    case Marked(c, l) => y.status.SLEEPING? && y.chan == c && y.lock == Some(j)
    case Parked(c, l) => (y.status.SLEEPING? || y.status.RUNNABLE?) && y.chan == c && y.lock != Some(j)
    case Woken(l) => y.status.RUNNING? && y.lock == Some(j)
    case Reacquire(l) => y.status.RUNNING?
    case Waking(c, i) => y.status.RUNNING? && i <= |t.procs|
    case Testing(c, i) => y.status.RUNNING? && i < |t.procs| && i != j && t.procs[i].lock == Some(j)
    case Yielded => y.status.RUNNABLE?
    case Embryo => y.status.USED? || y.status.RUNNABLE?
    case Exiting => y.status.ZOMBIE? && y.lock == Some(j)
    case Gone => y.status.UNUSED? || y.status.ZOMBIE?
  }

  /** The invariant.  A waker that holds l has nobody asleep on (c, l) behind its scan, and
      nobody at all once the scan is done, for as long as it keeps l. */
  predicate Inv(t: Table) {
    && (forall j :: 0 <= j < |t.procs| ==> Fits(t, j))
    && (forall l :: l in t.held ==> t.held[l] < |t.procs|)
    && (forall p, l :: 0 <= p < |t.procs| && (t.procs[p].pc.Waking? || t.procs[p].pc.Testing?) && l in Holds(t, p) ==>
          NoneAsleep(t, t.procs[p].pc.c, l, t.procs[p].pc.i))
    && (forall d :: d in t.done ==> d.2 in t.held && t.held[d.2] == d.0 && NoneAsleep(t, d.1, d.2, |t.procs|))
  }

  // In sleep with lock l.
  predicate SleepsWith(pc: Pc, l: LockId) {
    match pc
    case Enter(_, m) => m == l
    case Locked(_, m) => m == l
    case Released(_, m) => m == l
    case Marked(_, m) => m == l
    case Parked(_, m) => m == l
    case Woken(m) => m == l
    case Reacquire(m) => m == l
    case _ => false
  }

  // In sleep on channel c, as far as pc still tells.
  predicate SleepsOn(pc: Pc, c: Chan) {
    match pc
    case Enter(d, _) => d == c
    case Locked(d, _) => d == c
    case Released(d, _) => d == c
    case Marked(d, _) => d == c
    case Parked(d, _) => d == c
    case _ => true
  }

  // In wakeup(c).
  predicate InWakeup(pc: Pc, c: Chan) {
    match pc
    case Waking(d, _) => d == c
    case Testing(d, _) => d == c
    case _ => false
  }
}
