/** fork, exit and wait over the process table. */
module WaitExit {
  import opened Basics
  import opened ProcTable
  import opened ProcSafety

  const WAIT: LockId := 0          // wait_lock

  /** Where a process is in fork, exit or wait; elsewhere it does what it likes with locks and
      channels of its own. */
  datatype Prog =
    | User
    | WaitScan(i: nat, kids: bool) // wait_lock held, the loop is at proc[i]
    | WaitTest(i: nat, kids: bool) // proc[i] is a child, its lock held too
    | WaitFreed(i: nat)            // lets the child's lock go next
    | WaitLeave                    // lets wait_lock go next
    | WaitSleep                    // asleep with wait_lock
    | ExitScan(i: nat)             // reparent, the loop is at proc[i]
    | ExitTellInit(i: nat)         // reparent has moved proc[i] and calls wakeup(initproc)
    | ExitTell                     // waking its parent
    | ExitLock                     // takes its own lock next
    | ExitMark
    | ExitRelease                  // lets wait_lock go next
    | ExitDone                     // in sched, for good
    | ForkLocked(i: nat)           // allocproc holds proc[i].lock
    | ForkMade(i: nat)             // and has made it USED
    | ForkFailed(i: nat)           // or has freed it again
    | ForkLink(i: nat)             // proc[i].lock released, takes wait_lock next
    | ForkSet(i: nat)
    | ForkLinked(i: nat)           // the parent is set, lets wait_lock go next
    | ForkStart(i: nat)            // takes the child's lock next
    | ForkGo(i: nat)
    | ForkEnd(i: nat)              // lets the child's lock go next

  datatype World = World(t: Table, parent: seq<Option<nat>>, prog: seq<Prog>, init: nat)

  datatype Event = Kernel(s: Step) | Do(p: nat, k: nat)

  function Address(p: Option<nat>): Chan {
    match p case None => 0 case Some(j) => j + 1
  }

  /** What an event asks for: a kernel step if it has one, where its process is afterwards, and
      the parent fields afterwards. */
  datatype Move = Move(op: Option<Step>, next: Prog, parent: seq<Option<nat>>)

  predicate Sized(w: World) {
    |w.t.procs| == |w.parent| == |w.prog| && w.init < |w.prog|
  }

  function Does(w: World, s: Step, g: Prog): Option<Move> {
    Some(Move(Some(s), g, w.parent))
  }

  function Goes(w: World, g: Prog): Option<Move> {
    Some(Move(None, g, w.parent))
  }

  // Steps inside sleep, wakeup and the scheduler, and everything unrelated to wait_lock.
  function KernelMove(w: World, s: Step): Option<Move>
    requires Sized(w) && s.p < |w.prog|
  {
    var g := w.prog[s.p];
    match s
    case SleepReturn(_) => Does(w, s, if g.WaitSleep? then WaitScan(0, false) else g)
    case SchedDrop(_) => if g.ExitRelease? then None else Does(w, s, g)
    case Yield(_) => if g.User? || g.ForkLink? || g.ForkStart? then Does(w, s, g) else None
    case Acquire(_, l) => if g.User? && l != WAIT then Does(w, s, g) else None
    case Release(_, l) => if g.User? && l != WAIT then Does(w, s, g) else None
    case CallSleep(_, c, l) => if g.User? && l != WAIT then Does(w, s, g) else None
    case _ =>
      if InSleep(s) || s.WakeLock? || s.WakeTest? || (g.User? && (InWake(s) || s.Kill?)) then Does(w, s, g) else None
  }

  /** The next step of p's fork, exit or wait; k is the choice where there is one. */
  function ProgMove(w: World, p: nat, k: nat): Option<Move>
    requires Sized(w) && p < |w.prog|
  {
    var n := |w.prog|;
    match w.prog[p]
    case User =>
      if k == 0 then Does(w, Acquire(p, WAIT), WaitScan(0, false))
      else if k == 1 then (if p == w.init then None else Does(w, Acquire(p, WAIT), ExitScan(0)))
      else Does(w, LockProc(p, k - 2), ForkLocked(k - 2))
    case WaitScan(i, kids) =>
      if i < n then
        if w.parent[i] == Some(p) then Does(w, LockProc(p, i), WaitTest(i, kids)) else Goes(w, WaitScan(i + 1, kids))
      else if !kids || w.t.procs[p].killed then Does(w, Release(p, WAIT), User)
      else Does(w, CallSleep(p, Address(Some(p)), WAIT), WaitSleep)
    case WaitTest(i, kids) =>
      if i < n && w.t.procs[i].status.ZOMBIE? then
        if k == 0 then Some(Move(Some(Reap(p, i)), WaitFreed(i), w.parent[i := None])) else Goes(w, WaitFreed(i))
      else Does(w, UnlockProc(p, i), WaitScan(i + 1, true))
    case WaitFreed(i) => Does(w, UnlockProc(p, i), WaitLeave)
    case WaitLeave => Does(w, Release(p, WAIT), User)
    case WaitSleep => None
    case ExitScan(i) =>
      if i < n then
        if w.parent[i] == Some(p)
        then Some(Move(Some(CallWakeup(p, Address(Some(w.init)))), ExitTellInit(i), w.parent[i := Some(w.init)]))
        else Goes(w, ExitScan(i + 1))
      else Does(w, CallWakeup(p, Address(w.parent[p])), ExitTell)
    case ExitTellInit(i) => Does(w, WakeReturn(p), ExitScan(i + 1))
    case ExitTell => Does(w, WakeReturn(p), ExitLock)
    case ExitLock => Does(w, LockProc(p, p), ExitMark)
    case ExitMark => Does(w, MarkZombie(p), ExitRelease)
    case ExitRelease => Does(w, Release(p, WAIT), ExitDone)
    case ExitDone => None
    case ForkLocked(i) =>
      if i < n && w.t.procs[i].status.UNUSED? then Does(w, Spawn(p, i), ForkMade(i))
        else Does(w, UnlockProc(p, i), User)
    case ForkMade(i) =>
      if k == 0 then Does(w, UnlockProc(p, i), ForkLink(i))
      else if i < n then Some(Move(Some(Reap(p, i)), ForkFailed(i), w.parent[i := None])) else None
    case ForkFailed(i) => Does(w, UnlockProc(p, i), User)
    case ForkLink(i) => Does(w, Acquire(p, WAIT), ForkSet(i))
    case ForkSet(i) => if i < n then Some(Move(None, ForkLinked(i), w.parent[i := Some(p)])) else None
    case ForkLinked(i) => Does(w, Release(p, WAIT), ForkStart(i))
    case ForkStart(i) => Does(w, LockProc(p, i), ForkGo(i))
    case ForkGo(i) => Does(w, Start(p, i), ForkEnd(i))
    case ForkEnd(i) => Does(w, UnlockProc(p, i), User)
  }

  function Actor(e: Event): nat {
    match e case Kernel(s) => s.p case Do(p, _) => p
  }

  function Plan(w: World, e: Event): Option<Move>
    requires Sized(w) && Actor(e) < |w.prog|
  {
    match e case Kernel(s) => KernelMove(w, s) case Do(p, k) => ProgMove(w, p, k)
  }

  // The entry of a process that is freed is nobody's until it is allocated again.
  function NewProgs(w: World, p: nat, m: Move): seq<Prog>
    requires Sized(w) && p < |w.prog|
  {
    var progs := if m.op.Some? && m.op.value.Reap?
      && m.op.value.i < |w.prog| then w.prog[m.op.value.i := User] else w.prog;
    progs[p := m.next]
  }

  function WorldStep(w: World, e: Event): Option<World>
    requires Sized(w)
  {
    if Actor(e) >= |w.prog| then None else
    match Plan(w, e)
    case None => None
    case Some(m) =>
      if m.op.None? then Some(w.(prog := NewProgs(w, Actor(e), m), parent := m.parent)) else
      match Next(w.t, m.op.value)
      case None => None
      case Some(t) => Some(w.(t := t, prog := NewProgs(w, Actor(e), m), parent := m.parent))
  }

  // ---- the invariant ----

  predicate Owns(w: World, p: nat) {
    HoldsLock(w.t, WAIT, p)
  }

  predicate HasLock(w: World, p: nat, i: nat) {
    i < |w.t.procs| && w.t.procs[i].lock == Some(p)
  }

  predicate Making(w: World, i: nat) {
    i < |w.t.procs| && w.t.procs[i].status.USED?
  }

  /** Process p's locks and table entry fit its place in the program. */
  predicate ProgFits(w: World, p: nat)
    requires Sized(w) && p < |w.prog|
  {
    var pc := w.t.procs[p].pc;
    match w.prog[p]
    case User => !Owns(w, p) && !SleepsWith(pc, WAIT) && !pc.Exiting?
    case WaitScan(i, _) => Owns(w, p) && pc.Run? && i <= |w.prog|
    case WaitTest(i, _) => Owns(w, p) && pc.Run? && HasLock(w, p, i) && w.parent[i] == Some(p)
    case WaitFreed(i) => Owns(w, p) && pc.Run? && HasLock(w, p, i)
    case WaitLeave => Owns(w, p) && pc.Run?
    case WaitSleep => SleepsWith(pc, WAIT) && SleepsOn(pc, p + 1) && (Owns(w, p) <==> pc.Enter? || pc.Locked?)
    case ExitScan(i) => Owns(w, p) && pc.Run? && i <= |w.prog| && p != w.init
    case ExitTellInit(i) => Owns(w, p) && InWakeup(pc, w.init + 1) && i < |w.prog| && p != w.init
    case ExitTell => Owns(w, p) && InWakeup(pc, Address(w.parent[p])) && p != w.init
    case ExitLock => Owns(w, p) && pc.Run? && p != w.init
    case ExitMark => Owns(w, p) && pc.Run? && p != w.init && HasLock(w, p, p)
    case ExitRelease => Owns(w, p) && pc.Exiting? && p != w.init
    case ExitDone => !Owns(w, p) && (pc.Exiting? || pc.Gone?) && p != w.init && w.t.procs[p].status.ZOMBIE?
    case ForkLocked(i) => !Owns(w, p) && pc.Run? && HasLock(w, p, i)
    case ForkMade(i) => !Owns(w, p) && pc.Run? && HasLock(w, p, i) && Making(w, i) && w.parent[i].None?
    case ForkFailed(i) => !Owns(w, p) && pc.Run? && HasLock(w, p, i)
    case ForkLink(i) => !Owns(w, p) && (pc.Run? || pc.Yielded?) && Making(w, i) && w.parent[i].None?
    case ForkSet(i) => Owns(w, p) && pc.Run? && Making(w, i) && w.parent[i].None?
    case ForkLinked(i) => Owns(w, p) && pc.Run? && Making(w, i) && w.parent[i].Some?
    case ForkStart(i) => !Owns(w, p) && (pc.Run? || pc.Yielded?) && Making(w, i) && w.parent[i].Some?
    case ForkGo(i) => !Owns(w, p) && pc.Run? && HasLock(w, p, i) && Making(w, i) && w.parent[i].Some?
    case ForkEnd(i) => !Owns(w, p) && pc.Run? && HasLock(w, p, i)
  }

  // The process being made at g, if g is in fork.
  function ForkTarget(g: Prog): Option<nat> {
    match g
    case ForkMade(j) => Some(j)
    case ForkLink(j) => Some(j)
    case ForkSet(j) => Some(j)
    case ForkLinked(j) => Some(j)
    case ForkStart(j) => Some(j)
    case ForkGo(j) => Some(j)
    case _ => None
  }

  predicate ZombieChild(w: World, j: nat, i: nat)
    requires Sized(w)
  {
    i < |w.prog| && w.parent[i] == Some(j) && w.t.procs[i].status.ZOMBIE?
  }

  // j is asleep in wait, or has given up wait_lock on the way there.
  predicate AsleepInWait(w: World, j: nat)
    requires Sized(w) && j < |w.prog|
  {
    Asleep(w.t, j, j + 1, WAIT)
  }

  /** The one moment a sleeper may have a zombie child: an exiting process has just given init
      one and is waking it, wait_lock held. */
  predicate BeingTold(w: World, j: nat)
    requires Sized(w)
  {
    && WAIT in w.t.held && w.t.held[WAIT] < |w.prog|
    && w.prog[w.t.held[WAIT]].ExitTellInit? && j == w.init
  }

  ghost predicate Handshake(w: World)
    requires Sized(w)
  {
    forall i, j :: 0 <= j < |w.prog| && ZombieChild(w, j, i) && AsleepInWait(w, j) ==> BeingTold(w, j)
  }

  /** What p has already established in its scan, or by waking its parent. */
  predicate Scanned(w: World, p: nat)
    requires Sized(w) && p < |w.prog|
  {
    match w.prog[p]
    case WaitScan(k, _) => forall i :: 0 <= i < k ==> !ZombieChild(w, p, i)
    case WaitTest(k, _) => forall i :: 0 <= i < k ==> !ZombieChild(w, p, i)
    case WaitSleep => w.t.procs[p].pc.Enter? || w.t.procs[p].pc.Locked? ==> forall i :: 0 <= i < |w.prog| ==>
      !ZombieChild(w, p, i)
    case ExitLock => w.parent[p].Some? ==> (p, Address(w.parent[p]), WAIT) in w.t.done
    case ExitMark => w.parent[p].Some? ==> (p, Address(w.parent[p]), WAIT) in w.t.done
    case _ => true
  }

  predicate IsLive(st: Status) {
    st.RUNNABLE? || st.RUNNING? || st.SLEEPING?
  }

  predicate Live(w: World, j: nat)
    requires Sized(w)
  {
    j < |w.prog| && IsLive(w.t.procs[j].status)
  }

  /** No child left behind: a parent is alive; an exiting process has no children before its
      scan's position; and everyone but init who has started has a parent. */
  predicate Family(w: World)
    requires Sized(w)
  {
    && Live(w, w.init)
    && (forall i :: 0 <= i < |w.prog| && w.parent[i].Some? ==> Live(w, w.parent[i].value))
    && (forall i :: 0 <= i < |w.prog| && i != w.init && (Live(w, i) || w.t.procs[i].status.ZOMBIE?) ==>
        w.parent[i].Some?)
    && (forall i :: 0 <= i < |w.prog| && w.t.procs[i].status.UNUSED? ==> w.parent[i].None?)
  }

  predicate Disowned(w: World, p: nat)
    requires Sized(w) && p < |w.prog|
  {
    match w.prog[p]
    case ExitScan(k) => forall i :: 0 <= i < k && i < |w.prog| ==> w.parent[i] != Some(p)
    case ExitTellInit(k) => forall i :: 0 <= i <= k && i < |w.prog| ==> w.parent[i] != Some(p)
    case ExitTell => forall i :: 0 <= i < |w.prog| ==> w.parent[i] != Some(p)
    case ExitLock => forall i :: 0 <= i < |w.prog| ==> w.parent[i] != Some(p)
    case ExitMark => forall i :: 0 <= i < |w.prog| ==> w.parent[i] != Some(p)
    case _ => true
  }

  ghost predicate WorldInv(w: World) {
    && Sized(w) && Inv(w.t)
    && (forall p :: 0 <= p < |w.prog| ==> ProgFits(w, p) && Scanned(w, p) && Disowned(w, p))
    && (forall p, q :: 0 <= p < |w.prog| && 0 <= q < |w.prog| && p != q && ForkTarget(w.prog[p]).Some? ==>
          ForkTarget(w.prog[p]) != ForkTarget(w.prog[q]))
    && Handshake(w) && Family(w)
  }
}
