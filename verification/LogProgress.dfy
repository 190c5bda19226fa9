/** No process in log.c is stuck by itself, and its waiting agrees with what the log machine admits. */
module LogProgress {
  import opened Basics
  import opened ProcTable
  import opened Storage
  import opened LogSleep
  import opened ProcProgress
  import LogMachine
  import LogSafety

  /** The next event of a process in log.c. */
  function NextEvent(w: World, p: nat, choice: bool): Event
    requires Sized(w) && p < |w.prog|
  {
    match NextStep(w.t.procs[p].pc, p, |w.prog|)
    case None => Do(p, choice)
    case Some(s) => if s.WakeReturn? && !Free(w.prog[p]) then Do(p, choice) else Kernel(s)
  }

  /** It waits for the log's lock, for another lock, for a wakeup or for the scheduler. */
  predicate Held(w: World, p: nat)
    requires Sized(w) && p < |w.prog|
  {
    Waits(w.t, p) || (Entering(w.prog[p]) && w.t.procs[p].pc.Run? && LOCK in w.t.held)
  }

  // log_write finds a full list.
  predicate Panics(w: World, p: nat)
    requires p < |w.prog|
  {
    w.prog[p].WriteHold? && w.log.n >= LOGSIZE
  }

  lemma DoGoes(w: World, p: nat, choice: bool)
    requires Sized(w) && p < |w.prog| && ProgFits(w, p) && Fits(w.t, p) && !Held(w, p) && !Panics(w, p)
    requires NextEvent(w, p, choice).Do? && (Counted(w.prog[p]) ==> w.log.outstanding > 0 && !w.log.committing)
    ensures DoMove(w, p, choice).Some?
    ensures DoMove(w, p, choice).value.op.Some? ==> Ready(w.t, DoMove(w, p, choice).value.op.value)
  {
    hide NoRoom, Next;
  }

  lemma KernelGoes(w: World, p: nat, choice: bool)
    requires Sized(w) && p < |w.prog| && ProgFits(w, p) && NextEvent(w, p, choice).Kernel?
    ensures var s := NextEvent(w, p, choice).s;
            s.p == p && KernelMove(w, s).Some? && KernelMove(w, s).value.op == Some(s) && !w.t.procs[p].pc.Run?
  {
    hide NoRoom;
  }

  // Who is counted makes the count positive, and no commit runs.
  lemma CountedKnown(w: World, p: nat)
    requires WorldInv(w) && p < |w.prog|
    ensures Counted(w.prog[p]) ==> w.log.outstanding > 0 && !w.log.committing
  {
    hide Inv, ProgFits, SleepFits;
    if Counted(w.prog[p]) { assert p in Inside(w.prog); }
  }

  /** A process in log.c always has a next step, whatever is chosen for it, unless it waits for a lock
      that is held, for a wakeup or for the scheduler, or log_write panics on a full list. */
  lemma GoesOn(w: World, p: nat, choice: bool)
    requires WorldInv(w) && p < |w.prog| && Sized(w) && !Held(w, p) && !Panics(w, p)
    ensures Actor(NextEvent(w, p, choice)) == p && WorldStep(w, NextEvent(w, p, choice)).Some?
  {
    hide WorldInv, Inv, Next, KernelMove, DoMove, ProgFits, SleepFits, Books, Waits, Fits, Ready;
    Known(w, p);
    CountedKnown(w, p);
    if NextEvent(w, p, choice).Kernel? {
      KernelGoes(w, p, choice);
      ProcProgress.GoesOn(w.t, p);
    } else {
      DoGoes(w, p, choice);
      if DoMove(w, p, choice).value.op.Some? { ReadyGoes(w.t, DoMove(w, p, choice).value.op.value); }
    }
  }

  /** A state of the log machine that the fields of struct log describe. */
  predicate Describes(l: Log, s: LogMachine.State) {
    && l.n == |s.lh| && l.outstanding == LogMachine.Outstanding(s.ops)
    && (if l.committing then s.phase.Committing? else s.phase.Running?)
  }

  // Operation q is in progress and may log block b.
  predicate Logs(L: Layout, s: LogMachine.State, q: nat, b: nat) {
    && q < |s.ops| && s.ops[q].Active? && L.Home(s.disk, b) && |s.ops[q].blocks + {b}| <= MAXOPBLOCKS
  }

  lemma OpBegins(ops: seq<LogMachine.Op>, q: nat, o: LogMachine.Op)
    requires q < |ops|
    ensures LogMachine.Outstanding(ops[q := o])
            == LogMachine.Outstanding(ops) + (if o.Active? then 1 else 0) - (if ops[q].Active? then 1 else 0)
  {
    LogSafety.WeighUpdate(ops, LogMachine.One, q, o);
  }

  /** begin_op waits exactly when the log machine does not admit one more operation, and otherwise
      changes struct log as the machine changes its state. */
  lemma BeginAgrees(L: Layout, r: LogMachine.Run, q: nat, w: World, p: nat, choice: bool)
    requires LogMachine.Shape(L, r) && Describes(w.log, r.s) && q < |r.s.ops| && r.s.ops[q].Idle?
    requires Sized(w) && p < |w.prog| && w.prog[p].BeginLoop?
    ensures var o, m := LogMachine.Step(L, r, LogMachine.Begin(q)), DoMove(w, p, choice).value;
            (m.next.BeginSleep? <==> o.Blocked?) && (o.Ok? ==> m.next.BeginLeave? && Describes(m.log, o.r.s))
  {
    hide LogMachine.Outstanding, Well;
    OpBegins(r.s.ops, q, LogMachine.Active(r.next, {}));
  }

  /** log_write panics exactly when the machine does, and otherwise lists what the machine lists; the
      choice is whether the block is new. */
  lemma WriteAgrees(L: Layout, r: LogMachine.Run, q: nat, b: nat, x: Block, w: World, p: nat)
    requires LogMachine.Shape(L, r) && Describes(w.log, r.s) && Logs(L, r.s, q, b) && L.size > LOGSIZE
    requires Sized(w) && p < |w.prog| && w.prog[p].WriteHold?
    ensures var o, m := LogMachine.Step(L, r, LogMachine.LogWrite(q, b, x)), DoMove(w, p, b !in r.s.lh);
            (m.None? <==> o.Panic?) && (m.Some? ==> o.Ok? && Describes(m.value.log, o.r.s))
  {
    hide LogMachine.Outstanding, Well;
    OpBegins(r.s.ops, q, r.s.ops[q].(blocks := r.s.ops[q].blocks + {b}));
  }

  /** end_op starts a commit exactly when the machine has one to start, or an empty one. */
  lemma EndAgrees(L: Layout, r: LogMachine.Run, q: nat, w: World, p: nat, choice: bool)
    requires LogMachine.Shape(L, r) && Describes(w.log, r.s) && q < |r.s.ops| && r.s.ops[q].Active?
    requires Sized(w) && p < |w.prog| && w.prog[p].EndHold?
    ensures var o, m := LogMachine.Step(L, r, LogMachine.End(q)), DoMove(w, p, choice);
            && (m.None? <==> o.Panic?)
            && (m.Some? ==> o.Ok? && (m.value.next == EndLeave(true) <==> LogMachine.Outstanding(o.r.s.ops) == 0)
                            && (r.s.lh != [] || m.value.next.EndTell? ==> Describes(m.value.log, o.r.s)))
  {
    hide LogMachine.Outstanding, Well;
    OpBegins(r.s.ops, q, LogMachine.Idle);
  }

  // A step that has nothing to do with the log's lock.
  predicate Elsewhere(s: Step) {
    && (s.Acquire? ==> s.l != LOCK) && (s.Release? ==> s.l != LOCK) && (s.CallSleep? ==> s.l != LOCK)
  }

  lemma ElsewhereMove(w: World, s: Step)
    requires s.p < |w.prog| && Free(w.prog[s.p]) && Elsewhere(s)
    ensures KernelMove(w, s) == Some(Move(Some(s), w.prog[s.p], w.log))
  {
  }

  /** Inside an operation or a commit, and outside, a process does what it likes with other locks. */
  lemma ElsewhereFree(w: World, s: Step)
    requires Sized(w) && s.p < |w.prog| && Free(w.prog[s.p]) && Elsewhere(s) && Next(w.t, s).Some?
    ensures WorldStep(w, Kernel(s)) == Some(World(Next(w.t, s).value, w.log, w.prog))
  {
    hide Next, DoMove, KernelMove, Free;
    ElsewhereMove(w, s);
    assert w.prog[s.p := w.prog[s.p]] == w.prog;
  }

  // ---- every call ends ----

  /** Steps left in begin_op, log_write, end_op or commit, sleeping not counted. */
  function Left(g: Prog): nat {
    match g
    case BeginEnter => 10
    case BeginLoop => 9
    case BeginSleep => 8
    case BeginLeave => 8
    case EndEnter => 10
    case EndHold => 9
    case EndTell => 8
    case EndLeave(_) => 7
    case Commits => 6
    case CommitEnter => 5
    case CommitHold => 4
    case WriteEnter => 3
    case WriteHold => 2
    case CommitTell => 2
    case WriteLeave => 1
    case CommitLeave => 1
    case InOp => 0
    case User => 0
  }

  lemma DoLess(w: World, p: nat, choice: bool)
    requires Sized(w) && p < |w.prog| && DoMove(w, p, choice).Some? && !w.prog[p].User? && !w.prog[p].InOp?
    ensures Left(DoMove(w, p, choice).value.next) < Left(w.prog[p])
  {
    hide NoRoom;
  }

  lemma KernelSame(w: World, s: Step)
    requires s.p < |w.prog| && KernelMove(w, s).Some? && !Free(w.prog[s.p])
    ensures s.SleepReturn? || KernelMove(w, s).value.next == w.prog[s.p]
    ensures KernelMove(w, s).value.op == Some(s) && (s.Yield? || InSleep(s) || s.WakeLock? || s.WakeTest?)
  {
  }

  /** No call runs for ever: every step of a process in begin_op, log_write or end_op leaves it less to
      do, except that a sleeper that has been woken looks again, that the timer may take the processor
      from it, and that a commit takes as long as its disk writes do. */
  lemma Advances(w: World, e: Event, v: World)
    requires Moves(w, e, v) && Actor(e) < |w.prog| && !w.prog[Actor(e)].User? && !w.prog[Actor(e)].InOp?
    ensures Sized(w) && Sized(v) && |v.prog| == |w.prog|
    ensures var p, n := Actor(e), |w.prog|;
            || (e.Kernel? && (e.s.SleepReturn? || e.s.Yield? || w.prog[p].Commits?))
            || Left(v.prog[p]) < Left(w.prog[p])
            || (v.prog[p] == w.prog[p] && PcLeft(v.t.procs[p].pc, n) < PcLeft(w.t.procs[p].pc, n))
  {
    hide WorldInv, Inv, Moves, WorldStep, Next, KernelMove, DoMove, Left, PcLeft;
    Op(w, e, v);
    var p := Actor(e);
    if e.Do? {
      DoLess(w, p, e.choice);
    } else if !w.prog[p].Commits? {
      KernelSame(w, e.s);
      if !e.s.Yield? && !e.s.SleepReturn? { LeavesLess(w.t, e.s); }
    }
  }
}
