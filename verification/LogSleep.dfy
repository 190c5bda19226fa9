/** log.c's own waiting: begin_op sleeps while a commit runs or the log may fill up, and end_op
    wakes.  Processes are interleaved over the process table; what a commit writes is in LogMachine. */
module LogSleep {
  import opened Basics
  import opened ProcTable
  import opened ProcSafety
  import opened Storage

  const LOCK: LockId := 0          // log's lock
  const LOG: Chan := 1             // the channel begin_op sleeps on

  /** Where a process is in log.c. */
  datatype Prog =
    | User
    | BeginEnter                   // takes the lock next
    | BeginLoop                    // at the head of begin_op's loop
    | BeginSleep
    | BeginLeave                   // admitted, lets the lock go next
    | InOp
    | WriteEnter                   // log_write
    | WriteHold
    | WriteLeave
    | EndEnter                     // end_op
    | EndHold
    | EndTell                      // waking: there is room for one more
    | EndLeave(commits: bool)
    | Commits                      // in commit, without the lock
    | CommitEnter
    | CommitHold
    | CommitTell                   // waking: the commit is over
    | CommitLeave

  datatype Log = Log(n: nat, outstanding: int, committing: bool)

  datatype World = World(t: Table, log: Log, prog: seq<Prog>)

  /** Do(p, choice) is the next step of p; choice decides whether an operation writes again or ends,
      and whether a block it logs is new. */
  datatype Event = Kernel(s: Step) | Do(p: nat, choice: bool)

  datatype Move = Move(op: Option<Step>, next: Prog, log: Log)

  function Actor(e: Event): nat {
    match e case Kernel(s) => s.p case Do(p, _) => p
  }

  predicate Sized(w: World) {
    |w.t.procs| == |w.prog|
  }

  function Does(w: World, s: Step, g: Prog): Option<Move> {
    Some(Move(Some(s), g, w.log))
  }

  // Nothing of log.c is going on that holds, or is about to take, the lock.
  predicate Free(g: Prog) {
    g.User? || g.InOp? || g.Commits?
  }

  predicate Entering(g: Prog) {
    g.BeginEnter? || g.WriteEnter? || g.EndEnter? || g.CommitEnter?
  }

  // Steps of sleep, wakeup and the scheduler, and everything that has nothing to do with the lock.
  function KernelMove(w: World, s: Step): Option<Move>
    requires s.p < |w.prog|
  {
    var g := w.prog[s.p];
    match s
    case SleepReturn(_) => Does(w, s, if g.BeginSleep? then BeginLoop else g)
    case Yield(_) => if Free(g) || Entering(g) then Does(w, s, g) else None
    case Acquire(_, l) => if Free(g) && l != LOCK then Does(w, s, g) else None
    case Release(_, l) => if Free(g) && l != LOCK then Does(w, s, g) else None
    case CallSleep(_, _, l) => if Free(g) && l != LOCK then Does(w, s, g) else None
    case _ => if InSleep(s) || s.WakeLock? || s.WakeTest? || Free(g) then Does(w, s, g) else None
  }

  // begin_op has to wait.
  predicate NoRoom(l: Log) {
    l.committing || l.n + (l.outstanding + 1) * MAXOPBLOCKS > LOGSIZE
  }

  /** The next step of p in log.c; a panic is no step. */
  function DoMove(w: World, p: nat, choice: bool): Option<Move>
    requires Sized(w) && p < |w.prog|
  {
    var l := w.log;
    var idle := w.t.procs[p].pc.Run?;
    match w.prog[p]
    case User => if idle then Some(Move(None, BeginEnter, l)) else None
    case BeginEnter => Does(w, Acquire(p, LOCK), BeginLoop)
    case BeginLoop =>
      if NoRoom(l) then Does(w, CallSleep(p, LOG, LOCK), BeginSleep)
      else Some(Move(None, BeginLeave, l.(outstanding := l.outstanding + 1)))
    case BeginSleep => None
    case BeginLeave => Does(w, Release(p, LOCK), InOp)
    case InOp => if idle then Some(Move(None, if choice then WriteEnter else EndEnter, l)) else None
    case WriteEnter => Does(w, Acquire(p, LOCK), WriteHold)
    case WriteHold =>
      if l.n >= LOGSIZE || l.outstanding < 1 then None
      else Some(Move(None, WriteLeave, if choice then l.(n := l.n + 1) else l))
    case WriteLeave => Does(w, Release(p, LOCK), InOp)
    case EndEnter => Does(w, Acquire(p, LOCK), EndHold)
    case EndHold =>
      var m := l.(outstanding := l.outstanding - 1);
      if l.committing then None
      else if m.outstanding == 0 then Some(Move(None, EndLeave(true), m.(committing := true)))
      else Some(Move(Some(CallWakeup(p, LOG)), EndTell, m))
    case EndTell => Does(w, WakeReturn(p), EndLeave(false))
    case EndLeave(commits) => Does(w, Release(p, LOCK), if commits then Commits else User)
    case Commits => if idle then Some(Move(None, CommitEnter, l.(n := 0))) else None
    case CommitEnter => Does(w, Acquire(p, LOCK), CommitHold)
    case CommitHold => Some(Move(Some(CallWakeup(p, LOG)), CommitTell, l.(committing := false)))
    case CommitTell => Does(w, WakeReturn(p), CommitLeave)
    case CommitLeave => Does(w, Release(p, LOCK), User)
  }

  function Plan(w: World, e: Event): Option<Move>
    requires Sized(w) && Actor(e) < |w.prog|
  {
    match e case Kernel(s) => KernelMove(w, s) case Do(p, choice) => DoMove(w, p, choice)
  }

  function WorldStep(w: World, e: Event): Option<World>
    requires Sized(w)
  {
    if Actor(e) >= |w.prog| then None else
    match Plan(w, e)
    case None => None
    case Some(m) =>
      if m.op.None? then Some(World(w.t, m.log, w.prog[Actor(e) := m.next])) else
      match Next(w.t, m.op.value)
      case None => None
      case Some(t) => Some(World(t, m.log, w.prog[Actor(e) := m.next]))
  }

  // ---- the invariant ----

  predicate Owns(w: World, p: nat) {
    HoldsLock(w.t, LOCK, p)
  }

  predicate Busy(g: Prog) {
    g.BeginLoop? || g.BeginLeave? || g.WriteHold? || g.WriteLeave? || g.EndHold? || g.EndLeave? || g.CommitHold?
        || g.CommitLeave?
  }

  predicate Tells(g: Prog) {
    g.EndTell? || g.CommitTell?
  }

  /** Whether a process has the lock and its place in the process table fit its place g in log.c. */
  predicate Place(l: Log, g: Prog, owns: bool, pc: Pc) {
    if Free(g) then !owns && !SleepsWith(pc, LOCK)
    else if Entering(g) then !owns && (pc.Run? || pc.Yielded?)
    else if Busy(g) then owns && pc.Run?
    else if Tells(g) then owns && InWakeup(pc, LOG)
    else
      && SleepsWith(pc, LOCK) && SleepsOn(pc, LOG) && (owns <==> pc.Enter? || pc.Locked?)
      && (owns ==> NoRoom(l))
  }

  predicate ProgFits(w: World, p: nat)
    requires Sized(w) && p < |w.prog|
  {
    Place(w.log, w.prog[p], Owns(w, p), w.t.procs[p].pc)
  }

  // Counted in log.outstanding.
  predicate Counted(g: Prog) {
    g.BeginLeave? || g.InOp? || g.WriteEnter? || g.WriteHold? || g.WriteLeave? || g.EndEnter? || g.EndHold?
  }

  predicate Committer(g: Prog) {
    g == EndLeave(true) || g.Commits? || g.CommitEnter? || g.CommitHold?
  }

  function Inside(progs: seq<Prog>): set<nat> {
    set p: nat | p < |progs| && Counted(progs[p])
  }

  function Committers(progs: seq<Prog>): set<nat> {
    set p: nat | p < |progs| && Committer(progs[p])
  }

  /** The count is right; a commit runs exactly when somebody is running it, one process and with
      nobody in an operation; and after it the list is empty. */
  predicate Books(l: Log, progs: seq<Prog>) {
    && l.outstanding == |Inside(progs)| && |Committers(progs)| <= 1
    && (l.committing <==> Committers(progs) != {})
    && (l.committing ==> l.outstanding == 0)
    && (!l.committing && l.outstanding == 0 ==> l.n == 0)
    && forall p :: 0 <= p < |progs| ==> Emptied(l, progs[p])
  }

  // commit leaves an empty list.
  predicate Emptied(l: Log, g: Prog) {
    g.CommitEnter? || g.CommitHold? ==> l.n == 0
  }

  predicate OwnerTells(w: World) {
    LOCK in w.t.held && w.t.held[LOCK] < |w.prog| && Tells(w.prog[w.t.held[LOCK]])
  }

  /** Who sleeps in begin_op has to wait still, or is being woken. */
  predicate SleepFits(w: World, j: nat)
    requires Sized(w) && j < |w.prog|
  {
    Asleep(w.t, j, LOG, LOCK) ==> NoRoom(w.log) || OwnerTells(w)
  }

  predicate WorldInv(w: World) {
    && Sized(w) && Inv(w.t) && Books(w.log, w.prog)
    && forall p :: 0 <= p < |w.prog| ==> ProgFits(w, p) && SleepFits(w, p)
  }

  /** Event e takes w, where the invariant holds, to v. */
  predicate Moves(w: World, e: Event, v: World) {
    && Sized(v) && Sized(w) && |v.prog| == |w.prog| && Actor(e) < |w.prog|
    && WorldInv(w) && Inv(v.t) && WorldStep(w, e) == Some(v)
  }

  lemma StepMoves(w: World, e: Event)
    requires WorldInv(w) && WorldStep(w, e).Some?
    ensures Moves(w, e, WorldStep(w, e).value)
  {
    hide Next, Inv, Plan, ProgFits, SleepFits, Books;
    var m := Plan(w, e).value;
    if m.op.Some? { StepKeeps(w.t, m.op.value); }
  }

  lemma Known(w: World, p: nat)
    requires WorldInv(w) && p < |w.prog|
    ensures Sized(w) && Inv(w.t) && ProgFits(w, p) && Fits(w.t, p) && SleepFits(w, p) && Books(w.log, w.prog)
  {
    hide ProgFits, Fits, SleepFits, Books;
  }

  // The kernel step of an event, if it has one, is its process's.
  lemma Op(w: World, e: Event, v: World)
    requires Moves(w, e, v)
    ensures Sized(v) && Sized(w) && |v.prog| == |w.prog| && Actor(e) < |w.prog|
    ensures WorldInv(w) && Plan(w, e).Some? && Inv(w.t) && Inv(v.t)
    ensures var m := Plan(w, e).value;
            && v.log == m.log && v.prog == w.prog[Actor(e) := m.next]
            && if m.op.None? then v.t == w.t else m.op.value.p == Actor(e) && Next(w.t, m.op.value) == Some(v.t)
  {
    hide Next, Inv, ProgFits, SleepFits, Books;
  }

  // ---- who is where ----

  // What q holds and is doing, when another process moves.
  lemma Others(w: World, e: Event, v: World, q: nat)
    requires Moves(w, e, v) && q < |w.prog| && q != Actor(e)
    ensures Sized(w) && Sized(v) && v.prog[q] == w.prog[q]
    ensures Owns(v, q) <==> Owns(w, q)
    ensures if w.t.procs[q].pc.Embryo? || w.t.procs[q].pc.Gone? then v.t.procs[q].pc.Embryo? || v.t.procs[q].pc.Gone?
            else v.t.procs[q].pc == w.t.procs[q].pc
  {
    hide WorldInv, Inv, Fits, Next, Moves, WorldStep, Plan;
    Op(w, e, v);
    var m := Plan(w, e).value;
    if m.op.Some? {
      Bystander(w.t, m.op.value, q);
      assert Owns(v, q) <==> LOCK in Holds(v.t, q);
      assert Owns(w, q) <==> LOCK in Holds(w.t, q);
    }
  }

  // Only commit, which has no lock, and the lock's holder change the log.
  lemma LogChange(w: World, e: Event, v: World)
    requires Moves(w, e, v)
    ensures Actor(e) < |w.prog| && (v.log == w.log || Owns(w, Actor(e)) || w.prog[Actor(e)].Commits?)
    ensures !Owns(w, Actor(e)) && NoRoom(w.log) && w.prog[Actor(e)].Commits? && w.log.committing ==> NoRoom(v.log)
  {
    hide WorldInv, Inv, Fits, Next, Moves, WorldStep, Books;
    Op(w, e, v);
    Known(w, Actor(e));
  }

  lemma BystanderFits(w: World, e: Event, v: World, q: nat)
    requires Moves(w, e, v) && q < |w.prog| && q != Actor(e)
    ensures Sized(v) && q < |v.prog| && ProgFits(v, q)
  {
    hide WorldInv, Inv, Next, Moves, WorldStep, Plan, Books, Asleep, Fits, NoRoom;
    Op(w, e, v);
    Known(w, q);
    Others(w, e, v, q);
    LogChange(w, e, v);
    if w.prog[Actor(e)].Commits? { CommitterCommits(w, Actor(e)); }
    Committing(w.log);
  }

  lemma Committing(l: Log)
    ensures l.committing ==> NoRoom(l)
  {
  }

  lemma CommitterCommits(w: World, p: nat)
    requires WorldInv(w) && p < |w.prog| && Committer(w.prog[p])
    ensures w.log.committing
  {
    hide Inv, ProgFits, SleepFits;
    assert p in Committers(w.prog);
  }

  // The actor's lock and place, before and after.
  lemma ActorTurns(w: World, e: Event, v: World)
    requires Moves(w, e, v)
    ensures Sized(w) && Sized(v) && Actor(e) < |w.prog| == |v.prog| && Plan(w, e).Some?
    ensures var p := Actor(e);
            && Turned(LOCK, Plan(w, e).value.op, Owns(w, p), w.t.procs[p].pc, Owns(v, p), v.t.procs[p].pc)
            && (Plan(w, e).value.op.Some? ==> Plan(w, e).value.op.value.p == p)
  {
    hide WorldInv, Inv, Fits, Next, Moves, WorldStep, Plan, Turn, HoldsLock;
    Op(w, e, v);
    if Plan(w, e).value.op.Some? { Turns(w.t, Plan(w, e).value.op.value, LOCK); }
  }

  lemma KernelLands(w: World, s: Step, has: bool, pc: Pc)
    requires Sized(w) && s.p < |w.prog| && KernelMove(w, s).Some? && ProgFits(w, s.p)
    requires Turn(LOCK, s, Owns(w, s.p), w.t.procs[s.p].pc, has, pc)
    ensures var m := KernelMove(w, s).value; m.op == Some(s) && Place(m.log, m.next, has, pc)
  {
    hide HoldsLock, NoRoom;
  }

  // In end_op or in commit.
  predicate Ending(g: Prog) {
    g.EndEnter? || g.EndHold? || g.EndTell? || g.EndLeave? || g.Commits? || g.CommitEnter? || g.CommitHold?
        || g.CommitTell?
    || g.CommitLeave?
  }

  lemma EnderLands(w: World, p: nat, choice: bool, has: bool, pc: Pc)
    requires Sized(w) && p < |w.prog| && DoMove(w, p, choice).Some? && ProgFits(w, p) && Ending(w.prog[p])
    requires var m := DoMove(w, p, choice).value; Turned(LOCK, m.op, Owns(w, p), w.t.procs[p].pc, has, pc)
    ensures var m := DoMove(w, p, choice).value; Place(m.log, m.next, has, pc)
  {
    hide HoldsLock, NoRoom;
  }

  lemma DoerLands(w: World, p: nat, choice: bool, has: bool, pc: Pc)
    requires Sized(w) && p < |w.prog| && DoMove(w, p, choice).Some? && ProgFits(w, p)
    requires var m := DoMove(w, p, choice).value; Turned(LOCK, m.op, Owns(w, p), w.t.procs[p].pc, has, pc)
    ensures var m := DoMove(w, p, choice).value; Place(m.log, m.next, has, pc)
  {
    hide HoldsLock, NoRoom;
    if Ending(w.prog[p]) { EnderLands(w, p, choice, has, pc); }
  }

  lemma ActorFits(w: World, e: Event, v: World)
    requires Moves(w, e, v)
    ensures Sized(v) && Actor(e) < |v.prog| && ProgFits(v, Actor(e))
  {
    hide WorldInv, Inv, Fits, Next, Moves, WorldStep, KernelMove, DoMove, Place, Turn, HoldsLock, Books;
    Op(w, e, v);
    Known(w, Actor(e));
    ActorTurns(w, e, v);
    var p, has, pc := Actor(e), Owns(v, Actor(e)), v.t.procs[Actor(e)].pc;
    if e.Do? { DoerLands(w, p, e.choice, has, pc); } else { KernelMoves(w, e.s); KernelLands(w, e.s, has, pc); }
  }

  lemma KernelMoves(w: World, s: Step)
    requires s.p < |w.prog| && KernelMove(w, s).Some?
    ensures KernelMove(w, s).value.op == Some(s)
  {
  }

  lemma EventFits(w: World, e: Event, v: World, q: nat)
    requires Moves(w, e, v) && q < |w.prog|
    ensures Sized(v) && q < |v.prog| && ProgFits(v, q)
  {
    hide WorldInv, Inv, WorldStep, ProgFits;
    if q != Actor(e) { BystanderFits(w, e, v, q); } else { ActorFits(w, e, v); }
  }

  // ---- the books ----

  lemma OneMoves(progs: seq<Prog>, p: nat, g: Prog)
    requires p < |progs|
    ensures Inside(progs[p := g]) == if Counted(g) then Inside(progs) + {p} else Inside(progs) - {p}
    ensures Committers(progs[p := g]) == if Committer(g) then Committers(progs) + {p} else Committers(progs) - {p}
    ensures p in Inside(progs) <==> Counted(progs[p])
    ensures p in Committers(progs) <==> Committer(progs[p])
  {
  }

  // What a move does to the log, by where its process was.
  lemma BooksKept(w: World, e: Event, v: World)
    requires Moves(w, e, v)
    ensures Books(v.log, v.prog)
  {
    hide WorldInv, Inv, Moves, WorldStep, Next, Fits, SleepFits, ProgFits, Inside, Committers, Books, Plan;
    Op(w, e, v);
    Known(w, Actor(e));
    OneMoves(w.prog, Actor(e), v.prog[Actor(e)]);
    Alone(w, Actor(e));
    Planned(w, e);
    Balance(w.log, w.prog, Plan(w, e).value, Actor(e));
  }

  // With p committing nobody else is; with p counted there is at least p.
  lemma Alone(w: World, p: nat)
    requires WorldInv(w) && p < |w.prog|
    ensures Committer(w.prog[p]) ==> Committers(w.prog) == {p} && w.log.committing
    ensures Counted(w.prog[p]) ==> w.log.outstanding >= 1
  {
    hide Inv, ProgFits, SleepFits;
    if Committer(w.prog[p]) {
      assert p in Committers(w.prog);
      OnlyOne(Committers(w.prog), p);
    }
    if Counted(w.prog[p]) {
      assert p in Inside(w.prog);
    }
  }

  lemma OnlyOne(s: set<nat>, p: nat)
    requires p in s && |s| <= 1
    ensures s == {p}
  {
    assert |s - {p}| == 0;
  }

  // A move that changes neither what p counts for nor the log, or one of the six that do.
  predicate Planning(l: Log, g: Prog, m: Move) {
    || (m.log == l && (Counted(m.next) <==> Counted(g)) && (Committer(m.next) <==> Committer(g))
        && (m.next.CommitEnter? || m.next.CommitHold? ==> g.CommitEnter? || g.CommitHold?))
    || (!Counted(g) && !Committer(g) && m.next.BeginLeave? && !l.committing
        && m.log == l.(outstanding := l.outstanding + 1))
    || (g.WriteHold? && m.next.WriteLeave? && m.log == l.(n := m.log.n) && m.log.n >= l.n)
    || (g.EndHold? && !l.committing && l.outstanding == 1 && m.next == EndLeave(true)
        && m.log == l.(outstanding := 0, committing := true))
    || (g.EndHold? && !l.committing && l.outstanding != 1 && m.next.EndTell?
        && m.log == l.(outstanding := l.outstanding - 1))
    || (g.Commits? && m.next.CommitEnter? && m.log == l.(n := 0))
    || (g.CommitHold? && m.next.CommitTell? && m.log == l.(committing := false))
  }

  lemma Planned(w: World, e: Event)
    requires Sized(w) && Actor(e) < |w.prog| && Plan(w, e).Some?
    ensures Planning(w.log, w.prog[Actor(e)], Plan(w, e).value)
  {
  }

  lemma Balance(l: Log, progs: seq<Prog>, m: Move, p: nat)
    requires p < |progs| && Books(l, progs) && Planning(l, progs[p], m)
    requires Committer(progs[p]) ==> Committers(progs) == {p} && l.committing
    requires Counted(progs[p]) ==> l.outstanding >= 1
    ensures Books(m.log, progs[p := m.next])
  {
    hide Inside, Committers;
    OneMoves(progs, p, m.next);
    var after := progs[p := m.next];
    forall q | 0 <= q < |progs| ensures Emptied(m.log, after[q]) {
      assert Emptied(l, progs[q]);
      OneMoves(progs, q, progs[q]);
    }
  }

  // ---- the sleepers ----

  lemma NewSleeper(w: World, e: Event, v: World, j: nat)
    requires Moves(w, e, v) && j < |w.prog| && Asleep(v.t, j, LOG, LOCK) && !Asleep(w.t, j, LOG, LOCK)
    ensures NoRoom(v.log)
  {
    hide WorldInv, Inv, Moves, WorldStep, Next, Fits, Asleep, NoRoom, Books;
    Op(w, e, v);
    StepPutsToSleep(w.t, Plan(w, e).value.op.value, j, LOG, LOCK);
    Known(w, j);
  }

  // Whoever is waking sleepers keeps the lock until it has.
  lemma TellerPlans(w: World, e: Event)
    requires Sized(w) && Actor(e) < |w.prog| && Plan(w, e).Some? && ProgFits(w, Actor(e)) && Tells(w.prog[Actor(e)])
    ensures var m, pc := Plan(w, e).value, w.t.procs[Actor(e)].pc;
            && InWakeup(pc, LOG)
            && (m.op == Some(WakeReturn(Actor(e)))
                || (m.op.Some? && m.op.value.p == Actor(e) && !m.op.value.Release? && Tells(m.next)))
  {
    hide HoldsLock, NoRoom;
  }

  lemma TellerStep(w: World, e: Event, v: World)
    requires Moves(w, e, v) && Owns(w, Actor(e)) && Tells(w.prog[Actor(e)])
    ensures (Owns(v, Actor(e)) && Tells(v.prog[Actor(e)])) || (Actor(e), LOG, LOCK) in v.t.done
  {
    hide WorldInv, Inv, Moves, WorldStep, Plan, Next, Fits, ProgFits, Tells, HoldsLock, Books;
    Op(w, e, v);
    Known(w, Actor(e));
    TellerPlans(w, e);
    ActorTurns(w, e, v);
    var m := Plan(w, e).value;
    if m.op.value.WakeReturn? { WakeupDone(w.t, m.op.value, LOCK); }
  }

  lemma OwnerStays(w: World, e: Event, v: World)
    requires Moves(w, e, v) && OwnerTells(w) && w.t.held[LOCK] != Actor(e)
    ensures OwnerTells(v)
  {
    hide WorldInv, Inv, Moves, WorldStep, Next, Plan, Fits;
    Op(w, e, v);
    Others(w, e, v, w.t.held[LOCK]);
    assert Owns(v, w.t.held[LOCK]);
  }

  // Room is made only by a process that goes on to wake the sleepers.
  lemma RoomMaker(w: World, e: Event, v: World)
    requires Moves(w, e, v) && NoRoom(w.log) && !NoRoom(v.log)
    ensures OwnerTells(v)
  {
    hide WorldInv, Inv, Moves, WorldStep, Next, Fits, Plan, Inside, Committers;
    Op(w, e, v);
    Known(w, Actor(e));
    Alone(w, Actor(e));
    Planned(w, e);
    EventFits(w, e, v, Actor(e));
  }

  lemma SleepKept(w: World, e: Event, v: World, j: nat)
    requires Moves(w, e, v) && j < |v.prog|
    ensures Sized(v) && SleepFits(v, j)
  {
    hide WorldInv, Inv, Moves, WorldStep, Next, Plan, Fits, Asleep, NoRoom, ProgFits, Tells, Books;
    Op(w, e, v);
    Known(w, j);
    if Asleep(v.t, j, LOG, LOCK) {
      if !Asleep(w.t, j, LOG, LOCK) { NewSleeper(w, e, v, j); }
      else if NoRoom(w.log) { if !NoRoom(v.log) { RoomMaker(w, e, v); } }
      else if w.t.held[LOCK] != Actor(e) { OwnerStays(w, e, v); }
      else {
        TellerStep(w, e, v);
        if (Actor(e), LOG, LOCK) in v.t.done { DoneMeans(v.t, Actor(e), LOG, LOCK, j); }
      }
    }
  }

  /** Every interleaving keeps the invariant. */
  lemma EventKeeps(w: World, e: Event)
    requires WorldInv(w) && WorldStep(w, e).Some?
    ensures WorldInv(WorldStep(w, e).value)
  {
    hide Inv, Moves, WorldStep, ProgFits, SleepFits, Books;
    var v := WorldStep(w, e).value;
    StepMoves(w, e);
    Op(w, e, v);
    BooksKept(w, e, v);
    forall p | 0 <= p < |v.prog| ensures ProgFits(v, p) && SleepFits(v, p) {
      EventFits(w, e, v, p);
      SleepKept(w, e, v, p);
    }
  }

  // ---- whole runs ----

  /** After initlog, in a table where nobody has to do with the log yet. */
  predicate Opened(w: World) {
    && Sized(w) && Inv(w.t) && LOCK !in w.t.held && w.log == Log(0, 0, false)
    && forall p :: 0 <= p < |w.prog| ==> w.prog[p].User? && !SleepsWith(w.t.procs[p].pc, LOCK)
  }

  lemma OpenedInv(w: World)
    requires Opened(w)
    ensures WorldInv(w)
  {
    hide Inv;
    assert Inside(w.prog) == {} && Committers(w.prog) == {};
    forall p | 0 <= p < |w.prog| ensures ProgFits(w, p) && SleepFits(w, p) { assert w.prog[p].User?; }
  }

  function Exec(w: World, es: seq<Event>): (o: Option<World>)
    requires Sized(w)
    ensures o.Some? ==> Sized(o.value) && |o.value.prog| == |w.prog|
  {
    if es == [] then Some(w) else
    match Exec(w, es[..|es| - 1])
    case None => None
    case Some(v) => Stepped(v, es[|es| - 1])
  }

  function Stepped(w: World, e: Event): (o: Option<World>)
    requires Sized(w)
    ensures o == WorldStep(w, e) && (o.Some? ==> Sized(o.value) && |o.value.prog| == |w.prog|)
  {
    hide Plan, Next;
    WorldStep(w, e)
  }

  lemma {:induction false} ExecInv(w: World, es: seq<Event>)
    requires Opened(w) && Exec(w, es).Some?
    ensures WorldInv(Exec(w, es).value)
  {
    hide WorldInv, WorldStep;
    if es == [] {
      OpenedInv(w);
    } else {
      ExecInv(w, es[..|es| - 1]);
      EventKeeps(Exec(w, es[..|es| - 1]).value, es[|es| - 1]);
    }
  }

  /** In every run, whenever the log's lock is free, a process sleeps in begin_op only while a commit
      runs or one more operation might not fit; and then somebody else is inside an operation or
      commits. */
  lemma SleepersHaveReason(w: World, es: seq<Event>, j: nat)
    requires Opened(w) && Exec(w, es).Some? && j < |w.prog|
    requires LOCK !in Exec(w, es).value.t.held && Asleep(Exec(w, es).value.t, j, LOG, LOCK)
    ensures var v := Exec(w, es).value;
            && NoRoom(v.log)
            && exists q: nat :: q < |v.prog| && q != j && (Counted(v.prog[q]) || Committer(v.prog[q]))
  {
    hide Inv, Fits, Exec, WorldInv, Inside, Committers;
    ExecInv(w, es);
    var v := Exec(w, es).value;
    Known(v, j);
    var s := if v.log.committing then Committers(v.prog) else Inside(v.prog);
    assert s != {};
    var q :| q in s;
    Members(v.prog, q);
    SleeperIsNot(v, j);
  }

  lemma Members(progs: seq<Prog>, q: nat)
    ensures q in Inside(progs) ==> q < |progs| && Counted(progs[q])
    ensures q in Committers(progs) ==> q < |progs| && Committer(progs[q])
  {
  }

  lemma SleeperIsNot(w: World, j: nat)
    requires WorldInv(w) && Sized(w) && j < |w.prog| && Asleep(w.t, j, LOG, LOCK) && LOCK !in w.t.held
    ensures !Counted(w.prog[j]) && !Committer(w.prog[j])
  {
    hide WorldInv, Inv, Fits, Books;
    Known(w, j);
  }

  /** end_op never finds a commit running, and while one runs nobody is inside an operation. */
  lemma CommitsAlone(w: World, es: seq<Event>, p: nat)
    requires Opened(w) && Exec(w, es).Some? && p < |w.prog|
    ensures var v := Exec(w, es).value;
            && (v.prog[p].EndHold? ==> !v.log.committing && v.log.outstanding > 0)
            && (v.log.committing ==> !Counted(v.prog[p]))
  {
    hide Inv, Fits, Exec, WorldInv;
    ExecInv(w, es);
    Known(Exec(w, es).value, p);
    Alone(Exec(w, es).value, p);
  }
}
