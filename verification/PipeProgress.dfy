/** No call of a pipe is stuck by itself, and a pipe whose ends are both closed is freed. */
module PipeProgress {
  import opened Basics
  import opened ProcTable
  import opened PipeMachine
  import opened PipeSafety
  import opened PipeRuns
  import opened ProcProgress
  import Pipe

  /** The next event of a process in a call: its own step of pipe.c, or one of proc.c. */
  function NextEvent(w: World, p: nat, ok: bool): Event
    requires Sized(w) && p < |w.prog|
  {
    match NextStep(w.t.procs[p].pc, p, |w.prog|)
    case None => Do(p, ok)
    case Some(s) => if s.WakeReturn? then Do(p, ok) else Kernel(s)
  }

  predicate TakesLock(g: Prog) {
    g.WriteEnter? || g.ReadEnter? || g.CloseEnter?
  }

  /** It waits for the pipe's lock, for another lock, for a wakeup or for the scheduler. */
  predicate Held(w: World, p: nat)
    requires Sized(w) && p < |w.prog|
  {
    Waits(w.t, p) || (TakesLock(w.prog[p]) && w.t.procs[p].pc.Run? && LOCK in w.t.held)
  }

  lemma WriterGoes(w: World, p: nat, ok: bool)
    requires Sized(w) && p < |w.prog| && Writing(w.prog[p]) && ProgFits(w, p) && Fits(w.t, p) && !Held(w, p)
    requires NextEvent(w, p, ok).Do?
    ensures WriteMove(w, p, ok).Some?
    ensures WriteMove(w, p, ok).value.op.Some? ==> Ready(w.t, WriteMove(w, p, ok).value.op.value)
  {
    hide Next, Pipe.Full, Pipe.Empty, Pipe.Store;
  }

  lemma ReaderGoes(w: World, p: nat, ok: bool)
    requires Sized(w) && p < |w.prog| && Reading(w.prog[p]) && ProgFits(w, p) && Fits(w.t, p) && !Held(w, p)
    requires NextEvent(w, p, ok).Do?
    ensures ReadMove(w, p, ok).Some?
    ensures ReadMove(w, p, ok).value.op.Some? ==> Ready(w.t, ReadMove(w, p, ok).value.op.value)
  {
    hide Next, Pipe.Full, Pipe.Empty, Pipe.Take, Pipe.Front, EndsWith;
  }

  lemma CloserGoes(w: World, p: nat, ok: bool)
    requires Sized(w) && p < |w.prog| && !Writing(w.prog[p]) && !Reading(w.prog[p]) && !w.prog[p].User?
    requires ProgFits(w, p) && Fits(w.t, p) && !Held(w, p) && NextEvent(w, p, ok).Do?
    ensures CloseMove(w, p).Some?
    ensures CloseMove(w, p).value.op.Some? ==> Ready(w.t, CloseMove(w, p).value.op.value)
  {
    hide Next, Pipe.Full, Pipe.Empty, Shut;
  }

  lemma KernelGoes(w: World, p: nat, ok: bool)
    requires Sized(w) && p < |w.prog| && !w.prog[p].User? && ProgFits(w, p) && NextEvent(w, p, ok).Kernel?
    ensures KernelMove(w, NextEvent(w, p, ok).s).Some? && NextEvent(w, p, ok).s.p == p
    ensures KernelMove(w, NextEvent(w, p, ok).s).value.op == Some(NextEvent(w, p, ok).s)
    ensures !w.t.procs[p].pc.Run?
  {
    hide Pipe.Full, Pipe.Empty;
  }

  /** A process in a call always has a next step, whether copying a byte succeeds or not, unless it
      waits for a lock that is held, for a wakeup or for the scheduler. */
  lemma GoesOn(w: World, p: nat, ok: bool)
    requires WorldInv(w) && p < |w.prog| && Sized(w) && !w.prog[p].User? && !Held(w, p)
    ensures Actor(NextEvent(w, p, ok)) == p && WorldStep(w, NextEvent(w, p, ok)).Some?
  {
    hide WorldInv, Inv, Next, KernelMove, WriteMove, ReadMove, CloseMove, ProgFits, Waits, Fits, Ready;
    Known(w, p);
    var e := NextEvent(w, p, ok);
    if e.Kernel? {
      KernelGoes(w, p, ok);
      ProcProgress.GoesOn(w.t, p);
    } else if Writing(w.prog[p]) {
      WriterGoes(w, p, ok);
    } else if Reading(w.prog[p]) {
      ReaderGoes(w, p, ok);
    } else {
      CloserGoes(w, p, ok);
    }
    if e.Do? && PipeMove(w, p, ok).value.op.Some? { ReadyGoes(w.t, PipeMove(w, p, ok).value.op.value); }
  }

  // A step that has nothing to do with the pipe's lock.
  predicate Elsewhere(s: Step) {
    && (s.Acquire? ==> s.l != LOCK) && (s.Release? ==> s.l != LOCK) && (s.CallSleep? ==> s.l != LOCK)
  }

  lemma ElsewhereMove(w: World, s: Step)
    requires s.p < |w.prog| && w.prog[s.p].User? && Elsewhere(s)
    ensures KernelMove(w, s) == Some(Move(Some(s), User, w.pi))
  {
  }

  /** Who is in no call does what it likes elsewhere, and the pipe stays as it is. */
  lemma ElsewhereFree(w: World, s: Step)
    requires Sized(w) && s.p < |w.prog| && w.prog[s.p].User? && Elsewhere(s) && Next(w.t, s).Some?
    ensures WorldStep(w, Kernel(s)) == Some(World(Next(w.t, s).value, w.pi, w.prog))
  {
    hide Next, PipeMove, KernelMove, NobodyIn;
    ElsewhereMove(w, s);
    assert w.prog[s.p := w.prog[s.p]] == w.prog;
  }

  /** The timer may take the processor from anybody who holds no lock. */
  lemma MayYield(w: World, p: nat)
    requires WorldInv(w) && p < |w.prog| && Sized(w) && w.t.procs[p].pc.Run? && w.t.procs[p].lock.None?
    requires Holds(w.t, p) == {}
    ensures WorldStep(w, Kernel(Yield(p))).Some?
  {
    hide WorldInv, Inv;
    Known(w, p);
    assert LOCK !in Holds(w.t, p);
  }

  /** An idle process may call write, read or close while the end it wants is open to it. */
  lemma MayCall(w: World, p: nat, src: seq<char>, n: nat, writable: bool)
    requires Sized(w) && p < |w.prog| && w.prog[p].User? && w.t.procs[p].pc.Run?
    ensures w.pi.writeref ==> WorldStep(w, Write(p, src)).Some?
    ensures w.pi.readref ==> WorldStep(w, Read(p, n)).Some?
    ensures (if writable then w.pi.writeref else w.pi.readref) && NobodyIn(w, writable)
            ==> WorldStep(w, Close(p, writable)).Some?
  {
    hide NobodyIn;
  }

  // ---- both ends closed ----

  predicate Freeing(g: Prog) {
    g.CloseTell? || g.CloseTest? || g.CloseFree?
  }

  /** A pipe with both ends closed has been freed or somebody is about to free it. */
  ghost predicate NotLeaked(w: World) {
    w.pi.readopen || w.pi.writeopen || w.pi.freed || exists p :: 0 <= p < |w.prog| && Freeing(w.prog[p])
  }

  lemma FreeingGoes(w: World, p: nat, ok: bool)
    requires Sized(w) && p < |w.prog| && Freeing(w.prog[p]) && PipeMove(w, p, ok).Some?
    requires !w.pi.readopen && !w.pi.writeopen
    ensures Freeing(PipeMove(w, p, ok).value.next) || PipeMove(w, p, ok).value.pi.freed
  {
  }

  lemma NotLeakedKept(w: World, e: Event, v: World)
    requires Moves(w, e, v) && NotLeaked(w)
    ensures NotLeaked(v)
  {
    hide WorldInv, Inv, Moves, WorldStep, Next, Plan;
    Op(w, e, v);
    FlagsStep(w, e);
    if !v.pi.readopen && !v.pi.writeopen && !v.pi.freed {
      if w.pi.readopen || w.pi.writeopen {
        assert Freeing(v.prog[Actor(e)]);
      } else {
        var p :| 0 <= p < |w.prog| && Freeing(w.prog[p]);
        if p == Actor(e) { FreeingStep(w, e, v); } else { Others(w, e, v, p); }
        assert Freeing(v.prog[p]);
      }
    }
  }

  lemma FreeingStep(w: World, e: Event, v: World)
    requires Moves(w, e, v) && Actor(e) < |w.prog| == |v.prog| && Freeing(w.prog[Actor(e)])
    requires !w.pi.readopen && !w.pi.writeopen && !v.pi.freed
    ensures Freeing(v.prog[Actor(e)])
  {
    hide WorldInv, Inv, Moves, WorldStep, Next, PipeMove, KernelMove, NobodyIn;
    Op(w, e, v);
    if e.Kernel? { KernelPi(w, e.s); } else if e.Do? { FreeingGoes(w, e.p, e.ok); }
  }

  /** In every run, once both ends are closed the pipe is freed, or a closer still in pipeclose has yet
      to look: none is leaked. */
  lemma {:induction false} NeverLeaked(w: World, es: seq<Event>)
    requires Opened(w) && Sized(w) && Exec(w, es).Some?
    ensures NotLeaked(Exec(w, es).value)
  {
    hide WorldInv, WorldStep, NotLeaked, Moves;
    if es == [] {
      OpenedOpen(w);
    } else {
      var n := |es| - 1;
      NeverLeaked(w, es[..n]);
      ExecInv(w, es[..n]);
      StepMoves(Exec(w, es[..n]).value, es[n]);
      NotLeakedKept(Exec(w, es[..n]).value, es[n], Exec(w, es).value);
    }
  }

  lemma OpenedOpen(w: World)
    requires Opened(w)
    ensures NotLeaked(w)
  {
  }

  // ---- every call ends ----

  /** Steps left, at most, in the call, sleeping not counted. */
  function Left(g: Prog): nat {
    match g
    case WriteEnter(src) => 5 * |src| + 5
    case WriteLoop(src, i, _) => if i <= |src| then 5 * (|src| - i) + 4 else 4
    case WriteTell(src, i) => if i < |src| then 5 * (|src| - i) + 3 else 3
    case WriteDoze(src, i) => if i < |src| then 5 * (|src| - i) + 2 else 2
    case WriteSleep(src, i) => if i < |src| then 5 * (|src| - i) + 1 else 1
    case WriteTellLast => 2
    case ReadEnter(n) => n + 10
    case ReadLoop(n) => n + 9
    case ReadSleep(n) => n + 8
    case ReadCopy(n, got) => if |got| <= n then n - |got| + 6 else 6
    case ReadTell(_) => 5
    case CloseEnter(_) => 8
    case CloseTell(_) => 7
    case CloseTest => 6
    case CloseFree => 2
    case Leave => 1
    case User => 0
  }

  lemma WriterLess(w: World, p: nat, ok: bool)
    requires Sized(w) && p < |w.prog| && WriteMove(w, p, ok).Some? && ProgFits(w, p)
    ensures Left(WriteMove(w, p, ok).value.next) < Left(w.prog[p])
  {
    hide Pipe.Full, Pipe.Empty, Pipe.Store;
  }

  lemma ReaderLess(w: World, p: nat, ok: bool)
    requires Sized(w) && p < |w.prog| && ReadMove(w, p, ok).Some? && ProgFits(w, p)
    ensures Left(ReadMove(w, p, ok).value.next) < Left(w.prog[p])
  {
    hide Pipe.Full, Pipe.Empty, Pipe.Take, Pipe.Front, EndsWith;
  }

  lemma CloserLess(w: World, p: nat)
    requires Sized(w) && p < |w.prog| && CloseMove(w, p).Some? && !Writing(w.prog[p]) && !Reading(w.prog[p])
    ensures var m := CloseMove(w, p).value;
            Left(m.next) < Left(w.prog[p]) || (m.next == w.prog[p] && m.op.Some? && m.op.value.CallWakeup?)
  {
    hide Shut;
  }

  lemma KernelSame(w: World, s: Step)
    requires s.p < |w.prog| && KernelMove(w, s).Some? && !w.prog[s.p].User?
    ensures s.SleepReturn? || KernelMove(w, s).value.next == w.prog[s.p]
    ensures KernelMove(w, s).value.op == Some(s) && (s.Yield? || InSleep(s) || s.WakeLock? || s.WakeTest?)
  {
  }

  /** No call runs for ever: every step of a process in a call leaves it less to do, except that a
      sleeper that has been woken looks again, and that the timer may take the processor from it. */
  lemma Advances(w: World, e: Event, v: World)
    requires Moves(w, e, v) && Actor(e) < |w.prog| && !w.prog[Actor(e)].User?
    ensures Sized(w) && Sized(v) && |v.prog| == |w.prog|
    ensures var p, n := Actor(e), |w.prog|;
            || (e.Kernel? && (e.s.SleepReturn? || e.s.Yield?))
            || Left(v.prog[p]) < Left(w.prog[p])
            || (v.prog[p] == w.prog[p] && PcLeft(v.t.procs[p].pc, n) < PcLeft(w.t.procs[p].pc, n))
  {
    hide WorldInv, Inv, Moves, WorldStep, Next, KernelMove, WriteMove, ReadMove, CloseMove, NobodyIn, ProgFits, Fits;
    hide Left, PcLeft;
    Op(w, e, v);
    var p := Actor(e);
    Known(w, p);
    if e.Kernel? {
      KernelSame(w, e.s);
      if !e.s.Yield? && !e.s.SleepReturn? { LeavesLess(w.t, e.s); }
    } else if e.Do? {
      if Writing(w.prog[p]) { WriterLess(w, p, e.ok); }
      else if Reading(w.prog[p]) { ReaderLess(w, p, e.ok); }
      else {
        CloserLess(w, p);
        var m := CloseMove(w, p).value;
        if m.op.Some? && m.op.value.CallWakeup? { LeavesLess(w.t, m.op.value); }
      }
    }
  }
}
