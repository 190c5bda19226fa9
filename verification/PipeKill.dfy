/** Why the promise to readers is for runs without kills: a run in which a killed writer leaves a
    byte behind and the reader asleep, and exactly when that happens. */
module PipeKill {
  import opened Basics
  import opened ProcTable
  import opened PipeMachine
  import opened PipeSafety
  import opened PipeRuns
  import Pipe

  // Process 0 reads, 1 writes, and 2 kills 1 after its first byte.
  function KillRun(): seq<Event> {
    [ Read(0, 1), Do(0, true), Do(0, true),
      Kernel(SleepLock(0)), Kernel(SleepRelease(0)), Kernel(SleepMark(0)), Kernel(SchedDrop(0)),
      Write(1, "ab"), Do(1, true), Do(1, true), Kernel(Kill(2, 1)), Do(1, true), Do(1, true) ]
  }

  function Running(pc: Pc): Proc {
    Proc(RUNNING, 0, false, None, pc)
  }

  // The reader's entry after k steps.
  function Reader(k: nat): Proc {
    if k < 3 then Running(Run)
    else if k == 3 then Running(Enter(NREAD, LOCK))
    else if k == 4 then Running(Locked(NREAD, LOCK)).(lock := Some(0))
    else if k == 5 then Running(Released(NREAD, LOCK)).(lock := Some(0))
    else if k == 6 then Proc(SLEEPING, NREAD, false, Some(0), Marked(NREAD, LOCK))
    else Proc(SLEEPING, NREAD, false, None, Parked(NREAD, LOCK))
  }

  function Pi(r: Pipe.Ring, k: nat): State
    requires |r.data| == Pipe.PIPESIZE
  {
    var empty := State(r, true, true, true, true, false, [], [], false);
    if k < 10 then empty else empty.(ring := Pipe.Store(r, 'a'), stored := ['a'], lost := k >= 12)
  }

  function Held(k: nat): map<LockId, nat> {
    if 2 <= k < 5 then map[LOCK := 0] else if 9 <= k < 13 then map[LOCK := 1] else map[]
  }

  function Progs(k: nat): seq<Prog> {
    [ if k == 0 then User else if k == 1 then ReadEnter(1) else if k == 2 then ReadLoop(1) else ReadSleep(1),
      if k < 8 || k == 13 then User else if k == 8 then WriteEnter("ab") else if k == 9 then WriteLoop("ab", 0, 0)
      else if k == 12 then Leave else WriteLoop("ab", 1, 0),
      User ]
  }

  function At(r: Pipe.Ring, k: nat): World
    requires |r.data| == Pipe.PIPESIZE
  {
    World(Table([Reader(k), Running(Run).(killed := k >= 11), Running(Run)], Held(k), {}), Pi(r, k), Progs(k))
  }

  lemma CallSteps(r: Pipe.Ring, k: nat)
    requires |r.data| == Pipe.PIPESIZE && r.nread == 0 && r.nwrite == 0 && 0 <= k < 3
    ensures WorldStep(At(r, k), KillRun()[k]) == Some(At(r, k + 1))
  {
    var o, v := WorldStep(At(r, k), KillRun()[k]), At(r, k + 1);
    assert o.Some?;
    assert o.value.t.procs == v.t.procs;
    assert o.value.t.held == v.t.held && o.value.t.done == v.t.done;
    assert o.value.prog == v.prog && o.value.pi == v.pi;
  }

  lemma SleepSteps(r: Pipe.Ring, k: nat)
    requires |r.data| == Pipe.PIPESIZE && r.nread == 0 && r.nwrite == 0 && 3 <= k < 7
    ensures WorldStep(At(r, k), KillRun()[k]) == Some(At(r, k + 1))
  {
    var o, v := WorldStep(At(r, k), KillRun()[k]), At(r, k + 1);
    assert o.Some?;
    assert o.value.t.procs == v.t.procs;
    assert o.value.t.held == v.t.held && o.value.t.done == v.t.done;
    assert o.value.prog == v.prog && o.value.pi == v.pi;
  }

  lemma WriterSteps(r: Pipe.Ring, k: nat)
    requires |r.data| == Pipe.PIPESIZE && r.nread == 0 && r.nwrite == 0 && 7 <= k < 10
    ensures WorldStep(At(r, k), KillRun()[k]) == Some(At(r, k + 1))
  {
    var o, v := WorldStep(At(r, k), KillRun()[k]), At(r, k + 1);
    assert o.Some?;
    assert o.value.t.procs == v.t.procs;
    assert o.value.t.held == v.t.held && o.value.t.done == v.t.done;
    assert o.value.prog == v.prog && o.value.pi == v.pi;
  }

  lemma KillStep(r: Pipe.Ring, k: nat)
    requires |r.data| == Pipe.PIPESIZE && r.nread == 0 && r.nwrite == 0 && k == 10
    ensures WorldStep(At(r, k), KillRun()[k]) == Some(At(r, k + 1))
  {
    var o, v := WorldStep(At(r, k), KillRun()[k]), At(r, k + 1);
    assert o.Some?;
    assert o.value.t.procs == v.t.procs;
    assert o.value.t.held == v.t.held && o.value.t.done == v.t.done;
    assert o.value.prog == v.prog && o.value.pi == v.pi;
  }

  lemma LeaveSteps(r: Pipe.Ring, k: nat)
    requires |r.data| == Pipe.PIPESIZE && r.nread == 0 && r.nwrite == 0 && 11 <= k < 13
    ensures WorldStep(At(r, k), KillRun()[k]) == Some(At(r, k + 1))
  {
    var o, v := WorldStep(At(r, k), KillRun()[k]), At(r, k + 1);
    assert o.Some?;
    assert o.value.t.procs == v.t.procs;
    assert o.value.t.held == v.t.held && o.value.t.done == v.t.done;
    assert o.value.prog == v.prog && o.value.pi == v.pi;
  }

  lemma {:induction false} RunsTo(r: Pipe.Ring, k: nat)
    requires |r.data| == Pipe.PIPESIZE && r.nread == 0 && r.nwrite == 0 && k <= 13
    ensures Exec(At(r, 0), KillRun()[..k]) == Some(At(r, k))
  {
    hide WorldStep, At;
    assert Sized(At(r, 0)) by { AtSized(r); }
    if k > 0 {
      RunsTo(r, k - 1);
      if k <= 3 { CallSteps(r, k - 1); } else if k <= 7 { SleepSteps(r, k - 1); }
      else if k <= 10 { WriterSteps(r, k - 1); } else if k == 11 { KillStep(r, k - 1); }
      else { LeaveSteps(r, k - 1); }
      assert KillRun()[..k][..k - 1] == KillRun()[..k - 1];
    }
  }

  lemma AtSized(r: Pipe.Ring)
    requires |r.data| == Pipe.PIPESIZE
    ensures Sized(At(r, 0))
  {
  }

  /** A run from a proper start after which the lock is free, the reader sleeps, both ends are open
      and a byte is in the pipe. */
  lemma KillStrandsReader(r: Pipe.Ring)
    requires |r.data| == Pipe.PIPESIZE && r.nread == 0 && r.nwrite == 0
    ensures Opened(At(r, 0)) && Exec(At(r, 0), KillRun()).Some?
    ensures var v := Exec(At(r, 0), KillRun()).value;
            && LOCK !in v.t.held && Asleep(v.t, 0, NREAD, LOCK)
            && v.pi.readopen && v.pi.writeopen && !Pipe.Empty(v.pi.ring) && v.pi.lost
  {
    hide WorldStep, Exec;
    RunsTo(r, 13);
    assert KillRun()[..13] == KillRun();
  }

  // ---- exactly when ----

  ghost predicate SomeReaderAsleep(t: Table) {
    exists j :: 0 <= j < |t.procs| && Asleep(t, j, NREAD, LOCK)
  }

  /** A reader sleeps although there is something to read. */
  ghost predicate Stranded(w: World) {
    SomeReaderAsleep(w.t) && !Pipe.Empty(w.pi.ring)
  }

  // p is about to give up a write because it has been killed or nobody can read.
  predicate GivesUp(w: World, p: nat)
    requires Sized(w) && p < |w.prog|
  {
    && w.prog[p].WriteLoop? && w.prog[p].i < |w.prog[p].src|
    && (w.t.procs[p].killed || !w.pi.readopen)
  }

  lemma GivingUp(w: World, p: nat, ok: bool)
    requires WorldInv(w) && Sized(w) && p < |w.prog| && GivesUp(w, p)
    ensures var o := WorldStep(w, Do(p, ok));
            && o == Some(World(w.t, w.pi.(lost := w.pi.lost || w.prog[p].told < w.prog[p].i), w.prog[p := Leave]))
            && WorldStep(o.value, Do(p, ok)) ==
               Some(World(DropLock(w.t, p, LOCK), o.value.pi, o.value.prog[p := User]))
  {
    hide WorldInv, Inv, Fits;
    Known(w, p);
  }

  /** From any state of the invariant in which nothing is lost, a writer that gives up leaves a
      reader asleep on a pipe that is not empty if and only if it has stored bytes since it last woke
      the readers and a reader is asleep. */
  lemma GivingUpStrands(w: World, p: nat, ok: bool)
    requires WorldInv(w) && Sized(w) && p < |w.prog| && GivesUp(w, p) && !w.pi.lost
    ensures WorldStep(w, Do(p, ok)).Some? && Sized(WorldStep(w, Do(p, ok)).value)
    ensures var u := WorldStep(WorldStep(w, Do(p, ok)).value, Do(p, ok));
            && u.Some? && LOCK !in u.value.t.held
            && (Stranded(u.value) <==> w.prog[p].told < w.prog[p].i && SomeReaderAsleep(w.t))
  {
    hide WorldInv, Inv, Fits, WorldStep, Asleep, Pipe.Empty, Pipe.Full;
    GivingUp(w, p, ok);
    Known(w, p);
    var t := DropLock(w.t, p, LOCK);
    forall j | 0 <= j < |t.procs|
      ensures Asleep(t, j, NREAD, LOCK) <==> Asleep(w.t, j, NREAD, LOCK)
    {
      SameSleep(w.t, p, j);
    }
    if w.prog[p].told == w.prog[p].i {
      forall j | 0 <= j < |t.procs| && Asleep(w.t, j, NREAD, LOCK) ensures Pipe.Empty(w.pi.ring) { Known(w, j); }
    }
  }

  lemma SameSleep(t: Table, p: nat, j: nat)
    requires j < |t.procs|
    ensures Asleep(DropLock(t, p, LOCK), j, NREAD, LOCK) <==> Asleep(t, j, NREAD, LOCK)
  {
  }

  // The process of e leaves a write with bytes stored that it has woken nobody for.
  predicate Abandons(w: World, e: Event)
    requires Sized(w) && Actor(e) < |w.prog|
  {
    e.Do? && GivesUp(w, e.p) && w.prog[e.p].told < w.prog[e.p].i
  }

  // In e a wakeup of the readers returns.
  predicate Wakes(w: World, e: Event)
    requires Sized(w) && Actor(e) < |w.prog|
  {
    && e.Do? && !w.t.procs[e.p].pc.Run?
    && (w.prog[e.p].WriteTell? || w.prog[e.p].WriteTellLast? || w.prog[e.p] == CloseTell(true))
  }

  predicate LostBy(w: World, e: Event, m: Move)
    requires Sized(w) && Actor(e) < |w.prog|
  {
    m.pi.lost <==> Abandons(w, e) || (w.pi.lost && !Wakes(w, e))
  }

  lemma WriterLoses(w: World, p: nat, ok: bool)
    requires Sized(w) && p < |w.prog| && WriteMove(w, p, ok).Some?
    requires w.prog[p].WriteTell? || w.prog[p].WriteTellLast? ==> !w.t.procs[p].pc.Run?
    ensures LostBy(w, Do(p, ok), WriteMove(w, p, ok).value)
  {
    hide Pipe.Store, Pipe.Full;
  }

  lemma ReaderLoses(w: World, p: nat, ok: bool)
    requires Sized(w) && p < |w.prog| && Reading(w.prog[p]) && ReadMove(w, p, ok).Some?
    ensures LostBy(w, Do(p, ok), ReadMove(w, p, ok).value)
  {
    hide Pipe.Take, Pipe.Front, Pipe.Empty;
  }

  lemma CloserLoses(w: World, p: nat, ok: bool)
    requires Sized(w) && p < |w.prog| && !Writing(w.prog[p]) && CloseMove(w, p).Some?
    ensures LostBy(w, Do(p, ok), CloseMove(w, p).value)
  {
  }

  lemma TellerInWakeup(w: World, p: nat)
    requires WorldInv(w) && p < |w.prog|
    ensures Sized(w) && (w.prog[p].WriteTell? || w.prog[p].WriteTellLast? ==> !w.t.procs[p].pc.Run?)
  {
    hide WorldInv, Inv, Fits;
    Known(w, p);
  }

  /** Something is lost exactly when a writer has abandoned it and no wakeup of the readers has
      completed since. */
  lemma LostExactly(w: World, e: Event, v: World)
    requires Moves(w, e, v)
    ensures Sized(w) && Actor(e) < |w.prog|
    ensures v.pi.lost <==> Abandons(w, e) || (w.pi.lost && !Wakes(w, e))
  {
    hide WorldInv, Inv, Moves, WorldStep, Next, KernelMove, WriteMove, ReadMove, CloseMove, Reading, Writing, GivesUp;
    Op(w, e, v);
    TellerInWakeup(w, Actor(e));
    match e
    case Kernel(s) => KernelPi(w, s);
    case Do(p, ok) =>
      if Writing(w.prog[p]) { WriterLoses(w, p, ok); }
      else if Reading(w.prog[p]) { ReaderLoses(w, p, ok); }
      else { CloserLoses(w, p, ok); }
    case _ =>
  }
}
