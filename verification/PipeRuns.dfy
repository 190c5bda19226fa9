/** Whole runs of one pipe, from any process table, with any number of readers and writers. */
module PipeRuns {
  import opened Basics
  import opened ProcTable
  import opened PipeMachine
  import opened PipeSafety
  import Pipe

  /** A pipe as pipealloc leaves it, in a table where nobody has to do with it yet. */
  ghost predicate Opened(w: World) {
    && Sized(w) && Inv(w.t) && LOCK !in w.t.held
    && w.pi == State(w.pi.ring, true, true, true, true, false, [], [], false)
    && w.pi.ring.nread == 0 && w.pi.ring.nwrite == 0
    && (forall p :: 0 <= p < |w.prog| ==> w.prog[p].User? && !SleepsWith(w.t.procs[p].pc, LOCK))
  }

  function Exec(w: World, es: seq<Event>): (o: Option<World>)
    requires Sized(w)
    ensures o.Some? ==> Sized(o.value) && |o.value.prog| == |w.prog|
  {
    if es == [] then Some(w) else
    match Exec(w, es[..|es| - 1])
    case None => None
    case Some(v) => Stepped(v, es[|es| - 1])
  }

  function Stepped(w: World, e: Event): (o: Option<World>)
    requires Sized(w)
    ensures o == WorldStep(w, e)
    ensures o.Some? ==> Sized(o.value) && |o.value.prog| == |w.prog|
  {
    var o := WorldStep(w, e);
    assert o.Some? ==> Sized(o.value) && |o.value.prog| == |w.prog| by { if o.Some? { StepSizes(w, e); } }
    o
  }

  lemma StepSizes(w: World, e: Event)
    requires Sized(w) && WorldStep(w, e).Some?
    ensures Sized(WorldStep(w, e).value) && |WorldStep(w, e).value.prog| == |w.prog|
  {
    hide Next, Plan;
    SameRingSize(w, e);
  }

  lemma OpenedInv(w: World)
    requires Opened(w)
    ensures WorldInv(w)
  {
    hide Fits;
    forall p | 0 <= p < |w.prog| ensures ProgFits(w, p) && UsesFit(w, p) && ReaderSleeps(w, p) && WriterSleeps(w, p) {
      assert w.prog[p].User?;
      SleeperHasLock(w.t, p);
    }
  }

  lemma SleeperHasLock(t: Table, j: nat)
    requires j < |t.procs|
    ensures forall c :: Asleep(t, j, c, LOCK) ==> SleepsWith(t.procs[j].pc, LOCK)
  {
  }

  lemma {:induction false} ExecInv(w: World, es: seq<Event>)
    requires Opened(w) && Exec(w, es).Some?
    ensures WorldInv(Exec(w, es).value)
  {
    hide WorldInv, WorldStep;
    if es == [] {
      OpenedInv(w);
    } else {
      ExecInv(w, es[..|es| - 1]);
      EventKeeps(Exec(w, es[..|es| - 1]).value, es[|es| - 1]);
    }
  }

  /** First in, first out, and never more than PIPESIZE bytes, through any number of wraps of the
      counters: what has been consumed is a prefix of what has been stored, and the rest of it is
      exactly what the ring holds. */
  lemma Fifo(w: World, es: seq<Event>)
    requires Opened(w) && Exec(w, es).Some?
    ensures var pi := Exec(w, es).value.pi;
            && Pipe.Good(pi.ring) && pi.stored == pi.consumed + Pipe.Queue(pi.ring)
            && pi.consumed <= pi.stored && |pi.stored| - |pi.consumed| <= Pipe.PIPESIZE
  {
    hide WorldInv, Exec, Pipe.Queue;
    ExecInv(w, es);
    KnownState(Exec(w, es).value);
  }

  /** What a reader has copied out so far is contiguous: the last bytes consumed by anybody. */
  lemma ReadsAreContiguous(w: World, es: seq<Event>, p: nat)
    requires Opened(w) && Exec(w, es).Some? && p < |w.prog|
    ensures var v := Exec(w, es).value; v.prog[p].ReadCopy? ==> EndsWith(v.pi.consumed, v.prog[p].got)
  {
    hide WorldInv, Exec, EndsWith;
    ExecInv(w, es);
    Known(Exec(w, es).value, p);
  }

  /** Whenever the pipe lock is free, a writer sleeps only on a full pipe that somebody can still
      read, kills or no kills; and a reader sleeps only on an empty pipe that somebody can still
      write, unless a killed writer has left bytes behind without waking anybody. */
  lemma SleepersHaveReason(w: World, es: seq<Event>, j: nat)
    requires Opened(w) && Exec(w, es).Some? && LOCK !in Exec(w, es).value.t.held && j < |w.prog|
    ensures var v := Exec(w, es).value;
            && (Asleep(v.t, j, NWRITE, LOCK) ==> Pipe.Full(v.pi.ring) && v.pi.readopen)
            && (Asleep(v.t, j, NREAD, LOCK) ==> (Pipe.Empty(v.pi.ring) && v.pi.writeopen) || v.pi.lost)
  {
    hide WorldInv, Exec, Asleep, Pipe.Full, Pipe.Empty;
    ExecInv(w, es);
    Known(Exec(w, es).value, j);
  }

  predicate NoKill(es: seq<Event>) {
    forall e :: e in es ==> !(e.Kernel? && e.s.Kill?)
  }

  ghost predicate NobodyKilled(w: World)
    requires Sized(w)
  {
    forall p :: 0 <= p < |w.prog| ==> !w.t.procs[p].killed
  }

  lemma NotKilled(t: Table, s: Step, i: nat)
    requires Next(t, s).Some? && i < |t.procs| && !s.Kill? && !t.procs[i].killed
    ensures i < |Next(t, s).value.procs| && !Next(t, s).value.procs[i].killed
  {
  }

  lemma NotKilledBy(w: World, e: Event, v: World, i: nat)
    requires Moves(w, e, v) && !(e.Kernel? && e.s.Kill?) && i < |w.prog| && NobodyKilled(w)
    ensures i < |v.t.procs| && !v.t.procs[i].killed
  {
    hide WorldInv, Inv, Moves, WorldStep, Next, Pipe.Full, Pipe.Empty, Pipe.Store, Pipe.Take, Pipe.Front;
    Op(w, e, v);
    var m := Plan(w, e).value;
    if m.op.Some? { NotKilled(w.t, m.op.value, i); }
  }

  lemma NotLost(w: World, e: Event, v: World)
    requires Moves(w, e, v) && NobodyKilled(w) && !w.pi.lost
    ensures !v.pi.lost
  {
    hide WorldInv, Inv, Moves, WorldStep, Next, Fits;
    hide KernelMove, CloseMove, ReadMove, Pipe.Full, Pipe.Empty, Pipe.Store;
    Op(w, e, v);
    Known(w, Actor(e));
    BytesStep(w, e);
    if e.Kernel? { KernelPi(w, e.s); } else if e.Do? && Reading(w.prog[e.p]) { BytesLost(w, e.p, e.ok); }
  }

  lemma BytesLost(w: World, p: nat, ok: bool)
    requires Sized(w) && p < |w.prog| && ReadMove(w, p, ok).Some?
    ensures ReadMove(w, p, ok).value.pi.lost == w.pi.lost
  {
  }

  lemma {:induction false} NoKillNoLoss(w: World, es: seq<Event>)
    requires Opened(w) && Sized(w) && NobodyKilled(w) && NoKill(es) && Exec(w, es).Some?
    ensures NobodyKilled(Exec(w, es).value) && !Exec(w, es).value.pi.lost
  {
    if es != [] {
      hide WorldInv, WorldStep;
      var n := |es| - 1;
      assert forall e :: e in es[..n] ==> e in es;
      NoKillNoLoss(w, es[..n]);
      ExecInv(w, es[..n]);
      var m, v := Exec(w, es[..n]).value, Exec(w, es).value;
      assert es[n] in es;
      StepMoves(m, es[n]);
      NotLost(m, es[n], v);
      forall i | 0 <= i < |v.prog| ensures !v.t.procs[i].killed { NotKilledBy(m, es[n], v, i); }
    }
  }

  /** In a run without kills, whenever the pipe lock is free, a reader sleeps only on an empty
      pipe with its write end open, and a reader and a writer are never both asleep. */
  lemma NeverBothStuck(w: World, es: seq<Event>, i: nat, j: nat)
    requires Opened(w) && Sized(w) && NobodyKilled(w) && NoKill(es) && Exec(w, es).Some?
    requires LOCK !in Exec(w, es).value.t.held && i < |w.prog| && j < |w.prog|
    ensures var v := Exec(w, es).value;
            && (Asleep(v.t, i, NREAD, LOCK) ==> Pipe.Empty(v.pi.ring) && v.pi.writeopen)
            && !(Asleep(v.t, i, NREAD, LOCK) && Asleep(v.t, j, NWRITE, LOCK))
  {
    hide WorldInv, Exec, Asleep;
    NoKillNoLoss(w, es);
    SleepersHaveReason(w, es, i);
    SleepersHaveReason(w, es, j);
    ExecInv(w, es);
    KnownState(Exec(w, es).value);
  }

  /** The page of a pipe that has been freed is in nobody's hands. */
  lemma FreedIsUnused(w: World, es: seq<Event>, p: nat)
    requires Opened(w) && Exec(w, es).Some? && p < |w.prog|
    ensures Exec(w, es).value.pi.freed ==> Exec(w, es).value.prog[p].User?
  {
    hide WorldInv, Exec;
    ExecInv(w, es);
    Known(Exec(w, es).value, p);
  }
}
