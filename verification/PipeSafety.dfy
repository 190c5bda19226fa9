/** What every interleaving of readers, writers and closers of a pipe keeps. */
module PipeSafety {
  import opened Basics
  import opened ProcTable
  import opened ProcSafety
  import opened PipeMachine
  import Pipe

  /** Event e takes w, where the invariant holds, to v. */
  ghost predicate Moves(w: World, e: Event, v: World) {
    && Sized(v) && Sized(w) && |v.prog| == |w.prog| && Actor(e) < |w.prog|
    && WorldInv(w) && Inv(v.t) && WorldStep(w, e) == Some(v)
  }

  lemma StepMoves(w: World, e: Event)
    requires WorldInv(w) && WorldStep(w, e).Some?
    ensures Moves(w, e, WorldStep(w, e).value)
  {
    hide Next, Inv, Plan, ProgFits, UsesFit, ReaderSleeps, WriterSleeps, Alone, StateFits;
    var m := Plan(w, e).value;
    if m.op.Some? { StepKeeps(w.t, m.op.value); }
    SameRingSize(w, e);
  }

  lemma SameRingSize(w: World, e: Event)
    requires Sized(w) && Actor(e) < |w.prog| && Plan(w, e).Some?
    ensures |Plan(w, e).value.pi.ring.data| == Pipe.PIPESIZE
  {
    hide Plan;
    BytesStep(w, e);
  }

  lemma Known(w: World, p: nat)
    requires WorldInv(w) && p < |w.prog|
    ensures Sized(w) && Inv(w.t) && ProgFits(w, p) && Fits(w.t, p)
    ensures UsesFit(w, p) && ReaderSleeps(w, p) && WriterSleeps(w, p)
  {
    hide ProgFits, Fits, UsesFit, ReaderSleeps, WriterSleeps, Alone, StateFits;
  }

  lemma KnownState(w: World)
    requires WorldInv(w)
    ensures StateFits(w.pi)
  {
    hide Inv, ProgFits, Fits, UsesFit, ReaderSleeps, WriterSleeps, Alone, StateFits;
  }

  lemma KnownPair(w: World, p: nat, q: nat)
    requires WorldInv(w) && p < |w.prog| && q < |w.prog| && p != q
    ensures Alone(w, p, q) && Alone(w, q, p)
  {
    hide Inv, ProgFits, Fits, UsesFit, ReaderSleeps, WriterSleeps, Alone, StateFits;
  }

  // The kernel step of an event, if it has one, is its process's.
  lemma Op(w: World, e: Event, v: World)
    requires Moves(w, e, v)
    ensures Sized(v) && Sized(w) && |v.prog| == |w.prog| && Actor(e) < |w.prog|
    ensures WorldInv(w) && Plan(w, e).Some? && Inv(w.t) && Inv(v.t)
    ensures var m := Plan(w, e).value;
            && v.pi == m.pi && v.prog == w.prog[Actor(e) := m.next]
            && if m.op.None? then v.t == w.t else m.op.value.p == Actor(e) && Next(w.t, m.op.value) == Some(v.t)
  {
    hide Next, Inv, WorldInv;
    KnownInv(w);
  }

  lemma KnownInv(w: World)
    requires WorldInv(w)
    ensures Sized(w) && Inv(w.t)
  {
    hide Inv, ProgFits, UsesFit, ReaderSleeps, WriterSleeps, Alone, StateFits;
  }

  // ---- what an event can change ----

  // What q holds and is doing, when another process moves.
  lemma Others(w: World, e: Event, v: World, q: nat)
    requires Moves(w, e, v) && q < |w.prog| && q != Actor(e)
    ensures Sized(w) && Sized(v) && v.prog[q] == w.prog[q]
    ensures Owns(v, q) <==> Owns(w, q)
    ensures if w.t.procs[q].pc.Embryo? || w.t.procs[q].pc.Gone? then v.t.procs[q].pc.Embryo? || v.t.procs[q].pc.Gone?
            else v.t.procs[q].pc == w.t.procs[q].pc
  {
    hide WorldInv, Inv, Fits, Next, Moves, WorldStep, Plan;
    Op(w, e, v);
    var m := Plan(w, e).value;
    if m.op.Some? {
      Bystander(w.t, m.op.value, q);
      assert Owns(v, q) <==> LOCK in Holds(v.t, q);
      assert Owns(w, q) <==> LOCK in Holds(w.t, q);
    }
  }

  // Only a closer that is taking the lock clears a flag; only close drops a reference, when
  // nobody uses that end; and only the last closer frees.
  predicate FlagsMove(w: World, p: nat, m: Move)
    requires p < |w.prog|
  {
    var g, h := w.prog[p], m.next;
    && (m.pi.readopen == w.pi.readopen || (g == CloseEnter(false) && h == CloseTell(false) && !m.pi.readopen))
    && (m.pi.writeopen == w.pi.writeopen || (g == CloseEnter(true) && h == CloseTell(true) && !m.pi.writeopen))
    && (m.pi.readref == w.pi.readref || (h == CloseEnter(false) && w.pi.readref && !m.pi.readref && NobodyIn(w, false)))
    && (m.pi.writeref == w.pi.writeref
        || (h == CloseEnter(true) && w.pi.writeref && !m.pi.writeref && NobodyIn(w, true)))
    && (m.pi.freed == w.pi.freed || (g.CloseFree? && h.User? && m.pi.freed))
    && (Reading(h) ==> Reading(g) || (w.pi.readref && m.pi.readref))
    && (Writing(h) ==> Writing(g) || (w.pi.writeref && m.pi.writeref))
    && (g.User? && !h.User? ==> w.pi.readref || w.pi.writeref)
    && (m.op.Some? && m.op.value.SleepRelease? ==> m.pi == w.pi)
  }

  // What is lost stays lost until the readers have been woken.
  predicate LostMove(w: World, p: nat, m: Move)
    requires p < |w.prog|
  {
    w.pi.lost ==> m.pi.lost || TellsReaders(w.prog[p], m.next, m)
  }

  // A wakeup of the readers returns.
  predicate TellsReaders(g: Prog, h: Prog, m: Move) {
    && m.op.Some? && m.op.value.WakeReturn?
    && WillTellReaders(g) && !WillTellReaders(h) && !g.WriteLoop? && !m.pi.lost
  }

  lemma KernelPi(w: World, s: Step)
    requires Sized(w) && s.p < |w.prog| && KernelMove(w, s).Some?
    ensures var m, g := KernelMove(w, s).value, w.prog[s.p];
            && m.pi == w.pi
            && (Reading(m.next) <==> Reading(g)) && (Writing(m.next) <==> Writing(g)) && (m.next.User? <==> g.User?)
            && (m.next == g || g.WriteSleep? || g.ReadSleep?)
  {
  }

  lemma FlagsStep(w: World, e: Event)
    requires Sized(w) && Actor(e) < |w.prog| && Plan(w, e).Some?
    ensures FlagsMove(w, Actor(e), Plan(w, e).value)
  {
    hide PipeMove, KernelMove;
    match e
    case Kernel(s) => KernelPi(w, s);
    case Do(p, ok) => FlagsDo(w, p, ok);
    case _ =>
  }

  predicate SameFlags(a: State, b: State) {
    && b.readopen == a.readopen && b.writeopen == a.writeopen
    && b.readref == a.readref && b.writeref == a.writeref && b.freed == a.freed
  }

  // A move in a read or a write stays there or leaves, and clears no flag.
  predicate StaysIn(g: Prog, pi: State, m: Move) {
    && SameFlags(pi, m.pi) && !g.User?
    && (if Writing(g) then !Reading(m.next) else Reading(g) && !Writing(m.next))
    && (m.op.Some? ==> !m.op.value.SleepRelease?)
  }

  lemma LoopPi(w: World, p: nat, ok: bool)
    requires Sized(w) && p < |w.prog| && w.prog[p].WriteLoop? && WriteMove(w, p, ok).Some?
    ensures StaysIn(w.prog[p], w.pi, WriteMove(w, p, ok).value)
  {
    hide Pipe.Store, Pipe.Full;
  }

  lemma WriterPi(w: World, p: nat, ok: bool)
    requires Sized(w) && p < |w.prog| && WriteMove(w, p, ok).Some?
    ensures Writing(w.prog[p]) && StaysIn(w.prog[p], w.pi, WriteMove(w, p, ok).value)
  {
    hide Pipe.Store, Pipe.Full;
    if w.prog[p].WriteLoop? { LoopPi(w, p, ok); }
  }

  lemma ReaderPi(w: World, p: nat, ok: bool)
    requires Sized(w) && p < |w.prog| && ReadMove(w, p, ok).Some?
    ensures Reading(w.prog[p]) && StaysIn(w.prog[p], w.pi, ReadMove(w, p, ok).value)
  {
    hide Pipe.Take, Pipe.Front, Pipe.Empty;
  }

  lemma FlagsWriter(w: World, p: nat, ok: bool)
    requires Sized(w) && p < |w.prog| && WriteMove(w, p, ok).Some?
    ensures FlagsMove(w, p, WriteMove(w, p, ok).value)
  {
    hide NobodyIn, WriteMove, Reading, Writing;
    WriterPi(w, p, ok);
  }

  lemma Either(g: Prog)
    ensures !(Reading(g) && Writing(g))
  {
  }

  lemma FlagsReader(w: World, p: nat, ok: bool)
    requires Sized(w) && p < |w.prog| && ReadMove(w, p, ok).Some?
    ensures FlagsMove(w, p, ReadMove(w, p, ok).value)
  {
    hide NobodyIn, ReadMove, Reading, Writing;
    ReaderPi(w, p, ok);
    Either(w.prog[p]);
  }

  // The same for close, but for the flag it clears and the page it frees.
  lemma CloserPi(w: World, p: nat)
    requires Sized(w) && p < |w.prog| && CloseMove(w, p).Some?
    ensures var m, g := CloseMove(w, p).value, w.prog[p];
            && !g.User? && !Reading(m.next) && !Writing(m.next) && (m.op.Some? ==> !m.op.value.SleepRelease?)
            && (if g.CloseEnter? then m.next == CloseTell(g.writable)
                  && m.pi == Shut(w.pi, g.writable)
                else if g.CloseFree? then m.next.User? && m.pi == w.pi.(freed := true)
                else SameFlags(w.pi, m.pi))
  {
    hide Shut;
  }

  lemma FlagsCloser(w: World, p: nat)
    requires Sized(w) && p < |w.prog| && CloseMove(w, p).Some?
    ensures FlagsMove(w, p, CloseMove(w, p).value)
  {
    hide NobodyIn, CloseMove, Reading, Writing;
    CloserPi(w, p);
  }

  lemma FlagsDo(w: World, p: nat, ok: bool)
    requires Sized(w) && p < |w.prog| && PipeMove(w, p, ok).Some?
    ensures FlagsMove(w, p, PipeMove(w, p, ok).value)
  {
    hide NobodyIn, WriteMove, ReadMove, CloseMove, FlagsMove;
    if Writing(w.prog[p]) { FlagsWriter(w, p, ok); }
    else if Reading(w.prog[p]) { FlagsReader(w, p, ok); }
    else { FlagsCloser(w, p); }
  }

  lemma LostStep(w: World, e: Event)
    requires Sized(w) && Actor(e) < |w.prog| && Plan(w, e).Some?
    ensures LostMove(w, Actor(e), Plan(w, e).value)
  {
    hide KernelMove, WriteMove, ReadMove, CloseMove, NobodyIn;
    hide LostMove, Pipe.Full, Pipe.Empty, Pipe.Store, Pipe.Take, Pipe.Front;
    match e
    case Kernel(s) => KernelPi(w, s); LostSame(w, s.p, KernelMove(w, s).value);
    case Do(p, ok) =>
      if Writing(w.prog[p]) { LostWriter(w, p, ok); }
      else if Reading(w.prog[p]) { LostReader(w, p, ok); }
      else { LostCloser(w, p); }
    case _ => LostSame(w, Actor(e), Plan(w, e).value);
  }

  lemma LostSame(w: World, p: nat, m: Move)
    requires p < |w.prog| && m.pi.lost == w.pi.lost
    ensures LostMove(w, p, m)
  {
  }

  lemma LostWriter(w: World, p: nat, ok: bool)
    requires Sized(w) && p < |w.prog| && WriteMove(w, p, ok).Some?
    ensures LostMove(w, p, WriteMove(w, p, ok).value)
  {
    hide Pipe.Store, Pipe.Full;
  }

  lemma LostReader(w: World, p: nat, ok: bool)
    requires Sized(w) && p < |w.prog| && ReadMove(w, p, ok).Some?
    ensures LostMove(w, p, ReadMove(w, p, ok).value)
  {
    hide Pipe.Take, Pipe.Front, Pipe.Empty;
  }

  lemma LostCloser(w: World, p: nat)
    requires Sized(w) && p < |w.prog| && CloseMove(w, p).Some?
    ensures LostMove(w, p, CloseMove(w, p).value)
  {
  }

  // A move does nothing to the ring and the histories, or puts one byte in, or takes one out.
  predicate BytesMove(g: Prog, pi: State, m: Move) {
    && |pi.ring.data| == Pipe.PIPESIZE
    && (|| (m.pi.ring == pi.ring && m.pi.stored == pi.stored && m.pi.consumed == pi.consumed)
        || (g.WriteLoop? && g.i < |g.src| && m.next == WriteLoop(g.src, g.i + 1, g.told) && m.op.None?
            && m.pi.ring == Pipe.Store(pi.ring, g.src[g.i]) && m.pi.stored == pi.stored + [g.src[g.i]]
            && m.pi.consumed == pi.consumed && !Pipe.Full(pi.ring))
        || (m.pi.ring == Pipe.Take(pi.ring) && m.pi.consumed == pi.consumed + [Pipe.Front(pi.ring)]
            && m.pi.stored == pi.stored && !Pipe.Empty(pi.ring)
            && g.ReadCopy? && WillTellWriters(m.next) && (m.op.None? || m.op.value.CallWakeup?)))
    && (m.pi.lost == pi.lost || g.WriteLoop? || TellsReaders(g, m.next, m))
  }

  lemma BytesStep(w: World, e: Event)
    requires Sized(w) && Actor(e) < |w.prog| && Plan(w, e).Some?
    ensures BytesMove(w.prog[Actor(e)], w.pi, Plan(w, e).value)
  {
    hide NobodyIn, PipeMove, KernelMove;
    match e
    case Kernel(s) => KernelPi(w, s);
    case Do(p, ok) => BytesDo(w, p, ok);
    case _ =>
  }

  lemma BytesLoop(w: World, p: nat, ok: bool)
    requires Sized(w) && p < |w.prog| && w.prog[p].WriteLoop? && WriteMove(w, p, ok).Some?
    ensures BytesMove(w.prog[p], w.pi, WriteMove(w, p, ok).value)
  {
    hide Pipe.Store, Pipe.Take, Pipe.Front, Pipe.Full, Pipe.Empty;
  }

  lemma BytesWriter(w: World, p: nat, ok: bool)
    requires Sized(w) && p < |w.prog| && WriteMove(w, p, ok).Some?
    ensures BytesMove(w.prog[p], w.pi, WriteMove(w, p, ok).value)
  {
    hide Pipe.Store, Pipe.Take, Pipe.Front, Pipe.Full, Pipe.Empty;
    if w.prog[p].WriteLoop? { BytesLoop(w, p, ok); }
  }

  lemma BytesReader(w: World, p: nat, ok: bool)
    requires Sized(w) && p < |w.prog| && ReadMove(w, p, ok).Some?
    ensures BytesMove(w.prog[p], w.pi, ReadMove(w, p, ok).value)
  {
    hide NobodyIn, Pipe.Store, Pipe.Take, Pipe.Front, Pipe.Full, Pipe.Empty;
  }

  lemma ShutBytes(w: World, p: nat)
    requires Sized(w) && p < |w.prog| && w.prog[p].CloseEnter?
    ensures var writable := w.prog[p].writable;
            CloseMove(w, p) == Some(Move(Some(Acquire(p, LOCK)), CloseTell(writable), Shut(w.pi, writable)))
  {
    hide Shut;
  }

  lemma CloserBytes(w: World, p: nat)
    requires Sized(w) && p < |w.prog| && CloseMove(w, p).Some?
    ensures var m := CloseMove(w, p).value;
            m.pi.ring == w.pi.ring && m.pi.stored == w.pi.stored && m.pi.consumed == w.pi.consumed
  {
    hide Shut;
    if w.prog[p].CloseEnter? { ShutBytes(w, p); }
  }

  lemma CloserTells(w: World, p: nat)
    requires Sized(w) && p < |w.prog| && CloseMove(w, p).Some?
    ensures var m := CloseMove(w, p).value; m.pi.lost == w.pi.lost || TellsReaders(w.prog[p], m.next, m)
  {
    hide Shut;
  }

  lemma BytesCloser(w: World, p: nat)
    requires Sized(w) && p < |w.prog| && CloseMove(w, p).Some?
    ensures BytesMove(w.prog[p], w.pi, CloseMove(w, p).value)
  {
    hide CloseMove, TellsReaders, Pipe.Store, Pipe.Take, Pipe.Front, Pipe.Full, Pipe.Empty;
    CloserBytes(w, p);
    CloserTells(w, p);
  }

  lemma BytesDo(w: World, p: nat, ok: bool)
    requires Sized(w) && p < |w.prog| && PipeMove(w, p, ok).Some?
    ensures BytesMove(w.prog[p], w.pi, PipeMove(w, p, ok).value)
  {
    hide NobodyIn, WriteMove, ReadMove, CloseMove, BytesMove;
    if Writing(w.prog[p]) { BytesWriter(w, p, ok); }
    else if Reading(w.prog[p]) { BytesReader(w, p, ok); }
    else { BytesCloser(w, p); }
  }

  /** Only the lock's holder touches the ring and the histories. */
  lemma RingStep(w: World, e: Event, v: World)
    requires Moves(w, e, v)
    ensures Owns(w, Actor(e)) ||
            (v.pi.ring == w.pi.ring && v.pi.stored == w.pi.stored && v.pi.consumed == w.pi.consumed
                && v.pi.lost == w.pi.lost)
  {
    hide WorldInv, Inv, Fits, Moves, WorldStep, Plan, Next, UsesFit, Pipe.Store, Pipe.Take, Pipe.Front;
    Op(w, e, v);
    Known(w, Actor(e));
    BytesStep(w, e);
  }

  // A closer has the lock once it has cleared its flag.
  lemma CloserLocks(w: World, e: Event, v: World)
    requires Moves(w, e, v) && w.prog[Actor(e)].CloseEnter? && v.prog[Actor(e)].CloseTell?
    ensures Owns(v, Actor(e))
  {
    hide WorldInv, Inv, Fits, Moves, WorldStep;
    Op(w, e, v);
  }

  lemma BystanderFits(w: World, e: Event, v: World, q: nat)
    requires Moves(w, e, v) && q < |w.prog| && q != Actor(e)
    ensures Sized(v) && q < |v.prog| && ProgFits(v, q) && UsesFit(v, q)
  {
    hide WorldInv, Inv, Next, Moves, WorldStep, Plan, Pipe.Full, Pipe.Empty, EndsWith;
    Op(w, e, v);
    Known(w, q);
    Known(w, Actor(e));
    Others(w, e, v, q);
    RingStep(w, e, v);
    FlagsStep(w, e);
    if w.prog[Actor(e)].CloseEnter? && v.prog[Actor(e)].CloseTell? { CloserLocks(w, e, v); }
    KnownPair(w, q, Actor(e));
  }

  lemma ActorUses(w: World, e: Event, v: World)
    requires Moves(w, e, v)
    ensures Sized(v) && Actor(e) < |v.prog| && UsesFit(v, Actor(e))
  {
    hide WorldInv, Inv, Moves, WorldStep, Next, Plan, ProgFits, Fits, Reading, Writing;
    Op(w, e, v);
    Known(w, Actor(e));
    KnownState(w);
    FlagsStep(w, e);
    NobodyInEnd(w, Actor(e));
  }

  lemma NobodyInEnd(w: World, p: nat)
    requires p < |w.prog|
    ensures NobodyIn(w, false) ==> !Reading(w.prog[p])
    ensures NobodyIn(w, true) ==> !Writing(w.prog[p])
  {
  }

  // The actor's lock and place, before and after.
  lemma ActorTurns(w: World, e: Event, v: World)
    requires Moves(w, e, v)
    ensures Sized(w) && Sized(v) && Actor(e) < |w.prog| == |v.prog| && Plan(w, e).Some?
    ensures var p := Actor(e);
            && Turned(LOCK, Plan(w, e).value.op, Owns(w, p), w.t.procs[p].pc, Owns(v, p), v.t.procs[p].pc)
            && (Plan(w, e).value.op.Some? ==> Plan(w, e).value.op.value.p == p)
  {
    hide WorldInv, Inv, Fits, Next, Moves, WorldStep, Plan, Turn, HoldsLock;
    Op(w, e, v);
    if Plan(w, e).value.op.Some? { Turns(w.t, Plan(w, e).value.op.value, LOCK); }
  }

  lemma KernelLands(w: World, s: Step, has: bool, pc: Pc)
    requires Sized(w) && s.p < |w.prog| && KernelMove(w, s).Some? && ProgFits(w, s.p)
    requires Turn(LOCK, s, Owns(w, s.p), w.t.procs[s.p].pc, has, pc)
    ensures Place(w.pi, KernelMove(w, s).value.next, has, pc)
  {
    hide HoldsLock, Pipe.Full, Pipe.Empty, EndsWith;
  }

  lemma WriterLands(w: World, p: nat, ok: bool, has: bool, pc: Pc)
    requires Sized(w) && p < |w.prog| && WriteMove(w, p, ok).Some? && ProgFits(w, p) && Pipe.Good(w.pi.ring)
    requires var m := WriteMove(w, p, ok).value; Turned(LOCK, m.op, Owns(w, p), w.t.procs[p].pc, has, pc)
    ensures var m := WriteMove(w, p, ok).value; Place(m.pi, m.next, has, pc)
  {
    hide HoldsLock, Pipe.Full, Pipe.Empty, Pipe.Store, EndsWith, Pipe.Good;
    if w.prog[p].WriteLoop? && w.prog[p].i < |w.prog[p].src| { Filled(w.pi.ring, w.prog[p].src[w.prog[p].i]); }
  }

  lemma Filled(r: Pipe.Ring, ch: char)
    requires Pipe.Good(r)
    ensures !Pipe.Full(r) ==> !Pipe.Empty(Pipe.Store(r, ch))
  {
    if !Pipe.Full(r) { Pipe.StoreGood(r, ch); }
  }

  lemma ReaderLands(w: World, p: nat, ok: bool, has: bool, pc: Pc)
    requires Sized(w) && p < |w.prog| && ReadMove(w, p, ok).Some? && ProgFits(w, p)
    requires var m := ReadMove(w, p, ok).value; Turned(LOCK, m.op, Owns(w, p), w.t.procs[p].pc, has, pc)
    ensures var m := ReadMove(w, p, ok).value; Place(m.pi, m.next, has, pc)
  {
    hide HoldsLock, Pipe.Full, Pipe.Empty, Pipe.Take, Pipe.Front;
  }

  lemma CloserLands(w: World, p: nat, has: bool, pc: Pc)
    requires Sized(w) && p < |w.prog| && CloseMove(w, p).Some? && ProgFits(w, p)
    requires var m := CloseMove(w, p).value; Turned(LOCK, m.op, Owns(w, p), w.t.procs[p].pc, has, pc)
    ensures var m := CloseMove(w, p).value; Place(m.pi, m.next, has, pc)
  {
    hide HoldsLock, Pipe.Full, Pipe.Empty, EndsWith;
  }

  // A process that calls write, read or close.
  lemma CallerLands(w: World, e: Event)
    requires Sized(w) && Actor(e) < |w.prog| && !e.Kernel? && !e.Do? && Plan(w, e).Some? && ProgFits(w, Actor(e))
    requires StateFits(w.pi)
    ensures var m := Plan(w, e).value; m.op.None? && Place(m.pi, m.next, Owns(w, Actor(e)), w.t.procs[Actor(e)].pc)
  {
    hide HoldsLock, Pipe.Full, Pipe.Empty, EndsWith, NobodyIn, Pipe.Good, Pipe.Queue;
  }

  lemma ActorFits(w: World, e: Event, v: World)
    requires Moves(w, e, v)
    ensures Sized(v) && Actor(e) < |v.prog| && ProgFits(v, Actor(e))
  {
    hide WorldInv, Inv, Fits, Next, Moves, WorldStep, KernelMove;
    hide WriteMove, ReadMove, CloseMove, NobodyIn, Place, Turn, HoldsLock;
    Op(w, e, v);
    Known(w, Actor(e));
    KnownState(w);
    ActorTurns(w, e, v);
    var p, has, pc := Actor(e), Owns(v, Actor(e)), v.t.procs[Actor(e)].pc;
    if e.Kernel? { KernelMoves(w, e.s); KernelLands(w, e.s, has, pc); }
    else if !e.Do? { CallerLands(w, e); }
    else if Writing(w.prog[p]) { WriterLands(w, p, e.ok, has, pc); }
    else if Reading(w.prog[p]) { ReaderLands(w, p, e.ok, has, pc); }
    else { CloserLands(w, p, has, pc); }
  }

  lemma KernelMoves(w: World, s: Step)
    requires s.p < |w.prog| && KernelMove(w, s).Some?
    ensures KernelMove(w, s).value.op == Some(s) && KernelMove(w, s).value.pi == w.pi
  {
  }

  lemma EventFits(w: World, e: Event, v: World, q: nat)
    requires Moves(w, e, v) && q < |w.prog|
    ensures Sized(v) && q < |v.prog| && ProgFits(v, q) && UsesFit(v, q)
  {
    hide WorldInv, Inv, WorldStep, ProgFits, UsesFit;
    if q != Actor(e) { BystanderFits(w, e, v, q); } else { ActorUses(w, e, v); ActorFits(w, e, v); }
  }

  // ---- who is in the pipe ----

  lemma AlonePair(w: World, e: Event, v: World, p: nat, q: nat)
    requires Moves(w, e, v) && p < |v.prog| && q < |v.prog| && p != q
    ensures Alone(v, p, q)
  {
    hide WorldInv, Inv, Moves, WorldStep, Next, Plan, Pipe.Full, Pipe.Empty, EndsWith, Reading, Writing;
    Op(w, e, v);
    Known(w, p);
    Known(w, q);
    KnownPair(w, p, q);
    KnownState(w);
    if p != Actor(e) { Others(w, e, v, p); }
    if q != Actor(e) { Others(w, e, v, q); }
    NewCloser(w, e, v);
    if !w.pi.readopen && !w.pi.writeopen {
      InPipe(w, p);
      InPipe(w, q);
    }
  }

  // How a process comes to be closing an end or freeing the pipe.
  predicate ClosingMove(pi: State, g: Prog, h: Prog) {
    && (h.CloseEnter? ==> g == h || (g.User? && if h.writable then pi.writeref else pi.readref))
    && (h.CloseFree? ==> g == h || (g.CloseTest? && !pi.readopen && !pi.writeopen))
    && (h.User? || g.User? || pi.readref || pi.writeref || g.CloseEnter? || g.CloseTell? || g.CloseTest?
        || g.CloseFree? || g.Leave?)
    && (g.User? && !h.User? ==> pi.readref || pi.writeref)
  }

  lemma ClosingWriter(w: World, p: nat, ok: bool)
    requires Sized(w) && p < |w.prog| && WriteMove(w, p, ok).Some? && w.pi.writeref
    ensures ClosingMove(w.pi, w.prog[p], WriteMove(w, p, ok).value.next)
  {
    hide Pipe.Full, Pipe.Store;
  }

  lemma ClosingReader(w: World, p: nat, ok: bool)
    requires Sized(w) && p < |w.prog| && ReadMove(w, p, ok).Some? && w.pi.readref
    ensures ClosingMove(w.pi, w.prog[p], ReadMove(w, p, ok).value.next)
  {
    hide Pipe.Empty, Pipe.Take, Pipe.Front;
  }

  lemma ClosingCloser(w: World, p: nat)
    requires Sized(w) && p < |w.prog| && CloseMove(w, p).Some?
    ensures ClosingMove(w.pi, w.prog[p], CloseMove(w, p).value.next)
  {
  }

  lemma ClosingCaller(w: World, e: Event)
    requires Sized(w) && Actor(e) < |w.prog| && !e.Kernel? && !e.Do? && Plan(w, e).Some?
    ensures ClosingMove(w.pi, w.prog[Actor(e)], Plan(w, e).value.next)
  {
    hide NobodyIn;
  }

  lemma ClosingKernel(w: World, s: Step)
    requires s.p < |w.prog| && KernelMove(w, s).Some?
    requires (Reading(w.prog[s.p]) ==> w.pi.readref) && (Writing(w.prog[s.p]) ==> w.pi.writeref)
    ensures ClosingMove(w.pi, w.prog[s.p], KernelMove(w, s).value.next)
  {
  }

  lemma NewCloser(w: World, e: Event, v: World)
    requires Moves(w, e, v)
    ensures Actor(e) < |w.prog| == |v.prog| && ClosingMove(w.pi, w.prog[Actor(e)], v.prog[Actor(e)])
  {
    hide WorldInv, Inv, Moves, WorldStep, Next, ProgFits;
    hide Fits, KernelMove, WriteMove, ReadMove, CloseMove, NobodyIn, ClosingMove;
    Op(w, e, v);
    var p := Actor(e);
    Known(w, p);
    if e.Kernel? { ClosingKernel(w, e.s); }
    else if !e.Do? { ClosingCaller(w, e); }
    else if Writing(w.prog[p]) { ClosingWriter(w, p, e.ok); }
    else if Reading(w.prog[p]) { ClosingReader(w, p, e.ok); }
    else { ClosingCloser(w, p); }
  }

  // With both ends closed, who is in the pipe holds the lock or is freeing it.
  lemma InPipe(w: World, q: nat)
    requires WorldInv(w) && q < |w.prog| && !w.pi.readopen && !w.pi.writeopen
    ensures Sized(w) && (w.prog[q].User? || w.prog[q].CloseFree? || Owns(w, q))
  {
    hide WorldInv, Inv;
    Known(w, q);
    KnownState(w);
  }

  // ---- the bytes ----

  lemma StateKept(w: World, e: Event, v: World)
    requires Moves(w, e, v)
    ensures StateFits(v.pi)
  {
    hide WorldInv, Inv, Moves, WorldStep, Next, Plan, Pipe.Store;
    hide Pipe.Take, Pipe.Front, Pipe.Full, Pipe.Empty, Pipe.Queue, ReaderSleeps, WriterSleeps;
    Op(w, e, v);
    KnownState(w);
    Known(w, Actor(e));
    FlagsStep(w, e);
    BytesStep(w, e);
    if v.pi.ring != w.pi.ring || v.pi.stored != w.pi.stored || v.pi.consumed != w.pi.consumed {
      if v.pi.consumed == w.pi.consumed {
        var g := w.prog[Actor(e)];
        Pipe.StoreAppends(w.pi.ring, g.src[g.i]);
      } else {
        Pipe.TakeRemoves(w.pi.ring);
        var q := Pipe.Queue(w.pi.ring);
        assert w.pi.consumed + q == w.pi.consumed + [q[0]] + q[1..];
      }
    }
  }

  // ---- the sleepers ----

  lemma NewSleeper(w: World, e: Event, v: World, j: nat, c: Chan)
    requires Moves(w, e, v) && j < |w.prog| && Asleep(v.t, j, c, LOCK) && !Asleep(w.t, j, c, LOCK)
    ensures j == Actor(e) && v.pi == w.pi && w.t.procs[j].pc == Locked(c, LOCK) && Owns(w, j)
  {
    hide WorldInv, Inv, Moves, WorldStep, Next, Plan, Fits, Asleep;
    Op(w, e, v);
    assert Plan(w, e).value.op.Some?;
    StepPutsToSleep(w.t, Plan(w, e).value.op.value, j, c, LOCK);
    FlagsStep(w, e);
  }

  lemma NewSleeperFits(w: World, e: Event, v: World, j: nat, c: Chan)
    requires Moves(w, e, v) && j < |w.prog| && Asleep(v.t, j, c, LOCK) && !Asleep(w.t, j, c, LOCK)
    ensures c == NREAD ==> Pipe.Empty(v.pi.ring) && v.pi.writeopen
    ensures c == NWRITE ==> Pipe.Full(v.pi.ring) && v.pi.readopen
  {
    hide WorldInv, Inv, Moves, WorldStep, Next, Plan, Fits, Asleep, Pipe.Empty, Pipe.Full;
    NewSleeper(w, e, v, j, c);
    Op(w, e, v);
    Known(w, j);
  }

  // Whoever is waking sleepers goes on to do so, gives up in a way that is recorded, or has done it.
  lemma ReaderTellerPlans(w: World, e: Event)
    requires Sized(w) && Actor(e) < |w.prog| && Plan(w, e).Some? && ProgFits(w, Actor(e))
    requires WillTellReaders(w.prog[Actor(e)])
    ensures var m := Plan(w, e).value;
            || m.pi.lost || (WillTellReaders(m.next) && Keeps(m.op, w.t.procs[Actor(e)].pc))
            || (m.op == Some(WakeReturn(Actor(e))) && InWakeup(w.t.procs[Actor(e)].pc, NREAD))
  {
    hide HoldsLock, ReadMove, NobodyIn, Pipe.Empty, Pipe.Full, Pipe.Store, EndsWith;
  }

  lemma WriterTellerPlans(w: World, e: Event)
    requires Sized(w) && Actor(e) < |w.prog| && Plan(w, e).Some? && ProgFits(w, Actor(e))
    requires WillTellWriters(w.prog[Actor(e)])
    ensures var m := Plan(w, e).value;
            || (WillTellWriters(m.next) && Keeps(m.op, w.t.procs[Actor(e)].pc))
            || (m.op == Some(WakeReturn(Actor(e))) && InWakeup(w.t.procs[Actor(e)].pc, NWRITE))
  {
    hide HoldsLock, WriteMove, NobodyIn, Pipe.Empty, Pipe.Full, Pipe.Take, Pipe.Front, EndsWith;
  }

  // Not a step that gives up a lock.
  predicate Keeps(op: Option<Step>, pc: Pc) {
    (op.Some? ==> !op.value.Release?) && !pc.Locked?
  }

  lemma ReaderTellerStep(w: World, e: Event, v: World)
    requires Moves(w, e, v)
    ensures Actor(e) < |w.prog| == |v.prog|
    ensures var p := Actor(e);
            Owns(w, p) && WillTellReaders(w.prog[p]) ==>
              (Owns(v, p) && WillTellReaders(v.prog[p])) || v.pi.lost || (p, NREAD, LOCK) in v.t.done
  {
    hide WorldInv, Inv, Moves, WorldStep, Plan, Next, Fits, ProgFits, WillTellReaders, HoldsLock;
    Op(w, e, v);
    Known(w, Actor(e));
    var m := Plan(w, e).value;
    if Owns(w, Actor(e)) && WillTellReaders(w.prog[Actor(e)]) {
      ReaderTellerPlans(w, e);
      ActorTurns(w, e, v);
      if m.op.Some? && m.op.value.WakeReturn? { WakeupDone(w.t, m.op.value, LOCK); }
    }
  }

  lemma WriterTellerStep(w: World, e: Event, v: World)
    requires Moves(w, e, v)
    ensures Actor(e) < |w.prog| == |v.prog|
    ensures var p := Actor(e);
            Owns(w, p) && WillTellWriters(w.prog[p]) ==>
              (Owns(v, p) && WillTellWriters(v.prog[p])) || (p, NWRITE, LOCK) in v.t.done
  {
    hide WorldInv, Inv, Moves, WorldStep, Plan, Next, Fits, ProgFits, WillTellWriters, HoldsLock;
    Op(w, e, v);
    Known(w, Actor(e));
    var m := Plan(w, e).value;
    if Owns(w, Actor(e)) && WillTellWriters(w.prog[Actor(e)]) {
      WriterTellerPlans(w, e);
      ActorTurns(w, e, v);
      if m.op.Some? && m.op.value.WakeReturn? { WakeupDone(w.t, m.op.value, LOCK); }
    }
  }

  /** lost is cleared only when the readers have been woken under the lock. */
  lemma LostCleared(w: World, e: Event, v: World)
    requires Moves(w, e, v) && w.pi.lost && !v.pi.lost
    ensures (Actor(e), NREAD, LOCK) in v.t.done
  {
    hide WorldInv, Inv, Moves, WorldStep, Next, Plan, Fits, Pipe.Empty, Pipe.Full, EndsWith;
    Op(w, e, v);
    Known(w, Actor(e));
    LostStep(w, e);
    ReaderTellerStep(w, e, v);
  }

  lemma RingChanger(w: World, e: Event, v: World)
    requires Moves(w, e, v) && v.pi.ring != w.pi.ring
    ensures Actor(e) < |w.prog| == |v.prog| && Owns(v, Actor(e))
    ensures !Pipe.Empty(w.pi.ring) || WillTellReaders(v.prog[Actor(e)])
    ensures !Pipe.Full(w.pi.ring) || WillTellWriters(v.prog[Actor(e)])
  {
    hide WorldInv, Inv, Moves, WorldStep, Fits, Plan, WillTellWriters, Pipe.Store, Pipe.Take, Pipe.Front;
    Op(w, e, v);
    Known(w, Actor(e));
    BytesStep(w, e);
  }

  lemma OwnerStays(w: World, e: Event, v: World, will: Prog -> bool)
    requires Moves(w, e, v) && OwnerIs(w, will) && w.t.held[LOCK] != Actor(e)
    ensures OwnerIs(v, will)
  {
    hide WorldInv, Inv, Moves, WorldStep, Next, Plan, Fits;
    Op(w, e, v);
    Others(w, e, v, w.t.held[LOCK]);
    assert Owns(v, w.t.held[LOCK]);
  }

  lemma ReaderSleepsKept(w: World, e: Event, v: World, j: nat)
    requires Moves(w, e, v) && j < |v.prog|
    ensures Sized(v) && ReaderSleeps(v, j)
  {
    hide WorldInv, Inv, Moves, WorldStep, Next, Plan;
    hide Fits, Asleep, Pipe.Empty, Pipe.Full, ProgFits, UsesFit, WillTellReaders;
    Op(w, e, v);
    Known(w, j);
    if Asleep(v.t, j, NREAD, LOCK) {
      if !Asleep(w.t, j, NREAD, LOCK) {
        NewSleeperFits(w, e, v, j, NREAD);
      } else {
        ReaderTellerStep(w, e, v);
        if w.pi.lost && !v.pi.lost { LostCleared(w, e, v); }
        if w.prog[Actor(e)].CloseEnter? && v.prog[Actor(e)].CloseTell? { CloserLocks(w, e, v); }
        FlagsStep(w, e);
        if (Actor(e), NREAD, LOCK) in v.t.done { DoneMeans(v.t, Actor(e), NREAD, LOCK, j); }
        if OwnerIs(w, WillTellReaders) && w.t.held[LOCK] != Actor(e) { OwnerStays(w, e, v, WillTellReaders); }
        if v.pi.ring != w.pi.ring { RingChanger(w, e, v); }
        Tells();
      }
    }
  }

  lemma Tells()
    ensures WillTellReaders(CloseTell(true)) && WillTellWriters(CloseTell(false))
  {
  }

  lemma WriterSleepsKept(w: World, e: Event, v: World, j: nat)
    requires Moves(w, e, v) && j < |v.prog|
    ensures Sized(v) && WriterSleeps(v, j)
  {
    hide WorldInv, Inv, Moves, WorldStep, Next, Plan;
    hide Fits, Asleep, Pipe.Empty, Pipe.Full, ProgFits, UsesFit, WillTellWriters;
    Op(w, e, v);
    Known(w, j);
    if Asleep(v.t, j, NWRITE, LOCK) {
      if !Asleep(w.t, j, NWRITE, LOCK) {
        NewSleeperFits(w, e, v, j, NWRITE);
      } else {
        WriterTellerStep(w, e, v);
        if w.prog[Actor(e)].CloseEnter? && v.prog[Actor(e)].CloseTell? { CloserLocks(w, e, v); }
        FlagsStep(w, e);
        if (Actor(e), NWRITE, LOCK) in v.t.done { DoneMeans(v.t, Actor(e), NWRITE, LOCK, j); }
        if OwnerIs(w, WillTellWriters) && w.t.held[LOCK] != Actor(e) { OwnerStays(w, e, v, WillTellWriters); }
        if v.pi.ring != w.pi.ring { RingChanger(w, e, v); }
        Tells();
      }
    }
  }

  /** Every interleaving keeps the invariant. */
  lemma EventKeeps(w: World, e: Event)
    requires WorldInv(w) && WorldStep(w, e).Some?
    ensures WorldInv(WorldStep(w, e).value)
  {
    hide Inv, Moves, WorldStep, ProgFits, UsesFit, ReaderSleeps, WriterSleeps, Alone, StateFits;
    var v := WorldStep(w, e).value;
    StepMoves(w, e);
    Op(w, e, v);
    forall p | 0 <= p < |v.prog| ensures ProgFits(v, p) && UsesFit(v, p) && ReaderSleeps(v, p) && WriterSleeps(v, p) {
      EventFits(w, e, v, p);
      ReaderSleepsKept(w, e, v, p);
      WriterSleepsKept(w, e, v, p);
    }
    forall p, q | 0 <= p < |v.prog| && 0 <= q < |v.prog| && p != q ensures Alone(v, p, q) { AlonePair(w, e, v, p, q); }
    StateKept(w, e, v);
  }
}
