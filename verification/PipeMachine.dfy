/** Readers, writers and closers of one pipe, interleaved over the process table. */
module PipeMachine {
  import opened Basics
  import opened ProcTable
  import opened ProcSafety
  import Pipe

  const LOCK: LockId := 0          // the pipe's lock
  const NREAD: Chan := 1           // the channel readers sleep on
  const NWRITE: Chan := 2          // the channel writers sleep on

  /** Where a process is in pipe.c.  told is how much of src had been stored when the writer
      last woke the readers. */
  datatype Prog =
    | User
    | WriteEnter(src: seq<char>)                        // takes the pipe lock next
    | WriteLoop(src: seq<char>, i: nat, told: nat)      // at the head of the while loop
    | WriteTell(src: seq<char>, i: nat)                 // full: waking the readers
    | WriteDoze(src: seq<char>, i: nat)                 // calls sleep next
    | WriteSleep(src: seq<char>, i: nat)                // asleep until there is room
    | WriteTellLast                                     // after the loop: waking the readers
    | ReadEnter(n: nat)
    | ReadLoop(n: nat)                                  // at the head of the while loop
    | ReadSleep(n: nat)                                 // asleep until there is a byte
    | ReadCopy(n: nat, got: seq<char>)                  // in the copy loop
    | ReadTell(got: seq<char>)                          // waking the writers
    | CloseEnter(writable: bool)
    | CloseTell(writable: bool)                         // flag cleared, in wakeup
    | CloseTest
    | CloseFree                                         // lock released, kfree comes next
    | Leave                                             // lets the lock go next

  /** readref and writeref: a file still refers to that end.  stored and consumed are history:
      every byte put into the ring and taken out of it.  lost is history too: since the readers were
      last woken, a killed writer has left with bytes stored that it had woken nobody for. */
  datatype State = State(ring: Pipe.Ring, readopen: bool, writeopen: bool, readref: bool, writeref: bool, freed: bool,
                         stored: seq<char>, consumed: seq<char>, lost: bool)

  datatype World = World(t: Table, pi: State, prog: seq<Prog>)

  datatype Event =
    | Kernel(s: Step)
    | Write(p: nat, src: seq<char>)
    | Read(p: nat, n: nat)
    | Close(p: nat, writable: bool)
    | Do(p: nat, ok: bool)           // ok: copyin or copyout succeeds

  datatype Move = Move(op: Option<Step>, next: Prog, pi: State)

  function Actor(e: Event): nat {
    match e case Kernel(s) => s.p case Write(p, _) => p case Read(p, _) => p case Close(p, _) => p case Do(p, _) => p
  }

  predicate Sized(w: World) {
    |w.t.procs| == |w.prog| && |w.pi.ring.data| == Pipe.PIPESIZE
  }

  function Does(w: World, s: Step, g: Prog): Option<Move> {
    Some(Move(Some(s), g, w.pi))
  }

  // The wakeup of the readers returns.
  function Told(w: World, p: nat, g: Prog): Option<Move> {
    Some(Move(Some(WakeReturn(p)), g, w.pi.(lost := false)))
  }

  function Goes(w: World, g: Prog): Option<Move> {
    Some(Move(None, g, w.pi))
  }

  predicate Reading(g: Prog) {
    g.ReadEnter? || g.ReadLoop? || g.ReadSleep? || g.ReadCopy? || g.ReadTell?
  }

  predicate Writing(g: Prog) {
    g.WriteEnter? || g.WriteLoop? || g.WriteTell? || g.WriteDoze? || g.WriteSleep? || g.WriteTellLast?
  }

  function KernelMove(w: World, s: Step): Option<Move>
    requires s.p < |w.prog|
  {
    var g := w.prog[s.p];
    match s
    case SleepReturn(_) =>
      Does(w, s, match g case WriteSleep(src, i) => WriteLoop(src, i, i) case ReadSleep(n) => ReadLoop(n) case _ => g)
    case Yield(_) =>
      if g.User? || g.WriteEnter? || g.ReadEnter? || g.CloseEnter? || g.CloseFree? then Does(w, s, g) else None
    case Acquire(_, l) => if g.User? && l != LOCK then Does(w, s, g) else None
    case Release(_, l) => if g.User? && l != LOCK then Does(w, s, g) else None
    case CallSleep(_, _, l) => if g.User? && l != LOCK then Does(w, s, g) else None
    case _ => if InSleep(s) || s.WakeLock? || s.WakeTest? || g.User? then Does(w, s, g) else None
  }

  /** The next step of p in pipewrite. */
  function WriteMove(w: World, p: nat, ok: bool): Option<Move>
    requires Sized(w) && p < |w.prog|
  {
    var pi := w.pi;
    match w.prog[p]
    case WriteEnter(src) => Does(w, Acquire(p, LOCK), WriteLoop(src, 0, 0))
    case WriteLoop(src, i, told) =>
      if i >= |src| then Does(w, CallWakeup(p, NREAD), WriteTellLast)
      else if !pi.readopen || w.t.procs[p].killed then Some(Move(None, Leave, pi.(lost := pi.lost || told < i)))
      else if Pipe.Full(pi.ring) then Does(w, CallWakeup(p, NREAD), WriteTell(src, i))
      else if !ok then Does(w, CallWakeup(p, NREAD), WriteTellLast)
      else Some(Move(None, WriteLoop(src, i + 1, told),
                     pi.(ring := Pipe.Store(pi.ring, src[i]), stored := pi.stored + [src[i]])))
    case WriteTell(src, i) => Told(w, p, WriteDoze(src, i))
    case WriteDoze(src, i) => Does(w, CallSleep(p, NWRITE, LOCK), WriteSleep(src, i))
    case WriteTellLast => Told(w, p, Leave)
    case _ => None
  }

  /** The next step of p in piperead. */
  function ReadMove(w: World, p: nat, ok: bool): Option<Move>
    requires Sized(w) && p < |w.prog|
  {
    var pi := w.pi;
    match w.prog[p]
    case ReadEnter(n) => Does(w, Acquire(p, LOCK), ReadLoop(n))
    case ReadLoop(n) =>
      if !(Pipe.Empty(pi.ring) && pi.writeopen) then Goes(w, ReadCopy(n, []))
      else if w.t.procs[p].killed then Goes(w, Leave)
      else Does(w, CallSleep(p, NREAD, LOCK), ReadSleep(n))
    case ReadCopy(n, got) =>
      if |got| >= n || Pipe.Empty(pi.ring) then Does(w, CallWakeup(p, NWRITE), ReadTell(got)) else
      var ch := Pipe.Front(pi.ring);
      var taken := pi.(ring := Pipe.Take(pi.ring), consumed := pi.consumed + [ch]);
      if ok then Some(Move(None, ReadCopy(n, got + [ch]), taken))
      else Some(Move(Some(CallWakeup(p, NWRITE)), ReadTell(got), taken))
    case ReadTell(got) => Does(w, WakeReturn(p), Leave)
    case _ => None
  }

  // The end is closed; the bytes stay.
  function Shut(pi: State, writable: bool): (shut: State)
    ensures shut.ring == pi.ring && shut.stored == pi.stored && shut.consumed == pi.consumed && shut.lost == pi.lost
  {
    if writable then pi.(writeopen := false) else pi.(readopen := false)
  }

  /** The next step of p in pipeclose, or its release of the lock at the end of the others. */
  function CloseMove(w: World, p: nat): Option<Move>
    requires Sized(w) && p < |w.prog|
  {
    var pi := w.pi;
    match w.prog[p]
    case CloseEnter(writable) =>
      Some(Move(Some(Acquire(p, LOCK)), CloseTell(writable), Shut(pi, writable)))
    case CloseTell(writable) =>
      // the wakeup call itself, then its return
      if w.t.procs[p].pc.Run? then Does(w, CallWakeup(p, if writable then NREAD else NWRITE), CloseTell(writable))
      else if writable then Told(w, p, CloseTest)
      else Does(w, WakeReturn(p), CloseTest)
    case CloseTest =>
      Does(w, Release(p, LOCK), if !pi.readopen && !pi.writeopen then CloseFree else User)
    case CloseFree => Some(Move(None, User, pi.(freed := true)))
    case Leave => Does(w, Release(p, LOCK), User)
    case _ => None
  }

  function PipeMove(w: World, p: nat, ok: bool): Option<Move>
    requires Sized(w) && p < |w.prog|
  {
    if Writing(w.prog[p]) then WriteMove(w, p, ok) else if Reading(w.prog[p]) then ReadMove(w, p, ok)
      else CloseMove(w, p)
  }

  predicate NobodyIn(w: World, writable: bool) {
    forall q :: 0 <= q < |w.prog| ==> !(if writable then Writing(w.prog[q]) else Reading(w.prog[q]))
  }

  /** What an event asks for.  Calls come from file.c: a read or write needs an open file on
      that end, and the last file on an end is closed when nobody is using it. */
  function Plan(w: World, e: Event): Option<Move>
    requires Sized(w) && Actor(e) < |w.prog|
  {
    var idle := w.prog[Actor(e)].User? && w.t.procs[Actor(e)].pc.Run?;
    match e
    case Kernel(s) => KernelMove(w, s)
    case Write(_, src) => if idle && w.pi.writeref then Goes(w, WriteEnter(src)) else None
    case Read(_, n) => if idle && w.pi.readref then Goes(w, ReadEnter(n)) else None
    case Close(_, true) =>
      if idle && w.pi.writeref && NobodyIn(w, true)
        then Some(Move(None, CloseEnter(true), w.pi.(writeref := false))) else None
    case Close(_, false) =>
      if idle && w.pi.readref && NobodyIn(w, false)
        then Some(Move(None, CloseEnter(false), w.pi.(readref := false))) else None
    case Do(p, ok) => PipeMove(w, p, ok)
  }

  function WorldStep(w: World, e: Event): Option<World>
    requires Sized(w)
  {
    if Actor(e) >= |w.prog| then None else
    match Plan(w, e)
    case None => None
    case Some(m) =>
      if m.op.None? then Some(World(w.t, m.pi, w.prog[Actor(e) := m.next])) else
      match Next(w.t, m.op.value)
      case None => None
      case Some(t) => Some(World(t, m.pi, w.prog[Actor(e) := m.next]))
  }

  // ---- the invariant ----

  predicate Owns(w: World, p: nat) {
    HoldsLock(w.t, LOCK, p)
  }

  // Holds the lock, and is between calls.
  predicate Busy(owns: bool, pc: Pc) {
    owns && pc.Run?
  }

  predicate Calling(owns: bool, pc: Pc, c: Chan) {
    owns && InWakeup(pc, c)
  }

  // Holds no lock and may have been preempted.
  predicate Outside(owns: bool, pc: Pc) {
    !owns && (pc.Run? || pc.Yielded?)
  }

  predicate Dozing(owns: bool, pc: Pc, c: Chan) {
    SleepsWith(pc, LOCK) && SleepsOn(pc, c) && (owns <==> pc.Enter? || pc.Locked?)
  }

  predicate EndsWith(s: seq<char>, tail: seq<char>) {
    |tail| <= |s| && s[|s| - |tail|..] == tail
  }

  /** Whether a process has the lock, its place in the process table and what it has seen of the pipe
      fit its place g in the program. */
  predicate Place(pi: State, g: Prog, owns: bool, pc: Pc) {
    match g
    case User => !owns && !SleepsWith(pc, LOCK)
    case WriteEnter(_) => Outside(owns, pc)
    case WriteLoop(src, i, told) =>
      Busy(owns, pc) && told <= i <= |src| && (told < i ==> pi.readopen && !Pipe.Empty(pi.ring))
    case WriteTell(src, i) => Calling(owns, pc, NREAD) && i < |src| && Pipe.Full(pi.ring) && pi.readopen
    case WriteDoze(src, i) => Busy(owns, pc) && i < |src| && Pipe.Full(pi.ring) && pi.readopen
    case WriteSleep(src, i) => Dozing(owns, pc, NWRITE) && i < |src| && (owns ==> Pipe.Full(pi.ring) && pi.readopen)
    case WriteTellLast => Calling(owns, pc, NREAD)
    case ReadEnter(_) => Outside(owns, pc)
    case ReadLoop(_) => Busy(owns, pc)
    case ReadSleep(_) => Dozing(owns, pc, NREAD) && (owns ==> Pipe.Empty(pi.ring) && pi.writeopen)
    case ReadCopy(n, got) => Busy(owns, pc) && |got| <= n && EndsWith(pi.consumed, got)
    case ReadTell(_) => Calling(owns, pc, NWRITE)
    case CloseEnter(writable) =>
      Outside(owns, pc) && (if writable then pi.writeopen && !pi.writeref else pi.readopen && !pi.readref)
    case CloseTell(writable) =>
      && (Busy(owns, pc) || Calling(owns, pc, if writable then NREAD else NWRITE))
      && (if writable then !pi.writeopen else !pi.readopen)
    case CloseTest => Busy(owns, pc)
    case CloseFree => Outside(owns, pc) && !pi.readopen && !pi.writeopen
    case Leave => Busy(owns, pc)
  }

  predicate ProgFits(w: World, p: nat)
    requires Sized(w) && p < |w.prog|
  {
    Place(w.pi, w.prog[p], Owns(w, p), w.t.procs[p].pc)
  }

  // Who uses an end keeps it open.
  predicate UsesFit(w: World, p: nat)
    requires Sized(w) && p < |w.prog|
  {
    && (Reading(w.prog[p]) ==> w.pi.readref)
    && (Writing(w.prog[p]) ==> w.pi.writeref)
    && (w.pi.freed ==> w.prog[p].User?)
  }

  // At most one process closes an end, and who frees the pipe is the last one in it.
  predicate Alone(w: World, p: nat, q: nat)
    requires p < |w.prog| && q < |w.prog|
  {
    && (w.prog[p].CloseEnter? ==> w.prog[p] != w.prog[q])
    && (w.prog[p].CloseFree? ==> w.prog[q].User?)
  }

  predicate StateFits(pi: State) {
    && Pipe.Good(pi.ring) && pi.stored == pi.consumed + Pipe.Queue(pi.ring)
    && (pi.readref ==> pi.readopen) && (pi.writeref ==> pi.writeopen)
    && (pi.freed ==> !pi.readopen && !pi.writeopen)
  }

  // The holder of the lock is on its way to wake the readers, or the writers.
  predicate WillTellReaders(g: Prog) {
    g.WriteTell? || g.WriteTellLast? || (g.WriteLoop? && g.told < g.i) || g == CloseTell(true)
  }

  predicate WillTellWriters(g: Prog) {
    g.ReadCopy? || g.ReadTell? || g == CloseTell(false)
  }

  predicate OwnerIs(w: World, will: Prog -> bool) {
    LOCK in w.t.held && w.t.held[LOCK] < |w.prog| && will(w.prog[w.t.held[LOCK]])
  }

  /** A sleeper has reason to sleep, or is about to be woken. */
  predicate ReaderSleeps(w: World, j: nat)
    requires Sized(w) && j < |w.prog|
  {
    Asleep(w.t, j, NREAD, LOCK) ==>
      (Pipe.Empty(w.pi.ring) && w.pi.writeopen) || OwnerIs(w, WillTellReaders) || w.pi.lost
  }

  predicate WriterSleeps(w: World, j: nat)
    requires Sized(w) && j < |w.prog|
  {
    Asleep(w.t, j, NWRITE, LOCK) ==> (Pipe.Full(w.pi.ring) && w.pi.readopen) || OwnerIs(w, WillTellWriters)
  }

  predicate WorldInv(w: World) {
    && Sized(w) && Inv(w.t) && StateFits(w.pi)
    && (forall p :: 0 <= p < |w.prog| ==> ProgFits(w, p) && UsesFit(w, p) && ReaderSleeps(w, p) && WriterSleeps(w, p))
    && (forall p, q :: 0 <= p < |w.prog| && 0 <= q < |w.prog| && p != q ==> Alone(w, p, q))
  }
}
