/** What one call of pipewrite or piperead does, whatever others do meanwhile: which bytes it moves,
    when it stops, and what its answer means. */
module PipeCalls {
  import opened ProcTable
  import opened PipeMachine
  import opened PipeSafety
  import opened PipeRuns
  import Pipe

  /** p's call, from the events: what it was asked to write, or how much to read, the bytes it has put
      into the ring or taken out of it so far, and whether copying one to or from the user has failed. */
  datatype Call = Call(src: seq<char>, n: nat, moved: seq<char>, failed: bool)

  // What grew in a history.
  function Grown(a: seq<char>, b: seq<char>): seq<char> {
    if |a| <= |b| then b[|a|..] else []
  }

  // p is about to copy a byte: one is there to be read, or there is room for one to be written.
  predicate Copies(w: World, p: nat, c: Call)
    requires p < |w.prog| == |w.t.procs|
  {
    || (w.prog[p].ReadCopy? && |c.moved| < c.n && !Pipe.Empty(w.pi.ring))
    || (w.prog[p].WriteLoop? && |c.moved| < |c.src| && !Pipe.Full(w.pi.ring) && w.pi.readopen
        && !w.t.procs[p].killed)
  }

  function After(c: Call, w: World, e: Event, v: World, p: nat): Call
    requires Sized(w) && p < |w.prog|
  {
    if Actor(e) != p then c else
    match e
    case Write(_, src) => Call(src, 0, [], false)
    case Read(_, n) => Call([], n, [], false)
    case _ =>
      c.(moved := c.moved + Grown(w.pi.stored, v.pi.stored) + Grown(w.pi.consumed, v.pi.consumed),
         failed := c.failed || (e == Do(p, false) && Copies(w, p, c)))
  }

  function CallOf(w: World, es: seq<Event>, p: nat): Call
    requires Sized(w) && p < |w.prog| && Exec(w, es).Some?
  {
    if es == [] then Call([], 0, [], false) else
    var fs := es[..|es| - 1];
    After(CallOf(w, fs, p), Exec(w, fs).value, es[|es| - 1], Exec(w, es).value, p)
  }

  // i bytes of the call's own have been stored.
  predicate Stored(c: Call, src: seq<char>, i: nat) {
    src == c.src && i <= |src| && c.moved == src[..i] && !c.failed
  }

  /** The answer of a read: got has been copied out, and reading stopped because copying failed, with
      one more byte taken, or because n bytes had been read, or because the ring was empty; nothing is
      the answer for n > 0 only when nobody can write any more. */
  predicate Answers(pi: State, c: Call, got: seq<char>) {
    && |got| <= c.n && got <= c.moved
    && |c.moved| == |got| + (if c.failed then 1 else 0)
    && (c.failed || |got| == c.n || Pipe.Empty(pi.ring))
    && (!c.failed && got == [] && c.n > 0 ==> Pipe.Empty(pi.ring) && !pi.writeopen)
  }

  predicate CallFits(pi: State, g: Prog, c: Call) {
    match g
    case WriteEnter(src) => Stored(c, src, 0)
    case WriteLoop(src, i, _) => Stored(c, src, i)
    case WriteTell(src, i) => Stored(c, src, i)
    case WriteDoze(src, i) => Stored(c, src, i)
    case WriteSleep(src, i) => Stored(c, src, i)
    case WriteTellLast => c.moved <= c.src && (c.failed || c.moved == c.src)
    case ReadEnter(n) => n == c.n && c.moved == [] && !c.failed
    case ReadLoop(n) => n == c.n && c.moved == [] && !c.failed
    case ReadSleep(n) => n == c.n && c.moved == [] && !c.failed
    case ReadCopy(n, got) =>
      n == c.n && got == c.moved && |got| <= n && !c.failed && (got == [] ==> !Pipe.Empty(pi.ring) || !pi.writeopen)
    case ReadTell(got) => Answers(pi, c, got)
    case _ => true
  }

  // The call after a step of its own that moves the bytes more.
  function Moved(c: Call, w: World, p: nat, ok: bool, more: seq<char>): Call
    requires Sized(w) && p < |w.prog|
  {
    c.(moved := c.moved + more, failed := c.failed || (!ok && Copies(w, p, c)))
  }

  lemma LoopCalls(w: World, p: nat, ok: bool, c: Call)
    requires Sized(w) && p < |w.prog| && WriteMove(w, p, ok).Some? && CallFits(w.pi, w.prog[p], c)
    requires w.prog[p].WriteLoop?
    ensures var m := WriteMove(w, p, ok).value;
            && m.pi.consumed == w.pi.consumed
            && CallFits(m.pi, m.next, Moved(c, w, p, ok, Grown(w.pi.stored, m.pi.stored)))
  {
    hide Pipe.Full, Pipe.Empty, Pipe.Store, Answers, CallFits;
    var g, m := w.prog[p], WriteMove(w, p, ok).value;
    LoopStored(w.pi, g, c);
    if m.next.WriteLoop? {
      assert Grown(w.pi.stored, m.pi.stored) == [g.src[g.i]];
      StoredMore(c, g.src, g.i, m.pi, g.told);
    } else {
      assert Grown(w.pi.stored, m.pi.stored) == [];
      assert c.moved + [] == c.moved;
      LoopEnds(m.pi, m.next, g, c, !ok && Copies(w, p, c));
    }
  }

  lemma LoopStored(pi: State, g: Prog, c: Call)
    requires g.WriteLoop? && CallFits(pi, g, c)
    ensures Stored(c, g.src, g.i)
  {
  }

  lemma StoredMore(c: Call, src: seq<char>, i: nat, pi: State, told: nat)
    requires Stored(c, src, i) && i < |src|
    ensures CallFits(pi, WriteLoop(src, i + 1, told), c.(moved := c.moved + [src[i]]))
  {
  }

  lemma LoopEnds(pi: State, h: Prog, g: Prog, c: Call, fails: bool)
    requires g.WriteLoop? && Stored(c, g.src, g.i)
    requires h.Leave? || (!fails && h == WriteTell(g.src, g.i)) || (h.WriteTellLast? && (fails || g.i == |g.src|))
    ensures CallFits(pi, h, c.(failed := c.failed || fails))
  {
  }

  lemma WriterCalls(w: World, p: nat, ok: bool, c: Call)
    requires Sized(w) && p < |w.prog| && WriteMove(w, p, ok).Some? && CallFits(w.pi, w.prog[p], c)
    ensures var m := WriteMove(w, p, ok).value;
            && m.pi.consumed == w.pi.consumed
            && CallFits(m.pi, m.next, Moved(c, w, p, ok, Grown(w.pi.stored, m.pi.stored)))
  {
    hide Pipe.Full, Pipe.Empty, Pipe.Store, Answers;
    if w.prog[p].WriteLoop? {
      LoopCalls(w, p, ok, c);
    } else {
      var m := WriteMove(w, p, ok).value;
      assert Grown(w.pi.stored, m.pi.stored) == [] && c.moved + [] == c.moved;
    }
  }

  lemma ReaderCalls(w: World, p: nat, ok: bool, c: Call)
    requires Sized(w) && p < |w.prog| && ReadMove(w, p, ok).Some? && CallFits(w.pi, w.prog[p], c)
    ensures var m := ReadMove(w, p, ok).value;
            && m.pi.stored == w.pi.stored
            && CallFits(m.pi, m.next, Moved(c, w, p, ok, Grown(w.pi.consumed, m.pi.consumed)))
  {
    hide Pipe.Full, Pipe.Empty, Pipe.Take, Pipe.Front;
    var m := ReadMove(w, p, ok).value;
    if w.prog[p].ReadCopy? && |c.moved| < c.n && !Pipe.Empty(w.pi.ring) {
      assert Grown(w.pi.consumed, m.pi.consumed) == [Pipe.Front(w.pi.ring)];
    } else {
      assert Grown(w.pi.consumed, m.pi.consumed) == [] && c.moved + [] == c.moved;
    }
  }

  lemma CloserCalls(w: World, p: nat, c: Call)
    requires Sized(w) && p < |w.prog| && CloseMove(w, p).Some?
    ensures var m := CloseMove(w, p).value;
            && m.pi.stored == w.pi.stored && m.pi.consumed == w.pi.consumed && CallFits(m.pi, m.next, c)
            && !w.prog[p].ReadCopy? && !w.prog[p].WriteLoop?
  {
    hide Shut, Answers, Stored;
    CloserBytes(w, p);
    CloserEnds(w, p, c);
  }

  lemma CloserEnds(w: World, p: nat, c: Call)
    requires Sized(w) && p < |w.prog| && CloseMove(w, p).Some?
    ensures CallFits(CloseMove(w, p).value.pi, CloseMove(w, p).value.next, c)
    ensures !w.prog[p].ReadCopy? && !w.prog[p].WriteLoop?
  {
    hide Shut, Answers, Stored;
    CloserPi(w, p);
  }

  lemma KernelCalls(w: World, s: Step, c: Call)
    requires Sized(w) && s.p < |w.prog| && KernelMove(w, s).Some? && CallFits(w.pi, w.prog[s.p], c)
    ensures CallFits(w.pi, KernelMove(w, s).value.next, c) && KernelMove(w, s).value.pi == w.pi
  {
    hide Pipe.Full, Pipe.Empty, Answers;
    KernelPi(w, s);
  }

  lemma CallerCalls(w: World, e: Event, v: World, c: Call)
    requires Sized(w) && Actor(e) < |w.prog| && !e.Kernel? && !e.Do? && Plan(w, e).Some?
    requires v.pi == Plan(w, e).value.pi
    ensures CallFits(v.pi, Plan(w, e).value.next, After(c, w, e, v, Actor(e)))
  {
    hide NobodyIn, Answers;
  }

  // Bytes go one way only.
  lemma OneWay(c: Call, w: World, p: nat, ok: bool, v: World)
    requires Sized(w) && p < |w.prog|
    ensures v.pi.consumed == w.pi.consumed ==>
              After(c, w, Do(p, ok), v, p) == Moved(c, w, p, ok, Grown(w.pi.stored, v.pi.stored))
    ensures v.pi.stored == w.pi.stored ==>
              After(c, w, Do(p, ok), v, p) == Moved(c, w, p, ok, Grown(w.pi.consumed, v.pi.consumed))
  {
    hide Copies;
    var a, b := Grown(w.pi.stored, v.pi.stored), Grown(w.pi.consumed, v.pi.consumed);
    assert b == [] ==> c.moved + a + b == c.moved + a;
    assert a == [] ==> c.moved + a + b == c.moved + b;
  }

  // A step of proc.c moves no byte.
  lemma SameCall(c: Call, w: World, e: Event, v: World)
    requires Sized(w) && Actor(e) < |w.prog| && e.Kernel? && v.pi == w.pi
    ensures After(c, w, e, v, Actor(e)) == c
  {
  }

  lemma CallByActor(w: World, e: Event, v: World, c: Call)
    requires Moves(w, e, v) && CallFits(w.pi, w.prog[Actor(e)], c)
    ensures Sized(w) && Actor(e) < |w.prog| == |v.prog|
    ensures CallFits(v.pi, v.prog[Actor(e)], After(c, w, e, v, Actor(e)))
  {
    hide WorldInv, Inv, Moves, WorldStep, Next, KernelMove, WriteMove, ReadMove, CloseMove, CallFits, NobodyIn;
    Op(w, e, v);
    var p := Actor(e);
    if e.Kernel? {
      KernelCalls(w, e.s, c);
      SameCall(c, w, e, v);
    } else if !e.Do? {
      CallerCalls(w, e, v, c);
    } else if Writing(w.prog[p]) {
      WriterCalls(w, p, e.ok, c);
      OneWay(c, w, p, e.ok, v);
    } else if Reading(w.prog[p]) {
      ReaderCalls(w, p, e.ok, c);
      OneWay(c, w, p, e.ok, v);
    } else {
      CloserCalls(w, p, c);
      OneWay(c, w, p, e.ok, v);
      assert After(c, w, e, v, p) == c by {
        assert Grown(w.pi.stored, v.pi.stored) == [] && c.moved + [] == c.moved;
      }
    }
  }

  lemma CallByBystander(w: World, e: Event, v: World, q: nat, c: Call)
    requires Moves(w, e, v) && q < |w.prog| && q != Actor(e) && CallFits(w.pi, w.prog[q], c)
    ensures Sized(w) && |v.prog| == |w.prog| && CallFits(v.pi, v.prog[q], After(c, w, e, v, q))
  {
    hide WorldInv, Inv, Next, Moves, WorldStep, Plan, Fits, UsesFit, Pipe.Full, Pipe.Empty;
    Op(w, e, v);
    Known(w, q);
    Others(w, e, v, q);
    RingStep(w, e, v);
    FlagsStep(w, e);
    if w.prog[Actor(e)].CloseEnter? && v.prog[Actor(e)].CloseTell? { CloserLocks(w, e, v); }
  }

  lemma {:induction false} CallKnown(w: World, es: seq<Event>, p: nat)
    requires Opened(w) && Sized(w) && p < |w.prog| && Exec(w, es).Some?
    ensures var v := Exec(w, es).value; CallFits(v.pi, v.prog[p], CallOf(w, es, p))
  {
    hide WorldInv, WorldStep, CallFits, Moves, After;
    if es == [] {
      OpenedCall(w, p);
    } else {
      var n := |es| - 1;
      var m, v := Exec(w, es[..n]).value, Exec(w, es).value;
      CallKnown(w, es[..n], p);
      ExecInv(w, es[..n]);
      StepMoves(m, es[n]);
      if p == Actor(es[n]) { CallByActor(m, es[n], v, CallOf(w, es[..n], p)); }
      else { CallByBystander(m, es[n], v, p, CallOf(w, es[..n], p)); }
    }
  }

  lemma OpenedCall(w: World, p: nat)
    requires Opened(w) && p < |w.prog|
    ensures CallFits(w.pi, w.prog[p], Call([], 0, [], false))
  {
  }

  /** The answer of piperead, in every run: a reader that has stopped copying out and is waking the
      writers answers with bytes taken from the ring in its call, and with all it was asked for unless
      copying failed or the ring is empty; it answers with nothing only if nobody can write any more. */
  lemma ReadAnswers(w: World, es: seq<Event>, p: nat)
    requires Opened(w) && Sized(w) && p < |w.prog| && Exec(w, es).Some?
    ensures var v := Exec(w, es).value; v.prog[p].ReadTell? ==> Answers(v.pi, CallOf(w, es, p), v.prog[p].got)
  {
    hide Exec, CallOf, Answers;
    CallKnown(w, es, p);
  }

  /** The answer of pipewrite: a writer that has left its loop has stored a first part of what it was
      given, in order, and all of it unless copying failed. */
  lemma WriteAnswers(w: World, es: seq<Event>, p: nat)
    requires Opened(w) && Sized(w) && p < |w.prog| && Exec(w, es).Some?
    ensures var v, c := Exec(w, es).value, CallOf(w, es, p);
            && (Writing(v.prog[p]) ==> c.moved <= c.src)
            && (v.prog[p].WriteTellLast? ==> c.failed || c.moved == c.src)
  {
    hide Exec, CallOf, Answers;
    CallKnown(w, es, p);
  }

  /** When a call gives up: a reader before its first byte only if killed while the pipe is empty and
      can still be written, a writer before its last only if killed or nobody can read. */
  lemma GivesUp(w: World, e: Event, v: World)
    requires Moves(w, e, v)
    ensures Sized(w) && Actor(e) < |w.prog| == |v.prog|
    ensures var p := Actor(e);
            && (w.prog[p].ReadLoop? && v.prog[p].Leave? ==>
                  w.t.procs[p].killed && Pipe.Empty(w.pi.ring) && w.pi.writeopen && v.pi == w.pi)
            && (w.prog[p].WriteLoop? && v.prog[p].Leave? ==>
                  (w.t.procs[p].killed || !w.pi.readopen) && w.prog[p].i < |w.prog[p].src|)
  {
    hide WorldInv, Inv, Next, Moves, WorldStep, Fits, UsesFit, NobodyIn, Pipe.Full, Pipe.Empty, Pipe.Store, Pipe.Front;
    Op(w, e, v);
  }
}
