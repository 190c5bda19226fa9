/** What wait answers, and that fork leaves no process half made: laws about whole runs, stated on
    the parent fields and the statuses. */
module WaitAnswer {
  import opened Basics
  import opened ProcTable
  import opened WaitExit
  import opened WaitSafety
  import ProcSafety

  /** Some process before position k has parent p. */
  ghost predicate ChildBefore(w: World, p: nat, k: nat)
    requires Sized(w)
  {
    exists i :: 0 <= i < k && i < |w.prog| && w.parent[i] == Some(p)
  }

  ghost predicate HasChild(w: World, p: nat)
    requires Sized(w)
  {
    ChildBefore(w, p, |w.prog|)
  }

  /** havekids says whether the scan has passed a child. */
  ghost predicate KidsFit(w: World, p: nat)
    requires Sized(w) && p < |w.prog|
  {
    match w.prog[p]
    case WaitScan(k, kids) => kids <==> ChildBefore(w, p, k)
    case WaitTest(k, kids) => kids <==> ChildBefore(w, p, k)
    case _ => true
  }

  predicate Scans(g: Prog) {
    g.WaitScan? || g.WaitTest?
  }

  // What is planned for a scan.
  lemma KidsPlans(w: World, e: Event)
    requires Sized(w) && Actor(e) < |w.prog| && Plan(w, e).Some? && ProgFits(w, Actor(e))
    requires Scans(Plan(w, e).value.next)
    ensures var g, m := w.prog[Actor(e)], Plan(w, e).value;
            && m.parent == w.parent
            && (m.next == g || (m.next == WaitScan(0, false) && !Scans(g))
                || (g.WaitScan? && g.i < |w.prog| && w.parent[g.i] == Some(Actor(e)) && m.next == WaitTest(g.i, g.kids))
                || (g.WaitScan? && g.i < |w.prog| && w.parent[g.i] != Some(Actor(e))
                    && m.next == WaitScan(g.i + 1, g.kids))
                || (g.WaitTest? && g.i < |w.prog| && w.parent[g.i] == Some(Actor(e))
                    && m.next == WaitScan(g.i + 1, true)))
  {
    hide ProcSafety.HoldsLock;
  }

  lemma KidsByActor(w: World, e: Event, v: World)
    requires Moves(w, e, v) && Actor(e) < |w.prog| && Sized(w) && KidsFit(w, Actor(e))
    ensures Actor(e) < |v.prog| && Sized(v) && KidsFit(v, Actor(e))
  {
    hide WorldInv, Inv, Moves, WorldStep, Next, Plan, ProgFits, Fits, Scanned, Disowned;
    Op(w, e, v);
    Known(w, Actor(e));
    if Scans(v.prog[Actor(e)]) { KidsPlans(w, e); }
  }

  lemma KidsByBystander(w: World, e: Event, v: World, q: nat)
    requires Moves(w, e, v) && q < |w.prog| && q != Actor(e) && Sized(w) && KidsFit(w, q)
    ensures q < |v.prog| && Sized(v) && KidsFit(v, q)
  {
    hide WorldInv, Inv, Moves, WorldStep, Next, Plan, Fits, Scanned, Disowned;
    Op(w, e, v);
    Known(w, q);
    Known(w, Actor(e));
    Progs(w, e, v, q);
    if Scans(v.prog[q]) {
      forall i | 0 <= i < |w.prog| ensures v.parent[i] == w.parent[i] { Parents(w, e, v, i); }
    }
  }

  lemma {:induction false} KidsKnown(n: nat, init: nat, es: seq<Event>, p: nat)
    requires init < n && Exec(n, init, es).Some? && p < n
    ensures KidsFit(Exec(n, init, es).value, p)
  {
    hide WorldInv, WorldStep, KidsFit, Moves;
    if es == [] {
      BootKids(n, init, p);
    } else {
      var w, e := Exec(n, init, es[..|es| - 1]).value, es[|es| - 1];
      KidsKnown(n, init, es[..|es| - 1], p);
      ExecInv(n, init, es[..|es| - 1]);
      StepMoves(w, e);
      ActorThere(w, e);
      if p == Actor(e) { KidsByActor(w, e, Exec(n, init, es).value); }
      else { KidsByBystander(w, e, Exec(n, init, es).value, p); }
    }
  }

  lemma BootKids(n: nat, init: nat, p: nat)
    requires init < n && p < n
    ensures KidsFit(Boot(n, init), p)
  {
  }

  lemma ActorThere(w: World, e: Event)
    requires Sized(w) && WorldStep(w, e).Some?
    ensures Actor(e) < |w.prog|
  {
    hide Plan, Next;
  }

  // A process between steps is not inside sleep or wakeup.
  lemma RunsNoKernel(t: Table, s: Step)
    requires s.p < |t.procs| && t.procs[s.p].pc.Run? && Next(t, s).Some?
    ensures !InSleep(s) && !s.WakeLock? && !s.WakeTest?
  {
  }

  /** The answer of wait.  In every reachable state a process at the end of its scan returns -1
      exactly if it has been killed or no process has it as parent, and otherwise goes to sleep. */
  lemma WaitAnswers(n: nat, init: nat, es: seq<Event>, e: Event)
    requires init < n && Exec(n, init, es).Some? && WorldStep(Exec(n, init, es).value, e).Some? && Actor(e) < n
    ensures |WorldStep(Exec(n, init, es).value, e).value.prog| == n
    ensures var w, v, p := Exec(n, init, es).value, WorldStep(Exec(n, init, es).value, e).value, Actor(e);
            w.prog[p].WaitScan? && w.prog[p].i == n ==>
              && v.parent == w.parent
              && (v.prog[p].User? <==> w.t.procs[p].killed || !HasChild(w, p))
              && (v.prog[p].WaitSleep? <==> !w.t.procs[p].killed && HasChild(w, p))
  {
    hide WorldInv, Exec, Inv, Next, HasChild, WorldStep, KidsFit;
    ExecInv(n, init, es);
    KidsKnown(n, init, es, Actor(e));
    var w := Exec(n, init, es).value;
    StepSizes(w, e);
    Known(w, Actor(e));
    if w.prog[Actor(e)].WaitScan? && w.prog[Actor(e)].i == n { EndOfScan(w, e); }
  }

  lemma EndOfScan(w: World, e: Event)
    requires Sized(w) && WorldStep(w, e).Some? && Actor(e) < |w.prog| && KidsFit(w, Actor(e))
    requires ProgFits(w, Actor(e)) && w.prog[Actor(e)].WaitScan? && w.prog[Actor(e)].i == |w.prog|
    ensures var v, p := WorldStep(w, e).value, Actor(e);
            && |v.prog| == |w.prog| && v.parent == w.parent
            && (v.prog[p].User? <==> w.t.procs[p].killed || !HasChild(w, p))
            && (v.prog[p].WaitSleep? <==> !w.t.procs[p].killed && HasChild(w, p))
  {
    hide Next, ChildBefore;
    if e.Kernel? { RunsNoKernel(w.t, e.s); }
  }

  // ---- the whole call ----

  /** What p's call of wait has done so far: the zombies it has freed, and whether copying out the
      exit status of one has failed. */
  datatype Call = Call(freed: seq<nat>, failed: bool)

  function After(c: Call, w: World, e: Event, v: World, p: nat): Call
    requires Sized(w) && Sized(v) && |v.prog| == |w.prog| && p < |w.prog|
  {
    var i := if w.prog[p].WaitTest? then w.prog[p].i else |w.prog|;
    if v.prog[p].User? then Call([], false)
    else if Actor(e) != p || !ZombieChild(w, p, i) then c
    else Call(if v.t.procs[i].status.UNUSED? then c.freed + [i] else c.freed, c.failed || (e.Do? && e.k != 0))
  }

  function CallOf(n: nat, init: nat, es: seq<Event>, p: nat): Call
    requires init < n && p < n && Exec(n, init, es).Some?
  {
    if es == [] then Call([], false) else
    var fs := es[..|es| - 1];
    After(CallOf(n, init, fs, p), Exec(n, init, fs).value, es[|es| - 1], Exec(n, init, es).value, p)
  }

  /** Nothing until a zombie child is found, and then one of the two. */
  predicate CallFits(w: World, p: nat, c: Call)
    requires p < |w.prog|
  {
    match w.prog[p]
    case WaitFreed(i) => c == Call([i], false) || c == Call([], true)
    case WaitLeave => |c.freed| == (if c.failed then 0 else 1)
    case _ => InWait(w.prog[p]) ==> c == Call([], false)
  }

  // Where a process inside wait comes from.
  lemma CallPlans(w: World, e: Event)
    requires Sized(w) && Actor(e) < |w.prog| && Plan(w, e).Some? && ProgFits(w, Actor(e))
    ensures var g, h := w.prog[Actor(e)], Plan(w, e).value.next;
            && (InWait(h) && !h.User? ==> InWait(g) && (h.WaitLeave? ==> h == g || g.WaitFreed?))
            && (h.WaitFreed? ==> h == g || (g.WaitTest? && h.i == g.i && ZombieChild(w, Actor(e), g.i) && e.Do?
                                            && (Plan(w, e).value.op == Some(Reap(e.p, g.i)) <==> e.k == 0)
                                            && (e.k != 0 ==> Plan(w, e).value.op.None?)))
            && (g.WaitFreed? && InWait(h) ==> h == g || h.WaitLeave?)
            && (g.WaitLeave? && InWait(h) ==> h == g || h.User?)
            && (g.WaitTest? && g.i < |w.prog| && w.t.procs[g.i].status.ZOMBIE? ==> h == g || h.WaitFreed?)
  {
    hide ProcSafety.HoldsLock;
  }

  lemma CallByActor(w: World, e: Event, v: World, c: Call)
    requires Moves(w, e, v) && Actor(e) < |w.prog| && CallFits(w, Actor(e), c)
    ensures Sized(w) && Sized(v) && |v.prog| == |w.prog| && CallFits(v, Actor(e), After(c, w, e, v, Actor(e)))
  {
    hide WorldInv, Inv, Moves, WorldStep, Next, Plan, ProgFits, Fits, Scanned, Disowned;
    Op(w, e, v);
    Known(w, Actor(e));
    CallPlans(w, e);
    var p, m := Actor(e), Plan(w, e).value;
    if w.prog[p].WaitTest? && w.prog[p].i < |w.prog| && w.t.procs[w.prog[p].i].status.ZOMBIE? {
      ScanReaps(w, e, v);
    }
  }

  // A zombie in the scan's hands is freed if the exit status was copied out, and kept otherwise.
  lemma ScanReaps(w: World, e: Event, v: World)
    requires Moves(w, e, v) && Actor(e) < |w.prog| && w.prog[Actor(e)].WaitTest? && w.prog[Actor(e)].i < |w.prog|
    requires Sized(w) && w.t.procs[w.prog[Actor(e)].i].status.ZOMBIE?
    ensures Sized(v) && |v.prog| == |w.prog| && e.Do? && v.prog[e.p] == WaitFreed(w.prog[e.p].i)
    ensures v.t.procs[w.prog[e.p].i].status.UNUSED? <==> e.k == 0
  {
    hide WorldInv, Inv, Moves, WorldStep, Fits, Scanned, Disowned;
    Op(w, e, v);
    Known(w, Actor(e));
    if e.Kernel? { RunsNoKernel(w.t, e.s); }
  }

  lemma CallByBystander(w: World, e: Event, v: World, q: nat, c: Call)
    requires Moves(w, e, v) && q < |w.prog| && q != Actor(e) && CallFits(w, q, c)
    ensures Sized(w) && Sized(v) && |v.prog| == |w.prog| && CallFits(v, q, After(c, w, e, v, q))
  {
    hide WorldInv, Inv, Moves, WorldStep, Next, Plan, Fits, Scanned, Disowned;
    Op(w, e, v);
    Progs(w, e, v, q);
  }

  lemma {:induction false} CallKnown(n: nat, init: nat, es: seq<Event>, p: nat)
    requires init < n && Exec(n, init, es).Some? && p < n
    ensures CallFits(Exec(n, init, es).value, p, CallOf(n, init, es, p))
  {
    hide WorldInv, WorldStep, CallFits, Moves, After;
    if es == [] {
      BootCall(n, init, p);
    } else {
      var w, e := Exec(n, init, es[..|es| - 1]).value, es[|es| - 1];
      CallKnown(n, init, es[..|es| - 1], p);
      ExecInv(n, init, es[..|es| - 1]);
      StepMoves(w, e);
      ActorThere(w, e);
      if p == Actor(e) { CallByActor(w, e, Exec(n, init, es).value, CallOf(n, init, es[..|es| - 1], p)); }
      else { CallByBystander(w, e, Exec(n, init, es).value, p, CallOf(n, init, es[..|es| - 1], p)); }
    }
  }

  lemma BootCall(n: nat, init: nat, p: nat)
    requires init < n && p < n
    ensures CallFits(Boot(n, init), p, Call([], false))
  {
  }

  predicate Waits(g: Prog) {
    InWait(g) && !g.User?
  }

  /** What a whole call of wait does, in every run: when it returns it has freed exactly one zombie
      child, or none, and then copying out an exit status has failed, or the process has been killed,
      or it has no child. */
  lemma WaitReturns(n: nat, init: nat, es: seq<Event>, e: Event)
    requires init < n && Exec(n, init, es).Some? && WorldStep(Exec(n, init, es).value, e).Some? && Actor(e) < n
    ensures |WorldStep(Exec(n, init, es).value, e).value.prog| == n
    ensures var w, v, p := Exec(n, init, es).value, WorldStep(Exec(n, init, es).value, e).value, Actor(e);
            Waits(w.prog[p]) && v.prog[p].User? ==>
              var c := CallOf(n, init, es, p);
              || (|c.freed| == 1 && !c.failed)
              || (c.freed == [] && (c.failed || w.t.procs[p].killed || !HasChild(w, p)))
  {
    hide WorldInv, Exec, Inv, Next, HasChild, WorldStep, CallOf, Plan, ProgFits;
    ExecInv(n, init, es);
    CallKnown(n, init, es, Actor(e));
    WaitAnswers(n, init, es, e);
    var w := Exec(n, init, es).value;
    StepMoves(w, e);
    Op(w, e, WorldStep(w, e).value);
    Known(w, Actor(e));
    if Waits(w.prog[Actor(e)]) && Plan(w, e).value.next.User? { ReturnPlans(w, e); }
  }

  // wait is left at the end of the scan or with a child found.
  lemma ReturnPlans(w: World, e: Event)
    requires Sized(w) && Actor(e) < |w.prog| && Plan(w, e).Some? && ProgFits(w, Actor(e))
    requires Waits(w.prog[Actor(e)]) && Plan(w, e).value.next.User?
    ensures w.prog[Actor(e)].WaitLeave? || (w.prog[Actor(e)].WaitScan? && w.prog[Actor(e)].i == |w.prog|)
  {
    hide ProcSafety.HoldsLock;
  }

  // ---- fork ----

  /** Every process being made has somebody making it. */
  ghost predicate Made(w: World, i: nat)
    requires Sized(w)
  {
    Making(w, i) ==> exists p :: 0 <= p < |w.prog| && ForkTarget(w.prog[p]) == Some(i)
  }

  // fork gives up its child only once it is neither USED nor half made.
  lemma MakerPlans(w: World, e: Event, i: nat)
    requires Sized(w) && Actor(e) < |w.prog| && Plan(w, e).Some? && ProgFits(w, Actor(e))
    ensures var g, m := w.prog[Actor(e)], Plan(w, e).value;
            && (ForkTarget(g) == Some(i) && ForkTarget(m.next) != Some(i) ==>
                  m.op == Some(Start(Actor(e), i)) || m.op == Some(Reap(Actor(e), i)))
            && (m.op == Some(Spawn(Actor(e), i)) ==> ForkTarget(m.next) == Some(i))
  {
    hide ProcSafety.HoldsLock;
  }

  lemma Finishes(t: Table, p: nat, i: nat, u: Table)
    requires Next(t, Start(p, i)) == Some(u) || Next(t, Reap(p, i)) == Some(u)
    ensures i < |u.procs| && !u.procs[i].status.USED?
  {
  }

  lemma MadeKept(w: World, e: Event, v: World, i: nat)
    requires Moves(w, e, v) && i < |w.prog| && Sized(w) && Made(w, i)
    ensures Sized(v) && Made(v, i)
  {
    hide WorldInv, Inv, Moves, WorldStep, Next, Plan, ProgFits, Fits, Scanned, Disowned, ForkTarget;
    Op(w, e, v);
    Known(w, Actor(e));
    MakerPlans(w, e, i);
    Statuses(w, e, v, i);
    var m := Plan(w, e).value;
    if Making(v, i) && Making(w, i) {
      var p :| 0 <= p < |w.prog| && ForkTarget(w.prog[p]) == Some(i);
      if p == Actor(e) {
        if ForkTarget(v.prog[p]) != Some(i) { Finishes(w.t, p, i, v.t); }
      } else {
        MakerStays(w, e, v, p);
      }
      assert ForkTarget(v.prog[p]) == Some(i);
    } else if Making(v, i) {
      Spawned(w, e, v, i);
      assert ForkTarget(v.prog[Actor(e)]) == Some(i);
    }
  }

  lemma MakerStays(w: World, e: Event, v: World, p: nat)
    requires Moves(w, e, v) && p < |w.prog| && p != Actor(e) && ForkTarget(w.prog[p]).Some?
    ensures |v.prog| == |w.prog| && v.prog[p] == w.prog[p]
  {
    hide WorldInv, Inv, Moves, WorldStep, Next, Plan, Scanned, Disowned;
    Op(w, e, v);
    Known(w, p);
    Progs(w, e, v, p);
  }

  lemma Spawned(w: World, e: Event, v: World, i: nat)
    requires Moves(w, e, v) && i < |w.prog| && Making(v, i) && !Making(w, i)
    ensures Actor(e) < |w.prog| && Sized(w) && Plan(w, e).Some? && Plan(w, e).value.op == Some(Spawn(Actor(e), i))
  {
    hide WorldInv, Inv, Moves, WorldStep, Next, Plan, NewProgs;
    Op(w, e, v);
    if Plan(w, e).value.op.Some? { ProcSafety.StatusStep(w.t, Plan(w, e).value.op.value, i); }
  }

  /** fork leaves nothing half made: in every reachable state each process that is USED is being
      made by somebody. */
  lemma {:induction false} NoneHalfMade(n: nat, init: nat, es: seq<Event>, i: nat)
    requires init < n && Exec(n, init, es).Some? && i < n
    ensures Made(Exec(n, init, es).value, i)
  {
    hide WorldInv, WorldStep, Made, Moves;
    if es == [] {
      BootMade(n, init, i);
    } else {
      NoneHalfMade(n, init, es[..|es| - 1], i);
      ExecInv(n, init, es[..|es| - 1]);
      StepMoves(Exec(n, init, es[..|es| - 1]).value, es[|es| - 1]);
      MadeKept(Exec(n, init, es[..|es| - 1]).value, es[|es| - 1], Exec(n, init, es).value, i);
    }
  }

  lemma BootMade(n: nat, init: nat, i: nat)
    requires init < n && i < n
    ensures Made(Boot(n, init), i)
  {
  }
}
